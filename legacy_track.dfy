/**
 * The older track record of the top-level track.py: a snapshot stores the
 * frame's index and timestamp instead of the frame, and the track picks its
 * own representative snapshot.
 */
module LegacyTracks {
  import opened PyLib
  import opened Videos
  import opened Contours
  import Tracks

  datatype Snapshot = Snapshot(index: int, timestamp: int, contour: Contour)

  class Track {
    var snapshots: seq<Snapshot>

    /** A new track has no snapshots. */
    constructor ()
      ensures snapshots == []
    {
      snapshots := [];
    }

    /** `track[i]`, with Python's negative indices. */
    function At(i: int): (r: Result<Snapshot>)
      reads this
      ensures r.Ok? <==> -|snapshots| <= i < |snapshots|
      ensures 0 <= i < |snapshots| ==> r == Ok(snapshots[i])
      ensures -|snapshots| <= i < 0 ==> r == Ok(snapshots[|snapshots| + i])
      ensures r.Err? ==> r.fault == IndexError
    {
      PyIndex(snapshots, i)
    }

    /** `iter(track)`: the snapshots in recording order. */
    function Elements(): (r: seq<Snapshot>)
      reads this
      ensures |r| == |snapshots| && forall i :: 0 <= i < |r| ==> At(i) == Ok(r[i])
    {
      snapshots
    }

    /** `start`: the first snapshot; IndexError for an empty track. */
    function Start(): (r: Result<Snapshot>)
      reads this
      ensures r == At(0)
      ensures r.Err? ==> r.fault == IndexError
    {
      Tracks.StartOf(snapshots)
    }

    /** `end`: the last snapshot; IndexError for an empty track. */
    function End(): (r: Result<Snapshot>)
      reads this
      ensures r == At(-1)
      ensures r.Err? ==> r.fault == IndexError
    {
      Tracks.EndOf(snapshots)
    }

    /** `extent`: the difference of the end and start frame indices. */
    function Extent(): (r: Result<int>)
      reads this
      ensures r.Ok? <==> snapshots != []
      ensures r.Ok? ==> r.value == snapshots[|snapshots| - 1].index - snapshots[0].index
      ensures |snapshots| == 1 ==> r == Ok(0)
    {
      if snapshots == [] then Err(End().fault) else Ok(End().value.index - Start().value.index)
    }

    /** `duration`: the difference of the end and start timestamps. */
    function Duration(): (r: Result<int>)
      reads this
      ensures r.Ok? <==> snapshots != []
      ensures r.Ok? ==> r.value == snapshots[|snapshots| - 1].timestamp - snapshots[0].timestamp
    {
      if snapshots == [] then Err(End().fault) else Ok(End().value.timestamp - Start().value.timestamp)
    }

    /** `_relevant_snapshot_index`: `min(len(snapshots) - 1, 4)`. */
    function RelevantSnapshotIndex(): (i: int)
      reads this
      ensures snapshots != [] ==> 0 <= i < |snapshots|
      ensures snapshots == [] ==> i == -1
    {
      Tracks.RepresentativeIndex(|snapshots|)
    }

    /**
     * `relevant_snapshot`: the fifth snapshot when there are at least five,
     * otherwise the last; an empty track raises IndexError.
     */
    function RelevantSnapshot(): (r: Result<Snapshot>)
      reads this
      ensures r == At(RelevantSnapshotIndex())
      ensures r.Ok? <==> snapshots != []
      ensures |snapshots| >= 5 ==> r == Ok(snapshots[4])
      ensures 0 < |snapshots| < 5 ==> r == End()
    {
      Tracks.Representative(snapshots)
    }

    /** `type`: the classification is a fixed placeholder. */
    function Type(): (r: string)
      ensures r == "Don't know yet"
    {
      "Don't know yet"
    }

    /** `record`: appends the frame's index and timestamp with the contour. */
    method Record<I>(contour: Contour, frame: Frame<I>)
      modifies this
      ensures snapshots == old(snapshots) + [Snapshot(frame.index, frame.timestamp, contour)]
      ensures End() == Ok(Snapshot(frame.index, frame.timestamp, contour))
      ensures old(snapshots) != [] ==> Start() == old(Start())
    {
      snapshots := snapshots + [Snapshot(frame.index, frame.timestamp, contour)];
    }
  }
}
