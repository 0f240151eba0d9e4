/**
 * Tracks: the snapshots of one particle, recorded frame after frame
 * (bettercv/track.py).
 *
 * The queries of a track are defined once on its sequence of snapshots, so
 * that the association rules of the detection pipeline can speak about the
 * list of tracks as a sequence of such sequences; the `Track` class reads
 * them off its `snapshots` field.
 */
module Tracks {
  import opened PyLib
  import opened Videos
  import opened Contours

  /** A contour seen in a frame. */
  datatype Snapshot<I> = Snapshot(frame: Frame<I>, contour: Contour)

  /** `start`: the first snapshot; IndexError for an empty track. */
  function StartOf<T>(s: seq<T>): (r: Result<T>)
    ensures r.Ok? <==> s != []
    ensures r.Ok? ==> r.value == s[0]
    ensures r.Err? ==> r.fault == IndexError
  {
    PyIndex(s, 0)
  }

  /** `end`: the last snapshot; IndexError for an empty track. */
  function EndOf<T>(s: seq<T>): (r: Result<T>)
    ensures r.Ok? <==> s != []
    ensures r.Ok? ==> r.value == s[|s| - 1]
    ensures r.Err? ==> r.fault == IndexError
  {
    PyIndex(s, -1)
  }

  /** `extent`: frames between the first and the last snapshot. */
  function ExtentOf<I>(s: seq<Snapshot<I>>): (r: Result<int>)
    ensures r.Ok? <==> s != []
    ensures r.Ok? ==> r.value == s[|s| - 1].frame.index - s[0].frame.index
    ensures r.Err? ==> r.fault == IndexError
    ensures |s| == 1 ==> r == Ok(0)
  {
    var e := EndOf(s);
    if e.Err? then Err(e.fault) else Ok(e.value.frame.index - StartOf(s).value.frame.index)
  }

  /** `duration`: the time between the first and the last snapshot. */
  function DurationOf<I>(s: seq<Snapshot<I>>): (r: Result<int>)
    ensures r.Ok? <==> s != []
    ensures r.Ok? ==> r.value == s[|s| - 1].frame.timestamp - s[0].frame.timestamp
    ensures r.Err? ==> r.fault == IndexError
    ensures |s| == 1 ==> r == Ok(0)
  {
    var e := EndOf(s);
    if e.Err? then Err(e.fault) else Ok(e.value.frame.timestamp - StartOf(s).value.frame.timestamp)
  }

  /**
   * Recording appends: the new snapshot becomes the end, the start stays the
   * same unless the track was empty, and the earlier snapshots are kept.
   */
  lemma RecordedQueries<T>(s: seq<T>, x: T)
    ensures EndOf(s + [x]) == Ok(x)
    ensures StartOf(s + [x]) == if s == [] then Ok(x) else StartOf(s)
    ensures (s + [x])[..|s|] == s && |s + [x]| == |s| + 1
  {
  }

  /**
   * `min(len(snapshots) - 1, 4)`: the snapshot a particle is measured on,
   * the fifth when there are at least five, otherwise the last.
   */
  function RepresentativeIndex(n: nat): (i: int)
    ensures n > 0 ==> 0 <= i < n
    ensures n >= 5 ==> i == 4
    ensures n < 5 ==> i == n - 1
  {
    if n - 1 <= 4 then n - 1 else 4
  }

  /**
   * `snapshots[min(len - 1, 4)]`. An empty track gives index -1, which
   * raises IndexError on an empty list.
   */
  function Representative<T>(s: seq<T>): (r: Result<T>)
    ensures r.Ok? <==> s != []
    ensures r.Err? ==> r.fault == IndexError
    ensures |s| >= 5 ==> r == Ok(s[4])
    ensures 0 < |s| < 5 ==> r == Ok(s[|s| - 1])
  {
    PyIndex(s, RepresentativeIndex(|s|))
  }

  class Track<I> {
    var snapshots: seq<Snapshot<I>>

    /** A new track has no snapshots. */
    constructor ()
      ensures snapshots == []
    {
      snapshots := [];
    }

    /** `track[i]`, with Python's negative indices. */
    function At(i: int): (r: Result<Snapshot<I>>)
      reads this
      ensures r.Ok? <==> -|snapshots| <= i < |snapshots|
      ensures 0 <= i < |snapshots| ==> r == Ok(snapshots[i])
      ensures -|snapshots| <= i < 0 ==> r == Ok(snapshots[|snapshots| + i])
      ensures r.Err? ==> r.fault == IndexError
    {
      PyIndex(snapshots, i)
    }

    /** `iter(track)`: the snapshots in recording order. */
    function Elements(): (r: seq<Snapshot<I>>)
      reads this
      ensures |r| == |snapshots| && forall i :: 0 <= i < |r| ==> At(i) == Ok(r[i])
    {
      snapshots
    }

    function Start(): (r: Result<Snapshot<I>>)
      reads this
      ensures r == At(0)
    {
      StartOf(snapshots)
    }

    function End(): (r: Result<Snapshot<I>>)
      reads this
      ensures r == At(-1)
    {
      EndOf(snapshots)
    }

    function Extent(): (r: Result<int>)
      reads this
      ensures r.Ok? <==> Start().Ok?
      ensures r.Ok? ==> r.value == End().value.frame.index - Start().value.frame.index
    {
      ExtentOf(snapshots)
    }

    function Duration(): (r: Result<int>)
      reads this
      ensures r.Ok? <==> Start().Ok?
      ensures r.Ok? ==> r.value == End().value.frame.timestamp - Start().value.frame.timestamp
    {
      DurationOf(snapshots)
    }

    /** `record`: appends `Snapshot(frame, contour)`. */
    method Record(contour: Contour, frame: Frame<I>)
      modifies this
      ensures snapshots == old(snapshots) + [Snapshot(frame, contour)]
      ensures End() == Ok(Snapshot(frame, contour))
      ensures old(snapshots) != [] ==> Start() == old(Start())
    {
      snapshots := snapshots + [Snapshot(frame, contour)];
    }
  }
}
