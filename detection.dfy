/**
 * The detection pipeline of cloudchamber/detection.py: frames are
 * preprocessed, background-subtracted in batches and gated; the prominent,
 * track-like contours of each binary frame are then associated with the
 * tracks found so far, and the long tracks become particle events.
 *
 * Association is specified on the contents of the track list, a sequence
 * of snapshot sequences (`Rows`); the method `UpdateTracks` mutates the
 * `Track` objects and is proved to produce exactly those contents.
 */
module Detection {
  import opened PyLib
  import opened Types
  import opened Videos
  import opened Contours
  import opened Tracks
  import opened Streams
  import Particles
  import Images

  const BlurSize: int := 15
  const DriftDistance: int := 40
  const DistClose: int := 100
  /** The width bound `retain_track_like` writes as a literal. */
  const MaxTrackWidth: int := 100
  const MinContourSize: int := 500
  const MinTrackLength: int := 5
  const MinThreshold: int := 1
  const BgJump: int := 5
  const BgBatchSize: int := 200
  const ScaleFactor: real := 0.6

  /**
   * `preprocess`: scale by 0.6, convert to grayscale, then blur with the
   * square 15 x 15 kernel; index and timestamp are kept.
   */
  function Preprocess<I>(frame: Frame<I>, v: Vision<I>): (r: Frame<I>)
    ensures r.index == frame.index && r.timestamp == frame.timestamp
    ensures r.image == v.blur(v.grayscale(v.scale(frame.image, ScaleFactor)), BlurSize, BlurSize)
  {
    WithImage(frame, v.blur(v.grayscale(v.scale(frame.image, ScaleFactor)), BlurSize, BlurSize))
  }

  function PreprocessAll<I>(frames: seq<Frame<I>>, v: Vision<I>): (r: seq<Frame<I>>)
    ensures |r| == |frames| && forall k :: 0 <= k < |r| ==> r[k] == Preprocess(frames[k], v)
    decreases |frames|
  {
    if frames == [] then [] else [Preprocess(frames[0], v)] + PreprocessAll(frames[1..], v)
  }

  /** `has_tracks`: the strict test `threshold > MIN_THRESHOLD`. */
  predicate HasTracks(threshold: real)
  {
    threshold > MinThreshold as real
  }

  /** A threshold of exactly 1 is rejected; anything above it passes. */
  lemma HasTracksStrict(threshold: real)
    ensures !HasTracks(MinThreshold as real)
    ensures HasTracks(threshold) <==> threshold > 1.0
  {
  }

  // ------------------------------------------------------ contour filters

  predicate Prominent(c: Contour)
  {
    c.area > MinContourSize as real
  }

  /** `find_prominent_contours`: the outer contours of the binary with area above 500. */
  function FindProminentContours<I>(binary: Frame<I>, v: Vision<I>): (r: seq<Contour>)
    ensures var all := FindContours(binary.image, true, v.findContours);
      forall c :: c in r <==> c in all && c.area > 500.0
  {
    var all := FindContours(binary.image, true, v.findContours);
    FilterMembers(all, Prominent);
    Filter(all, Prominent)
  }

  /** It keeps exactly the contours of area above 500, in their original order. */
  lemma ProminentInOrder<I>(binary: Frame<I>, v: Vision<I>)
    ensures var all, r, ix := v.findContours(binary.image, RetrExternal), FindProminentContours(binary, v),
        Positions(v.findContours(binary.image, RetrExternal), Prominent);
      && |r| == |ix| && StrictlyIncreasing(ix)
      && (forall k :: 0 <= k < |ix| ==> ix[k] < |all| && r[k] == all[ix[k]])
      && (forall i :: 0 <= i < |all| ==> (i in ix <==> all[i].area > 500.0))
  {
    FilterExactly(v.findContours(binary.image, RetrExternal), Prominent);
  }

  /** The shape test of `retain_track_like`, for a contour of nonzero width. */
  predicate TrackLike(c: Contour)
  {
    Width(c) != 0.0 && Length(c) / Width(c) > 3.0 && Width(c) < MaxTrackWidth as real
  }

  /**
   * `retain_track_like`: a generator keeping the contours more than three
   * times as long as wide and narrower than 100. The ratio is computed
   * first, so the first contour of zero width raises ZeroDivisionError.
   */
  function RetainTrackLike(cs: seq<Contour>): (r: Partial<Contour>)
    ensures r.fault.Some? <==> exists k :: 0 <= k < |cs| && Width(cs[k]) == 0.0
    ensures r.fault.Some? ==> r.fault == Some(ZeroDivisionError)
    decreases |cs|
  {
    if cs == [] then Partial([], None)
    else if Width(cs[0]) == 0.0 then Partial([], Some(ZeroDivisionError))
    else
      var rest := RetainTrackLike(cs[1..]);
      assert forall k :: 1 <= k < |cs| ==> cs[k] == cs[1..][k - 1];
      Partial((if TrackLike(cs[0]) then [cs[0]] else []) + rest.items, rest.fault)
  }

  /**
   * Before the first zero-width contour (or over all of them if there is
   * none) the generator yields exactly the track-like contours, in order.
   */
  lemma {:induction false} RetainTrackLikeFilters(cs: seq<Contour>, z: nat)
    requires z <= |cs| && (forall k :: 0 <= k < z ==> Width(cs[k]) != 0.0)
    requires z == |cs| || Width(cs[z]) == 0.0
    ensures RetainTrackLike(cs).items == Filter(cs[..z], TrackLike)
    decreases |cs|
  {
    if cs != [] && z > 0 {
      assert cs[..z][1..] == cs[1..][..z - 1];
      RetainTrackLikeFilters(cs[1..], z - 1);
    } else if cs != [] {
      assert cs[..z] == [];
    }
  }

  // ------------------------------------------------------- association

  /** The snapshot `record` appends for a contour in a binary frame. */
  function SnapshotOf<I>(c: Contour, frame: Frame<I>): Snapshot<I>
  {
    Snapshot(frame, c)
  }

  /**
   * Whether a track (given by its snapshots) is close to a contour in the
   * frame `index`, evaluated as the source does: `track.end` (IndexError on
   * an empty track), the two centroids (ZeroDivisionError for a zero
   * `m00`), then the distance test and the frame test. `distance_to < 40`
   * is compared squared, `< 1600`.
   */
  function Matches<I>(row: seq<Snapshot<I>>, c: Contour, index: int): (r: Result<bool>)
    ensures r.Err? <==> row == [] || Centroid(row[|row| - 1].contour).Err? || Centroid(c).Err?
    ensures r.Err? ==> r.fault == if row == [] then IndexError else ZeroDivisionError
    ensures r.Ok? ==> (r.value <==>
      PointDistanceSq(Centroid(row[|row| - 1].contour).value, Centroid(c).value) < (DriftDistance * DriftDistance) as real &&
      row[|row| - 1].frame.index == index - 1)
  {
    var end := EndOf(row);
    if end.Err? then Err(end.fault)
    else
      var p := Centroid(end.value.contour);
      if p.Err? then Err(p.fault)
      else
        var q := Centroid(c);
        if q.Err? then Err(q.fault)
        else Ok(PointDistanceSq(p.value, q.value) < (DriftDistance * DriftDistance) as real && index - end.value.frame.index == 1)
  }

  /** The comprehension of `find_close_tracks` from list position `i` on, as positions. */
  function FindCloseFrom<I>(rows: seq<seq<Snapshot<I>>>, c: Contour, index: int, i: nat): (r: Result<seq<nat>>)
    requires i <= |rows|
    decreases |rows| - i
  {
    if i == |rows| then Ok([])
    else
      var m := Matches(rows[i], c, index);
      if m.Err? then Err(m.fault)
      else
        var rest := FindCloseFrom(rows, c, index, i + 1);
        if rest.Err? then rest else Ok((if m.value then [i] else []) + rest.value)
  }

  lemma {:induction false} FindCloseFromSpec<I>(rows: seq<seq<Snapshot<I>>>, c: Contour, index: int, i: nat)
    requires i <= |rows|
    ensures var r := FindCloseFrom(rows, c, index, i);
      && (r.Ok? <==> forall j :: i <= j < |rows| ==> Matches(rows[j], c, index).Ok?)
      && (r.Err? ==> exists j :: (i <= j < |rows| && Matches(rows[j], c, index) == Err(r.fault) &&
            forall j' :: i <= j' < j ==> Matches(rows[j'], c, index).Ok?))
      && (r.Ok? ==> StrictlyIncreasing(r.value) && (forall k :: 0 <= k < |r.value| ==> i <= r.value[k] < |rows|))
      && (r.Ok? ==> forall j :: i <= j < |rows| ==> (j in r.value <==> Matches(rows[j], c, index) == Ok(true)))
    decreases |rows| - i
  {
    FindCloseFromOk(rows, c, index, i);
    FindCloseFromErr(rows, c, index, i);
    FindCloseFromOrder(rows, c, index, i);
    FindCloseFromMembers(rows, c, index, i);
  }

  lemma {:induction false} FindCloseFromOk<I>(rows: seq<seq<Snapshot<I>>>, c: Contour, index: int, i: nat)
    requires i <= |rows|
    ensures FindCloseFrom(rows, c, index, i).Ok? <==> forall j :: i <= j < |rows| ==> Matches(rows[j], c, index).Ok?
    decreases |rows| - i
  {
    if i < |rows| {
      FindCloseFromOk(rows, c, index, i + 1);
    }
  }

  lemma {:induction false} FindCloseFromErr<I>(rows: seq<seq<Snapshot<I>>>, c: Contour, index: int, i: nat)
    requires i <= |rows|
    ensures var r := FindCloseFrom(rows, c, index, i);
      r.Err? ==> exists j :: (i <= j < |rows| && Matches(rows[j], c, index) == Err(r.fault) &&
        forall j' :: i <= j' < j ==> Matches(rows[j'], c, index).Ok?)
    decreases |rows| - i
  {
    var r := FindCloseFrom(rows, c, index, i);
    if i < |rows| && r.Err? {
      var m := Matches(rows[i], c, index);
      if m.Err? {
        assert Matches(rows[i], c, index) == Err(r.fault);
      } else {
        FindCloseFromErr(rows, c, index, i + 1);
        var rest := FindCloseFrom(rows, c, index, i + 1);
        assert rest == r;
        var j :| i + 1 <= j < |rows| && Matches(rows[j], c, index) == Err(r.fault) &&
          forall j' :: i + 1 <= j' < j ==> Matches(rows[j'], c, index).Ok?;
        assert forall j' :: i <= j' < j ==> Matches(rows[j'], c, index).Ok?;
      }
    }
  }

  lemma {:induction false} FindCloseFromOrder<I>(rows: seq<seq<Snapshot<I>>>, c: Contour, index: int, i: nat)
    requires i <= |rows|
    ensures var r := FindCloseFrom(rows, c, index, i);
      r.Ok? ==> StrictlyIncreasing(r.value) && (forall k :: 0 <= k < |r.value| ==> i <= r.value[k] < |rows|)
    decreases |rows| - i
  {
    var r := FindCloseFrom(rows, c, index, i);
    if i < |rows| && r.Ok? {
      FindCloseFromOrder(rows, c, index, i + 1);
      var rest := FindCloseFrom(rows, c, index, i + 1).value;
      if Matches(rows[i], c, index).value {
        assert r.value == [i] + rest;
      } else {
        assert r.value == rest;
      }
    }
  }

  lemma {:induction false} FindCloseFromMembers<I>(rows: seq<seq<Snapshot<I>>>, c: Contour, index: int, i: nat)
    requires i <= |rows|
    ensures var r := FindCloseFrom(rows, c, index, i);
      r.Ok? ==> forall j :: i <= j < |rows| ==> (j in r.value <==> Matches(rows[j], c, index) == Ok(true))
    decreases |rows| - i
  {
    var r := FindCloseFrom(rows, c, index, i);
    if i < |rows| && r.Ok? {
      FindCloseFromMembers(rows, c, index, i + 1);
      FindCloseFromOrder(rows, c, index, i + 1);
      var rest := FindCloseFrom(rows, c, index, i + 1).value;
      assert i !in rest;
      if Matches(rows[i], c, index).value {
        assert r.value == [i] + rest;
      } else {
        assert r.value == rest;
      }
    }
  }

  /** `find_close_tracks`, as the positions of the matching tracks. */
  function FindClose<I>(rows: seq<seq<Snapshot<I>>>, c: Contour, index: int): Result<seq<nat>>
  {
    FindCloseFrom(rows, c, index, 0)
  }

  /**
   * `find_close_tracks` succeeds exactly when the test of every track can be evaluated,
   * and then lists, in list order, exactly the tracks whose end is within
   * 40 of the contour's centroid and lies in the previous frame. Otherwise
   * it raises the fault of the first track whose test cannot be evaluated.
   */
  lemma FindCloseExactly<I>(rows: seq<seq<Snapshot<I>>>, c: Contour, index: int)
    ensures var r := FindClose(rows, c, index);
      && (r.Ok? <==> forall j :: 0 <= j < |rows| ==> Matches(rows[j], c, index).Ok?)
      && (r.Err? ==> exists j :: (0 <= j < |rows| && Matches(rows[j], c, index) == Err(r.fault) &&
            forall j' :: 0 <= j' < j ==> Matches(rows[j'], c, index).Ok?))
      && (r.Ok? ==> StrictlyIncreasing(r.value) && forall k :: 0 <= k < |r.value| ==> r.value[k] < |rows|)
      && (r.Ok? ==> forall j :: 0 <= j < |rows| ==> (j in r.value <==> Matches(rows[j], c, index) == Ok(true)))
  {
    FindCloseFromSpec(rows, c, index, 0);
  }

  /** The snapshots of every track in the list, in list order. */
  function Rows<I>(ts: seq<Track<I>>): (r: seq<seq<Snapshot<I>>>)
    reads ts
    ensures |r| == |ts| && forall k :: 0 <= k < |ts| ==> r[k] == ts[k].snapshots
  {
    seq(|ts|, k requires 0 <= k < |ts| reads ts => ts[k].snapshots)
  }

  /** `find_close_tracks` on the track objects: the tracks at the matching positions. */
  function FindCloseTracks<I>(c: Contour, index: int, ts: seq<Track<I>>): (r: Result<seq<Track<I>>>)
    reads ts
    ensures var f := FindClose(Rows(ts), c, index);
      && (r.Ok? <==> f.Ok?)
      && (r.Err? ==> r.fault == f.fault)
      && (r.Ok? ==> |r.value| == |f.value| && forall k :: 0 <= k < |f.value| ==> f.value[k] < |ts| && r.value[k] == ts[f.value[k]])
  {
    var f := FindClose(Rows(ts), c, index);
    FindCloseExactly(Rows(ts), c, index);
    if f.Err? then Err(f.fault)
    else Ok(seq(|f.value|, k requires 0 <= k < |f.value| => ts[f.value[k]]))
  }

  /**
   * One contour of `update_tracks`: more than one close track raises,
   * exactly one is extended by the contour's snapshot, and none starts a
   * new track at the end of the list.
   */
  function AssociateOne<I>(rows: seq<seq<Snapshot<I>>>, c: Contour, frame: Frame<I>): (r: Result<seq<seq<Snapshot<I>>>>)
    ensures r.Ok? ==> |rows| <= |r.value| <= |rows| + 1
    ensures r.Ok? ==> forall j :: 0 <= j < |rows| ==> r.value[j] == rows[j] || r.value[j] == rows[j] + [SnapshotOf(c, frame)]
  {
    var close := FindClose(rows, c, frame.index);
    if close.Err? then Err(close.fault)
    else if |close.value| > 1 then Err(AmbiguousMatch)
    else if |close.value| == 1 then
      FindCloseExactly(rows, c, frame.index);
      var p := close.value[0];
      Ok(rows[p := rows[p] + [SnapshotOf(c, frame)]])
    else Ok(rows + [[SnapshotOf(c, frame)]])
  }

  /** Exactly one close track: only that track changes, gaining the snapshot at its end. */
  lemma AssociateOneMatch<I>(rows: seq<seq<Snapshot<I>>>, c: Contour, frame: Frame<I>, p: nat)
    requires FindClose(rows, c, frame.index) == Ok([p])
    ensures AssociateOne(rows, c, frame).Ok?
    ensures var r := AssociateOne(rows, c, frame).value;
      |r| == |rows| && p < |rows| && r[p] == rows[p] + [Snapshot(frame, c)] &&
      forall j :: 0 <= j < |rows| && j != p ==> r[j] == rows[j]
  {
    FindCloseExactly(rows, c, frame.index);
  }

  /** No close track: one single-snapshot track is appended at the end. */
  lemma AssociateOneNew<I>(rows: seq<seq<Snapshot<I>>>, c: Contour, frame: Frame<I>)
    requires FindClose(rows, c, frame.index) == Ok([])
    ensures AssociateOne(rows, c, frame) == Ok(rows + [[Snapshot(frame, c)]])
  {
  }

  /** More than one close track: an exception, whatever the tracks hold. */
  lemma AssociateOneAmbiguous<I>(rows: seq<seq<Snapshot<I>>>, c: Contour, frame: Frame<I>)
    requires FindClose(rows, c, frame.index).Ok? && |FindClose(rows, c, frame.index).value| > 1
    ensures AssociateOne(rows, c, frame) == Err(AmbiguousMatch)
  {
  }

  /** The outcome of `update_tracks`: the track contents and the exception raised, if any. */
  datatype Outcome<I> = Outcome(rows: seq<seq<Snapshot<I>>>, fault: Option<Fault>)

  /**
   * The contours one after the other; at the first exception the contents
   * reached so far are kept, as the mutations of the earlier contours are.
   */
  function AssociateAll<I>(rows: seq<seq<Snapshot<I>>>, cs: seq<Contour>, frame: Frame<I>): (r: Outcome<I>)
    ensures |rows| <= |r.rows| <= |rows| + |cs|
    decreases |cs|
  {
    if cs == [] then Outcome(rows, None)
    else
      var next := AssociateOne(rows, cs[0], frame);
      if next.Err? then Outcome(rows, Some(next.fault))
      else AssociateAll(next.value, cs[1..], frame)
  }

  /** One contour of `AssociateAll` on a suffix of the contours. */
  lemma AssociateAllStep<I>(rows: seq<seq<Snapshot<I>>>, cs: seq<Contour>, i: nat, frame: Frame<I>)
    requires i < |cs|
    ensures var next := AssociateOne(rows, cs[i], frame);
      AssociateAll(rows, cs[i..], frame) ==
        if next.Err? then Outcome(rows, Some(next.fault)) else AssociateAll(next.value, cs[i + 1..], frame)
  {
    assert cs[i..][1..] == cs[i + 1..];
    assert cs[i..][0] == cs[i];
  }

  /**
   * `update_tracks` over a contour generator that may itself raise after
   * its items: that exception surfaces once every item has been handled.
   */
  function Update<I>(rows: seq<seq<Snapshot<I>>>, contours: Partial<Contour>, frame: Frame<I>): (r: Outcome<I>)
    ensures |rows| <= |r.rows| <= |rows| + |contours.items|
    ensures contours.fault.Some? ==> r.fault.Some?
  {
    var o := AssociateAll(rows, contours.items, frame);
    if o.fault.None? then Outcome(o.rows, contours.fault) else o
  }

  // ------------------------------------------------ the track invariant

  /** Consecutive snapshots of a track are on consecutive frames. */
  predicate Consecutive<I>(row: seq<Snapshot<I>>)
  {
    forall k :: 0 < k < |row| ==> row[k].frame.index == row[k - 1].frame.index + 1
  }

  /** Every track has a snapshot and its snapshots are on consecutive frames. */
  predicate WellFormed<I>(rows: seq<seq<Snapshot<I>>>)
  {
    forall j :: 0 <= j < |rows| ==> rows[j] != [] && Consecutive(rows[j])
  }

  lemma AssociateOneWellFormed<I>(rows: seq<seq<Snapshot<I>>>, c: Contour, frame: Frame<I>)
    requires WellFormed(rows) && AssociateOne(rows, c, frame).Ok?
    ensures WellFormed(AssociateOne(rows, c, frame).value)
  {
    FindCloseExactly(rows, c, frame.index);
    var close := FindClose(rows, c, frame.index).value;
    if |close| == 1 {
      var p := close[0];
      assert close == [p] && p in close;
      MatchWellFormed(rows, c, frame, p);
    } else {
      assert close == [];
      NewWellFormed(rows, c, frame);
    }
  }

  lemma MatchWellFormed<I>(rows: seq<seq<Snapshot<I>>>, c: Contour, frame: Frame<I>, p: nat)
    requires WellFormed(rows) && FindClose(rows, c, frame.index) == Ok([p])
    requires p < |rows| && Matches(rows[p], c, frame.index) == Ok(true)
    ensures AssociateOne(rows, c, frame).Ok? && WellFormed(AssociateOne(rows, c, frame).value)
  {
    AssociateOneMatch(rows, c, frame, p);
    ConsecutiveAppend(rows[p], Snapshot(frame, c));
    var r := AssociateOne(rows, c, frame).value;
    forall j | 0 <= j < |r|
      ensures r[j] != [] && Consecutive(r[j])
    {
      if j != p {
        assert r[j] == rows[j];
      }
    }
  }

  lemma NewWellFormed<I>(rows: seq<seq<Snapshot<I>>>, c: Contour, frame: Frame<I>)
    requires WellFormed(rows) && FindClose(rows, c, frame.index) == Ok([])
    ensures AssociateOne(rows, c, frame).Ok? && WellFormed(AssociateOne(rows, c, frame).value)
  {
    AssociateOneNew(rows, c, frame);
    var r := rows + [[Snapshot(frame, c)]];
    forall j | 0 <= j < |r|
      ensures r[j] != [] && Consecutive(r[j])
    {
      if j < |rows| {
        assert r[j] == rows[j];
      }
    }
  }

  /** A snapshot on the frame after a track's end extends it consecutively. */
  lemma ConsecutiveAppend<I>(row: seq<Snapshot<I>>, snap: Snapshot<I>)
    requires row != [] && Consecutive(row) && snap.frame.index == row[|row| - 1].frame.index + 1
    ensures Consecutive(row + [snap])
  {
    var r := row + [snap];
    forall k | 0 < k < |r|
      ensures r[k].frame.index == r[k - 1].frame.index + 1
    {
      if k < |row| {
        assert r[k] == row[k] && r[k - 1] == row[k - 1];
      }
    }
  }

  /** `update_tracks` keeps every track non-empty and on consecutive frames. */
  lemma {:induction false} AssociateAllWellFormed<I>(rows: seq<seq<Snapshot<I>>>, cs: seq<Contour>, frame: Frame<I>)
    requires WellFormed(rows)
    ensures WellFormed(AssociateAll(rows, cs, frame).rows)
    decreases |cs|
  {
    if cs != [] && AssociateOne(rows, cs[0], frame).Ok? {
      AssociateOneWellFormed(rows, cs[0], frame);
      AssociateAllWellFormed(AssociateOne(rows, cs[0], frame).value, cs[1..], frame);
    }
  }

  lemma UpdateWellFormed<I>(rows: seq<seq<Snapshot<I>>>, contours: Partial<Contour>, frame: Frame<I>)
    requires WellFormed(rows)
    ensures WellFormed(Update(rows, contours, frame).rows)
  {
    AssociateAllWellFormed(rows, contours.items, frame);
  }

  /** On consecutive frames, the extent of a track is its number of snapshots minus one. */
  lemma {:induction false} ExtentCountsSnapshots<I>(row: seq<Snapshot<I>>)
    requires row != [] && Consecutive(row)
    ensures ExtentOf(row) == Ok(|row| - 1)
    decreases |row|
  {
    if |row| > 1 {
      var front := row[..|row| - 1];
      assert Consecutive(front);
      ExtentCountsSnapshots(front);
    }
  }

  /**
   * Within one frame a track gains at most one snapshot: afterwards every
   * old track is either unchanged or extended by one snapshot of this
   * frame, and the new tracks hold one snapshot of this frame each.
   */
  ghost predicate GrownBy<I>(before: seq<seq<Snapshot<I>>>, after: seq<seq<Snapshot<I>>>, frame: Frame<I>)
  {
    && |after| >= |before|
    && (forall j :: 0 <= j < |before| ==>
          after[j] == before[j] ||
          (|after[j]| == |before[j]| + 1 && after[j][..|before[j]|] == before[j] &&
           after[j][|before[j]|].frame.index == frame.index))
    && (forall j :: |before| <= j < |after| ==> |after[j]| == 1 && after[j][0].frame.index == frame.index)
  }

  lemma AssociateOneGrows<I>(before: seq<seq<Snapshot<I>>>, rows: seq<seq<Snapshot<I>>>, c: Contour, frame: Frame<I>)
    requires WellFormed(rows) && GrownBy(before, rows, frame) && AssociateOne(rows, c, frame).Ok?
    ensures GrownBy(before, AssociateOne(rows, c, frame).value, frame)
  {
    FindCloseExactly(rows, c, frame.index);
    var close := FindClose(rows, c, frame.index).value;
    if |close| == 1 {
      var p := close[0];
      assert Matches(rows[p], c, frame.index) == Ok(true);
      ExtendGrows(before, rows, p, Snapshot(frame, c), frame);
    } else {
      AppendGrows(before, rows, Snapshot(frame, c), frame);
    }
  }

  /** Extending a track whose end is on the previous frame. */
  lemma ExtendGrows<I>(before: seq<seq<Snapshot<I>>>, rows: seq<seq<Snapshot<I>>>, p: nat, snap: Snapshot<I>, frame: Frame<I>)
    requires GrownBy(before, rows, frame) && p < |rows| && rows[p] != []
    requires rows[p][|rows[p]| - 1].frame.index == frame.index - 1 && snap.frame.index == frame.index
    ensures GrownBy(before, rows[p := rows[p] + [snap]], frame)
  {
    var r := rows[p := rows[p] + [snap]];
    if p < |before| {
      assert rows[p] == before[p];
      assert r[p][..|before[p]|] == before[p];
    }
  }

  /** Starting a new track. */
  lemma AppendGrows<I>(before: seq<seq<Snapshot<I>>>, rows: seq<seq<Snapshot<I>>>, snap: Snapshot<I>, frame: Frame<I>)
    requires GrownBy(before, rows, frame) && snap.frame.index == frame.index
    ensures GrownBy(before, rows + [[snap]], frame)
  {
  }

  lemma {:induction false} AssociateAllGrows<I>(before: seq<seq<Snapshot<I>>>, rows: seq<seq<Snapshot<I>>>, cs: seq<Contour>, frame: Frame<I>)
    requires WellFormed(rows) && GrownBy(before, rows, frame)
    ensures GrownBy(before, AssociateAll(rows, cs, frame).rows, frame)
    decreases |cs|
  {
    if cs != [] && AssociateOne(rows, cs[0], frame).Ok? {
      AssociateOneGrows(before, rows, cs[0], frame);
      AssociateOneWellFormed(rows, cs[0], frame);
      AssociateAllGrows(before, AssociateOne(rows, cs[0], frame).value, cs[1..], frame);
    }
  }

  /** A frame adds at most one snapshot to each track, and only at its end. */
  lemma UpdateGrowsByOne<I>(rows: seq<seq<Snapshot<I>>>, contours: Partial<Contour>, frame: Frame<I>)
    requires WellFormed(rows)
    ensures var after := Update(rows, contours, frame).rows;
      |after| >= |rows| &&
      forall j :: 0 <= j < |rows| ==> |rows[j]| <= |after[j]| <= |rows[j]| + 1 && after[j][..|rows[j]|] == rows[j]
  {
    assert GrownBy(rows, rows, frame);
    AssociateAllGrows(rows, rows, contours.items, frame);
  }

  // ------------------------------------------------------- the mutation

  /** Two list entries that are the same object hold the same snapshots, so they match alike. */
  lemma SingleMatchUnaliased<I>(ts: seq<Track<I>>, c: Contour, index: int, p: nat)
    requires FindClose(Rows(ts), c, index) == Ok([p])
    ensures p < |ts| && forall j :: 0 <= j < |ts| && j != p ==> ts[j] != ts[p]
  {
    var rows := Rows(ts);
    FindCloseExactly(rows, c, index);
    assert p in [p];
    forall j | 0 <= j < |ts| && j != p
      ensures ts[j] != ts[p]
    {
      assert j !in [p];
      assert Matches(rows[j], c, index) != Matches(rows[p], c, index);
    }
  }

  /**
   * `update_tracks`: for each contour, the close tracks are looked up;
   * more than one raises, one is extended with `record`, none starts a new
   * track appended to the list. The track contents end up as `Update`
   * says; the old tracks stay at the front of the list, the new ones are
   * new objects.
   */
  method UpdateTracks<I>(tracks: seq<Track<I>>, contours: Partial<Contour>, binary: Frame<I>)
    returns (newTracks: seq<Track<I>>, fault: Option<Fault>)
    modifies tracks
    ensures Outcome(Rows(newTracks), fault) == Update(old(Rows(tracks)), contours, binary)
    ensures |newTracks| >= |tracks|
    ensures forall k :: 0 <= k < |newTracks| ==> if k < |tracks| then newTracks[k] == tracks[k] else fresh(newTracks[k])
  {
    newTracks := tracks;
    var i := 0;
    while i < |contours.items|
      invariant 0 <= i <= |contours.items|
      invariant |newTracks| >= |tracks|
      invariant forall k :: 0 <= k < |newTracks| ==> if k < |tracks| then newTracks[k] == tracks[k] else fresh(newTracks[k])
      invariant AssociateAll(old(Rows(tracks)), contours.items, binary) ==
        AssociateAll(Rows(newTracks), contours.items[i..], binary)
    {
      ghost var prev, rows := newTracks, Rows(newTracks);
      AssociateAllStep(rows, contours.items, i, binary);
      assert forall t | t in prev :: t in tracks || fresh(t) by {
        forall t | t in prev ensures t in tracks || fresh(t) {
          var k :| 0 <= k < |prev| && prev[k] == t;
          if k < |tracks| {
            assert t == tracks[k];
          }
        }
      }
      ghost var next := AssociateOne(rows, contours.items[i], binary);
      newTracks, fault := Associate(newTracks, contours.items[i], binary);
      if fault.Some? {
        return;
      }
      assert Rows(newTracks) == next.value;
      assert AssociateAll(rows, contours.items[i..], binary) == AssociateAll(next.value, contours.items[i + 1..], binary);
      i := i + 1;
    }
    assert contours.items[i..] == [];
    fault := contours.fault;
  }

  /**
   * One contour of `update_tracks` on the track objects: an exception
   * changes nothing; otherwise the contents become `AssociateOne`'s, and
   * a new track is a new object appended at the end.
   */
  method Associate<I>(ts: seq<Track<I>>, c: Contour, binary: Frame<I>) returns (ts': seq<Track<I>>, fault: Option<Fault>)
    modifies ts
    ensures |ts'| >= |ts|
    ensures forall k :: 0 <= k < |ts'| ==> if k < |ts| then ts'[k] == ts[k] else fresh(ts'[k])
    ensures var r := AssociateOne(old(Rows(ts)), c, binary);
      && fault == (if r.Err? then Some(r.fault) else None)
      && Rows(ts') == (if r.Err? then old(Rows(ts)) else r.value)
  {
    var close := FindCloseTracks(c, binary.index, ts);
    if close.Err? {
      return ts, Some(close.fault);
    }
    if |close.value| > 1 {
      return ts, Some(AmbiguousMatch);
    }
    fault := None;
    if |close.value| == 1 {
      ts' := Extend(ts, c, binary);
    } else {
      ts' := StartTrack(ts, c, binary);
    }
  }

  /** The single close track records the contour. */
  method Extend<I>(ts: seq<Track<I>>, c: Contour, binary: Frame<I>) returns (ts': seq<Track<I>>)
    requires FindClose(Rows(ts), c, binary.index).Ok? && |FindClose(Rows(ts), c, binary.index).value| == 1
    modifies ts
    ensures ts' == ts
    ensures AssociateOne(old(Rows(ts)), c, binary) == Ok(Rows(ts))
  {
    ghost var before := Rows(ts);
    var close := FindCloseTracks(c, binary.index, ts);
    ghost var p := FindClose(before, c, binary.index).value[0];
    assert FindClose(before, c, binary.index).value == [p];
    SingleMatchUnaliased(ts, c, binary.index, p);
    var t := close.value[0];
    assert t == ts[p];
    t.Record(c, binary);
    ts' := ts;
    assert Rows(ts) == before[p := before[p] + [SnapshotOf(c, binary)]] by {
      forall j | 0 <= j < |ts|
        ensures Rows(ts)[j] == before[p := before[p] + [SnapshotOf(c, binary)]][j]
      {
        if j != p {
          assert ts[j] != t;
        }
      }
    }
  }

  /** No close track: a new track records the contour and is appended. */
  method StartTrack<I>(ts: seq<Track<I>>, c: Contour, binary: Frame<I>) returns (ts': seq<Track<I>>)
    requires FindClose(Rows(ts), c, binary.index) == Ok([])
    ensures |ts'| == |ts| + 1 && ts'[..|ts|] == ts && fresh(ts'[|ts|])
    ensures AssociateOne(old(Rows(ts)), c, binary) == Ok(Rows(ts'))
  {
    ghost var before := Rows(ts);
    var t := new Track();
    t.Record(c, binary);
    ts' := ts + [t];
    assert ts'[..|ts|] == ts;
    assert Rows(ts') == before + [[SnapshotOf(c, binary)]] by {
      forall j | 0 <= j < |ts'|
        ensures Rows(ts')[j] == (before + [[SnapshotOf(c, binary)]])[j]
      {
        if j < |ts| {
          assert ts'[j] == ts[j];
        }
      }
    }
  }

  // -------------------------------------------------- the whole pipeline

  /**
   * `subtract_bg`: `chunked_even` batches of at most 200 frames, each
   * frame minus `avg` of a generator over the images of `batch[::5]`.
   */
  method SubtractBg<I>(frames: seq<Frame<I>>, v: Vision<I>) returns (out: seq<Frame<I>>)
    ensures out == SubtractBatches(ChunkedEven(frames, BgBatchSize), BgJump, v, Images.IteratorSource).items
    ensures SameFrames(out, frames)
  {
    var batches := ChunkedEven(frames, BgBatchSize);
    ChunkedEvenPartitions(frames, BgBatchSize);
    SubtractBatchesKeepsFrames(batches, BgJump, v, Images.IteratorSource);
    var fault;
    out, fault := SubtractBatchesLoop(batches, BgJump, v, Images.IteratorSource);
  }

  /** The batches partition the input into pieces of at most 200 frames. */
  lemma SubtractBgBatches<I>(frames: seq<Frame<I>>)
    ensures IsBatching(ChunkedEven(frames, BgBatchSize), frames, BgBatchSize)
  {
    ChunkedEvenPartitions(frames, BgBatchSize);
  }

  /** `binaries_with_tracks`: the gate with the strict `has_tracks`. */
  method BinariesWithTracks<I>(frames: seq<Frame<I>>, v: Vision<I>) returns (out: seq<Frame<I>>)
    ensures out == Binaries(frames, v.otsu, HasTracks)
  {
    out := GateFrames(frames, v.otsu, HasTracks);
  }

  /** The contours `detect_tracks` hands to `update_tracks` for one binary frame. */
  function FrameContours<I>(binary: Frame<I>, v: Vision<I>): Partial<Contour>
  {
    RetainTrackLike(v.joinClose(FindProminentContours(binary, v), DistClose))
  }

  /** The track contents after the binary frames from `rows` on, and the first exception. */
  function Tracking<I>(rows: seq<seq<Snapshot<I>>>, binaries: seq<Frame<I>>, v: Vision<I>): (r: Outcome<I>)
    ensures |rows| <= |r.rows|
    decreases |binaries|
  {
    if binaries == [] then Outcome(rows, None)
    else
      var o := Update(rows, FrameContours(binaries[0], v), binaries[0]);
      if o.fault.Some? then o else Tracking(o.rows, binaries[1..], v)
  }

  lemma {:induction false} TrackWellFormed<I>(rows: seq<seq<Snapshot<I>>>, binaries: seq<Frame<I>>, v: Vision<I>)
    requires WellFormed(rows)
    ensures WellFormed(Tracking(rows, binaries, v).rows)
    decreases |binaries|
  {
    if binaries != [] {
      UpdateWellFormed(rows, FrameContours(binaries[0], v), binaries[0]);
      var o := Update(rows, FrameContours(binaries[0], v), binaries[0]);
      if o.fault.None? {
        TrackWellFormed(o.rows, binaries[1..], v);
      }
    }
  }

  /**
   * The reduction to particles: tracks whose extent exceeds MIN_TRACK_LENGTH.
   * On an empty track `extent` would raise IndexError; no track reaches the
   * reduction empty (TrackWellFormed), so the predicate simply rejects it.
   */
  predicate Long<I>(row: seq<Snapshot<I>>)
    ensures Long(row) ==> row != []
  {
    var e := ExtentOf(row);
    e.Ok? && e.value > MinTrackLength
  }

  /** The binary frames of the pipeline, from the raw frames. */
  function BinariesOf<I>(frames: seq<Frame<I>>, v: Vision<I>): seq<Frame<I>>
  {
    Binaries(SubtractBatches(ChunkedEven(PreprocessAll(frames, v), BgBatchSize), BgJump, v, Images.IteratorSource).items, v.otsu, HasTracks)
  }

  function EventRows<I>(events: seq<Particles.ParticleEvent<I>>): (r: seq<seq<Snapshot<I>>>)
    reads set e | e in events :: e.track
    ensures |r| == |events| && forall k :: 0 <= k < |events| ==> r[k] == events[k].track.snapshots
  {
    seq(|events|, k requires 0 <= k < |events| reads (set e | e in events :: e.track) => events[k].track.snapshots)
  }

  /**
   * `detect_tracks`: every binary frame's contours update the track list,
   * then one particle event is made for each track whose extent exceeds 5,
   * in the order the tracks were created. An exception of `update_tracks`
   * ends the run with no events.
   */
  method DetectTracks<I>(frames: seq<Frame<I>>, v: Vision<I>)
    returns (events: seq<Particles.ParticleEvent<I>>, fault: Option<Fault>)
    ensures var o := Tracking([], BinariesOf(frames, v), v);
      fault == o.fault && (fault.Some? ==> events == []) &&
      (fault.None? ==> EventRows(events) == Filter(o.rows, Long))
  {
    var pre := PreprocessAll(frames, v);
    var sub := SubtractBg(pre, v);
    var binaries := BinariesWithTracks(sub, v);
    var tracks;
    tracks, fault := TrackAll(binaries, v);
    if fault.Some? {
      return [], fault;
    }
    events := Reduce(tracks);
  }

  /** The loop of `detect_tracks`: `update_tracks` for each binary frame, from an empty list. */
  method TrackAll<I>(binaries: seq<Frame<I>>, v: Vision<I>) returns (tracks: seq<Track<I>>, fault: Option<Fault>)
    ensures Outcome(Rows(tracks), fault) == Tracking([], binaries, v)
  {
    tracks := [];
    fault := None;
    var i := 0;
    while i < |binaries|
      invariant 0 <= i <= |binaries|
      invariant fault == None
      invariant forall k :: 0 <= k < |tracks| ==> fresh(tracks[k])
      invariant Tracking([], binaries, v) == Tracking(Rows(tracks), binaries[i..], v)
    {
      assert binaries[i..][1..] == binaries[i + 1..];
      ghost var prev := tracks;
      ghost var rows := Rows(tracks);
      ghost var o := Update(rows, FrameContours(binaries[i], v), binaries[i]);
      assert Tracking(rows, binaries[i..], v) == if o.fault.Some? then o else Tracking(o.rows, binaries[i + 1..], v);
      tracks, fault := UpdateTracks(tracks, FrameContours(binaries[i], v), binaries[i]);
      assert Outcome(Rows(tracks), fault) == o;
      if fault.Some? {
        return;
      }
      i := i + 1;
    }
    assert binaries[i..] == [];
  }

  /** The final comprehension: an event for each long track, in list order. */
  method Reduce<I>(tracks: seq<Track<I>>) returns (events: seq<Particles.ParticleEvent<I>>)
    ensures EventRows(events) == Filter(Rows(tracks), Long)
    ensures forall k :: 0 <= k < |events| ==> events[k].track in tracks
  {
    events := [];
    ghost var rows := Rows(tracks);
    var i := 0;
    while i < |tracks|
      invariant 0 <= i <= |tracks|
      invariant EventRows(events) + Filter(rows[i..], Long) == Filter(rows, Long)
      invariant forall k :: 0 <= k < |events| ==> events[k].track in tracks[..i]
    {
      var t := tracks[i];
      var e := t.Extent();
      if e.Ok? && e.value > MinTrackLength {
        assert Long(rows[i]);
        FilterKept(EventRows(events), rows, Long, i, Filter(rows, Long));
        EventRowsAppend(events, Particles.ParticleEvent(t));
        events := events + [Particles.ParticleEvent(t)];
      } else {
        FilterSkipped(EventRows(events), rows, Long, i, Filter(rows, Long));
      }
      i := i + 1;
    }
    assert rows[i..] == [] && tracks[..i] == tracks;
  }

  /** Appending an event appends its track's snapshots. */
  lemma EventRowsAppend<I>(events: seq<Particles.ParticleEvent<I>>, e: Particles.ParticleEvent<I>)
    ensures EventRows(events + [e]) == EventRows(events) + [e.track.snapshots]
  {
    var l, r := EventRows(events + [e]), EventRows(events) + [e.track.snapshots];
    forall k | 0 <= k < |l|
      ensures l[k] == r[k]
    {
      if k < |events| {
        assert (events + [e])[k] == events[k];
      }
    }
  }

  /**
   * Every track of the run is long exactly when it spans more than six
   * snapshots, so an event stands for at least seven consecutive frames.
   */
  lemma LongTracksSpanFrames<I>(frames: seq<Frame<I>>, v: Vision<I>)
    ensures var rows := Tracking([], BinariesOf(frames, v), v).rows;
      forall j :: 0 <= j < |rows| ==> rows[j] != [] && (Long(rows[j]) <==> |rows[j]| > MinTrackLength + 1)
  {
    TrackWellFormed([], BinariesOf(frames, v), v);
    var rows := Tracking([], BinariesOf(frames, v), v).rows;
    forall j | 0 <= j < |rows|
      ensures rows[j] != [] && (Long(rows[j]) <==> |rows[j]| > MinTrackLength + 1)
    {
      ExtentCountsSnapshots(rows[j]);
    }
  }
}
