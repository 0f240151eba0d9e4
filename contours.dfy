/**
 * Contours (bettercv/contours.py). The geometry OpenCV measures (area, the
 * sides of the minimum-area rectangle, image moments) is carried as fields of
 * each contour; the point list is explicit, since proximity and joining are
 * defined on it.
 */
module Contours {
  import opened PyLib
  import opened Types

  /** The raw image moments `centroid` uses. */
  datatype Moments = Moments(m00: real, m10: real, m01: real)

  /**
   * A contour: its points in order, `cv.contourArea`, the `(w, h)` sides of
   * `cv.minAreaRect` and `cv.moments`.
   */
  datatype Contour = Contour(points: seq<Position>, area: real, axes: (real, real), moments: Moments)

  /** `length`: the first side of the minimum-area rectangle. */
  function Length(c: Contour): real
  {
    c.axes.0
  }

  /** `width`: the second side of the minimum-area rectangle. */
  function Width(c: Contour): real
  {
    c.axes.1
  }

  /**
   * The sides are taken by position, not sorted: a contour whose rectangle
   * is reported as `(2, 8)` is wider than it is long.
   */
  lemma WidthMayExceedLength()
    ensures var c := Contour([], 0.0, (2.0, 8.0), Moments(0.0, 0.0, 0.0));
      Width(c) > Length(c) && Length(c) == c.axes.0 && Width(c) == c.axes.1
  {
  }

  /** `centroid`: the moment quotients; a zero `m00` raises ZeroDivisionError. */
  function Centroid(c: Contour): (r: Result<Point>)
    ensures r.Err? <==> c.moments.m00 == 0.0
    ensures r.Err? ==> r.fault == ZeroDivisionError
    ensures r.Ok? ==> r.value.x * c.moments.m00 == c.moments.m10 && r.value.y * c.moments.m00 == c.moments.m01
  {
    var m := c.moments;
    if m.m00 == 0.0 then Err(ZeroDivisionError) else Ok(Point(m.m10 / m.m00, m.m01 / m.m00))
  }

  /** Some point of `xs` is strictly closer than `distance` to some point of `ys`. */
  function AnyClose(xs: seq<Position>, ys: seq<Position>, distance: int): bool
  {
    if xs == [] then false else CloseToAny(xs[0], ys, distance) || AnyClose(xs[1..], ys, distance)
  }

  function CloseToAny(x: Position, ys: seq<Position>, distance: int): bool
  {
    if ys == [] then false else CloserThan(x, ys[0], distance) || CloseToAny(x, ys[1..], distance)
  }

  lemma {:induction false} CloseToAnyExactly(x: Position, ys: seq<Position>, distance: int)
    ensures CloseToAny(x, ys, distance) <==> exists y :: y in ys && CloserThan(x, y, distance)
  {
    if ys != [] {
      CloseToAnyExactly(x, ys[1..], distance);
      assert forall y :: y in ys <==> y == ys[0] || y in ys[1..];
    }
  }

  /** `AnyClose` asks for a pair of points, one from each sequence. */
  lemma {:induction false} AnyCloseExactly(xs: seq<Position>, ys: seq<Position>, distance: int)
    ensures AnyClose(xs, ys, distance) <==> exists x, y :: x in xs && y in ys && CloserThan(x, y, distance)
  {
    if xs != [] {
      AnyCloseExactly(xs[1..], ys, distance);
      CloseToAnyExactly(xs[0], ys, distance);
      assert forall x :: x in xs <==> x == xs[0] || x in xs[1..];
    }
  }

  /**
   * `is_close_to`: some point of `a.points[::jump]` is strictly closer than
   * `distance` to some point of `b.points[::jump]`. A zero `jump` raises
   * ValueError.
   */
  function IsCloseTo(a: Contour, b: Contour, distance: int, jump: int := 10): (r: Result<bool>)
    ensures r.Err? <==> jump == 0
    ensures r.Err? ==> r.fault == ValueError
  {
    var xs, ys := Stride(a.points, jump), Stride(b.points, jump);
    if xs.Err? then Err(xs.fault) else Ok(AnyClose(xs.value, ys.value, distance))
  }

  /**
   * For a positive `jump`, `is_close_to` holds exactly when two points at
   * indices that are multiples of `jump` are closer than `distance`.
   */
  lemma IsCloseToSampled(a: Contour, b: Contour, distance: int, jump: int)
    requires jump > 0
    ensures IsCloseTo(a, b, distance, jump) == Ok(
      exists i, k :: 0 <= i < |a.points| && 0 <= k < |b.points| && SampledUp(i, jump) && SampledUp(k, jump) &&
        CloserThan(a.points[i], b.points[k], distance))
  {
    var xs, ys := StrideUp(a.points, jump), StrideUp(b.points, jump);
    AnyCloseExactly(xs, ys, distance);
    forall x ensures x in xs <==> exists i :: 0 <= i < |a.points| && SampledUp(i, jump) && a.points[i] == x {
      StrideUpMembers(a.points, jump, x);
    }
    forall y ensures y in ys <==> exists k :: 0 <= k < |b.points| && SampledUp(k, jump) && b.points[k] == y {
      StrideUpMembers(b.points, jump, y);
    }
  }

  /** `is_close_to` does not depend on the order of the two contours. */
  lemma IsCloseToSymmetric(a: Contour, b: Contour, distance: int, jump: int)
    ensures IsCloseTo(a, b, distance, jump) == IsCloseTo(b, a, distance, jump)
  {
    if jump != 0 {
      var xs, ys := Stride(a.points, jump).value, Stride(b.points, jump).value;
      AnyCloseExactly(xs, ys, distance);
      AnyCloseExactly(ys, xs, distance);
      forall x, y | x in xs && y in ys
        ensures CloserThan(x, y, distance) == CloserThan(y, x, distance)
      {
        CloserThanSymmetric(x, y, distance);
      }
    }
  }

  /** A contour without points is close to nothing. */
  lemma IsCloseToEmpty(a: Contour, b: Contour, distance: int, jump: int)
    requires jump != 0 && (a.points == [] || b.points == [])
    ensures IsCloseTo(a, b, distance, jump) == Ok(false)
  {
    var xs, ys := Stride(a.points, jump).value, Stride(b.points, jump).value;
    assert xs == [] || ys == [];
    AnyCloseExactly(xs, ys, distance);
  }

  /** Closeness at some distance implies closeness at every larger distance. */
  lemma IsCloseToMonotone(a: Contour, b: Contour, distance: int, larger: int, jump: int)
    requires distance <= larger && IsCloseTo(a, b, distance, jump) == Ok(true)
    ensures IsCloseTo(a, b, larger, jump) == Ok(true)
  {
    var xs, ys := Stride(a.points, jump).value, Stride(b.points, jump).value;
    AnyCloseExactly(xs, ys, distance);
    AnyCloseExactly(xs, ys, larger);
    var x, y :| x in xs && y in ys && CloserThan(x, y, distance);
    CloserThanMonotone(x, y, distance, larger);
  }

  /**
   * Points at indices `is_close_to` skips do not matter: two contours that
   * agree at every sampled index are close to the same contours.
   */
  lemma IsCloseToIgnoresUnsampled(a: Contour, a': Contour, b: Contour, distance: int, jump: int)
    requires jump > 0 && |a.points| == |a'.points|
    requires forall i :: 0 <= i < |a.points| && SampledUp(i, jump) ==> a.points[i] == a'.points[i]
    ensures IsCloseTo(a, b, distance, jump) == IsCloseTo(a', b, distance, jump)
  {
    StrideUpSampledOnly(a.points, a'.points, jump);
  }

  lemma {:induction false} StrideUpSampledOnly(s: seq<Position>, t: seq<Position>, step: nat)
    requires step > 0 && |s| == |t|
    requires forall i :: 0 <= i < |s| && SampledUp(i, step) ==> s[i] == t[i]
    ensures StrideUp(s, step) == StrideUp(t, step)
    decreases |s|
  {
    if s != [] {
      assert SampledUp(0, step);
      var m := if step < |s| then step else |s|;
      forall i | 0 <= i < |s[m..]| && SampledUp(i, step)
        ensures s[m..][i] == t[m..][i]
      {
        assert SampledUp(i + step, step);
      }
      StrideUpSampledOnly(s[m..], t[m..], step);
    }
  }

  /** The points of several contours, one after the other (`vstack`). */
  function JoinedPoints(cs: seq<Contour>): (r: seq<Position>)
    ensures cs != [] ==> r == cs[0].points + JoinedPoints(cs[1..])
  {
    if cs == [] then [] else cs[0].points + JoinedPoints(cs[1..])
  }

  /** A point is joined exactly when it belongs to one of the contours. */
  lemma {:induction false} JoinedPointsMembers(cs: seq<Contour>, p: Position)
    ensures p in JoinedPoints(cs) <==> exists c :: c in cs && p in c.points
  {
    if cs != [] {
      JoinedPointsMembers(cs[1..], p);
      assert forall c :: c in cs <==> c == cs[0] || c in cs[1..];
    }
  }

  /** Joining two groups of contours concatenates their point lists. */
  lemma {:induction false} JoinedPointsConcat(cs: seq<Contour>, ds: seq<Contour>)
    ensures JoinedPoints(cs + ds) == JoinedPoints(cs) + JoinedPoints(ds)
  {
    if cs == [] {
      assert cs + ds == ds;
    } else {
      assert (cs + ds)[1..] == cs[1..] + ds;
      JoinedPointsConcat(cs[1..], ds);
    }
  }

  /**
   * `join_contours`: the convex hull (measured by OpenCV, as `hull`) of all
   * the points; `vstack` of no arrays raises ValueError.
   */
  function JoinContours(cs: seq<Contour>, hull: seq<Position> -> Contour): (r: Result<Contour>)
    ensures r.Err? <==> cs == []
    ensures r.Ok? ==> r.value == hull(JoinedPoints(cs))
  {
    if cs == [] then Err(ValueError) else Ok(hull(JoinedPoints(cs)))
  }

  /** The contour retrieval modes `find_contours` chooses between. */
  datatype RetrievalMode = RetrExternal | RetrTree

  /** Outer contours only exactly when asked for. */
  function ContourMode(externalOnly: bool): (m: RetrievalMode)
    ensures m == RetrExternal <==> externalOnly
  {
    if externalOnly then RetrExternal else RetrTree
  }

  /** `find_contours`: OpenCV's contour search (`search`) run with the chosen mode. */
  function FindContours<I>(image: I, externalOnly: bool, search: (I, RetrievalMode) -> seq<Contour>): (r: seq<Contour>)
    ensures externalOnly ==> r == search(image, RetrExternal)
    ensures !externalOnly ==> r == search(image, RetrTree)
  {
    search(image, ContourMode(externalOnly))
  }
}
