/**
 * Positions and sizes in pixels (bettercv/types.py; bettercv/utils.py repeats
 * `Size` and provides `distance`, the same computation as `distance_to`).
 *
 * Distances are kept squared: `distance_to` takes a square root, and every use
 * of it in the pipeline compares the result with a bound, which the squared
 * form decides without one.
 */
module Types {
  import opened PyLib

  /** A point of an image, in whole pixels. */
  datatype Position = Position(x: int, y: int)

  /** The square of `distance_to` (and of `distance` in bettercv/utils.py). */
  function DistanceSq(p: Position, q: Position): (d: int)
    ensures d >= 0
    ensures d == 0 <==> p == q
  {
    SquareSign(p.x - q.x);
    SquareSign(p.y - q.y);
    (p.x - q.x) * (p.x - q.x) + (p.y - q.y) * (p.y - q.y)
  }

  lemma SquareSign(a: int)
    ensures a * a >= 0
    ensures a != 0 ==> a * a > 0
  {
    if a < 0 {
      assert a * a == (-a) * (-a);
    }
  }

  /** The distance is the same taken from either end. */
  lemma DistanceSymmetric(p: Position, q: Position)
    ensures DistanceSq(p, q) == DistanceSq(q, p)
  {
    assert (p.x - q.x) * (p.x - q.x) == (q.x - p.x) * (q.x - p.x);
    assert (p.y - q.y) * (p.y - q.y) == (q.y - p.y) * (q.y - p.y);
  }

  /**
   * `distance_to(p, q) < bound`. The square root is non-negative and
   * increasing, so this holds exactly when `bound` is positive and the squared
   * distance is below `bound * bound`.
   */
  predicate CloserThan(p: Position, q: Position, bound: int)
  {
    bound > 0 && DistanceSq(p, q) < bound * bound
  }

  lemma CloserThanSymmetric(p: Position, q: Position, bound: int)
    ensures CloserThan(p, q, bound) == CloserThan(q, p, bound)
  {
    DistanceSymmetric(p, q);
  }

  /** Every point is closer to itself than any positive bound. */
  lemma CloserThanItself(p: Position, bound: int)
    ensures CloserThan(p, p, bound) <==> bound > 0
  {
    if bound > 0 {
      SquareSign(bound);
    }
  }

  /** A point closer than some bound is closer than every larger bound. */
  lemma CloserThanMonotone(p: Position, q: Position, bound: int, larger: int)
    requires CloserThan(p, q, bound) && bound <= larger
    ensures CloserThan(p, q, larger)
  {
    assert bound * bound <= bound * larger <= larger * larger;
  }

  /** A sub-pixel point: centroids are quotients of image moments. */
  datatype Point = Point(x: real, y: real)

  /** The squared distance between two sub-pixel points. */
  function PointDistanceSq(p: Point, q: Point): real
  {
    (p.x - q.x) * (p.x - q.x) + (p.y - q.y) * (p.y - q.y)
  }

  lemma PointDistanceSymmetric(p: Point, q: Point)
    ensures PointDistanceSq(p, q) == PointDistanceSq(q, p)
  {
    assert (p.x - q.x) * (p.x - q.x) == (q.x - p.x) * (q.x - p.x);
    assert (p.y - q.y) * (p.y - q.y) == (q.y - p.y) * (q.y - p.y);
  }

  /** `is_right_of`: strictly further along the x axis. */
  predicate IsRightOf(p: Position, other: Position)
  {
    p.x > other.x
  }

  /** `is_right_of` is irreflexive and asymmetric. */
  lemma RightOfIsStrict(p: Position, q: Position)
    ensures !IsRightOf(p, p)
    ensures IsRightOf(p, q) ==> !IsRightOf(q, p)
  {
  }

  /** `is_higher_than`: image rows grow downwards, so higher means a smaller y. */
  predicate IsHigherThan(p: Position, other: Position)
  {
    p.y < other.y
  }

  lemma HigherThanIsStrict(p: Position, q: Position)
    ensures !IsHigherThan(p, p)
    ensures IsHigherThan(p, q) ==> !IsHigherThan(q, p)
  {
  }

  /** A width and a height in pixels. */
  datatype Size = Size(width: int, height: int)

  /** Python's `int()` of a float: truncation toward zero. */
  function Truncate(v: real): (r: int)
    ensures v >= 0.0 ==> r as real <= v < r as real + 1.0
    ensures v < 0.0 ==> r as real - 1.0 < v <= r as real
  {
    if v >= 0.0 then v.Floor else -((-v).Floor)
  }

  /** `Size * factor`: each component scaled and truncated toward zero. */
  function Scale(s: Size, factor: real): (r: Size)
    ensures s.width as real * factor >= 0.0 ==> r.width as real <= s.width as real * factor < r.width as real + 1.0
    ensures s.width as real * factor < 0.0 ==> r.width as real - 1.0 < s.width as real * factor <= r.width as real
    ensures s.height as real * factor >= 0.0 ==> r.height as real <= s.height as real * factor < r.height as real + 1.0
    ensures s.height as real * factor < 0.0 ==> r.height as real - 1.0 < s.height as real * factor <= r.height as real
  {
    Size(Truncate(s.width as real * factor), Truncate(s.height as real * factor))
  }

  /** `Size // factor`: each component floor-divided; a zero factor raises. */
  function FloorDiv(s: Size, factor: real): (r: Result<Size>)
    ensures r.Err? <==> factor == 0.0
    ensures r.Ok? ==> r.value.width as real <= s.width as real / factor < r.value.width as real + 1.0
    ensures r.Ok? ==> r.value.height as real <= s.height as real / factor < r.value.height as real + 1.0
  {
    if factor == 0.0 then Err(ZeroDivisionError)
    else Ok(Size((s.width as real / factor).Floor, (s.height as real / factor).Floor))
  }

  /** `Size / factor` is defined as `Size // factor`. */
  function TrueDiv(s: Size, factor: real): (r: Result<Size>)
    ensures r == FloorDiv(s, factor)
  {
    FloorDiv(s, factor)
  }

  /** `Size + Size`, componentwise. */
  function Add(a: Size, b: Size): (r: Size)
    ensures r.width - a.width == b.width && r.height - a.height == b.height
  {
    Size(a.width + b.width, a.height + b.height)
  }

  /** The number of pixels a size covers. */
  function Area(s: Size): (a: int)
    ensures s.width >= 0 && s.height >= 0 ==> a >= 0
    ensures s.width == 0 || s.height == 0 ==> a == 0
  {
    s.width * s.height
  }
}
