/**
 * The pieces of Python and of `more_itertools` that the pipeline leans on:
 * exceptions, indexing and slicing with Python's rules, filtering, and the two
 * chunkers (`chunked`, `chunked_even`) that cut a frame stream into batches.
 */
module PyLib {

  /** The exceptions the modelled code raises or lets through. */
  datatype Fault =
    | IndexError          // list index out of range
    | ZeroDivisionError   // float division by zero
    | ValueError          // bad argument (zero slice step, `first` of nothing, ...)
    | RuntimeError        // closed video; StopIteration escaping a generator
    | IOError             // capture could not open or read
    | TypeError           // unexpected keyword argument
    | AmbiguousMatch      // "Multiple tracks detected for same contour!"

  datatype Option<T> = None | Some(value: T)

  datatype Result<T> = Ok(value: T) | Err(fault: Fault)

  /**
   * A generator consumed to its end: what it yielded, then the exception that
   * stopped it, if one did.
   */
  datatype Partial<T> = Partial(items: seq<T>, fault: Option<Fault>)

  /** `s[i]`, where a negative `i` counts from the end. */
  function PyIndex<T>(s: seq<T>, i: int): (r: Result<T>)
    ensures r.Ok? <==> -|s| <= i < |s|
    ensures 0 <= i < |s| ==> r == Ok(s[i])
    ensures -|s| <= i < 0 ==> r == Ok(s[|s| + i])
    ensures r.Err? ==> r.fault == IndexError
  {
    if 0 <= i < |s| then Ok(s[i])
    else if -|s| <= i < 0 then Ok(s[|s| + i])
    else Err(IndexError)
  }

  /** How Python turns a slice bound into a position in a sequence of length `n`. */
  function SliceBound(i: int, n: nat): (b: nat)
    ensures b <= n
  {
    if i < 0 then (if i + n < 0 then 0 else i + n)
    else if i > n then n
    else i
  }

  /** `s[start:stop]` (step 1), with Python's clamping of both bounds. */
  function PySlice<T>(s: seq<T>, start: int, stop: int): (r: seq<T>)
    ensures |r| <= |s|
  {
    var a, b := SliceBound(start, |s|), SliceBound(stop, |s|);
    if a < b then s[a..b] else []
  }

  /** `s[::step]` for a positive step: positions 0, step, 2*step, ... */
  function StrideUp<T>(s: seq<T>, step: nat): (r: seq<T>)
    requires step > 0
    ensures |r| <= |s| && (r == [] <==> s == [])
    decreases |s|
  {
    if s == [] then [] else [s[0]] + StrideUp(s[if step < |s| then step else |s|..], step)
  }

  /** `s[::step]` for a negative step: positions |s|-1, |s|-1+step, ... */
  function StrideDown<T>(s: seq<T>, step: nat): (r: seq<T>)
    requires step > 0
    ensures |r| <= |s| && (r == [] <==> s == [])
    ensures s != [] ==> r[0] == s[|s| - 1]
    decreases |s|
  {
    if s == [] then [] else [s[|s| - 1]] + StrideDown(s[..if step < |s| then |s| - step else 0], step)
  }

  /** `s[::step]`; a zero step raises ValueError. */
  function Stride<T>(s: seq<T>, step: int): (r: Result<seq<T>>)
    ensures r.Err? <==> step == 0
  {
    if step == 0 then Err(ValueError)
    else if step > 0 then Ok(StrideUp(s, step))
    else Ok(StrideDown(s, -step))
  }

  /**
   * The positions `s[::step]` keeps for a positive step: the multiples of
   * `step`, stated without division as the positions reached from 0 by
   * adding `step`.
   */
  predicate SampledUp(i: int, step: nat)
    requires step > 0
    decreases if i < 0 then 0 else i
  {
    i == 0 || (i >= step && SampledUp(i - step, step))
  }

  /** `s[::step]` keeps exactly the elements at positions that are multiples of `step`. */
  lemma {:induction false} StrideUpMembers<T>(s: seq<T>, step: nat, x: T)
    requires step > 0
    ensures x in StrideUp(s, step) <==> exists i :: 0 <= i < |s| && SampledUp(i, step) && s[i] == x
    decreases |s|
  {
    if s != [] {
      var cut := if step < |s| then step else |s|;
      var rest := s[cut..];
      assert StrideUp(s, step) == [s[0]] + StrideUp(rest, step);
      StrideUpMembers(rest, step, x);
      if x in StrideUp(s, step) {
        if x != s[0] {
          assert x in StrideUp(rest, step);
          var j :| 0 <= j < |rest| && SampledUp(j, step) && rest[j] == x;
          assert s[j + step] == x && SampledUp(j + step, step);
        } else {
          assert SampledUp(0, step) && s[0] == x;
        }
      }
      if exists i :: 0 <= i < |s| && SampledUp(i, step) && s[i] == x {
        var i :| 0 <= i < |s| && SampledUp(i, step) && s[i] == x;
        if i != 0 {
          assert i >= step && SampledUp(i - step, step);
          assert rest[i - step] == x;
        }
      }
    }
  }

  /** The first element of a non-empty sequence is always sampled by a positive step. */
  lemma StrideUpHead<T>(s: seq<T>, step: nat)
    requires step > 0 && s != []
    ensures StrideUp(s, step) != [] && StrideUp(s, step)[0] == s[0]
  {
  }

  /** The elements of `s` that satisfy `p`, in their original order. */
  function Filter<T>(s: seq<T>, p: T -> bool): (r: seq<T>)
    ensures |r| <= |s|
    decreases |s|
  {
    if s == [] then [] else (if p(s[0]) then [s[0]] else []) + Filter(s[1..], p)
  }

  /** The positions of `s` whose elements satisfy `p`, in increasing order. */
  function Positions<T>(s: seq<T>, p: T -> bool): (r: seq<nat>)
  {
    PositionsFrom(s, p, 0)
  }

  function PositionsFrom<T>(s: seq<T>, p: T -> bool, i: nat): (r: seq<nat>)
    requires i <= |s|
    decreases |s| - i
  {
    if i == |s| then []
    else (if p(s[i]) then [i] else []) + PositionsFrom(s, p, i + 1)
  }

  predicate StrictlyIncreasing(ix: seq<int>)
  {
    forall a, b :: 0 <= a < b < |ix| ==> ix[a] < ix[b]
  }

  lemma {:induction false} PositionsFromBounds<T>(s: seq<T>, p: T -> bool, i: nat)
    requires i <= |s|
    ensures forall k :: 0 <= k < |PositionsFrom(s, p, i)| ==> i <= PositionsFrom(s, p, i)[k] < |s|
    ensures StrictlyIncreasing(PositionsFrom(s, p, i))
    ensures forall j :: i <= j < |s| ==> (j in PositionsFrom(s, p, i) <==> p(s[j]))
    decreases |s| - i
  {
    if i < |s| {
      PositionsFromBounds(s, p, i + 1);
    }
  }

  lemma {:induction false} FilterFromPositions<T>(s: seq<T>, p: T -> bool, i: nat)
    requires i <= |s|
    ensures |Filter(s[i..], p)| == |PositionsFrom(s, p, i)|
    ensures forall k :: 0 <= k < |PositionsFrom(s, p, i)| ==>
      PositionsFrom(s, p, i)[k] < |s| && Filter(s[i..], p)[k] == s[PositionsFrom(s, p, i)[k]]
    decreases |s| - i
  {
    if i < |s| {
      FilterFromPositions(s, p, i + 1);
      FilterStep(s, p, i);
      var f, ix := Filter(s[i + 1..], p), PositionsFrom(s, p, i + 1);
      var g, jx := Filter(s[i..], p), PositionsFrom(s, p, i);
      if p(s[i]) {
        assert g == [s[i]] + f && jx == [i] + ix;
        forall k | 0 <= k < |jx|
          ensures jx[k] < |s| && g[k] == s[jx[k]]
        {
          if k > 0 {
            assert jx[k] == ix[k - 1];
            assert g[k] == f[k - 1];
          }
        }
      } else {
        assert g == f && jx == ix;
      }
    }
  }

  /** A loop that collects `Filter(s, p)` keeps the element at position `i` when it satisfies `p`. */
  lemma FilterKept<T>(acc: seq<T>, s: seq<T>, p: T -> bool, i: nat, whole: seq<T>)
    requires i < |s| && p(s[i]) && acc + Filter(s[i..], p) == whole
    ensures (acc + [s[i]]) + Filter(s[i + 1..], p) == whole
  {
    FilterStep(s, p, i);
    assert (acc + [s[i]]) + Filter(s[i + 1..], p) == acc + ([s[i]] + Filter(s[i + 1..], p));
  }

  /** A loop that collects `Filter(s, p)` drops the element at position `i` when it fails `p`. */
  lemma FilterSkipped<T>(acc: seq<T>, s: seq<T>, p: T -> bool, i: nat, whole: seq<T>)
    requires i < |s| && !p(s[i]) && acc + Filter(s[i..], p) == whole
    ensures acc + Filter(s[i + 1..], p) == whole
  {
    FilterStep(s, p, i);
  }

  /** `Filter` on a suffix and `PositionsFrom` take one element at a time. */
  lemma FilterStep<T>(s: seq<T>, p: T -> bool, i: nat)
    requires i < |s|
    ensures p(s[i]) ==> Filter(s[i..], p) == [s[i]] + Filter(s[i + 1..], p)
    ensures p(s[i]) ==> PositionsFrom(s, p, i) == [i] + PositionsFrom(s, p, i + 1)
    ensures !p(s[i]) ==> Filter(s[i..], p) == Filter(s[i + 1..], p)
    ensures !p(s[i]) ==> PositionsFrom(s, p, i) == PositionsFrom(s, p, i + 1)
  {
    assert s[i..][1..] == s[i + 1..];
    assert s[i..][0] == s[i];
  }

  /**
   * `Filter` keeps the element at every position that satisfies `p`, at no other
   * position, and in the original order: its output is `s` read at the
   * increasing list of those positions.
   */
  lemma FilterExactly<T>(s: seq<T>, p: T -> bool)
    ensures var ix := Positions(s, p);
      && |Filter(s, p)| == |ix|
      && StrictlyIncreasing(ix)
      && (forall k :: 0 <= k < |ix| ==> ix[k] < |s| && Filter(s, p)[k] == s[ix[k]])
      && (forall i :: 0 <= i < |s| ==> (i in ix <==> p(s[i])))
  {
    PositionsFromBounds(s, p, 0);
    FilterFromPositions(s, p, 0);
    assert s[0..] == s;
  }

  /** Everything `Filter` keeps satisfies `p` and comes from `s`. */
  lemma {:induction false} FilterMembers<T>(s: seq<T>, p: T -> bool)
    ensures forall x :: x in Filter(s, p) <==> x in s && p(x)
    decreases |s|
  {
    if s != [] {
      FilterMembers(s[1..], p);
      assert s == [s[0]] + s[1..];
    }
  }

  /** Concatenation of a list of lists, as `itertools.chain`. */
  function Flatten<T>(ss: seq<seq<T>>): (r: seq<T>)
    decreases |ss|
  {
    if ss == [] then [] else ss[0] + Flatten(ss[1..])
  }

  lemma {:induction false} FlattenConcat<T>(a: seq<seq<T>>, b: seq<seq<T>>)
    ensures Flatten(a + b) == Flatten(a) + Flatten(b)
    decreases |a|
  {
    if a != [] {
      assert (a + b)[1..] == a[1..] + b;
      FlattenConcat(a[1..], b);
      calc {
        Flatten(a + b);
        (a + b)[0] + Flatten((a + b)[1..]);
        a[0] + (Flatten(a[1..]) + Flatten(b));
        (a[0] + Flatten(a[1..])) + Flatten(b);
      }
    } else {
      assert a + b == b;
    }
  }

  /** Length of `Flatten` is the sum of the lengths. */
  function TotalLength<T>(ss: seq<seq<T>>): nat
    decreases |ss|
  {
    if ss == [] then 0 else |ss[0]| + TotalLength(ss[1..])
  }

  /** A list of batches that partitions `s` into non-empty pieces of at most `n`. */
  ghost predicate IsBatching<T>(batches: seq<seq<T>>, s: seq<T>, n: nat)
  {
    && Flatten(batches) == s
    && (forall k :: 0 <= k < |batches| ==> 0 < |batches[k]| <= n)
  }

  /** `more_itertools.chunked(s, n)` for a positive `n`: pieces of `n`, the last one shorter. */
  function ChunkedPos<T>(s: seq<T>, n: nat): (r: seq<seq<T>>)
    requires n > 0
    decreases |s|
  {
    if s == [] then []
    else if |s| <= n then [s]
    else [s[..n]] + ChunkedPos(s[n..], n)
  }

  /**
   * `more_itertools.chunked(s, n)`: for `n == 0` the first `take(0)` already
   * equals the `[]` sentinel and nothing is produced; a negative `n` makes
   * `islice` raise ValueError.
   */
  function Chunked<T>(s: seq<T>, n: int): (r: Result<seq<seq<T>>>)
    ensures r.Err? <==> n < 0
  {
    if n < 0 then Err(ValueError)
    else if n == 0 then Ok([])
    else Ok(ChunkedPos(s, n))
  }

  /**
   * `chunked` partitions its input: the batches concatenate back to `s`, every
   * batch but the last holds exactly `n` elements and the last holds 1 to `n`.
   */
  lemma {:induction false} ChunkedPartitions<T>(s: seq<T>, n: nat)
    requires n > 0
    ensures IsBatching(ChunkedPos(s, n), s, n)
    ensures forall k :: 0 <= k < |ChunkedPos(s, n)| - 1 ==> |ChunkedPos(s, n)[k]| == n
    decreases |s|
  {
    if s != [] && |s| > n {
      ChunkedPartitions(s[n..], n);
      var rest := ChunkedPos(s[n..], n);
      assert ChunkedPos(s, n) == [s[..n]] + rest;
      assert ([s[..n]] + rest)[1..] == rest;
      assert Flatten(ChunkedPos(s, n)) == s[..n] + Flatten(rest);
      assert s[..n] + s[n..] == s;
    } else if s != [] {
      assert Flatten([s]) == s + Flatten([s][1..]);
    }
  }

  lemma DivMod(a: nat, b: nat)
    requires b > 0
    ensures a == (a / b) * b + a % b && 0 <= a % b < b
  {
  }

  lemma MulMono(a: nat, b: nat, c: nat)
    requires a >= b
    ensures a * c >= b * c
  {
    var d := a - b;
    assert a * c == b * c + d * c;
  }

  lemma MulCancel(a: nat, b: nat, c: nat)
    requires a * c < b * c
    ensures a < b
  {
    if a >= b {
      MulMono(a, b, c);
      assert false;
    }
  }

  lemma MulDist(a: nat, b: nat, c: nat)
    ensures a * c + b * c == (a + b) * c
  {
  }

  /** ceil(a / b) for positive b, as Python's `q + (1 if r > 0 else 0)` after `divmod`. */
  function CeilDiv(a: nat, b: nat): (q: nat)
    requires b > 0
    ensures q * b >= a && (q > 0 ==> (q - 1) * b < a)
    ensures a > 0 ==> q > 0
  {
    DivMod(a, b);
    if a % b > 0 then a / b + 1 else a / b
  }

  /** `buffer[i : i + size]` for `i` in `range(lo, lo + count * size, size)`. */
  function Pieces<T>(buf: seq<T>, size: nat, count: nat): (r: seq<seq<T>>)
    requires count * size <= |buf|
    decreases count
  {
    if count == 0 then [] else [buf[..size]] + Pieces(buf[size..], size, count - 1)
  }

  lemma {:induction false} PiecesFlatten<T>(buf: seq<T>, size: nat, count: nat)
    requires count * size <= |buf|
    ensures Flatten(Pieces(buf, size, count)) == buf[..count * size]
    ensures |Pieces(buf, size, count)| == count
    ensures forall k :: 0 <= k < count ==> |Pieces(buf, size, count)[k]| == size
    decreases count
  {
    if count > 0 {
      assert (count - 1) * size == count * size - size;
      PiecesFlatten(buf[size..], size, count - 1);
      var rest := Pieces(buf[size..], size, count - 1);
      assert Pieces(buf, size, count) == [buf[..size]] + rest;
      assert ([buf[..size]] + rest)[1..] == rest;
      assert buf[..size] + buf[size..][..(count - 1) * size] == buf[..count * size];
    }
  }

  /** The three sizes that `chunked_even` derives for a final buffer of length `len`. */
  datatype EvenPlan = EvenPlan(numLists: nat, fullSize: nat, numFull: nat)

  function PlanEven(len: nat, n: nat): (p: EvenPlan)
    requires len > 0 && n > 0
    ensures 0 < p.numFull <= p.numLists && 0 < p.fullSize <= n
    ensures p.numFull * p.fullSize + (p.numLists - p.numFull) * (p.fullSize - 1) == len
  {
    var numLists := CeilDiv(len, n);
    var fullSize := CeilDiv(len, numLists);
    PlanArithmetic(len, n, numLists, fullSize);
    EvenPlan(numLists, fullSize, len - (fullSize - 1) * numLists)
  }

  /**
   * With `numLists = ceil(len / n)` and `fullSize = ceil(len / numLists)`,
   * `len - (fullSize - 1) * numLists` lists of `fullSize` and the rest of
   * `fullSize - 1` hold exactly `len` items, and no list exceeds `n`.
   */
  lemma PlanArithmetic(len: nat, n: nat, numLists: nat, fullSize: nat)
    requires len > 0 && n > 0 && numLists > 0 && fullSize > 0
    requires numLists * n >= len && fullSize * numLists >= len && (fullSize - 1) * numLists < len
    ensures fullSize <= n
    ensures var numFull := len - (fullSize - 1) * numLists;
      0 < numFull <= numLists && numFull * fullSize + (numLists - numFull) * (fullSize - 1) == len
  {
    var a: nat := fullSize - 1;
    MulCancel(a, n, numLists);
    var numFull := len - a * numLists;
    assert fullSize * numLists == a * numLists + numLists;
    assert numFull * fullSize == numFull * a + numFull;
    assert (numLists - numFull) * a == numLists * a - numFull * a;
  }

  /** The tail of `chunked_even`: the buffer cut into near-equal pieces. */
  function EvenSplit<T>(buf: seq<T>, n: nat): (r: seq<seq<T>>)
    requires n > 0
  {
    if buf == [] then [] else SplitByPlan(buf, PlanEven(|buf|, n))
  }

  /** A plan that accounts for every item of a buffer of length `len`. */
  predicate PlanFits(p: EvenPlan, len: nat)
  {
    p.numFull <= p.numLists && p.fullSize > 0 &&
    p.numFull * p.fullSize + (p.numLists - p.numFull) * (p.fullSize - 1) == len
  }

  /** `numFull` pieces of `fullSize`, then the remaining pieces one item shorter. */
  function SplitByPlan<T>(buf: seq<T>, p: EvenPlan): (r: seq<seq<T>>)
    requires PlanFits(p, |buf|)
  {
    var split := p.numFull * p.fullSize;
    var partial := p.numLists - p.numFull;
    assert partial * (p.fullSize - 1) >= 0;
    Pieces(buf, p.fullSize, p.numFull)
      + (if p.fullSize > 1 then Pieces(buf[split..], p.fullSize - 1, partial) else [])
  }

  /**
   * How many full `n`-pieces the streaming loop of `chunked_even` emits for an
   * input of length `len`: it first buffers (n-1)*(n-2) items and yields a
   * piece after the n-th, 2n-th, ... further item beyond the first.
   */
  function StreamedPieces(len: nat, n: nat): (c: nat)
    requires n > 0
    ensures c * n <= len
  {
    var minBuffer := (n - 1) * (n - 2);
    if len <= minBuffer then 0
    else
      var c := (len - minBuffer - 1) / n;
      assert c * n <= len - minBuffer - 1;
      c
  }

  /** `more_itertools.chunked_even(s, n)` for a positive `n`. */
  function ChunkedEven<T>(s: seq<T>, n: nat): (r: seq<seq<T>>)
    requires n > 0
  {
    var c := StreamedPieces(|s|, n);
    Pieces(s, n, c) + EvenSplit(s[c * n..], n)
  }

  lemma EvenSplitPartitions<T>(buf: seq<T>, n: nat)
    requires n > 0
    ensures IsBatching(EvenSplit(buf, n), buf, n)
  {
    if buf != [] {
      SplitByPlanBatching(buf, PlanEven(|buf|, n), n);
    }
  }

  /** A fitting plan with pieces of at most `n` batches the buffer. */
  lemma SplitByPlanBatching<T>(buf: seq<T>, p: EvenPlan, n: nat)
    requires PlanFits(p, |buf|) && p.fullSize <= n
    ensures IsBatching(SplitByPlan(buf, p), buf, n)
  {
    var split := p.numFull * p.fullSize;
    var partial := p.numLists - p.numFull;
    var tail := partial * (p.fullSize - 1);
    assert tail >= 0 && split + tail == |buf|;
    PiecesBatching(buf, p.fullSize, p.numFull, n);
    var first := Pieces(buf, p.fullSize, p.numFull);
    if p.fullSize > 1 {
      PiecesBatching(buf[split..], p.fullSize - 1, partial, n);
      var second := Pieces(buf[split..], p.fullSize - 1, partial);
      assert buf[split..][..tail] == buf[split..];
      BatchingConcat(first, second, buf[..split], buf[split..], n);
      assert buf[..split] + buf[split..] == buf;
      assert SplitByPlan(buf, p) == first + second;
    } else {
      assert p.fullSize - 1 == 0;
      assert tail == 0;
      assert buf[..split] == buf;
      assert SplitByPlan(buf, p) == first + [] == first;
    }
  }

  /** Pieces of one size between 1 and `n` batch the prefix they cover. */
  lemma PiecesBatching<T>(buf: seq<T>, size: nat, count: nat, n: nat)
    requires count * size <= |buf| && 0 < size <= n
    ensures IsBatching(Pieces(buf, size, count), buf[..count * size], n)
  {
    PiecesFlatten(buf, size, count);
  }

  /** Batchings of two sequences concatenate to a batching of their concatenation. */
  lemma BatchingConcat<T>(a: seq<seq<T>>, b: seq<seq<T>>, x: seq<T>, y: seq<T>, n: nat)
    requires IsBatching(a, x, n) && IsBatching(b, y, n)
    ensures IsBatching(a + b, x + y, n)
  {
    FlattenConcat(a, b);
    forall k | 0 <= k < |a + b|
      ensures 0 < |(a + b)[k]| <= n
    {
      if k >= |a| {
        assert (a + b)[k] == b[k - |a|];
      }
    }
  }

  /**
   * `chunked_even` partitions its input: the batches concatenate back to `s`
   * and every batch holds between 1 and `n` elements.
   */
  lemma ChunkedEvenPartitions<T>(s: seq<T>, n: nat)
    requires n > 0
    ensures IsBatching(ChunkedEven(s, n), s, n)
  {
    var c := StreamedPieces(|s|, n);
    PiecesFlatten(s, n, c);
    EvenSplitPartitions(s[c * n..], n);
    FlattenConcat(Pieces(s, n, c), EvenSplit(s[c * n..], n));
    assert s[..c * n] + s[c * n..] == s;
  }
}
