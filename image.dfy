/**
 * Image helpers of bettercv/image.py that the pipeline relies on: the running
 * average `avg`, `crop`, the shape queries and the interpolation choice of
 * `scale` and `resize`.
 *
 * `avg` is written over any image type and a blending operation standing for
 * `cv.addWeighted(a, wa, b, wb, 0.0)`. Its arithmetic is studied on images
 * given as sequences of real pixel values blended exactly, which idealises
 * OpenCV's rounded, saturating 8-bit blend.
 */
module Images {
  import opened PyLib
  import opened Types

  /** `cv.addWeighted(a, wa, b, wb, 0.0)` over some image type. */
  type Blend<!I> = (I, real, I, real) -> I

  /** How the images reach `avg`: a list can be iterated twice, a generator only once. */
  datatype Source = ListSource | IteratorSource

  /** The `for` loop of `avg`: each image is blended in with weight `1 / (index + 1)`. */
  function BlendFrom<I>(blend: Blend<I>, acc: I, rest: seq<I>, index: nat): I
    decreases |rest|
  {
    if rest == [] then acc
    else
      var w := 1.0 / (index as real + 1.0);
      BlendFrom(blend, blend(rest[0], w, acc, 1.0 - w), rest[1..], index + 1)
  }

  /**
   * What `avg` returns. `first(images)` takes image 0; for a list the loop
   * then enumerates every image again from position 0, while a generator
   * resumes after the image `first` consumed. No image raises ValueError.
   */
  function AvgOf<I>(blend: Blend<I>, images: seq<I>, source: Source): (r: Result<I>)
    ensures r.Err? <==> images == []
    ensures r.Err? ==> r.fault == ValueError
  {
    if images == [] then Err(ValueError)
    else if source == ListSource then Ok(BlendFrom(blend, images[0], images, 0))
    else Ok(BlendFrom(blend, images[0], images[1..], 0))
  }

  /** The average the pipeline means to take: `avg` as it behaves on a list. */
  function Average<I>(blend: Blend<I>, images: seq<I>): (r: Result<I>)
    ensures r == AvgOf(blend, images, ListSource)
    ensures r.Err? <==> images == []
  {
    if images == [] then Err(ValueError) else Ok(BlendFrom(blend, images[0], images, 0))
  }

  /** `avg`, with its loop. */
  method Avg<I>(blend: Blend<I>, images: seq<I>, source: Source) returns (r: Result<I>)
    ensures r == AvgOf(blend, images, source)
  {
    if images == [] {
      return Err(ValueError);
    }
    var avgImage := images[0];
    var rest := if source == ListSource then images else images[1..];
    var index := 0;
    while index < |rest|
      invariant 0 <= index <= |rest|
      invariant BlendFrom(blend, images[0], rest, 0) == BlendFrom(blend, avgImage, rest[index..], index)
    {
      var weight1 := 1.0 / (index as real + 1.0);
      var weight2 := 1.0 - weight1;
      assert rest[index..][1..] == rest[index + 1..];
      avgImage := blend(rest[index], weight1, avgImage, weight2);
      index := index + 1;
    }
    assert rest[index..] == [];
    return Ok(avgImage);
  }

  /** The two weights of every blending step sum to one. */
  lemma WeightsSumToOne(index: nat)
    ensures var w := 1.0 / (index as real + 1.0); w + (1.0 - w) == 1.0 && 0.0 < w <= 1.0
  {
  }

  // ---- Exact arithmetic on real-valued pixels ----

  /** An image as a sequence of pixel values. */
  type Pixels = seq<real>

  /** One pixel of `addWeighted`, computed exactly. */
  function Mix(x: real, wx: real, y: real, wy: real): real
  {
    x * wx + y * wy
  }

  /** Exact per-pixel `addWeighted`, over the pixels both images have. */
  function ExactBlend(a: Pixels, wa: real, b: Pixels, wb: real): (r: Pixels)
    ensures |r| == if |a| <= |b| then |a| else |b|
    ensures forall i :: 0 <= i < |r| ==> r[i] == Mix(a[i], wa, b[i], wb)
  {
    seq(if |a| <= |b| then |a| else |b|, i requires 0 <= i < |a| && i < |b| => Mix(a[i], wa, b[i], wb))
  }

  /** All images have `n` pixels. */
  predicate SameSize(images: seq<Pixels>, n: nat)
  {
    forall k :: 0 <= k < |images| ==> |images[k]| == n
  }

  /** The sum of pixel `i` over the images. */
  function SumAt(images: seq<Pixels>, i: nat): real
    requires forall k :: 0 <= k < |images| ==> i < |images[k]|
  {
    if images == [] then 0.0 else SumAt(images[..|images| - 1], i) + images[|images| - 1][i]
  }

  /**
   * `k` copies of `x` added up. Means are stated with it rather than with a
   * product so that the proofs below stay within linear arithmetic.
   */
  function Times(x: real, k: nat): real
  {
    if k == 0 then 0.0 else Times(x, k - 1) + x
  }

  lemma {:induction false} TimesIsProduct(x: real, k: nat)
    ensures Times(x, k) == x * (k as real)
  {
    if k > 0 {
      TimesIsProduct(x, k - 1);
      assert x * ((k - 1) as real) + x == x * (k as real);
    }
  }

  /** A positive number of copies determines the value copied. */
  lemma TimesCancel(x: real, y: real, k: nat)
    requires k > 0 && Times(x, k) == Times(y, k)
    ensures x == y
  {
    TimesIsProduct(x, k);
    TimesIsProduct(y, k);
  }

  /**
   * `m` is the pixelwise mean of a non-empty sequence of images of `n`
   * pixels: each of its pixels, counted once per image, adds up to the sum
   * of that pixel over the images.
   */
  ghost predicate IsMean(m: Pixels, images: seq<Pixels>, n: nat)
    requires |images| > 0 && SameSize(images, n)
  {
    |m| == n && forall i :: 0 <= i < n ==> Times(m[i], |images|) == SumAt(images, i)
  }

  /**
   * One step of the running mean: if `k` copies of `a` add up to the sum of
   * `k` values, then `k + 1` copies of the blend of `x` into `a` add up to
   * that sum plus `x`.
   */
  lemma BlendStep(x: real, a: real, k: nat, sum: real)
    requires Times(a, k) == sum
    ensures var w := 1.0 / (k as real + 1.0); Times(Mix(x, w, a, 1.0 - w), k + 1) == sum + x
  {
    var n := k as real + 1.0;
    var w := 1.0 / n;
    TimesIsProduct(a, k);
    TimesIsProduct(Mix(x, w, a, 1.0 - w), k + 1);
    assert w * n == 1.0;
    calc {
      (x * w + a * (1.0 - w)) * n;
      x * w * n + a * (1.0 - w) * n;
      x * (w * n) + a * (n - w * n);
      x + a * (n - 1.0);
    }
  }

  /**
   * If `index` copies of the accumulator add up to the pixel sums of the
   * images seen so far, then blending in the remaining images leaves a
   * result whose copies, one per image, add up to the pixel sums of all.
   */
  lemma {:induction false} BlendFromSums(seen: seq<Pixels>, acc: Pixels, rest: seq<Pixels>, n: nat, all: seq<Pixels>)
    requires SameSize(seen, n) && SameSize(rest, n) && |acc| == n && all == seen + rest
    requires forall i :: 0 <= i < n ==> Times(acc[i], |seen|) == SumAt(seen, i)
    ensures var r := BlendFrom(ExactBlend, acc, rest, |seen|);
      |r| == n && forall i :: 0 <= i < n ==> Times(r[i], |all|) == SumAt(all, i)
    decreases |rest|
  {
    if rest == [] {
      assert all == seen;
    } else {
      var k := |seen|;
      var w := 1.0 / (k as real + 1.0);
      var next := ExactBlend(rest[0], w, acc, 1.0 - w);
      var seen' := seen + [rest[0]];
      assert SameSize(seen', n);
      assert seen'[..|seen'| - 1] == seen;
      forall i | 0 <= i < n
        ensures Times(next[i], |seen'|) == SumAt(seen', i)
      {
        BlendStep(rest[0][i], acc[i], k, SumAt(seen, i));
      }
      assert all == seen' + rest[1..];
      BlendFromSums(seen', next, rest[1..], n, all);
    }
  }

  /** `avg` of a list is the pixelwise mean of all its images. */
  lemma ListAvgIsMean(images: seq<Pixels>, n: nat)
    requires |images| > 0 && SameSize(images, n)
    ensures AvgOf(ExactBlend, images, ListSource).Ok?
    ensures IsMean(AvgOf(ExactBlend, images, ListSource).value, images, n)
  {
    assert [] + images == images;
    BlendFromSums([], images[0], images, n, images);
  }

  /**
   * `avg` of a generator: image 0 only seeds the accumulator and is then
   * outweighed, so the result is the mean of the other images, or image 0
   * when it is the only one.
   */
  lemma IteratorAvgSkipsFirst(images: seq<Pixels>, n: nat)
    requires |images| > 0 && SameSize(images, n)
    ensures AvgOf(ExactBlend, images, IteratorSource).Ok?
    ensures |images| == 1 ==> AvgOf(ExactBlend, images, IteratorSource).value == images[0]
    ensures |images| > 1 ==> IsMean(AvgOf(ExactBlend, images, IteratorSource).value, images[1..], n)
  {
    if |images| > 1 {
      var rest := images[1..];
      assert SameSize(rest, n);
      assert [] + rest == rest;
      BlendFromSums([], images[0], rest, n, rest);
    }
  }

  /**
   * Two one-pixel frames, 0 and 2: their mean is 1, which `avg` returns for
   * a list, but the generator form returns 2.
   */
  lemma IteratorAvgCounterexample()
    ensures AvgOf(ExactBlend, [[0.0], [2.0]], IteratorSource) == Ok([2.0])
    ensures Average(ExactBlend, [[0.0], [2.0]]) == Ok([1.0])
  {
    var images: seq<Pixels> := [[0.0], [2.0]];
    assert SameSize(images, 1);
    IteratorAvgSkipsFirst(images, 1);
    ListAvgIsMean(images, 1);
    assert SumAt(images, 0) == 2.0 by {
      assert images[..1] == [[0.0]];
      assert [[0.0]][..0] == [];
    }
    assert images[1..] == [[2.0]];
    assert SumAt([[2.0]], 0) == 2.0 by {
      assert [[2.0]][..0] == [];
    }
    var a, b := AvgOf(ExactBlend, images, IteratorSource).value, Average(ExactBlend, images).value;
    TimesCancel(a[0], 2.0, 1);
    TimesCancel(b[0], 1.0, 2);
    assert a == [2.0] && b == [1.0];
  }

  /** The mean of copies of one image is that image. */
  lemma MeanOfConstant(img: Pixels, count: nat, m: Pixels)
    requires count > 0 && IsMean(m, seq(count, _ => img), |img|)
    ensures m == img
  {
    forall i | 0 <= i < |img|
      ensures m[i] == img[i]
    {
      SumOfCopies(img, count, i);
      TimesCancel(m[i], img[i], count);
    }
  }

  lemma {:induction false} SumOfCopies(img: Pixels, count: nat, i: nat)
    requires i < |img|
    ensures SumAt(seq(count, _ => img), i) == Times(img[i], count)
  {
    if count > 0 {
      var images := seq(count, _ => img);
      assert images[..count - 1] == seq(count - 1, _ => img);
      SumOfCopies(img, count - 1, i);
    }
  }

  /** `avg` of copies of one image, from a list or a generator, is that image. */
  lemma AvgOfConstant(img: Pixels, count: nat, source: Source)
    requires count > 0
    ensures AvgOf(ExactBlend, seq(count, _ => img), source) == Ok(img)
  {
    var images := seq(count, _ => img);
    assert SameSize(images, |img|);
    if source == ListSource {
      ListAvgIsMean(images, |img|);
      MeanOfConstant(img, count, AvgOf(ExactBlend, images, source).value);
    } else {
      IteratorAvgSkipsFirst(images, |img|);
      if count > 1 {
        assert images[1..] == seq(count - 1, _ => img);
        MeanOfConstant(img, count - 1, AvgOf(ExactBlend, images, source).value);
      }
    }
  }

  // ---- Shapes, cropping and interpolation ----

  /** `image[top:-bottom]`: rows `top` up to `bottom` rows before the end. */
  function Crop<R>(rows: seq<R>, top: int, bottom: int): (r: seq<R>)
    ensures bottom == 0 ==> r == []
    ensures 0 <= top && 0 < bottom && top + bottom <= |rows| ==> r == rows[top..|rows| - bottom]
    ensures 0 <= top && 0 < bottom && top + bottom > |rows| ==> r == []
  {
    PySlice(rows, top, -bottom)
  }

  /** `is_grayscale`: a single-channel image has a two-dimensional shape. */
  predicate IsGrayscale(shape: seq<int>)
  {
    |shape| == 2
  }

  /** `get_image_size`: shape `(height, width, ...)` gives `Size(width, height)`. */
  function GetImageSize(shape: seq<int>): (r: Result<Size>)
    ensures r.Err? <==> |shape| < 2
    ensures r.Err? ==> r.fault == ValueError
    ensures r.Ok? ==> r.value.width == shape[1] && r.value.height == shape[0]
  {
    if |shape| < 2 then Err(ValueError) else Ok(Size(shape[1], shape[0]))
  }

  /** The interpolation handed to `cv.resize`. */
  datatype Interpolation = InterArea | InterLinear

  /** `scale` shrinks with area interpolation and enlarges linearly. */
  function ScaleInterpolation(factor: real): (m: Interpolation)
    ensures m == InterArea <==> factor < 1.0
  {
    if factor < 1.0 then InterArea else InterLinear
  }

  /** `resize` uses area interpolation exactly when the target covers fewer pixels. */
  function ResizeInterpolation(target: Size, shape: seq<int>): (r: Result<Interpolation>)
    ensures r.Err? <==> |shape| < 2
    ensures r.Ok? ==> (r.value == InterArea <==> Area(target) < shape[0] * shape[1])
  {
    var size := GetImageSize(shape);
    if size.Err? then Err(size.fault)
    else Ok(if Area(target) < Area(size.value) then InterArea else InterLinear)
  }
}
