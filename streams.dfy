/**
 * The frame streams the pipeline is built from, shared by
 * cloudchamber/detection.py, cloudchamber/bg_subtraction.py and
 * cloudchamber/processing.py: the Otsu gate, batch-averaged background
 * subtraction and replace-on-quiescence background subtraction.
 *
 * Every OpenCV call is a collaborator in `Vision`. A generator that is
 * consumed to the end becomes the list of what it yields; one that raises
 * after yielding some frames becomes a `Partial` carrying the fault.
 */
module Streams {
  import opened PyLib
  import opened Videos
  import opened Contours
  import Images
  /** The OpenCV operations the pipeline calls, and its numpy crop, left uninterpreted. */
  /** The OpenCV operations the pipeline calls, left uninterpreted. */
  datatype Vision<!I> = Vision(
    scale: (I, real) -> I,
    grayscale: I -> I,
    blur: (I, int, int) -> I,
    crop: (I, int, int) -> I,          // the slice `image[top:-bottom]`, see Images.Crop
    subtract: (I, I) -> I,
    otsu: I -> (real, I),
    blend: Images.Blend<I>,
    findContours: (I, RetrievalMode) -> seq<Contour>,
    joinClose: (seq<Contour>, int) -> seq<Contour>)

  /** Two frame lists hold the same frames, image aside, in the same order. */
  predicate SameFrames<I, J>(out: seq<Frame<I>>, frames: seq<Frame<J>>)
  {
    |out| == |frames| &&
    forall k :: 0 <= k < |out| ==> out[k].index == frames[k].index && out[k].timestamp == frames[k].timestamp
  }

  function ImagesOf<I>(frames: seq<Frame<I>>): (r: seq<I>)
    ensures |r| == |frames| && forall k :: 0 <= k < |r| ==> r[k] == frames[k].image
    decreases |frames|
  {
    if frames == [] then [] else [frames[0].image] + ImagesOf(frames[1..])
  }

  // ---------------------------------------------------------------- the gate

  /** The gate's test on a frame: its Otsu threshold passes. */
  function Gate<I>(otsu: I -> (real, I), passes: real -> bool): Frame<I> -> bool
  {
    (f: Frame<I>) => passes(otsu(f.image).0)
  }

  /** Each frame with its image replaced by its Otsu binary. */
  function ToBinary<I>(frames: seq<Frame<I>>, otsu: I -> (real, I)): (r: seq<Frame<I>>)
    ensures |r| == |frames|
    ensures forall k :: 0 <= k < |r| ==> r[k] == WithImage(frames[k], otsu(frames[k].image).1)
    decreases |frames|
  {
    if frames == [] then [] else [WithImage(frames[0], otsu(frames[0].image).1)] + ToBinary(frames[1..], otsu)
  }

  /**
   * `binaries_with_tracks` as a list: for every frame whose Otsu threshold
   * passes, the frame with its image replaced by the binary.
   */
  function Binaries<I>(frames: seq<Frame<I>>, otsu: I -> (real, I), passes: real -> bool): (r: seq<Frame<I>>)
    ensures |r| <= |frames|
    decreases |frames|
  {
    if frames == [] then []
    else
      var tb := otsu(frames[0].image);
      (if passes(tb.0) then [WithImage(frames[0], tb.1)] else []) + Binaries(frames[1..], otsu, passes)
  }

  /** The gate is a filter followed by the binarisation of what it keeps. */
  lemma {:induction false} BinariesIsFilter<I>(frames: seq<Frame<I>>, otsu: I -> (real, I), passes: real -> bool)
    ensures Binaries(frames, otsu, passes) == ToBinary(Filter(frames, Gate(otsu, passes)), otsu)
    decreases |frames|
  {
    if frames != [] {
      BinariesIsFilter(frames[1..], otsu, passes);
      var keep := if Gate(otsu, passes)(frames[0]) then [frames[0]] else [];
      ToBinaryConcat(keep, Filter(frames[1..], Gate(otsu, passes)), otsu);
    }
  }

  lemma {:induction false} ToBinaryConcat<I>(a: seq<Frame<I>>, b: seq<Frame<I>>, otsu: I -> (real, I))
    ensures ToBinary(a + b, otsu) == ToBinary(a, otsu) + ToBinary(b, otsu)
  {
    var l, r := ToBinary(a + b, otsu), ToBinary(a, otsu) + ToBinary(b, otsu);
    assert |l| == |r|;
    forall k | 0 <= k < |l|
      ensures l[k] == r[k]
    {
      if k < |a| {
        assert (a + b)[k] == a[k];
      } else {
        assert (a + b)[k] == b[k - |a|];
      }
    }
  }

  /**
   * The gate keeps, in their order, exactly the frames whose threshold
   * passes, each with its index and timestamp and with the binary as image.
   */
  lemma BinariesExactly<I>(frames: seq<Frame<I>>, otsu: I -> (real, I), passes: real -> bool)
    ensures var r, ix := Binaries(frames, otsu, passes), Positions(frames, Gate(otsu, passes));
      && |r| == |ix|
      && StrictlyIncreasing(ix)
      && (forall k :: 0 <= k < |ix| ==>
            ix[k] < |frames| && r[k] == WithImage(frames[ix[k]], otsu(frames[ix[k]].image).1))
      && (forall i :: 0 <= i < |frames| ==> (i in ix <==> passes(otsu(frames[i].image).0)))
  {
    BinariesIsFilter(frames, otsu, passes);
    FilterExactly(frames, Gate(otsu, passes));
  }

  /** The generator loop of `binaries_with_tracks`. */
  method GateFrames<I>(frames: seq<Frame<I>>, otsu: I -> (real, I), passes: real -> bool)
    returns (out: seq<Frame<I>>)
    ensures out == Binaries(frames, otsu, passes)
  {
    out := [];
    var i := 0;
    while i < |frames|
      invariant 0 <= i <= |frames|
      invariant out + Binaries(frames[i..], otsu, passes) == Binaries(frames, otsu, passes)
    {
      assert frames[i..][1..] == frames[i + 1..];
      var thresh, binary := otsu(frames[i].image).0, otsu(frames[i].image).1;
      if passes(thresh) {
        out := out + [WithImage(frames[i], binary)];
      }
      i := i + 1;
    }
    assert frames[i..] == [];
  }

  // ------------------------------------------------------- batch averaging

  /** Every frame of a batch with the background subtracted. */
  function SubtractAll<I>(batch: seq<Frame<I>>, bg: I, subtract: (I, I) -> I): (r: seq<Frame<I>>)
    ensures |r| == |batch|
    ensures forall k :: 0 <= k < |r| ==> r[k] == WithImage(batch[k], subtract(batch[k].image, bg))
    decreases |batch|
  {
    if batch == [] then [] else [WithImage(batch[0], subtract(batch[0].image, bg))] + SubtractAll(batch[1..], bg, subtract)
  }

  /**
   * The background of a batch: `avg` of the images of `batch[::jump]`, that
   * is of `batch[0]`, `batch[jump]`, `batch[2 * jump]`, ... for a positive
   * `jump`, handed over as a list or, as every caller in the pipeline does,
   * as a generator. A zero `jump` raises ValueError, and so does an empty
   * selection.
   */
  function Background<I>(batch: seq<Frame<I>>, jump: int, blend: Images.Blend<I>, source: Images.Source): (r: Result<I>)
    ensures jump == 0 ==> r == Err(ValueError)
    ensures jump != 0 && batch != [] ==> r.Ok?
  {
    var sample := Stride(ImagesOf(batch), jump);
    if sample.Err? then Err(sample.fault)
    else Images.AvgOf(blend, sample.value, source)
  }

  /**
   * For a positive `jump` the background is `avg` of the images at the
   * multiples of `jump`; that sample starts with the batch's first frame.
   */
  lemma BackgroundSamples<I>(batch: seq<Frame<I>>, jump: int, blend: Images.Blend<I>, source: Images.Source)
    requires jump > 0 && batch != []
    ensures Background(batch, jump, blend, source) == Images.AvgOf(blend, StrideUp(ImagesOf(batch), jump), source)
    ensures StrideUp(ImagesOf(batch), jump)[0] == batch[0].image
    ensures forall x :: x in StrideUp(ImagesOf(batch), jump) <==>
      exists i :: 0 <= i < |batch| && SampledUp(i, jump) && batch[i].image == x
  {
    StrideUpHead(ImagesOf(batch), jump);
    forall x ensures x in StrideUp(ImagesOf(batch), jump) <==>
      exists i :: 0 <= i < |batch| && SampledUp(i, jump) && batch[i].image == x
    {
      StrideUpMembers(ImagesOf(batch), jump, x);
    }
  }

  /**
   * The background over real-valued pixels blended exactly. From a list it
   * is the mean of the whole sample. From a generator it is the mean of the
   * sample without the batch's first frame when the batch is longer than
   * `jump`, and the first frame's image otherwise.
   */
  lemma BackgroundMean(batch: seq<Frame<Images.Pixels>>, jump: int, n: nat)
    requires jump > 0 && batch != [] && Images.SameSize(ImagesOf(batch), n)
    ensures var sample := StrideUp(ImagesOf(batch), jump);
      |sample| > 0 && Images.SameSize(sample, n) && (|sample| > 1 <==> |batch| > jump)
    ensures var sample := StrideUp(ImagesOf(batch), jump);
      Images.IsMean(Background(batch, jump, Images.ExactBlend, Images.ListSource).value, sample, n)
    ensures |batch| <= jump ==>
      Background(batch, jump, Images.ExactBlend, Images.IteratorSource) == Ok(batch[0].image)
    ensures var sample := StrideUp(ImagesOf(batch), jump);
      |batch| > jump ==>
        Images.IsMean(Background(batch, jump, Images.ExactBlend, Images.IteratorSource).value, sample[1..], n)
  {
    var images := ImagesOf(batch);
    var sample := StrideUp(images, jump);
    BackgroundSamples(batch, jump, Images.ExactBlend, Images.ListSource);
    BackgroundSamples(batch, jump, Images.ExactBlend, Images.IteratorSource);
    forall k | 0 <= k < |sample|
      ensures |sample[k]| == n
    {
      StrideUpMembers(images, jump, sample[k]);
    }
    Images.ListAvgIsMean(sample, n);
    Images.IteratorAvgSkipsFirst(sample, n);
  }

  /**
   * Two one-pixel frames, 0 and 2, with `jump` 1: the mean the pipeline
   * means to subtract is 1, the generator it hands to `avg` gives 2.
   */
  lemma GeneratorBackgroundCounterexample()
    ensures Background([Frame([0.0], 0, 0), Frame([2.0], 1, 1)], 1, Images.ExactBlend, Images.IteratorSource) == Ok([2.0])
    ensures Background([Frame([0.0], 0, 0), Frame([2.0], 1, 1)], 1, Images.ExactBlend, Images.ListSource) == Ok([1.0])
  {
    var batch: seq<Frame<Images.Pixels>> := [Frame([0.0], 0, 0), Frame([2.0], 1, 1)];
    var images: seq<Images.Pixels> := [[0.0], [2.0]];
    assert ImagesOf(batch) == images;
    assert StrideUp(images, 1) == images by {
      assert images[1..][1..] == [];
    }
    Images.IteratorAvgCounterexample();
  }

  /**
   * The same batch through the stream, whatever the other operations: the
   * first frame comes out minus 2 where the intended stream subtracts 1.
   */
  lemma GeneratorStreamCounterexample(v: Vision<Images.Pixels>)
    ensures var batch := [Frame([0.0], 0, 0), Frame([2.0], 1, 1)];
      var w := v.(blend := Images.ExactBlend);
      && SubtractBatches([batch], 1, w, Images.IteratorSource).items[0].image == v.subtract([0.0], [2.0])
      && SubtractBatches([batch], 1, w, Images.ListSource).items[0].image == v.subtract([0.0], [1.0])
  {
    var batch: seq<Frame<Images.Pixels>> := [Frame([0.0], 0, 0), Frame([2.0], 1, 1)];
    var w := v.(blend := Images.ExactBlend);
    GeneratorBackgroundCounterexample();
    SubtractBatchesHead([batch], 1, w, Images.IteratorSource, 0);
    SubtractBatchesHead([batch], 1, w, Images.ListSource, 0);
  }

  /**
   * The batches one after the other, each frame with its batch's
   * background subtracted; the first batch whose background fails ends the
   * stream with that fault.
   */
  function SubtractBatches<I>(batches: seq<seq<Frame<I>>>, jump: int, v: Vision<I>, source: Images.Source): (r: Partial<Frame<I>>)
    ensures jump == 0 && batches != [] ==> r == Partial([], Some(ValueError))
    ensures r.fault.None? ==> |r.items| == |Flatten(batches)|
    decreases |batches|
  {
    if batches == [] then Partial([], None)
    else
      var bg := Background(batches[0], jump, v.blend, source);
      if bg.Err? then Partial([], Some(bg.fault))
      else
        var rest := SubtractBatches(batches[1..], jump, v, source);
        Partial(SubtractAll(batches[0], bg.value, v.subtract) + rest.items, rest.fault)
  }

  /**
   * With a nonzero `jump` and non-empty batches the stream does not fail,
   * and it emits every frame of every batch exactly once, in order, with
   * its index and timestamp.
   */
  lemma {:induction false} SubtractBatchesKeepsFrames<I>(batches: seq<seq<Frame<I>>>, jump: int, v: Vision<I>, source: Images.Source)
    requires jump != 0 && forall k :: 0 <= k < |batches| ==> batches[k] != []
    ensures SubtractBatches(batches, jump, v, source).fault == None
    ensures SameFrames(SubtractBatches(batches, jump, v, source).items, Flatten(batches))
    decreases |batches|
  {
    if batches != [] {
      SubtractBatchesKeepsFrames(batches[1..], jump, v, source);
      var bg := Background(batches[0], jump, v.blend, source).value;
      var head: seq<Frame<I>> := SubtractAll(batches[0], bg, v.subtract);
      var rest: seq<Frame<I>> := SubtractBatches(batches[1..], jump, v, source).items;
      assert Flatten(batches) == batches[0] + Flatten(batches[1..]);
      SameFramesConcat(head, rest, batches[0], Flatten(batches[1..]));
    }
  }

  /** Lists that agree frame by frame stay in agreement when concatenated. */
  lemma SameFramesConcat<I, J>(a: seq<Frame<I>>, b: seq<Frame<I>>, x: seq<Frame<J>>, y: seq<Frame<J>>)
    requires SameFrames(a, x) && SameFrames(b, y)
    ensures SameFrames(a + b, x + y)
  {
    forall k | 0 <= k < |a + b|
      ensures (a + b)[k].index == (x + y)[k].index && (a + b)[k].timestamp == (x + y)[k].timestamp
    {
      if k >= |a| {
        assert (a + b)[k] == b[k - |a|] && (x + y)[k] == y[k - |a|];
      }
    }
  }

  /** Within a batch, frame `k` of the output is batch frame `k` minus the batch's background. */
  lemma SubtractBatchesHead<I>(batches: seq<seq<Frame<I>>>, jump: int, v: Vision<I>, source: Images.Source, k: nat)
    requires batches != [] && Background(batches[0], jump, v.blend, source).Ok? && k < |batches[0]|
    ensures var bg := Background(batches[0], jump, v.blend, source).value;
      SubtractBatches(batches, jump, v, source).items[k] == WithImage(batches[0][k], v.subtract(batches[0][k].image, bg))
  {
  }

  /** The generator loop over batches, yielding one batch's frames after the other. */
  method SubtractBatchesLoop<I>(batches: seq<seq<Frame<I>>>, jump: int, v: Vision<I>, source: Images.Source)
    returns (out: seq<Frame<I>>, fault: Option<Fault>)
    ensures Partial(out, fault) == SubtractBatches(batches, jump, v, source)
  {
    out := [];
    var b := 0;
    assert batches[0..] == batches;
    while b < |batches|
      invariant 0 <= b <= |batches|
      invariant out + SubtractBatches(batches[b..], jump, v, source).items == SubtractBatches(batches, jump, v, source).items
      invariant SubtractBatches(batches[b..], jump, v, source).fault == SubtractBatches(batches, jump, v, source).fault
    {
      var failed;
      out, failed := BatchStep(out, batches, b, jump, v, source);
      if failed.Some? {
        return out, failed;
      }
      b := b + 1;
    }
    assert batches[b..] == [];
    fault := None;
  }

  /** One turn of the loop over batches: the background, then the batch's frames. */
  method BatchStep<I>(out: seq<Frame<I>>, batches: seq<seq<Frame<I>>>, b: nat, jump: int, v: Vision<I>, source: Images.Source)
    returns (out': seq<Frame<I>>, failed: Option<Fault>)
    requires b < |batches|
    ensures failed.Some? ==> out' == out && SubtractBatches(batches[b..], jump, v, source) == Partial([], failed)
    ensures failed.None? ==>
      && out' + SubtractBatches(batches[b + 1..], jump, v, source).items == out + SubtractBatches(batches[b..], jump, v, source).items
      && SubtractBatches(batches[b + 1..], jump, v, source).fault == SubtractBatches(batches[b..], jump, v, source).fault
  {
    SubtractBatchesStep(batches, b, jump, v, source);
    var bg := Background(batches[b], jump, v.blend, source);
    if bg.Err? {
      return out, Some(bg.fault);
    }
    ghost var rest := SubtractBatches(batches[b + 1..], jump, v, source);
    ghost var head := SubtractAll(batches[b], bg.value, v.subtract);
    out' := EmitBatch(out, batches[b], bg.value, v.subtract);
    ConcatAssoc(out, head, rest.items);
    failed := None;
  }

  lemma ConcatAssoc<T>(a: seq<T>, b: seq<T>, c: seq<T>)
    ensures (a + b) + c == a + (b + c)
  {
  }

  lemma SubtractBatchesStep<I>(batches: seq<seq<Frame<I>>>, b: nat, jump: int, v: Vision<I>, source: Images.Source)
    requires b < |batches|
    ensures var bg, r := Background(batches[b], jump, v.blend, source), SubtractBatches(batches[b..], jump, v, source);
      if bg.Err? then r == Partial([], Some(bg.fault))
      else var rest := SubtractBatches(batches[b + 1..], jump, v, source);
        r == Partial(SubtractAll(batches[b], bg.value, v.subtract) + rest.items, rest.fault)
  {
    assert batches[b..][1..] == batches[b + 1..];
  }

  /** The inner loop: every frame of the batch minus the background, appended in order. */
  method EmitBatch<I>(out: seq<Frame<I>>, batch: seq<Frame<I>>, bg: I, subtract: (I, I) -> I)
    returns (out': seq<Frame<I>>)
    ensures out' == out + SubtractAll(batch, bg, subtract)
  {
    out' := out;
    var i := 0;
    while i < |batch|
      invariant 0 <= i <= |batch|
      invariant out' + SubtractAll(batch[i..], bg, subtract) == out + SubtractAll(batch, bg, subtract)
    {
      assert batch[i..][1..] == batch[i + 1..];
      out' := out' + [WithImage(batch[i], subtract(batch[i].image, bg))];
      i := i + 1;
    }
    assert batch[i..] == [];
  }

  // ---------------------------------------------- replace on quiescence

  /** The state `subtract_bg_replace` keeps between frames. */
  datatype Quiescence<I> = Quiescence(bg: I, hadTracks: bool)

  /** What one frame does to the state: the gate result, and a new background when a signal run has ended. */
  function NextState<I>(s: Quiescence<I>, frame: Frame<I>, v: Vision<I>, passes: real -> bool): (t: Quiescence<I>)
    ensures t.hadTracks == passes(v.otsu(v.subtract(frame.image, s.bg)).0)
    ensures t.bg == if !t.hadTracks && s.hadTracks then frame.image else s.bg
  {
    var thresh := v.otsu(v.subtract(frame.image, s.bg)).0;
    if passes(thresh) then Quiescence(s.bg, true)
    else if s.hadTracks then Quiescence(frame.image, false)
    else Quiescence(s.bg, false)
  }

  /** The state in force before each frame, and after the last. */
  function States<I>(s: Quiescence<I>, frames: seq<Frame<I>>, v: Vision<I>, passes: real -> bool): (r: seq<Quiescence<I>>)
    ensures |r| == |frames| + 1 && r[0] == s
    ensures forall k :: 0 <= k < |frames| ==> r[k + 1] == NextState(r[k], frames[k], v, passes)
    decreases |frames|
  {
    if frames == [] then [s]
    else
      var rest := States(NextState(s, frames[0], v, passes), frames[1..], v, passes);
      assert forall k :: 1 <= k < |frames| ==> frames[k] == frames[1..][k - 1];
      [s] + rest
  }

  /** The frames with the background in force at each of them subtracted. */
  function Subtracted<I>(states: seq<Quiescence<I>>, frames: seq<Frame<I>>, subtract: (I, I) -> I): (r: seq<Frame<I>>)
    requires |states| >= |frames|
    ensures |r| == |frames|
    ensures forall k :: 0 <= k < |r| ==> r[k] == WithImage(frames[k], subtract(frames[k].image, states[k].bg))
    decreases |frames|
  {
    if frames == [] then []
    else [WithImage(frames[0], subtract(frames[0].image, states[0].bg))] + Subtracted(states[1..], frames[1..], subtract)
  }

  /** The loop of `subtract_bg_replace` from state `s`, as the list of frames it yields. */
  function Replace<I>(s: Quiescence<I>, frames: seq<Frame<I>>, v: Vision<I>, passes: real -> bool): (r: seq<Frame<I>>)
    ensures |r| <= |frames|
    decreases |frames|
  {
    if frames == [] then []
    else
      var tb := v.otsu(v.subtract(frames[0].image, s.bg));
      (if passes(tb.0) then [WithImage(frames[0], tb.1)] else []) + Replace(NextState(s, frames[0], v, passes), frames[1..], v, passes)
  }

  /**
   * The frames it yields are exactly those the gate passes once the
   * background in force at each of them is subtracted, in order.
   */
  lemma {:induction false} ReplaceIsGatedSubtraction<I>(s: Quiescence<I>, frames: seq<Frame<I>>, v: Vision<I>, passes: real -> bool)
    ensures Replace(s, frames, v, passes) == Binaries(Subtracted(States(s, frames, v, passes), frames, v.subtract), v.otsu, passes)
    decreases |frames|
  {
    if frames != [] {
      var st := States(s, frames, v, passes);
      var next := NextState(s, frames[0], v, passes);
      ReplaceIsGatedSubtraction(next, frames[1..], v, passes);
      assert st[1..] == States(next, frames[1..], v, passes);
      var sub := Subtracted(st, frames, v.subtract);
      assert sub[1..] == Subtracted(st[1..], frames[1..], v.subtract);
      assert WithImage(sub[0], v.otsu(sub[0].image).1) == WithImage(frames[0], v.otsu(sub[0].image).1);
    }
  }

  /** A quiet frame after a quiet frame leaves the background alone. */
  lemma QuietRunKeepsBackground<I>(s: Quiescence<I>, frames: seq<Frame<I>>, v: Vision<I>, passes: real -> bool, k: nat)
    requires 0 < k < |frames|
    requires var st := States(s, frames, v, passes); !st[k].hadTracks && !st[k + 1].hadTracks
    ensures var st := States(s, frames, v, passes); st[k + 1].bg == st[k].bg
  {
  }

  /**
   * The background changes only at the first quiet frame after frames with
   * signal, and then becomes that frame's image.
   */
  lemma BackgroundReplacedAtRunEnd<I>(s: Quiescence<I>, frames: seq<Frame<I>>, v: Vision<I>, passes: real -> bool, k: nat)
    requires k < |frames|
    ensures var st := States(s, frames, v, passes);
      st[k + 1].bg != st[k].bg ==> st[k].hadTracks && !st[k + 1].hadTracks && st[k + 1].bg == frames[k].image
  {
  }

  /** The loop of `subtract_bg_replace`, with its two state variables. */
  method ReplaceLoop<I>(bg0: I, frames: seq<Frame<I>>, v: Vision<I>, passes: real -> bool)
    returns (out: seq<Frame<I>>)
    ensures out == Replace(Quiescence(bg0, false), frames, v, passes)
  {
    var hadTracks := false;
    var bg := bg0;
    out := [];
    var i := 0;
    while i < |frames|
      invariant 0 <= i <= |frames|
      invariant out + Replace(Quiescence(bg, hadTracks), frames[i..], v, passes) == Replace(Quiescence(bg0, false), frames, v, passes)
    {
      ghost var before, emitted := Quiescence(bg, hadTracks), out;
      ReplaceStep(before, frames, i, v, passes);
      var frame := frames[i];
      var thresh, binary := v.otsu(v.subtract(frame.image, bg)).0, v.otsu(v.subtract(frame.image, bg)).1;
      ghost var rest := Replace(NextState(before, frame, v, passes), frames[i + 1..], v, passes);
      if passes(thresh) {
        hadTracks := true;
        out := out + [WithImage(frame, binary)];
        ConcatAssoc(emitted, [WithImage(frame, binary)], rest);
      } else {
        if hadTracks {
          bg := frame.image;
        }
        hadTracks := false;
        assert [] + rest == rest;
      }
      assert Quiescence(bg, hadTracks) == NextState(before, frame, v, passes);
      i := i + 1;
    }
    assert frames[i..] == [];
  }

  /** One frame of the loop: what it yields, then the rest from the next state. */
  lemma ReplaceStep<I>(s: Quiescence<I>, frames: seq<Frame<I>>, i: nat, v: Vision<I>, passes: real -> bool)
    requires i < |frames|
    ensures var tb := v.otsu(v.subtract(frames[i].image, s.bg));
      Replace(s, frames[i..], v, passes) ==
        (if passes(tb.0) then [WithImage(frames[i], tb.1)] else []) + Replace(NextState(s, frames[i], v, passes), frames[i + 1..], v, passes)
  {
    assert frames[i..][1..] == frames[i + 1..];
    assert frames[i..][0] == frames[i];
  }

  /**
   * `subtract_bg_replace`: `next(iter(frames))` takes the first image as the
   * background, and an empty input makes the generator raise RuntimeError.
   * The loop then iterates `frames` again: a list starts over at its first
   * frame, an iterator goes on after it.
   */
  function SubtractBgReplace<I>(frames: seq<Frame<I>>, source: Images.Source, v: Vision<I>, passes: real -> bool): (r: Partial<Frame<I>>)
    ensures frames == [] ==> r == Partial([], Some(RuntimeError))
    ensures frames != [] ==> r.fault == None
    ensures frames != [] ==> r.items == Replace(Quiescence(frames[0].image, false),
      if source == Images.ListSource then frames else frames[1..], v, passes)
  {
    if frames == [] then Partial([], Some(RuntimeError))
    else
      var rest := if source == Images.ListSource then frames else frames[1..];
      Partial(Replace(Quiescence(frames[0].image, false), rest, v, passes), None)
  }

  /**
   * Each frame `subtract_bg_replace` yields is a later frame of the input
   * with a binary image: from an iterator, never the first frame.
   */
  lemma ReplaceYieldsLaterFrames<I>(frames: seq<Frame<I>>, source: Images.Source, v: Vision<I>, passes: real -> bool)
    requires frames != []
    ensures var out, skip := SubtractBgReplace(frames, source, v, passes).items, if source == Images.ListSource then 0 else 1;
      |out| <= |frames| - skip &&
      forall k :: 0 <= k < |out| ==> exists i :: skip <= i < |frames| && out[k].index == frames[i].index && out[k].timestamp == frames[i].timestamp
  {
    var skip := if source == Images.ListSource then 0 else 1;
    var rest := frames[skip..];
    var s := Quiescence(frames[0].image, false);
    ReplaceDrawsFrom(s, rest, v, passes);
    var out := Replace(s, rest, v, passes);
    forall k | 0 <= k < |out|
      ensures exists i :: skip <= i < |frames| && out[k].index == frames[i].index && out[k].timestamp == frames[i].timestamp
    {
      var j :| 0 <= j < |rest| && out[k].index == rest[j].index && out[k].timestamp == rest[j].timestamp;
      assert rest[j] == frames[skip + j];
    }
  }

  /** Whatever the loop yields is a frame of its input, and it yields at most one per frame. */
  lemma {:induction false} ReplaceDrawsFrom<I>(s: Quiescence<I>, frames: seq<Frame<I>>, v: Vision<I>, passes: real -> bool)
    ensures var out := Replace(s, frames, v, passes);
      |out| <= |frames| &&
      forall k :: 0 <= k < |out| ==> exists i :: 0 <= i < |frames| && out[k].index == frames[i].index && out[k].timestamp == frames[i].timestamp
    decreases |frames|
  {
    if frames != [] {
      var next := NextState(s, frames[0], v, passes);
      ReplaceDrawsFrom(next, frames[1..], v, passes);
      var tb := v.otsu(v.subtract(frames[0].image, s.bg));
      var head := if passes(tb.0) then [WithImage(frames[0], tb.1)] else [];
      var tail := Replace(next, frames[1..], v, passes);
      var out := Replace(s, frames, v, passes);
      assert out == head + tail;
      forall k | 0 <= k < |out|
        ensures exists i :: 0 <= i < |frames| && out[k].index == frames[i].index && out[k].timestamp == frames[i].timestamp
      {
        if k < |head| {
          assert out[k] == WithImage(frames[0], tb.1);
        } else {
          assert out[k] == tail[k - |head|];
          var j :| 0 <= j < |frames[1..]| && tail[k - |head|].index == frames[1..][j].index && tail[k - |head|].timestamp == frames[1..][j].timestamp;
          assert frames[1..][j] == frames[j + 1];
        }
      }
    }
  }

  /**
   * From a list, the first frame is compared with itself: it is yielded
   * exactly when the difference of an image with itself passes the gate.
   */
  lemma ListReplaceRevisitsFirst<I>(frames: seq<Frame<I>>, v: Vision<I>, passes: real -> bool)
    requires frames != []
    ensures var out := SubtractBgReplace(frames, Images.ListSource, v, passes).items;
      var tb := v.otsu(v.subtract(frames[0].image, frames[0].image));
      passes(tb.0) ==> out != [] && out[0] == WithImage(frames[0], tb.1)
  {
    var s := Quiescence(frames[0].image, false);
    var tb := v.otsu(v.subtract(frames[0].image, s.bg));
    var tail := Replace(NextState(s, frames[0], v, passes), frames[1..], v, passes);
    assert Replace(s, frames, v, passes) == (if passes(tb.0) then [WithImage(frames[0], tb.1)] else []) + tail;
    assert SubtractBgReplace(frames, Images.ListSource, v, passes).items == Replace(s, frames, v, passes);
  }
}
