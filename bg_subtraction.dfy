/**
 * The background strategies of cloudchamber/bg_subtraction.py, configured
 * by `Config` fields that are passed here as plain values: the inclusive
 * Otsu gate, batch averaging over `more_itertools.chunked`,
 * replace-on-quiescence, and the dispatch on `bg_method`.
 *
 * cloudchamber/processing.py repeats `has_tracks`, `binaries_with_tracks`,
 * `subtract_bg` (as batch averaging) and `subtract_bg_2` (as
 * replace-on-quiescence) line for line; they are the members below.
 */
module BgSubtraction {
  import opened PyLib
  import opened Videos
  import opened Configs
  import Streams
  import Images
  import Detection

  /** `has_tracks`: the inclusive test `threshold >= min_thresh`. */
  predicate HasTracks(threshold: real, minThresh: real)
  {
    threshold >= minThresh
  }

  /** The gate with the configured minimum threshold. */
  function Passes(minThresh: real): (passes: real -> bool)
    ensures forall t :: passes(t) == HasTracks(t, minThresh)
  {
    (t: real) => HasTracks(t, minThresh)
  }

  /**
   * A threshold equal to the minimum passes here, while the strict gate of
   * the detection pipeline rejects a threshold equal to its minimum of 1.
   */
  lemma GatesDiffer(threshold: real)
    ensures HasTracks(threshold, threshold)
    ensures HasTracks(1.0, 1.0) && !Detection.HasTracks(1.0)
    ensures threshold != 1.0 ==> (HasTracks(threshold, 1.0) <==> Detection.HasTracks(threshold))
  {
  }

  /**
   * `binaries_with_tracks`: the frames whose Otsu threshold passes, in
   * order, each with its binary as the image.
   */
  method BinariesWithTracks<I>(frames: seq<Frame<I>>, v: Streams.Vision<I>, minThresh: real) returns (out: seq<Frame<I>>)
    ensures out == Streams.Binaries(frames, v.otsu, Passes(minThresh))
    ensures var ix := Positions(frames, Streams.Gate(v.otsu, Passes(minThresh)));
      && |out| == |ix| && StrictlyIncreasing(ix)
      && (forall k :: 0 <= k < |ix| ==> ix[k] < |frames| && out[k] == WithImage(frames[ix[k]], v.otsu(frames[ix[k]].image).1))
      && (forall i :: 0 <= i < |frames| ==> (i in ix <==> v.otsu(frames[i].image).0 >= minThresh))
  {
    out := Streams.GateFrames(frames, v.otsu, Passes(minThresh));
    Streams.BinariesExactly(frames, v.otsu, Passes(minThresh));
  }

  /**
   * The stream of `subtract_bg_avg`: `chunked` fails with ValueError for a
   * negative batch size (before any frame is read), yields no batch for a
   * zero one, and otherwise each frame minus its batch's background, `avg`
   * of a generator over the images of `batch[::jump]`. It is the stream with
   * `prints` off: with it on, the message reads `batch[0].ref`, which a
   * `Frame` does not have, and the first batch raises AttributeError.
   */
  function AvgStream<I>(frames: seq<Frame<I>>, batchSize: int, jump: int, v: Streams.Vision<I>): (r: Partial<Frame<I>>)
    ensures batchSize < 0 ==> r == Partial([], Some(ValueError))
    ensures batchSize == 0 ==> r == Partial([], None)
  {
    var batches := Chunked(frames, batchSize);
    if batches.Err? then Partial([], Some(batches.fault))
    else Streams.SubtractBatches(batches.value, jump, v, Images.IteratorSource)
  }

  /** The batch loop of `subtract_bg_avg`. */
  method SubtractBgAvg<I>(frames: seq<Frame<I>>, batchSize: int, jump: int, v: Streams.Vision<I>)
    returns (out: seq<Frame<I>>, fault: Option<Fault>)
    ensures Partial(out, fault) == AvgStream(frames, batchSize, jump, v)
  {
    var batches := Chunked(frames, batchSize);
    if batches.Err? {
      return [], Some(batches.fault);
    }
    out, fault := Streams.SubtractBatchesLoop(batches.value, jump, v, Images.IteratorSource);
  }

  /**
   * With a positive batch size and a nonzero jump, every input frame comes
   * out exactly once, in order, with its index and timestamp; the batches
   * are the input cut into pieces of `batchSize`, the last one possibly
   * shorter.
   */
  lemma AvgStreamKeepsFrames<I>(frames: seq<Frame<I>>, batchSize: int, jump: int, v: Streams.Vision<I>)
    requires batchSize > 0 && jump != 0
    ensures AvgStream(frames, batchSize, jump, v).fault == None
    ensures Streams.SameFrames(AvgStream(frames, batchSize, jump, v).items, frames)
    ensures var b := Chunked(frames, batchSize).value;
      IsBatching(b, frames, batchSize) && forall k :: 0 <= k < |b| - 1 ==> |b[k]| == batchSize
  {
    ChunkedPartitions(frames, batchSize);
    Streams.SubtractBatchesKeepsFrames(Chunked(frames, batchSize).value, jump, v, Images.IteratorSource);
  }

  /** A zero jump makes the first batch's `batch[::0]` raise ValueError, before anything is yielded. */
  lemma AvgStreamZeroJump<I>(frames: seq<Frame<I>>, batchSize: int, v: Streams.Vision<I>)
    requires batchSize > 0 && frames != []
    ensures AvgStream(frames, batchSize, 0, v) == Partial([], Some(ValueError))
  {
    ChunkedPartitions(frames, batchSize);
  }

  /** The loop of `subtract_bg_replace`, after `next(iter(frames))` took the first background. */
  method SubtractBgReplace<I>(frames: seq<Frame<I>>, source: Images.Source, v: Streams.Vision<I>, minThresh: real)
    returns (out: seq<Frame<I>>, fault: Option<Fault>)
    ensures Partial(out, fault) == Streams.SubtractBgReplace(frames, source, v, Passes(minThresh))
  {
    if frames == [] {
      return [], Some(RuntimeError);
    }
    var bg := frames[0].image;
    var rest := if source == Images.ListSource then frames else frames[1..];
    out := Streams.ReplaceLoop(bg, rest, v, Passes(minThresh));
    fault := None;
  }

  /** The `bg_method` values the dispatch recognises. */
  datatype Strategy = Mog2 | Average | ReplaceOnQuiescence

  function StrategyOf(bgMethod: Value): (r: Option<Strategy>)
    ensures r == Some(Mog2) <==> bgMethod == StrV("mog2")
    ensures r == Some(Average) <==> bgMethod == StrV("avg")
    ensures r == Some(ReplaceOnQuiescence) <==> bgMethod == StrV("replace")
  {
    if bgMethod == StrV("mog2") then Some(Mog2)
    else if bgMethod == StrV("avg") then Some(Average)
    else if bgMethod == StrV("replace") then Some(ReplaceOnQuiescence)
    else None
  }

  /**
   * `subtract_bg`: "mog2" is OpenCV's MOG2 subtractor (`mog2`), "avg" the
   * gate applied to the batch-averaged stream (a fault of that stream
   * surfaces after the gated frames before it), and "replace"
   * replace-on-quiescence. Any other value matches no case and the
   * function returns None.
   */
  function SubtractBg<I>(frames: seq<Frame<I>>, bgMethod: Value, batchSize: int, jump: int, minThresh: real,
                         source: Images.Source, v: Streams.Vision<I>, mog2: seq<Frame<I>> -> seq<Frame<I>>)
    : (r: Option<Partial<Frame<I>>>)
    ensures r.None? <==> StrategyOf(bgMethod).None?
  {
    match StrategyOf(bgMethod)
    case None => None
    case Some(Mog2) => Some(Partial(mog2(frames), None))
    case Some(Average) =>
      var a := AvgStream(frames, batchSize, jump, v);
      Some(Partial(Streams.Binaries(a.items, v.otsu, Passes(minThresh)), a.fault))
    case Some(ReplaceOnQuiescence) => Some(Streams.SubtractBgReplace(frames, source, v, Passes(minThresh)))
  }

  /** The dispatch with the configured default, "avg", on a stream that cannot fail (`prints` off). */
  lemma DefaultDispatchIsAveraging<I>(frames: seq<Frame<I>>, minThresh: real, source: Images.Source,
                                      v: Streams.Vision<I>, mog2: seq<Frame<I>> -> seq<Frame<I>>)
    ensures var c := Default();
      && c.bgMethod == StrV("avg")
      && SubtractBg(frames, c.bgMethod, 200, 5, minThresh, source, v, mog2) ==
         Some(Partial(Streams.Binaries(AvgStream(frames, 200, 5, v).items, v.otsu, Passes(minThresh)), None))
  {
    AvgStreamKeepsFrames(frames, 200, 5, v);
  }

  /**
   * "mog2", "avg" and "replace" select their strategy, any other value
   * gives None, and "replace" never fails on a non-empty input.
   */
  lemma DispatchCases<I>(frames: seq<Frame<I>>, bgMethod: Value, batchSize: int, jump: int, minThresh: real,
                         source: Images.Source, v: Streams.Vision<I>, mog2: seq<Frame<I>> -> seq<Frame<I>>)
    ensures bgMethod == StrV("mog2") ==>
      SubtractBg(frames, bgMethod, batchSize, jump, minThresh, source, v, mog2) == Some(Partial(mog2(frames), None))
    ensures bgMethod == StrV("avg") ==>
      var a := AvgStream(frames, batchSize, jump, v);
      SubtractBg(frames, bgMethod, batchSize, jump, minThresh, source, v, mog2) ==
        Some(Partial(Streams.Binaries(a.items, v.otsu, Passes(minThresh)), a.fault))
    ensures bgMethod == StrV("replace") ==>
      SubtractBg(frames, bgMethod, batchSize, jump, minThresh, source, v, mog2) ==
        Some(Streams.SubtractBgReplace(frames, source, v, Passes(minThresh)))
    ensures bgMethod !in {StrV("mog2"), StrV("avg"), StrV("replace")} ==>
      SubtractBg(frames, bgMethod, batchSize, jump, minThresh, source, v, mog2) == None
    ensures bgMethod == StrV("replace") && frames != [] ==>
      SubtractBg(frames, bgMethod, batchSize, jump, minThresh, source, v, mog2).value.fault == None
  {
  }
}
