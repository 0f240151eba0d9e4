/**
 * Frames and the frame cursor of a video (bettercv/video.py).
 *
 * The OpenCV capture is replaced by a small idealised device: the file holds
 * the images `media` with their millisecond timestamps `stamps`, opening it
 * succeeds exactly when `openable` holds, and an opened capture has a cursor
 * (`CAP_PROP_POS_FRAMES`, the index of the next frame to be read). Setting the
 * cursor moves it to the requested index; a read succeeds exactly when the
 * cursor is on a frame of the file and then advances the cursor by one. A
 * capture that did not open reports 0 for every property, ignores cursor
 * moves and fails every read, as OpenCV's does.
 */
module Videos {
  import opened PyLib

  /** A decoded frame: its image, its index in the video and its timestamp in milliseconds. */
  datatype Frame<I> = Frame(image: I, index: int, timestamp: int)

  /** `Frame.with_image`: the same frame carrying another image. */
  function WithImage<I>(f: Frame<I>, image: I): (r: Frame<I>)
    ensures r.image == image
    ensures r.index == f.index && r.timestamp == f.timestamp
    ensures image == f.image ==> r == f
  {
    Frame(image, f.index, f.timestamp)
  }

  /** The argument of `video[...]`: a single index or a slice. */
  datatype Index = At(i: int) | Slice(start: Option<int>, stop: Option<int>, step: Option<int>)

  /** The value of `video[...]`. */
  datatype Item<I> = OneFrame(frame: Frame<I>) | FrameList(frames: seq<Frame<I>>)

  class Video<I> {
    /** The images of the file, in order. */
    const media: seq<I>
    /** The timestamp of each image, in milliseconds. */
    const stamps: seq<int>
    /** Whether a capture of the file opens. */
    const openable: bool

    /** `self._cap` is not `None`. A capture is never falsy, so this is `_is_open`. */
    var hasCap: bool
    /** `self._cap.isOpened()`. */
    var capOpened: bool
    /** The capture's next-frame index. */
    var cursor: int

    ghost predicate Valid()
      reads this
    {
      |stamps| == |media| && (capOpened ==> hasCap)
    }

    /** `Video(path)` holds no capture until it is opened. */
    constructor (media: seq<I>, stamps: seq<int>, openable: bool)
      requires |stamps| == |media|
      ensures Valid()
      ensures this.media == media && this.stamps == stamps && this.openable == openable
      ensures !hasCap && !capOpened
    {
      this.media, this.stamps, this.openable := media, stamps, openable;
      hasCap, capOpened, cursor := false, false, 0;
    }

    /**
     * `open`: a video that already holds a capture is left as it is. Otherwise
     * a capture is created and kept even when it fails to open, in which case
     * IOError is raised.
     */
    method Open() returns (fault: Option<Fault>)
      requires Valid()
      modifies this
      ensures Valid()
      ensures old(hasCap) ==> fault == None && unchanged(this)
      ensures !old(hasCap) ==> hasCap && capOpened == openable && cursor == 0
      ensures !old(hasCap) ==> (fault == None <==> openable)
      ensures fault.Some? ==> fault.value == IOError
    {
      if !hasCap {
        hasCap, capOpened, cursor := true, openable, 0;
        if !capOpened {
          return Some(IOError);
        }
      }
      return None;
    }

    /** `close`: releases the capture; a closed video is left as it is. */
    method Close()
      requires Valid()
      modifies this
      ensures Valid()
      ensures !hasCap && !capOpened
      ensures !old(hasCap) ==> unchanged(this)
    {
      if hasCap {
        hasCap, capOpened := false, false;
      }
    }

    /** `frame_num` (and `len(video)`): RuntimeError on a closed video, 0 for a capture that did not open. */
    function FrameNum(): (r: Result<int>)
      reads this
      ensures r.Err? <==> !hasCap
      ensures r.Err? ==> r.fault == RuntimeError
      ensures hasCap && !capOpened ==> r == Ok(0)
      ensures hasCap && capOpened ==> r == Ok(|media|)
    {
      if !hasCap then Err(RuntimeError)
      else if capOpened then Ok(|media|)
      else Ok(0)
    }

    /** `_next_frame_index`: the cursor, read through the same guard. */
    function NextFrameIndex(): (r: Result<int>)
      reads this
      ensures r.Err? <==> !hasCap
      ensures r.Err? ==> r.fault == RuntimeError
      ensures hasCap && !capOpened ==> r == Ok(0)
      ensures hasCap && capOpened ==> r == Ok(cursor)
    {
      if !hasCap then Err(RuntimeError)
      else if capOpened then Ok(cursor)
      else Ok(0)
    }

    /** `_jump_to_frame`; only reached with a capture present. */
    method JumpToFrame(index: int)
      requires Valid() && hasCap
      modifies this
      ensures Valid()
      ensures hasCap == old(hasCap) && capOpened == old(capOpened)
      ensures cursor == if capOpened then index else old(cursor)
    {
      if capOpened {
        cursor := index;
      }
    }

    /** `_read_next`: the frame under the cursor, or IOError. */
    method ReadNext() returns (r: Result<Frame<I>>)
      requires Valid() && hasCap
      modifies this
      ensures Valid()
      ensures hasCap == old(hasCap) && capOpened == old(capOpened)
      ensures r.Ok? <==> capOpened && 0 <= old(cursor) < |media|
      ensures r.Ok? ==> r.value == FrameAt(old(cursor)) && cursor == old(cursor) + 1
      ensures r.Err? ==> r.fault == IOError && cursor == old(cursor)
    {
      if capOpened && 0 <= cursor < |media| {
        r := Ok(FrameAt(cursor));
        cursor := cursor + 1;
      } else {
        r := Err(IOError);
      }
    }

    /** The frame stored at a valid index. */
    function FrameAt(i: int): (f: Frame<I>)
      requires |stamps| == |media| && 0 <= i < |media|
      ensures f.index == i && f.image == media[i] && f.timestamp == stamps[i]
    {
      Frame(media[i], i, stamps[i])
    }

    /**
     * `read_frame_at`: the frame at `index`. On success the cursor is back
     * where it was; a failed read leaves it on `index`.
     */
    method ReadFrameAt(index: int) returns (r: Result<Frame<I>>)
      requires Valid()
      modifies this
      ensures Valid()
      ensures hasCap == old(hasCap) && capOpened == old(capOpened)
      ensures !hasCap ==> r == Err(RuntimeError) && cursor == old(cursor)
      ensures hasCap && !capOpened ==> r == Err(IOError) && cursor == old(cursor)
      ensures capOpened && 0 <= index < |media| ==> r == Ok(FrameAt(index)) && cursor == old(cursor)
      ensures capOpened && !(0 <= index < |media|) ==> r == Err(IOError) && cursor == index
    {
      if !hasCap {
        return Err(RuntimeError);
      }
      var original := NextFrameIndex().value;
      JumpToFrame(index);
      r := ReadNext();
      if r.Err? {
        return;
      }
      JumpToFrame(original);
    }

    /** The last index `iter_frames` may read: `stop` capped by the frame count. */
    function Limit(stop: Option<int>): (l: int)
      reads this
      requires hasCap
      ensures l <= FrameNum().value
      ensures stop.Some? ==> l <= stop.value
      ensures l == FrameNum().value || (stop.Some? && l == stop.value)
    {
      var n := FrameNum().value;
      if stop.None? then n else Min(stop.value, n)
    }

    /**
     * The frames `iter_frames` yields from index `c` onwards: `c`, `c + jump`,
     * `c + 2 * jump`, ... while below `limit`.
     */
    function FramesFrom(c: int, limit: int, jump: int): (r: seq<Frame<I>>)
      requires |stamps| == |media| && 0 <= c && limit <= |media| && jump > 0
      ensures c < limit ==> r != [] && r[0].index == c
      ensures c >= limit ==> r == []
      decreases limit - c
    {
      if c < limit then [FrameAt(c)] + FramesFrom(c + jump, limit, jump) else []
    }

    /**
     * The frames from `c` form the progression `c, c + jump, ...`: strictly
     * increasing indices, all in `[c, limit)`, each frame the one stored at
     * its index, and the next step would reach `limit`.
     */
    lemma {:induction false} FramesFromProgression(c: int, limit: int, jump: int)
      requires |stamps| == |media| && 0 <= c && limit <= |media| && jump > 0
      ensures var r := FramesFrom(c, limit, jump);
        (forall k :: 0 <= k < |r| ==> c <= r[k].index < limit && r[k] == FrameAt(r[k].index)) &&
        (forall k :: 0 <= k < |r| - 1 ==> r[k + 1].index == r[k].index + jump) &&
        (r != [] ==> r[|r| - 1].index + jump >= limit)
      decreases limit - c
    {
      if c < limit {
        FramesFromProgression(c + jump, limit, jump);
        var r, tail := FramesFrom(c, limit, jump), FramesFrom(c + jump, limit, jump);
        assert r == [FrameAt(c)] + tail;
        assert forall k :: 1 <= k < |r| ==> r[k] == tail[k - 1];
      }
    }

    /**
     * One turn of the `iter_frames` loop: read the frame under the cursor
     * and, for a jump above 1, move the cursor on to the next frame of the
     * progression.
     */
    method DrainStep(items: seq<Frame<I>>, limit: int, jump: int) returns (items': seq<Frame<I>>, fault: Option<Fault>)
      requires Valid() && capOpened && jump > 0 && limit <= |media| && cursor < limit
      modifies this
      ensures Valid() && hasCap == old(hasCap) && capOpened == old(capOpened)
      ensures old(cursor) < 0 ==> fault == Some(IOError) && items' == items && cursor == old(cursor)
      ensures old(cursor) >= 0 ==>
        fault == None && items' == items + [FrameAt(old(cursor))] && cursor == old(cursor) + jump
    {
      var frame := ReadNext();
      if frame.Err? {
        return items, Some(frame.fault);
      }
      items' := items + [frame.value];
      fault := None;
      if jump > 1 {
        JumpToFrame(frame.value.index + jump);
      }
    }

    /** One frame read off the progression joins the frames already yielded. */
    lemma FramesFromStep(items: seq<Frame<I>>, c: int, limit: int, jump: int)
      requires |stamps| == |media| && 0 <= c < limit && limit <= |media| && jump > 0
      ensures items + FramesFrom(c, limit, jump) == (items + [FrameAt(c)]) + FramesFrom(c + jump, limit, jump)
    {
    }

    /**
     * `iter_frames`, consumed to the end. A non-positive `jump` raises
     * ValueError before the capture is touched, a closed video raises
     * RuntimeError; otherwise the frames from `start` in steps of `jump`
     * below `Limit(stop)` are yielded. The cursor ends on the first index of
     * that progression at or past the limit.
     */
    method IterFrames(start: int, stop: Option<int>, jump: int) returns (out: Partial<Frame<I>>)
      requires Valid()
      modifies this
      ensures Valid()
      ensures hasCap == old(hasCap) && capOpened == old(capOpened)
      ensures jump <= 0 ==> out == Partial([], Some(ValueError)) && cursor == old(cursor)
      ensures jump > 0 && !hasCap ==> out == Partial([], Some(RuntimeError)) && cursor == old(cursor)
      ensures jump > 0 && hasCap && !capOpened ==> out == Partial([], None) && cursor == old(cursor)
      ensures jump > 0 && capOpened && start >= 0 ==>
        out == Partial(FramesFrom(start, Limit(stop), jump), None) &&
        cursor >= Limit(stop) &&
        cursor == (if out.items == [] then start else out.items[|out.items| - 1].index + jump)
      ensures jump > 0 && capOpened && start < 0 ==>
        out == Partial([], if start < Limit(stop) then Some(IOError) else None) && cursor == start
    {
      if jump <= 0 {
        return Partial([], Some(ValueError));
      }
      if !hasCap {
        return Partial([], Some(RuntimeError));
      }
      JumpToFrame(start);
      if capOpened {
        out := Drain(start, Limit(stop), jump);
      } else {
        // A capture that did not open reports 0 frames and cursor 0, so the
        // loop condition `0 < min(stop, 0)` fails at once.
        out := Partial([], None);
      }
    }

    /** The `while` loop of `iter_frames`, entered with the cursor on `start`. */
    method Drain(start: int, limit: int, jump: int) returns (out: Partial<Frame<I>>)
      requires Valid() && capOpened && jump > 0 && limit <= |media| && cursor == start
      modifies this
      ensures Valid()
      ensures hasCap == old(hasCap) && capOpened == old(capOpened)
      ensures start >= 0 ==>
        out == Partial(FramesFrom(start, limit, jump), None) && cursor >= limit &&
        cursor == (if out.items == [] then start else out.items[|out.items| - 1].index + jump)
      ensures start < 0 ==>
        out == Partial([], if start < limit then Some(IOError) else None) && cursor == start
    {
      var items: seq<Frame<I>> := [];
      while NextFrameIndex().value < limit
        invariant Valid() && hasCap && capOpened
        invariant start < 0 ==> cursor == start && items == []
        invariant start >= 0 ==>
          start <= cursor &&
          FramesFrom(start, limit, jump) == items + FramesFrom(cursor, limit, jump) &&
          cursor == (if items == [] then start else items[|items| - 1].index + jump)
        decreases limit - cursor
      {
        ghost var c, before := cursor, items;
        var fault;
        items, fault := DrainStep(items, limit, jump);
        if fault.Some? {
          return Partial(items, fault);
        }
        FramesFromStep(before, c, limit, jump);
      }
      assert start >= 0 ==> FramesFrom(cursor, limit, jump) == [];
      return Partial(items, None);
    }

    /**
     * `video[index]`: a single index reads one frame; a slice iterates with
     * `start or 0`, its `stop`, and a step that defaults to 1. A generator
     * that raises makes `list(...)` raise the same error.
     */
    method GetItem(index: Index) returns (r: Result<Item<I>>)
      requires Valid()
      modifies this
      ensures Valid()
      ensures hasCap == old(hasCap) && capOpened == old(capOpened)
      ensures index.At? && old(capOpened) && 0 <= index.i < |media| ==> r == Ok(OneFrame(FrameAt(index.i)))
      ensures index.Slice? && index.step == Some(0) ==> r == Err(ValueError)
      ensures index.Slice? && index.step != Some(0) && !hasCap ==>
        r == Err(if index.step.Some? && index.step.value < 0 then ValueError else RuntimeError)
      ensures index.Slice? && index.step.None? && capOpened && index.start.None? ==>
        r == Ok(FrameList(FramesFrom(0, Limit(index.stop), 1)))
      ensures index.Slice? && capOpened && SliceStart(index) >= 0 && SliceStep(index) > 0 ==>
        r == Ok(FrameList(FramesFrom(SliceStart(index), Limit(index.stop), SliceStep(index))))
    {
      match index {
        case At(i) =>
          var f := ReadFrameAt(i);
          r := if f.Ok? then Ok(OneFrame(f.value)) else Err(f.fault);
        case Slice(_, stop, _) =>
          var out := IterFrames(SliceStart(index), stop, SliceStep(index));
          r := if out.fault.Some? then Err(out.fault.value) else Ok(FrameList(out.items));
      }
    }

    /** `index.start or 0`. */
    static function SliceStart(index: Index): (s: int)
      requires index.Slice?
      ensures index.start.None? ==> s == 0
      ensures index.start.Some? ==> s == index.start.value
    {
      if index.start.None? then 0 else index.start.value
    }

    /** `index.step if index.step is not None else 1`. */
    static function SliceStep(index: Index): (s: int)
      requires index.Slice?
      ensures index.step.None? ==> s == 1
      ensures index.step.Some? ==> s == index.step.value
    {
      if index.step.None? then 1 else index.step.value
    }
  }

  /** The minimum of two integers. */
  function Min(a: int, b: int): (m: int)
    ensures m <= a && m <= b && (m == a || m == b)
  {
    if a <= b then a else b
  }
}
