/**
 * The frame preparation of cloudchamber/processing.py. The rest of that
 * file (`subtract_bg`, `subtract_bg_2`, `has_tracks`,
 * `binaries_with_tracks`) repeats cloudchamber/bg_subtraction.py and is
 * modelled once, in `BgSubtraction`.
 */
module Processing {
  import opened Videos
  import opened Streams

  /**
   * `preprocess`: scale by `scale_factor`, crop `crop_box` (rows `top` and
   * `bottom`) off the scaled image, then convert to grayscale; index and
   * timestamp are kept. The crop is the collaborator `v.crop`, the row
   * slice that `Images.Crop` states on a sequence of rows.
   */
  function Preprocess<I>(frame: Frame<I>, scaleFactor: real, top: int, bottom: int, v: Vision<I>): (r: Frame<I>)
    ensures r.index == frame.index && r.timestamp == frame.timestamp
    ensures r.image == v.grayscale(v.crop(v.scale(frame.image, scaleFactor), top, bottom))
  {
    WithImage(frame, v.grayscale(v.crop(v.scale(frame.image, scaleFactor), top, bottom)))
  }

  /** `smooth`: a blur with the square kernel `(blur_size, blur_size)`; index and timestamp are kept. */
  function Smooth<I>(frame: Frame<I>, blurSize: int, v: Vision<I>): (r: Frame<I>)
    ensures r.index == frame.index && r.timestamp == frame.timestamp
    ensures r.image == v.blur(frame.image, blurSize, blurSize)
  {
    WithImage(frame, v.blur(frame.image, blurSize, blurSize))
  }

  /** Only the image changes: preparing a frame twice in a row keeps its place in the stream. */
  lemma PreparedFramesKeepPlace<I>(frame: Frame<I>, scaleFactor: real, top: int, bottom: int, blurSize: int, v: Vision<I>)
    ensures var r := Smooth(Preprocess(frame, scaleFactor, top, bottom, v), blurSize, v);
      && r.index == frame.index && r.timestamp == frame.timestamp
      && r.image == v.blur(v.grayscale(v.crop(v.scale(frame.image, scaleFactor), top, bottom)), blurSize, blurSize)
  {
  }
}
