/**
 * Particle events (cloudchamber/particle.py): a finished track together
 * with the measurements read off it.
 */
module Particles {
  import opened PyLib
  import opened Contours
  import opened Tracks

  datatype ParticleEvent<I> = ParticleEvent(track: Track<I>)

  /** `start`, `end`, `extent` and `duration` are those of the track. */
  function Start<I>(p: ParticleEvent<I>): (r: Result<Snapshot<I>>)
    reads p.track
    ensures r == p.track.Start() && r == p.track.At(0)
  {
    p.track.Start()
  }

  function End<I>(p: ParticleEvent<I>): (r: Result<Snapshot<I>>)
    reads p.track
    ensures r == p.track.End() && r == p.track.At(-1)
  {
    p.track.End()
  }

  function Extent<I>(p: ParticleEvent<I>): (r: Result<int>)
    reads p.track
    ensures r == p.track.Extent()
    ensures r.Ok? ==> r.value == End(p).value.frame.index - Start(p).value.frame.index
  {
    p.track.Extent()
  }

  function Duration<I>(p: ParticleEvent<I>): (r: Result<int>)
    reads p.track
    ensures r == p.track.Duration()
    ensures r.Ok? ==> r.value == End(p).value.frame.timestamp - Start(p).value.frame.timestamp
  {
    p.track.Duration()
  }

  /**
   * `best_snapshot`: `snapshots[min(len - 1, 4)]`, the fifth snapshot when
   * there are at least five and otherwise the last; IndexError when empty.
   */
  function BestSnapshot<I>(p: ParticleEvent<I>): (r: Result<Snapshot<I>>)
    reads p.track
    ensures r == p.track.At(RepresentativeIndex(|p.track.snapshots|))
    ensures r.Ok? <==> p.track.snapshots != []
    ensures |p.track.snapshots| >= 5 ==> r == Ok(p.track.snapshots[4])
    ensures 0 < |p.track.snapshots| < 5 ==> r == End(p)
  {
    Representative(p.track.snapshots)
  }

  /** `width`: the width of the best snapshot's contour. */
  function Width<I>(p: ParticleEvent<I>): (r: Result<real>)
    reads p.track
    ensures r.Ok? <==> BestSnapshot(p).Ok?
    ensures r.Ok? ==> r.value == BestSnapshot(p).value.contour.axes.1
  {
    var b := BestSnapshot(p);
    if b.Err? then Err(b.fault) else Ok(Contours.Width(b.value.contour))
  }

  /** `length`: the length of the best snapshot's contour. */
  function Length<I>(p: ParticleEvent<I>): (r: Result<real>)
    reads p.track
    ensures r.Ok? <==> BestSnapshot(p).Ok?
    ensures r.Ok? ==> r.value == BestSnapshot(p).value.contour.axes.0
  {
    var b := BestSnapshot(p);
    if b.Err? then Err(b.fault) else Ok(Contours.Length(b.value.contour))
  }

  /** `curvature` returns `NotImplemented`: no value of a number. */
  function Curvature<I>(p: ParticleEvent<I>): (r: Option<real>)
    ensures r == None
  {
    None
  }

  /** `type` returns `NotImplemented`: no value of a string. */
  function Type<I>(p: ParticleEvent<I>): (r: Option<string>)
    ensures r == None
  {
    None
  }
}
