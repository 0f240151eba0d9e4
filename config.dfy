/**
 * The pipeline settings (cloudchamber/config.py). The dataclass does not
 * check the kinds of the values it is given, so each field holds a dynamic
 * `Value`; `merge` passes a dictionary as keyword arguments, which accepts
 * exactly the declared field names.
 */
module Configs {
  import opened PyLib

  datatype Value = IntV(i: int) | RealV(x: real) | StrV(s: string) | BoolV(b: bool)

  datatype Config = Config(
    blurSize: Value,
    driftDistance: Value,
    distClose: Value,
    minContourSize: Value,
    minTrackLength: Value,
    minThreshold: Value,
    bgMethod: Value,
    bgJump: Value,
    bgBatchSize: Value,
    scaleFactor: Value,
    prints: Value,
    display: Value)

  /**
   * `Config()`: every field at its declared default. The defaults select
   * batch averaging with a positive batch size and a nonzero jump, and an
   * odd blur kernel, as `cv.GaussianBlur` needs.
   */
  function Default(): (c: Config)
    ensures c.bgMethod == StrV("avg")
    ensures c.bgBatchSize.IntV? && c.bgBatchSize.i > 0 && c.bgJump.IntV? && c.bgJump.i != 0
    ensures c.blurSize.IntV? && c.blurSize.i % 2 == 1
  {
    Config(IntV(15), IntV(120), IntV(30), IntV(500), IntV(5), IntV(3),
           StrV("avg"), IntV(5), IntV(200), RealV(0.6), BoolV(true), BoolV(false))
  }

  /** The keyword names the dataclass constructor accepts. */
  const FieldNames: set<string> := {
    "blur_size", "drift_distance", "dist_close", "min_contour_size",
    "min_track_length", "min_threshold", "bg_method", "bg_jump",
    "bg_batch_size", "scale_factor", "prints", "display"}

  /** The field a keyword names, `None` for a name that is not a field. */
  function Field(c: Config, name: string): (r: Option<Value>)
    ensures r.Some? <==> name in FieldNames
  {
    if name == "blur_size" then Some(c.blurSize)
    else if name == "drift_distance" then Some(c.driftDistance)
    else if name == "dist_close" then Some(c.distClose)
    else if name == "min_contour_size" then Some(c.minContourSize)
    else if name == "min_track_length" then Some(c.minTrackLength)
    else if name == "min_threshold" then Some(c.minThreshold)
    else if name == "bg_method" then Some(c.bgMethod)
    else if name == "bg_jump" then Some(c.bgJump)
    else if name == "bg_batch_size" then Some(c.bgBatchSize)
    else if name == "scale_factor" then Some(c.scaleFactor)
    else if name == "prints" then Some(c.prints)
    else if name == "display" then Some(c.display)
    else None
  }

  /** Two settings are the same when every named field is. */
  lemma FieldsDetermine(c: Config, d: Config)
    requires forall k :: k in FieldNames ==> Field(c, k) == Field(d, k)
    ensures c == d
  {
    assert Field(c, "blur_size") == Field(d, "blur_size");
    assert Field(c, "drift_distance") == Field(d, "drift_distance");
    assert Field(c, "dist_close") == Field(d, "dist_close");
    assert Field(c, "min_contour_size") == Field(d, "min_contour_size");
    assert Field(c, "min_track_length") == Field(d, "min_track_length");
    assert Field(c, "min_threshold") == Field(d, "min_threshold");
    assert Field(c, "bg_method") == Field(d, "bg_method");
    assert Field(c, "bg_jump") == Field(d, "bg_jump");
    assert Field(c, "bg_batch_size") == Field(d, "bg_batch_size");
    assert Field(c, "scale_factor") == Field(d, "scale_factor");
    assert Field(c, "prints") == Field(d, "prints");
    assert Field(c, "display") == Field(d, "display");
  }

  /** The declared defaults, read through the field names. */
  lemma DefaultValues()
    ensures Field(Default(), "blur_size") == Some(IntV(15))
    ensures Field(Default(), "drift_distance") == Some(IntV(120))
    ensures Field(Default(), "dist_close") == Some(IntV(30))
    ensures Field(Default(), "min_contour_size") == Some(IntV(500))
    ensures Field(Default(), "min_track_length") == Some(IntV(5))
    ensures Field(Default(), "min_threshold") == Some(IntV(3))
    ensures Field(Default(), "bg_method") == Some(StrV("avg"))
    ensures Field(Default(), "bg_jump") == Some(IntV(5))
    ensures Field(Default(), "bg_batch_size") == Some(IntV(200))
    ensures Field(Default(), "scale_factor") == Some(RealV(0.6))
    ensures Field(Default(), "prints") == Some(BoolV(true))
    ensures Field(Default(), "display") == Some(BoolV(false))
  {
  }

  function Pick(m: map<string, Value>, k: string, otherwise: Value): Value
  {
    if k in m then m[k] else otherwise
  }

  /**
   * `Config.merge(d)`, that is `Config(**d)`: a key that names no field
   * raises TypeError; otherwise every supplied key overrides its field and
   * every other field keeps its default.
   */
  function Merge(m: map<string, Value>): (r: Result<Config>)
    ensures r.Err? <==> exists k :: k in m && k !in FieldNames
    ensures r.Err? ==> r.fault == TypeError
    ensures r.Ok? ==> forall k :: k in FieldNames ==>
      Field(r.value, k) == if k in m then Some(m[k]) else Field(Default(), k)
  {
    if exists k :: k in m && k !in FieldNames then Err(TypeError)
    else
      var d := Default();
      Ok(Config(
        Pick(m, "blur_size", d.blurSize),
        Pick(m, "drift_distance", d.driftDistance),
        Pick(m, "dist_close", d.distClose),
        Pick(m, "min_contour_size", d.minContourSize),
        Pick(m, "min_track_length", d.minTrackLength),
        Pick(m, "min_threshold", d.minThreshold),
        Pick(m, "bg_method", d.bgMethod),
        Pick(m, "bg_jump", d.bgJump),
        Pick(m, "bg_batch_size", d.bgBatchSize),
        Pick(m, "scale_factor", d.scaleFactor),
        Pick(m, "prints", d.prints),
        Pick(m, "display", d.display)))
  }

  /** `merge({})` is `Config()`. */
  lemma MergeEmpty()
    ensures Merge(map[]) == Ok(Default())
  {
    var r := Merge(map[]);
    FieldsDetermine(r.value, Default());
  }

  /** Merging the fields of a configuration gives that configuration back. */
  lemma MergeAllFields(c: Config, m: map<string, Value>)
    requires m.Keys == FieldNames
    requires forall k :: k in m ==> Field(c, k) == Some(m[k])
    ensures Merge(m) == Ok(c)
  {
    var r := Merge(m);
    assert !exists k :: k in m && k !in FieldNames;
    FieldsDetermine(r.value, c);
  }

  /** One unknown key makes the whole merge fail, whatever else is supplied. */
  lemma UnknownKeyError(m: map<string, Value>, k: string, v: Value)
    requires k !in FieldNames
    ensures Merge(m[k := v]) == Err(TypeError)
  {
    assert k in m[k := v];
  }
}
