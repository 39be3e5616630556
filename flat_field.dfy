/** The configuration side of the flat-field correction filter, and the size check
    its processing makes before any pixel arithmetic. */
module FlatFieldFilter {
  import opened JavaLang
  import opened ParamMaps
  import opened Images

  const ImageKey := "flatfieldimage"

  /** FlatFieldCorrection.init(Map): the flatfieldimage entry, null or not, becomes
      the path; without that key an IllegalArgumentException is thrown. */
  function Configure(p: Params): (r: Result<Value>)
    ensures r.Ok? <==> ContainsKey(p, ImageKey)
    ensures r.Ok? ==> r.value == Get(p, ImageKey)
    ensures r.Err? ==> r.failure == FlatFieldImageRequired && IsIllegalArgument(r.failure)
  {
    if ContainsKey(p, ImageKey) then Ok(Get(p, ImageKey)) else Err(FlatFieldImageRequired)
  }

  /** FlatFieldCorrection.getParams(): one entry, the path under flatfieldimage. */
  function ParamsOf(path: Value): (r: Params)
    ensures |r| == 1 && DistinctKeys(r) && !ContainsKey(r, "slope")
  {
    [(ImageKey, path)]
  }

  /** getParams() holds the path under flatfieldimage and nothing else. */
  lemma ParamsOfLookups(path: Value)
    ensures Keys(ParamsOf(path)) == [ImageKey]
    ensures Get(ParamsOf(path), ImageKey) == path
  {
    IndexOfIs(ParamsOf(path), ImageKey, 0);
  }

  /** init(getParams()) restores the path. */
  lemma RoundTrip(path: Value)
    ensures Configure(ParamsOf(path)) == Ok(path)
  {
    ParamsOfLookups(path);
  }

  /** Keys other than flatfieldimage are ignored. */
  lemma ConfigureReadsOnlyItsKey(p: Params, q: Params)
    requires ContainsKey(p, ImageKey) == ContainsKey(q, ImageKey)
    requires Get(p, ImageKey) == Get(q, ImageKey)
    ensures Configure(p) == Configure(q)
  {
  }

  /** What processing needs from outside: IJ.openImage (None where it yields null),
      ImageProcessor.resize of the samples, and the correction arithmetic. */
  datatype FlatFieldOps = FlatFieldOps(
    open: Value -> Option<Image>,
    resample: (Pixels, nat, nat) -> Pixels,
    correct: (Pixels, Pixels) -> Pixels)

  /** FlatFieldCorrection.process: the flat-field image is resized to the input's
      size only when scale > 0, and a size mismatch then throws. */
  function Process(path: Value, ip: Image, scale: real, ops: FlatFieldOps): (r: Result<Image>)
    ensures ops.open(path).None? ==> r == Err(NullDereference)
    ensures ops.open(path).Some? ==>
      (r == Err(ImageSizesDiffer) <==>
        scale <= 0.0 && (ops.open(path).value.width != ip.width || ops.open(path).value.height != ip.height))
    ensures r.Ok? ==> r.value.width == ip.width && r.value.height == ip.height
  {
    match ops.open(path)
    case None => Err(NullDereference)
    case Some(ff0) =>
      var ff := if scale > 0.0 then Image(ip.width, ip.height, ops.resample(ff0.pixels, ip.width, ip.height)) else ff0;
      if ip.height != ff.height || ip.width != ff.width then Err(ImageSizesDiffer)
      else Ok(Image(ip.width, ip.height, ops.correct(ip.pixels, ff.pixels)))
  }

  /** A FlatFieldCorrection filter object. */
  class FlatFieldCorrection {
    var flatFieldImagePath: Value

    /** The implicit no-argument constructor leaves the path null. */
    constructor ()
      ensures flatFieldImagePath == None
    {
      flatFieldImagePath := None;
    }

    method Init(p: Params) returns (thrown: Option<Failure>)
      modifies this
      ensures var r := Configure(p);
        thrown == (if r.Ok? then None else Some(r.failure)) &&
        flatFieldImagePath == (if r.Ok? then r.value else old(flatFieldImagePath))
    {
      if ContainsKey(p, ImageKey) {
        flatFieldImagePath := Get(p, ImageKey);
        thrown := None;
      } else {
        thrown := Some(FlatFieldImageRequired);
      }
    }

    method GetParams() returns (p: Params)
      ensures p == ParamsOf(flatFieldImagePath)
    {
      p := [];
      p := p + [(ImageKey, flatFieldImagePath)];
    }

    method ProcessImage(ip: Image, scale: real, ops: FlatFieldOps) returns (r: Result<Image>)
      ensures r == Process(flatFieldImagePath, ip, scale, ops)
    {
      var loaded := ops.open(flatFieldImagePath);
      if loaded.None? {
        return Err(NullDereference);
      }
      var ff := loaded.value;
      if scale > 0.0 {
        ff := Image(ip.width, ip.height, ops.resample(ff.pixels, ip.width, ip.height));
      }
      if ip.height != ff.height || ip.width != ff.width {
        return Err(ImageSizesDiffer);
      }
      r := Ok(Image(ip.width, ip.height, ops.correct(ip.pixels, ff.pixels)));
    }
  }
}
