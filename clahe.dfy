/** The configuration side of the CLAHE (contrast limited adaptive histogram
    equalisation) filter: its four settings, how a parameter map updates them, how
    they are written back to a map, and value equality.  The histogram work itself
    is done by an image library and is not part of this model. */
module ClaheFilter {
  import opened JavaLang
  import opened ParamMaps

  datatype ClaheSettings = ClaheSettings(fast: bool, blockRadius: int32, bins: int32, slope: Float32)

  /** 2.5f */
  const DefaultSlope := Float32(0x4020_0000)

  /** The field initialisers of a new CLAHE. */
  const Default := ClaheSettings(true, 500, 256, DefaultSlope)

  /** CLAHE.init(Map): each of the keys fast, blockradius, bins and slope that is
      present overwrites its field, in that order; a value that does not parse throws
      (NumberFormatException for the integers, NullPointerException for a null slope)
      and leaves the fields assigned before it updated. */
  function Configure(s: ClaheSettings, p: Params, ft: FloatText): (r: Partial<ClaheSettings>)
    ensures r.thrown.Some? ==> ClassOf(r.thrown.value) in {NumberFormatException, NullPointerException}
  {
    var s1 := if ContainsKey(p, "fast") then s.(fast := ParseBoolean(Get(p, "fast"))) else s;
    var blockRadius := if ContainsKey(p, "blockradius") then ParseInt(Get(p, "blockradius")) else Ok(s1.blockRadius);
    if blockRadius.Err? then Partial(s1, Some(blockRadius.failure))
    else
      var s2 := s1.(blockRadius := blockRadius.value);
      var bins := if ContainsKey(p, "bins") then ParseInt(Get(p, "bins")) else Ok(s2.bins);
      if bins.Err? then Partial(s2, Some(bins.failure))
      else
        var s3 := s2.(bins := bins.value);
        var slope := if ContainsKey(p, "slope") then ParseFloat(ft, Get(p, "slope")) else Ok(s3.slope);
        if slope.Err? then Partial(s3, Some(slope.failure))
        else Partial(s3.(slope := slope.value), None)
  }

  /** Which fields init overwrites: fast whenever its key is present, and no field
      whose key is absent. */
  lemma ConfigureFields(s: ClaheSettings, p: Params, ft: FloatText)
    ensures var r := Configure(s, p, ft);
      && r.state.fast == (if ContainsKey(p, "fast") then ParseBoolean(Get(p, "fast")) else s.fast)
      && (!ContainsKey(p, "blockradius") ==> r.state.blockRadius == s.blockRadius)
      && (!ContainsKey(p, "bins") ==> r.state.bins == s.bins)
      && (!ContainsKey(p, "slope") ==> r.state.slope == s.slope)
  {
  }

  /** init throws exactly when a present value does not parse; when it does not throw, every
      present value has been parsed into its field. */
  lemma ConfigureOutcome(s: ClaheSettings, p: Params, ft: FloatText)
    ensures var r := Configure(s, p, ft);
      && (r.thrown.None? <==>
            (ContainsKey(p, "blockradius") ==> ParseInt(Get(p, "blockradius")).Ok?) &&
            (ContainsKey(p, "bins") ==> ParseInt(Get(p, "bins")).Ok?) &&
            (ContainsKey(p, "slope") ==> ParseFloat(ft, Get(p, "slope")).Ok?))
      && (r.thrown.None? ==>
            (ContainsKey(p, "blockradius") ==> r.state.blockRadius == ParseInt(Get(p, "blockradius")).value) &&
            (ContainsKey(p, "bins") ==> r.state.bins == ParseInt(Get(p, "bins")).value) &&
            (ContainsKey(p, "slope") ==> r.state.slope == ParseFloat(ft, Get(p, "slope")).value))
  {
  }

  /** The CLAHE(Map) constructor: all four keys are read whether present or not; a
      missing or non-"true" fast gives false, a NumberFormatException is wrapped in an
      IllegalArgumentException, and a null slope's NullPointerException is not. */
  function FromMap(p: Params, ft: FloatText): (r: Result<ClaheSettings>)
    ensures r.Ok? ==> r.value.fast == ParseBoolean(Get(p, "fast"))
    ensures r.Ok? <==>
      ParseInt(Get(p, "blockradius")).Ok? && ParseInt(Get(p, "bins")).Ok? &&
      ParseFloat(ft, Get(p, "slope")).Ok?
    ensures r.Err? ==> r.failure.CouldNotCreateClahe? || r.failure == NullDereference
    ensures !ContainsKey(p, "blockradius") ==> r == Err(CouldNotCreateClahe(None))
  {
    var fast := ParseBoolean(Get(p, "fast"));
    match ParseInt(Get(p, "blockradius"))
    case Err(_) => Err(CouldNotCreateClahe(Get(p, "blockradius")))
    case Ok(blockRadius) =>
      match ParseInt(Get(p, "bins"))
      case Err(_) => Err(CouldNotCreateClahe(Get(p, "bins")))
      case Ok(bins) =>
        match ParseFloat(ft, Get(p, "slope"))
        case Err(NullDereference) => Err(NullDereference)
        case Err(_) => Err(CouldNotCreateClahe(Get(p, "slope")))
        case Ok(slope) => Ok(ClaheSettings(fast, blockRadius, bins, slope))
  }

  /** CLAHE.getParams() as written: a fresh LinkedHashMap holding the four settings
      in insertion order, the slope under the key "slop". */
  function GetParamsAsWritten(s: ClaheSettings, ft: FloatText): (r: Params)
    ensures |r| == 4 && DistinctKeys(r) && !ContainsKey(r, "slope")
  {
    [("fast", Some(BoolToString(s.fast))),
     ("blockradius", Some(IntToString(s.blockRadius))),
     ("bins", Some(IntToString(s.bins))),
     ("slop", Some(ft.format(s.slope)))]
  }

  /** What getParams as written holds: the four settings as text, and no "slope". */
  lemma AsWrittenLookups(s: ClaheSettings, ft: FloatText)
    ensures var r := GetParamsAsWritten(s, ft);
      && Keys(r) == ["fast", "blockradius", "bins", "slop"]
      && Get(r, "fast") == Some(BoolToString(s.fast))
      && Get(r, "blockradius") == Some(IntToString(s.blockRadius))
      && Get(r, "bins") == Some(IntToString(s.bins))
      && Get(r, "slop") == Some(ft.format(s.slope))
      && !ContainsKey(r, "slope")
  {
    var p := GetParamsAsWritten(s, ft);
    IndexOfIs(p, "fast", 0);
    IndexOfIs(p, "blockradius", 1);
    IndexOfIs(p, "bins", 2);
    IndexOfIs(p, "slop", 3);
    IndexOfIs(p, "slope", -1);
  }

  /** CLAHE.getParams() as evidently intended: the slope under the key "slope" that
      init reads. */
  function GetParamsCorrected(s: ClaheSettings, ft: FloatText): (r: Params)
    ensures |r| == 4 && DistinctKeys(r)
  {
    [("fast", Some(BoolToString(s.fast))),
     ("blockradius", Some(IntToString(s.blockRadius))),
     ("bins", Some(IntToString(s.bins))),
     ("slope", Some(ft.format(s.slope)))]
  }

  /** What the corrected getParams holds: the four settings as text under the keys
      init reads. */
  lemma CorrectedLookups(s: ClaheSettings, ft: FloatText)
    ensures var r := GetParamsCorrected(s, ft);
      && Keys(r) == ["fast", "blockradius", "bins", "slope"]
      && Get(r, "fast") == Some(BoolToString(s.fast))
      && Get(r, "blockradius") == Some(IntToString(s.blockRadius))
      && Get(r, "bins") == Some(IntToString(s.bins))
      && Get(r, "slope") == Some(ft.format(s.slope))
  {
    var p := GetParamsCorrected(s, ft);
    IndexOfIs(p, "fast", 0);
    IndexOfIs(p, "blockradius", 1);
    IndexOfIs(p, "bins", 2);
    IndexOfIs(p, "slope", 3);
  }

  /** Float.parseFloat reads back what Float.toString wrote for x. */
  predicate FloatRoundTrips(ft: FloatText, x: Float32)
  {
    ft.parse(ft.format(x)) == Some(x)
  }

  /** Re-initialising any CLAHE from the parameters getParams wrote restores fast,
      blockRadius and bins, and never changes the slope. */
  lemma AsWrittenRoundTripKeepsSlope(t: ClaheSettings, s: ClaheSettings, ft: FloatText)
    ensures Configure(t, GetParamsAsWritten(s, ft), ft) ==
            Partial(ClaheSettings(s.fast, s.blockRadius, s.bins, t.slope), None)
  {
    AsWrittenLookups(s, ft);
    ParseBoolToString(s.fast);
    ParseIntToString(s.blockRadius);
    ParseIntToString(s.bins);
  }

  /** Hence a default CLAHE re-initialised from an exported one loses its slope. */
  lemma AsWrittenRoundTripLosesSlope(s: ClaheSettings, ft: FloatText)
    requires s.slope != DefaultSlope
    ensures Configure(Default, GetParamsAsWritten(s, ft), ft).state != s
  {
    AsWrittenRoundTripKeepsSlope(Default, s, ft);
  }

  /** With the corrected key the round trip restores all four settings. */
  lemma RoundTrip(t: ClaheSettings, s: ClaheSettings, ft: FloatText)
    requires FloatRoundTrips(ft, s.slope)
    ensures Configure(t, GetParamsCorrected(s, ft), ft) == Partial(s, None)
  {
    CorrectedLookups(s, ft);
    ParseBoolToString(s.fast);
    ParseIntToString(s.blockRadius);
    ParseIntToString(s.bins);
  }

  /** Keys other than the four are ignored: two maps that agree on those four
      initialise alike. */
  lemma InitReadsOnlyItsKeys(s: ClaheSettings, p: Params, q: Params, ft: FloatText)
    requires forall k :: k in ["fast", "blockradius", "bins", "slope"] ==>
               ContainsKey(p, k) == ContainsKey(q, k) && Get(p, k) == Get(q, k)
    ensures Configure(s, p, ft) == Configure(s, q, ft)
  {
    assert "fast" in ["fast", "blockradius", "bins", "slope"];
    assert "blockradius" in ["fast", "blockradius", "bins", "slope"];
    assert "bins" in ["fast", "blockradius", "bins", "slope"];
    assert "slope" in ["fast", "blockradius", "bins", "slope"];
  }

  /** On a map that holds all four keys the map constructor and init agree, except
      that the constructor wraps a NumberFormatException. */
  lemma FromMapIsInitOfFullMap(t: ClaheSettings, p: Params, ft: FloatText)
    requires ContainsKey(p, "fast") && ContainsKey(p, "blockradius")
    requires ContainsKey(p, "bins") && ContainsKey(p, "slope")
    ensures FromMap(p, ft).Ok? <==> Configure(t, p, ft).thrown.None?
    ensures FromMap(p, ft).Ok? ==> FromMap(p, ft).value == Configure(t, p, ft).state
  {
  }

  /** What the map constructor stores: the settings init would leave in a CLAHE
      whose fast is already the map's (the constructor reads fast even when absent). */
  lemma FromMapValue(t: ClaheSettings, p: Params, ft: FloatText)
    ensures FromMap(p, ft).Ok? ==>
      FromMap(p, ft).value == Configure(t.(fast := ParseBoolean(Get(p, "fast"))), p, ft).state
  {
    if FromMap(p, ft).Ok? {
      ConfigureOutcome(t.(fast := ParseBoolean(Get(p, "fast"))), p, ft);
    }
  }

  /** A Java reference passed to CLAHE.equals(Object). */
  datatype JavaObject = NullObject | ClaheObject(settings: ClaheSettings) | OtherObject

  /** CLAHE.equals: only an object whose runtime class is exactly CLAHE can be equal,
      and then exactly when the four fields are, the slope compared with float `==`. */
  function Equals(s: ClaheSettings, o: JavaObject): (r: bool)
    ensures r ==> o.ClaheObject?
    ensures o.ClaheObject? ==>
      (r <==> s.fast == o.settings.fast && s.blockRadius == o.settings.blockRadius &&
              s.bins == o.settings.bins && FloatEquals(s.slope, o.settings.slope))
    ensures o.ClaheObject? && o.settings == s ==> (r <==> !IsNaN(s.slope))
  {
    match o
    case ClaheObject(c) =>
      s.bins == c.bins && s.blockRadius == c.blockRadius &&
      FloatEquals(s.slope, c.slope) && s.fast == c.fast
    case _ => false
  }

  /** Away from NaN and the two zeros, equals is equality of the settings. */
  lemma EqualsIsIdentity(s: ClaheSettings, t: ClaheSettings)
    requires !IsNaN(s.slope) && !IsZero(s.slope)
    ensures Equals(s, ClaheObject(t)) <==> s == t
  {
    if FloatEquals(s.slope, t.slope) {
      assert s.slope.bits == t.slope.bits;
    }
  }

  lemma {:induction false} EqualsSymmetric(s: ClaheSettings, t: ClaheSettings)
    ensures Equals(s, ClaheObject(t)) == Equals(t, ClaheObject(s))
  {
  }

  /** Instances built from the same parameters compare equal, unless the slope they
      parsed is NaN. */
  lemma SameParamsEqual(t: ClaheSettings, p: Params, ft: FloatText)
    requires Configure(t, p, ft).thrown.None?
    ensures Equals(Configure(t, p, ft).state, ClaheObject(Configure(t, p, ft).state)) <==>
            !IsNaN(Configure(t, p, ft).state.slope)
  {
  }

  /** A CLAHE filter object; its methods update the fields in place. */
  class Clahe {
    var fast: bool
    var blockRadius: int32
    var bins: int32
    var slope: Float32

    function Settings(): ClaheSettings
      reads this
    {
      ClaheSettings(fast, blockRadius, bins, slope)
    }

    /** CLAHE() */
    constructor ()
      ensures Settings() == Default
    {
      fast, blockRadius, bins, slope := true, 500, 256, DefaultSlope;
    }

    /** CLAHE(boolean, int, int, float) */
    constructor WithSettings(fast: bool, blockRadius: int32, bins: int32, slope: Float32)
      ensures Settings() == ClaheSettings(fast, blockRadius, bins, slope)
    {
      this.fast, this.blockRadius, this.bins, this.slope := fast, blockRadius, bins, slope;
    }

    /** CLAHE(Map): a constructor that can throw, so a factory returning the result. */
    static method FromParams(p: Params, ft: FloatText) returns (r: Result<Clahe>)
      ensures r.Ok? <==> FromMap(p, ft).Ok?
      ensures r.Ok? ==> fresh(r.value) && r.value.Settings() == FromMap(p, ft).value
      ensures r.Err? ==> r.failure == FromMap(p, ft).failure
    {
      var settings := FromMap(p, ft);
      if settings.Err? {
        return Err(settings.failure);
      }
      var c := new Clahe.WithSettings(settings.value.fast, settings.value.blockRadius,
                                      settings.value.bins, settings.value.slope);
      r := Ok(c);
    }

    /** init(Map): assigns the fields one after the other, stopping at the first
        value that does not parse. */
    method Init(p: Params, ft: FloatText) returns (thrown: Option<Failure>)
      modifies this
      ensures Partial(Settings(), thrown) == Configure(old(Settings()), p, ft)
    {
      thrown := None;
      if ContainsKey(p, "fast") {
        fast := ParseBoolean(Get(p, "fast"));
      }
      if ContainsKey(p, "blockradius") {
        var n := ParseInt(Get(p, "blockradius"));
        if n.Err? { return Some(n.failure); }
        blockRadius := n.value;
      }
      if ContainsKey(p, "bins") {
        var n := ParseInt(Get(p, "bins"));
        if n.Err? { return Some(n.failure); }
        bins := n.value;
      }
      if ContainsKey(p, "slope") {
        var x := ParseFloat(ft, Get(p, "slope"));
        if x.Err? { return Some(x.failure); }
        slope := x.value;
      }
    }

    /** getParams() */
    method GetParams(ft: FloatText) returns (p: Params)
      ensures p == GetParamsAsWritten(Settings(), ft)
    {
      // each put adds a key the fresh LinkedHashMap does not hold yet, so it appends
      p := [];
      p := p + [("fast", Some(BoolToString(fast)))];
      p := p + [("blockradius", Some(IntToString(blockRadius)))];
      p := p + [("bins", Some(IntToString(bins)))];
      p := p + [("slop", Some(ft.format(slope)))];
    }

    /** equals(Object): another CLAHE whose four fields equal these, the slope by
        float `==`; never null or an object of another class. */
    function EqualsObject(o: JavaObject): (r: bool)
      reads this
      ensures r <==> o.ClaheObject? && Settings().fast == o.settings.fast &&
                     Settings().blockRadius == o.settings.blockRadius &&
                     Settings().bins == o.settings.bins && FloatEquals(Settings().slope, o.settings.slope)
    {
      Equals(Settings(), o)
    }
  }
}
