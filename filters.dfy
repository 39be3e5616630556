/** Built filters: the values a filter spec builds into, the registry that stands for
    reflective class lookup, the filter list that applies its children in order, and
    how a built filter is initialised from and written back to a parameter map. */
module Filters {
  import opened JavaLang
  import opened ParamMaps
  import opened Images
  import C = ClaheFilter
  import FF = FlatFieldFilter

  /** An InputFilter instance, as the value of its configuration. */
  datatype Filter =
    | ClaheInstance(settings: C.ClaheSettings)
    | FlatFieldInstance(path: Value)
    | ListInstance(filters: seq<Filter>)

  // ------------------------------------------------------------ class registry

  const ClaheClassName := "org.janelia.alignment.filter.CLAHE"
  const FlatFieldClassName := "org.janelia.alignment.filter.FlatFieldCorrection"
  const ListClassName := "org.janelia.alignment.filter.InputFilterList"

  /** The filter implementations whose init(Map) and getParams() are modelled. */
  datatype FilterKind = ClaheKind | FlatFieldKind

  /** What Class.forName finds under a name: an InputFilter implementation, a class
      that is not one, or a class whose newInstance() throws. */
  datatype ClassDef = FilterClass(kind: FilterKind) | NonFilterClass | NotInstantiable

  /** The classes Class.forName can load, by name. */
  type Registry = map<string, ClassDef>

  function KindName(k: FilterKind): string
  {
    match k
    case ClaheKind => ClaheClassName
    case FlatFieldKind => FlatFieldClassName
  }

  /** A registry in which the modelled filter classes are found under their names. */
  predicate StandardRegistry(reg: Registry)
  {
    && ClaheClassName in reg && reg[ClaheClassName] == FilterClass(ClaheKind)
    && FlatFieldClassName in reg && reg[FlatFieldClassName] == FilterClass(FlatFieldKind)
  }

  /** getClass().getCanonicalName() */
  function ClassName(f: Filter): string
  {
    match f
    case ClaheInstance(_) => ClaheClassName
    case FlatFieldInstance(_) => FlatFieldClassName
    case ListInstance(_) => ListClassName
  }

  function KindOf(f: Filter): FilterKind
    requires !f.ListInstance?
  {
    if f.ClaheInstance? then ClaheKind else FlatFieldKind
  }

  /** Class.newInstance() of a filter class: the no-argument constructor. */
  function NewInstance(k: FilterKind): (f: Filter)
    ensures !f.ListInstance? && KindOf(f) == k
    ensures k == ClaheKind ==> f == ClaheInstance(C.Default)
    ensures k == FlatFieldKind ==> f == FlatFieldInstance(None)
  {
    match k
    case ClaheKind => ClaheInstance(C.Default)
    case FlatFieldKind => FlatFieldInstance(None)
  }

  /** init(Map) on a single filter. */
  function Init(f: Filter, p: Params, ft: FloatText): (r: Result<Filter>)
    requires !f.ListInstance?
    ensures r.Ok? ==> !r.value.ListInstance? && KindOf(r.value) == KindOf(f)
  {
    match f
    case ClaheInstance(s) =>
      var c := C.Configure(s, p, ft);
      if c.thrown.Some? then Err(c.thrown.value) else Ok(ClaheInstance(c.state))
    case FlatFieldInstance(_) =>
      var path :- FF.Configure(p);
      Ok(FlatFieldInstance(path))
  }

  /** Which CLAHE.getParams writes the parameters: the one as written, which puts
      the slope under "slop", or the corrected one, which puts it under "slope". */
  datatype ParamsWriter = AsWritten | Corrected

  /** getParams() on a single filter, with CLAHE's as w says. */
  function GetParams(f: Filter, ft: FloatText, w: ParamsWriter): (r: Params)
    requires !f.ListInstance?
    ensures DistinctKeys(r)
    ensures ContainsKey(r, "slope") ==> f.ClaheInstance? && w.Corrected?
  {
    match f
    case ClaheInstance(s) =>
      if w.Corrected? then C.GetParamsCorrected(s, ft) else C.GetParamsAsWritten(s, ft)
    case FlatFieldInstance(path) => FF.ParamsOf(path)
  }

  /** The slopes a filter holds are written and read back exactly. */
  predicate SlopesRoundTrip(f: Filter, ft: FloatText)
  {
    match f
    case ClaheInstance(s) => C.FloatRoundTrips(ft, s.slope)
    case FlatFieldInstance(_) => true
    case ListInstance(fs) => forall i :: 0 <= i < |fs| ==> SlopesRoundTrip(fs[i], ft)
  }

  /** Every CLAHE slope in f, at any depth, set back to the default 2.5. */
  function ResetSlopes(f: Filter): Filter
    decreases f
  {
    match f
    case ClaheInstance(s) => ClaheInstance(s.(slope := C.DefaultSlope))
    case FlatFieldInstance(_) => f
    case ListInstance(fs) => ListInstance(ResetAllSlopes(fs))
  }

  function ResetAllSlopes(fs: seq<Filter>): (r: seq<Filter>)
    ensures |r| == |fs|
    decreases fs
  {
    if |fs| == 0 then [] else [ResetSlopes(fs[0])] + ResetAllSlopes(fs[1..])
  }

  /** What a filter becomes when it is written out by w's getParams and read back:
      itself under the corrected writer, itself with every slope at the default as
      written (init never sees a "slope" key and keeps the field initialiser). */
  function Reinit(f: Filter, w: ParamsWriter): Filter
  {
    if w.Corrected? then f else ResetSlopes(f)
  }

  function ReinitAll(fs: seq<Filter>, w: ParamsWriter): seq<Filter>
  {
    if w.Corrected? then fs else ResetAllSlopes(fs)
  }

  lemma ReinitAllCons(fs: seq<Filter>, w: ParamsWriter)
    requires |fs| > 0
    ensures ReinitAll(fs, w) == [Reinit(fs[0], w)] + ReinitAll(fs[1..], w)
  {
    if w.Corrected? {
      assert fs == [fs[0]] + fs[1..];
    }
  }

  /** A new instance of a filter's class, initialised from that filter's parameters,
      is that filter again under the corrected writer, and that filter with the
      default slope under the writer as written. */
  lemma ReinitRoundTrip(f: Filter, ft: FloatText, w: ParamsWriter)
    requires !f.ListInstance? && (w.Corrected? ==> SlopesRoundTrip(f, ft))
    ensures Init(NewInstance(KindOf(f)), GetParams(f, ft, w), ft) == Ok(Reinit(f, w))
  {
    match f
    case ClaheInstance(s) =>
      if w.Corrected? {
        C.RoundTrip(C.Default, s, ft);
      } else {
        C.AsWrittenRoundTripKeepsSlope(C.Default, s, ft);
      }
    case FlatFieldInstance(path) => FF.RoundTrip(path);
  }

  // ------------------------------------------------------------ processing

  /** The pixel processing of the single filters, supplied by the caller. */
  datatype Runtime = Runtime(clahe: (C.ClaheSettings, Image, real) -> Image, flatField: FF.FlatFieldOps)

  /** process(ip, scale) */
  function Process(f: Filter, ip: Image, scale: real, rt: Runtime): Result<Image>
    decreases f
  {
    match f
    case ClaheInstance(s) => Ok(rt.clahe(s, ip, scale))
    case FlatFieldInstance(path) => FF.Process(path, ip, scale, rt.flatField)
    case ListInstance(fs) => ProcessAll(fs, ip, scale, rt)
  }

  /** Every filter of fs in turn, each on the previous one's output. */
  function ProcessAll(fs: seq<Filter>, ip: Image, scale: real, rt: Runtime): (r: Result<Image>)
    ensures r.Err? ==> exists i, x :: 0 <= i < |fs| && Process(fs[i], x, scale, rt) == Err(r.failure)
    decreases fs
  {
    if |fs| == 0 then Ok(ip)
    else
      match Process(fs[0], ip, scale, rt)
      case Err(e) => Err(e)
      case Ok(next) => ProcessAll(fs[1..], next, scale, rt)
  }

  /** Applying filters one after another, for any element type: each gets the
      previous output and the same scale; an exception stops the chain. */
  function Compose<E>(fs: seq<E>, ip: Image, scale: real, apply: (E, Image, real) -> Result<Image>): (r: Result<Image>)
    ensures r.Err? ==> exists i, x :: 0 <= i < |fs| && apply(fs[i], x, scale) == Err(r.failure)
  {
    if |fs| == 0 then Ok(ip)
    else
      match apply(fs[0], ip, scale)
      case Err(e) => Err(e)
      case Ok(next) => Compose(fs[1..], next, scale, apply)
  }

  /** Composing a + b is composing a, then b on its output. */
  lemma {:induction false} ComposeAppend<E>(a: seq<E>, b: seq<E>, ip: Image, scale: real, apply: (E, Image, real) -> Result<Image>)
    ensures Compose(a + b, ip, scale, apply) ==
            match Compose(a, ip, scale, apply)
            case Err(e) => Err(e)
            case Ok(mid) => Compose(b, mid, scale, apply)
  {
    if |a| == 0 {
      assert a + b == b;
    } else {
      assert (a + b)[0] == a[0] && (a + b)[1..] == a[1..] + b;
      match apply(a[0], ip, scale)
      case Err(_) =>
      case Ok(next) => ComposeAppend(a[1..], b, next, scale, apply);
    }
  }

  function ProcessFn(rt: Runtime): (Filter, Image, real) -> Result<Image>
  {
    (f, ip, scale) => Process(f, ip, scale, rt)
  }

  /** A list filter processes as the composition of its children. */
  lemma {:induction false} ProcessAllIsCompose(fs: seq<Filter>, ip: Image, scale: real, rt: Runtime)
    ensures ProcessAll(fs, ip, scale, rt) == Compose(fs, ip, scale, ProcessFn(rt))
  {
    if |fs| > 0 {
      match Process(fs[0], ip, scale, rt)
      case Err(_) =>
      case Ok(next) => ProcessAllIsCompose(fs[1..], next, scale, rt);
    }
  }

  /** The single filters of a filter, nested lists spliced in, in order. */
  function Leaves(f: Filter): (r: seq<Filter>)
    decreases f
  {
    match f
    case ListInstance(fs) => LeavesAll(fs)
    case _ => [f]
  }

  function LeavesAll(fs: seq<Filter>): seq<Filter>
    decreases fs
  {
    if |fs| == 0 then [] else Leaves(fs[0]) + LeavesAll(fs[1..])
  }

  /** Processing a list of lists is processing its leaves in order. */
  lemma {:induction false} ProcessLeaves(f: Filter, ip: Image, scale: real, rt: Runtime)
    ensures ProcessAll(Leaves(f), ip, scale, rt) == Process(f, ip, scale, rt)
    decreases f
  {
    match f
    case ListInstance(fs) => ProcessLeavesAll(fs, ip, scale, rt);
    case _ =>
      assert [f][1..] == [];
  }

  lemma {:induction false} ProcessLeavesAll(fs: seq<Filter>, ip: Image, scale: real, rt: Runtime)
    ensures ProcessAll(LeavesAll(fs), ip, scale, rt) == ProcessAll(fs, ip, scale, rt)
    decreases fs
  {
    if |fs| > 0 {
      var apply := ProcessFn(rt);
      ProcessAllIsCompose(LeavesAll(fs), ip, scale, rt);
      ComposeAppend(Leaves(fs[0]), LeavesAll(fs[1..]), ip, scale, apply);
      ProcessAllIsCompose(Leaves(fs[0]), ip, scale, rt);
      ProcessLeaves(fs[0], ip, scale, rt);
      match Process(fs[0], ip, scale, rt)
      case Err(_) =>
      case Ok(mid) =>
        ProcessAllIsCompose(LeavesAll(fs[1..]), mid, scale, rt);
        ProcessLeavesAll(fs[1..], mid, scale, rt);
    }
  }

  // ------------------------------------------------------------ InputFilterList

  /** The position of the first element t equals, or -1. */
  function FirstMatch<E>(s: seq<E>, t: E, equal: (E, E) -> bool): (i: int)
    ensures -1 <= i < |s|
    ensures i >= 0 ==> equal(t, s[i]) && forall j :: 0 <= j < i ==> !equal(t, s[j])
    ensures i < 0 ==> forall j :: 0 <= j < |s| ==> !equal(t, s[j])
  {
    if |s| == 0 then -1
    else if equal(t, s[0]) then 0
    else
      var i := FirstMatch(s[1..], t, equal);
      if i < 0 then -1 else i + 1
  }

  /** List.remove(Object): drops the first element t equals, if there is one. */
  function RemoveFirst<E>(s: seq<E>, t: E, equal: (E, E) -> bool): (r: seq<E>)
    ensures FirstMatch(s, t, equal) < 0 ==> r == s
    ensures FirstMatch(s, t, equal) >= 0 ==>
      var i := FirstMatch(s, t, equal);
      |r| == |s| - 1 && r[..i] == s[..i] && r[i..] == s[i + 1..]
  {
    var i := FirstMatch(s, t, equal);
    if i < 0 then s else s[..i] + s[i + 1..]
  }

  /** A java.util.List held by the caller, as an ArrayList: its elements in order. */
  class JavaList<E> {
    var items: seq<E>

    constructor ()
      ensures items == []
    {
      items := [];
    }

    /** addAll(c): c's elements appended in order. */
    method AddAll(c: seq<E>)
      modifies this
      ensures items == old(items) + c
    {
      items := items + c;
    }
  }

  /** An InputFilterList: an ordered list of filters that is itself a filter. */
  class InputFilterList<E> {
    var filters: seq<E>

    constructor ()
      ensures filters == []
    {
      filters := [];
    }

    method Add(t: E)
      modifies this
      ensures filters == old(filters) + [t]
    {
      filters := filters + [t];
    }

    /** remove(E): the search compares with t's equals method. */
    method Remove(t: E, equal: (E, E) -> bool)
      modifies this
      ensures filters == RemoveFirst(old(filters), t, equal)
    {
      var i := 0;
      while i < |filters| && !equal(t, filters[i])
        invariant 0 <= i <= |filters|
        invariant forall j :: 0 <= j < i ==> !equal(t, filters[j])
      {
        i := i + 1;
      }
      if i < |filters| {
        filters := filters[..i] + filters[i + 1..];
      }
    }

    /** remove(int): returns the element at i and shifts the later ones down. */
    method RemoveAt(i: int) returns (r: Result<E>)
      modifies this
      ensures 0 <= i < |old(filters)| ==>
        r == Ok(old(filters)[i]) && filters == old(filters)[..i] + old(filters)[i + 1..]
      ensures !(0 <= i < |old(filters)|) ==>
        r == Err(IndexOutOfBounds(i, |old(filters)|)) && filters == old(filters)
    {
      if 0 <= i < |filters| {
        r := Ok(filters[i]);
        filters := filters[..i] + filters[i + 1..];
      } else {
        r := Err(IndexOutOfBounds(i, |filters|));
      }
    }

    method Get(i: int) returns (r: Result<E>)
      ensures 0 <= i < |filters| ==> r == Ok(filters[i])
      ensures !(0 <= i < |filters|) ==> r == Err(IndexOutOfBounds(i, |filters|))
    {
      if 0 <= i < |filters| {
        r := Ok(filters[i]);
      } else {
        r := Err(IndexOutOfBounds(i, |filters|));
      }
    }

    method Clear()
      modifies this
      ensures filters == []
    {
      filters := [];
    }

    /** getList(List): appends the filters, in order, to the caller's list, or to a
        new one when that is null (None), and returns that same list object. */
    method GetList(preAllocated: Option<JavaList<E>>) returns (r: JavaList<E>)
      modifies if preAllocated.Some? then {preAllocated.value} else {}
      ensures preAllocated.Some? ==> r == preAllocated.value
      ensures preAllocated.None? ==> fresh(r)
      ensures r.items == old(if preAllocated.Some? then preAllocated.value.items else []) + filters
    {
      if preAllocated.None? {
        r := new JavaList();
      } else {
        r := preAllocated.value;
      }
      r.AddAll(filters);
    }

    /** process(ip, scale): the filters in order, each on the previous output. */
    method Process(ip: Image, scale: real, apply: (E, Image, real) -> Result<Image>) returns (r: Result<Image>)
      ensures r == Compose(filters, ip, scale, apply)
    {
      var current := ip;
      var i := 0;
      while i < |filters|
        invariant 0 <= i <= |filters|
        invariant Compose(filters, ip, scale, apply) == Compose(filters[i..], current, scale, apply)
      {
        var next := apply(filters[i], current, scale);
        if next.Err? {
          return Err(next.failure);
        }
        assert filters[i..][1..] == filters[i + 1..];
        current := next.value;
        i := i + 1;
      }
      r := Ok(current);
    }

    /** init(String) does nothing. */
    method InitFromString(data: string)
      ensures unchanged(this)
    {
    }

    /** toDataString() returns null. */
    method ToDataString() returns (s: Value)
      ensures s == None
    {
      s := None;
    }
  }
}
