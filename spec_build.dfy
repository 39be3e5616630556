/** buildInstance and validate: turning a resolved spec into a filter.  A leaf looks
    its class up (once: the class is cached on the spec), instantiates it and
    initialises it from its parameters; a reference builds its target; a list builds
    every child, in order, into a new InputFilterList. */
module SpecBuild {
  import opened JavaLang
  import opened ParamMaps
  import opened SpecNodes
  import opened SpecQueries
  import F = Filters

  // ------------------------------------------------------------ getClazz / newInstance

  /** getClazz(): the cached class, else Class.forName(className). */
  function LookupClass(n: Node, reg: F.Registry): (r: Result<F.ClassDef>)
    requires n.Leaf?
    ensures n.clazz.Some? ==> r == Ok(n.clazz.value)
    ensures n.clazz.None? && n.className.None? ==> r == Err(NoClassName(n.id))
    ensures n.clazz.None? && n.className.Some? ==>
      (n.className.value in reg ==> r == Ok(reg[n.className.value])) &&
      (n.className.value !in reg ==> r == Err(ClassNotFound(n.className)))
  {
    if n.clazz.Some? then Ok(n.clazz.value)
    else if n.className.None? then Err(NoClassName(n.id))
    else if n.className.value in reg then Ok(reg[n.className.value])
    else Err(ClassNotFound(n.className))
  }

  /** The leaf after getClazz() has stored what it found. */
  function FillCache(n: Node, reg: F.Registry): (r: Node)
    requires n.Leaf?
    ensures r.Leaf?
  {
    match LookupClass(n, reg)
    case Ok(cd) => n.(clazz := Some(cd))
    case Err(_) => n
  }

  /** Once a class is found it is cached: later lookups return it whatever the
      registry then holds, and filling the cache again changes nothing. */
  lemma LookupCached(n: Node, reg: F.Registry, later: F.Registry)
    requires n.Leaf?
    ensures LookupClass(n, reg).Ok? ==>
      FillCache(n, reg).clazz.Some? && LookupClass(FillCache(n, reg), later) == LookupClass(n, reg)
    ensures LookupClass(n, reg).Err? ==> FillCache(n, reg) == n
    ensures FillCache(FillCache(n, reg), reg) == FillCache(n, reg)
  {
  }

  /** newInstance(): Class.newInstance() on the class found, which must be an InputFilter. */
  function Instantiate(cd: F.ClassDef, className: Value): Result<F.Filter>
  {
    match cd
    case FilterClass(k) => Ok(F.NewInstance(k))
    case NonFilterClass => Err(NotAnInputFilter(className))
    case NotInstantiable => Err(InstantiationFailed(className))
  }

  /** LeafFilterSpec.buildInstance(): the class is looked up and instantiated before
      the parameters are checked, so a bad class is reported even when the
      parameters are missing too. */
  function BuildLeaf(n: Node, reg: F.Registry, ft: FloatText): (r: Result<F.Filter>)
    requires n.Leaf?
    ensures LookupClass(n, reg).Err? ==> r == Err(LookupClass(n, reg).failure)
    ensures LookupClass(n, reg) == Ok(F.NonFilterClass) ==> r == Err(NotAnInputFilter(n.className))
    ensures LookupClass(n, reg) == Ok(F.NotInstantiable) ==> r == Err(InstantiationFailed(n.className))
    ensures LookupClass(n, reg).Ok? && LookupClass(n, reg).value.FilterClass? ==>
      var k := LookupClass(n, reg).value.kind;
      && (n.params.None? ==> r == Err(NoParams(n.id)))
      && (n.params.Some? ==> r == F.Init(F.NewInstance(k), n.params.value, ft))
    ensures r.Ok? ==> !r.value.ListInstance?
  {
    var cd :- LookupClass(n, reg);
    var filter :- Instantiate(cd, n.className);
    if n.params.None? then Err(NoParams(n.id))
    else F.Init(filter, n.params.value, ft)
  }

  // ------------------------------------------------------------ buildInstance

  /** buildInstance() on spec h.  An unbound reference names its refId (not its
      effective id) in the exception; a null list entry dereferences null. */
  function Build(g: Nodes, ghost rank: map<Handle, nat>, reg: F.Registry, ft: FloatText, h: Handle): Result<F.Filter>
    requires Ranked(g, rank) && h in g
    decreases rank[h], 1
  {
    match g[h]
    case Leaf(_, _, _, _, _) => BuildLeaf(g[h], reg, ft)
    case Ref(refId, _, target) =>
      if target.None? then Err(ReferenceNotResolved(refId)) else Build(g, rank, reg, ft, target.value)
    case List(_, _, _) =>
      var filters :- BuildChildren(g, rank, reg, ft, h, 0);
      Ok(F.ListInstance(filters))
  }

  /** buildInstance throws only IllegalArgumentException (NumberFormatException
      included), or NullPointerException for a null list entry or a null slope. */
  lemma {:induction false} BuildThrows(g: Nodes, rank: map<Handle, nat>, reg: F.Registry, ft: FloatText, h: Handle)
    requires Ranked(g, rank) && h in g
    ensures var r := Build(g, rank, reg, ft, h);
      r.Err? ==> IsIllegalArgument(r.failure) || r.failure == NullDereference
    decreases rank[h], 1
  {
    match g[h]
    case Leaf(_, _, _, _, _) =>
    case Ref(_, _, target) =>
      if target.Some? {
        BuildThrows(g, rank, reg, ft, target.value);
      }
    case List(_, _, _) =>
      ChildrenThrow(g, rank, reg, ft, h, 0);
  }

  /** The same, for a list's children from position i on. */
  lemma {:induction false} ChildrenThrow(g: Nodes, rank: map<Handle, nat>, reg: F.Registry, ft: FloatText, h: Handle, i: nat)
    requires Ranked(g, rank) && h in g && g[h].List? && i <= |g[h].specs|
    ensures var r := BuildChildren(g, rank, reg, ft, h, i);
      r.Err? ==> IsIllegalArgument(r.failure) || r.failure == NullDereference
    decreases rank[h], 0, |g[h].specs| - i
  {
    if i < |g[h].specs| && g[h].specs[i].Some? {
      BuildThrows(g, rank, reg, ft, g[h].specs[i].value);
      ChildrenThrow(g, rank, reg, ft, h, i + 1);
    }
  }

  function BuildChildren(g: Nodes, ghost rank: map<Handle, nat>, reg: F.Registry, ft: FloatText, h: Handle, i: nat)
    : Result<seq<F.Filter>>
    requires Ranked(g, rank) && h in g && g[h].List? && i <= |g[h].specs|
    decreases rank[h], 0, |g[h].specs| - i
  {
    if i == |g[h].specs| then Ok([])
    else
      match g[h].specs[i]
      case None => Err(NullDereference)
      case Some(c) =>
        var first :- Build(g, rank, reg, ft, c);
        var rest :- BuildChildren(g, rank, reg, ft, h, i + 1);
        Ok([first] + rest)
  }

  /** What child j of list h builds to; a null child dereferences null. */
  function ChildBuild(g: Nodes, ghost rank: map<Handle, nat>, reg: F.Registry, ft: FloatText, h: Handle, j: nat)
    : Result<F.Filter>
    requires Ranked(g, rank) && h in g && g[h].List? && j < |g[h].specs|
  {
    match g[h].specs[j]
    case None => Err(NullDereference)
    case Some(c) => Build(g, rank, reg, ft, c)
  }

  /** One step of a list's build: the first child, then the rest. */
  lemma BuildChildrenStep(g: Nodes, rank: map<Handle, nat>, reg: F.Registry, ft: FloatText, h: Handle, i: nat)
    requires Ranked(g, rank) && h in g && g[h].List? && i < |g[h].specs|
    ensures ChildBuild(g, rank, reg, ft, h, i).Err? ==>
      BuildChildren(g, rank, reg, ft, h, i) == Err(ChildBuild(g, rank, reg, ft, h, i).failure)
    ensures ChildBuild(g, rank, reg, ft, h, i).Ok? && BuildChildren(g, rank, reg, ft, h, i + 1).Err? ==>
      BuildChildren(g, rank, reg, ft, h, i) == Err(BuildChildren(g, rank, reg, ft, h, i + 1).failure)
    ensures ChildBuild(g, rank, reg, ft, h, i).Ok? && BuildChildren(g, rank, reg, ft, h, i + 1).Ok? ==>
      BuildChildren(g, rank, reg, ft, h, i) ==
        Ok([ChildBuild(g, rank, reg, ft, h, i).value] + BuildChildren(g, rank, reg, ft, h, i + 1).value)
  {
  }

  /** A list spec builds exactly when every child builds, into a list whose k-th
      filter is the build of its k-th child. */
  lemma {:induction false} BuildListPointwise(g: Nodes, rank: map<Handle, nat>, reg: F.Registry, ft: FloatText, h: Handle, i: nat)
    requires Ranked(g, rank) && h in g && g[h].List? && i <= |g[h].specs|
    ensures BuildChildren(g, rank, reg, ft, h, i).Ok? <==>
      forall j :: i <= j < |g[h].specs| ==> ChildBuild(g, rank, reg, ft, h, j).Ok?
    ensures BuildChildren(g, rank, reg, ft, h, i).Ok? ==>
      var fs := BuildChildren(g, rank, reg, ft, h, i).value;
      |fs| == |g[h].specs| - i &&
      forall k :: 0 <= k < |fs| ==> ChildBuild(g, rank, reg, ft, h, i + k) == Ok(fs[k])
    decreases |g[h].specs| - i
  {
    if i < |g[h].specs| {
      BuildListPointwise(g, rank, reg, ft, h, i + 1);
      BuildChildrenStep(g, rank, reg, ft, h, i);
      var first := ChildBuild(g, rank, reg, ft, h, i);
      var rest := BuildChildren(g, rank, reg, ft, h, i + 1);
      if first.Ok? && rest.Ok? {
        var fs := [first.value] + rest.value;
        forall k | 0 <= k < |fs|
          ensures ChildBuild(g, rank, reg, ft, h, i + k) == Ok(fs[k])
        {
          if k > 0 {
            assert fs[k] == rest.value[k - 1];
            assert i + k == (i + 1) + (k - 1);
          }
        }
      }
    }
  }

  /** A list spec that does not build fails with the failure of its first child
      that fails. */
  lemma {:induction false} BuildListFirstFailure(g: Nodes, rank: map<Handle, nat>, reg: F.Registry, ft: FloatText, h: Handle, i: nat)
    requires Ranked(g, rank) && h in g && g[h].List? && i <= |g[h].specs|
    ensures BuildChildren(g, rank, reg, ft, h, i).Err? ==>
      exists j :: i <= j < |g[h].specs| &&
        ChildBuild(g, rank, reg, ft, h, j) == Err(BuildChildren(g, rank, reg, ft, h, i).failure) &&
        forall j' :: i <= j' < j ==> ChildBuild(g, rank, reg, ft, h, j').Ok?
    decreases |g[h].specs| - i
  {
    if i < |g[h].specs| {
      BuildChildrenStep(g, rank, reg, ft, h, i);
      var first := ChildBuild(g, rank, reg, ft, h, i);
      var rest := BuildChildren(g, rank, reg, ft, h, i + 1);
      if first.Err? {
        assert i <= i < |g[h].specs|;
      } else if rest.Err? {
        BuildListFirstFailure(g, rank, reg, ft, h, i + 1);
        FirstFailureExtends(g, rank, reg, ft, h, i, rest.failure);
      }
    }
  }

  /** A first failing child after i + 1 is the first after i when child i builds. */
  lemma FirstFailureExtends(g: Nodes, rank: map<Handle, nat>, reg: F.Registry, ft: FloatText, h: Handle, i: nat, e: Failure)
    requires Ranked(g, rank) && h in g && g[h].List? && i < |g[h].specs|
    requires ChildBuild(g, rank, reg, ft, h, i).Ok?
    requires exists j :: (i + 1 <= j < |g[h].specs| && ChildBuild(g, rank, reg, ft, h, j) == Err(e) &&
                          forall j' :: i + 1 <= j' < j ==> ChildBuild(g, rank, reg, ft, h, j').Ok?)
    ensures exists j :: (i <= j < |g[h].specs| && ChildBuild(g, rank, reg, ft, h, j) == Err(e) &&
                         forall j' :: i <= j' < j ==> ChildBuild(g, rank, reg, ft, h, j').Ok?)
  {
    var j :| i + 1 <= j < |g[h].specs| && ChildBuild(g, rank, reg, ft, h, j) == Err(e) &&
      forall j' :: i + 1 <= j' < j ==> ChildBuild(g, rank, reg, ft, h, j').Ok?;
    assert forall j' :: i <= j' < j ==> ChildBuild(g, rank, reg, ft, h, j').Ok?;
  }

  // ------------------------------------------------------------ the class cache

  /** g' is g with some leaf caches filled from the registry. */
  predicate CachesFrom(g: Nodes, g': Nodes, reg: F.Registry)
  {
    g'.Keys == g.Keys &&
    forall k :: k in g ==> g'[k] == g[k] || (g[k].Leaf? && g'[k] == FillCache(g[k], reg))
  }

  lemma CachesFromTransitive(g0: Nodes, g1: Nodes, g2: Nodes, reg: F.Registry)
    requires CachesFrom(g0, g1, reg) && CachesFrom(g1, g2, reg)
    ensures CachesFrom(g0, g2, reg)
  {
    forall k | k in g0
      ensures g2[k] == g0[k] || (g0[k].Leaf? && g2[k] == FillCache(g0[k], reg))
    {
      if g1[k] != g0[k] {
        LookupCached(g0[k], reg, reg);
      }
    }
  }

  /** Filling caches neither changes the graph's shape nor what anything builds to. */
  lemma {:induction false} BuildIgnoresCaches(g: Nodes, g': Nodes, rank: map<Handle, nat>, reg: F.Registry, ft: FloatText, h: Handle)
    requires Ranked(g, rank) && h in g && CachesFrom(g, g', reg)
    ensures Ranked(g', rank)
    ensures Build(g', rank, reg, ft, h) == Build(g, rank, reg, ft, h)
    decreases rank[h], 1
  {
    CachesKeepRanking(g, g', rank, reg);
    match g[h]
    case Leaf(_, _, _, _, _) =>
      LookupCached(g[h], reg, reg);
    case Ref(_, _, target) =>
      if target.Some? {
        BuildIgnoresCaches(g, g', rank, reg, ft, target.value);
      }
    case List(_, _, _) =>
      BuildChildrenIgnoresCaches(g, g', rank, reg, ft, h, 0);
  }

  lemma {:induction false} BuildChildrenIgnoresCaches(g: Nodes, g': Nodes, rank: map<Handle, nat>, reg: F.Registry, ft: FloatText, h: Handle, i: nat)
    requires Ranked(g, rank) && h in g && g[h].List? && i <= |g[h].specs| && CachesFrom(g, g', reg)
    requires Ranked(g', rank) && g'[h] == g[h]
    ensures BuildChildren(g', rank, reg, ft, h, i) == BuildChildren(g, rank, reg, ft, h, i)
    decreases rank[h], 0, |g[h].specs| - i
  {
    if i < |g[h].specs| && g[h].specs[i].Some? {
      BuildIgnoresCaches(g, g', rank, reg, ft, g[h].specs[i].value);
      BuildChildrenIgnoresCaches(g, g', rank, reg, ft, h, i + 1);
    }
  }

  lemma CachesKeepRanking(g: Nodes, g': Nodes, rank: map<Handle, nat>, reg: F.Registry)
    requires Ranked(g, rank) && CachesFrom(g, g', reg)
    ensures Ranked(g', rank)
    ensures forall k :: k in g && !g[k].Leaf? ==> g'[k] == g[k]
  {
    forall k | k in g' ensures NodeClosed(g', g'[k])
    {
      assert NodeClosed(g, g[k]);
    }
  }

  // ------------------------------------------------------------ flatten and build

  /** buildInstance on each of a sequence of specs, stopping at the first failure. */
  function BuildAll(g: Nodes, ghost rank: map<Handle, nat>, reg: F.Registry, ft: FloatText, hs: seq<Handle>)
    : (r: Result<seq<F.Filter>>)
    requires Ranked(g, rank) && forall k :: k in hs ==> k in g
    ensures r.Ok? ==> |r.value| == |hs|
  {
    if |hs| == 0 then Ok([])
    else
      var first :- Build(g, rank, reg, ft, hs[0]);
      var rest :- BuildAll(g, rank, reg, ft, hs[1..]);
      Ok([first] + rest)
  }

  function MapLeaves(r: Result<F.Filter>): Result<seq<F.Filter>>
  {
    match r
    case Ok(f) => Ok(F.Leaves(f))
    case Err(e) => Err(e)
  }

  function MapLeavesAll(r: Result<seq<F.Filter>>): Result<seq<F.Filter>>
  {
    match r
    case Ok(fs) => Ok(F.LeavesAll(fs))
    case Err(e) => Err(e)
  }

  lemma {:induction false} BuildAllAppend(g: Nodes, rank: map<Handle, nat>, reg: F.Registry, ft: FloatText, a: seq<Handle>, b: seq<Handle>)
    requires Ranked(g, rank) && (forall k :: k in a ==> k in g) && (forall k :: k in b ==> k in g)
    ensures BuildAll(g, rank, reg, ft, a + b) ==
      match BuildAll(g, rank, reg, ft, a)
      case Err(e) => Err(e)
      case Ok(x) =>
        (match BuildAll(g, rank, reg, ft, b)
         case Err(e) => Err(e)
         case Ok(y) => Ok(x + y))
  {
    if |a| == 0 {
      assert a + b == b;
      match BuildAll(g, rank, reg, ft, b)
      case Err(_) =>
      case Ok(y) => assert [] + y == y;
    } else {
      assert (a + b)[0] == a[0] && (a + b)[1..] == a[1..] + b;
      BuildAllAppend(g, rank, reg, ft, a[1..], b);
      match Build(g, rank, reg, ft, a[0])
      case Err(_) =>
      case Ok(f) =>
        match BuildAll(g, rank, reg, ft, a[1..])
        case Err(_) =>
        case Ok(x) =>
          match BuildAll(g, rank, reg, ft, b)
          case Err(_) =>
          case Ok(y) => assert [f] + (x + y) == ([f] + x) + y;
    }
  }

  /** The specs build one by one: BuildAll succeeds exactly when each spec builds,
      and then holds what each builds to, in order. */
  lemma {:induction false} BuildAllPointwise(g: Nodes, rank: map<Handle, nat>, reg: F.Registry, ft: FloatText, hs: seq<Handle>)
    requires Ranked(g, rank) && forall k :: k in hs ==> k in g
    ensures var r := BuildAll(g, rank, reg, ft, hs);
      && (r.Ok? <==> forall i :: 0 <= i < |hs| ==> Build(g, rank, reg, ft, hs[i]).Ok?)
      && (r.Ok? ==> forall i :: 0 <= i < |hs| ==> r.value[i] == Build(g, rank, reg, ft, hs[i]).value)
  {
    if |hs| > 0 {
      BuildAllPointwise(g, rank, reg, ft, hs[1..]);
      assert forall i :: 1 <= i < |hs| ==> hs[i] == hs[1..][i - 1];
    }
  }

  /** Building the flattened leaves one by one gives the leaves of the built filter,
      or the same first failure: flattening does not change what a spec builds to. */
  lemma {:induction false} FlattenPreservesBuild(g: Nodes, rank: map<Handle, nat>, reg: F.Registry, ft: FloatText, h: Handle)
    requires Ranked(g, rank) && h in g && Flattened(g, rank, h).thrown.None?
    ensures forall k :: k in Flattened(g, rank, h).state ==> k in g
    ensures BuildAll(g, rank, reg, ft, Flattened(g, rank, h).state) == MapLeaves(Build(g, rank, reg, ft, h))
    decreases rank[h], 1
  {
    FlattenedAreLeaves(g, rank, h);
    match g[h]
    case Leaf(_, _, _, _, _) =>
      assert [h][1..] == [];
      if Build(g, rank, reg, ft, h).Ok? {
        var f := Build(g, rank, reg, ft, h).value;
        assert [f] + [] == [f] == F.Leaves(f);
      }
    case Ref(_, _, target) =>
      FlattenPreservesBuild(g, rank, reg, ft, target.value);
    case List(_, _, _) =>
      ChildrenFlattenPreservesBuild(g, rank, reg, ft, h, 0);
  }

  lemma {:induction false} ChildrenFlattenPreservesBuild(g: Nodes, rank: map<Handle, nat>, reg: F.Registry, ft: FloatText, h: Handle, i: nat)
    requires Ranked(g, rank) && h in g && g[h].List? && i <= |g[h].specs|
    requires FlattenedChildren(g, rank, h, i).thrown.None?
    ensures forall k :: k in FlattenedChildren(g, rank, h, i).state ==> k in g
    ensures BuildAll(g, rank, reg, ft, FlattenedChildren(g, rank, h, i).state) ==
      MapLeavesAll(BuildChildren(g, rank, reg, ft, h, i))
    decreases rank[h], 0, |g[h].specs| - i
  {
    ChildrenFlattenedAreLeaves(g, rank, h, i);
    if i < |g[h].specs| {
      var c := g[h].specs[i].value;
      var first := Flattened(g, rank, c).state;
      var rest := FlattenedChildren(g, rank, h, i + 1).state;
      FlattenPreservesBuild(g, rank, reg, ft, c);
      ChildrenFlattenPreservesBuild(g, rank, reg, ft, h, i + 1);
      BuildAllAppend(g, rank, reg, ft, first, rest);
      match Build(g, rank, reg, ft, c)
      case Err(_) =>
      case Ok(f) =>
        match BuildChildren(g, rank, reg, ft, h, i + 1)
        case Err(_) =>
        case Ok(fs) =>
          assert ([f] + fs)[1..] == fs;
    }
  }

  // ------------------------------------------------------------ validate

  /** validate(): an unresolved spec is reported with the ids addUnresolvedIds
      collects, and nothing is built; a resolved one is built, and what the build
      throws is thrown. */
  function Validate(g: Nodes, ghost rank: map<Handle, nat>, reg: F.Registry, ft: FloatText, h: Handle): Option<Failure>
    requires Ranked(g, rank) && h in g
  {
    match IsFullyResolved(g, rank, h)
    case Err(e) => Some(e)
    case Ok(resolved) =>
      if !resolved then
        var unresolved := Unresolved(g, rank, h);
        if unresolved.thrown.Some? then unresolved.thrown
        else Some(UnresolvedReferences(Id(g[h]), unresolved.state))
      else
        match Build(g, rank, reg, ft, h)
        case Err(e) => Some(e)
        case Ok(_) => None
  }

  /** validate succeeds exactly when the spec is resolved and builds; an unresolved
      spec whose collection of ids does not throw is reported with exactly the ids
      addUnresolvedIds adds, of which there is at least one; what validate throws is
      an IllegalArgumentException, the IllegalStateException of a null list entry,
      or a NullPointerException. */
  lemma ValidateOutcomes(g: Nodes, rank: map<Handle, nat>, reg: F.Registry, ft: FloatText, h: Handle)
    requires Ranked(g, rank) && h in g
    ensures Validate(g, rank, reg, ft, h).None? <==>
      IsFullyResolved(g, rank, h) == Ok(true) && Build(g, rank, reg, ft, h).Ok?
    ensures IsFullyResolved(g, rank, h) == Ok(false) && Unresolved(g, rank, h).thrown.None? ==>
      && Validate(g, rank, reg, ft, h) == Some(UnresolvedReferences(Id(g[h]), Unresolved(g, rank, h).state))
      && Unresolved(g, rank, h).state != {}
    ensures var e := Validate(g, rank, reg, ft, h);
      e.Some? ==> IsIllegalArgument(e.value) || e.value == NullDereference || e.value.NullSpecInList?
  {
    ResolvedIffNoUnresolved(g, rank, h);
    BuildThrows(g, rank, reg, ft, h);
  }
}
