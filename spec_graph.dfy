/** The filter specs as mutable objects.  A SpecGraph holds every FilterSpec object
    under a handle; the methods of LeafFilterSpec, ListFilterSpec and
    ReferenceFilterSpec are methods on the graph that name the object they are
    called on.  Each walk is proved equal to the function of SpecQueries,
    SpecResolve, SpecBuild or SpecExport that specifies it. */
module SpecGraphs {
  import opened JavaLang
  import opened ParamMaps
  import opened SpecNodes
  import opened SpecQueries
  import opened SpecResolve
  import opened SpecBuild
  import opened SpecExport
  import F = Filters

  class SpecGraph {
    /** The spec objects, by handle. */
    var nodes: Nodes
    /** The next handle a new spec object receives. */
    var next: Handle

    /** Every stored handle names a spec, and new specs get handles not in use. */
    ghost predicate Valid()
      reads this
    {
      Closed(nodes) && forall k :: k in nodes ==> k < next
    }

    constructor()
      ensures Valid() && nodes == map[] && next == 0
    {
      nodes := map[];
      next := 0;
    }

    /** Stores a new spec object under a fresh handle. */
    method Allocate(n: Node) returns (h: Handle)
      requires Valid() && NodeClosed(nodes, n)
      modifies this
      ensures Valid()
      ensures h == old(next) && h !in old(nodes) && next == old(next) + 1
      ensures nodes == old(nodes)[h := n]
    {
      h := next;
      nodes := nodes[h := n];
      next := next + 1;
    }

    // ------------------------------------------------------------ constructors

    /** new LeafFilterSpec(id, metaData, className, params); the class is not
        looked up yet. */
    method NewLeaf(id: Value, metaData: Option<MetaData>, className: Value, params: Option<Params>)
      returns (h: Handle)
      requires Valid()
      modifies this
      ensures Valid() && h == old(next) && h !in old(nodes) && next == old(next) + 1
      ensures nodes == old(nodes)[h := Leaf(id, metaData, className, params, None)]
    {
      h := Allocate(Leaf(id, metaData, className, params, None));
    }

    /** The legacy new LeafFilterSpec(className, params): no id and no metadata. */
    method NewLegacyLeaf(className: Value, params: Option<Params>) returns (h: Handle)
      requires Valid()
      modifies this
      ensures Valid() && h == old(next) && h !in old(nodes) && next == old(next) + 1
      ensures nodes == old(nodes)[h := Leaf(None, None, className, params, None)]
      ensures !HasId(nodes[h])
    {
      h := NewLeaf(None, None, className, params);
    }

    /** new ListFilterSpec(id, metaData): an empty list; new ListFilterSpec() passes
        null for both. */
    method NewList(id: Value, metaData: Option<MetaData>) returns (h: Handle)
      requires Valid()
      modifies this
      ensures Valid() && h == old(next) && h !in old(nodes) && next == old(next) + 1
      ensures nodes == old(nodes)[h := List(id, metaData, [])]
    {
      h := Allocate(List(id, metaData, []));
    }

    /** new ReferenceFilterSpec(refId): the effective id starts as refId. */
    method NewRef(refId: Value) returns (h: Handle)
      requires Valid()
      modifies this
      ensures Valid() && h == old(next) && h !in old(nodes) && next == old(next) + 1
      ensures nodes == old(nodes)[h := Ref(refId, refId, None)]
      ensures EffectiveRefId(nodes[h]) == refId && !HasId(nodes[h])
    {
      h := Allocate(Ref(refId, refId, None));
    }

    /** A reference as JSON deserialization leaves it: the no-argument constructor
        sets the effective id to null and the mapper then fills in refId only. */
    method NewDeserializedRef(refId: Value) returns (h: Handle)
      requires Valid()
      modifies this
      ensures Valid() && h == old(next) && h !in old(nodes) && next == old(next) + 1
      ensures nodes == old(nodes)[h := Ref(refId, None, None)]
      ensures EffectiveRefId(nodes[h]) == refId
    {
      h := Allocate(Ref(refId, None, None));
    }

    // ------------------------------------------------------------ ListFilterSpec

    /** getSpec(index): ArrayList.get, which checks the index. */
    method GetSpec(h: Handle, index: int) returns (r: Result<Option<Handle>>)
      requires h in nodes && nodes[h].List?
      ensures 0 <= index < |nodes[h].specs| ==> r == Ok(nodes[h].specs[index])
      ensures !(0 <= index < |nodes[h].specs|) ==> r == Err(IndexOutOfBounds(index, |nodes[h].specs|))
    {
      var specs := nodes[h].specs;
      if 0 <= index < |specs| {
        r := Ok(specs[index]);
      } else {
        r := Err(IndexOutOfBounds(index, |specs|));
      }
    }

    /** getLastSpec(): null for an empty list, else the last entry (which may be null). */
    method GetLastSpec(h: Handle) returns (r: Option<Handle>)
      requires h in nodes && nodes[h].List?
      ensures |nodes[h].specs| == 0 ==> r.None?
      ensures |nodes[h].specs| > 0 ==> r == nodes[h].specs[|nodes[h].specs| - 1]
    {
      var specs := nodes[h].specs;
      if |specs| > 0 {
        r := specs[|specs| - 1];
      } else {
        r := None;
      }
    }

    /** addSpec(spec): appends, null included. */
    method AddSpec(h: Handle, spec: Option<Handle>)
      requires Valid() && h in nodes && nodes[h].List?
      requires spec.Some? ==> spec.value in nodes
      modifies this
      ensures Valid() && next == old(next)
      ensures nodes == old(nodes)[h := old(nodes)[h].(specs := old(nodes)[h].specs + [spec])]
    {
      nodes := nodes[h := nodes[h].(specs := nodes[h].specs + [spec])];
    }

    /** removeLastSpec(): drops the last entry; an empty list is left as it is. */
    method RemoveLastSpec(h: Handle)
      requires Valid() && h in nodes && nodes[h].List?
      modifies this
      ensures Valid() && next == old(next)
      ensures |old(nodes)[h].specs| == 0 ==> nodes == old(nodes)
      ensures |old(nodes)[h].specs| > 0 ==>
        nodes == old(nodes)[h := old(nodes)[h].(specs := old(nodes)[h].specs[..|old(nodes)[h].specs| - 1])]
    {
      var specs := nodes[h].specs;
      if |specs| > 0 {
        nodes := nodes[h := nodes[h].(specs := specs[..|specs| - 1])];
      }
    }

    /** addAllSpecs(specs): appends every entry in order; a null list is a
        NullPointerException and nothing changes. */
    method AddAllSpecs(h: Handle, specs: Option<seq<Option<Handle>>>) returns (thrown: Option<Failure>)
      requires Valid() && h in nodes && nodes[h].List?
      requires specs.Some? ==> forall i :: 0 <= i < |specs.value| && specs.value[i].Some? ==> specs.value[i].value in nodes
      modifies this
      ensures Valid() && next == old(next)
      ensures specs.None? ==> thrown == Some(NullDereference) && nodes == old(nodes)
      ensures specs.Some? ==> thrown.None?
      ensures specs.Some? ==> nodes == old(nodes)[h := old(nodes)[h].(specs := old(nodes)[h].specs + specs.value)]
    {
      if specs.None? {
        thrown := Some(NullDereference);
      } else {
        nodes := nodes[h := nodes[h].(specs := nodes[h].specs + specs.value)];
        thrown := None;
      }
    }

    /** size() */
    method Size(h: Handle) returns (n: nat)
      requires h in nodes && nodes[h].List?
      ensures n == |nodes[h].specs|
    {
      n := |nodes[h].specs|;
    }

    /** removeNullSpecs(): one pass of the iterator, removing each null it meets. */
    method RemoveNullSpecs(h: Handle)
      requires Valid() && h in nodes && nodes[h].List?
      modifies this
      ensures Valid() && next == old(next)
      ensures nodes == old(nodes)[h := old(nodes)[h].(specs := NonNull(old(nodes)[h].specs))]
    {
      var specs := nodes[h].specs;
      var kept: seq<Option<Handle>> := [];
      for i := 0 to |specs|
        invariant nodes == old(nodes) && next == old(next)
        invariant kept == NonNull(specs[..i])
        invariant forall j :: 0 <= j < |kept| ==> kept[j] in specs
      {
        NonNullAppend(specs[..i], [specs[i]]);
        assert specs[..i + 1] == specs[..i] + [specs[i]];
        if specs[i].Some? {
          kept := kept + [specs[i]];
        }
      }
      assert specs[..|specs|] == specs;
      nodes := nodes[h := nodes[h].(specs := kept)];
    }

    // ------------------------------------------------------------ ReferenceFilterSpec

    /** getEffectiveRefId(): a null effective id is replaced by refId, and that
        value is written back. */
    method GetEffectiveRefId(h: Handle) returns (v: Value)
      requires Valid() && h in nodes && nodes[h].Ref?
      modifies this
      ensures Valid() && next == old(next)
      ensures v == EffectiveRefId(old(nodes)[h])
      ensures nodes == old(nodes)[h := Normalize(old(nodes)[h])]
      ensures nodes[h].effectiveRefId.Some? || nodes[h].refId.None?
    {
      var n := nodes[h];
      if n.effectiveRefId.None? {
        nodes := nodes[h := n.(effectiveRefId := n.refId)];
      } else {
        nodes := nodes[h := n];
      }
      v := nodes[h].effectiveRefId;
    }

    // ------------------------------------------------------------ isFullyResolved

    /** isFullyResolved() on spec h.  A list scans its children in order and stops
        at the first one that is not resolved; a null child met first throws. */
    method IsFullyResolvedAt(ghost rank: map<Handle, nat>, h: Handle) returns (r: Result<bool>)
      requires Ranked(nodes, rank) && h in nodes
      ensures r == IsFullyResolved(nodes, rank, h)
      decreases rank[h]
    {
      match nodes[h]
      case Leaf(_, _, _, _, _) =>
        r := Ok(true);
      case Ref(_, _, target) =>
        if target.None? {
          r := Ok(false);
        } else {
          r := IsFullyResolvedAt(rank, target.value);
        }
      case List(id, _, specs) =>
        var allSpecsResolved := true;
        var i := 0;
        while i < |specs|
          invariant 0 <= i <= |specs|
          invariant ChildrenResolved(nodes, rank, h, 0) == ChildrenResolved(nodes, rank, h, i)
        {
          if specs[i].None? {
            return Err(NullSpecInList(id));
          }
          var resolved := IsFullyResolvedAt(rank, specs[i].value);
          if resolved.Err? {
            return resolved;
          }
          if !resolved.value {
            allSpecsResolved := false;
            break;
          }
          i := i + 1;
        }
        r := Ok(allSpecsResolved);
    }

    // ------------------------------------------------------------ addUnresolvedIds

    /** addUnresolvedIds(ids) on spec h: ids grows by the ids Unresolved collects.
        A null child throws after the earlier children have added theirs. */
    method AddUnresolvedIds(ghost rank: map<Handle, nat>, h: Handle, ids: set<Value>)
      returns (r: Partial<set<Value>>)
      requires Ranked(nodes, rank) && h in nodes
      ensures r == AddedTo(ids, Unresolved(nodes, rank, h))
      decreases rank[h]
    {
      match nodes[h]
      case Leaf(_, _, _, _, _) =>
        assert ids + {} == ids;
        r := Partial(ids, None);
      case Ref(_, _, target) =>
        if target.None? {
          r := Partial(ids + {EffectiveRefId(nodes[h])}, None);
        } else {
          r := AddUnresolvedIds(rank, target.value, ids);
        }
      case List(_, _, specs) =>
        var current := ids;
        assert ids + {} == ids;
        for i := 0 to |specs|
          invariant AddedTo(current, UnresolvedChildren(nodes, rank, h, i)) ==
                    AddedTo(ids, UnresolvedChildren(nodes, rank, h, 0))
        {
          if specs[i].None? {
            assert current + {} == current;
            return Partial(current, Some(NullDereference));
          }
          var child := AddUnresolvedIds(rank, specs[i].value, current);
          if child.thrown.Some? {
            return child;
          }
          ghost var first := Unresolved(nodes, rank, specs[i].value).state;
          ghost var rest := UnresolvedChildren(nodes, rank, h, i + 1).state;
          assert current + (first + rest) == child.state + rest;
          current := child.state;
        }
        assert current + {} == current;
        r := Partial(current, None);
    }

    /** getUnresolvedIds(): addUnresolvedIds on a new, empty set. */
    method GetUnresolvedIds(ghost rank: map<Handle, nat>, h: Handle) returns (r: Partial<set<Value>>)
      requires Ranked(nodes, rank) && h in nodes
      ensures r == Unresolved(nodes, rank, h)
      ensures r.thrown.None? ==> (r.state == {} <==> IsFullyResolved(nodes, rank, h) == Ok(true))
    {
      r := AddUnresolvedIds(rank, h, {});
      assert {} + Unresolved(nodes, rank, h).state == Unresolved(nodes, rank, h).state;
      ResolvedIffNoUnresolved(nodes, rank, h);
    }

    // ------------------------------------------------------------ resolveReferences

    /** ReferenceFilterSpec.resolveReferences on the reference h. */
    method ResolveReference(h: Handle, idMap: IdMap)
      requires Valid() && h in nodes && nodes[h].Ref? && IdMapIn(nodes, idMap)
      modifies this
      ensures Valid() && next == old(next)
      ensures nodes == ResolveRef(old(nodes), h, idMap)
    {
      if nodes[h].resolvedInstance.None? {
        var key := GetEffectiveRefId(h);
        if key in idMap {
          var spec := idMap[key];
          if nodes[spec].Ref? {
            var effective := GetEffectiveRefId(spec);
            nodes := nodes[h := nodes[h].(effectiveRefId := effective)];
          } else {
            nodes := nodes[h := nodes[h].(resolvedInstance := Some(spec))];
          }
        }
      }
    }

    /** resolveReferences(idMap) on spec h: every reference reached through lists
        is resolved once, in order. */
    method ResolveReferences(ghost rank: map<Handle, nat>, h: Handle, idMap: IdMap) returns (thrown: Option<Failure>)
      requires Valid() && TreeRanked(nodes, rank) && h in nodes && IdMapIn(nodes, idMap)
      modifies this
      ensures Valid() && next == old(next)
      ensures Partial(nodes, thrown) == ResolveAt(old(nodes), rank, h, idMap)
      decreases rank[h]
    {
      match nodes[h]
      case Leaf(_, _, _, _, _) =>
        thrown := None;
      case Ref(_, _, _) =>
        ResolveReference(h, idMap);
        thrown := None;
      case List(_, _, specs) =>
        for i := 0 to |specs|
          invariant Valid() && next == old(next) && TreeRanked(nodes, rank)
          invariant h in nodes && nodes[h] == old(nodes)[h] && IdMapIn(nodes, idMap)
          invariant ResolveChildren(nodes, rank, h, i, idMap) == ResolveChildren(old(nodes), rank, h, 0, idMap)
        {
          if specs[i].None? {
            return Some(NullDereference);
          }
          ghost var before := nodes;
          thrown := ResolveReferences(rank, specs[i].value, idMap);
          assert nodes[h] == before[h];
          if thrown.Some? {
            return;
          }
        }
        thrown := None;
    }

    // ------------------------------------------------------------ flatten

    /** The leaves flatten appends, collected without changing anything. */
    method CollectFlattened(ghost rank: map<Handle, nat>, h: Handle) returns (r: Partial<seq<Handle>>)
      requires Ranked(nodes, rank) && h in nodes
      ensures r == Flattened(nodes, rank, h)
      decreases rank[h]
    {
      match nodes[h]
      case Leaf(_, _, _, _, _) =>
        r := Partial([h], None);
      case Ref(_, _, target) =>
        if target.None? {
          return Partial([], Some(CannotFlattenUnresolved(EffectiveRefId(nodes[h]))));
        }
        var resolved := IsFullyResolvedAt(rank, target.value);
        if resolved.Err? {
          return Partial([], Some(resolved.failure));
        }
        if !resolved.value {
          return Partial([], Some(CannotFlattenUnresolved(EffectiveRefId(nodes[h]))));
        }
        r := CollectFlattened(rank, target.value);
      case List(_, _, specs) =>
        var leaves: seq<Handle> := [];
        assert [] + FlattenedChildren(nodes, rank, h, 0).state == FlattenedChildren(nodes, rank, h, 0).state;
        for i := 0 to |specs|
          invariant Appended(leaves, FlattenedChildren(nodes, rank, h, i)) ==
                    FlattenedChildren(nodes, rank, h, 0)
        {
          if specs[i].None? {
            assert leaves + [] == leaves;
            return Partial(leaves, Some(NullDereference));
          }
          var child := CollectFlattened(rank, specs[i].value);
          if child.thrown.Some? {
            return Appended(leaves, child);
          }
          ghost var rest := FlattenedChildren(nodes, rank, h, i + 1).state;
          assert leaves + (child.state + rest) == (leaves + child.state) + rest;
          leaves := leaves + child.state;
        }
        assert leaves + [] == leaves;
        r := Partial(leaves, None);
    }

    /** flatten(target) on spec h: the leaves of h are appended to the list target,
        which h does not reach.  Leaves appended before an exception stay. */
    method Flatten(ghost rank: map<Handle, nat>, h: Handle, target: Handle) returns (thrown: Option<Failure>)
      requires Valid() && Ranked(nodes, rank) && h in nodes
      requires target in nodes && nodes[target].List? && rank[h] < rank[target]
      modifies this
      ensures Valid() && Ranked(nodes, rank) && next == old(next)
      ensures thrown == Flattened(old(nodes), rank, h).thrown
      ensures nodes == old(nodes)[target := old(nodes)[target].(specs :=
                old(nodes)[target].specs + AsSpecs(Flattened(old(nodes), rank, h).state))]
    {
      var leaves := CollectFlattened(rank, h);
      FlattenedAreLeaves(nodes, rank, h);
      ghost var before := nodes;
      nodes := nodes[target := nodes[target].(specs := nodes[target].specs + AsSpecs(leaves.state))];
      AppendLeavesRanked(before, nodes, rank, target, leaves.state);
      thrown := leaves.thrown;
    }

    // ------------------------------------------------------------ buildInstance

    /** getClazz() on the leaf h: the cached class, else Class.forName(className),
        which is then cached. */
    method GetClazz(h: Handle, reg: F.Registry) returns (r: Result<F.ClassDef>)
      requires Valid() && h in nodes && nodes[h].Leaf?
      modifies this
      ensures Valid() && next == old(next)
      ensures r == LookupClass(old(nodes)[h], reg)
      ensures nodes == old(nodes)[h := FillCache(old(nodes)[h], reg)]
    {
      var n := nodes[h];
      if n.clazz.None? {
        if n.className.None? {
          assert nodes == nodes[h := n];
          return Err(NoClassName(n.id));
        }
        if n.className.value !in reg {
          assert nodes == nodes[h := n];
          return Err(ClassNotFound(n.className));
        }
        nodes := nodes[h := n.(clazz := Some(reg[n.className.value]))];
      } else {
        nodes := nodes[h := n];
      }
      r := Ok(nodes[h].clazz.value);
    }

    /** LeafFilterSpec.buildInstance(): newInstance() (getClazz, Class.newInstance
        and the InputFilter check), then the params check, then init(params). */
    method BuildLeafInstance(h: Handle, reg: F.Registry, ft: FloatText) returns (r: Result<F.Filter>)
      requires Valid() && h in nodes && nodes[h].Leaf?
      modifies this
      ensures Valid() && next == old(next)
      ensures r == BuildLeaf(old(nodes)[h], reg, ft)
      ensures nodes == old(nodes)[h := FillCache(old(nodes)[h], reg)]
    {
      var n := nodes[h];
      var clazz := GetClazz(h, reg);
      if clazz.Err? {
        return Err(clazz.failure);
      }
      match clazz.value
      case NotInstantiable =>
        r := Err(InstantiationFailed(n.className));
      case NonFilterClass =>
        r := Err(NotAnInputFilter(n.className));
      case FilterClass(kind) =>
        var ct := F.NewInstance(kind);
        if n.params.None? {
          return Err(NoParams(n.id));
        }
        r := F.Init(ct, n.params.value, ft);
    }

    /** buildInstance() on spec h; the leaves it reaches cache their classes. */
    method BuildInstance(ghost rank: map<Handle, nat>, reg: F.Registry, ft: FloatText, h: Handle)
      returns (r: Result<F.Filter>)
      requires Valid() && Ranked(nodes, rank) && h in nodes
      modifies this
      ensures Valid() && Ranked(nodes, rank) && next == old(next)
      ensures r == Build(old(nodes), rank, reg, ft, h)
      ensures CachesFrom(old(nodes), nodes, reg)
      decreases rank[h], 1
    {
      match nodes[h]
      case Leaf(_, _, _, _, _) =>
        r := BuildLeafInstance(h, reg, ft);
        CachesKeepRanking(old(nodes), nodes, rank, reg);
      case Ref(refId, _, target) =>
        if target.None? {
          return Err(ReferenceNotResolved(refId));
        }
        r := BuildInstance(rank, reg, ft, target.value);
      case List(_, _, _) =>
        r := BuildListInstance(rank, reg, ft, h);
    }

    /** ListFilterSpec.buildInstance(): a new InputFilterList to which each child's
        instance is added in order. */
    method BuildListInstance(ghost rank: map<Handle, nat>, reg: F.Registry, ft: FloatText, h: Handle)
      returns (r: Result<F.Filter>)
      requires Valid() && Ranked(nodes, rank) && h in nodes && nodes[h].List?
      modifies this
      ensures Valid() && Ranked(nodes, rank) && next == old(next)
      ensures r == Build(old(nodes), rank, reg, ft, h)
      ensures CachesFrom(old(nodes), nodes, reg)
      decreases rank[h], 0
    {
      var specs := nodes[h].specs;
      var ctList: seq<F.Filter> := [];
      PrependedNothing(BuildChildren(nodes, rank, reg, ft, h, 0));
      for i := 0 to |specs|
        invariant Valid() && Ranked(nodes, rank) && next == old(next)
        invariant CachesFrom(old(nodes), nodes, reg) && nodes[h] == old(nodes)[h]
        invariant Prepended(ctList, BuildChildren(old(nodes), rank, reg, ft, h, i)) ==
                  BuildChildren(old(nodes), rank, reg, ft, h, 0)
      {
        if specs[i].None? {
          return Err(NullDereference);
        }
        ghost var before := nodes;
        BuildIgnoresCaches(old(nodes), before, rank, reg, ft, specs[i].value);
        var child := BuildInstance(rank, reg, ft, specs[i].value);
        CachesFromTransitive(old(nodes), before, nodes, reg);
        CachesKeepRanking(old(nodes), nodes, rank, reg);
        if child.Err? {
          return child;
        }
        PrependedStep(ctList, child.value, BuildChildren(old(nodes), rank, reg, ft, h, i + 1));
        ctList := ctList + [child.value];
      }
      assert ctList + [] == ctList;
      r := Ok(F.ListInstance(ctList));
    }

    /** validate() on spec h. */
    method Validate(ghost rank: map<Handle, nat>, reg: F.Registry, ft: FloatText, h: Handle)
      returns (thrown: Option<Failure>)
      requires Valid() && Ranked(nodes, rank) && h in nodes
      modifies this
      ensures Valid() && Ranked(nodes, rank) && next == old(next)
      ensures thrown == SpecBuild.Validate(old(nodes), rank, reg, ft, h)
      ensures CachesFrom(old(nodes), nodes, reg)
    {
      var resolved := IsFullyResolvedAt(rank, h);
      if resolved.Err? {
        return Some(resolved.failure);
      }
      if !resolved.value {
        var unresolvedIds := GetUnresolvedIds(rank, h);
        if unresolvedIds.thrown.Some? {
          return unresolvedIds.thrown;
        }
        return Some(UnresolvedReferences(Id(nodes[h]), unresolvedIds.state));
      }
      var built := BuildInstance(rank, reg, ft, h);
      thrown := if built.Err? then Some(built.failure) else None;
    }

    // ------------------------------------------------------------ create

    /** FilterSpec.create(filter): a list filter becomes a list spec allocated before
        its children, which are created and added in order; any other filter
        becomes a leaf spec holding its class name and getParams().  The source's
        create is Create with w == AsWritten. */
    method Create(f: F.Filter, uuid: Handle -> string, ft: FloatText, w: F.ParamsWriter) returns (h: Handle)
      requires Valid()
      modifies this
      ensures Valid() && h == old(next)
      ensures nodes == old(nodes) + Export(f, old(next), uuid, ft, w).0
      ensures next == Export(f, old(next), uuid, ft, w).1
      decreases f, 1
    {
      if f.ListInstance? {
        h := NewList(Some(uuid(next)), None);
        CreateChildren(f.filters, h, uuid, ft, w);
      } else {
        h := NewLeaf(Some(uuid(next)), None, Some(F.ClassName(f)), Some(F.GetParams(f, ft, w)));
      }
    }

    /** The loop of create over a list filter's children, adding each new spec to
        the list h, which create has just allocated. */
    method CreateChildren(filters: seq<F.Filter>, h: Handle, uuid: Handle -> string, ft: FloatText, w: F.ParamsWriter)
      requires Valid() && h in nodes && nodes[h] == List(Some(uuid(h)), None, []) && next == h + 1
      modifies this
      ensures Valid()
      ensures var (specs, made, end) := ExportAll(filters, h + 1, uuid, ft, w);
        nodes == (old(nodes) + made)[h := List(Some(uuid(h)), None, specs)] && next == end
      decreases F.ListInstance(filters), 0
    {
      ghost var specs: seq<Option<Handle>> := [];
      ghost var made: Nodes := map[];
      assert old(nodes) + map[] == old(nodes);
      SliceEnds(filters);
      for i := 0 to |filters|
        invariant Valid() && h in nodes && h < next
        invariant ExportAll(filters[..i], h + 1, uuid, ft, w) == (specs, made, next)
        invariant nodes == (old(nodes) + made)[h := List(Some(uuid(h)), None, specs)]
      {
        ghost var start := next;
        SliceSnoc(filters, i);
        ExportAllSnoc(filters[..i], filters[i], h + 1, uuid, ft, w);
        ghost var more := AddChild(filters[i], h, uuid, ft, w, old(nodes), specs, made);
        specs, made := specs + [Some(start)], made + more;
      }
    }

    /** One turn of create's loop: create(t) for the next child and addSpec of the
        result to the list h. */
    method AddChild(f: F.Filter, h: Handle, uuid: Handle -> string, ft: FloatText, w: F.ParamsWriter,
                    ghost base: Nodes, ghost specs: seq<Option<Handle>>, ghost made: Nodes)
      returns (ghost more: Nodes)
      requires Valid() && h in nodes && h < next
      requires nodes == (base + made)[h := List(Some(uuid(h)), None, specs)]
      modifies this
      ensures Valid() && h < next
      ensures (more, next) == Export(f, old(next), uuid, ft, w)
      ensures nodes == (base + (made + more))[h := List(Some(uuid(h)), None, specs + [Some(old(next))])]
      decreases f, 2
    {
      more := Export(f, next, uuid, ft, w).0;
      ExportAvoidsEarlier(f, next, uuid, ft, w, h);
      var child := Create(f, uuid, ft, w);
      AddSpec(h, Some(child));
      AddChildStep(base, made, more, h, specs, child, uuid(h));
    }
  }

  // ------------------------------------------------------------ leaves and references

  /** A leaf is resolved, has no unresolved ids, is left alone by resolution, and
      flattens to itself. */
  lemma LeafWalks(g: Nodes, rank: map<Handle, nat>, h: Handle, idMap: IdMap)
    requires Ranked(g, rank) && h in g && g[h].Leaf? && IdMapIn(g, idMap)
    ensures IsFullyResolved(g, rank, h) == Ok(true)
    ensures Unresolved(g, rank, h) == Partial({}, None)
    ensures ResolveAt(g, rank, h, idMap) == Partial(g, None)
    ensures Flattened(g, rank, h) == Partial([h], None)
  {
  }

  /** A reference is resolved exactly when it is bound to a resolved spec; unbound,
      it reports its effective id, cannot be flattened and builds to an exception
      naming its refId; bound, it stands for its target. */
  lemma RefWalks(g: Nodes, rank: map<Handle, nat>, reg: F.Registry, ft: FloatText, h: Handle)
    requires Ranked(g, rank) && h in g && g[h].Ref?
    ensures IsFullyResolved(g, rank, h) == Ok(true) <==>
      g[h].resolvedInstance.Some? && IsFullyResolved(g, rank, g[h].resolvedInstance.value) == Ok(true)
    ensures g[h].resolvedInstance.None? ==>
      && Unresolved(g, rank, h) == Partial({EffectiveRefId(g[h])}, None)
      && Flattened(g, rank, h) == Partial([], Some(CannotFlattenUnresolved(EffectiveRefId(g[h]))))
      && Build(g, rank, reg, ft, h) == Err(ReferenceNotResolved(g[h].refId))
    ensures g[h].resolvedInstance.Some? ==>
      var t := g[h].resolvedInstance.value;
      && Unresolved(g, rank, h) == Unresolved(g, rank, t)
      && Build(g, rank, reg, ft, h) == Build(g, rank, reg, ft, t)
      && (IsFullyResolved(g, rank, t) == Ok(false) ==>
            Flattened(g, rank, h) == Partial([], Some(CannotFlattenUnresolved(EffectiveRefId(g[h])))))
      && (IsFullyResolved(g, rank, t) == Ok(true) ==> Flattened(g, rank, h) == Flattened(g, rank, t))
  {
  }

  // ------------------------------------------------------------ helpers

  /** ids after the ids of p were added to it. */
  function AddedTo(ids: set<Value>, p: Partial<set<Value>>): Partial<set<Value>>
  {
    Partial(ids + p.state, p.thrown)
  }

  /** The leaves collected so far followed by those of p. */
  function Appended(leaves: seq<Handle>, p: Partial<seq<Handle>>): Partial<seq<Handle>>
  {
    Partial(leaves + p.state, p.thrown)
  }

  /** The filters built so far followed by those of r, or r's failure. */
  function Prepended(built: seq<F.Filter>, r: Result<seq<F.Filter>>): Result<seq<F.Filter>>
  {
    match r
    case Ok(rest) => Ok(built + rest)
    case Err(e) => Err(e)
  }

  lemma PrependedNothing(r: Result<seq<F.Filter>>)
    ensures Prepended([], r) == r
  {
    if r.Ok? {
      assert [] + r.value == r.value;
    }
  }

  lemma PrependedStep(built: seq<F.Filter>, f: F.Filter, r: Result<seq<F.Filter>>)
    ensures Prepended(built + [f], r) == Prepended(built, if r.Ok? then Ok([f] + r.value) else r)
  {
    if r.Ok? {
      assert built + [f] + r.value == built + ([f] + r.value);
    }
  }

  /** Appending leaves that rank below the list keeps the graph ranked. */
  lemma AppendLeavesRanked(g: Nodes, g': Nodes, rank: map<Handle, nat>, target: Handle, leaves: seq<Handle>)
    requires Ranked(g, rank) && target in g && g[target].List?
    requires forall k :: k in leaves ==> k in g && g[k].Leaf? && rank[k] < rank[target]
    requires g' == g[target := g[target].(specs := g[target].specs + AsSpecs(leaves))]
    ensures Ranked(g', rank)
  {
    var specs := g[target].specs + AsSpecs(leaves);
    forall i | 0 <= i < |specs| && specs[i].Some?
      ensures specs[i].value in g && rank[specs[i].value] < rank[target]
    {
      if i >= |g[target].specs| {
        assert specs[i].value == leaves[i - |g[target].specs|];
      }
    }
  }

  /** An export holds no handle below the one it started from. */
  lemma ExportAvoidsEarlier(f: F.Filter, start: Handle, uuid: Handle -> string, ft: FloatText, w: F.ParamsWriter, h: Handle)
    requires h < start
    ensures h !in Export(f, start, uuid, ft, w).0
  {
    ExportLayout(f, start, uuid, ft, w);
  }

  /** The prefixes of a sequence grow one element at a time. */
  lemma SliceSnoc<T>(s: seq<T>, i: nat)
    requires i < |s|
    ensures s[..i + 1] == s[..i] + [s[i]]
  {
  }

  lemma SliceEnds<T>(s: seq<T>)
    ensures s[..0] == [] && s[..|s|] == s
  {
  }

  /** One turn of create's loop over a list's children: the child's export joins
      the graph and its handle is appended to the list h. */
  lemma AddChildStep(base: Nodes, made: Nodes, more: Nodes, h: Handle, specs: seq<Option<Handle>>, child: Handle, id: string)
    requires h !in more
    ensures var created := (base + made)[h := List(Some(id), None, specs)] + more;
      created[h := created[h].(specs := created[h].specs + [Some(child)])] ==
      (base + (made + more))[h := List(Some(id), None, specs + [Some(child)])]
  {
    var created := (base + made)[h := List(Some(id), None, specs)] + more;
    assert created[h] == List(Some(id), None, specs);
    MapUnionAssoc(base, made, more);
  }
}
