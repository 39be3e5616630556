/** resolveReferences(idToSpecMap): the state machine of a reference.  An unbound
    reference looks its effective id up; a hit on a non-reference binds it for good,
    a hit on another reference moves its effective id one link along the alias chain,
    and a miss changes nothing. */
module SpecResolve {
  import opened JavaLang
  import opened SpecNodes

  /** The id-to-spec table handed to resolveReferences; a HashMap, so the null id
      may be a key.  A key mapped to null reads like an absent key. */
  type IdMap = map<Value, Handle>

  predicate IdMapIn(g: Nodes, idMap: IdMap)
  {
    forall k :: k in idMap ==> idMap[k] in g
  }

  /** What one resolution pass may do to a node: a leaf or a list is left as it is,
      a reference stays a reference to the same refId, and a bound reference keeps
      its target and its effective id (only the lazy default may be written back). */
  predicate NodeStep(n: Node, n': Node)
  {
    if !n.Ref? then n' == n
    else
      && n'.Ref? && n'.refId == n.refId
      && (n.resolvedInstance.Some? ==>
            n'.resolvedInstance == n.resolvedInstance && EffectiveRefId(n') == EffectiveRefId(n))
  }

  predicate ResolvedFrom(g: Nodes, g': Nodes)
  {
    g'.Keys == g.Keys && forall k :: k in g ==> NodeStep(g[k], g'[k])
  }

  /** References are only ever bound to specs that are not references. */
  predicate BindsNonRefs(g: Nodes)
  {
    forall k :: k in g && g[k].Ref? && g[k].resolvedInstance.Some? ==>
      g[k].resolvedInstance.value in g && !g[g[k].resolvedInstance.value].Ref?
  }

  lemma ResolvedFromTransitive(g0: Nodes, g1: Nodes, g2: Nodes)
    requires ResolvedFrom(g0, g1) && ResolvedFrom(g1, g2)
    ensures ResolvedFrom(g0, g2)
  {
  }

  /** A pass leaves the lists, and with them the list ranking, as they were. */
  lemma TreeRankedAfter(g: Nodes, g': Nodes, rank: map<Handle, nat>)
    requires TreeRanked(g, rank) && ResolvedFrom(g, g') && Closed(g')
    ensures TreeRanked(g', rank)
  {
    forall h, i | h in g' && g'[h].List? && 0 <= i < |g'[h].specs| && g'[h].specs[i].Some?
      ensures rank[g'[h].specs[i].value] < rank[h]
    {
      assert g[h] == g'[h];
    }
  }

  /** ReferenceFilterSpec.resolveReferences on the reference h. */
  function ResolveRef(g: Nodes, h: Handle, idMap: IdMap): (r: Nodes)
    requires h in g && g[h].Ref? && IdMapIn(g, idMap)
    ensures ResolvedFrom(g, r)
    ensures Closed(g) ==> Closed(r)
    ensures BindsNonRefs(g) ==> BindsNonRefs(r)
  {
    if g[h].resolvedInstance.Some? then g
    else
      var g1 := g[h := Normalize(g[h])];
      var key := EffectiveRefId(g[h]);
      if key !in idMap then g1
      else
        var t := idMap[key];
        if g1[t].Ref? then
          var g2 := g1[t := Normalize(g1[t])];
          g2[h := g2[h].(effectiveRefId := EffectiveRefId(g2[t]))]
        else
          g1[h := g1[h].(resolvedInstance := Some(t))]
  }

  /** The four outcomes of resolving one reference, and that nothing but the
      reference and, when it is one, the looked-up reference changes; that one
      gets its lazy effective-id default written back. */
  lemma ResolveRefCases(g: Nodes, h: Handle, idMap: IdMap)
    requires h in g && g[h].Ref? && IdMapIn(g, idMap)
    ensures var r := ResolveRef(g, h, idMap);
      var key := EffectiveRefId(g[h]);
      && (g[h].resolvedInstance.Some? ==> r == g)
      && (g[h].resolvedInstance.None? && key !in idMap ==>
            r[h].resolvedInstance.None? && EffectiveRefId(r[h]) == key &&
            forall k :: k in g && k != h ==> r[k] == g[k])
      && (g[h].resolvedInstance.None? && key in idMap && g[idMap[key]].Ref? ==>
            r[h].resolvedInstance.None? && r[h].effectiveRefId == EffectiveRefId(g[idMap[key]]) &&
            (idMap[key] != h ==> r[idMap[key]] == Normalize(g[idMap[key]])) &&
            forall k :: k in g && k != h && k != idMap[key] ==> r[k] == g[k])
      && (g[h].resolvedInstance.None? && key in idMap && !g[idMap[key]].Ref? ==>
            r[h].resolvedInstance == Some(idMap[key]) && EffectiveRefId(r[h]) == key &&
            forall k :: k in g && k != h ==> r[k] == g[k])
  {
    var key := EffectiveRefId(g[h]);
    if g[h].resolvedInstance.None? && key in idMap && g[idMap[key]].Ref? {
      var t := idMap[key];
      var g1 := g[h := Normalize(g[h])];
      var g2 := g1[t := Normalize(g1[t])];
      assert EffectiveRefId(g2[t]) == EffectiveRefId(g[t]);
    }
  }

  // ------------------------------------------------------------ a whole spec

  /** resolveReferences on spec h: nothing for a leaf, ResolveRef for a reference,
      every child in order for a list.  A null child dereferences null after the
      earlier children were resolved. */
  function ResolveAt(g: Nodes, ghost rank: map<Handle, nat>, h: Handle, idMap: IdMap): (r: Partial<Nodes>)
    requires TreeRanked(g, rank) && h in g && IdMapIn(g, idMap)
    ensures TreeRanked(r.state, rank) && ResolvedFrom(g, r.state)
    ensures BindsNonRefs(g) ==> BindsNonRefs(r.state)
    decreases rank[h], 1
  {
    match g[h]
    case Leaf(_, _, _, _, _) => Partial(g, None)
    case Ref(_, _, _) =>
      var r := ResolveRef(g, h, idMap);
      TreeRankedAfter(g, r, rank);
      Partial(r, None)
    case List(_, _, _) => ResolveChildren(g, rank, h, 0, idMap)
  }

  function ResolveChildren(g: Nodes, ghost rank: map<Handle, nat>, h: Handle, i: nat, idMap: IdMap): (r: Partial<Nodes>)
    requires TreeRanked(g, rank) && h in g && g[h].List? && i <= |g[h].specs| && IdMapIn(g, idMap)
    ensures TreeRanked(r.state, rank) && ResolvedFrom(g, r.state)
    ensures BindsNonRefs(g) ==> BindsNonRefs(r.state)
    decreases rank[h], 0, |g[h].specs| - i
  {
    if i == |g[h].specs| then Partial(g, None)
    else
      match g[h].specs[i]
      case None => Partial(g, Some(NullDereference))
      case Some(c) =>
        var first := ResolveAt(g, rank, c, idMap);
        if first.thrown.Some? then first
        else
          assert first.state[h] == g[h];
          var rest := ResolveChildren(first.state, rank, h, i + 1, idMap);
          ResolvedFromTransitive(g, first.state, rest.state);
          rest
  }

  // ------------------------------------------------------------ alias chains

  /** n resolution passes over the reference h. */
  ghost function Passes(g: Nodes, h: Handle, idMap: IdMap, n: nat): (r: Nodes)
    requires h in g && g[h].Ref? && IdMapIn(g, idMap)
    ensures ResolvedFrom(g, r)
  {
    if n == 0 then g
    else
      var g1 := ResolveRef(g, h, idMap);
      var r := Passes(g1, h, idMap, n - 1);
      ResolvedFromTransitive(g, g1, r);
      r
  }

  /** A reference whose effective id names itself never binds, however often it
      is resolved; its effective id stays what it was. */
  lemma {:induction false} SelfReferenceNeverBinds(g: Nodes, h: Handle, idMap: IdMap, n: nat)
    requires h in g && g[h].Ref? && g[h].resolvedInstance.None? && IdMapIn(g, idMap)
    requires EffectiveRefId(g[h]) in idMap && idMap[EffectiveRefId(g[h])] == h
    ensures Passes(g, h, idMap, n)[h].resolvedInstance.None?
    ensures EffectiveRefId(Passes(g, h, idMap, n)[h]) == EffectiveRefId(g[h])
    ensures forall k :: k in g && k != h ==> Passes(g, h, idMap, n)[k] == g[k]
  {
    if n > 0 {
      var g1 := ResolveRef(g, h, idMap);
      ResolveRefCases(g, h, idMap);
      SelfReferenceNeverBinds(g1, h, idMap, n - 1);
    }
  }

  /** A reference to "a", where "a" names a reference to "b", "b" a reference
      to "c" and "c" a leaf: the first two passes move the effective id along the
      chain and the third binds the reference to the leaf. */
  lemma AliasChainBindsOnThirdPass()
    ensures var g := ChainExample();
      var idMap := ChainIds();
      && Passes(g, 0, idMap, 1)[0].resolvedInstance.None?
      && EffectiveRefId(Passes(g, 0, idMap, 1)[0]) == Some("b")
      && Passes(g, 0, idMap, 2)[0].resolvedInstance.None?
      && EffectiveRefId(Passes(g, 0, idMap, 2)[0]) == Some("c")
      && Passes(g, 0, idMap, 3)[0].resolvedInstance == Some(3)
  {
    var idMap := ChainIds();
    ChainFirstPass();
    ChainSecondPass();
    ChainThirdPass();
    PassesStep(ChainExample(), 0, idMap, 0);
    PassesStep(ChainExample(), 0, idMap, 1);
    PassesStep(ChainAfterOne(), 0, idMap, 0);
    PassesStep(ChainExample(), 0, idMap, 2);
    PassesStep(ChainAfterOne(), 0, idMap, 1);
    PassesStep(ChainAfterTwo(), 0, idMap, 0);
  }

  /** One more pass is one resolution followed by the others. */
  lemma PassesStep(g: Nodes, h: Handle, idMap: IdMap, n: nat)
    requires h in g && g[h].Ref? && IdMapIn(g, idMap)
    ensures Passes(g, h, idMap, n + 1) == Passes(ResolveRef(g, h, idMap), h, idMap, n)
    ensures Passes(g, h, idMap, 0) == g
  {
  }

  /** The first pass follows "a" to the reference "b" and takes over its id. */
  lemma ChainFirstPass()
    ensures ResolveRef(ChainExample(), 0, ChainIds()) == ChainAfterOne()
  {
  }

  /** The second pass follows "b" to the reference "c", whose effective id is
      still the lazy default, and writes that default back on the way. */
  lemma ChainSecondPass()
    ensures ResolveRef(ChainAfterOne(), 0, ChainIds()) == ChainAfterTwo()
  {
  }

  /** The third pass follows "c" to the leaf and binds. */
  lemma ChainThirdPass()
    ensures ResolveRef(ChainAfterTwo(), 0, ChainIds())[0] == Ref(Some("a"), Some("c"), Some(3))
  {
  }

  function ChainExample(): Nodes
  {
    map[0 := Ref(Some("a"), Some("a"), None),
        1 := Ref(Some("b"), Some("b"), None),
        2 := Ref(Some("c"), None, None),
        3 := Leaf(Some("c"), None, Some("org.janelia.alignment.filter.CLAHE"), Some([]), None)]
  }

  function ChainAfterOne(): Nodes
  {
    ChainExample()[0 := Ref(Some("a"), Some("b"), None)]
  }

  function ChainAfterTwo(): Nodes
  {
    ChainExample()[0 := Ref(Some("a"), Some("c"), None)][2 := Ref(Some("c"), Some("c"), None)]
  }

  function ChainIds(): IdMap
  {
    map[Some("a") := 1, Some("b") := 2, Some("c") := 3]
  }
}
