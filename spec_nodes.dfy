/** Filter specifications as nodes of an arena.  Every FilterSpec object lives under a
    handle; a ListFilterSpec holds the handles of its children (None for a null entry)
    and a ReferenceFilterSpec holds the handle of the spec it was resolved to, so that
    sharing and aliasing between specs are explicit. */
module SpecNodes {
  import opened JavaLang
  import opened ParamMaps
  import F = Filters

  type Handle = nat

  /** FilterSpecMetaData: a holder for a group name. */
  datatype MetaData = MetaData(group: Value)

  datatype Node =
    /** LeafFilterSpec; clazz is the transient cache of the looked-up class. */
    | Leaf(id: Value, metaData: Option<MetaData>, className: Value, params: Option<Params>, clazz: Option<F.ClassDef>)
    /** ListFilterSpec; specs is specList, in order. */
    | List(id: Value, metaData: Option<MetaData>, specs: seq<Option<Handle>>)
    /** ReferenceFilterSpec; it has no id of its own.  effectiveRefId is the raw
        transient field, which may be null; resolvedInstance is the bound target. */
    | Ref(refId: Value, effectiveRefId: Value, resolvedInstance: Option<Handle>)

  type Nodes = map<Handle, Node>

  /** getId(): a reference is constructed with a null id. */
  function Id(n: Node): Value
  {
    if n.Ref? then None else n.id
  }

  /** hasId() */
  function HasId(n: Node): (r: bool)
    ensures r <==> Id(n) != None
    ensures n.Ref? ==> !r
  {
    Id(n) != None
  }

  /** getEffectiveRefId(), as read: a null effective id reads as refId. */
  function EffectiveRefId(n: Node): Value
    requires n.Ref?
  {
    if n.effectiveRefId.None? then n.refId else n.effectiveRefId
  }

  /** The reference after getEffectiveRefId() has written its lazy default back. */
  function Normalize(n: Node): (r: Node)
    requires n.Ref?
    ensures r.Ref? && r.refId == n.refId && r.resolvedInstance == n.resolvedInstance
    ensures r.effectiveRefId.Some? || r.refId.None?
    ensures EffectiveRefId(r) == EffectiveRefId(n)
  {
    n.(effectiveRefId := EffectiveRefId(n))
  }

  /** The handles stored in a list, in order. */
  function AsSpecs(hs: seq<Handle>): (r: seq<Option<Handle>>)
    ensures |r| == |hs| && forall i :: 0 <= i < |hs| ==> r[i] == Some(hs[i])
  {
    if |hs| == 0 then [] else [Some(hs[0])] + AsSpecs(hs[1..])
  }

  // ------------------------------------------------------------ well-formedness

  /** Every handle a node holds names a node of g. */
  predicate NodeClosed(g: Nodes, n: Node)
  {
    match n
    case Leaf(_, _, _, _, _) => true
    case List(_, _, specs) => forall i :: 0 <= i < |specs| && specs[i].Some? ==> specs[i].value in g
    case Ref(_, _, target) => target.Some? ==> target.value in g
  }

  predicate Closed(g: Nodes)
  {
    forall h :: h in g ==> NodeClosed(g, g[h])
  }

  /** Children rank below their list, so that the list structure is a DAG. */
  predicate TreeRanked(g: Nodes, rank: map<Handle, nat>)
  {
    && Closed(g)
    && (forall h :: h in g ==> h in rank)
    && forall h, i :: h in g && g[h].List? && 0 <= i < |g[h].specs| && g[h].specs[i].Some? ==>
         rank[g[h].specs[i].value] < rank[h]
  }

  /** In addition, a bound reference ranks above its target, so that following
      lists and bindings always terminates. */
  predicate Ranked(g: Nodes, rank: map<Handle, nat>)
  {
    && TreeRanked(g, rank)
    && forall h :: h in g && g[h].Ref? && g[h].resolvedInstance.Some? ==>
         rank[g[h].resolvedInstance.value] < rank[h]
  }

  // ------------------------------------------------------------ removeNullSpecs

  /** specList with its null entries removed. */
  function NonNull(s: seq<Option<Handle>>): (r: seq<Option<Handle>>)
    ensures |r| <= |s|
    ensures forall i :: 0 <= i < |r| ==> r[i].Some?
  {
    if |s| == 0 then []
    else (if s[0].Some? then [s[0]] else []) + NonNull(s[1..])
  }

  /** Removing nulls from a concatenation removes them from each part: the entries
      that stay keep their relative order. */
  lemma {:induction false} NonNullAppend(a: seq<Option<Handle>>, b: seq<Option<Handle>>)
    ensures NonNull(a + b) == NonNull(a) + NonNull(b)
  {
    if |a| == 0 {
      assert a + b == b;
    } else {
      assert (a + b)[0] == a[0] && (a + b)[1..] == a[1..] + b;
      NonNullAppend(a[1..], b);
    }
  }

  /** Exactly the null entries go: every non-null entry stays as often as it was there. */
  lemma {:induction false} NonNullCounts(s: seq<Option<Handle>>)
    ensures multiset(NonNull(s))[None] == 0
    ensures forall x: Option<Handle> :: x.Some? ==> multiset(NonNull(s))[x] == multiset(s)[x]
  {
    if |s| > 0 {
      NonNullCounts(s[1..]);
      assert s == [s[0]] + s[1..];
    }
  }

  /** A list without nulls is left as it is. */
  lemma {:induction false} NonNullOfClean(s: seq<Option<Handle>>)
    requires forall i :: 0 <= i < |s| ==> s[i].Some?
    ensures NonNull(s) == s
  {
    if |s| > 0 {
      NonNullOfClean(s[1..]);
    }
  }

  /** Removing nulls twice removes nothing more. */
  lemma NonNullIdempotent(s: seq<Option<Handle>>)
    ensures NonNull(NonNull(s)) == NonNull(s)
  {
    NonNullOfClean(NonNull(s));
  }
}
