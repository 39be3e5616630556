/** The read-only walks over a spec graph: isFullyResolved, addUnresolvedIds and
    flatten, for all three kinds of spec.  Each walks a list's children in order. */
module SpecQueries {
  import opened JavaLang
  import opened SpecNodes

  // ------------------------------------------------------------ isFullyResolved

  /** isFullyResolved(): a leaf is resolved; a reference when it is bound and its
      target is resolved; a list when every child is, checked in order.  A null
      child met before an unresolved one is an IllegalStateException. */
  function IsFullyResolved(g: Nodes, ghost rank: map<Handle, nat>, h: Handle): (r: Result<bool>)
    requires Ranked(g, rank) && h in g
    ensures r.Err? ==> r.failure.NullSpecInList? && ClassOf(r.failure) == IllegalStateException
    decreases rank[h], 1
  {
    match g[h]
    case Leaf(_, _, _, _, _) => Ok(true)
    case Ref(_, _, target) =>
      if target.None? then Ok(false) else IsFullyResolved(g, rank, target.value)
    case List(_, _, _) => ChildrenResolved(g, rank, h, 0)
  }

  /** The scan of a list's children from position i; it stops at the first
      unresolved child. */
  function ChildrenResolved(g: Nodes, ghost rank: map<Handle, nat>, h: Handle, i: nat): (r: Result<bool>)
    requires Ranked(g, rank) && h in g && g[h].List? && i <= |g[h].specs|
    ensures r.Err? ==> r.failure.NullSpecInList? && ClassOf(r.failure) == IllegalStateException
    decreases rank[h], 0, |g[h].specs| - i
  {
    if i == |g[h].specs| then Ok(true)
    else
      match g[h].specs[i]
      case None => Err(NullSpecInList(g[h].id))
      case Some(c) =>
        var resolved :- IsFullyResolved(g, rank, c);
        if !resolved then Ok(false) else ChildrenResolved(g, rank, h, i + 1)
  }

  // ------------------------------------------------------------ addUnresolvedIds

  /** The ids addUnresolvedIds adds: a reference's effective id when it is unbound,
      its target's when bound, the union over a list's children.  A null child
      dereferences null after the earlier children have added theirs. */
  function Unresolved(g: Nodes, ghost rank: map<Handle, nat>, h: Handle): (r: Partial<set<Value>>)
    requires Ranked(g, rank) && h in g
    ensures r.thrown.Some? ==> r.thrown == Some(NullDereference)
    decreases rank[h], 1
  {
    match g[h]
    case Leaf(_, _, _, _, _) => Partial({}, None)
    case Ref(_, _, target) =>
      if target.None? then Partial({EffectiveRefId(g[h])}, None) else Unresolved(g, rank, target.value)
    case List(_, _, _) => UnresolvedChildren(g, rank, h, 0)
  }

  function UnresolvedChildren(g: Nodes, ghost rank: map<Handle, nat>, h: Handle, i: nat): (r: Partial<set<Value>>)
    requires Ranked(g, rank) && h in g && g[h].List? && i <= |g[h].specs|
    ensures r.thrown.Some? ==> r.thrown == Some(NullDereference)
    decreases rank[h], 0, |g[h].specs| - i
  {
    if i == |g[h].specs| then Partial({}, None)
    else
      match g[h].specs[i]
      case None => Partial({}, Some(NullDereference))
      case Some(c) =>
        var first := Unresolved(g, rank, c);
        if first.thrown.Some? then first
        else
          var rest := UnresolvedChildren(g, rank, h, i + 1);
          Partial(first.state + rest.state, rest.thrown)
  }

  /** A spec is fully resolved exactly when it reports no unresolved id and no
      null entry; when it is not, it reports at least one id; when the check
      throws, so does the collection. */
  lemma {:induction false} ResolvedIffNoUnresolved(g: Nodes, rank: map<Handle, nat>, h: Handle)
    requires Ranked(g, rank) && h in g
    ensures IsFullyResolved(g, rank, h) == Ok(true) <==> Unresolved(g, rank, h) == Partial({}, None)
    ensures IsFullyResolved(g, rank, h) == Ok(false) ==> Unresolved(g, rank, h).state != {}
    ensures IsFullyResolved(g, rank, h).Err? ==> Unresolved(g, rank, h).thrown == Some(NullDereference)
    decreases rank[h], 1
  {
    match g[h]
    case Leaf(_, _, _, _, _) =>
    case Ref(_, _, target) =>
      if target.Some? {
        ResolvedIffNoUnresolved(g, rank, target.value);
      }
    case List(_, _, _) => ChildrenResolvedIffNoUnresolved(g, rank, h, 0);
  }

  lemma {:induction false} ChildrenResolvedIffNoUnresolved(g: Nodes, rank: map<Handle, nat>, h: Handle, i: nat)
    requires Ranked(g, rank) && h in g && g[h].List? && i <= |g[h].specs|
    ensures ChildrenResolved(g, rank, h, i) == Ok(true) <==> UnresolvedChildren(g, rank, h, i) == Partial({}, None)
    ensures ChildrenResolved(g, rank, h, i) == Ok(false) ==> UnresolvedChildren(g, rank, h, i).state != {}
    ensures ChildrenResolved(g, rank, h, i).Err? ==> UnresolvedChildren(g, rank, h, i).thrown == Some(NullDereference)
    decreases rank[h], 0, |g[h].specs| - i
  {
    if i < |g[h].specs| && g[h].specs[i].Some? {
      var c := g[h].specs[i].value;
      ResolvedIffNoUnresolved(g, rank, c);
      if IsFullyResolved(g, rank, c) == Ok(true) {
        ChildrenResolvedIffNoUnresolved(g, rank, h, i + 1);
        var rest := UnresolvedChildren(g, rank, h, i + 1);
        assert Unresolved(g, rank, c).state + rest.state == rest.state;
      } else if IsFullyResolved(g, rank, c) == Ok(false) {
        var x :| x in Unresolved(g, rank, c).state;
        assert x in UnresolvedChildren(g, rank, h, i).state;
      }
    }
  }

  /** The scan of a list is decided by the first child that is null or not
      resolved: a null there throws, an unresolved child there gives false, and the
      children after it are never looked at. */
  lemma {:induction false} ChildrenResolvedFirstDecides(g: Nodes, rank: map<Handle, nat>, h: Handle, i: nat, j: nat)
    requires Ranked(g, rank) && h in g && g[h].List? && i <= j < |g[h].specs|
    requires forall k :: i <= k < j ==> g[h].specs[k].Some? && IsFullyResolved(g, rank, g[h].specs[k].value) == Ok(true)
    ensures g[h].specs[j].None? ==> ChildrenResolved(g, rank, h, i) == Err(NullSpecInList(g[h].id))
    ensures g[h].specs[j].Some? && IsFullyResolved(g, rank, g[h].specs[j].value) == Ok(false) ==>
      ChildrenResolved(g, rank, h, i) == Ok(false)
    decreases j - i
  {
    if i < j {
      ChildrenResolvedFirstDecides(g, rank, h, i + 1, j);
    }
  }

  // ------------------------------------------------------------ flatten

  /** The leaves flatten appends: a leaf itself; a reference's target's, when the
      reference is fully resolved, else an IllegalStateException; a list's
      children's in order.  Appends made before an exception stay. */
  function Flattened(g: Nodes, ghost rank: map<Handle, nat>, h: Handle): (r: Partial<seq<Handle>>)
    requires Ranked(g, rank) && h in g
    decreases rank[h], 1
  {
    match g[h]
    case Leaf(_, _, _, _, _) => Partial([h], None)
    case Ref(_, _, target) =>
      if target.None? then Partial([], Some(CannotFlattenUnresolved(EffectiveRefId(g[h]))))
      else
        var resolved := IsFullyResolved(g, rank, target.value);
        if resolved.Err? then Partial([], Some(resolved.failure))
        else if !resolved.value then Partial([], Some(CannotFlattenUnresolved(EffectiveRefId(g[h]))))
        else Flattened(g, rank, target.value)
    case List(_, _, _) => FlattenedChildren(g, rank, h, 0)
  }

  function FlattenedChildren(g: Nodes, ghost rank: map<Handle, nat>, h: Handle, i: nat): (r: Partial<seq<Handle>>)
    requires Ranked(g, rank) && h in g && g[h].List? && i <= |g[h].specs|
    decreases rank[h], 0, |g[h].specs| - i
  {
    if i == |g[h].specs| then Partial([], None)
    else
      match g[h].specs[i]
      case None => Partial([], Some(NullDereference))
      case Some(c) =>
        var first := Flattened(g, rank, c);
        if first.thrown.Some? then first
        else
          var rest := FlattenedChildren(g, rank, h, i + 1);
          Partial(first.state + rest.state, rest.thrown)
  }

  /** flatten throws only IllegalStateException (an unresolved reference, or a
      null entry met by isFullyResolved) or NullPointerException (a null entry). */
  lemma {:induction false} FlattenThrows(g: Nodes, rank: map<Handle, nat>, h: Handle)
    requires Ranked(g, rank) && h in g
    ensures var r := Flattened(g, rank, h);
      r.thrown.Some? ==> ClassOf(r.thrown.value) == IllegalStateException || r.thrown == Some(NullDereference)
    decreases rank[h], 1
  {
    match g[h]
    case Leaf(_, _, _, _, _) =>
    case Ref(_, _, target) =>
      if target.Some? && IsFullyResolved(g, rank, target.value) == Ok(true) {
        FlattenThrows(g, rank, target.value);
      }
    case List(_, _, _) =>
      ChildrenFlattenThrows(g, rank, h, 0);
  }

  /** The same, for a list's children from position i on. */
  lemma {:induction false} ChildrenFlattenThrows(g: Nodes, rank: map<Handle, nat>, h: Handle, i: nat)
    requires Ranked(g, rank) && h in g && g[h].List? && i <= |g[h].specs|
    ensures var r := FlattenedChildren(g, rank, h, i);
      r.thrown.Some? ==> ClassOf(r.thrown.value) == IllegalStateException || r.thrown == Some(NullDereference)
    decreases rank[h], 0, |g[h].specs| - i
  {
    if i < |g[h].specs| && g[h].specs[i].Some? {
      FlattenThrows(g, rank, g[h].specs[i].value);
      ChildrenFlattenThrows(g, rank, h, i + 1);
    }
  }

  /** Flattening succeeds exactly on fully resolved specs. */
  lemma {:induction false} FlattenSucceedsIffResolved(g: Nodes, rank: map<Handle, nat>, h: Handle)
    requires Ranked(g, rank) && h in g
    ensures Flattened(g, rank, h).thrown.None? <==> IsFullyResolved(g, rank, h) == Ok(true)
    decreases rank[h], 1
  {
    match g[h]
    case Leaf(_, _, _, _, _) =>
    case Ref(_, _, target) =>
      if target.Some? {
        FlattenSucceedsIffResolved(g, rank, target.value);
      }
    case List(_, _, _) => ChildrenFlattenSucceedsIffResolved(g, rank, h, 0);
  }

  lemma {:induction false} ChildrenFlattenSucceedsIffResolved(g: Nodes, rank: map<Handle, nat>, h: Handle, i: nat)
    requires Ranked(g, rank) && h in g && g[h].List? && i <= |g[h].specs|
    ensures FlattenedChildren(g, rank, h, i).thrown.None? <==> ChildrenResolved(g, rank, h, i) == Ok(true)
    decreases rank[h], 0, |g[h].specs| - i
  {
    if i < |g[h].specs| && g[h].specs[i].Some? {
      var c := g[h].specs[i].value;
      FlattenSucceedsIffResolved(g, rank, c);
      if Flattened(g, rank, c).thrown.None? {
        ChildrenFlattenSucceedsIffResolved(g, rank, h, i + 1);
      }
    }
  }

  /** Everything flatten appends is a leaf of the graph reachable below h. */
  lemma {:induction false} FlattenedAreLeaves(g: Nodes, rank: map<Handle, nat>, h: Handle)
    requires Ranked(g, rank) && h in g
    ensures forall k :: k in Flattened(g, rank, h).state ==> k in g && g[k].Leaf? && rank[k] <= rank[h]
    decreases rank[h], 1
  {
    match g[h]
    case Leaf(_, _, _, _, _) =>
    case Ref(_, _, target) =>
      if target.Some? {
        FlattenedAreLeaves(g, rank, target.value);
      }
    case List(_, _, _) => ChildrenFlattenedAreLeaves(g, rank, h, 0);
  }

  lemma {:induction false} ChildrenFlattenedAreLeaves(g: Nodes, rank: map<Handle, nat>, h: Handle, i: nat)
    requires Ranked(g, rank) && h in g && g[h].List? && i <= |g[h].specs|
    ensures forall k :: k in FlattenedChildren(g, rank, h, i).state ==> k in g && g[k].Leaf? && rank[k] < rank[h]
    decreases rank[h], 0, |g[h].specs| - i
  {
    if i < |g[h].specs| && g[h].specs[i].Some? {
      var c := g[h].specs[i].value;
      FlattenedAreLeaves(g, rank, c);
      if Flattened(g, rank, c).thrown.None? {
        ChildrenFlattenedAreLeaves(g, rank, h, i + 1);
      }
    }
  }
}
