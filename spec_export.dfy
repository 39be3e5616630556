/** FilterSpec.create(filter): the export of a built filter back into specs.  A filter
    list becomes a list spec whose children are the exports of its filters, in order;
    any other filter becomes a leaf spec naming the filter's class and holding its
    parameters.  Every spec gets a fresh id. */
module SpecExport {
  import opened JavaLang
  import opened SpecNodes
  import opened SpecBuild
  import C = ClaheFilter
  import F = Filters

  /** An exported node at k is a leaf with no cached class, or a list whose children
      are non-null handles allocated after it and before end. */
  predicate NodeShaped(k: Handle, n: Node, end: Handle)
  {
    || (n.Leaf? && n.clazz.None?)
    || (n.List? && forall j :: 0 <= j < |n.specs| ==> n.specs[j].Some? && k < n.specs[j].value < end)
  }

  ghost predicate ExportShaped(g: Nodes, end: Handle)
  {
    forall k :: k in g ==> NodeShaped(k, g[k], end)
  }

  /** Two exports made one after the other form an export together. */
  lemma ShapedUnion(a: Nodes, b: Nodes, mid: Handle, end: Handle)
    requires ExportShaped(a, mid) && ExportShaped(b, end) && mid <= end
    ensures ExportShaped(a + b, end)
  {
    forall k | k in a + b ensures NodeShaped(k, (a + b)[k], end)
    {
      if k !in b {
        assert NodeShaped(k, a[k], mid);
      }
    }
  }

  ghost predicate SubMap(a: Nodes, b: Nodes)
  {
    forall k :: k in a ==> k in b && b[k] == a[k]
  }

  /** The handles of g are exactly lo, ..., hi - 1. */
  ghost predicate Spans(g: Nodes, lo: Handle, hi: Handle)
  {
    forall k :: k in g <==> lo <= k < hi
  }

  /** Every entry is a handle in lo, ..., hi - 1. */
  ghost predicate AllIn(specs: seq<Option<Handle>>, lo: Handle, hi: Handle)
  {
    forall j :: 0 <= j < |specs| ==> specs[j].Some? && lo <= specs[j].value < hi
  }

  lemma SpansUnion(a: Nodes, b: Nodes, lo: Handle, mid: Handle, hi: Handle)
    requires Spans(a, lo, mid) && Spans(b, mid, hi) && lo <= mid <= hi
    ensures Spans(a + b, lo, hi) && forall k :: k in a ==> k !in b
  {
    forall k: Handle ensures k in a + b <==> lo <= k < hi
    {
      assert k in a <==> lo <= k < mid;
      assert k in b <==> mid <= k < hi;
      assert k in a + b <==> k in a || k in b;
    }
  }

  lemma AllInCons(x: Handle, specs: seq<Option<Handle>>, lo: Handle, mid: Handle, hi: Handle)
    requires lo <= x < mid <= hi && AllIn(specs, mid, hi)
    ensures AllIn([Some(x)] + specs, lo, hi)
  {
    forall j | 0 <= j < |[Some(x)] + specs|
      ensures ([Some(x)] + specs)[j].Some? && lo <= ([Some(x)] + specs)[j].value < hi
    {
      if j > 0 {
        assert ([Some(x)] + specs)[j] == specs[j - 1];
      }
    }
  }

  /** create(filter), allocating the specs it makes at next, next + 1, ... in the
      order Java constructs them (a list before its children); uuid(k) is the random
      id generated for the spec at k.  Returns the new specs and the next free handle. */
  function Export(f: F.Filter, next: Handle, uuid: Handle -> string, ft: FloatText, w: F.ParamsWriter): (r: (Nodes, Handle))
    ensures r.1 > next && next in r.0
    decreases f
  {
    match f
    case ListInstance(fs) =>
      var (specs, nodes, end) := ExportAll(fs, next + 1, uuid, ft, w);
      (nodes[next := List(Some(uuid(next)), None, specs)], end)
    case _ =>
      (map[next := Leaf(Some(uuid(next)), None, Some(F.ClassName(f)), Some(F.GetParams(f, ft, w)), None)], next + 1)
  }

  /** The exports of a list's filters, one after another: the children's handles,
      the specs made and the next free handle. */
  function ExportAll(fs: seq<F.Filter>, next: Handle, uuid: Handle -> string, ft: FloatText, w: F.ParamsWriter)
    : (r: (seq<Option<Handle>>, Nodes, Handle))
    ensures r.2 >= next && |r.0| == |fs|
    decreases fs
  {
    if |fs| == 0 then ([], map[], next)
    else
      var (first, mid) := Export(fs[0], next, uuid, ft, w);
      var (specs, rest, end) := ExportAll(fs[1..], mid, uuid, ft, w);
      ([Some(next)] + specs, first + rest, end)
  }

  /** An export takes exactly the handles from next up to the next free handle, and
      its lists only point forward, to specs of the same export. */
  lemma {:induction false} ExportLayout(f: F.Filter, next: Handle, uuid: Handle -> string, ft: FloatText, w: F.ParamsWriter)
    ensures var r := Export(f, next, uuid, ft, w);
      Spans(r.0, next, r.1) && ExportShaped(r.0, r.1)
    decreases f, 1
  {
    if f.ListInstance? {
      var (specs, nodes, end) := ExportAll(f.filters, next + 1, uuid, ft, w);
      ExportAllLayout(f.filters, next + 1, uuid, ft, w);
      var list := List(Some(uuid(next)), None, specs);
      ListLayout(next, list, nodes, end);
      assert Export(f, next, uuid, ft, w) == (nodes[next := list], end);
    } else {
      LeafLayout(next, Export(f, next, uuid, ft, w).0[next]);
    }
  }

  lemma LeafLayout(next: Handle, leaf: Node)
    requires leaf.Leaf? && leaf.clazz.None?
    ensures Spans(map[next := leaf], next, next + 1) && ExportShaped(map[next := leaf], next + 1)
  {
  }

  /** A list spec at next whose children are the export from next + 1 to end. */
  lemma ListLayout(next: Handle, list: Node, nodes: Nodes, end: Handle)
    requires list.List? && AllIn(list.specs, next + 1, end) && next < end
    requires Spans(nodes, next + 1, end) && ExportShaped(nodes, end)
    ensures Spans(nodes[next := list], next, end) && ExportShaped(nodes[next := list], end)
  {
    var g := nodes[next := list];
    assert NodeShaped(next, list, end);
    forall k: Handle ensures k in g <==> next <= k < end
    {
      assert k in nodes <==> next + 1 <= k < end;
    }
    forall k | k in g ensures NodeShaped(k, g[k], end)
    {
      if k != next {
        assert g[k] == nodes[k];
      }
    }
  }

  lemma {:induction false} ExportAllLayout(fs: seq<F.Filter>, next: Handle, uuid: Handle -> string, ft: FloatText, w: F.ParamsWriter)
    ensures var r := ExportAll(fs, next, uuid, ft, w);
      Spans(r.1, next, r.2) && AllIn(r.0, next, r.2) && ExportShaped(r.1, r.2)
    decreases fs, 0
  {
    if |fs| > 0 {
      var (first, mid) := Export(fs[0], next, uuid, ft, w);
      var (specs, rest, end) := ExportAll(fs[1..], mid, uuid, ft, w);
      ExportLayout(fs[0], next, uuid, ft, w);
      ExportAllLayout(fs[1..], mid, uuid, ft, w);
      ShapedUnion(first, rest, mid, end);
      SpansUnion(first, rest, next, mid, end);
      AllInCons(next, specs, next, mid, end);
      assert ExportAll(fs, next, uuid, ft, w) == ([Some(next)] + specs, first + rest, end);
    }
  }

  /** The root of an export is the spec made for the filter itself. */
  lemma ExportRoot(f: F.Filter, next: Handle, uuid: Handle -> string, ft: FloatText, w: F.ParamsWriter)
    ensures var g := Export(f, next, uuid, ft, w).0;
      && next in g && Id(g[next]) == Some(uuid(next))
      && (f.ListInstance? ==> g[next] == List(Some(uuid(next)), None, ExportAll(f.filters, next + 1, uuid, ft, w).0))
      && (!f.ListInstance? ==>
            g[next] == Leaf(Some(uuid(next)), None, Some(F.ClassName(f)), Some(F.GetParams(f, ft, w)), None))
  {
  }

  /** An export is a well-ranked graph on its own: handles only point forward. */
  lemma ExportRanked(f: F.Filter, next: Handle, uuid: Handle -> string, ft: FloatText, w: F.ParamsWriter)
    ensures var (g, end) := Export(f, next, uuid, ft, w);
      Ranked(g, map k | k in g && k < end :: end - k)
  {
    var (g, end) := Export(f, next, uuid, ft, w);
    ExportLayout(f, next, uuid, ft, w);
    ShapedRanked(g, next, end);
  }

  lemma ShapedRanked(g: Nodes, next: Handle, end: Handle)
    requires Spans(g, next, end)
    requires ExportShaped(g, end)
    ensures Ranked(g, map k | k in g && k < end :: end - k)
  {
    var rank := map k | k in g && k < end :: end - k;
    forall h | h in g ensures NodeClosed(g, g[h])
    {
      if g[h].List? {
        assert NodeShaped(h, g[h], end);
        forall j | 0 <= j < |g[h].specs| && g[h].specs[j].Some? ensures g[h].specs[j].value in g
        {
          assert h < g[h].specs[j].value < end;
        }
      }
    }
    forall h, j | h in g && g[h].List? && 0 <= j < |g[h].specs| && g[h].specs[j].Some?
      ensures rank[g[h].specs[j].value] < rank[h]
    {
      assert NodeShaped(h, g[h], end);
      var c := g[h].specs[j].value;
      assert h < c < end && c in g;
    }
  }

  /** One step of ExportAll: the first filter's export, then the rest's. */
  lemma ExportAllCons(fs: seq<F.Filter>, start: Handle, uuid: Handle -> string, ft: FloatText, w: F.ParamsWriter)
    requires |fs| > 0
    ensures var (first, mid) := Export(fs[0], start, uuid, ft, w);
      var (specs, rest, end) := ExportAll(fs[1..], mid, uuid, ft, w);
      && ExportAll(fs, start, uuid, ft, w) == ([Some(start)] + specs, first + rest, end)
      && (forall k :: k in first ==> k !in rest)
  {
    var (first, mid) := Export(fs[0], start, uuid, ft, w);
    var (specs, rest, end) := ExportAll(fs[1..], mid, uuid, ft, w);
    ExportLayout(fs[0], start, uuid, ft, w);
    ExportAllLayout(fs[1..], mid, uuid, ft, w);
    SpansUnion(first, rest, start, mid, end);
  }

  /** A union of maps with disjoint keys that g holds: g holds each part. */
  lemma SubMapUnion(a: Nodes, b: Nodes, g: Nodes)
    requires SubMap(a + b, g) && forall k :: k in a ==> k !in b
    ensures SubMap(a, g) && SubMap(b, g)
  {
    forall k | k in a ensures k in g && g[k] == a[k]
    {
      assert (a + b)[k] == a[k];
    }
    forall k | k in b ensures k in g && g[k] == b[k]
    {
      assert (a + b)[k] == b[k];
    }
  }

  /** Building an exported filter gives back what its parameters re-initialise to, in
      any graph that holds the export, when the registry finds the filter classes
      under their names: the filter itself under the corrected getParams when the
      slopes survive their text form, the filter with every slope at the default
      under getParams as written. */
  lemma {:induction false} ExportBuilds(f: F.Filter, next: Handle, uuid: Handle -> string, ft: FloatText, w: F.ParamsWriter,
                                        g: Nodes, rank: map<Handle, nat>, reg: F.Registry)
    requires SubMap(Export(f, next, uuid, ft, w).0, g) && Ranked(g, rank)
    requires F.StandardRegistry(reg) && (w.Corrected? ==> F.SlopesRoundTrip(f, ft))
    ensures next in g && Build(g, rank, reg, ft, next) == Ok(F.Reinit(f, w))
    decreases f, 1
  {
    ExportRoot(f, next, uuid, ft, w);
    var g0 := Export(f, next, uuid, ft, w).0;
    assert next in g && g[next] == g0[next];
    if f.ListInstance? {
      var fs := f.filters;
      var r := ExportAll(fs, next + 1, uuid, ft, w);
      assert SubMap(r.1, g) by {
        ExportAllLayout(fs, next + 1, uuid, ft, w);
        assert g0 == r.1[next := g0[next]];
        SubMapUpdate(r.1, next, g0[next], g);
      }
      assert BuildChildren(g, rank, reg, ft, next, 0) == Ok(F.ReinitAll(fs, w)) by {
        assert g[next].specs[0..] == r.0;
        ExportAllBuilds(fs, next + 1, uuid, ft, w, g, rank, reg, next, 0);
      }
      ListBuilds(g, rank, reg, ft, next, F.ReinitAll(fs, w));
    } else {
      LeafBuilds(g, rank, reg, ft, w, next, f, Some(uuid(next)));
    }
  }

  /** create as written, on a CLAHE whose slope is not the default 2.5: the spec it
      makes builds to a CLAHE with the default slope, so not to the filter exported. */
  lemma AsWrittenExportLosesSlope(s: C.ClaheSettings, next: Handle, uuid: Handle -> string, ft: FloatText,
                                  g: Nodes, rank: map<Handle, nat>, reg: F.Registry)
    requires s.slope != C.DefaultSlope
    requires SubMap(Export(F.ClaheInstance(s), next, uuid, ft, F.AsWritten).0, g) && Ranked(g, rank)
    requires F.StandardRegistry(reg)
    ensures Build(g, rank, reg, ft, next) == Ok(F.ClaheInstance(s.(slope := C.DefaultSlope)))
    ensures Build(g, rank, reg, ft, next) != Ok(F.ClaheInstance(s))
  {
    ExportBuilds(F.ClaheInstance(s), next, uuid, ft, F.AsWritten, g, rank, reg);
  }

  lemma SubMapUpdate(a: Nodes, k: Handle, n: Node, g: Nodes)
    requires k !in a && SubMap(a[k := n], g)
    ensures SubMap(a, g)
  {
    forall j | j in a ensures j in g && g[j] == a[j]
    {
      assert a[k := n][j] == a[j];
    }
  }

  /** A leaf naming a filter's class and holding its parameters builds to what those
      parameters re-initialise to. */
  lemma LeafBuilds(g: Nodes, rank: map<Handle, nat>, reg: F.Registry, ft: FloatText, w: F.ParamsWriter,
                   h: Handle, f: F.Filter, id: Value)
    requires Ranked(g, rank) && h in g && !f.ListInstance?
    requires g[h] == Leaf(id, None, Some(F.ClassName(f)), Some(F.GetParams(f, ft, w)), None)
    requires F.StandardRegistry(reg) && (w.Corrected? ==> F.SlopesRoundTrip(f, ft))
    ensures Build(g, rank, reg, ft, h) == Ok(F.Reinit(f, w))
  {
    F.ReinitRoundTrip(f, ft, w);
  }

  lemma ListBuilds(g: Nodes, rank: map<Handle, nat>, reg: F.Registry, ft: FloatText, h: Handle, fs: seq<F.Filter>)
    requires Ranked(g, rank) && h in g && g[h].List?
    requires BuildChildren(g, rank, reg, ft, h, 0) == Ok(fs)
    ensures Build(g, rank, reg, ft, h) == Ok(F.ListInstance(fs))
  {
  }

  lemma {:induction false} ExportAllBuilds(fs: seq<F.Filter>, start: Handle, uuid: Handle -> string, ft: FloatText, w: F.ParamsWriter,
                                           g: Nodes, rank: map<Handle, nat>, reg: F.Registry, h: Handle, i: nat)
    requires Ranked(g, rank) && h in g && g[h].List? && i <= |g[h].specs|
    requires g[h].specs[i..] == ExportAll(fs, start, uuid, ft, w).0
    requires SubMap(ExportAll(fs, start, uuid, ft, w).1, g)
    requires F.StandardRegistry(reg) && (w.Corrected? ==> forall j :: 0 <= j < |fs| ==> F.SlopesRoundTrip(fs[j], ft))
    ensures BuildChildren(g, rank, reg, ft, h, i) == Ok(F.ReinitAll(fs, w))
    decreases fs, 0
  {
    if |fs| == 0 {
      assert |g[h].specs[i..]| == 0;
    } else {
      var first := Export(fs[0], start, uuid, ft, w);
      ExportAllStep(fs, start, uuid, ft, w, g, h, i);
      ExportBuilds(fs[0], start, uuid, ft, w, g, rank, reg);
      ExportAllBuilds(fs[1..], first.1, uuid, ft, w, g, rank, reg, h, i + 1);
      F.ReinitAllCons(fs, w);
    }
  }

  /** Where the first exported child and the exports of the others sit in a graph
      that holds the export of a list's children. */
  lemma ExportAllStep(fs: seq<F.Filter>, start: Handle, uuid: Handle -> string, ft: FloatText, w: F.ParamsWriter,
                      g: Nodes, h: Handle, i: nat)
    requires |fs| > 0 && h in g && g[h].List? && i <= |g[h].specs|
    requires g[h].specs[i..] == ExportAll(fs, start, uuid, ft, w).0
    requires SubMap(ExportAll(fs, start, uuid, ft, w).1, g)
    ensures var first := Export(fs[0], start, uuid, ft, w);
      var rest := ExportAll(fs[1..], first.1, uuid, ft, w);
      && i < |g[h].specs| && g[h].specs[i] == Some(start)
      && g[h].specs[i + 1..] == rest.0
      && SubMap(first.0, g) && SubMap(rest.1, g)
  {
    ExportAllCons(fs, start, uuid, ft, w);
    var first := Export(fs[0], start, uuid, ft, w);
    var rest := ExportAll(fs[1..], first.1, uuid, ft, w);
    assert g[h].specs[i] == g[h].specs[i..][0];
    assert g[h].specs[i + 1..] == g[h].specs[i..][1..];
    SubMapUnion(first.0, rest.1, g);
  }

  /** Exporting one more filter extends the export of the earlier ones. */
  lemma {:induction false} ExportAllSnoc(fs: seq<F.Filter>, x: F.Filter, start: Handle, uuid: Handle -> string, ft: FloatText, w: F.ParamsWriter)
    ensures var before := ExportAll(fs, start, uuid, ft, w);
      var more := Export(x, before.2, uuid, ft, w);
      ExportAll(fs + [x], start, uuid, ft, w) == (before.0 + [Some(before.2)], before.1 + more.0, more.1)
    decreases fs
  {
    if |fs| == 0 {
      assert fs + [x] == [x];
      ExportOne(x, start, uuid, ft, w);
      assert ExportAll(fs, start, uuid, ft, w) == ([], map[], start);
      assert map[] + Export(x, start, uuid, ft, w).0 == Export(x, start, uuid, ft, w).0;
      assert [] + [Some(start)] == [Some(start)];
    } else {
      var first := Export(fs[0], start, uuid, ft, w);
      var rest := ExportAll(fs[1..], first.1, uuid, ft, w);
      var more := Export(x, rest.2, uuid, ft, w);
      assert ExportAll(fs, start, uuid, ft, w) == ([Some(start)] + rest.0, first.0 + rest.1, rest.2) by {
        ExportAllCons(fs, start, uuid, ft, w);
      }
      assert ExportAll(fs + [x], start, uuid, ft, w)
          == ([Some(start)] + (rest.0 + [Some(rest.2)]), first.0 + (rest.1 + more.0), more.1) by {
        HeadTailSnoc(fs, x);
        ExportAllCons(fs + [x], start, uuid, ft, w);
        ExportAllSnoc(fs[1..], x, first.1, uuid, ft, w);
      }
      MapUnionAssoc(first.0, rest.1, more.0);
      assert [Some(start)] + (rest.0 + [Some(rest.2)]) == ([Some(start)] + rest.0) + [Some(rest.2)];
    }
  }

  /** The export of a one-filter list's children is that filter's export. */
  lemma ExportOne(x: F.Filter, start: Handle, uuid: Handle -> string, ft: FloatText, w: F.ParamsWriter)
    ensures var more := Export(x, start, uuid, ft, w);
      ExportAll([x], start, uuid, ft, w) == ([Some(start)], more.0, more.1)
  {
    var more := Export(x, start, uuid, ft, w);
    assert [x][1..] == [] && [x][0] == x;
    ExportAllCons([x], start, uuid, ft, w);
    assert ExportAll([], more.1, uuid, ft, w) == ([], map[], more.1);
    assert more.0 + map[] == more.0;
    assert [Some(start)] + [] == [Some(start)];
  }

  lemma HeadTailSnoc<T>(s: seq<T>, x: T)
    requires |s| > 0
    ensures (s + [x])[0] == s[0] && (s + [x])[1..] == s[1..] + [x]
  {
  }

  lemma MapUnionAssoc(a: Nodes, b: Nodes, c: Nodes)
    ensures (a + b) + c == a + (b + c)
  {
  }
}
