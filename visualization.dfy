/** The tree view's own logic: the layout it asks for, the cross-references it can
    draw, the reveal order of each node, which nodes, links and arcs are shown, node
    radii and label truncation. */
module Visualization {
  import opened Wrappers
  import opened Seqs
  import opened Tree
  import opened Text
  import opened Crawler
  import opened Layout
  import opened Store

  /** The options the view lays its tree out with (the node spacing keeps its default). */
  const ViewOptions: Options := Options(3200, 1800, Padding(120, 180, 120, 180), 55)

  /** What the view shows before any tree exists. */
  const EmptyLayout: TreeLayout := TreeLayout([], [], Extent(1940, 2026), None, Some(800))

  /** The view's layout: empty without a tree, otherwise the tree laid out with the view's
      options. */
  method ViewLayout(treeData: Option<TreeNode>, d3x: nat -> real) returns (layout: TreeLayout)
    ensures treeData.None? ==> layout == EmptyLayout
    ensures treeData.Some? ==>
      && layout.timeScale == Some(TimeScale(YearExtent(treeData.value), ViewOptions))
      && layout.height == Some(DynamicHeight(LeafCount(treeData.value), ViewOptions))
      && layout.yearExtent == YearExtent(treeData.value)
      && layout.nodes == PlacedNodes(Hierarchy(treeData.value), TimeScale(YearExtent(treeData.value), ViewOptions), ViewOptions, d3x)
      && layout.links == LinksOf(HierarchyEdges(Hierarchy(treeData.value)), layout.nodes)
  {
    if treeData.None? {
      return EmptyLayout;
    }
    layout := ComputeTreeLayout(treeData, ViewOptions, d3x);
  }

  /** The view's year axis: no ticks without a time scale, otherwise one tick every five
      years across the extent. */
  method ViewTicks(layout: TreeLayout) returns (ticks: seq<Tick>)
    ensures layout.timeScale.None? ==> ticks == []
    ensures layout.timeScale.Some? ==>
      |ticks| == |TickYears(layout.yearExtent, 5)|
      && forall k :: 0 <= k < |ticks| ==>
           ticks[k].year == TickYears(layout.yearExtent, 5)[k] && ticks[k].x == Apply(layout.timeScale.value, ticks[k].year)
  {
    if layout.timeScale.None? {
      return [];
    }
    var s := layout.timeScale.value;
    ticks := TimelineTicks(layout.yearExtent, (y: int) => Apply(s, y), 5);
  }

  // ---------------------------------------------------------------------------
  // Cross-references to draw

  /** A cross-reference the view can draw: the reference, its arc and its two end nodes. */
  datatype DrawnRef = DrawnRef(ref: CrossRef, path: Path, sourceNode: LayoutNode, targetNode: LayoutNode)

  /** The references whose two ends are both positioned, in order, each with its arc. */
  function ResolveRefs(refs: seq<CrossRef>, nodes: seq<LayoutNode>): seq<DrawnRef> {
    if refs == [] then []
    else
      var s, t := FindById(nodes, refs[0].source), FindById(nodes, refs[0].target);
      (if s.Some? && t.Some? then [DrawnRef(refs[0], CrossRefPath(s, t), s.value, t.value)] else [])
      + ResolveRefs(refs[1..], nodes)
  }

  /** Nothing to draw without positioned nodes; otherwise the resolvable references. */
  function CrossRefPaths(refs: seq<CrossRef>, nodes: seq<LayoutNode>): seq<DrawnRef> {
    if |nodes| == 0 then [] else ResolveRefs(refs, nodes)
  }

  /** The references of drawn entries, in order. */
  function RefsOf(ds: seq<DrawnRef>): (r: seq<CrossRef>)
    ensures |r| == |ds| && forall i :: 0 <= i < |ds| ==> r[i] == ds[i].ref
  {
    seq(|ds|, i requires 0 <= i < |ds| => ds[i].ref)
  }

  /** A reference both of whose ends carry ids of positioned nodes. */
  predicate EndsPlaced(r: CrossRef, nodes: seq<LayoutNode>) {
    r.source in IdsOfLayout(nodes) && r.target in IdsOfLayout(nodes)
  }

  /** The drawn references are exactly those whose ends are both positioned, in their
      original order. */
  lemma {:induction false} ResolveRefsFilter(refs: seq<CrossRef>, nodes: seq<LayoutNode>)
    ensures RefsOf(ResolveRefs(refs, nodes)) == Filter(refs, (r: CrossRef) => EndsPlaced(r, nodes))
  {
    if refs != [] {
      var r := refs[0];
      ResolveRefsFilter(refs[1..], nodes);
      FindByIdSpec(nodes, r.source);
      FindByIdSpec(nodes, r.target);
      var head := if EndsPlaced(r, nodes) then [r] else [];
      var dh := if EndsPlaced(r, nodes)
        then [DrawnRef(r, CrossRefPath(FindById(nodes, r.source), FindById(nodes, r.target)),
                       FindById(nodes, r.source).value, FindById(nodes, r.target).value)]
        else [];
      assert ResolveRefs(refs, nodes) == dh + ResolveRefs(refs[1..], nodes);
      RefsOfAppend(dh, ResolveRefs(refs[1..], nodes));
      assert RefsOf(dh) == head;
    }
  }

  lemma RefsOfAppend(a: seq<DrawnRef>, b: seq<DrawnRef>)
    ensures RefsOf(a + b) == RefsOf(a) + RefsOf(b)
  {
  }

  /** Each drawn reference joins positioned nodes carrying its two ids with its arc. */
  lemma {:induction false} ResolveRefsEnds(refs: seq<CrossRef>, nodes: seq<LayoutNode>)
    ensures forall d :: d in ResolveRefs(refs, nodes) ==> DrawnBetween(d, nodes)
  {
    if refs != [] {
      var r := refs[0];
      ResolveRefsEnds(refs[1..], nodes);
      FindByIdSpec(nodes, r.source);
      FindByIdSpec(nodes, r.target);
    }
  }

  /** A drawn reference joins positioned nodes carrying its two ids, along its arc. */
  predicate DrawnBetween(d: DrawnRef, nodes: seq<LayoutNode>) {
    && d.sourceNode in nodes && d.targetNode in nodes
    && d.sourceNode.id == d.ref.source && d.targetNode.id == d.ref.target
    && d.path == CrossRefPath(Some(d.sourceNode), Some(d.targetNode)) && d.path.Quadratic?
  }

  /** A lookup by id finds a node exactly when the id is present, and then one with that id. */
  lemma FindByIdSpec(nodes: seq<LayoutNode>, id: string)
    ensures FindById(nodes, id).Some? <==> id in IdsOfLayout(nodes)
    ensures FindById(nodes, id).Some? ==> FindById(nodes, id).value.id == id && FindById(nodes, id).value in nodes
  {
    var r := FindById(nodes, id);
    if r.Some? {
      var i :| 0 <= i < |nodes| && nodes[i] == r.value;
      assert IdsOfLayout(nodes)[i] == id;
    }
    if id in IdsOfLayout(nodes) {
      FoundById(nodes, id);
    }
  }

  /** Laid out over a tree every one of whose references resolves, every reference is
      drawn, in order. */
  lemma AllResolvingRefsDrawn(t: TreeNode, refs: seq<CrossRef>, s: Scale, opts: Options, d3x: nat -> real)
    requires forall r :: r in refs ==> Resolves(r, t)
    ensures RefsOf(CrossRefPaths(refs, PlacedNodes(Hierarchy(t), s, opts, d3x))) == refs
  {
    var ns := PlacedNodes(Hierarchy(t), s, opts, d3x);
    PlacedNodesSpec(t, s, opts, d3x);
    ResolveRefsFilter(refs, ns);
    FilterAll(refs, (r: CrossRef) => EndsPlaced(r, ns));
  }

  // ---------------------------------------------------------------------------
  // Reveal order and visibility

  /** Maps each revealed id to its position in reveal order. */
  method NodeAnimationMap(revealed: seq<string>) returns (m: map<string, nat>)
    ensures m.Keys == set id | id in revealed
    ensures forall id :: id in m ==> (m[id] < |revealed| && revealed[m[id]] == id
                                      && forall j :: m[id] < j < |revealed| ==> revealed[j] != id)
  {
    m := map[];
    var idx := 0;
    while idx < |revealed|
      invariant 0 <= idx <= |revealed|
      invariant m.Keys == set id | id in revealed[..idx]
      invariant forall id :: id in m ==> (m[id] < idx && revealed[m[id]] == id
                                          && forall j :: m[id] < j < idx ==> revealed[j] != id)
    {
      m := m[revealed[idx] := idx];
      idx := idx + 1;
    }
    assert revealed[..idx] == revealed;
  }

  /** Over a set of revealed ids, the map gives each id its own position, so the values
      are exactly 0 .. size-1 and no two ids share one. */
  lemma AnimationOrderOfSet(revealed: seq<string>, m: map<string, nat>)
    requires NoDup(revealed)
    requires m.Keys == set id | id in revealed
    requires forall id :: id in m ==> m[id] < |revealed| && revealed[m[id]] == id
    ensures forall i :: 0 <= i < |revealed| ==> revealed[i] in m && m[revealed[i]] == i
    ensures forall a, b :: a in m && b in m && a != b ==> m[a] != m[b]
    ensures forall v :: v in m.Values <==> 0 <= v < |revealed|
  {
    forall i | 0 <= i < |revealed| ensures revealed[i] in m && m[revealed[i]] == i {
      assert revealed[i] in m;
    }
    forall v | v in m.Values ensures 0 <= v < |revealed| {
      var id :| id in m && m[id] == v;
    }
    forall v | 0 <= v < |revealed| ensures v in m.Values {
      assert m[revealed[v]] == v;
    }
  }

  /** A node is drawn once its id is revealed. */
  predicate IsDrawn(n: LayoutNode, revealed: seq<string>) {
    n.id in revealed
  }

  /** A tree link shows once both its ends are revealed. */
  predicate IsLinkVisible(l: Link, revealed: seq<string>) {
    l.source.id in revealed && l.target.id in revealed
  }

  /** A cross-reference shows once both its ends are revealed. */
  predicate IsCrossRefVisible(r: CrossRef, revealed: seq<string>) {
    r.source in revealed && r.target in revealed
  }

  /** Once a crawl has run to the end and every revealed id is in the store, every node,
      every tree link and every cross-reference of the chosen dataset is shown. */
  lemma CrawledTreeFullyShown(keyword: string, s: Scale, opts: Options, d3x: nat -> real)
    ensures var d := SelectDataset(keyword);
      var revealed := AddedAll([], Reveals(AllEvents(Schedule(d.tree, d.crossRefs, BfsOrder([d.tree])))));
      var ns := PlacedNodes(Hierarchy(d.tree), s, opts, d3x);
      && NoDup(revealed) && |revealed| == NodeCount(d.tree)
      && (forall n :: n in ns ==> IsDrawn(n, revealed))
      && (forall l :: l in LinksOf(HierarchyEdges(Hierarchy(d.tree)), ns) ==> IsLinkVisible(l, revealed))
      && (forall r :: r in d.crossRefs ==> IsCrossRefVisible(r, revealed))
  {
    var d := SelectDataset(keyword);
    var revealed := AddedAll([], Reveals(AllEvents(Schedule(d.tree, d.crossRefs, BfsOrder([d.tree])))));
    CrawlRevealedSet(keyword);
    SelectDatasetSpec(keyword);
    ShownWhenAllRevealed(d.tree, revealed, s, opts, d3x);
  }

  /** The ids the store holds after a whole crawl: each tree id once. */
  lemma CrawlRevealedSet(keyword: string)
    ensures var d := SelectDataset(keyword);
      var revealed := AddedAll([], Reveals(AllEvents(Schedule(d.tree, d.crossRefs, BfsOrder([d.tree])))));
      && NoDup(revealed) && |revealed| == NodeCount(d.tree)
      && forall x :: x in Ids(d.tree) ==> x in revealed
  {
    var d := SelectDataset(keyword);
    var ids := Reveals(AllEvents(Schedule(d.tree, d.crossRefs, BfsOrder([d.tree]))));
    CrawlRevealsEveryNodeOnce(keyword);
    AddedAllOfSet(ids);
    forall x | x in Ids(d.tree) ensures x in ids {
      assert x in multiset(Ids(d.tree));
    }
  }

  /** With every tree id revealed, every positioned node, every tree link and every
      resolving cross-reference is shown. */
  lemma ShownWhenAllRevealed(t: TreeNode, revealed: seq<string>, s: Scale, opts: Options, d3x: nat -> real)
    requires forall x :: x in Ids(t) ==> x in revealed
    ensures var ns := PlacedNodes(Hierarchy(t), s, opts, d3x);
      && (forall n :: n in ns ==> IsDrawn(n, revealed))
      && (forall l :: l in LinksOf(HierarchyEdges(Hierarchy(t)), ns) ==> IsLinkVisible(l, revealed))
      && (forall r: CrossRef :: Resolves(r, t) ==> IsCrossRefVisible(r, revealed))
  {
    var ns := PlacedNodes(Hierarchy(t), s, opts, d3x);
    PlacedNodesSpec(t, s, opts, d3x);
    forall n | n in ns ensures IsDrawn(n, revealed) {
      var i :| 0 <= i < |ns| && ns[i] == n;
      assert IdsOfLayout(ns)[i] == n.id;
    }
    LayoutLinksSpec(t, s, opts, d3x);
  }

  /** Adding ids without repeats to an empty set keeps them as they are. */
  lemma {:induction false} AddedAllOfSet(ids: seq<string>)
    requires NoDup(ids)
    ensures AddedAll([], ids) == ids
    decreases |ids|
  {
    if ids != [] {
      var init, last := ids[..|ids| - 1], ids[|ids| - 1];
      assert init + [last] == ids;
      AddedAllOfSet(init);
      AddedAllSnoc([], init, last);
      assert last !in init by {
        forall k | 0 <= k < |init| ensures init[k] != last {
          assert init[k] == ids[k];
        }
      }
    }
  }

  // ---------------------------------------------------------------------------
  // Node radius and labels

  /** The radius of a drawn node: 22 for the root, 16 one level down, 11 below. */
  function NodeRadius(depth: nat): (r: int)
    ensures r == 22 || r == 16 || r == 11
  {
    if depth == 0 then 22 else if depth == 1 then 16 else 11
  }

  /** Deeper nodes are never drawn larger, and only the root gets the largest radius. */
  lemma NodeRadiusOrder(d1: nat, d2: nat)
    ensures d1 <= d2 ==> NodeRadius(d1) >= NodeRadius(d2)
    ensures NodeRadius(d1) == 22 <==> d1 == 0
  {
  }

  /** A label cut to at most `max` characters, the last of them an ellipsis; a missing or
      empty text gives the empty label. */
  function TruncateLabel(text: Option<string>, max: int): string {
    if text.None? || text.value == "" then ""
    else if |text.value| > max then SliceTo(text.value, max - 1) + "…"
    else text.value
  }

  /** A missing or empty text gives ""; a text within `max` is kept; a longer one keeps
      its first `max - 1` characters followed by an ellipsis, `max` characters in all. */
  lemma TruncateLabelSpec(text: Option<string>, max: int)
    ensures (text.None? || text.value == "") ==> TruncateLabel(text, max) == ""
    ensures text.Some? && text.value != "" && |text.value| <= max ==> TruncateLabel(text, max) == text.value
    ensures text.Some? && |text.value| > max >= 1 ==>
      && |TruncateLabel(text, max)| == max
      && TruncateLabel(text, max) == text.value[..max - 1] + "…"
  {
  }

  /** The labels the view truncates: 30 characters for the root, 22 for every other node. */
  function NodeLabel(n: LayoutNode): (r: string)
    ensures |r| <= (if n.depth == 0 then 30 else 22)
  {
    var max := if n.depth == 0 then 30 else 22;
    TruncateLabelSpec(Some(n.title), max);
    TruncateLabel(Some(n.title), max)
  }
}
