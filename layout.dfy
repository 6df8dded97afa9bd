/** The layout engine: canvas height, padded year extent, the year-to-x scale,
    one positioned node per tree node, one link per parent/child pair, the link
    and cross-reference paths, and the timeline ticks. The hierarchy library's
    structural placement is an input: `d3x(i)` is the vertical coordinate it
    gives the i-th visited node. */
module Layout {
  import opened Wrappers
  import opened Seqs
  import opened Tree
  import opened Arith

  // ---------------------------------------------------------------------------
  // Options, extent and scale

  datatype Padding = Padding(top: int, right: int, bottom: int, left: int)

  datatype Options = Options(width: int, height: int, padding: Padding, nodeSpacingY: int)

  /** The options used when the caller gives none. */
  const DefaultOptions: Options := Options(3000, 1600, Padding(100, 150, 100, 150), 55)

  /** A year interval `[lo, hi]`. */
  datatype Extent = Extent(lo: int, hi: int)

  /** A linear map from a year domain onto the pixel range `[r0, r1]`. */
  datatype Scale = Scale(domain: Extent, r0: real, r1: real)

  /** The scale applied to a year; a degenerate domain maps to the middle of the range. */
  function Apply(s: Scale, year: int): real {
    if s.domain.lo == s.domain.hi then (s.r0 + s.r1) / 2.0
    else s.r0 + (year - s.domain.lo) as real * (s.r1 - s.r0) / (s.domain.hi - s.domain.lo) as real
  }

  /** The scale maps the domain's ends to the range's ends. */
  lemma ApplyEnds(s: Scale)
    requires s.domain.lo != s.domain.hi
    ensures Apply(s, s.domain.lo) == s.r0 && Apply(s, s.domain.hi) == s.r1
  {
    var w := (s.domain.hi - s.domain.lo) as real;
    assert w * (s.r1 - s.r0) / w == s.r1 - s.r0;
  }

  /** Over an increasing domain onto an increasing range, earlier years never land right
      of later ones. */
  lemma ApplyMonotone(s: Scale, y1: int, y2: int)
    requires s.domain.lo < s.domain.hi && s.r0 <= s.r1 && y1 <= y2
    ensures Apply(s, y1) <= Apply(s, y2)
  {
    ScaleMonotone((y1 - s.domain.lo) as real, (y2 - s.domain.lo) as real, s.r1 - s.r0,
      (s.domain.hi - s.domain.lo) as real);
  }

  /** The scale from the padded year extent onto the canvas between the side paddings. */
  function TimeScale(e: Extent, opts: Options): Scale {
    Scale(e, opts.padding.left as real, (opts.width - opts.padding.right) as real)
  }

  /** The canvas height: the requested height, raised to fit one row per leaf. */
  function DynamicHeight(leafCount: nat, opts: Options): (h: int)
    ensures h >= opts.height
    ensures h >= leafCount * opts.nodeSpacingY + opts.padding.top + opts.padding.bottom
    ensures h == opts.height || h == leafCount * opts.nodeSpacingY + opts.padding.top + opts.padding.bottom
  {
    var need := leafCount * opts.nodeSpacingY + opts.padding.top + opts.padding.bottom;
    if opts.height >= need then opts.height else need
  }

  /** The padded extent of a list of years: the least and greatest year (1940 and 2026
      when either is missing or zero), then five years earlier and two years later. */
  function PaddedExtent(years: seq<int>): Extent {
    var lo := if |years| == 0 || Min(years) == 0 then 1940 else Min(years);
    var hi := if |years| == 0 || Max(years) == 0 then 2026 else Max(years);
    Extent(lo - 5, hi + 2)
  }

  /** Without non-zero years the extent is 1935..2028; otherwise it reaches five years
      before the earliest and two after the latest, so it always spans at least seven. */
  lemma PaddedExtentSpec(years: seq<int>)
    requires forall k :: 0 <= k < |years| ==> years[k] != 0
    ensures var e := PaddedExtent(years);
      && (|years| == 0 ==> e == Extent(1935, 2028))
      && (|years| > 0 ==> e == Extent(Min(years) - 5, Max(years) + 2))
      && (forall k :: 0 <= k < |years| ==> e.lo + 5 <= years[k] <= e.hi - 2)
      && e.hi - e.lo >= 7
  {
    if |years| > 0 {
      assert Min(years) <= years[0] <= Max(years);
    }
  }

  // ---------------------------------------------------------------------------
  // The hierarchy's visit of the tree

  /** A node as the hierarchy visits it: its depth and its parent node (none at the root). */
  datatype Visit = Visit(node: TreeNode, depth: nat, parent: Option<TreeNode>)

  function Visits(t: TreeNode, depth: nat, parent: Option<TreeNode>): (r: seq<Visit>)
    decreases t, 1
    ensures |r| == |Preorder(t)| && r[0] == Visit(t, depth, parent)
  {
    [Visit(t, depth, parent)] + ForestVisits(t.children, depth + 1, Some(t))
  }

  function ForestVisits(ts: seq<TreeNode>, depth: nat, parent: Option<TreeNode>): (r: seq<Visit>)
    decreases ts, 0
    ensures |r| == |PreorderForest(ts)|
  {
    if ts == [] then [] else Visits(ts[0], depth, parent) + ForestVisits(ts[1..], depth, parent)
  }

  /** Every node of the tree with its depth and parent, the root first at depth 0. The
      hierarchy library visits breadth-first; this model lists the same visits in pre-order. */
  function Hierarchy(t: TreeNode): seq<Visit> {
    Visits(t, 0, None)
  }

  /** The visited nodes, in visit order. */
  function VisitedNodes(vs: seq<Visit>): (r: seq<TreeNode>)
    ensures |r| == |vs| && forall i :: 0 <= i < |vs| ==> r[i] == vs[i].node
  {
    seq(|vs|, i requires 0 <= i < |vs| => vs[i].node)
  }

  lemma VisitedNodesAppend(a: seq<Visit>, b: seq<Visit>)
    ensures VisitedNodes(a + b) == VisitedNodes(a) + VisitedNodes(b)
  {
  }

  /** The hierarchy visits exactly the tree's nodes, in pre-order. */
  lemma {:induction false} VisitsArePreorder(t: TreeNode, depth: nat, parent: Option<TreeNode>)
    ensures VisitedNodes(Visits(t, depth, parent)) == Preorder(t)
    decreases t, 1
  {
    ForestVisitsArePreorder(t.children, depth + 1, Some(t));
    VisitedNodesAppend([Visit(t, depth, parent)], ForestVisits(t.children, depth + 1, Some(t)));
  }

  lemma {:induction false} ForestVisitsArePreorder(ts: seq<TreeNode>, depth: nat, parent: Option<TreeNode>)
    ensures VisitedNodes(ForestVisits(ts, depth, parent)) == PreorderForest(ts)
    decreases ts, 0
  {
    if ts != [] {
      VisitsArePreorder(ts[0], depth, parent);
      ForestVisitsArePreorder(ts[1..], depth, parent);
      VisitedNodesAppend(Visits(ts[0], depth, parent), ForestVisits(ts[1..], depth, parent));
    }
  }

  /** Below the first visit, every visit is deeper than the start and has a parent that
      is a node of the tree and lists the visited node among its children. */
  lemma {:induction false} VisitsParented(t: TreeNode, depth: nat, parent: Option<TreeNode>)
    ensures forall i :: 0 < i < |Visits(t, depth, parent)| ==> HasParentIn(Visits(t, depth, parent)[i], t, depth)
    decreases t, 1
  {
    var vs := Visits(t, depth, parent);
    var fs := ForestVisits(t.children, depth + 1, Some(t));
    ForestVisitsParented(t.children, depth + 1, Some(t));
    forall i | 0 < i < |vs|
      ensures HasParentIn(vs[i], t, depth)
    {
      var v := fs[i - 1];
      assert vs[i] == v;
      assert v in fs;
      if v.depth == depth + 1 && v.parent == Some(t) && v.node in t.children {
        assert v.parent.value == Preorder(t)[0];
      } else {
        InRight(v.parent.value, [t], PreorderForest(t.children));
      }
    }
  }

  lemma {:induction false} ForestVisitsParented(ts: seq<TreeNode>, depth: nat, parent: Option<TreeNode>)
    ensures forall v :: v in ForestVisits(ts, depth, parent) ==> VisitBelow(v, ts, depth, parent)
    decreases ts, 0
  {
    if ts != [] {
      var vs := ForestVisits(ts, depth, parent);
      var hd, tl := Visits(ts[0], depth, parent), ForestVisits(ts[1..], depth, parent);
      assert vs == hd + tl;
      VisitsParented(ts[0], depth, parent);
      ForestVisitsParented(ts[1..], depth, parent);
      forall v | v in vs
        ensures VisitBelow(v, ts, depth, parent)
      {
        var i :| 0 <= i < |vs| && vs[i] == v;
        if i == 0 {
          assert v == Visit(ts[0], depth, parent);
        } else if i < |hd| {
          assert v == hd[i] && HasParentIn(hd[i], ts[0], depth);
          InLeft(v.parent.value, Preorder(ts[0]), PreorderForest(ts[1..]));
        } else {
          assert v == tl[i - |hd|];
          assert v in tl;
          if v.depth == depth && v.parent == parent && v.node in ts[1..] {
            InRight(v.node, [ts[0]], ts[1..]);
            assert [ts[0]] + ts[1..] == ts;
          } else {
            InRight(v.parent.value, Preorder(ts[0]), PreorderForest(ts[1..]));
          }
        }
      }
    }
  }

  /** A visit below depth `depth` whose parent is a node of `t` listing it as a child. */
  predicate HasParentIn(v: Visit, t: TreeNode, depth: nat) {
    && v.depth > depth && v.parent.Some?
    && v.parent.value in Preorder(t) && v.node in v.parent.value.children
  }

  /** A visit made while visiting the forest `ts` under `parent` at `depth`: one of the
      forest's own trees, or a deeper node whose parent is a node of the forest and lists
      it as a child. */
  predicate VisitBelow(v: Visit, ts: seq<TreeNode>, depth: nat, parent: Option<TreeNode>) {
    || (v.depth == depth && v.parent == parent && v.node in ts)
    || (&& v.depth > depth && v.parent.Some?
        && v.parent.value in PreorderForest(ts) && v.node in v.parent.value.children)
  }

  lemma InLeft<T>(x: T, a: seq<T>, b: seq<T>)
    requires x in a
    ensures x in a + b
  {
    var k :| 0 <= k < |a| && a[k] == x;
    assert (a + b)[k] == x;
  }

  lemma InRight<T>(x: T, a: seq<T>, b: seq<T>)
    requires x in b
    ensures x in a + b
  {
    var k :| 0 <= k < |b| && b[k] == x;
    assert (a + b)[|a| + k] == x;
  }

  /** The non-zero years of the visited nodes, in visit order (the collected years). */
  function VisitYears(vs: seq<Visit>): (r: seq<int>)
    ensures forall k :: 0 <= k < |r| ==> r[k] != 0
  {
    if vs == [] then []
    else (if TruthyYear(vs[0].node.year) then [vs[0].node.year.value] else []) + VisitYears(vs[1..])
  }

  lemma {:induction false} VisitYearsAppend(a: seq<Visit>, b: seq<Visit>)
    ensures VisitYears(a + b) == VisitYears(a) + VisitYears(b)
  {
    if a == [] {
      assert a + b == b;
    } else {
      assert (a + b)[1..] == a[1..] + b;
      VisitYearsAppend(a[1..], b);
    }
  }

  /** The years collected over the hierarchy are the tree's non-zero years in pre-order. */
  lemma {:induction false} VisitYearsAreTruthyYears(t: TreeNode, depth: nat, parent: Option<TreeNode>)
    ensures VisitYears(Visits(t, depth, parent)) == TruthyYears(t)
    decreases t, 1
  {
    ForestVisitYears(t.children, depth + 1, Some(t));
    VisitYearsAppend([Visit(t, depth, parent)], ForestVisits(t.children, depth + 1, Some(t)));
  }

  lemma {:induction false} ForestVisitYears(ts: seq<TreeNode>, depth: nat, parent: Option<TreeNode>)
    ensures VisitYears(ForestVisits(ts, depth, parent)) == ForestTruthyYears(ts)
    decreases ts, 0
  {
    if ts != [] {
      VisitYearsAreTruthyYears(ts[0], depth, parent);
      ForestVisitYears(ts[1..], depth, parent);
      VisitYearsAppend(Visits(ts[0], depth, parent), ForestVisits(ts[1..], depth, parent));
    }
  }

  /** The tree's padded year extent. */
  function YearExtent(t: TreeNode): Extent {
    PaddedExtent(TruthyYears(t))
  }

  // ---------------------------------------------------------------------------
  // Positioned nodes and links

  /** A positioned node: the tree node's fields, its depth, its position and its
      parent's id. */
  datatype LayoutNode = LayoutNode(
    id: string, title: string, kind: string, year: Option<int>, branch: string,
    depth: nat, x: real, y: real, parentId: Option<string>)

  /** `parent?.id || null`: no parent, or a parent with an empty id, gives none. */
  function ParentId(parent: Option<TreeNode>): Option<string> {
    if parent.Some? && parent.value.id != "" then Some(parent.value.id) else None
  }

  /** The year a node is placed at: its own when non-zero, else the extent's start. */
  function PlacementYear(n: TreeNode, e: Extent): int {
    if TruthyYear(n.year) then n.year.value else e.lo
  }

  /** The i-th visit positioned: x from its year, y from the structural placement. */
  function PlaceNode(v: Visit, i: nat, s: Scale, opts: Options, d3x: nat -> real): LayoutNode {
    LayoutNode(v.node.id, v.node.title, v.node.kind, v.node.year, v.node.branch, v.depth,
      Apply(s, PlacementYear(v.node, s.domain)), d3x(i) + opts.padding.top as real, ParentId(v.parent))
  }

  /** One positioned node per visit, in visit order. */
  function PlacedNodes(vs: seq<Visit>, s: Scale, opts: Options, d3x: nat -> real): (r: seq<LayoutNode>)
    ensures |r| == |vs|
  {
    seq(|vs|, i requires 0 <= i < |vs| => PlaceNode(vs[i], i, s, opts, d3x))
  }

  /** A parent/child pair of the hierarchy. */
  datatype Edge = Edge(source: TreeNode, target: TreeNode)

  /** One pair per visit that has a parent, in visit order. */
  function HierarchyEdges(vs: seq<Visit>): seq<Edge> {
    if vs == [] then []
    else (if vs[0].parent.Some? then [Edge(vs[0].parent.value, vs[0].node)] else []) + HierarchyEdges(vs[1..])
  }

  /** Visits that all have a parent give one pair each, in order. */
  lemma {:induction false} HierarchyEdgesOfParented(vs: seq<Visit>)
    requires forall i :: 0 <= i < |vs| ==> vs[i].parent.Some?
    ensures var es := HierarchyEdges(vs);
      |es| == |vs| && forall k :: 0 <= k < |vs| ==> es[k] == Edge(vs[k].parent.value, vs[k].node)
  {
    if vs != [] {
      HierarchyEdgesOfParented(vs[1..]);
    }
  }

  /** A drawn link between two positioned nodes. */
  datatype Link = Link(id: string, source: LayoutNode, target: LayoutNode)

  /** The id of the link from `source` to `target`. */
  function LinkId(source: string, target: string): string {
    source + "->" + target
  }

  /** The first positioned node with the given id. */
  function FindById(nodes: seq<LayoutNode>, id: string): Option<LayoutNode> {
    Find(nodes, (n: LayoutNode) => n.id == id)
  }

  /** One link per pair whose two endpoints are both found among the nodes. */
  function LinksOf(es: seq<Edge>, nodes: seq<LayoutNode>): seq<Link> {
    if es == [] then [] else LinkOf(es[0], nodes) + LinksOf(es[1..], nodes)
  }

  /** The link of one pair: none unless both endpoints are found. */
  function LinkOf(e: Edge, nodes: seq<LayoutNode>): seq<Link> {
    var s, t := FindById(nodes, e.source.id), FindById(nodes, e.target.id);
    if s.Some? && t.Some? then [Link(LinkId(s.value.id, t.value.id), s.value, t.value)] else []
  }

  /** When every endpoint id is among the nodes, there is exactly one link per pair, named
      `source->target`, joining nodes that carry the pair's two ids. */
  lemma {:induction false} LinksOfSpec(es: seq<Edge>, nodes: seq<LayoutNode>)
    requires forall k :: 0 <= k < |es| ==> es[k].source.id in IdsOfLayout(nodes) && es[k].target.id in IdsOfLayout(nodes)
    ensures var ls := LinksOf(es, nodes);
      && |ls| == |es|
      && forall k :: 0 <= k < |es| ==>
           && ls[k].source.id == es[k].source.id && ls[k].target.id == es[k].target.id
           && ls[k].id == LinkId(es[k].source.id, es[k].target.id)
           && ls[k].source in nodes && ls[k].target in nodes
  {
    if es != [] {
      LinksOfSpec(es[1..], nodes);
      FoundById(nodes, es[0].source.id);
      FoundById(nodes, es[0].target.id);
    }
  }

  /** The ids of positioned nodes, in order. */
  function IdsOfLayout(nodes: seq<LayoutNode>): (r: seq<string>)
    ensures |r| == |nodes| && forall i :: 0 <= i < |nodes| ==> r[i] == nodes[i].id
  {
    seq(|nodes|, i requires 0 <= i < |nodes| => nodes[i].id)
  }

  /** Looking up a present id finds a node carrying that id. */
  lemma FoundById(nodes: seq<LayoutNode>, id: string)
    requires id in IdsOfLayout(nodes)
    ensures FindById(nodes, id).Some? && FindById(nodes, id).value.id == id
    ensures FindById(nodes, id).value in nodes
  {
    var i :| 0 <= i < |nodes| && IdsOfLayout(nodes)[i] == id;
    assert ((n: LayoutNode) => n.id == id)(nodes[i]);
  }

  /** The result of a layout; an absent tree has no scale and no computed height. */
  datatype TreeLayout = TreeLayout(
    nodes: seq<LayoutNode>, links: seq<Link>, yearExtent: Extent,
    timeScale: Option<Scale>, height: Option<int>)

  /** The layout of an absent tree. */
  const NoTreeLayout: TreeLayout := TreeLayout([], [], Extent(1940, 2026), None, None)

  /** Lays out a tree: height from the leaf count, the padded year extent over the
      collected years, one positioned node per visit, then one link per parent/child pair. */
  method ComputeTreeLayout(treeData: Option<TreeNode>, opts: Options, d3x: nat -> real) returns (layout: TreeLayout)
    ensures treeData.None? ==> layout == NoTreeLayout
    ensures treeData.Some? ==>
      && layout.height == Some(DynamicHeight(LeafCount(treeData.value), opts))
      && layout.yearExtent == YearExtent(treeData.value)
      && layout.timeScale == Some(TimeScale(YearExtent(treeData.value), opts))
      && layout.nodes == PlacedNodes(Hierarchy(treeData.value), TimeScale(YearExtent(treeData.value), opts), opts, d3x)
      && layout.links == LinksOf(HierarchyEdges(Hierarchy(treeData.value)), layout.nodes)
  {
    if treeData.None? {
      return NoTreeLayout;
    }
    layout := LayoutTree(treeData.value, opts, d3x);
  }

  /** The layout of a present tree. */
  method LayoutTree(t: TreeNode, opts: Options, d3x: nat -> real) returns (layout: TreeLayout)
    ensures layout.height == Some(DynamicHeight(LeafCount(t), opts))
    ensures layout.yearExtent == YearExtent(t)
    ensures layout.timeScale == Some(TimeScale(YearExtent(t), opts))
    ensures layout.nodes == PlacedNodes(Hierarchy(t), TimeScale(YearExtent(t), opts), opts, d3x)
    ensures layout.links == LinksOf(HierarchyEdges(Hierarchy(t)), layout.nodes)
  {
    var visits := Hierarchy(t);
    var leafCount := LeafCount(t);
    var need := leafCount * opts.nodeSpacingY + opts.padding.top + opts.padding.bottom;
    var dynamicHeight := if opts.height >= need then opts.height else need;
    assert dynamicHeight == DynamicHeight(leafCount, opts);

    var allYears := CollectYears(visits);
    VisitYearsAreTruthyYears(t, 0, None);

    var extent := PadExtent(allYears);
    assert extent == YearExtent(t);
    var scale := Scale(extent, opts.padding.left as real, (opts.width - opts.padding.right) as real);

    assert scale == TimeScale(YearExtent(t), opts);
    var nodes := PlaceNodes(visits, scale, opts, d3x);
    var links := BuildLinks(HierarchyEdges(visits), nodes);
    layout := TreeLayout(nodes, links, extent, Some(scale), Some(dynamicHeight));
  }

  /** The extent of the collected years, with defaults for missing ends, then padded. */
  method PadExtent(allYears: seq<int>) returns (extent: Extent)
    ensures extent == PaddedExtent(allYears)
  {
    var lo := if |allYears| == 0 then 0 else Min(allYears);
    var hi := if |allYears| == 0 then 0 else Max(allYears);
    if lo == 0 { lo := 1940; }
    if hi == 0 { hi := 2026; }
    lo := lo - 5;
    hi := hi + 2;
    extent := Extent(lo, hi);
  }

  /** Collects the non-zero years of the visited nodes, in visit order. */
  method CollectYears(visits: seq<Visit>) returns (allYears: seq<int>)
    ensures allYears == VisitYears(visits)
  {
    allYears := [];
    var i := 0;
    while i < |visits|
      invariant 0 <= i <= |visits|
      invariant allYears == VisitYears(visits[..i])
    {
      var n := visits[i].node;
      VisitYearsAppend(visits[..i], [visits[i]]);
      assert visits[..i + 1] == visits[..i] + [visits[i]];
      if n.year.Some? && n.year.value != 0 {
        allYears := allYears + [n.year.value];
      }
      i := i + 1;
    }
    assert visits[..|visits|] == visits;
  }

  /** Positions every visited node: x from its year (or the extent's start), y from the
      structural placement, and the parent's id when the parent has a non-empty one. */
  method PlaceNodes(visits: seq<Visit>, scale: Scale, opts: Options, d3x: nat -> real) returns (nodes: seq<LayoutNode>)
    ensures nodes == PlacedNodes(visits, scale, opts, d3x)
  {
    nodes := [];
    var i := 0;
    while i < |visits|
      invariant 0 <= i <= |visits|
      invariant nodes == PlacedNodes(visits, scale, opts, d3x)[..i]
    {
      var v := visits[i];
      var year := if v.node.year.Some? && v.node.year.value != 0 then v.node.year.value else scale.domain.lo;
      var parentId := if v.parent.Some? && v.parent.value.id != "" then Some(v.parent.value.id) else None;
      nodes := nodes + [LayoutNode(v.node.id, v.node.title, v.node.kind, v.node.year, v.node.branch,
        v.depth, Apply(scale, year), d3x(i) + opts.padding.top as real, parentId)];
      i := i + 1;
    }
  }

  /** Builds one link per parent/child pair whose endpoints are both found. */
  method BuildLinks(edges: seq<Edge>, nodes: seq<LayoutNode>) returns (links: seq<Link>)
    ensures links == LinksOf(edges, nodes)
  {
    links := [];
    var i := 0;
    while i < |edges|
      invariant 0 <= i <= |edges|
      invariant links == LinksOf(edges[..i], nodes)
    {
      var source := FindById(nodes, edges[i].source.id);
      var target := FindById(nodes, edges[i].target.id);
      LinksOfNext(edges, i, nodes);
      if source.Some? && target.Some? {
        links := links + [Link(source.value.id + "->" + target.value.id, source.value, target.value)];
      }
      i := i + 1;
    }
    assert edges[..|edges|] == edges;
  }

  /** The links of one more pair are those before it followed by its own. */
  lemma LinksOfNext(edges: seq<Edge>, i: nat, nodes: seq<LayoutNode>)
    requires i < |edges|
    ensures LinksOf(edges[..i + 1], nodes) == LinksOf(edges[..i], nodes) + LinkOf(edges[i], nodes)
  {
    LinksOfAppend(edges[..i], [edges[i]], nodes);
    assert edges[..i + 1] == edges[..i] + [edges[i]];
    assert [edges[i]][1..] == [];
    assert LinksOf([edges[i]], nodes) == LinkOf(edges[i], nodes) + [];
  }

  lemma {:induction false} LinksOfAppend(a: seq<Edge>, b: seq<Edge>, nodes: seq<LayoutNode>)
    ensures LinksOf(a + b, nodes) == LinksOf(a, nodes) + LinksOf(b, nodes)
  {
    if a == [] {
      assert a + b == b;
    } else {
      assert (a + b)[0] == a[0] && (a + b)[1..] == a[1..] + b;
      LinksOfAppend(a[1..], b, nodes);
      var h := LinkOf(a[0], nodes);
      assert LinksOf(a + b, nodes) == h + (LinksOf(a[1..], nodes) + LinksOf(b, nodes));
    }
  }

  // --- Properties of the layout

  /** One positioned node per tree node, in pre-order, carrying that node's id, title,
      type, year and branch; depth is 0 and the parent id absent exactly at the root, and
      every other node records the id of a tree node that has it as a child. */
  lemma PlacedNodesSpec(t: TreeNode, s: Scale, opts: Options, d3x: nat -> real)
    ensures var ns := PlacedNodes(Hierarchy(t), s, opts, d3x); var pre := Preorder(t);
      && |ns| == NodeCount(t)
      && IdsOfLayout(ns) == Ids(t)
      && (forall i :: 0 <= i < |ns| ==>
            && ns[i].id == pre[i].id && ns[i].title == pre[i].title && ns[i].kind == pre[i].kind
            && ns[i].year == pre[i].year && ns[i].branch == pre[i].branch
            && (ns[i].depth == 0 <==> i == 0))
      && ns[0].parentId.None?
      && (forall i :: 0 < i < |ns| ==>
            Hierarchy(t)[i].parent.Some? && Hierarchy(t)[i].node in Hierarchy(t)[i].parent.value.children
            && Hierarchy(t)[i].parent.value in pre
            && ns[i].parentId == ParentId(Hierarchy(t)[i].parent))
  {
    var vs := Hierarchy(t);
    var ns := PlacedNodes(vs, s, opts, d3x);
    VisitsArePreorder(t, 0, None);
    VisitsParented(t, 0, None);
    IdsArePreorderIds(t);
    assert IdsOfLayout(ns) == IdsOf(Preorder(t));
  }

  /** Each node's x is the scale at its year, or at the extent's start when its year is
      missing or zero; on an increasing range, nodes with earlier years are never placed
      right of nodes with later years, and equal years give equal x. */
  lemma PlacedNodesX(vs: seq<Visit>, s: Scale, opts: Options, d3x: nat -> real, i: nat, j: nat)
    requires i < |vs| && j < |vs|
    requires s.domain.lo < s.domain.hi && s.r0 <= s.r1
    ensures var ns := PlacedNodes(vs, s, opts, d3x);
      && (!TruthyYear(vs[i].node.year) ==> ns[i].x == s.r0)
      && (PlacementYear(vs[i].node, s.domain) <= PlacementYear(vs[j].node, s.domain) ==> ns[i].x <= ns[j].x)
      && (PlacementYear(vs[i].node, s.domain) == PlacementYear(vs[j].node, s.domain) ==> ns[i].x == ns[j].x)
  {
    ApplyEnds(s);
    if PlacementYear(vs[i].node, s.domain) <= PlacementYear(vs[j].node, s.domain) {
      ApplyMonotone(s, PlacementYear(vs[i].node, s.domain), PlacementYear(vs[j].node, s.domain));
    }
  }

  /** The links of a laid-out tree: one per parent/child pair, each named `parent->child`
      and joining the positioned nodes of that parent and child. */
  lemma LayoutLinksSpec(t: TreeNode, s: Scale, opts: Options, d3x: nat -> real)
    ensures var vs := Hierarchy(t);
      var ns := PlacedNodes(vs, s, opts, d3x);
      var ls := LinksOf(HierarchyEdges(vs), ns);
      && |ls| == NodeCount(t) - 1
      && forall k :: 0 <= k < |ls| ==>
           && ls[k].target.id == vs[k + 1].node.id
           && vs[k + 1].parent.Some? && ls[k].source.id == vs[k + 1].parent.value.id
           && vs[k + 1].node in vs[k + 1].parent.value.children
           && ls[k].id == LinkId(ls[k].source.id, ls[k].target.id)
           && ls[k].source in ns && ls[k].target in ns
  {
    var vs := Hierarchy(t);
    var ns := PlacedNodes(vs, s, opts, d3x);
    var es := HierarchyEdges(vs);
    var ls := LinksOf(es, ns);
    TreeEdges(t);
    EdgeEndsPlaced(t, s, opts, d3x);
    LinksOfSpec(es, ns);
    forall k | 0 <= k < |ls|
      ensures && ls[k].target.id == vs[k + 1].node.id
              && vs[k + 1].parent.Some? && ls[k].source.id == vs[k + 1].parent.value.id
              && vs[k + 1].node in vs[k + 1].parent.value.children
    {
      assert EdgeOfVisit(es[k], vs[k + 1], t);
    }
  }

  /** The hierarchy's pairs: one per non-root visit, in visit order, from that visit's
      parent (a node of the tree listing it as a child) to the visited node. */
  lemma TreeEdges(t: TreeNode)
    ensures |Hierarchy(t)| == NodeCount(t) && |HierarchyEdges(Hierarchy(t))| == NodeCount(t) - 1
    ensures forall k :: 0 <= k < |HierarchyEdges(Hierarchy(t))| ==> EdgeOfVisit(HierarchyEdges(Hierarchy(t))[k], Hierarchy(t)[k + 1], t)
  {
    var vs := Hierarchy(t);
    VisitsArePreorder(t, 0, None);
    VisitsParented(t, 0, None);
    var rest := vs[1..];
    assert HierarchyEdges(vs) == HierarchyEdges(rest);
    forall i | 0 <= i < |rest| ensures rest[i].parent.Some? {
      assert rest[i] == vs[i + 1];
    }
    HierarchyEdgesOfParented(rest);
  }

  /** The pair drawn for a non-root visit: from its parent, a node of `t` listing it as a
      child, to the visited node. */
  predicate EdgeOfVisit(e: Edge, v: Visit, t: TreeNode) {
    HasParentIn(v, t, 0) && e == Edge(v.parent.value, v.node)
  }

  /** Both ends of every hierarchy pair carry ids of positioned nodes. */
  lemma EdgeEndsPlaced(t: TreeNode, s: Scale, opts: Options, d3x: nat -> real)
    ensures var es := HierarchyEdges(Hierarchy(t)); var ids := IdsOfLayout(PlacedNodes(Hierarchy(t), s, opts, d3x));
      forall k :: 0 <= k < |es| ==> es[k].source.id in ids && es[k].target.id in ids
  {
    var vs := Hierarchy(t);
    var ns := PlacedNodes(vs, s, opts, d3x);
    var es := HierarchyEdges(vs);
    var ids := IdsOfLayout(ns);
    TreeEdges(t);
    VisitsArePreorder(t, 0, None);
    forall k | 0 <= k < |es|
      ensures es[k].source.id in ids && es[k].target.id in ids
    {
      assert ids[k + 1] == es[k].target.id;
      var p := es[k].source;
      assert p in Preorder(t);
      var j :| 0 <= j < |Preorder(t)| && Preorder(t)[j] == p;
      assert VisitedNodes(vs)[j] == p;
      assert ids[j] == p.id;
    }
  }

  // ---------------------------------------------------------------------------
  // Paths

  datatype Point = Point(x: real, y: real)

  /** A drawn path: empty, a cubic Bézier curve or a quadratic one. */
  datatype Path =
    | NoPath
    | Cubic(from: Point, c1: Point, c2: Point, to: Point)
    | Quadratic(from: Point, control: Point, to: Point)

  /** The tree-edge curve: a cubic whose control points both sit at the mid x, one at the
      source's height and one at the target's. */
  function LinkPath(source: LayoutNode, target: LayoutNode): Path {
    var midX := (source.x + target.x) / 2.0;
    Cubic(Point(source.x, source.y), Point(midX, source.y), Point(midX, target.y), Point(target.x, target.y))
  }

  /** The edge curve runs from source to target, leaves and arrives horizontally, and
      drawing it the other way round gives the same curve reversed. */
  lemma LinkPathSpec(source: LayoutNode, target: LayoutNode)
    ensures var p := LinkPath(source, target); var q := LinkPath(target, source);
      && p.Cubic? && p.from == Point(source.x, source.y) && p.to == Point(target.x, target.y)
      && p.c1.y == p.from.y && p.c2.y == p.to.y
      && p.c1.x - p.from.x == p.to.x - p.c2.x
      && q == Cubic(p.to, p.c2, p.c1, p.from)
  {
  }

  /** The cross-reference arc: none when either endpoint is missing, otherwise a quadratic
      bowing 60 above the midpoint when the source is lower than the target, else 60 below. */
  function CrossRefPath(source: Option<LayoutNode>, target: Option<LayoutNode>): Path {
    if source.None? || target.None? then NoPath
    else
      var s, t := source.value, target.value;
      var midX := (s.x + t.x) / 2.0;
      var midY := (s.y + t.y) / 2.0;
      var offset := (if s.y > t.y then -1.0 else 1.0) * 60.0;
      Quadratic(Point(s.x, s.y), Point(midX, midY + offset), Point(t.x, t.y))
  }

  /** The arc's control point is the endpoints' midpoint moved 60 vertically; swapping
      endpoints at different heights moves it to the other side. */
  lemma CrossRefPathSpec(source: Option<LayoutNode>, target: Option<LayoutNode>)
    ensures (source.None? || target.None?) <==> CrossRefPath(source, target).NoPath?
    ensures source.Some? && target.Some? ==>
      var s, t := source.value, target.value;
      var p, q := CrossRefPath(source, target), CrossRefPath(target, source);
      && p.Quadratic? && p.from == Point(s.x, s.y) && p.to == Point(t.x, t.y)
      && p.control.x == (s.x + t.x) / 2.0
      && (p.control.y - (s.y + t.y) / 2.0 == 60.0 || p.control.y - (s.y + t.y) / 2.0 == -60.0)
      && (s.y > t.y <==> p.control.y < (s.y + t.y) / 2.0)
      && (s.y != t.y ==> p.control.y + q.control.y == s.y + t.y)
  {
  }

  // ---------------------------------------------------------------------------
  // Timeline ticks

  /** A tick of the year axis and its x position. */
  datatype Tick = Tick(year: int, x: real)

  /** `Math.ceil(a / step) * step` for a positive step: the least multiple not below `a`. */
  function CeilMultiple(a: int, step: int): int
    requires step > 0
  {
    -((-a) / step) * step
  }

  /** `Math.floor(a / step) * step` for a positive step: the greatest multiple not above `a`. */
  function FloorMultiple(a: int, step: int): int
    requires step > 0
  {
    (a / step) * step
  }

  /** The number of multiples of `step` from `start` to `end`, both multiples themselves. */
  function TickCount(start: int, end: int, step: int): nat
    requires step > 0
  {
    if start > end then 0 else (end - start) / step + 1
  }

  /** The tick years: every step from the first to the last multiple inside the extent. */
  function TickYears(e: Extent, step: int): (r: seq<int>)
    requires step > 0
  {
    var start := CeilMultiple(e.lo, step);
    var n := TickCount(start, FloorMultiple(e.hi, step), step);
    seq(n, k requires 0 <= k < n => start + k * step)
  }

  /** Collects one tick per year from the first to the last multiple of `step` in the
      extent, each at its scaled x. */
  method TimelineTicks(e: Extent, timeScale: int -> real, step: int) returns (ticks: seq<Tick>)
    requires step > 0
    ensures |ticks| == |TickYears(e, step)|
    ensures forall k :: 0 <= k < |ticks| ==>
      ticks[k].year == TickYears(e, step)[k] && ticks[k].x == timeScale(ticks[k].year)
  {
    ticks := [];
    var start := -((-e.lo) / step) * step;
    var end := (e.hi / step) * step;
    ghost var years := TickYears(e, step);
    MultipleBounds(e.lo, e.hi, step);
    TickCountSpec(start, end, step, 0);
    TickFirst(e, step);
    var year := start;
    while year <= end
      invariant |ticks| <= |years|
      invariant |ticks| < |years| ==> year == years[|ticks|]
      invariant year <= end <==> |ticks| < |years|
      invariant forall k :: 0 <= k < |ticks| ==> ticks[k].year == years[k] && ticks[k].x == timeScale(ticks[k].year)
      decreases |years| - |ticks|
    {
      TickNext(e, step, |ticks|);
      ticks := ticks + [Tick(year, timeScale(year))];
      year := year + step;
    }
  }

  /** The first tick is the first multiple, and there is one exactly when it is within the last. */
  lemma TickFirst(e: Extent, step: int)
    requires step > 0
    ensures var years := TickYears(e, step);
      (CeilMultiple(e.lo, step) <= FloorMultiple(e.hi, step) <==> |years| > 0)
      && (|years| > 0 ==> years[0] == CeilMultiple(e.lo, step))
  {
    MultipleBounds(e.lo, e.hi, step);
    TickCountSpec(CeilMultiple(e.lo, step), FloorMultiple(e.hi, step), step, 0);
  }

  /** The tick after the `m`-th is one step later, and it exists exactly when that year is
      within the last multiple. */
  lemma TickNext(e: Extent, step: int, m: nat)
    requires step > 0 && m < |TickYears(e, step)|
    ensures var years := TickYears(e, step);
      (m + 1 < |years| ==> years[m + 1] == years[m] + step)
      && (years[m] + step <= FloorMultiple(e.hi, step) <==> m + 1 < |years|)
  {
    var start, end := CeilMultiple(e.lo, step), FloorMultiple(e.hi, step);
    var years := TickYears(e, step);
    MultipleBounds(e.lo, e.hi, step);
    TickYearsInside(e, step, m);
    MultipleBetween(e.lo, e.hi, step, years[m]);
    assert years[m] == start + m * step;
    AddMultiples(m, 1, step);
    TickCountSpec(start, end, step, m + 1);
  }

  /** After `m` ticks from `start`, the next year is within `end` exactly when ticks remain. */
  lemma TickCountSpec(start: int, end: int, step: int, m: nat)
    requires step > 0 && start % step == 0 && end % step == 0
    requires m == 0 || start + (m - 1) * step <= end
    ensures m <= TickCount(start, end, step)
    ensures start + m * step <= end <==> m < TickCount(start, end, step)
  {
    if start <= end {
      MultipleDifference(end, start, step);
      var q := (end - start) / step;
      ModZero(end - start, step);
      MulLe(m, q, step);
      if m > 0 {
        MulLe(m - 1, q, step);
      }
    }
  }

  /** The first and last multiples bracket the extent from inside. */
  lemma MultipleBounds(lo: int, hi: int, step: int)
    requires step > 0
    ensures lo <= CeilMultiple(lo, step) < lo + step && CeilMultiple(lo, step) % step == 0
    ensures hi - step < FloorMultiple(hi, step) <= hi && FloorMultiple(hi, step) % step == 0
  {
    var q := (-lo) / step;
    assert -lo == q * step + (-lo) % step;
    assert CeilMultiple(lo, step) == -(q * step);
    MulDivExact(-q, step);
    MulDivExact(hi / step, step);
  }

  /** Every tick year is a multiple of `step` inside the extent. */
  lemma TickYearsInside(e: Extent, step: int, k: nat)
    requires step > 0 && k < |TickYears(e, step)|
    ensures var m := TickYears(e, step)[k]; e.lo <= m <= e.hi && m % step == 0
  {
    var start, end := CeilMultiple(e.lo, step), FloorMultiple(e.hi, step);
    var cs := -((-e.lo) / step);
    var m := TickYears(e, step)[k];
    assert m == start + k * step;
    MultipleBounds(e.lo, e.hi, step);
    TickCountSpec(start, end, step, k);
    MulLe(0, k, step);
    AddMultiples(cs, k, step);
    MulDivExact(cs + k, step);
  }

  /** A multiple inside the extent lies between the first and the last multiple. */
  lemma MultipleBetween(lo: int, hi: int, step: int, m: int)
    requires step > 0 && lo <= m <= hi && m % step == 0
    ensures CeilMultiple(lo, step) <= m <= FloorMultiple(hi, step)
  {
    var cs, fs, a := -((-lo) / step), hi / step, m / step;
    MultipleBounds(lo, hi, step);
    ModZero(m, step);
    assert CeilMultiple(lo, step) == cs * step && FloorMultiple(hi, step) == fs * step;
    AddMultiples(a, 1, step);
    AddMultiples(fs, 1, step);
    MulCancel(cs, a + 1, step);
    MulCancel(a, fs + 1, step);
    MulLe(cs, a, step);
    MulLe(a, fs, step);
  }

  /** Every multiple of `step` inside the extent is a tick year. */
  lemma MultipleIsTick(e: Extent, step: int, m: int)
    requires step > 0 && e.lo <= m <= e.hi && m % step == 0
    ensures m in TickYears(e, step)
  {
    var start, end := CeilMultiple(e.lo, step), FloorMultiple(e.hi, step);
    MultipleBounds(e.lo, e.hi, step);
    MultipleBetween(e.lo, e.hi, step, m);
    MultipleDifference(m, start, step);
    var k := (m - start) / step;
    ModZero(m - start, step);
    MulLe(0, k, step);
    TickCountSpec(start, end, step, k + 1);
    assert TickYears(e, step)[k] == m;
  }

  /** The ticks are exactly the multiples of `step` inside the extent, in increasing order
      one step apart; none when the extent holds no multiple. */
  lemma TickYearsSpec(e: Extent, step: int)
    requires step > 0
    ensures forall m :: m in TickYears(e, step) <==> e.lo <= m <= e.hi && m % step == 0
    ensures forall k :: 0 <= k < |TickYears(e, step)| - 1 ==> TickYears(e, step)[k + 1] == TickYears(e, step)[k] + step
  {
    var ys := TickYears(e, step);
    forall m | m in ys
      ensures e.lo <= m <= e.hi && m % step == 0
    {
      var k :| 0 <= k < |ys| && ys[k] == m;
      TickYearsInside(e, step, k);
    }
    forall m | e.lo <= m <= e.hi && m % step == 0
      ensures m in ys
    {
      MultipleIsTick(e, step, m);
    }
  }
}
