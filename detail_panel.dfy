/** The detail panel's lookups for the selected node: its parent and children among the
    store's flat nodes, the cross-references that touch it with the node at their other
    end, and whether the official link is shown. */
module DetailPanel {
  import opened Wrappers
  import opened Seqs
  import opened Tree
  import opened Layout
  import opened Store

  /** The node the panel shows: its id, the parent id it carries (a positioned node has
      one, a flat node none) and its url. */
  datatype Selected = Selected(id: string, parentId: Option<string>, url: Option<string>)

  /** The panel's view of a positioned node. */
  function OfLayoutNode(n: LayoutNode, url: Option<string>): Selected {
    Selected(n.id, n.parentId, url)
  }

  /** The parent id a flat node carries: none, as flattening records no parent. */
  function FlatParentId(f: FlatNode): Option<string> {
    None
  }

  /** The first flat node whose id is the selected node's parent id; none when that id is
      missing or empty. */
  function Parent(node: Selected, flatNodes: seq<FlatNode>): Option<FlatNode> {
    if node.parentId.None? || node.parentId.value == "" then None
    else Find(flatNodes, (f: FlatNode) => f.node.id == node.parentId.value)
  }

  /** The flat nodes whose parent id is the selected node's id, in order. */
  function Children(node: Selected, flatNodes: seq<FlatNode>): seq<FlatNode> {
    Filter(flatNodes, (f: FlatNode) => FlatParentId(f) == Some(node.id))
  }

  /** The cross-references touching the selected node, in order. */
  function Refs(node: Selected, crossRefs: seq<CrossRef>): seq<CrossRef> {
    Filter(crossRefs, (r: CrossRef) => r.source == node.id || r.target == node.id)
  }

  /** The end of a reference that is not the node: the target when the node is the source,
      else the source. */
  function OtherId(r: CrossRef, id: string): string {
    if r.source == id then r.target else r.source
  }

  /** A touching reference with the flat node at its other end. */
  datatype Neighbour = Neighbour(ref: CrossRef, other: FlatNode)

  /** The touching references whose other end is a flat node, each with that node. */
  function CrossNodes(node: Selected, refs: seq<CrossRef>, flatNodes: seq<FlatNode>): seq<Neighbour> {
    if refs == [] then []
    else
      var other := Find(flatNodes, (f: FlatNode) => f.node.id == OtherId(refs[0], node.id));
      (if other.Some? then [Neighbour(refs[0], other.value)] else []) + CrossNodes(node, refs[1..], flatNodes)
  }

  /** The neighbours the panel lists: those of the references touching the node. */
  function Neighbours(node: Selected, crossRefs: seq<CrossRef>, flatNodes: seq<FlatNode>): seq<Neighbour> {
    CrossNodes(node, Refs(node, crossRefs), flatNodes)
  }

  /** The official link shows only for a url that is present, non-empty and not "#". */
  predicate OfficialLinkShown(url: Option<string>) {
    url.Some? && url.value != "" && url.value != "#"
  }

  // ---------------------------------------------------------------------------
  // Properties

  /** Without a (non-empty) parent id there is no parent; otherwise the parent is the
      first flat node carrying that id, and there is one exactly when some flat node
      carries it. */
  lemma ParentSpec(node: Selected, flatNodes: seq<FlatNode>)
    ensures (node.parentId.None? || node.parentId.value == "") ==> Parent(node, flatNodes).None?
    ensures node.parentId.Some? && node.parentId.value != "" ==>
      (Parent(node, flatNodes).Some? <==> node.parentId.value in FlatIds(flatNodes))
    ensures Parent(node, flatNodes).Some? ==>
      exists k :: (0 <= k < |flatNodes| && flatNodes[k] == Parent(node, flatNodes).value
                   && flatNodes[k].node.id == node.parentId.value
                   && forall j :: 0 <= j < k ==> flatNodes[j].node.id != node.parentId.value)
  {
    if node.parentId.Some? && node.parentId.value != "" {
      var pid := node.parentId.value;
      var p := (f: FlatNode) => f.node.id == pid;
      var fi := FindIndex(flatNodes, p);
      if fi.Some? {
        assert FlatIds(flatNodes)[fi.value] == pid;
      }
      if pid in FlatIds(flatNodes) {
        var k :| 0 <= k < |flatNodes| && FlatIds(flatNodes)[k] == pid;
        assert p(flatNodes[k]);
      }
    }
  }

  /** Fed the store's flat nodes, which carry no parent id, the children list is always
      empty. */
  lemma {:induction false} ChildrenOfFlatNodesEmpty(node: Selected, flatNodes: seq<FlatNode>)
    ensures Children(node, flatNodes) == []
  {
    FilterNone(flatNodes, (f: FlatNode) => FlatParentId(f) == Some(node.id));
  }

  /** The touching references are exactly those with the node at either end, in order. */
  lemma RefsSpec(node: Selected, crossRefs: seq<CrossRef>)
    ensures forall r :: r in Refs(node, crossRefs) <==> r in crossRefs && (r.source == node.id || r.target == node.id)
  {
  }

  /** Unless a reference joins the node to itself, its other end is the end that is not
      the node, whichever way round the reference points. */
  lemma OtherIdSpec(r: CrossRef, id: string)
    requires r.source == id || r.target == id
    ensures r.source != r.target ==> OtherId(r, id) != id
    ensures r.source != r.target ==> OtherId(CrossRef(r.target, r.source, r.caption), id) == OtherId(r, id)
    ensures OtherId(r, id) == r.source || OtherId(r, id) == r.target
  {
  }

  /** The first flat node carrying an id is found exactly when the id is present. */
  lemma FindFlatSpec(flatNodes: seq<FlatNode>, id: string)
    ensures Find(flatNodes, (f: FlatNode) => f.node.id == id).Some? <==> id in FlatIds(flatNodes)
  {
    var p := (f: FlatNode) => f.node.id == id;
    var fi := FindIndex(flatNodes, p);
    if fi.Some? {
      assert FlatIds(flatNodes)[fi.value] == id;
    }
    if id in FlatIds(flatNodes) {
      var k :| 0 <= k < |flatNodes| && FlatIds(flatNodes)[k] == id;
      assert p(flatNodes[k]);
    }
  }

  /** The listed neighbours are, in order, exactly the given references whose other end
      is a flat node. */
  lemma {:induction false} CrossNodesRefs(node: Selected, refs: seq<CrossRef>, flatNodes: seq<FlatNode>)
    ensures NeighbourRefs(CrossNodes(node, refs, flatNodes))
         == Filter(refs, (r: CrossRef) => OtherId(r, node.id) in FlatIds(flatNodes))
  {
    if refs != [] {
      var r := refs[0];
      CrossNodesRefs(node, refs[1..], flatNodes);
      FindFlatSpec(flatNodes, OtherId(r, node.id));
      var other := Find(flatNodes, (f: FlatNode) => f.node.id == OtherId(r, node.id));
      var head := if other.Some? then [Neighbour(r, other.value)] else [];
      var p := (r: CrossRef) => OtherId(r, node.id) in FlatIds(flatNodes);
      assert CrossNodes(node, refs, flatNodes) == head + CrossNodes(node, refs[1..], flatNodes);
      NeighbourRefsAppend(head, CrossNodes(node, refs[1..], flatNodes));
      assert NeighbourRefs(head) == if p(r) then [r] else [];
      assert Filter(refs, p) == (if p(r) then [r] else []) + Filter(refs[1..], p);
    }
  }

  /** Each listed neighbour is a flat node carrying the reference's other id. */
  lemma {:induction false} CrossNodesOthers(node: Selected, refs: seq<CrossRef>, flatNodes: seq<FlatNode>)
    ensures forall nb :: nb in CrossNodes(node, refs, flatNodes) ==>
      nb.ref in refs && nb.other in flatNodes && nb.other.node.id == OtherId(nb.ref, node.id)
  {
    if refs != [] {
      CrossNodesOthers(node, refs[1..], flatNodes);
    }
  }

  /** The references of neighbours, in order. */
  function NeighbourRefs(ns: seq<Neighbour>): (r: seq<CrossRef>)
    ensures |r| == |ns| && forall i :: 0 <= i < |ns| ==> r[i] == ns[i].ref
  {
    seq(|ns|, i requires 0 <= i < |ns| => ns[i].ref)
  }

  lemma NeighbourRefsAppend(a: seq<Neighbour>, b: seq<Neighbour>)
    ensures NeighbourRefs(a + b) == NeighbourRefs(a) + NeighbourRefs(b)
  {
  }

  /** With the flat nodes of a tree all of whose references resolve, no touching reference
      is dropped: every one is listed with its other end. */
  lemma NoNeighbourDropped(t: TreeNode, node: Selected, crossRefs: seq<CrossRef>)
    requires forall r :: r in crossRefs ==> Resolves(r, t)
    ensures NeighbourRefs(Neighbours(node, crossRefs, Flat(t, 0))) == Refs(node, crossRefs)
  {
    var fs := Flat(t, 0);
    var refs := Refs(node, crossRefs);
    FlatSpec(t);
    CrossNodesRefs(node, refs, fs);
    forall r | r in refs ensures OtherId(r, node.id) in FlatIds(fs) {
      assert r in crossRefs;
    }
    FilterAll(refs, (r: CrossRef) => OtherId(r, node.id) in FlatIds(fs));
  }

  /** Selecting a positioned node of a tree with distinct ids, the panel's parent is the
      flat entry of the tree node that lists it as a child. */
  lemma ParentOfPlacedNode(t: TreeNode, s: Scale, opts: Options, d3x: nat -> real, i: nat, url: Option<string>)
    requires UniqueIds(t)
    requires 0 < i < NodeCount(t)
    ensures var vs := Hierarchy(t);
      var n := PlacedNodes(vs, s, opts, d3x)[i];
      var p := Parent(OfLayoutNode(n, url), Flat(t, 0));
      vs[i].parent.Some? && (vs[i].parent.value.id != "" ==>
        p.Some? && p.value.node == vs[i].parent.value && vs[i].node in p.value.node.children)
  {
    var vs := Hierarchy(t);
    var ns := PlacedNodes(vs, s, opts, d3x);
    var fs := Flat(t, 0);
    PlacedNodesSpec(t, s, opts, d3x);
    FlatSpec(t);
    assert HasParentIn(vs[i], t, 0) by { VisitsParented(t, 0, None); }
    var q := vs[i].parent.value;
    if q.id != "" {
      var pre := Preorder(t);
      var j :| 0 <= j < |pre| && pre[j] == q;
      var sel := OfLayoutNode(ns[i], url);
      assert sel.parentId == Some(q.id);
      ParentSpec(sel, fs);
      assert FlatIds(fs)[j] == q.id;
      var k :| 0 <= k < |fs| && fs[k] == Parent(sel, fs).value && fs[k].node.id == q.id;
      IdsArePreorderIds(t);
      assert Ids(t)[k] == q.id == Ids(t)[j];
      assert k == j;
    }
  }

  /** The link shows exactly for urls other than a missing one, "" and "#". */
  lemma OfficialLinkSpec(url: Option<string>)
    ensures OfficialLinkShown(url) <==> url !in {None, Some(""), Some("#")}
  {
  }
}
