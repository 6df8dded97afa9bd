/** The session store: one record of fields (tree data, crawl state, revealed ids,
    UI selection) updated by action methods. */
module Store {
  import opened Wrappers
  import opened Seqs
  import opened Tree
  import opened Crawler
  import opened Layout

  /** A flattened node: the tree node itself with its depth and number of children.
      It carries no parent id. */
  datatype FlatNode = FlatNode(node: TreeNode, depth: nat, childCount: nat)

  // ---------------------------------------------------------------------------
  // Flattening

  /** The flat list of a tree whose root sits at `depth`: the node, then its children's
      lists in order. */
  function Flat(t: TreeNode, depth: nat): (r: seq<FlatNode>)
    decreases t, 1
    ensures |r| == |Preorder(t)|
  {
    [FlatNode(t, depth, |t.children|)] + ForestFlat(t.children, depth)
  }

  /** The flat lists of the children of a node at `parentDepth`, concatenated. */
  function ForestFlat(ts: seq<TreeNode>, parentDepth: nat): (r: seq<FlatNode>)
    decreases ts, 0
    ensures |r| == |PreorderForest(ts)|
  {
    if ts == [] then [] else Flat(ts[0], parentDepth + 1) + ForestFlat(ts[1..], parentDepth)
  }

  lemma {:induction false} ForestFlatAppend(a: seq<TreeNode>, b: seq<TreeNode>, d: nat)
    ensures ForestFlat(a + b, d) == ForestFlat(a, d) + ForestFlat(b, d)
  {
    if a == [] {
      assert a + b == b;
    } else {
      assert (a + b)[1..] == a[1..] + b;
      ForestFlatAppend(a[1..], b, d);
    }
  }

  /** Appends the flat list of `node` at `depth` to `acc`: the node, then each child
      flattened one level deeper, in order. */
  method Flatten(node: TreeNode, depth: nat, acc: seq<FlatNode>) returns (out: seq<FlatNode>)
    ensures out == acc + Flat(node, depth)
    decreases node
  {
    out := acc + [FlatNode(node, depth, |node.children|)];
    var i := 0;
    while i < |node.children|
      invariant 0 <= i <= |node.children|
      invariant out == acc + [FlatNode(node, depth, |node.children|)] + ForestFlat(node.children[..i], depth)
    {
      var child := node.children[i];
      out := Flatten(child, depth + 1, out);
      ForestFlatAppend(node.children[..i], [child], depth);
      assert [child][1..] == [];
      assert node.children[..i + 1] == node.children[..i] + [child];
      i := i + 1;
    }
    assert node.children[..i] == node.children;
  }

  /** The flat list agrees entry by entry with the hierarchy's visit of the same tree:
      the same node, in pre-order, at the same depth, with its number of children. */
  lemma {:induction false} FlatIsVisits(t: TreeNode, depth: nat, parent: Option<TreeNode>)
    ensures forall i :: 0 <= i < |Flat(t, depth)| ==> FlatOfVisit(Flat(t, depth)[i], Visits(t, depth, parent)[i])
    decreases t, 1
  {
    ForestFlatIsVisits(t.children, depth, Some(t));
    var fs, vs := Flat(t, depth), Visits(t, depth, parent);
    var ffs, fvs := ForestFlat(t.children, depth), ForestVisits(t.children, depth + 1, Some(t));
    forall i | 0 <= i < |fs| ensures FlatOfVisit(fs[i], vs[i]) {
      if i > 0 {
        assert fs[i] == ffs[i - 1] && vs[i] == fvs[i - 1];
      }
    }
  }

  lemma {:induction false} ForestFlatIsVisits(ts: seq<TreeNode>, parentDepth: nat, parent: Option<TreeNode>)
    ensures forall i :: 0 <= i < |ForestFlat(ts, parentDepth)| ==>
      FlatOfVisit(ForestFlat(ts, parentDepth)[i], ForestVisits(ts, parentDepth + 1, parent)[i])
    decreases ts, 0
  {
    if ts != [] {
      FlatIsVisits(ts[0], parentDepth + 1, parent);
      ForestFlatIsVisits(ts[1..], parentDepth, parent);
      var fs, vs := ForestFlat(ts, parentDepth), ForestVisits(ts, parentDepth + 1, parent);
      var hf, hv := Flat(ts[0], parentDepth + 1), Visits(ts[0], parentDepth + 1, parent);
      var tf, tv := ForestFlat(ts[1..], parentDepth), ForestVisits(ts[1..], parentDepth + 1, parent);
      forall i | 0 <= i < |fs| ensures FlatOfVisit(fs[i], vs[i]) {
        if i < |hf| {
          assert fs[i] == hf[i] && vs[i] == hv[i];
        } else {
          assert fs[i] == tf[i - |hf|] && vs[i] == tv[i - |hf|];
        }
      }
    }
  }

  /** A flat entry records a visit: same node, same depth, and its number of children. */
  predicate FlatOfVisit(f: FlatNode, v: Visit) {
    f.node == v.node && f.depth == v.depth && f.childCount == |v.node.children|
  }

  /** The flat list of a tree: one entry per node in pre-order, each with its number of
      children and the depth the hierarchy gives it; the root alone is at depth 0, and its
      ids are the tree's ids. */
  lemma FlatSpec(t: TreeNode)
    ensures var fs := Flat(t, 0); var pre := Preorder(t); var vs := Hierarchy(t);
      && |fs| == NodeCount(t)
      && fs[0] == FlatNode(t, 0, |t.children|)
      && (forall i :: 0 <= i < |fs| ==>
            fs[i].node == pre[i] && fs[i].childCount == |pre[i].children| && fs[i].depth == vs[i].depth)
      && (forall i :: 0 < i < |fs| ==> fs[i].depth > 0)
      && FlatIds(fs) == Ids(t)
  {
    var fs, vs := Flat(t, 0), Hierarchy(t);
    FlatIsVisits(t, 0, None);
    VisitsArePreorder(t, 0, None);
    VisitsParented(t, 0, None);
    IdsArePreorderIds(t);
    forall i | 0 <= i < |fs|
      ensures fs[i].node == Preorder(t)[i] && fs[i].depth == vs[i].depth
      ensures i > 0 ==> fs[i].depth > 0
    {
      assert FlatOfVisit(fs[i], vs[i]);
      assert VisitedNodes(vs)[i] == vs[i].node;
      if i > 0 {
        assert HasParentIn(vs[i], t, 0);
      }
    }
  }

  /** The ids of flat nodes, in order. */
  function FlatIds(fs: seq<FlatNode>): (r: seq<string>)
    ensures |r| == |fs| && forall i :: 0 <= i < |fs| ==> r[i] == fs[i].node.id
  {
    seq(|fs|, i requires 0 <= i < |fs| => fs[i].node.id)
  }

  // ---------------------------------------------------------------------------
  // The store

  /** The store's fields; a selected or hovered node is held by its id. */
  class TreeStore {
    var treeData: Option<TreeNode>
    var crossRefs: seq<CrossRef>
    var flatNodes: seq<FlatNode>
    var keyword: string
    var isCrawling: bool
    var crawlPhase: Phase
    var crawlProgress: int
    /** The revealed ids, each once, in the order they were first revealed. */
    var revealedNodeIds: seq<string>
    var selectedNode: Option<string>
    var hoveredNode: Option<string>
    var hasSearched: bool
    var animationQueue: seq<string>

    /** The revealed ids form a set. */
    ghost predicate Valid()
      reads this
    {
      NoDup(revealedNodeIds)
    }

    /** Every field at its initial value. */
    ghost predicate Initial()
      reads this
    {
      && treeData.None? && crossRefs == [] && flatNodes == [] && keyword == ""
      && !isCrawling && crawlPhase == Idle && crawlProgress == 0 && revealedNodeIds == []
      && selectedNode.None? && hoveredNode.None? && !hasSearched && animationQueue == []
    }

    constructor ()
      ensures Initial() && Valid()
    {
      treeData := None;
      crossRefs := [];
      flatNodes := [];
      keyword := "";
      isCrawling := false;
      crawlPhase := Idle;
      crawlProgress := 0;
      revealedNodeIds := [];
      selectedNode := None;
      hoveredNode := None;
      hasSearched := false;
      animationQueue := [];
    }

    method SetKeyword(k: string)
      modifies this
      ensures keyword == k
      ensures treeData == old(treeData) && crossRefs == old(crossRefs) && flatNodes == old(flatNodes)
      ensures isCrawling == old(isCrawling) && crawlPhase == old(crawlPhase) && crawlProgress == old(crawlProgress)
      ensures revealedNodeIds == old(revealedNodeIds) && selectedNode == old(selectedNode)
      ensures hoveredNode == old(hoveredNode) && hasSearched == old(hasSearched) && animationQueue == old(animationQueue)
    {
      keyword := k;
    }

    /** A new crawl: records the keyword, starts crawling at the root phase with no
        progress, and clears the tree, the revealed ids and the selection; the hovered
        node is kept. */
    method StartCrawl(k: string)
      modifies this
      ensures keyword == k && isCrawling && crawlPhase == Root && crawlProgress == 0 && hasSearched
      ensures treeData.None? && crossRefs == [] && flatNodes == [] && revealedNodeIds == []
      ensures selectedNode.None? && animationQueue == []
      ensures hoveredNode == old(hoveredNode)
      ensures Valid()
    {
      keyword := k;
      isCrawling := true;
      crawlPhase := Root;
      crawlProgress := 0;
      hasSearched := true;
      treeData := None;
      crossRefs := [];
      flatNodes := [];
      revealedNodeIds := [];
      selectedNode := None;
      animationQueue := [];
    }

    /** Records the phase and progress exactly as given. */
    method SetCrawlPhase(phase: Phase, progress: int)
      modifies this
      ensures crawlPhase == phase && crawlProgress == progress
      ensures treeData == old(treeData) && crossRefs == old(crossRefs) && flatNodes == old(flatNodes)
      ensures keyword == old(keyword) && isCrawling == old(isCrawling)
      ensures revealedNodeIds == old(revealedNodeIds) && selectedNode == old(selectedNode)
      ensures hoveredNode == old(hoveredNode) && hasSearched == old(hasSearched) && animationQueue == old(animationQueue)
    {
      crawlPhase := phase;
      crawlProgress := progress;
    }

    /** Stores the tree and its cross-references (none when not given) and the tree's
        flat list (empty without a tree). */
    method SetTreeData(data: Option<TreeNode>, refs: Option<seq<CrossRef>>)
      modifies this
      ensures treeData == data && crossRefs == refs.GetOr([])
      ensures flatNodes == if data.Some? then Flat(data.value, 0) else []
      ensures keyword == old(keyword) && isCrawling == old(isCrawling)
      ensures crawlPhase == old(crawlPhase) && crawlProgress == old(crawlProgress)
      ensures revealedNodeIds == old(revealedNodeIds) && selectedNode == old(selectedNode)
      ensures hoveredNode == old(hoveredNode) && hasSearched == old(hasSearched) && animationQueue == old(animationQueue)
    {
      var flat: seq<FlatNode> := [];
      if data.Some? {
        flat := Flatten(data.value, 0, flat);
      }
      treeData := data;
      crossRefs := refs.GetOr([]);
      flatNodes := flat;
    }

    /** Adds one id to the revealed set. */
    method RevealNode(id: string)
      requires Valid()
      modifies this
      ensures revealedNodeIds == Added(old(revealedNodeIds), id)
      ensures Valid()
      ensures treeData == old(treeData) && crossRefs == old(crossRefs) && flatNodes == old(flatNodes)
      ensures keyword == old(keyword) && isCrawling == old(isCrawling)
      ensures crawlPhase == old(crawlPhase) && crawlProgress == old(crawlProgress) && selectedNode == old(selectedNode)
      ensures hoveredNode == old(hoveredNode) && hasSearched == old(hasSearched) && animationQueue == old(animationQueue)
    {
      AddedSpec(revealedNodeIds, id);
      if id !in revealedNodeIds {
        revealedNodeIds := revealedNodeIds + [id];
      }
    }

    /** Adds every given id to the revealed set, in order. */
    method RevealNodes(ids: seq<string>)
      requires Valid()
      modifies this
      ensures revealedNodeIds == AddedAll(old(revealedNodeIds), ids)
      ensures Valid()
      ensures treeData == old(treeData) && crossRefs == old(crossRefs) && flatNodes == old(flatNodes)
      ensures keyword == old(keyword) && isCrawling == old(isCrawling)
      ensures crawlPhase == old(crawlPhase) && crawlProgress == old(crawlProgress) && selectedNode == old(selectedNode)
      ensures hoveredNode == old(hoveredNode) && hasSearched == old(hasSearched) && animationQueue == old(animationQueue)
    {
      var next := revealedNodeIds;
      var i := 0;
      while i < |ids|
        modifies {}
        invariant 0 <= i <= |ids|
        invariant next == AddedAll(old(revealedNodeIds), ids[..i])
      {
        AddedAllSnoc(old(revealedNodeIds), ids[..i], ids[i]);
        assert ids[..i + 1] == ids[..i] + [ids[i]];
        if ids[i] !in next {
          next := next + [ids[i]];
        }
        i := i + 1;
      }
      assert ids[..i] == ids;
      AddedAllSpec(old(revealedNodeIds), ids);
      revealedNodeIds := next;
    }

    /** Ends the crawl: no longer crawling, phase done, progress 100. */
    method FinishCrawl()
      modifies this
      ensures !isCrawling && crawlPhase == Done && crawlProgress == 100
      ensures treeData == old(treeData) && crossRefs == old(crossRefs) && flatNodes == old(flatNodes)
      ensures keyword == old(keyword) && revealedNodeIds == old(revealedNodeIds) && selectedNode == old(selectedNode)
      ensures hoveredNode == old(hoveredNode) && hasSearched == old(hasSearched) && animationQueue == old(animationQueue)
    {
      isCrawling := false;
      crawlPhase := Done;
      crawlProgress := 100;
    }

    method SelectNode(id: string)
      modifies this
      ensures selectedNode == Some(id)
      ensures treeData == old(treeData) && crossRefs == old(crossRefs) && flatNodes == old(flatNodes)
      ensures keyword == old(keyword) && isCrawling == old(isCrawling)
      ensures crawlPhase == old(crawlPhase) && crawlProgress == old(crawlProgress) && revealedNodeIds == old(revealedNodeIds)
      ensures hoveredNode == old(hoveredNode) && hasSearched == old(hasSearched) && animationQueue == old(animationQueue)
    {
      selectedNode := Some(id);
    }

    method ClearSelection()
      modifies this
      ensures selectedNode.None?
      ensures treeData == old(treeData) && crossRefs == old(crossRefs) && flatNodes == old(flatNodes)
      ensures keyword == old(keyword) && isCrawling == old(isCrawling)
      ensures crawlPhase == old(crawlPhase) && crawlProgress == old(crawlProgress) && revealedNodeIds == old(revealedNodeIds)
      ensures hoveredNode == old(hoveredNode) && hasSearched == old(hasSearched) && animationQueue == old(animationQueue)
    {
      selectedNode := None;
    }

    method SetHoveredNode(id: Option<string>)
      modifies this
      ensures hoveredNode == id
      ensures treeData == old(treeData) && crossRefs == old(crossRefs) && flatNodes == old(flatNodes)
      ensures keyword == old(keyword) && isCrawling == old(isCrawling)
      ensures crawlPhase == old(crawlPhase) && crawlProgress == old(crawlProgress) && revealedNodeIds == old(revealedNodeIds)
      ensures selectedNode == old(selectedNode) && hasSearched == old(hasSearched) && animationQueue == old(animationQueue)
    {
      hoveredNode := id;
    }

    /** The first flat node with the given id, or none. */
    function GetNodeById(id: string): (r: Option<FlatNode>)
      reads this
      ensures r.None? <==> forall k :: 0 <= k < |flatNodes| ==> flatNodes[k].node.id != id
      ensures r.Some? ==> exists k :: (0 <= k < |flatNodes| && flatNodes[k] == r.value && r.value.node.id == id
                                       && forall j :: 0 <= j < k ==> flatNodes[j].node.id != id)
    {
      match FindIndex(flatNodes, (f: FlatNode) => f.node.id == id)
      case None => None
      case Some(k) => Some(flatNodes[k])
    }

    /** Every field back to its initial value. */
    method Reset()
      modifies this
      ensures Initial() && Valid()
    {
      treeData, crossRefs, flatNodes, keyword := None, [], [], "";
      isCrawling, crawlPhase, crawlProgress, revealedNodeIds := false, Idle, 0, [];
      selectedNode, hoveredNode, hasSearched, animationQueue := None, None, false, [];
    }
  }

  // ---------------------------------------------------------------------------
  // The revealed-id set

  /** An insertion-ordered set with `id` added. */
  function Added(s: seq<string>, id: string): seq<string> {
    if id in s then s else s + [id]
  }

  /** Adding keeps every element, adds exactly `id`, keeps the set free of repeats, and
      adding an element already present changes nothing. */
  lemma AddedSpec(s: seq<string>, id: string)
    ensures forall x :: x in Added(s, id) <==> x in s || x == id
    ensures Added(s, id)[..|s|] == s
    ensures NoDup(s) ==> NoDup(Added(s, id))
    ensures id in s ==> Added(s, id) == s
    ensures Added(Added(s, id), id) == Added(s, id)
  {
  }

  /** An insertion-ordered set with the ids added one after another. */
  function AddedAll(s: seq<string>, ids: seq<string>): seq<string>
    decreases |ids|
  {
    if ids == [] then s else AddedAll(Added(s, ids[0]), ids[1..])
  }

  lemma {:induction false} AddedAllSnoc(s: seq<string>, ids: seq<string>, id: string)
    ensures AddedAll(s, ids + [id]) == Added(AddedAll(s, ids), id)
    decreases |ids|
  {
    if ids == [] {
      assert [id][1..] == [];
    } else {
      assert (ids + [id])[1..] == ids[1..] + [id];
      AddedAllSnoc(Added(s, ids[0]), ids[1..], id);
    }
  }

  /** Adding a list is the union: exactly the old elements and the given ids, the old
      elements first and in their order, still without repeats. */
  lemma {:induction false} AddedAllSpec(s: seq<string>, ids: seq<string>)
    ensures forall x :: x in AddedAll(s, ids) <==> x in s || x in ids
    ensures |AddedAll(s, ids)| >= |s| && AddedAll(s, ids)[..|s|] == s
    ensures NoDup(s) ==> NoDup(AddedAll(s, ids))
    decreases |ids|
  {
    if ids != [] {
      AddedSpec(s, ids[0]);
      AddedAllSpec(Added(s, ids[0]), ids[1..]);
      var a := AddedAll(s, ids);
      assert a[..|s|] == a[..|Added(s, ids[0])|][..|s|];
      assert ids == [ids[0]] + ids[1..];
    }
  }
}
