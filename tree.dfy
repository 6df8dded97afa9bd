/** The dataset shape shared by every component: a rooted tree of
    milestones plus auxiliary cross-reference edges. */
module Tree {
  import opened Wrappers
  import opened Seqs

  /** A tree node. `kind` is the node's `type` tag; `year` is None when
      the field is missing. Prose fields (description, url) are not modelled;
      `title` is the node's `label` (a reserved word here). */
  datatype TreeNode = TreeNode(
    id: string,
    title: string,
    kind: string,
    year: Option<int>,
    branch: string,
    children: seq<TreeNode>)

  /** An auxiliary, non-hierarchical edge between two node ids. */
  datatype CrossRef = CrossRef(source: string, target: string, caption: string)

  /** JavaScript truthiness of a year: present and not zero. */
  predicate TruthyYear(y: Option<int>) {
    y.Some? && y.value != 0
  }

  /** Every node of the tree, each before its descendants, children in order. */
  function Preorder(t: TreeNode): (r: seq<TreeNode>)
    decreases t, 1
    ensures |r| >= 1 && r[0] == t
  {
    [t] + PreorderForest(t.children)
  }

  function PreorderForest(ts: seq<TreeNode>): seq<TreeNode>
    decreases ts, 0
  {
    if ts == [] then [] else Preorder(ts[0]) + PreorderForest(ts[1..])
  }

  /** Number of nodes in the tree. */
  function NodeCount(t: TreeNode): nat {
    |Preorder(t)|
  }

  /** The ids of a list of nodes, in order. */
  function IdsOf(ns: seq<TreeNode>): (r: seq<string>)
    ensures |r| == |ns|
    ensures forall i :: 0 <= i < |ns| ==> r[i] == ns[i].id
  {
    if ns == [] then [] else [ns[0].id] + IdsOf(ns[1..])
  }

  /** Every id of the tree, in pre-order. */
  function Ids(t: TreeNode): seq<string>
    decreases t, 1
  {
    [t.id] + ForestIds(t.children)
  }

  function ForestIds(ts: seq<TreeNode>): seq<string>
    decreases ts, 0
  {
    if ts == [] then [] else Ids(ts[0]) + ForestIds(ts[1..])
  }

  /** The tree's invariant: every id occurs exactly once. */
  predicate UniqueIds(t: TreeNode) {
    NoDup(Ids(t))
  }

  /** A cross-reference resolves when both endpoints name nodes of the tree. */
  predicate Resolves(r: CrossRef, t: TreeNode) {
    r.source in Ids(t) && r.target in Ids(t)
  }

  /** The truthy years of the tree's nodes, in pre-order (what the layout collects). */
  function TruthyYears(t: TreeNode): seq<int>
    decreases t, 1
  {
    (if TruthyYear(t.year) then [t.year.value] else []) + ForestTruthyYears(t.children)
  }

  function ForestTruthyYears(ts: seq<TreeNode>): seq<int>
    decreases ts, 0
  {
    if ts == [] then [] else TruthyYears(ts[0]) + ForestTruthyYears(ts[1..])
  }

  /** Every node's branch tag is in `branches` and its type in `kinds`. */
  predicate Tagged(t: TreeNode, branches: set<string>, kinds: set<string>)
    decreases t, 1
  {
    t.branch in branches && t.kind in kinds && ForestTagged(t.children, branches, kinds)
  }

  predicate ForestTagged(ts: seq<TreeNode>, branches: set<string>, kinds: set<string>)
    decreases ts, 0
  {
    ts == [] || (Tagged(ts[0], branches, kinds) && ForestTagged(ts[1..], branches, kinds))
  }

  /** Number of leaves (nodes without children), as a hierarchy's `leaves()` counts them. */
  function LeafCount(t: TreeNode): nat
    decreases t, 1
  {
    if t.children == [] then 1 else ForestLeafCount(t.children)
  }

  function ForestLeafCount(ts: seq<TreeNode>): nat
    decreases ts, 0
  {
    if ts == [] then 0 else LeafCount(ts[0]) + ForestLeafCount(ts[1..])
  }

  /** `Ids` lists exactly the ids of the pre-order node list. */
  lemma {:induction false} IdsArePreorderIds(t: TreeNode)
    ensures Ids(t) == IdsOf(Preorder(t))
    decreases t, 1
  {
    ForestIdsArePreorderIds(t.children);
    IdsOfAppend([t], PreorderForest(t.children));
  }

  lemma {:induction false} ForestIdsArePreorderIds(ts: seq<TreeNode>)
    ensures ForestIds(ts) == IdsOf(PreorderForest(ts))
    decreases ts, 0
  {
    if ts != [] {
      IdsArePreorderIds(ts[0]);
      ForestIdsArePreorderIds(ts[1..]);
      IdsOfAppend(Preorder(ts[0]), PreorderForest(ts[1..]));
    }
  }

  lemma IdsOfAppend(a: seq<TreeNode>, b: seq<TreeNode>)
    ensures IdsOf(a + b) == IdsOf(a) + IdsOf(b)
  {
  }

  /** Tagging a forest one tree at a time. */
  lemma ForestTaggedCons(x: TreeNode, rest: seq<TreeNode>, bs: set<string>, ks: set<string>)
    requires Tagged(x, bs, ks) && ForestTagged(rest, bs, ks)
    ensures ForestTagged([x] + rest, bs, ks)
  {
    assert ([x] + rest)[1..] == rest;
  }

  /** A forest is tagged when each of its trees is. */
  lemma {:induction false} ForestTaggedAll(ts: seq<TreeNode>, bs: set<string>, ks: set<string>)
    requires forall i :: 0 <= i < |ts| ==> Tagged(ts[i], bs, ks)
    ensures ForestTagged(ts, bs, ks)
    decreases |ts|
  {
    if ts != [] {
      assert forall i :: 0 <= i < |ts[1..]| ==> ts[1..][i] == ts[i + 1];
      ForestTaggedAll(ts[1..], bs, ks);
    }
  }

  /** A tree tagged from `branches`/`kinds` is tagged from any larger sets. */
  lemma {:induction false} TaggedWeaken(t: TreeNode, b: set<string>, k: set<string>, b': set<string>, k': set<string>)
    requires Tagged(t, b, k) && b <= b' && k <= k'
    ensures Tagged(t, b', k')
    decreases t, 1
  {
    ForestTaggedWeaken(t.children, b, k, b', k');
  }

  lemma {:induction false} ForestTaggedWeaken(ts: seq<TreeNode>, b: set<string>, k: set<string>, b': set<string>, k': set<string>)
    requires ForestTagged(ts, b, k) && b <= b' && k <= k'
    ensures ForestTagged(ts, b', k')
    decreases ts, 0
  {
    if ts != [] {
      TaggedWeaken(ts[0], b, k, b', k');
      ForestTaggedWeaken(ts[1..], b, k, b', k');
    }
  }

  /** Every node listed in pre-order carries a tag from the sets the tree is tagged with. */
  lemma {:induction false} PreorderTagged(t: TreeNode, b: set<string>, k: set<string>, n: TreeNode)
    requires Tagged(t, b, k) && n in Preorder(t)
    ensures n.branch in b && n.kind in k
    decreases t, 1
  {
    if n != t {
      ForestPreorderTagged(t.children, b, k, n);
    }
  }

  lemma {:induction false} ForestPreorderTagged(ts: seq<TreeNode>, b: set<string>, k: set<string>, n: TreeNode)
    requires ForestTagged(ts, b, k) && n in PreorderForest(ts)
    ensures n.branch in b && n.kind in k
    decreases ts, 0
  {
    if n in Preorder(ts[0]) {
      PreorderTagged(ts[0], b, k, n);
    } else {
      ForestPreorderTagged(ts[1..], b, k, n);
    }
  }

  lemma {:induction false} ForestIdsAppend(a: seq<TreeNode>, b: seq<TreeNode>)
    ensures ForestIds(a + b) == ForestIds(a) + ForestIds(b)
  {
    if a == [] {
      assert a + b == b;
    } else {
      assert (a + b)[1..] == a[1..] + b;
      ForestIdsAppend(a[1..], b);
    }
  }

  lemma ForestIdsSingle(a: TreeNode)
    ensures ForestIds([a]) == Ids(a)
  {
    assert [a][1..] == [];
  }

  lemma ForestCons(x: TreeNode, rest: seq<TreeNode>)
    ensures ForestIds([x] + rest) == Ids(x) + ForestIds(rest)
    ensures ForestTruthyYears([x] + rest) == TruthyYears(x) + ForestTruthyYears(rest)
  {
    assert ([x] + rest)[1..] == rest;
  }
}
