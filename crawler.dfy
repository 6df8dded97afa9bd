/** The reveal scheduler of a crawl: which dataset a keyword selects, the
    breadth-first order of node ids, the timed schedule of callbacks, the
    cancellable session that fires that schedule, and the two placeholder
    classification rules for newly found nodes. */
module Crawler {
  import opened Wrappers
  import opened Seqs
  import opened Tree
  import opened Text
  import opened Datasets
  import opened Arith

  // ---------------------------------------------------------------------------
  // Choosing the dataset

  /** The alternatives of the anchored, case-insensitive keyword pattern. */
  const AIKeywords: seq<string> :=
    ["ai", "artificial intelligence", "machine learning", "deep learning", "ml", "dl"]

  /** The pattern test, applied to the trimmed keyword: one alternative matches it whole. */
  predicate IsAIKeyword(keyword: string) {
    var k := Trim(keyword);
    MatchesIgnoringCase(k, "ai") || MatchesIgnoringCase(k, "artificial intelligence")
    || MatchesIgnoringCase(k, "machine learning") || MatchesIgnoringCase(k, "deep learning")
    || MatchesIgnoringCase(k, "ml") || MatchesIgnoringCase(k, "dl")
  }

  /** A keyword selects the AI dataset exactly when, trimmed and lower-cased, it is one
      of the six alternatives. */
  lemma IsAIKeywordIff(keyword: string)
    ensures IsAIKeyword(keyword) <==> LowerAsciiString(Trim(keyword)) in AIKeywords
  {
    MatchesSomeKeywordIff(Trim(keyword));
  }

  lemma MatchesSomeKeywordIff(k: string)
    ensures (MatchesIgnoringCase(k, "ai") || MatchesIgnoringCase(k, "artificial intelligence")
             || MatchesIgnoringCase(k, "machine learning") || MatchesIgnoringCase(k, "deep learning")
             || MatchesIgnoringCase(k, "ml") || MatchesIgnoringCase(k, "dl"))
        <==> LowerAsciiString(k) in AIKeywords
  {
    KeywordsAreLowerPatterns();
    MatchesOneOfSixIff(k, "ai", "artificial intelligence", "machine learning", "deep learning", "ml", "dl");
  }

  /** The six alternatives are written in lower case. */
  lemma KeywordsAreLowerPatterns()
    ensures LowerPattern("ai") && LowerPattern("artificial intelligence") && LowerPattern("machine learning")
    ensures LowerPattern("deep learning") && LowerPattern("ml") && LowerPattern("dl")
  {
  }

  /** Matching one of six lower-case alternatives is lower-casing into the list of them. */
  lemma MatchesOneOfSixIff(k: string, a: string, b: string, c: string, d: string, e: string, f: string)
    requires LowerPattern(a) && LowerPattern(b) && LowerPattern(c)
    requires LowerPattern(d) && LowerPattern(e) && LowerPattern(f)
    ensures (MatchesIgnoringCase(k, a) || MatchesIgnoringCase(k, b) || MatchesIgnoringCase(k, c)
             || MatchesIgnoringCase(k, d) || MatchesIgnoringCase(k, e) || MatchesIgnoringCase(k, f))
        <==> LowerAsciiString(k) in [a, b, c, d, e, f]
  {
    MatchesIgnoringCaseIsLowerEquality(k, a);
    MatchesIgnoringCaseIsLowerEquality(k, b);
    MatchesIgnoringCaseIsLowerEquality(k, c);
    MatchesIgnoringCaseIsLowerEquality(k, d);
    MatchesIgnoringCaseIsLowerEquality(k, e);
    MatchesIgnoringCaseIsLowerEquality(k, f);
  }

  /** The dataset a crawl uses. For any other keyword the generated root's title is
      overwritten with the keyword as typed, before trimming. */
  function SelectDataset(keyword: string): Dataset {
    if IsAIKeyword(keyword) then AIHistory()
    else
      var g := GenericTree(keyword);
      Dataset(g.tree.(title := keyword), g.crossRefs)
  }

  /** Whichever dataset is selected has distinct ids and resolving cross-references; an
      AI keyword gets the curated tree, any other keyword the ten-node template whose root
      shows the untrimmed keyword. */
  lemma SelectDatasetSpec(keyword: string)
    ensures var d := SelectDataset(keyword);
      && UniqueIds(d.tree)
      && (forall r :: r in d.crossRefs ==> Resolves(r, d.tree))
      && (IsAIKeyword(keyword) ==> d.tree.id == "ai-root" && |Ids(d.tree)| == 50 && |d.crossRefs| == 14)
      && (!IsAIKeyword(keyword) ==>
            d.tree.id == "root" && d.tree.title == keyword && Ids(d.tree) == GenericIds()
            && |d.crossRefs| == 2)
  {
    if IsAIKeyword(keyword) {
      SelectedAIDataset(keyword);
    } else {
      SelectedGenericDataset(keyword);
    }
  }

  lemma SelectedAIDataset(keyword: string)
    requires IsAIKeyword(keyword)
    ensures var d := SelectDataset(keyword);
      && UniqueIds(d.tree) && (forall r :: r in d.crossRefs ==> Resolves(r, d.tree))
      && d.tree.id == "ai-root" && |Ids(d.tree)| == 50 && |d.crossRefs| == 14
  {
    AIIdsUnique();
    AICrossRefsResolve();
    AIRoot();
  }

  lemma SelectedGenericDataset(keyword: string)
    requires !IsAIKeyword(keyword)
    ensures var d := SelectDataset(keyword);
      && UniqueIds(d.tree) && (forall r :: r in d.crossRefs ==> Resolves(r, d.tree))
      && d.tree.id == "root" && d.tree.title == keyword && Ids(d.tree) == GenericIds()
      && |d.crossRefs| == 2
  {
    var d := SelectDataset(keyword);
    var g := GenericTree(keyword);
    assert Ids(d.tree) == Ids(g.tree);
    GenericIdList(keyword);
    GenericIdsUnique(keyword);
    GenericCrossRefs(keyword);
  }

  // ---------------------------------------------------------------------------
  // Breadth-first id list

  /** The number of nodes in a queue of subtrees. */
  function QueueSize(queue: seq<TreeNode>): nat {
    |ForestIds(queue)|
  }

  /** Dequeuing the head and enqueuing its children removes exactly the head's id. */
  lemma Dequeue(queue: seq<TreeNode>)
    requires queue != []
    ensures multiset(ForestIds(queue))
      == multiset{queue[0].id} + multiset(ForestIds(queue[1..] + queue[0].children))
    ensures QueueSize(queue[1..] + queue[0].children) == QueueSize(queue) - 1
  {
    ForestIdsAppend(queue[1..], queue[0].children);
  }

  /** The ids a queue-driven breadth-first walk visits, starting from `queue`. */
  function BfsOrder(queue: seq<TreeNode>): (r: seq<string>)
    decreases QueueSize(queue)
    ensures |r| >= |queue|
  {
    if queue == [] then []
    else
      Dequeue(queue);
      [queue[0].id] + BfsOrder(queue[1..] + queue[0].children)
  }

  /** The walk visits every id of the queued subtrees, as often as it occurs there. */
  lemma {:induction false} BfsOrderIsPermutation(queue: seq<TreeNode>)
    ensures multiset(BfsOrder(queue)) == multiset(ForestIds(queue))
    decreases QueueSize(queue)
  {
    if queue != [] {
      Dequeue(queue);
      BfsOrderIsPermutation(queue[1..] + queue[0].children);
    }
  }

  /** The walk first visits the queued nodes themselves, in queue order. */
  lemma {:induction false} BfsOrderStartsWithQueue(queue: seq<TreeNode>)
    ensures BfsOrder(queue)[..|queue|] == IdsOf(queue)
    decreases QueueSize(queue)
  {
    if queue != [] {
      var next := queue[1..] + queue[0].children;
      Dequeue(queue);
      BfsOrderStartsWithQueue(next);
      IdsOfAppend(queue[1..], queue[0].children);
      PrefixOfCons(queue[0].id, BfsOrder(next), IdsOf(queue[1..]), IdsOf(queue[0].children));
      assert IdsOf(queue) == [queue[0].id] + IdsOf(queue[1..]);
    }
  }

  lemma PrefixOfCons(x: string, b: seq<string>, p: seq<string>, q: seq<string>)
    requires |b| >= |p + q| && b[..|p + q|] == p + q
    ensures ([x] + b)[..|p| + 1] == [x] + p
  {
    assert b[..|p|] == (p + q)[..|p|] == p;
  }

  /** A tree's breadth-first id list starts with the root and then lists the root's
      children in order. */
  lemma BfsOfTreeStart(t: TreeNode)
    ensures var ids := BfsOrder([t]);
      ids[0] == t.id && |ids| >= 1 + |t.children| && ids[1..1 + |t.children|] == IdsOf(t.children)
  {
    assert [t][1..] + t.children == t.children;
    assert BfsOrder([t]) == [t.id] + BfsOrder(t.children);
    BfsOrderStartsWithQueue(t.children);
  }

  /** A tree's breadth-first id list lists every id of the tree once per occurrence, so
      its length is the node count; with distinct ids, it has no repeats. */
  lemma BfsOfTreeIds(t: TreeNode)
    ensures var ids := BfsOrder([t]);
      && multiset(ids) == multiset(Ids(t))
      && |ids| == NodeCount(t)
      && (UniqueIds(t) ==> NoDup(ids))
  {
    var ids := BfsOrder([t]);
    BfsOrderIsPermutation([t]);
    ForestIdsSingle(t);
    IdsArePreorderIds(t);
    assert |ids| == |multiset(ids)| == |multiset(Ids(t))| == |Ids(t)|;
    if UniqueIds(t) {
      NoDupPermutation(Ids(t), ids);
    }
  }

  /** Collects every node id breadth-first with an explicit queue. */
  method CollectBfsIds(tree: TreeNode) returns (ids: seq<string>)
    ensures ids == BfsOrder([tree])
  {
    ids := [];
    var queue := [tree];
    while |queue| > 0
      invariant ids + BfsOrder(queue) == BfsOrder([tree])
      decreases QueueSize(queue)
    {
      var node := queue[0];
      Dequeue(queue);
      assert BfsOrder(queue) == [node.id] + BfsOrder(queue[1..] + node.children);
      queue := queue[1..];
      ids := ids + [node.id];
      queue := queue + node.children;
    }
  }

  // ---------------------------------------------------------------------------
  // The event schedule

  /** A crawl phase; `Idle` is the store's empty phase before any crawl. */
  datatype Phase = Idle | Root | Branches | CrossRefs | Done

  /** One callback invocation. */
  datatype Event =
    | PhaseChanged(phase: Phase, progress: int)
    | RootFound(root: TreeNode)
    | TreeReady(tree: TreeNode, crossRefs: seq<CrossRef>)
    | NodeRevealed(id: string)
    | Completed

  /** A scheduled callback: its delay in milliseconds and the events it emits, in order. */
  datatype Timer = Timer(delay: int, events: seq<Event>)

  /** The progress reported with reveal `i` of `n`: 20 + floor(50 i / n). */
  function RevealProgress(i: nat, n: nat): int
    requires i < n
  {
    20 + (i * 50) / n
  }

  function MinInt(a: int, b: int): int {
    if a < b then a else b
  }

  /** The timer of reveal `i` of `n`: a branch progress update, then the reveal. */
  function RevealTimer(id: string, i: nat, n: nat): Timer
    requires i < n
  {
    Timer(1500 + i * 180, [PhaseChanged(Branches, MinInt(RevealProgress(i, n), 70)), NodeRevealed(id)])
  }

  /** The reveal timers of the non-root ids, one per id, in order. */
  function RevealTimers(branch: seq<string>): (r: seq<Timer>)
    ensures |r| == |branch|
  {
    seq(|branch|, i requires 0 <= i < |branch| => RevealTimer(branch[i], i, |branch|))
  }

  /** The delay of the connection phase, half a second after the last reveal slot. */
  function ConnectionsDelay(n: nat): int {
    1500 + n * 180 + 500
  }

  /** The ids revealed one by one after the root (`slice(1)`). */
  function BranchIds(ids: seq<string>): seq<string> {
    if ids == [] then [] else ids[1..]
  }

  /** The first three timers: the root phase, the root's discovery and the branch phase. */
  function OpeningTimers(tree: TreeNode, crossRefs: seq<CrossRef>): seq<Timer> {
    [ Timer(300, [PhaseChanged(Root, 5)]),
      Timer(800, [PhaseChanged(Root, 15), RootFound(tree), TreeReady(tree, crossRefs), NodeRevealed(tree.id)]),
      Timer(1200, [PhaseChanged(Branches, 20)]) ]
  }

  /** The last three timers: two connection updates and completion. */
  function ClosingTimers(n: nat): seq<Timer> {
    var t := ConnectionsDelay(n);
    [ Timer(t, [PhaseChanged(CrossRefs, 75)]),
      Timer(t + 800, [PhaseChanged(CrossRefs, 90)]),
      Timer(t + 1500, [PhaseChanged(Done, 100), Completed]) ]
  }

  /** Every timer a crawl schedules, in scheduling order, for a tree whose breadth-first
      id list is `ids`. */
  function Schedule(tree: TreeNode, crossRefs: seq<CrossRef>, ids: seq<string>): seq<Timer> {
    var branch := BranchIds(ids);
    OpeningTimers(tree, crossRefs) + RevealTimers(branch) + ClosingTimers(|branch|)
  }

  /** Builds the schedule: three fixed timers, one per non-root id, then three more. */
  method BuildSchedule(tree: TreeNode, crossRefs: seq<CrossRef>, ids: seq<string>) returns (timers: seq<Timer>)
    ensures timers == Schedule(tree, crossRefs, ids)
  {
    timers := [Timer(300, [PhaseChanged(Root, 5)])];
    timers := timers + [Timer(800, [PhaseChanged(Root, 15), RootFound(tree), TreeReady(tree, crossRefs), NodeRevealed(tree.id)])];
    timers := timers + [Timer(1200, [PhaseChanged(Branches, 20)])];
    var branch := if ids == [] then [] else ids[1..];
    var n := |branch|;
    var i := 0;
    while i < n
      invariant 0 <= i <= n
      invariant timers == OpeningTimers(tree, crossRefs) + RevealTimers(branch)[..i]
    {
      var progress := 20 + (i * 50) / n;
      var capped := if progress < 70 then progress else 70;
      timers := timers + [Timer(1500 + i * 180, [PhaseChanged(Branches, capped), NodeRevealed(branch[i])])];
      assert RevealTimers(branch)[..i + 1] == RevealTimers(branch)[..i] + [RevealTimer(branch[i], i, n)];
      i := i + 1;
    }
    assert RevealTimers(branch)[..n] == RevealTimers(branch);
    var connections := 1500 + n * 180 + 500;
    timers := timers + [Timer(connections, [PhaseChanged(CrossRefs, 75)])];
    timers := timers + [Timer(connections + 800, [PhaseChanged(CrossRefs, 90)])];
    timers := timers + [Timer(connections + 1500, [PhaseChanged(Done, 100), Completed])];
  }

  // --- Properties of the schedule

  /** Reveal progress stays within 20..69, so the cap at 70 never applies, and it does not
      decrease from one reveal to the next. */
  lemma RevealProgressBounds(i: nat, j: nat, n: nat)
    requires i <= j < n
    ensures 20 <= RevealProgress(i, n) <= RevealProgress(j, n) <= 69
    ensures MinInt(RevealProgress(i, n), 70) == RevealProgress(i, n)
  {
    DivMonotone(i * 50, j * 50, n);
    var q := (j * 50) / n;
    assert q * n <= j * 50 < 50 * n;
    MulCancel(q, 50, n);
  }

  /** The schedule has six fixed timers plus one per non-root id. */
  lemma ScheduleLength(tree: TreeNode, crossRefs: seq<CrossRef>, ids: seq<string>)
    requires ids != []
    ensures |Schedule(tree, crossRefs, ids)| == |ids| + 5
  {
  }

  /** The timer at each position: the opening timers, then reveal `k` at position 3 + k,
      then the closing timers. */
  lemma ScheduleAt(tree: TreeNode, crossRefs: seq<CrossRef>, ids: seq<string>, i: nat)
    requires i < |Schedule(tree, crossRefs, ids)|
    ensures var branch := BranchIds(ids); var n := |branch|;
      Schedule(tree, crossRefs, ids)[i]
        == if i < 3 then OpeningTimers(tree, crossRefs)[i]
           else if i < 3 + n then RevealTimer(branch[i - 3], i - 3, n)
           else ClosingTimers(n)[i - 3 - n]
  {
  }

  /** Delays never decrease in scheduling order, so firing the timers in the order they
      were scheduled is firing them in time order. */
  lemma ScheduleDelaysNonDecreasing(tree: TreeNode, crossRefs: seq<CrossRef>, ids: seq<string>)
    ensures var s := Schedule(tree, crossRefs, ids);
      forall i, j :: 0 <= i <= j < |s| ==> s[i].delay <= s[j].delay
  {
    var s := Schedule(tree, crossRefs, ids);
    forall i, j | 0 <= i <= j < |s|
      ensures s[i].delay <= s[j].delay
    {
      ScheduleAt(tree, crossRefs, ids, i);
      ScheduleAt(tree, crossRefs, ids, j);
    }
  }

  /** Every timer opens with a phase update and emits no other one. */
  predicate OpensWithPhase(tm: Timer) {
    |tm.events| > 0 && tm.events[0].PhaseChanged?
    && forall k :: 1 <= k < |tm.events| ==> !tm.events[k].PhaseChanged?
  }

  /** The progress a timer reports (its opening phase update). */
  function TimerProgress(tm: Timer): int
    requires OpensWithPhase(tm)
  {
    tm.events[0].progress
  }

  /** Each timer reports exactly one progress value, those values never decrease in
      scheduling order, and the last one is 100. */
  lemma ScheduleProgressNonDecreasing(tree: TreeNode, crossRefs: seq<CrossRef>, ids: seq<string>)
    ensures var s := Schedule(tree, crossRefs, ids);
      && (forall i :: 0 <= i < |s| ==> OpensWithPhase(s[i]))
      && (forall i, j :: 0 <= i <= j < |s| ==> TimerProgress(s[i]) <= TimerProgress(s[j]))
      && TimerProgress(s[|s| - 1]) == 100
  {
    var s := Schedule(tree, crossRefs, ids);
    forall i | 0 <= i < |s|
      ensures OpensWithPhase(s[i])
    {
      ScheduleAt(tree, crossRefs, ids, i);
    }
    forall i, j | 0 <= i <= j < |s|
      ensures TimerProgress(s[i]) <= TimerProgress(s[j])
    {
      ScheduleProgressPair(tree, crossRefs, ids, i, j);
    }
    ScheduleAt(tree, crossRefs, ids, |s| - 1);
  }

  /** A later callback never reports less progress than an earlier one. */
  lemma ScheduleProgressPair(tree: TreeNode, crossRefs: seq<CrossRef>, ids: seq<string>, i: nat, j: nat)
    requires i <= j < |Schedule(tree, crossRefs, ids)|
    ensures var s := Schedule(tree, crossRefs, ids); TimerProgress(s[i]) <= TimerProgress(s[j])
  {
    var n := |BranchIds(ids)|;
    ScheduleAt(tree, crossRefs, ids, i);
    ScheduleAt(tree, crossRefs, ids, j);
    if 3 <= i < 3 + n {
      if j < 3 + n {
        RevealProgressBounds(i - 3, j - 3, n);
      } else {
        RevealProgressBounds(i - 3, i - 3, n);
      }
    } else if 3 <= j < 3 + n {
      RevealProgressBounds(j - 3, j - 3, n);
    }
  }

  /** Reveal timers report a progress of at most 69: the cap at 70 never applies. */
  lemma RevealTimersUncapped(branch: seq<string>, i: nat)
    requires i < |branch|
    ensures RevealTimers(branch)[i].delay == 1500 + 180 * i
    ensures RevealTimers(branch)[i].events
      == [PhaseChanged(Branches, RevealProgress(i, |branch|)), NodeRevealed(branch[i])]
    ensures RevealProgress(i, |branch|) <= 69
  {
    RevealProgressBounds(i, i, |branch|);
  }

  /** Completion is the very last event: the final timer reports done at 100 and then
      completes, and no other event anywhere is a completion. */
  lemma CompletionIsLast(tree: TreeNode, crossRefs: seq<CrossRef>, ids: seq<string>)
    ensures var s := Schedule(tree, crossRefs, ids);
      && s[|s| - 1].events == [PhaseChanged(Done, 100), Completed]
      && s[|s| - 1].delay == ConnectionsDelay(|BranchIds(ids)|) + 1500
      && forall i, k :: 0 <= i < |s| && 0 <= k < |s[i].events| && s[i].events[k].Completed? ==>
           i == |s| - 1 && k == |s[i].events| - 1
  {
    var s := Schedule(tree, crossRefs, ids);
    forall i, k | 0 <= i < |s| && 0 <= k < |s[i].events| && s[i].events[k].Completed?
      ensures i == |s| - 1 && k == |s[i].events| - 1
    {
      ScheduleAt(tree, crossRefs, ids, i);
    }
    ScheduleAt(tree, crossRefs, ids, |s| - 1);
  }

  // --- The reveal sequence

  /** Every event the timers emit, timer by timer. */
  function AllEvents(ts: seq<Timer>): seq<Event> {
    if ts == [] then [] else ts[0].events + AllEvents(ts[1..])
  }

  /** The ids of the reveal events, in order. */
  function Reveals(evs: seq<Event>): seq<string> {
    if evs == [] then []
    else (if evs[0].NodeRevealed? then [evs[0].id] else []) + Reveals(evs[1..])
  }

  lemma {:induction false} AllEventsAppend(a: seq<Timer>, b: seq<Timer>)
    ensures AllEvents(a + b) == AllEvents(a) + AllEvents(b)
  {
    if a == [] {
      assert a + b == b;
    } else {
      assert (a + b)[0] == a[0] && (a + b)[1..] == a[1..] + b;
      AllEventsAppend(a[1..], b);
      assert AllEvents(a + b) == a[0].events + (AllEvents(a[1..]) + AllEvents(b));
    }
  }

  lemma {:induction false} RevealsAppend(a: seq<Event>, b: seq<Event>)
    ensures Reveals(a + b) == Reveals(a) + Reveals(b)
  {
    if a == [] {
      assert a + b == b;
    } else {
      assert (a + b)[0] == a[0] && (a + b)[1..] == a[1..] + b;
      RevealsAppend(a[1..], b);
      var h := if a[0].NodeRevealed? then [a[0].id] else [];
      assert Reveals(a + b) == h + (Reveals(a[1..]) + Reveals(b));
    }
  }

  /** Timers that each reveal one id reveal those ids, in timer order. */
  lemma {:induction false} RevealsOfTimers(ts: seq<Timer>, ids: seq<string>)
    requires |ts| == |ids|
    requires forall i :: 0 <= i < |ts| ==> Reveals(ts[i].events) == [ids[i]]
    ensures Reveals(AllEvents(ts)) == ids
  {
    if ts != [] {
      RevealsAppend(ts[0].events, AllEvents(ts[1..]));
      RevealsOfTimers(ts[1..], ids[1..]);
    }
  }

  /** Events that reveal nothing contribute no ids. */
  lemma {:induction false} RevealsNone(evs: seq<Event>)
    requires forall k :: 0 <= k < |evs| ==> !evs[k].NodeRevealed?
    ensures Reveals(evs) == []
  {
    if evs != [] {
      RevealsNone(evs[1..]);
    }
  }

  lemma AllEventsOfThree(a: Timer, b: Timer, c: Timer)
    ensures AllEvents([a, b, c]) == a.events + b.events + c.events
  {
    assert [a, b, c][1..] == [b, c] && [b, c][1..] == [c] && [c][1..] == [];
    assert AllEvents([c]) == c.events + AllEvents([]) == c.events;
    assert AllEvents([b, c]) == b.events + AllEvents([c]);
  }

  /** The opening timers reveal the root only. */
  lemma OpeningReveals(tree: TreeNode, crossRefs: seq<CrossRef>)
    ensures Reveals(AllEvents(OpeningTimers(tree, crossRefs))) == [tree.id]
  {
    var o := OpeningTimers(tree, crossRefs);
    AllEventsOfThree(o[0], o[1], o[2]);
    var front := o[0].events + [PhaseChanged(Root, 15), RootFound(tree), TreeReady(tree, crossRefs)];
    assert AllEvents(o) == front + ([NodeRevealed(tree.id)] + o[2].events);
    RevealsNone(front);
    RevealsNone(o[2].events);
    RevealsAppend(front, [NodeRevealed(tree.id)] + o[2].events);
  }

  /** The closing timers reveal nothing. */
  lemma ClosingReveals(n: nat)
    ensures Reveals(AllEvents(ClosingTimers(n))) == []
  {
    var c := ClosingTimers(n);
    AllEventsOfThree(c[0], c[1], c[2]);
    RevealsNone(AllEvents(c));
  }

  /** The schedule reveals the root and then every non-root id, in order. */
  lemma ScheduleReveals(tree: TreeNode, crossRefs: seq<CrossRef>, ids: seq<string>)
    ensures Reveals(AllEvents(Schedule(tree, crossRefs, ids))) == [tree.id] + BranchIds(ids)
  {
    var branch := BranchIds(ids);
    var open, mid, close := OpeningTimers(tree, crossRefs), RevealTimers(branch), ClosingTimers(|branch|);
    AllEventsAppend(open + mid, close);
    AllEventsAppend(open, mid);
    RevealsAppend(AllEvents(open) + AllEvents(mid), AllEvents(close));
    RevealsAppend(AllEvents(open), AllEvents(mid));
    OpeningReveals(tree, crossRefs);
    ClosingReveals(|branch|);
    forall i | 0 <= i < |mid|
      ensures Reveals(mid[i].events) == [branch[i]]
    {
      var ev := mid[i].events;
      assert ev == [PhaseChanged(Branches, MinInt(RevealProgress(i, |branch|), 70)), NodeRevealed(branch[i])];
      assert ev[1..] == [NodeRevealed(branch[i])] && ev[1..][1..] == [];
      assert Reveals(ev[1..]) == [branch[i]] + Reveals([]);
    }
    RevealsOfTimers(mid, branch);
  }

  /** A crawl that runs to the end reveals every node of the selected tree exactly once,
      in breadth-first order, root first. */
  lemma CrawlRevealsEveryNodeOnce(keyword: string)
    ensures var d := SelectDataset(keyword);
      var ids := BfsOrder([d.tree]);
      var revealed := Reveals(AllEvents(Schedule(d.tree, d.crossRefs, ids)));
      && revealed == ids
      && |revealed| == NodeCount(d.tree)
      && multiset(revealed) == multiset(Ids(d.tree))
      && NoDup(revealed)
  {
    var d := SelectDataset(keyword);
    var ids := BfsOrder([d.tree]);
    BfsOfTreeStart(d.tree);
    BfsOfTreeIds(d.tree);
    SelectDatasetSpec(keyword);
    ScheduleReveals(d.tree, d.crossRefs, ids);
    assert ids == [ids[0]] + ids[1..];
  }

  // ---------------------------------------------------------------------------
  // A running crawl

  /** A started crawl: the timers not yet fired or cleared, the cancel flag, and the
      callbacks run so far. */
  class CrawlSession {
    var cancelled: bool
    var pending: seq<Timer>
    var log: seq<Event>

    constructor (timers: seq<Timer>)
      ensures !cancelled && pending == timers && log == []
    {
      cancelled := false;
      pending := timers;
      log := [];
    }

    /** The earliest pending timer fires; its callbacks run only when the crawl has not
        been cancelled. */
    method FireNext()
      modifies this
      ensures cancelled == old(cancelled)
      ensures pending == if old(pending) == [] then [] else old(pending)[1..]
      ensures log == if old(pending) != [] && !cancelled then old(log) + old(pending)[0].events else old(log)
    {
      if pending != [] {
        var t := pending[0];
        pending := pending[1..];
        if !cancelled {
          log := log + t.events;
        }
      }
    }

    /** Every pending timer fires, in order. */
    method RunAll()
      modifies this
      ensures cancelled == old(cancelled) && pending == []
      ensures log == if cancelled then old(log) else old(log) + AllEvents(old(pending))
    {
      while pending != []
        invariant cancelled == old(cancelled)
        invariant !cancelled ==> old(log) + AllEvents(old(pending)) == log + AllEvents(pending)
        invariant cancelled ==> log == old(log)
        decreases |pending|
      {
        ghost var before := pending;
        FireNext();
        assert AllEvents(before) == before[0].events + AllEvents(pending);
      }
    }

    /** The cancel function: raises the flag and clears every pending timer; no callback
        runs afterwards, and a second call leaves everything as the first left it. */
    method Cancel()
      modifies this
      ensures cancelled && pending == [] && log == old(log)
    {
      cancelled := true;
      pending := [];
    }
  }

  /** Starts a crawl: picks the dataset, lists its ids breadth-first and schedules every
      callback. */
  method StartCrawl(keyword: string) returns (session: CrawlSession)
    ensures fresh(session)
    ensures var d := SelectDataset(keyword);
      session.pending == Schedule(d.tree, d.crossRefs, BfsOrder([d.tree]))
      && !session.cancelled && session.log == []
  {
    var d := SelectDataset(keyword);
    var ids := CollectBfsIds(d.tree);
    var timers := BuildSchedule(d.tree, d.crossRefs, ids);
    session := new CrawlSession(timers);
  }

  // ---------------------------------------------------------------------------
  // Placing a new node

  /** The branch for a new node: the first existing branch unless it is missing or empty. */
  function ClassifyNodeBranch(existingBranches: seq<string>): (r: string)
    ensures r != ""
    ensures |existingBranches| > 0 && existingBranches[0] != "" ==> r == existingBranches[0]
    ensures (|existingBranches| == 0 || existingBranches[0] == "") ==> r == "general"
  {
    if |existingBranches| > 0 && existingBranches[0] != "" then existingBranches[0] else "general"
  }

  /** `a <= b` on years, where a missing year compares false. */
  predicate YearAtMost(a: Option<int>, b: Option<int>) {
    a.Some? && b.Some? && a.value <= b.value
  }

  /** The sort key of a candidate (every candidate has a year). */
  function YearKey(n: TreeNode): int {
    n.year.GetOr(0)
  }

  /** Inserts `x` ahead of the first element whose year is not greater than its own. */
  function InsertByYearDesc(x: TreeNode, s: seq<TreeNode>): seq<TreeNode> {
    if s == [] then [x]
    else if YearKey(s[0]) <= YearKey(x) then [x] + s
    else [s[0]] + InsertByYearDesc(x, s[1..])
  }

  /** A stable sort by descending year (`b.year - a.year`): equal years keep their order. */
  function SortByYearDesc(s: seq<TreeNode>): seq<TreeNode> {
    if s == [] then [] else InsertByYearDesc(s[0], SortByYearDesc(s[1..]))
  }

  /** Index of the first element with the greatest year (the reference for the sort's head). */
  function FirstLatestIndex(s: seq<TreeNode>): (k: nat)
    requires |s| > 0
    ensures k < |s|
    ensures forall j :: 0 <= j < |s| ==> YearKey(s[j]) <= YearKey(s[k])
    ensures forall j :: 0 <= j < k ==> YearKey(s[j]) < YearKey(s[k])
  {
    if |s| == 1 then 0
    else
      var k := FirstLatestIndex(s[1..]);
      if YearKey(s[0]) >= YearKey(s[1..][k]) then 0 else k + 1
  }

  lemma {:induction false} InsertHead(x: TreeNode, s: seq<TreeNode>)
    ensures |InsertByYearDesc(x, s)| == |s| + 1
    ensures s != [] && YearKey(s[0]) > YearKey(x) ==> InsertByYearDesc(x, s)[0] == s[0]
    ensures (s == [] || YearKey(s[0]) <= YearKey(x)) ==> InsertByYearDesc(x, s)[0] == x
  {
    if s != [] && YearKey(s[0]) > YearKey(x) {
      InsertHead(x, s[1..]);
    }
  }

  /** The head of the stable descending sort is the first-listed element of greatest year. */
  lemma {:induction false} SortHeadIsFirstLatest(s: seq<TreeNode>)
    requires |s| > 0
    ensures |SortByYearDesc(s)| == |s|
    ensures SortByYearDesc(s)[0] == s[FirstLatestIndex(s)]
  {
    if |s| == 1 {
      assert SortByYearDesc(s[1..]) == [];
    } else {
      SortHeadIsFirstLatest(s[1..]);
      InsertHead(s[0], SortByYearDesc(s[1..]));
    }
  }

  /** The existing nodes that may parent `newNode`, in their listed order: same branch,
      year not after the new node's. */
  function Candidates(newNode: TreeNode, existingNodes: seq<TreeNode>): seq<TreeNode> {
    Filter(existingNodes, (n: TreeNode) => n.branch == newNode.branch && YearAtMost(n.year, newNode.year))
  }

  /** The placeholder parent rule: among existing nodes of the same branch whose year is
      not after the new node's, the one with the latest year (the first listed on ties);
      failing that, the first existing node; none when there are no existing nodes. */
  function FindParentNode(newNode: TreeNode, existingNodes: seq<TreeNode>): Option<TreeNode> {
    var sameBranch := SortByYearDesc(Candidates(newNode, existingNodes));
    if |sameBranch| > 0 then Some(sameBranch[0])
    else if |existingNodes| > 0 then Some(existingNodes[0])
    else None
  }

  /** The parent found is the first-listed latest same-branch candidate when one exists,
      and otherwise the first existing node. */
  lemma FindParentNodeSpec(newNode: TreeNode, existingNodes: seq<TreeNode>)
    ensures var candidates := Candidates(newNode, existingNodes);
      var r := FindParentNode(newNode, existingNodes);
      && (|candidates| > 0 ==>
            && r == Some(candidates[FirstLatestIndex(candidates)])
            && r.value in existingNodes && r.value.branch == newNode.branch
            && YearAtMost(r.value.year, newNode.year))
      && (|candidates| == 0 && |existingNodes| > 0 ==> r == Some(existingNodes[0]))
      && (|existingNodes| == 0 ==> r.None?)
  {
    var candidates := Candidates(newNode, existingNodes);
    if |candidates| > 0 {
      SortHeadIsFirstLatest(candidates);
    }
  }
}
