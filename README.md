# xx-tree core in Dafny

xx-tree turns a search keyword into an animated "origin tree". This project models four parts of it and proves their properties:

- **The crawler** picks a dataset for the keyword. It lists the tree's node ids breadth-first and schedules timed callbacks. These report the crawl phase and progress and reveal the nodes one by one. The crawl can be cancelled.
- **The layout** places every node on a horizontal timeline and derives the links and curves between nodes.
- **The session store** holds the tree, the crawl state and the set of revealed node ids.
- **The view helpers** decide what the tree view and the detail panel show.

The modules are:

- `Wrappers`, `Seqs` and `Arith`: generic helpers (an option type, find and filter on sequences, a little integer arithmetic).
- `Tree`: tree nodes, cross-references, pre-order traversal, id lists and year lists.
- `Text`: JavaScript `trim`, the case-insensitive match of an anchored pattern, and `slice`.
- `Datasets`: the curated AI dataset, the generic template built from a keyword, and the colour and icon tables.
- `Crawler`: the crawl itself.
  - dataset selection;
  - the breadth-first id list, collected by a method with an explicit queue;
  - the timer schedule, built by a method;
  - a `CrawlSession` class whose timers fire in order and whose `Cancel` suppresses every timer not yet fired;
  - the placeholder rules for placing a new node.
- `Layout`: the `computeTreeLayout` pipeline as a method, plus its pieces:
  - height;
  - padded year extent;
  - linear time scale;
  - positioned nodes;
  - links;
  - edge curves and cross-reference arcs;
  - the timeline-tick loop.
- `Store`: the store as a class, one method per action, each stating the whole new state. Flattening is a recursive method.
- `Visualization`: cross-reference resolution, the reveal-order map (a loop), visibility predicates, node radii and label truncation.
- `DetailPanel`: the panel's parent, children, cross-reference neighbours and link test.

Each method is proved against a specification function. The properties the code promises are proved about those functions as lemmas.

D3's structural layout is an input to the model: the vertical position of the i-th visited node is the function `d3x`.

## Model

| member | source | states |
|---|---|---|
| Text.TrimSpec | src/services/crawlerService.js:38 | `trim` cuts only whitespace at both ends and leaves a contiguous piece with non-whitespace edges |
| Text.TrimEdges | src/services/crawlerService.js:38 | the trimmed string is no longer than the input and has no whitespace at either edge |
| Text.TrimSlice | src/services/crawlerService.js:38 | the trimmed string is the piece of the input starting after its leading whitespace |
| Text.TrimCuts | src/services/crawlerService.js:38 | every character `trim` cuts off, on either side, is whitespace |
| Text.TrimIdempotent | src/services/crawlerService.js:38 | trimming twice equals trimming once |
| Text.MatchesIgnoringCaseIsLowerEquality | src/services/crawlerService.js:38 | the `/i` whole-string match against a lower-case alternative holds iff the ASCII-lower-cased input equals it |
| Text.SliceTo | src/components/TreeVisualization.jsx:557 | `slice(0, end)` gives the prefix of length `end`; an end past the string gives the whole string, and a negative end counts from the end |
| Crawler.IsAIKeywordIff | src/services/crawlerService.js:38 | a keyword selects the AI dataset iff its trimmed, lower-cased form is one of the six alternatives |
| Crawler.MatchesSomeKeywordIff | src/services/crawlerService.js:38 | the six-way alternative matches a string iff its ASCII-lower-cased form is one of the six keywords |
| Crawler.SelectDatasetSpec | src/services/crawlerService.js:38-44 | either dataset has unique ids and resolving references; AI keywords get 'ai-root' (50 ids, 14 references); others get the ten-node 'root' template labelled with the untrimmed keyword |
| Crawler.SelectedAIDataset | src/services/crawlerService.js:38-39 | an AI keyword gets the curated tree: 'ai-root', 50 distinct ids, 14 resolving references |
| Crawler.SelectedGenericDataset | src/services/crawlerService.js:38-44 | any other keyword gets the ten-node template with the untrimmed keyword as root title, distinct ids and 2 resolving references |
| Crawler.Dequeue | src/services/crawlerService.js:49-54 | one dequeue-and-enqueue step removes exactly the head's id from the queued multiset and shrinks the queue size by one |
| Crawler.BfsOrderIsPermutation | src/services/crawlerService.js:47-55 | the walk visits every id of the queued subtrees exactly as often as it occurs |
| Crawler.BfsOrderStartsWithQueue | src/services/crawlerService.js:47-55 | the walk first lists the queued nodes in queue order |
| Crawler.BfsOfTreeStart | src/services/crawlerService.js:47-55 | the id list starts with the root, then the root's children in declared order |
| Crawler.BfsOfTreeIds | src/services/crawlerService.js:47-55 | the id list is a permutation of the tree's ids, its length is the node count, and with unique ids it has no repeats |
| Crawler.CollectBfsIds | src/services/crawlerService.js:47-55 | the queue loop yields exactly the breadth-first order |
| Crawler.BuildSchedule | src/services/crawlerService.js:57-101 | the scheduling code produces exactly the schedule: three opening timers, one per non-root id, three closing timers |
| Crawler.RevealProgressBounds | src/services/crawlerService.js:80-82 | reveal progress lies in 20..69, never decreases with the index, and the cap at 70 never applies |
| Crawler.ScheduleLength | src/services/crawlerService.js:58-101 | a crawl schedules N + 6 timers for N non-root ids |
| Crawler.ScheduleAt | src/services/crawlerService.js:58-101 | timer i is opening timer i for i < 3, then the reveal of branch id i−3 at 1500 + 180·(i−3), then the closing timers |
| Crawler.ScheduleDelaysNonDecreasing | src/services/crawlerService.js:58-101 | delays never decrease in scheduling order |
| Crawler.ScheduleProgressNonDecreasing | src/services/crawlerService.js:58-101 | every timer opens with exactly one phase update; progress never decreases and ends at 100 |
| Crawler.ScheduleProgressPair | src/services/crawlerService.js:58-101 | a later timer never reports less progress than an earlier one |
| Crawler.RevealTimersUncapped | src/services/crawlerService.js:78-85 | reveal i fires at 1500 + 180·i, reports branch progress 20 + ⌊50·i/N⌋ ≤ 69, and only then reveals its id |
| Crawler.CompletionIsLast | src/services/crawlerService.js:88-101 | the last timer fires at T + 2000 (with T = 1500 + 180·N), reports done/100 and then completes; no other event is a completion |
| Crawler.OpeningReveals | src/services/crawlerService.js:58-72 | the three opening timers reveal the root and nothing else |
| Crawler.ClosingReveals | src/services/crawlerService.js:88-101 | the three closing timers reveal nothing |
| Crawler.ScheduleReveals | src/services/crawlerService.js:58-101 | the whole schedule reveals the root, then every non-root id in list order |
| Crawler.CrawlRevealsEveryNodeOnce | src/services/crawlerService.js:25-101 | a crawl run to the end reveals each node of the chosen tree exactly once, in breadth-first order: NodeCount reveals, no repeats |
| Crawler.CrawlSession.constructor | src/services/crawlerService.js:27-28 | a new session is not cancelled, has all timers pending and has run nothing |
| Crawler.CrawlSession.FireNext | src/services/crawlerService.js:30-35 | the earliest pending timer leaves the queue; its events run only when the session is not cancelled |
| Crawler.CrawlSession.RunAll | src/services/crawlerService.js:30-35 | firing every pending timer appends all their events in order, or nothing once cancelled |
| Crawler.CrawlSession.Cancel | src/services/crawlerService.js:104-107 | cancel raises the flag, clears every pending timer and runs nothing; a second call leaves the same state |
| Crawler.StartCrawl | src/services/crawlerService.js:25-108 | a new session holds exactly the schedule of the chosen dataset's breadth-first ids, uncancelled and with nothing run |
| Crawler.ClassifyNodeBranch | src/services/crawlerService.js:114-117 | the branch is the first existing branch when it is non-empty, and 'general' otherwise; it is never empty |
| Crawler.FirstLatestIndex | src/services/crawlerService.js:125-127 | the index chosen has the greatest year, and every earlier element has a smaller year |
| Crawler.SortHeadIsFirstLatest | src/services/crawlerService.js:127 | the head of the stable descending sort by year is the first-listed element with the greatest year |
| Crawler.FindParentNodeSpec | src/services/crawlerService.js:123-129 | the parent is the first-listed latest same-branch node with year ≤ the new node's; failing that the first existing node; with no existing nodes, none |
| Layout.ApplyEnds | src/utils/treeLayout.js:58-60 | the time scale maps the extent's ends to the range's ends |
| Layout.ApplyMonotone | src/utils/treeLayout.js:58-60 | on an increasing domain and range, the scale never maps an earlier year to the right of a later one |
| Layout.DynamicHeight | src/utils/treeLayout.js:33-34 | the height is at least the requested height and at least the leaf rows' need, and is one of the two |
| Layout.PaddedExtentSpec | src/utils/treeLayout.js:44-55 | with no non-zero years the extent is 1935..2028; otherwise min − 5 .. max + 2; every year lies inside, and the span is at least 7 |
| Layout.VisitsArePreorder | src/utils/treeLayout.js:30 | the hierarchy visits every tree node once, in pre-order |
| Layout.VisitsParented | src/utils/treeLayout.js:74-79 | every visit after the root is deeper than the root and has a parent in the tree that lists it as a child |
| Layout.VisitYearsAreTruthyYears | src/utils/treeLayout.js:44-47 | the collected years are exactly the tree's non-zero present years, in visit order |
| Layout.CollectYears | src/utils/treeLayout.js:44-47 | the year-collecting loop yields exactly the visits' non-zero years |
| Layout.PlaceNodes | src/utils/treeLayout.js:63-81 | the node loop yields exactly one positioned node per visit |
| Layout.BuildLinks | src/utils/treeLayout.js:84-95 | the link loop yields exactly the links of the parent/child pairs whose ends are found |
| Layout.ComputeTreeLayout | src/utils/treeLayout.js:19-98 | a missing tree gives no nodes, no links and extent 1940..2026; otherwise the height, extent, time scale, nodes and links are those of the specification functions |
| Layout.LayoutTree | src/utils/treeLayout.js:30-97 | for a present tree, the height, extent, time scale, nodes and links are those of the specification functions |
| Layout.PadExtent | src/utils/treeLayout.js:44-55 | the extent computed from the collected years is the padded extent, with 1940/2026 for missing or zero ends |
| Layout.PlacedNodesSpec | src/utils/treeLayout.js:63-81 | one positioned node per tree node, with that node's id, label, type, year and branch; depth 0 and no parent id exactly at the root; every other node gets its parent's id |
| Layout.PlacedNodesX | src/utils/treeLayout.js:58-76 | x is the scale at the year, or at the extent's start for a falsy year; equal years give equal x, and earlier years never lie right of later ones |
| Layout.HierarchyEdgesOfParented | src/utils/treeLayout.js:85 | visits that all have a parent give one parent/child pair each, in order |
| Layout.LinksOfSpec | src/utils/treeLayout.js:84-95 | when every pair's ends are positioned, there is one link per pair, named `source->target` and joining those positioned nodes |
| Layout.TreeEdges | src/utils/treeLayout.js:85 | a tree has NodeCount − 1 parent/child pairs, one per non-root visit |
| Layout.EdgeEndsPlaced | src/utils/treeLayout.js:86-88 | both ends of every pair are positioned nodes, so no link is dropped |
| Layout.LayoutLinksSpec | src/utils/treeLayout.js:84-95 | exactly NodeCount − 1 links, link k from visit k+1's parent to that visit, with id `parent->child` and both ends among the positioned nodes |
| Layout.FoundById | src/utils/treeLayout.js:86-87 | a lookup by a present id finds a positioned node carrying it |
| Layout.LinkPathSpec | src/utils/treeLayout.js:103-106 | the edge curve is a cubic from source to target with control points (midX, source.y) and (midX, target.y); drawn backwards it is the same curve reversed |
| Layout.CrossRefPathSpec | src/utils/treeLayout.js:111-119 | no arc iff an endpoint is missing; otherwise a quadratic whose control point is the midpoint moved 60 up when the source is lower, else 60 down; swapping the ends flips the side |
| Layout.TimelineTicks | src/utils/treeLayout.js:124-135 | the tick loop yields the tick years in order, each placed at the time scale's value for its year |
| Layout.TickFirst | src/utils/treeLayout.js:126-128 | the first tick is the first multiple, and there is a tick exactly when that multiple is within the last |
| Layout.TickNext | src/utils/treeLayout.js:128 | each tick is one step after the previous, and another tick follows exactly when that year is within the last multiple |
| Layout.TickCountSpec | src/utils/treeLayout.js:128 | the loop runs once per multiple of the step from start to end |
| Layout.MultipleBounds | src/utils/treeLayout.js:126-127 | the start is the least multiple of the step not below the extent's low end, and the end is the greatest multiple not above its high end |
| Layout.TickYearsInside | src/utils/treeLayout.js:124-135 | every tick is a multiple of the step inside the extent |
| Layout.MultipleBetween | src/utils/treeLayout.js:126-127 | every multiple of the step inside the extent lies between the start and the end |
| Layout.MultipleIsTick | src/utils/treeLayout.js:124-135 | every multiple of the step inside the extent is a tick |
| Layout.TickYearsSpec | src/utils/treeLayout.js:124-135 | the ticks are exactly the multiples of the step inside the extent, rising by the step |
| Store.Flatten | src/store/useTreeStore.js:47-52 | the recursive flatten appends exactly the tree's flat list |
| Store.FlatIsVisits | src/store/useTreeStore.js:48-50 | flat entry i is visit i's node at its depth, with its number of children |
| Store.FlatSpec | src/store/useTreeStore.js:45-54 | one entry per node in pre-order; root at depth 0, every other node deeper; childCount is the number of children; the ids are the tree's ids |
| Store.TreeStore.constructor | src/store/useTreeStore.js:9-24 | a new store holds every initial value |
| Store.TreeStore.SetKeyword | src/store/useTreeStore.js:27 | only the keyword changes |
| Store.TreeStore.StartCrawl | src/store/useTreeStore.js:29-41 | sets the keyword, crawling, phase root, progress 0 and searched; clears the tree, references, flat nodes, revealed ids, selection and queue; keeps the hovered node |
| Store.TreeStore.SetCrawlPhase | src/store/useTreeStore.js:43 | stores the phase and progress as given and touches nothing else |
| Store.TreeStore.SetTreeData | src/store/useTreeStore.js:45-54 | stores the tree and the references (none when not given) and the tree's flat list (empty without a tree); nothing else changes |
| Store.TreeStore.RevealNode | src/store/useTreeStore.js:56-60 | the revealed set gains exactly the id and stays repeat-free; nothing else changes |
| Store.TreeStore.RevealNodes | src/store/useTreeStore.js:62-66 | the revealed set becomes the union with the given ids, in insertion order; nothing else changes |
| Store.TreeStore.FinishCrawl | src/store/useTreeStore.js:68 | not crawling, phase done, progress 100; nothing else changes |
| Store.TreeStore.SelectNode | src/store/useTreeStore.js:70 | only the selection changes |
| Store.TreeStore.ClearSelection | src/store/useTreeStore.js:71 | only the selection is cleared |
| Store.TreeStore.SetHoveredNode | src/store/useTreeStore.js:72 | only the hovered node changes |
| Store.TreeStore.GetNodeById | src/store/useTreeStore.js:75 | the first flat node with the id, and none exactly when no flat node has it |
| Store.TreeStore.Reset | src/store/useTreeStore.js:78-91 | every field returns to its initial value |
| Store.AddedSpec | src/store/useTreeStore.js:56-60 | adding keeps every element and adds exactly the id, keeps the set repeat-free, and re-adding changes nothing |
| Store.AddedAllSnoc | src/store/useTreeStore.js:62-66 | adding a list then one more id equals adding that id to the list's result |
| Store.AddedAllSpec | src/store/useTreeStore.js:62-66 | adding a list gives exactly the union, old elements first and in order, without repeats |
| Datasets.GenericRoot | src/data/mockData.js:572-582 | the generic root is 'root', labelled with the trimmed keyword, a discipline of 1900 on branch 'root' |
| Datasets.GenericShape | src/data/mockData.js:584-622 | three branches 'origins', 'golden-age', 'modern-era', each with two leaves: ten nodes |
| Datasets.GenericLabels | src/data/mockData.js:586-612 | the branch labels are "Origins of kw", "kw Golden Age" and "Modern kw" for the trimmed keyword |
| Datasets.GenericIdList | src/data/mockData.js:576-622 | the ten generic ids in pre-order, the same for every keyword |
| Datasets.GenericYearsInOrder | src/data/mockData.js:576-622 | the generic years in pre-order: 1900, 1910, 1920, 1935, 1950, 1960, 1975, 2000, 2005, 2024 |
| Datasets.GenericNodeCount | src/data/mockData.js:576-622 | the generic tree has ten nodes |
| Datasets.GenericIdsUnique | src/data/mockData.js:576-622 | the ten generic ids are distinct |
| Datasets.GenericYears | src/data/mockData.js:576-622 | every generic node has a non-zero year, from 1900 to 2024 |
| Datasets.GenericCrossRefs | src/data/mockData.js:626-629 | two references, early-2→key-innovation and commercial→digital, both resolving |
| Datasets.AIRoot | src/data/mockData.js:15-546 | the AI root is 'ai-root', a discipline of 1956 with seven branches |
| Datasets.AIIdsByBranch | src/data/mockData.js:15-546 | the AI ids in pre-order are 'ai-root' followed by the ids of the seven branches, branch by branch |
| Datasets.AIIdListNoDup | src/data/mockData.js:15-546 | that list of 50 ids has no repeats |
| Datasets.AIIdsUnique | src/data/mockData.js:15-546 | the AI tree has 50 distinct ids |
| Datasets.AICrossRefsResolve | src/data/mockData.js:548-563 | all 14 AI references name existing node ids |
| Datasets.AIRefEndsInAIIds | src/data/mockData.js:548-563 | both ends of each of the 14 references are in the AI id list |
| Datasets.InAIHistory | src/data/mockData.js:15-546 | every id of the AI id list is an id of the AI tree |
| Datasets.AITagged | src/data/mockData.js:15-546 | every AI node's branch is one of the eight AI branch keys and its type one of the six types (so also for any larger sets of keys) |
| Datasets.GenericTagged | src/data/mockData.js:576-622 | every generic node's branch is one of 'root', 'origins', 'golden-age', 'modern' and its type one of the six types |
| Datasets.TypeTablesAgree | src/data/mockData.js:650-667 | the icon table and the type-colour table have the same six keys |
| Datasets.TaggedNodesHaveColours | src/data/mockData.js:635-667 | in a tree whose branches and types are keys of the colour tables, every node has a branch colour, a type colour and an icon |
| Datasets.AINodesHaveColours | src/data/mockData.js:635-667 | every AI node's branch and type are keys of the colour tables |
| Datasets.GenericNodesHaveColours | src/data/mockData.js:635-667 | every generic node's branch and type are keys of the colour tables |
| Visualization.ViewLayout | src/components/TreeVisualization.jsx:28-35 | without a tree, the empty layout with extent 1940..2026 and height 800; otherwise the tree laid out with the view's options: its height, padded year extent, time scale, positioned nodes and parent-child links |
| Visualization.ViewTicks | src/components/TreeVisualization.jsx:39-42 | no ticks without a time scale; otherwise a tick every five years across the extent, placed by the scale |
| Visualization.ResolveRefsFilter | src/components/TreeVisualization.jsx:44-52 | the drawn references are exactly those with both ends positioned, in their original order |
| Visualization.ResolveRefsEnds | src/components/TreeVisualization.jsx:46-50 | each drawn reference joins the positioned nodes carrying its ids, along its arc |
| Visualization.FindByIdSpec | src/components/TreeVisualization.jsx:47-48 | a lookup by id succeeds iff the id is positioned, and returns a node carrying it |
| Visualization.AllResolvingRefsDrawn | src/components/TreeVisualization.jsx:44-52 | over a laid-out tree whose references all resolve, every reference is drawn, in order |
| Visualization.NodeAnimationMap | src/components/TreeVisualization.jsx:54-58 | the map's keys are the revealed ids, and each value is that id's last position |
| Visualization.AnimationOrderOfSet | src/components/TreeVisualization.jsx:54-58 | over a repeat-free revealed list, each id maps to its own index; the values are distinct and exactly 0..size−1 |
| Visualization.CrawledTreeFullyShown | src/components/TreeVisualization.jsx:60-66 | after a complete crawl every node, tree link and cross-reference of the chosen dataset is shown |
| Visualization.CrawlRevealedSet | src/components/TreeVisualization.jsx:56 | after a complete crawl the store holds every tree id once |
| Visualization.ShownWhenAllRevealed | src/components/TreeVisualization.jsx:60-66 | with every id revealed, all positioned nodes, all tree links and all resolving references are visible |
| Visualization.AddedAllOfSet | src/store/useTreeStore.js:62-66 | adding repeat-free ids to an empty set keeps them as they are |
| Visualization.NodeRadius | src/components/TreeVisualization.jsx:389 | the radius is 22, 16 or 11 |
| Visualization.NodeRadiusOrder | src/components/TreeVisualization.jsx:389 | deeper nodes are never larger, and only the root gets radius 22 |
| Visualization.TruncateLabelSpec | src/components/TreeVisualization.jsx:555-558 | missing or empty text gives ""; text within max is kept; longer text keeps max − 1 characters plus an ellipsis, max in all |
| Visualization.NodeLabel | src/components/TreeVisualization.jsx:484 | a label is at most 30 characters at the root and 22 elsewhere |
| DetailPanel.ParentSpec | src/components/NodeDetailPanel.jsx:13 | no parent without a non-empty parent id; otherwise the first flat node with that id, present iff some flat node has it |
| DetailPanel.ChildrenOfFlatNodesEmpty | src/components/NodeDetailPanel.jsx:16 | fed the store's flat nodes, which carry no parent id, the children list is empty |
| DetailPanel.RefsSpec | src/components/NodeDetailPanel.jsx:19 | the touching references are exactly those with the node at either end |
| DetailPanel.OtherIdSpec | src/components/NodeDetailPanel.jsx:21 | the other end is one of the reference's ends; unless the reference is a self-loop, it is not the node, whichever way the reference points |
| DetailPanel.FindFlatSpec | src/components/NodeDetailPanel.jsx:22 | a flat lookup succeeds iff the id is among the flat ids |
| DetailPanel.CrossNodesRefs | src/components/NodeDetailPanel.jsx:20-24 | the listed neighbours are, in order, exactly the references whose other end is a flat node |
| DetailPanel.CrossNodesOthers | src/components/NodeDetailPanel.jsx:20-24 | each neighbour is a flat node carrying its reference's other id |
| DetailPanel.NoNeighbourDropped | src/components/NodeDetailPanel.jsx:20-24 | with a tree's flat nodes and resolving references, every touching reference is listed |
| DetailPanel.ParentOfPlacedNode | src/components/NodeDetailPanel.jsx:13 | for a positioned node of a tree with unique ids, the panel's parent is the flat entry of the tree node that lists it as a child |
| DetailPanel.OfficialLinkSpec | src/components/NodeDetailPanel.jsx:49 | the link shows iff the url is present, non-empty and not "#" |

## Left out

- D3's structural layout (`d3.hierarchy`, `d3.tree`, the separation rule) is a foreign library. Its vertical coordinate is the input function `d3x`, indexed by visit position.
- D3 visits nodes breadth-first. The model visits them in pre-order, so node order and link order are pre-order. The properties stated (one node per tree node, one link per parent/child pair, ids, depths, parents) do not depend on the order.
- Floating point is not modelled: the time scale and path coordinates use `real`. Reveal progress is the exact ⌊50·i/N⌋. JavaScript computes `Math.floor((i / N) * 50)` in doubles, which can be one less (i = 29, N = 50 gives 28 there).
- `d3.scaleLinear` over a one-year domain is modelled as mapping every year to the range's midpoint. The padded extent always spans at least seven years, so this case does not arise from the layout.
- Real time and the event loop (`setTimeout`, `clearTimeout`) are not modelled. The schedule is a list of timers fired in list order, and the delays are proved non-decreasing. Equal delays keep scheduling order, which matches the timer queue's order.
- Callbacks the caller leaves out (`onPhase?.` and the others) are not modelled. The session records every event as if all callbacks were given.
- String lengths are counted in characters, not UTF-16 code units. Label truncation therefore differs for characters outside the Basic Multilingual Plane.
- `trim` whitespace and the `/i` match cover only the character classes the model lists (ASCII letters fold case).
- Node descriptions, urls, `encodeURIComponent` and label prose of the AI dataset are not modelled. The panel's url is a parameter.
- The positioned node's `structuralX` field (d3's coordinate plus the left padding, src/utils/treeLayout.js:78) is not modelled: nothing in the view reads it.
- The mock datasets keep only ids, labels of the generic template, types, years, branches and cross-references.
- Zustand subscriptions, React hooks, memoisation, rendering, zoom, pan, transitions and the particle components are not modelled.
- The wiring in src/App.jsx (cancelling the previous crawl before a new one, forwarding callbacks into the store) is not part of this model.
- SearchBar, Legend and CrawlStatus are UI only.
- Store.TreeStore.SelectNode: the store holds the selected node's id, not the node object. Store.TreeStore.SetHoveredNode likewise holds only the id.
- Store.TreeStore.SetTreeData: an explicit `null` for the cross-references is stored as `null` in the source, while the model stores the empty list for any missing value.
- Layout.TimelineTicks: requires a positive step. With step 0 or a negative step the source's loop does not end, or counts the wrong way.
- Crawler.FindParentNode: years are integers or missing. The source's `null <= year` comparison (null treated as 0) and `NaN` sort keys are not modelled.
- The store's `animationQueue` is only ever reset to empty in the core, so it is modelled as a field that actions clear or keep.
