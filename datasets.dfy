/** The two dataset sources: the curated AI-history tree and the
    templated tree built for any other keyword, with their cross-references
    and the colour/icon tables keyed by branch and node type. */
module Datasets {
  import opened Wrappers
  import opened Seqs
  import opened Tree
  import opened Text

  /** A node with a present year. */
  function Node(id: string, title: string, kind: string, year: int, branch: string, children: seq<TreeNode>): TreeNode {
    TreeNode(id, title, kind, Some(year), branch, children)
  }

  /** A dataset as returned by a generator: the tree and its cross-references. */
  datatype Dataset = Dataset(tree: TreeNode, crossRefs: seq<CrossRef>)

  function NeuralNetworks(): TreeNode {
    Node("nn", "Neural Networks", "concept", 1943, "neural-networks", [
      Node("mcp-neuron", "McCulloch–Pitts Neuron", "paper", 1943, "neural-networks", []),
      Node("perceptron", "Perceptron", "paper", 1957, "neural-networks", []),
      Node("backprop", "Backpropagation", "paper", 1986, "neural-networks", [
        Node("lenet", "LeNet-5", "paper", 1998, "neural-networks", [])]),
      Node("deep-learning", "Deep Learning Revival", "milestone", 2006, "neural-networks", [
        Node("alexnet", "AlexNet", "paper", 2012, "neural-networks", []),
        Node("resnet", "ResNet", "paper", 2015, "neural-networks", [])]),
      Node("transformer", "Transformer", "paper", 2017, "neural-networks", [])])
  }

  function Nlp(): TreeNode {
    Node("nlp", "Natural Language Processing", "concept", 1950, "nlp", [
      Node("turing-test", "Turing Test", "paper", 1950, "nlp", []),
      Node("eliza", "ELIZA", "software", 1966, "nlp", []),
      Node("word2vec", "Word2Vec", "paper", 2013, "nlp", []),
      Node("bert", "BERT", "paper", 2018, "nlp", []),
      Node("gpt", "GPT", "paper", 2018, "nlp", [
        Node("gpt3", "GPT-3", "software", 2020, "nlp", [
          Node("chatgpt", "ChatGPT", "software", 2022, "nlp", [
            Node("gpt4", "GPT-4", "software", 2023, "nlp", [])])])]),
      Node("claude", "Claude", "software", 2023, "nlp", [
        Node("claude3", "Claude 3", "software", 2024, "nlp", [])]),
      Node("llama", "LLaMA", "software", 2023, "nlp", [])])
  }

  function ComputerVision(): TreeNode {
    Node("cv", "Computer Vision", "concept", 1966, "computer-vision", [
      Node("imagenet", "ImageNet", "event", 2009, "computer-vision", []),
      Node("yolo", "YOLO", "paper", 2015, "computer-vision", []),
      Node("vit", "Vision Transformer (ViT)", "paper", 2020, "computer-vision", [])])
  }

  function ReinforcementLearning(): TreeNode {
    Node("rl", "Reinforcement Learning", "concept", 1992, "reinforcement-learning", [
      Node("td-learning", "TD-Learning", "paper", 1988, "reinforcement-learning", []),
      Node("deep-blue", "Deep Blue", "event", 1997, "reinforcement-learning", []),
      Node("dqn", "DQN", "paper", 2013, "reinforcement-learning", [
        Node("alphago", "AlphaGo", "event", 2016, "reinforcement-learning", [
          Node("alphafold", "AlphaFold", "software", 2020, "reinforcement-learning", [])])])])
  }

  function GenerativeAI(): TreeNode {
    Node("gen-ai", "Generative AI", "concept", 2014, "generative-ai", [
      Node("gan", "GANs", "paper", 2014, "generative-ai", [
        Node("stylegan", "StyleGAN", "paper", 2018, "generative-ai", [])]),
      Node("diffusion", "Diffusion Models", "paper", 2020, "generative-ai", [
        Node("dalle", "DALL·E", "software", 2021, "generative-ai", []),
        Node("stable-diffusion", "Stable Diffusion", "software", 2022, "generative-ai", []),
        Node("midjourney", "Midjourney", "software", 2022, "generative-ai", []),
        Node("sora", "Sora", "software", 2024, "generative-ai", [])])])
  }

  function Knowledge(): TreeNode {
    Node("knowledge", "Expert Systems & Knowledge", "concept", 1965, "knowledge", [
      Node("dendral", "DENDRAL", "software", 1965, "knowledge", []),
      Node("expert-boom", "Expert Systems Boom", "event", 1980, "knowledge", []),
      Node("watson", "IBM Watson", "event", 2011, "knowledge", []),
      Node("knowledge-graph", "Google Knowledge Graph", "software", 2012, "knowledge", [])])
  }

  function Robotics(): TreeNode {
    Node("robotics", "Robotics & Embodied AI", "concept", 1961, "robotics", [
      Node("unimate", "Unimate", "event", 1961, "robotics", []),
      Node("roomba", "Roomba", "software", 2002, "robotics", []),
      Node("boston-dynamics", "Atlas (Boston Dynamics)", "event", 2013, "robotics", []),
      Node("tesla-bot", "Tesla Optimus", "event", 2024, "robotics", [])])
  }

  /** The curated AI-history dataset. */
  function AIHistory(): Dataset {
    Dataset(AITree(), AICrossRefs())
  }

  /** The AI history tree: the root and its seven branches. */
  function AITree(): TreeNode {
    Node("ai-root", "Artificial Intelligence", "discipline", 1956, "root", [
      NeuralNetworks(), Nlp(), ComputerVision(), ReinforcementLearning(),
      GenerativeAI(), Knowledge(), Robotics()])
  }

  /** The fourteen cross-references between branches of the AI dataset. */
  function AICrossRefs(): seq<CrossRef> {
      [ CrossRef("transformer", "bert", "Architecture basis"),
        CrossRef("transformer", "gpt", "Architecture basis"),
        CrossRef("transformer", "vit", "Adapted to vision"),
        CrossRef("backprop", "word2vec", "Training method"),
        CrossRef("alexnet", "imagenet", "Won challenge"),
        CrossRef("dqn", "deep-learning", "Applied deep learning"),
        CrossRef("gpt3", "dalle", "Shared architecture"),
        CrossRef("diffusion", "sora", "Core technique"),
        CrossRef("alphago", "alphafold", "Evolved from"),
        CrossRef("lenet", "alexnet", "Inspired architecture"),
        CrossRef("gan", "diffusion", "Generative paradigm shift"),
        CrossRef("chatgpt", "claude", "Market competition"),
        CrossRef("stable-diffusion", "midjourney", "Same era"),
        CrossRef("resnet", "vit", "Benchmark comparison") ]
  }

  /** The templated dataset for any other keyword, built from the trimmed keyword. */
  function GenericTree(keyword: string): Dataset {
    var kw := Trim(keyword);
    Dataset(
      Node("root", kw, "discipline", 1900, "root", [
        Node("origins", "Origins of " + kw, "concept", 1910, "origins", [
          Node("early-1", "Early Theories", "paper", 1920, "origins", []),
          Node("early-2", "First Experiments", "event", 1935, "origins", [])]),
        Node("golden-age", kw + " Golden Age", "concept", 1950, "golden-age", [
          Node("key-innovation", "Key Innovation", "milestone", 1960, "golden-age", []),
          Node("commercial", "Commercialization", "software", 1975, "golden-age", [])]),
        Node("modern-era", "Modern " + kw, "concept", 2000, "modern", [
          Node("digital", "Digital Revolution", "event", 2005, "modern", []),
          Node("current", "Current State", "milestone", 2024, "modern", [])])]),
      [ CrossRef("early-2", "key-innovation", "Led to"),
        CrossRef("commercial", "digital", "Enabled by") ])
  }

  /** Colour per branch tag. */
  const BranchColors: map<string, string> := map[
    "root" := "#ffffff",
    "neural-networks" := "#4a9eff",
    "nlp" := "#4aff9e",
    "computer-vision" := "#ff9e4a",
    "reinforcement-learning" := "#ff4a8a",
    "generative-ai" := "#c84aff",
    "knowledge" := "#ffea4a",
    "robotics" := "#4affea",
    "origins" := "#9e9eff",
    "golden-age" := "#ffcc4a",
    "modern" := "#4affb8"]

  /** Icon per node type. */
  const NodeIcons: map<string, string> := map[
    "discipline" := "\U{25C9}",
    "concept" := "\U{25C8}",
    "paper" := "\U{1F4C4}",
    "software" := "\U{2699}",
    "event" := "\U{2B50}",
    "milestone" := "\U{1F3C1}"]

  /** Colour per node type. */
  const TypeColors: map<string, string> := map[
    "discipline" := "#ffffff",
    "concept" := "#b8b8ff",
    "paper" := "#4a9eff",
    "software" := "#4aff9e",
    "event" := "#ffaa4a",
    "milestone" := "#ff4a8a"]

  /** The six node types. */
  const NodeTypes: set<string> := {"discipline", "concept", "paper", "software", "event", "milestone"}

  // ---------------------------------------------------------------------------
  // The generic template

  /** The generic root: id 'root', the trimmed keyword as label, a discipline of 1900. */
  lemma GenericRoot(keyword: string)
    ensures var t := GenericTree(keyword).tree;
      t.id == "root" && t.title == Trim(keyword) && t.kind == "discipline"
      && t.year == Some(1900) && t.branch == "root"
  {
  }

  lemma ForestOfTwo(a: TreeNode, b: TreeNode)
    ensures ForestIds([a, b]) == Ids(a) + Ids(b)
  {
    ForestCons(b, []);
    assert [b] + [] == [b];
    ForestCons(a, [b]);
    assert [a] + [b] == [a, b];
  }

  lemma ForestOfThree(a: TreeNode, b: TreeNode, c: TreeNode)
    ensures ForestIds([a, b, c]) == Ids(a) + Ids(b) + Ids(c)
  {
    ForestOfTwo(b, c);
    ForestCons(a, [b, c]);
    assert [a] + [b, c] == [a, b, c];
  }

  lemma ForestYearsOfTwo(a: TreeNode, b: TreeNode)
    ensures ForestTruthyYears([a, b]) == TruthyYears(a) + TruthyYears(b)
  {
    ForestCons(b, []);
    assert [b] + [] == [b];
    ForestCons(a, [b]);
    assert [a] + [b] == [a, b];
  }

  lemma ForestYearsOfThree(a: TreeNode, b: TreeNode, c: TreeNode)
    ensures ForestTruthyYears([a, b, c]) == TruthyYears(a) + TruthyYears(b) + TruthyYears(c)
  {
    ForestYearsOfTwo(b, c);
    ForestCons(a, [b, c]);
    assert [a] + [b, c] == [a, b, c];
  }

  /** A node with two leaf children, as every generic branch is. */
  lemma TwoLeaves(n: TreeNode, a: TreeNode, b: TreeNode)
    requires n.children == [a, b] && a.children == [] && b.children == []
    ensures Ids(n) == [n.id, a.id, b.id]
  {
    ForestOfTwo(a, b);
  }

  lemma TwoLeavesYears(n: TreeNode, a: TreeNode, b: TreeNode)
    requires n.children == [a, b] && a.children == [] && b.children == []
    requires TruthyYear(n.year) && TruthyYear(a.year) && TruthyYear(b.year)
    ensures TruthyYears(n) == [n.year.value, a.year.value, b.year.value]
  {
    ForestYearsOfTwo(a, b);
  }

  /** The generic tree's id list, the same for every keyword. */
  lemma GenericIdList(keyword: string)
    ensures Ids(GenericTree(keyword).tree) == GenericIds()
  {
    var c := GenericTree(keyword).tree.children;
    TwoLeaves(c[0], c[0].children[0], c[0].children[1]);
    TwoLeaves(c[1], c[1].children[0], c[1].children[1]);
    TwoLeaves(c[2], c[2].children[0], c[2].children[1]);
    ForestOfThree(c[0], c[1], c[2]);
  }

  /** The generic tree's years in pre-order, the same for every keyword. */
  lemma GenericYearsInOrder(keyword: string)
    ensures TruthyYears(GenericTree(keyword).tree) == GenericYearList()
  {
    var c := GenericTree(keyword).tree.children;
    TwoLeavesYears(c[0], c[0].children[0], c[0].children[1]);
    TwoLeavesYears(c[1], c[1].children[0], c[1].children[1]);
    TwoLeavesYears(c[2], c[2].children[0], c[2].children[1]);
    ForestYearsOfThree(c[0], c[1], c[2]);
  }

  /** Three branches, in order, each with exactly two leaves: ten nodes. */
  lemma GenericShape(keyword: string)
    ensures var t := GenericTree(keyword).tree;
      && |t.children| == 3
      && t.children[0].id == "origins" && t.children[1].id == "golden-age" && t.children[2].id == "modern-era"
      && (forall i :: 0 <= i < 3 ==>
            && |t.children[i].children| == 2
            && t.children[i].children[0].children == []
            && t.children[i].children[1].children == [])
      && NodeCount(t) == 10
  {
    GenericNodeCount(keyword);
  }

  lemma GenericNodeCount(keyword: string)
    ensures NodeCount(GenericTree(keyword).tree) == 10
  {
    IdsArePreorderIds(GenericTree(keyword).tree);
    GenericIdList(keyword);
  }

  /** The branch labels are built from the trimmed keyword. */
  lemma GenericLabels(keyword: string)
    ensures var t := GenericTree(keyword).tree; var kw := Trim(keyword);
      t.children[0].title == "Origins of " + kw
      && t.children[1].title == kw + " Golden Age"
      && t.children[2].title == "Modern " + kw
  {
  }

  function GenericIds(): seq<string> {
    ["root", "origins", "early-1", "early-2", "golden-age", "key-innovation", "commercial",
     "modern-era", "digital", "current"]
  }

  /** The generic tree's ten ids are distinct. */
  lemma GenericIdsUnique(keyword: string)
    ensures UniqueIds(GenericTree(keyword).tree)
  {
    GenericIdList(keyword);
    GenericIdListNoDup();
  }

  lemma GenericIdListNoDup()
    ensures NoDup(GenericIds())
  {
  }

  function GenericYearList(): seq<int> {
    [1900, 1910, 1920, 1935, 1950, 1960, 1975, 2000, 2005, 2024]
  }

  lemma GenericYearListRange()
    ensures Min(GenericYearList()) == 1900 && Max(GenericYearList()) == 2024
  {
    LeastYear(GenericYearList());
    GreatestYear(GenericYearList());
  }

  lemma LeastYear(ys: seq<int>)
    requires ys == [1900, 1910, 1920, 1935, 1950, 1960, 1975, 2000, 2005, 2024]
    ensures Min(ys) == 1900
  {
    assert ys[0] == 1900;
    MinIs(ys, 1900);
  }

  lemma GreatestYear(ys: seq<int>)
    requires ys == [1900, 1910, 1920, 1935, 1950, 1960, 1975, 2000, 2005, 2024]
    ensures Max(ys) == 2024
  {
    assert ys[9] == 2024;
    MaxIs(ys, 2024);
  }

  /** Every generic node has a present, non-zero year; the years range from 1900 to 2024. */
  lemma GenericYears(keyword: string)
    ensures var t := GenericTree(keyword).tree;
      && |TruthyYears(t)| == NodeCount(t)
      && Min(TruthyYears(t)) == 1900 && Max(TruthyYears(t)) == 2024
  {
    var t := GenericTree(keyword).tree;
    GenericIdList(keyword);
    GenericYearsInOrder(keyword);
    IdsArePreorderIds(t);
    GenericYearListRange();
  }

  /** Both generic cross-references (early-2 to key-innovation, commercial to digital) resolve. */
  lemma GenericCrossRefs(keyword: string)
    ensures var d := GenericTree(keyword);
      && |d.crossRefs| == 2
      && d.crossRefs[0].source == "early-2" && d.crossRefs[0].target == "key-innovation"
      && d.crossRefs[1].source == "commercial" && d.crossRefs[1].target == "digital"
      && forall r :: r in d.crossRefs ==> Resolves(r, d.tree)
  {
    GenericIdList(keyword);
    var ids := GenericIds();
    assert ids[3] == "early-2" && ids[5] == "key-innovation" && ids[6] == "commercial" && ids[8] == "digital";
  }

  // ---------------------------------------------------------------------------
  // The curated AI dataset

  /** The root is 'ai-root', a discipline founded in 1956. */
  lemma AIRoot()
    ensures var t := AIHistory().tree;
      t.id == "ai-root" && t.year == Some(1956) && t.kind == "discipline" && |t.children| == 7
  {
  }

  function NNIds(): seq<string> {
    ["nn", "mcp-neuron", "perceptron", "backprop", "lenet", "deep-learning", "alexnet", "resnet", "transformer"]
  }
  function NlpIds(): seq<string> {
    ["nlp", "turing-test", "eliza", "word2vec", "bert", "gpt", "gpt3", "chatgpt", "gpt4", "claude", "claude3", "llama"]
  }
  function CVIds(): seq<string> { ["cv", "imagenet", "yolo", "vit"] }
  function RLIds(): seq<string> { ["rl", "td-learning", "deep-blue", "dqn", "alphago", "alphafold"] }
  function GenIds(): seq<string> {
    ["gen-ai", "gan", "stylegan", "diffusion", "dalle", "stable-diffusion", "midjourney", "sora"]
  }
  function KnIds(): seq<string> { ["knowledge", "dendral", "expert-boom", "watson", "knowledge-graph"] }
  function RoIds(): seq<string> { ["robotics", "unimate", "roomba", "boston-dynamics", "tesla-bot"] }

  lemma NNIdList() ensures Ids(NeuralNetworks()) == NNIds() {}
  lemma NlpIdList() ensures Ids(Nlp()) == NlpIds() {}
  lemma CVIdList() ensures Ids(ComputerVision()) == CVIds() {}
  lemma RLIdList() ensures Ids(ReinforcementLearning()) == RLIds() {}
  lemma GenIdList() ensures Ids(GenerativeAI()) == GenIds() {}
  lemma KnIdList() ensures Ids(Knowledge()) == KnIds() {}
  lemma RoIdList() ensures Ids(Robotics()) == RoIds() {}

  /** The seven branch id lists after the root, as one list. */
  function AIIds(): seq<string> {
    ["ai-root"] + (NNIds() + (NlpIds() + (CVIds() + (RLIds() + (GenIds() + (KnIds() + RoIds()))))))
  }

  lemma AIIdsLength()
    ensures |AIIds()| == 50
  {
  }

  /** The ids of a seven-tree forest, tree by tree. */
  lemma ForestOfSevenSeq(ts: seq<TreeNode>)
    requires |ts| == 7
    ensures ForestIds(ts)
      == Ids(ts[0]) + (Ids(ts[1]) + (Ids(ts[2]) + (Ids(ts[3]) + (Ids(ts[4]) + (Ids(ts[5]) + Ids(ts[6]))))))
  {
    assert ts[6..][1..] == [];
    assert ForestIds(ts[6..]) == Ids(ts[6]) + [] == Ids(ts[6]);
    assert ts[5..][1..] == ts[6..];
    assert ts[4..][1..] == ts[5..];
    assert ts[3..][1..] == ts[4..];
    assert ts[2..][1..] == ts[3..];
    assert ts[1..][1..] == ts[2..];
    assert ForestIds(ts[5..]) == Ids(ts[5]) + ForestIds(ts[6..]);
    assert ForestIds(ts[4..]) == Ids(ts[4]) + ForestIds(ts[5..]);
    assert ForestIds(ts[3..]) == Ids(ts[3]) + ForestIds(ts[4..]);
    assert ForestIds(ts[2..]) == Ids(ts[2]) + ForestIds(ts[3..]);
    assert ForestIds(ts[1..]) == Ids(ts[1]) + ForestIds(ts[2..]);
  }

  lemma ForestOfSeven(a: TreeNode, b: TreeNode, c: TreeNode, d: TreeNode, e: TreeNode, f: TreeNode, g: TreeNode)
    ensures ForestIds([a, b, c, d, e, f, g])
      == Ids(a) + (Ids(b) + (Ids(c) + (Ids(d) + (Ids(e) + (Ids(f) + Ids(g))))))
  {
    ForestOfSevenSeq([a, b, c, d, e, f, g]);
  }

  /** The AI tree's ids, branch by branch. */
  lemma AIIdsByBranch()
    ensures Ids(AIHistory().tree) == AIIds()
  {
    NNIdList(); NlpIdList(); CVIdList(); RLIdList(); GenIdList(); KnIdList(); RoIdList();
    ForestOfSeven(NeuralNetworks(), Nlp(), ComputerVision(), ReinforcementLearning(),
      GenerativeAI(), Knowledge(), Robotics());
  }

  lemma KnRoDisjoint() ensures Disjoint(KnIds(), RoIds()) {}
  lemma GenKnDisjoint() ensures Disjoint(GenIds(), KnIds()) {}
  lemma GenRoDisjoint() ensures Disjoint(GenIds(), RoIds()) {}
  lemma RLGenDisjoint() ensures Disjoint(RLIds(), GenIds()) {}
  lemma RLKnDisjoint() ensures Disjoint(RLIds(), KnIds()) {}
  lemma RLRoDisjoint() ensures Disjoint(RLIds(), RoIds()) {}
  lemma CVRLDisjoint() ensures Disjoint(CVIds(), RLIds()) {}
  lemma CVGenDisjoint() ensures Disjoint(CVIds(), GenIds()) {}
  lemma CVKnDisjoint() ensures Disjoint(CVIds(), KnIds()) {}
  lemma CVRoDisjoint() ensures Disjoint(CVIds(), RoIds()) {}
  lemma NlpCVDisjoint() ensures Disjoint(NlpIds(), CVIds()) {}
  lemma NlpRLDisjoint() ensures Disjoint(NlpIds(), RLIds()) {}
  lemma NlpGenDisjoint() ensures Disjoint(NlpIds(), GenIds()) {}
  lemma NlpKnDisjoint() ensures Disjoint(NlpIds(), KnIds()) {}
  lemma NlpRoDisjoint() ensures Disjoint(NlpIds(), RoIds()) {}
  lemma NNNlpDisjoint() ensures Disjoint(NNIds(), NlpIds()) {}
  lemma NNCVDisjoint() ensures Disjoint(NNIds(), CVIds()) {}
  lemma NNRLDisjoint() ensures Disjoint(NNIds(), RLIds()) {}
  lemma NNGenDisjoint() ensures Disjoint(NNIds(), GenIds()) {}
  lemma NNKnDisjoint() ensures Disjoint(NNIds(), KnIds()) {}
  lemma NNRoDisjoint() ensures Disjoint(NNIds(), RoIds()) {}

  lemma AIBranchListsNoDup()
    ensures NoDup(NNIds()) && NoDup(NlpIds()) && NoDup(CVIds()) && NoDup(RLIds())
    ensures NoDup(GenIds()) && NoDup(KnIds()) && NoDup(RoIds())
  {
  }

  /** The ids after the knowledge branch, without repeats. */
  lemma AITailNoDup()
    ensures NoDup(GenIds() + (KnIds() + RoIds()))
    ensures NoDup(RLIds() + (GenIds() + (KnIds() + RoIds())))
  {
    AIBranchListsNoDup();
    KnRoDisjoint(); GenKnDisjoint(); GenRoDisjoint(); RLGenDisjoint(); RLKnDisjoint(); RLRoDisjoint();
    NoDupAppend(KnIds(), RoIds());
    DisjointAppend(GenIds(), KnIds(), RoIds());
    NoDupAppend(GenIds(), KnIds() + RoIds());
    DisjointAppend(RLIds(), KnIds(), RoIds());
    DisjointAppend(RLIds(), GenIds(), KnIds() + RoIds());
    NoDupAppend(RLIds(), GenIds() + (KnIds() + RoIds()));
  }

  /** The ids from the vision branch on, without repeats. */
  lemma AIMiddleNoDup()
    ensures NoDup(CVIds() + (RLIds() + (GenIds() + (KnIds() + RoIds()))))
  {
    AIBranchListsNoDup();
    AITailNoDup();
    CVRLDisjoint(); CVGenDisjoint(); CVKnDisjoint(); CVRoDisjoint();
    var t4 := RLIds() + (GenIds() + (KnIds() + RoIds()));
    DisjointAppend(CVIds(), KnIds(), RoIds());
    DisjointAppend(CVIds(), GenIds(), KnIds() + RoIds());
    DisjointAppend(CVIds(), RLIds(), GenIds() + (KnIds() + RoIds()));
    NoDupAppend(CVIds(), t4);
  }

  /** The ids from the language branch on, without repeats. */
  lemma AINlpOnNoDup()
    ensures NoDup(NlpIds() + (CVIds() + (RLIds() + (GenIds() + (KnIds() + RoIds())))))
  {
    AIBranchListsNoDup();
    AIMiddleNoDup();
    NlpCVDisjoint(); NlpRLDisjoint(); NlpGenDisjoint(); NlpKnDisjoint(); NlpRoDisjoint();
    var t3 := CVIds() + (RLIds() + (GenIds() + (KnIds() + RoIds())));
    DisjointAppend(NlpIds(), KnIds(), RoIds());
    DisjointAppend(NlpIds(), GenIds(), KnIds() + RoIds());
    DisjointAppend(NlpIds(), RLIds(), GenIds() + (KnIds() + RoIds()));
    DisjointAppend(NlpIds(), CVIds(), RLIds() + (GenIds() + (KnIds() + RoIds())));
    NoDupAppend(NlpIds(), t3);
  }

  /** The ids from the neural-network branch on, without repeats. */
  lemma AIBranchesNoDup()
    ensures NoDup(NNIds() + (NlpIds() + (CVIds() + (RLIds() + (GenIds() + (KnIds() + RoIds()))))))
  {
    AIBranchListsNoDup();
    AINlpOnNoDup();
    NNNlpDisjoint(); NNCVDisjoint(); NNRLDisjoint(); NNGenDisjoint(); NNKnDisjoint(); NNRoDisjoint();
    var t2 := NlpIds() + (CVIds() + (RLIds() + (GenIds() + (KnIds() + RoIds()))));
    DisjointAppend(NNIds(), KnIds(), RoIds());
    DisjointAppend(NNIds(), GenIds(), KnIds() + RoIds());
    DisjointAppend(NNIds(), RLIds(), GenIds() + (KnIds() + RoIds()));
    DisjointAppend(NNIds(), CVIds(), RLIds() + (GenIds() + (KnIds() + RoIds())));
    DisjointAppend(NNIds(), NlpIds(), t2[|NlpIds()|..]);
    assert NlpIds() + t2[|NlpIds()|..] == t2;
    NoDupAppend(NNIds(), t2);
  }

  lemma AIIdListNoDup()
    ensures NoDup(AIIds())
  {
    var t1 := NNIds() + (NlpIds() + (CVIds() + (RLIds() + (GenIds() + (KnIds() + RoIds())))));
    AIBranchesNoDup();
    assert "ai-root" !in t1;
    assert Disjoint(["ai-root"], t1);
    NoDupAppend(["ai-root"], t1);
  }

  /** All fifty ids of the AI dataset are distinct. */
  lemma AIIdsUnique()
    ensures UniqueIds(AIHistory().tree) && |Ids(AIHistory().tree)| == 50
  {
    AIIdsByBranch();
    AIIdListNoDup();
    AIIdsLength();
  }

  /** `x` is listed among the ids of one of the seven AI branches. */
  predicate ListedInAIBranch(x: string) {
    x in NNIds() || x in NlpIds() || x in CVIds() || x in RLIds()
    || x in GenIds() || x in KnIds() || x in RoIds()
  }

  /** Both ends of the first seven AI cross-references are listed under some branch. */
  lemma AIRefEndsListedFront()
    ensures forall i :: 0 <= i < 7 ==> ListedInAIBranch(AICrossRefs()[i].source) && ListedInAIBranch(AICrossRefs()[i].target)
  {
  }

  /** Both ends of the last seven AI cross-references are listed under some branch. */
  lemma AIRefEndsListedBack()
    ensures forall i :: 7 <= i < 14 ==> ListedInAIBranch(AICrossRefs()[i].source) && ListedInAIBranch(AICrossRefs()[i].target)
  {
  }

  lemma InSevenLists(x: string, l1: seq<string>, l2: seq<string>, l3: seq<string>,
      l4: seq<string>, l5: seq<string>, l6: seq<string>, l7: seq<string>)
    requires x in l1 || x in l2 || x in l3 || x in l4 || x in l5 || x in l6 || x in l7
    ensures x in l1 + (l2 + (l3 + (l4 + (l5 + (l6 + l7)))))
  {
  }

  /** An id listed for one of the seven branches is in the AI id list. */
  lemma ListedInAIIds(x: string)
    requires ListedInAIBranch(x)
    ensures x in AIIds()
  {
    InSevenLists(x, NNIds(), NlpIds(), CVIds(), RLIds(), GenIds(), KnIds(), RoIds());
  }

  /** An id in the AI id list is an id of the AI dataset. */
  lemma InAIHistory(x: string)
    requires x in AIIds()
    ensures x in Ids(AIHistory().tree)
  {
    AIIdsByBranch();
  }

  /** Both ends of every AI cross-reference are in the AI id list. */
  lemma AIRefEndsInAIIds()
    ensures forall i :: 0 <= i < 14 ==> AICrossRefs()[i].source in AIIds() && AICrossRefs()[i].target in AIIds()
  {
    AIRefEndsListedFront();
    AIRefEndsListedBack();
    forall i | 0 <= i < 14
      ensures AICrossRefs()[i].source in AIIds() && AICrossRefs()[i].target in AIIds()
    {
      ListedInAIIds(AICrossRefs()[i].source);
      ListedInAIIds(AICrossRefs()[i].target);
    }
  }

  /** Every one of the fourteen AI cross-references names two existing node ids. */
  lemma AICrossRefsResolve()
    ensures |AIHistory().crossRefs| == 14
    ensures forall r :: r in AIHistory().crossRefs ==> Resolves(r, AIHistory().tree)
  {
    var refs := AICrossRefs();
    AIRefEndsInAIIds();
    forall r | r in AIHistory().crossRefs
      ensures Resolves(r, AIHistory().tree)
    {
      var i :| 0 <= i < |refs| && refs[i] == r;
      InAIHistory(r.source);
      InAIHistory(r.target);
    }
  }

  /** The branch tags of the AI dataset. */
  const AIBranchTags: set<string> := {"root", "neural-networks", "nlp", "computer-vision",
    "reinforcement-learning", "generative-ai", "knowledge", "robotics"}

  lemma NNTagged(bs: set<string>, ks: set<string>)
    requires AIBranchTags <= bs && NodeTypes <= ks
    ensures Tagged(NeuralNetworks(), bs, ks)
  {
    NNTaggedExactly();
    TaggedWeaken(NeuralNetworks(), AIBranchTags, NodeTypes, bs, ks);
  }
  lemma NNTaggedExactly() ensures Tagged(NeuralNetworks(), AIBranchTags, NodeTypes) {}

  lemma NlpTagged(bs: set<string>, ks: set<string>)
    requires AIBranchTags <= bs && NodeTypes <= ks
    ensures Tagged(Nlp(), bs, ks)
  {
    NlpTaggedExactly();
    TaggedWeaken(Nlp(), AIBranchTags, NodeTypes, bs, ks);
  }
  lemma NlpTaggedExactly() ensures Tagged(Nlp(), AIBranchTags, NodeTypes) {}

  lemma CVTagged(bs: set<string>, ks: set<string>)
    requires AIBranchTags <= bs && NodeTypes <= ks
    ensures Tagged(ComputerVision(), bs, ks)
  {
    CVTaggedExactly();
    TaggedWeaken(ComputerVision(), AIBranchTags, NodeTypes, bs, ks);
  }
  lemma CVTaggedExactly() ensures Tagged(ComputerVision(), AIBranchTags, NodeTypes) {}

  lemma RLTagged(bs: set<string>, ks: set<string>)
    requires AIBranchTags <= bs && NodeTypes <= ks
    ensures Tagged(ReinforcementLearning(), bs, ks)
  {
    RLTaggedExactly();
    TaggedWeaken(ReinforcementLearning(), AIBranchTags, NodeTypes, bs, ks);
  }
  lemma RLTaggedExactly() ensures Tagged(ReinforcementLearning(), AIBranchTags, NodeTypes) {}

  lemma GenTagged(bs: set<string>, ks: set<string>)
    requires AIBranchTags <= bs && NodeTypes <= ks
    ensures Tagged(GenerativeAI(), bs, ks)
  {
    GenTaggedExactly();
    TaggedWeaken(GenerativeAI(), AIBranchTags, NodeTypes, bs, ks);
  }
  lemma GenTaggedExactly() ensures Tagged(GenerativeAI(), AIBranchTags, NodeTypes) {}

  lemma KnTagged(bs: set<string>, ks: set<string>)
    requires AIBranchTags <= bs && NodeTypes <= ks
    ensures Tagged(Knowledge(), bs, ks)
  {
    KnTaggedExactly();
    TaggedWeaken(Knowledge(), AIBranchTags, NodeTypes, bs, ks);
  }
  lemma KnTaggedExactly() ensures Tagged(Knowledge(), AIBranchTags, NodeTypes) {}

  lemma RoTagged(bs: set<string>, ks: set<string>)
    requires AIBranchTags <= bs && NodeTypes <= ks
    ensures Tagged(Robotics(), bs, ks)
  {
    RoTaggedExactly();
    TaggedWeaken(Robotics(), AIBranchTags, NodeTypes, bs, ks);
  }
  lemma RoTaggedExactly() ensures Tagged(Robotics(), AIBranchTags, NodeTypes) {}

  /** A forest of seven tagged trees is tagged. */
  lemma ForestTaggedOfSeven(a: TreeNode, b: TreeNode, c: TreeNode, d: TreeNode, e: TreeNode, f: TreeNode,
      g: TreeNode, bs: set<string>, ks: set<string>)
    requires Tagged(a, bs, ks) && Tagged(b, bs, ks) && Tagged(c, bs, ks) && Tagged(d, bs, ks)
    requires Tagged(e, bs, ks) && Tagged(f, bs, ks) && Tagged(g, bs, ks)
    ensures ForestTagged([a, b, c, d, e, f, g], bs, ks)
  {
    ForestTaggedAll([a, b, c, d, e, f, g], bs, ks);
  }

  /** Every node of the AI dataset carries one of its eight branch tags and one of the six types. */
  lemma AITagged(bs: set<string>, ks: set<string>)
    requires AIBranchTags <= bs && NodeTypes <= ks
    ensures Tagged(AIHistory().tree, bs, ks)
  {
    NNTagged(bs, ks); NlpTagged(bs, ks); CVTagged(bs, ks); RLTagged(bs, ks);
    GenTagged(bs, ks); KnTagged(bs, ks); RoTagged(bs, ks);
    ForestTaggedOfSeven(NeuralNetworks(), Nlp(), ComputerVision(), ReinforcementLearning(),
      GenerativeAI(), Knowledge(), Robotics(), bs, ks);
  }

  /** A node whose two children are leaves is tagged when all three tags are. */
  lemma TaggedTwoLeaves(n: TreeNode, bs: set<string>, ks: set<string>)
    requires |n.children| == 2 && n.children[0].children == [] && n.children[1].children == []
    requires n.branch in bs && n.kind in ks
    requires n.children[0].branch in bs && n.children[0].kind in ks
    requires n.children[1].branch in bs && n.children[1].kind in ks
    ensures Tagged(n, bs, ks)
  {
    var c := n.children;
    ForestTaggedCons(c[1], [], bs, ks);
    assert [c[1]] + [] == [c[1]];
    ForestTaggedCons(c[0], [c[1]], bs, ks);
    assert [c[0]] + [c[1]] == c;
  }

  /** Every node of the generic tree carries one of its four branch tags and one of the six types. */
  lemma GenericTagged(keyword: string)
    ensures Tagged(GenericTree(keyword).tree, {"root", "origins", "golden-age", "modern"}, NodeTypes)
  {
    var bs := {"root", "origins", "golden-age", "modern"};
    var c := GenericTree(keyword).tree.children;
    TaggedTwoLeaves(c[0], bs, NodeTypes);
    TaggedTwoLeaves(c[1], bs, NodeTypes);
    TaggedTwoLeaves(c[2], bs, NodeTypes);
    ForestTaggedAll(c, bs, NodeTypes);
  }

  // ---------------------------------------------------------------------------
  // The colour and icon tables

  /** The two node-type tables share the same six keys. */
  lemma TypeTablesAgree()
    ensures NodeIcons.Keys == NodeTypes && TypeColors.Keys == NodeTypes
  {
  }

  /** In a tree tagged from the colour tables' keys, every node has a branch colour, a type colour and an icon. */
  lemma TaggedNodesHaveColours(t: TreeNode, n: TreeNode)
    requires Tagged(t, BranchColors.Keys, TypeColors.Keys) && n in Preorder(t)
    ensures n.branch in BranchColors && n.kind in TypeColors && n.kind in NodeIcons
  {
    TypeTablesAgree();
    PreorderTagged(t, BranchColors.Keys, TypeColors.Keys, n);
  }

  /** Every branch and type of the AI dataset has an entry in the colour tables. */
  lemma AINodesHaveColours()
    ensures Tagged(AIHistory().tree, BranchColors.Keys, TypeColors.Keys)
  {
    TypeTablesAgree();
    AITagged(BranchColors.Keys, TypeColors.Keys);
  }

  /** Every branch and type of the generic dataset has an entry in the colour tables. */
  lemma GenericNodesHaveColours(keyword: string)
    ensures Tagged(GenericTree(keyword).tree, BranchColors.Keys, TypeColors.Keys)
  {
    TypeTablesAgree();
    GenericTagged(keyword);
    TaggedWeaken(GenericTree(keyword).tree, {"root", "origins", "golden-age", "modern"}, NodeTypes,
      BranchColors.Keys, TypeColors.Keys);
  }
}
