/** What every run of the archived protocol keeps. */
module LegacyRuns {
  import opened Common
  import opened RootedTree
  import opened Legacy
  import opened LegacyStore

  ghost predicate NodeOk(n: Node) {
    && |n.history| <= HISTORY_LIMIT
    && n.feedback == if n.history == [] then None else Some(n.history[|n.history| - 1])
  }

  ghost predicate DistinctIdeas(fold: Fold, nodes: map<string, Node>) {
    forall a, b :: a in nodes && b in nodes && fold(nodes[a].idea) == fold(nodes[b].idea) ==> a == b
  }

  ghost predicate NodesOk(fold: Fold, nodes: map<string, Node>) {
    && DistinctIdeas(fold, nodes)
    && (forall k :: k in nodes ==> NodeOk(nodes[k]))
    && (ROOT in nodes ==> nodes[ROOT].feedback.None?)
  }

  /** What every stored tree satisfies. */
  ghost predicate Inv(fold: Fold, t: Tree) {
    && TreeOk(t) && NodesOk(fold, t.nodes)
    && |t.keys| - 1 <= t.nodeBudget
    && (t.paused <==> t.stop.Some?)
    && t.activeBranch == ActiveBranch(t)
  }

  ghost predicate StateInv(fold: Fold, s: State) {
    s.tree.Some? ==> Inv(fold, s.tree.value)
  }

  /** Ideas are only added, below existing ones, and a node's feedback is only appended to. */
  ghost predicate NodeGrows(n: Node, n': Node) {
    n'.parent == n.parent && n'.idea == n.idea && n.history <= n'.history
  }

  ghost predicate Grows(keys: seq<string>, nodes: map<string, Node>, keys': seq<string>, nodes': map<string, Node>) {
    keys <= keys' && forall k :: k in nodes ==> k in nodes' && NodeGrows(nodes[k], nodes'[k])
  }

  lemma OneIdeaKeeps(fold: Fold, keys: seq<string>, nodes: map<string, Node>, parent: string, c: Candidate)
    requires WellFormed(keys, nodes) && NodesOk(fold, nodes) && parent in nodes
    requires fold(c.idea) !in IdeaKeys(fold, nodes)
    ensures var nodes' := nodes[IdeaKey(|keys|) := NewNode(parent, c)];
      && IdeaKey(|keys|) !in nodes && NodesOk(fold, nodes')
      && IdeaKeys(fold, nodes') == IdeaKeys(fold, nodes) + {fold(c.idea)}
  {
    NextKeyIsNew(keys);
    var key := IdeaKey(|keys|);
    var nodes' := nodes[key := NewNode(parent, c)];
    forall k | k in nodes ensures fold(nodes[k].idea) in IdeaKeys(fold, nodes') && fold(nodes[k].idea) != fold(c.idea) {
      assert nodes'[k] == nodes[k];
      assert fold(nodes[k].idea) in IdeaKeys(fold, nodes);
    }
    assert fold(nodes'[key].idea) in IdeaKeys(fold, nodes');
  }

  lemma GrowsOne(
      keys: seq<string>, nodes: map<string, Node>, key: string, n: Node, keys': seq<string>,
      nodes': map<string, Node>)
    requires key !in nodes && Grows(keys + [key], nodes[key := n], keys', nodes')
    ensures Grows(keys, nodes, keys', nodes')
  {
    var nodes1 := nodes[key := n];
    assert keys <= keys + [key];
    forall k | k in nodes ensures k in nodes' && NodeGrows(nodes[k], nodes'[k]) {
      assert nodes1[k] == nodes[k];
    }
  }

  lemma OneIdea(fold: Fold, keys: seq<string>, nodes: map<string, Node>, parent: string, cs: seq<Candidate>)
    requires WellFormed(keys, nodes) && NodesOk(fold, nodes) && parent in nodes && cs != []
    requires AddIdeas(fold, keys, nodes, IdeaKeys(fold, nodes), parent, cs).Ok?
    ensures var keys', nodes' := keys + [IdeaKey(|keys|)], nodes[IdeaKey(|keys|) := NewNode(parent, cs[0])];
      && IdeaKey(|keys|) !in nodes && WellFormed(keys', nodes') && NodesOk(fold, nodes')
      && AddIdeas(fold, keys, nodes, IdeaKeys(fold, nodes), parent, cs)
         == AddIdeas(fold, keys', nodes', IdeaKeys(fold, nodes'), parent, cs[1..])
  {
    OneIdeaKeeps(fold, keys, nodes, parent, cs[0]);
    TreeGrows(keys, nodes, parent, cs[0]);
  }

  lemma {:induction false} AddIdeasKeeps(
      fold: Fold, keys: seq<string>, nodes: map<string, Node>, parent: string, cs: seq<Candidate>)
    requires WellFormed(keys, nodes) && NodesOk(fold, nodes) && parent in nodes
    requires AddIdeas(fold, keys, nodes, IdeaKeys(fold, nodes), parent, cs).Ok?
    ensures var r := AddIdeas(fold, keys, nodes, IdeaKeys(fold, nodes), parent, cs).value;
      NodesOk(fold, r.1) && |r.0| == |keys| + |cs| && Grows(keys, nodes, r.0, r.1)
    decreases |cs|
  {
    if cs != [] {
      var key, n := IdeaKey(|keys|), NewNode(parent, cs[0]);
      OneIdea(fold, keys, nodes, parent, cs);
      AddIdeasKeeps(fold, keys + [key], nodes[key := n], parent, cs[1..]);
      var r := AddIdeas(fold, keys + [key], nodes[key := n], IdeaKeys(fold, nodes[key := n]), parent, cs[1..]).value;
      GrowsOne(keys, nodes, key, n, r.0, r.1);
    }
  }

  lemma RecordKeeps(
      fold: Fold, nodes: map<string, Node>, key: string, feedback: Feedback, reward: Option<real>,
      experiments: seq<string>)
    requires NodesOk(fold, nodes) && key in nodes && key != ROOT && |nodes[key].history| < HISTORY_LIMIT
    ensures var nodes' := nodes[key := Heard(nodes[key], feedback, reward, experiments)];
      NodesOk(fold, nodes') && forall k :: k in nodes ==> NodeGrows(nodes[k], nodes'[k])
  {
    var nodes' := nodes[key := Heard(nodes[key], feedback, reward, experiments)];
    assert forall k :: k in nodes ==> nodes'[k].idea == nodes[k].idea;
  }

  /** What an accepted action keeps. */
  ghost predicate Kept(fold: Fold, t: Tree, t': Tree) {
    && NodesOk(fold, t'.nodes) && |t'.keys| - 1 <= t'.nodeBudget && (t'.paused <==> t'.stop.Some?)
    && Grows(t.keys, t.nodes, t'.keys, t'.nodes)
  }

  lemma ProposeKeeps(fold: Fold, t: Tree, node: string, candidates: seq<Candidate>)
    requires Inv(fold, t)
    ensures var r := ProposeTo(fold, t, node, candidates);
      r.Ok? ==> Kept(fold, t, r.value)
  {
    if ProposeTo(fold, t, node, candidates).Ok? {
      AddIdeasKeeps(fold, t.keys, t.nodes, node, candidates);
    }
  }

  lemma HearKeeps(fold: Fold, journal: Journal, t: Tree, node: string, feedback: Feedback, reward: Option<real>)
    requires Inv(fold, t)
    ensures var r := RecordOn(journal, t, node, feedback, reward);
      r.Ok? ==> Kept(fold, t, r.value)
  {
    if RecordOn(journal, t, node, feedback, reward).Ok? {
      RecordKeeps(fold, t.nodes, node, feedback, reward, Experiments(journal, feedback.evidenceIds));
    }
  }

  lemma PauseKeeps(fold: Fold, t: Tree, summary: Option<string>)
    requires Inv(fold, t)
    ensures var r := PauseWith(t, summary);
      r.Ok? ==> Kept(fold, t, r.value)
  {
  }

  lemma ActKeeps(fold: Fold, journal: Journal, t: Tree, request: Request)
    requires Inv(fold, t)
    ensures var r := Act(fold, journal, t, request);
      r.Ok? ==> Kept(fold, t, r.value)
  {
    match request
    case Propose(node, candidates) => ProposeKeeps(fold, t, node, candidates);
    case Record(node, feedback, reward) => HearKeeps(fold, journal, t, node, feedback, reward);
    case Pause(summary) => PauseKeeps(fold, t, summary);
    case _ =>
  }

  /** What a later state keeps of an earlier one. */
  ghost predicate Later(s: State, s': State) {
    && s.revision <= s'.revision
    && (s.tree.Some? ==>
          s'.tree.Some? && Grows(s.tree.value.keys, s.tree.value.nodes, s'.tree.value.keys, s'.tree.value.nodes))
  }

  lemma BranchIgnoresBranch(t: Tree, branch: Option<string>)
    requires TreeOk(t)
    ensures ActiveBranch(t.(activeBranch := branch)) == ActiveBranch(t)
  {
    PendingIgnoresBranch(t, branch, t.keys);
  }

  lemma ItemsIgnoreBranch(t: Tree, branch: Option<string>, k: string)
    requires TreeOk(t) && k in t.nodes
    ensures ItemsFor(t.(activeBranch := branch), k) == ItemsFor(t, k)
  {
  }

  lemma {:induction false} PendingIgnoresBranch(t: Tree, branch: Option<string>, keys: seq<string>)
    requires TreeOk(t) && Known(t, keys)
    ensures PendingFrom(t.(activeBranch := branch), keys) == PendingFrom(t, keys)
  {
    if keys != [] {
      PendingIgnoresBranch(t, branch, keys[..|keys| - 1]);
      ItemsIgnoreBranch(t, branch, keys[|keys| - 1]);
    }
  }

  lemma SavedKeeps(fold: Fold, t: Tree)
    requires TreeOk(t) && NodesOk(fold, t.nodes) && |t.keys| - 1 <= t.nodeBudget && (t.paused <==> t.stop.Some?)
    ensures Inv(fold, t.(activeBranch := ActiveBranch(t)))
  {
    BranchIgnoresBranch(t, ActiveBranch(t));
  }

  lemma StartKeeps(fold: Fold, goal: string, mode: Mode, budget: Option<Budget>)
    ensures var t := StartTree(goal, mode, budget);
      TreeOk(t) && NodesOk(fold, t.nodes) && |t.keys| - 1 <= t.nodeBudget && (t.paused <==> t.stop.Some?)
  {
    StartTreeOk(goal, mode, budget);
  }

  lemma AttemptKeeps(fold: Fold, s: State, c: Call)
    requires StateInv(fold, s)
    requires Attempt(fold, c.journal, s, c.expected, c.request).Ok?
    ensures var t := Attempt(fold, c.journal, s, c.expected, c.request).value;
      && TreeOk(t) && NodesOk(fold, t.nodes) && |t.keys| - 1 <= t.nodeBudget && (t.paused <==> t.stop.Some?)
      && (s.tree.Some? ==> Grows(s.tree.value.keys, s.tree.value.nodes, t.keys, t.nodes))
  {
    if s.tree.Some? {
      ActKeeps(fold, c.journal, s.tree.value, c.request);
    } else {
      StartKeeps(fold, c.request.goal, c.request.mode, c.request.budget);
    }
  }

  lemma StepKeeps(fold: Fold, s: State, c: Call)
    requires StateInv(fold, s)
    ensures var s' := Step(fold, c.journal, s, c.expected, c.request);
      StateInv(fold, s') && Later(s, s')
  {
    var r := Attempt(fold, c.journal, s, c.expected, c.request);
    if r.Ok? {
      AttemptKeeps(fold, s, c);
      SavedKeeps(fold, r.value);
    }
  }

  /** Every run keeps the invariant. */
  lemma {:induction false} EveryReachableArchive(fold: Fold, calls: seq<Call>)
    ensures StateInv(fold, Run(fold, calls))
  {
    if calls != [] {
      EveryReachableArchive(fold, calls[..|calls| - 1]);
      StepKeeps(fold, Run(fold, calls[..|calls| - 1]), calls[|calls| - 1]);
    }
  }

  /** In every reachable tree the keys are `root`, `idea_1`, ..., `idea_n` with n within the budget. */
  lemma KeysAreNumbered(fold: Fold, calls: seq<Call>, i: nat)
    requires Run(fold, calls).tree.Some?
    ensures var t := Run(fold, calls).tree.value;
      && 1 <= |t.keys| <= t.nodeBudget + 1 <= 65 && t.nodes.Keys == Elements(t.keys)
      && (i < |t.keys| ==> t.keys[i] == if i == 0 then "root" else IdeaKey(i))
  {
    EveryReachableArchive(fold, calls);
    var t := Run(fold, calls).tree.value;
    assert i < |t.keys| ==> KeyOk(t.keys, i);
  }
}
