/**
  The archived first research-tree protocol (src/oceanx/exploration_legacy.py): experiments backed
  up along ancestor chains, the pending set, the recommendation, and the actions.
 */
module Legacy {
  import opened Common
  import opened RootedTree
  import TH = ToolHistory

  // ---------------------------------------------------------------- data

  datatype Outcome = Supported | Contradicted | Inconclusive | Deferred
  datatype Branch = Open | Solved | Exhausted | Blocked
  datatype Priority = Contradiction | KeyGap | Supporting
  datatype Cost = Low | Medium | High
  datatype Mode = Ideas | Iterative

  /** `text` stands for the fields that no decision reads. */
  datatype Feedback = Feedback(
    outcome: Outcome,
    branch: Branch,
    priority: Option<Priority>,
    cost: Option<Cost>,
    expandable: bool,
    evidenceIds: seq<string>,
    text: string)

  datatype Node = Node(
    parent: Option<string>,
    idea: string,
    priority: Priority,
    cost: Cost,
    expandable: bool,
    feedback: Option<Feedback>,
    history: seq<Feedback>,
    experimentKeys: seq<string>,
    reward: Option<real>)

  datatype Candidate = Candidate(idea: string, priority: Priority, cost: Cost)

  datatype Action = Test | Synthesize | Expand
  datatype Item = Item(key: string, action: Action, priority: Priority, cost: Cost)

  datatype Reason = BudgetExhausted | NoEligibleBranch
  datatype Advice = StayPaused | Do(action: Action, node: string) | Halt(reason: Reason)
  datatype Stop = Advised(reason: Reason) | Interrupted(pending: Advice) | Resolved(summary: string)

  /** The bounds of the `node_budget` argument. */
  type Budget = n: nat | 1 <= n <= 64 witness 12

  datatype Tree = Tree(
    goal: string,
    mode: Mode,
    nodeBudget: Budget,
    paused: bool,
    keys: seq<string>,
    nodes: map<string, Node>,
    stop: Option<Stop>,
    activeBranch: Option<string>)

  function IdeaKey(n: nat): string {
    "idea_" + TH.Decimal(n)
  }

  ghost predicate KeyOk(keys: seq<string>, i: nat)
    requires i < |keys|
  {
    keys[i] == if i == 0 then ROOT else IdeaKey(i)
  }

  /** The keys are `root`, `idea_1`, `idea_2`, and so on. */
  ghost predicate Numbered(keys: seq<string>) {
    forall i :: 0 <= i < |keys| ==> KeyOk(keys, i)
  }

  function ShapeOf(keys: seq<string>, nodes: map<string, Node>): Shape {
    Shape(keys, map k | k in nodes && nodes[k].parent.Some? :: nodes[k].parent.value)
  }

  ghost predicate WellFormed(keys: seq<string>, nodes: map<string, Node>) {
    Rooted(ShapeOf(keys, nodes)) && Numbered(keys) && forall k :: k in nodes <==> k in keys
  }

  ghost predicate TreeOk(t: Tree) {
    WellFormed(t.keys, t.nodes)
  }

  // ---------------------------------------------------------------- statistics

  /** What makes two experiments the same one. */
  function Identities(key: string, n: Node): (ids: set<string>)
    requires n.feedback.Some?
    ensures ids != {}
  {
    var f := n.feedback.value;
    if n.experimentKeys != [] then
      assert n.experimentKeys[0] in Elements(n.experimentKeys);
      Elements(n.experimentKeys)
    else if f.evidenceIds != [] then
      assert f.evidenceIds[0] in Elements(f.evidenceIds);
      Elements(f.evidenceIds)
    else {key}
  }

  function Reward(n: Node): real {
    if n.reward.Some? then n.reward.value else 0.0
  }

  datatype Tally = Tally(attempts: nat, reward: real, seen: set<string>)

  const NOTHING := Tally(0, 0.0, {})

  function Count(y: Tally, ids: set<string>, reward: real): Tally {
    if y.seen !! ids then Tally(y.attempts + 1, y.reward + reward, y.seen + ids)
    else y.(seen := y.seen + ids)
  }

  datatype Experiment = Experiment(ids: set<string>, reward: real)

  /** The tally after the nodes of `order`, of which those in `below` report. */
  function TallyOver(order: seq<string>, below: map<string, Experiment>): Tally {
    if order == [] then NOTHING
    else
      var y, k := TallyOver(order[..|order| - 1], below), order[|order| - 1];
      if k in below then Count(y, below[k].ids, below[k].reward) else y
  }

  /** The nodes with feedback at or below `a`. */
  function Below(t: Tree, a: string): map<string, Experiment>
    requires TreeOk(t)
  {
    map k | k in t.nodes && t.nodes[k].feedback.Some? && Above(ShapeOf(t.keys, t.nodes), a, k)
      :: Experiment(Identities(k, t.nodes[k]), Reward(t.nodes[k]))
  }

  predicate Known(t: Tree, keys: seq<string>) {
    forall k :: k in keys ==> k in t.nodes
  }

  function Order(t: Tree): (order: seq<string>)
    requires TreeOk(t)
    ensures Known(t, order) && forall k :: k in t.nodes ==> k in order
  {
    DeepestFirst(ShapeOf(t.keys, t.nodes))
  }

  /** `k` and everything above it. */
  ghost function Ups(s: Shape, k: string): set<string>
    requires Rooted(s) && k in s.keys
  {
    set a | a in s.keys && Above(s, a, k)
  }

  /** What lies above `a` is `a` and what lies above its parent. */
  lemma StepUp(s: Shape, a: string)
    requires Rooted(s) && a in s.keys
    ensures a == ROOT <==> a !in s.parent
    ensures a in Ups(s, a)
    ensures a == ROOT ==> Ups(s, a) - {a} == {}
    ensures a != ROOT ==>
      s.parent[a] in s.keys && Index(s.keys, s.parent[a]) < Index(s.keys, a) && Ups(s, a) - {a} == Ups(s, s.parent[a])
  {
    if a != ROOT {
      ParentIsEarlier(s, a);
      if Above(s, a, s.parent[a]) {
        AboveIsShallower(s, a, s.parent[a]);
      }
    }
  }

  function TallyOf(stats: map<string, (nat, real)>, seen: map<string, set<string>>, a: string): Tally
    requires a in stats && a in seen
  {
    Tally(stats[a].0, stats[a].1, seen[a])
  }

  /** The tallies of `up` count the experiment, the others are as before. */
  ghost predicate Backed(
      stats0: map<string, (nat, real)>, seen0: map<string, set<string>>, stats: map<string, (nat, real)>,
      seen: map<string, set<string>>, up: set<string>, ids: set<string>, reward: real)
    requires stats0.Keys == seen0.Keys == stats.Keys == seen.Keys
  {
    forall a :: a in stats ==>
      var y := TallyOf(stats0, seen0, a);
      TallyOf(stats, seen, a) == if a in up then Count(y, ids, reward) else y
  }

  lemma BackedOne(stats0: map<string, (nat, real)>, seen0: map<string, set<string>>, stats: map<string, (nat, real)>,
                  seen: map<string, set<string>>, up: set<string>, ids: set<string>, reward: real, a: string)
    requires stats0.Keys == seen0.Keys == stats.Keys == seen.Keys
    requires Backed(stats0, seen0, stats, seen, up, ids, reward) && a in stats && a !in up
    ensures var stats' := if seen[a] !! ids then stats[a := (stats[a].0 + 1, stats[a].1 + reward)] else stats;
      var seen' := seen[a := seen[a] + ids];
      && stats'.Keys == stats.Keys && seen'.Keys == seen.Keys
      && Backed(stats0, seen0, stats', seen', up + {a}, ids, reward)
  {
    assert TallyOf(stats, seen, a) == TallyOf(stats0, seen0, a);
  }

  /** `done` and the nodes from `key` upwards make up the chain above `k`. */
  ghost predicate Climbing(t: Tree, k: string, key: Option<string>, done: set<string>)
    requires TreeOk(t) && k in t.nodes
  {
    var s := ShapeOf(t.keys, t.nodes);
    if key.None? then done == Ups(s, k)
    else key.value in t.nodes && done !! Ups(s, key.value) && done + Ups(s, key.value) == Ups(s, k)
  }

  /** How far there is to climb. */
  function Height(t: Tree, key: Option<string>): nat
    requires TreeOk(t) && (key.Some? ==> key.value in t.nodes)
  {
    if key.Some? then 1 + Index(t.keys, key.value) else 0
  }

  lemma ClimbOn(t: Tree, k: string, a: string, done: set<string>)
    requires TreeOk(t) && k in t.nodes && Climbing(t, k, Some(a), done)
    ensures a in t.nodes && a !in done
    ensures var up := t.nodes[a].parent;
      (up.Some? ==> up.value in t.nodes) && Height(t, up) < Height(t, Some(a)) && Climbing(t, k, up, done + {a})
  {
    StepUp(ShapeOf(t.keys, t.nodes), a);
  }

  /** One experiment backed up to its node and everything above it. */
  method BackUp(t: Tree, k: string, stats0: map<string, (nat, real)>, seen0: map<string, set<string>>)
    returns (stats: map<string, (nat, real)>, seen: map<string, set<string>>)
    requires TreeOk(t) && k in t.nodes && t.nodes[k].feedback.Some?
    requires stats0.Keys == t.nodes.Keys && seen0.Keys == t.nodes.Keys
    ensures stats.Keys == t.nodes.Keys && seen.Keys == t.nodes.Keys
    ensures Backed(stats0, seen0, stats, seen,
                   Ups(ShapeOf(t.keys, t.nodes), k), Identities(k, t.nodes[k]), Reward(t.nodes[k]))
  {
    ghost var done: set<string> := {};
    var ids, reward := Identities(k, t.nodes[k]), Reward(t.nodes[k]);
    stats, seen := stats0, seen0;
    var key := Some(k);
    while key.Some?
      invariant stats.Keys == t.nodes.Keys && seen.Keys == t.nodes.Keys
      invariant (key.Some? ==> key.value in t.nodes) && Climbing(t, k, key, done)
      invariant Backed(stats0, seen0, stats, seen, done, ids, reward)
      decreases Height(t, key)
    {
      var a := key.value;
      ClimbOn(t, k, a, done);
      BackedOne(stats0, seen0, stats, seen, done, ids, reward, a);
      if seen[a] !! ids {
        stats := stats[a := (stats[a].0 + 1, stats[a].1 + reward)];
      }
      seen := seen[a := seen[a] + ids];
      done := done + {a};
      key := t.nodes[a].parent;
    }
  }

  /** The maps hold the tallies of `order`. */
  ghost predicate Tallied(t: Tree, order: seq<string>, stats: map<string, (nat, real)>, seen: map<string, set<string>>)
    requires TreeOk(t) && stats.Keys == seen.Keys == t.nodes.Keys
  {
    forall a :: a in t.nodes ==> TallyOf(stats, seen, a) == TallyOver(order, Below(t, a))
  }

  lemma TallyGrows(order: seq<string>, k: string, below: map<string, Experiment>)
    ensures TallyOver(order + [k], below)
         == if k in below then Count(TallyOver(order, below), below[k].ids, below[k].reward)
            else TallyOver(order, below)
  {
    assert (order + [k])[..|order|] == order;
  }

  lemma TalliedOne(
      t: Tree, order: seq<string>, k: string, stats: map<string, (nat, real)>, seen: map<string, set<string>>,
      stats': map<string, (nat, real)>, seen': map<string, set<string>>)
    requires TreeOk(t) && stats.Keys == seen.Keys == stats'.Keys == seen'.Keys == t.nodes.Keys
    requires k in t.nodes && Tallied(t, order, stats, seen)
    requires if t.nodes[k].feedback.None? then stats' == stats && seen' == seen
             else Backed(stats, seen, stats', seen',
                         Ups(ShapeOf(t.keys, t.nodes), k), Identities(k, t.nodes[k]), Reward(t.nodes[k]))
    ensures Tallied(t, order + [k], stats', seen')
  {
    forall a | a in t.nodes ensures TallyOf(stats', seen', a) == TallyOver(order + [k], Below(t, a)) {
      TallyGrows(order, k, Below(t, a));
      assert TallyOf(stats, seen, a) == TallyOver(order, Below(t, a));
    }
  }

  method Statistics(t: Tree) returns (stats: map<string, (nat, real)>)
    requires TreeOk(t)
    ensures stats.Keys == t.nodes.Keys
    ensures forall a :: a in t.nodes ==>
      var y := TallyOver(Order(t), Below(t, a)); stats[a] == (y.attempts, y.reward)
  {
    stats := map k | k in t.nodes :: (0, 0.0);
    var seen: map<string, set<string>> := map k | k in t.nodes :: {};
    var order := Order(t);
    for i := 0 to |order|
      invariant stats.Keys == seen.Keys == t.nodes.Keys
      invariant Tallied(t, order[..i], stats, seen)
    {
      var k := order[i];
      ghost var stats0, seen0 := stats, seen;
      assert k in t.nodes by {
        assert k in order;
      }
      if t.nodes[k].feedback.Some? {
        stats, seen := BackUp(t, k, stats, seen);
      }
      TalliedOne(t, order[..i], k, stats0, seen0, stats, seen);
      TakeOneMore(order, i);
    }
    assert order[..|order|] == order;
    TalliedAll(t, order, stats, seen);
  }

  lemma TalliedAll(t: Tree, order: seq<string>, stats: map<string, (nat, real)>, seen: map<string, set<string>>)
    requires TreeOk(t) && stats.Keys == seen.Keys == t.nodes.Keys && Tallied(t, order, stats, seen)
    ensures forall a :: a in t.nodes ==>
      var y := TallyOver(order, Below(t, a)); stats[a] == (y.attempts, y.reward)
  {
    forall a | a in t.nodes
      ensures var y := TallyOver(order, Below(t, a)); stats[a] == (y.attempts, y.reward)
    {
      assert TallyOf(stats, seen, a) == TallyOver(order, Below(t, a));
    }
  }

  // ---------------------------------------------------------------- pending work

  predicate Closed(n: Node) {
    n.feedback.Some? &&
    (n.feedback.value.branch in {Solved, Blocked, Exhausted} || n.feedback.value.outcome in {Contradicted, Deferred})
  }

  function PriorityOf(n: Node): Priority {
    if n.feedback.Some? && n.feedback.value.priority.Some? then n.feedback.value.priority.value else n.priority
  }

  function CostOf(n: Node): Cost {
    if n.feedback.Some? && n.feedback.value.cost.Some? then n.feedback.value.cost.value else n.cost
  }

  function ChildrenOf(t: Tree, k: string): (cs: seq<string>)
    requires TreeOk(t)
    ensures forall c :: c in cs <==> c in t.nodes && t.nodes[c].parent == Some(k)
  {
    Children(ShapeOf(t.keys, t.nodes), k)
  }

  /** The next action on an open node; None when its children stand for its gap. */
  function ActionFor(t: Tree, k: string): Option<Action>
    requires TreeOk(t) && k in t.nodes
  {
    var n, cs := t.nodes[k], ChildrenOf(t, k);
    if cs != [] then
      if forall c :: c in cs ==> Closed(t.nodes[c]) then Some(Synthesize) else None
    else if n.feedback.None? then Some(if t.mode == Iterative then Test else Expand)
    else Some(if n.expandable then Expand else Synthesize)
  }

  function ItemsFor(t: Tree, k: string): seq<Item>
    requires TreeOk(t) && k in t.nodes
  {
    if k == ROOT || Closed(t.nodes[k]) || ActionFor(t, k).None? then []
    else [Item(k, ActionFor(t, k).value, PriorityOf(t.nodes[k]), CostOf(t.nodes[k]))]
  }

  function PendingFrom(t: Tree, keys: seq<string>): seq<Item>
    requires TreeOk(t) && Known(t, keys)
  {
    if keys == [] then [] else PendingFrom(t, keys[..|keys| - 1]) + ItemsFor(t, keys[|keys| - 1])
  }

  method NextAction(t: Tree, key: string) returns (action: Option<Action>)
    requires TreeOk(t) && key in t.nodes
    ensures action == ActionFor(t, key)
  {
    var node, children := t.nodes[key], ChildrenOf(t, key);
    if children != [] {
      if exists c :: c in children && !Closed(t.nodes[c]) {
        return None;
      }
      return Some(Synthesize);
    }
    if node.feedback.None? {
      return Some(if t.mode == Iterative then Test else Expand);
    }
    return Some(if node.expandable then Expand else Synthesize);
  }

  method Pending(t: Tree) returns (pending: seq<Item>)
    requires TreeOk(t)
    ensures pending == PendingFrom(t, t.keys)
  {
    pending := [];
    for i := 0 to |t.keys|
      invariant pending == PendingFrom(t, t.keys[..i])
    {
      var key := t.keys[i];
      assert t.keys[..i + 1][..i] == t.keys[..i];
      if key == ROOT {
        continue;
      }
      var node := t.nodes[key];
      if Closed(node) {
        continue;
      }
      var action := NextAction(t, key);
      if action.None? {
        continue;
      }
      pending := pending + [Item(key, action.value, PriorityOf(node), CostOf(node))];
    }
    assert t.keys[..|t.keys|] == t.keys;
  }

  // ---------------------------------------------------------------- recommendation

  /** Contradictions, then key gaps; cheap first; tests, then syntheses. */
  function Rank(i: Item): nat {
    9 * (match i.priority case Contradiction => 0 case KeyGap => 1 case Supporting => 2)
    + 3 * (match i.cost case Low => 0 case Medium => 1 case High => 2)
    + (match i.action case Test => 0 case Synthesize => 1 case Expand => 2)
  }

  function InsertItem(x: Item, sorted: seq<Item>): seq<Item> {
    if sorted == [] || Rank(x) <= Rank(sorted[0]) then [x] + sorted else [sorted[0]] + InsertItem(x, sorted[1..])
  }

  /** `sorted(items, key=rank)`: ties stay in order. */
  function SortItems(items: seq<Item>): seq<Item> {
    if items == [] then [] else InsertItem(items[0], SortItems(items[1..]))
  }

  predicate Affordable(i: Item, budget: bool) {
    i.action != Expand || budget
  }

  function FirstAffordable(items: seq<Item>, budget: bool): Option<Item> {
    if items == [] then None
    else if Affordable(items[0], budget) then Some(items[0])
    else FirstAffordable(items[1..], budget)
  }

  predicate BudgetLeft(t: Tree) {
    |t.keys| - 1 < t.nodeBudget
  }

  function Recommend(t: Tree): Advice
    requires TreeOk(t)
  {
    var pending := PendingFrom(t, t.keys);
    var chosen := FirstAffordable(SortItems(pending), BudgetLeft(t));
    if t.paused then StayPaused
    else if chosen.Some? then Do(chosen.value.action, chosen.value.key)
    else if |t.keys| == 1 && BudgetLeft(t) then Do(Expand, ROOT)
    else Halt(if pending != [] && !BudgetLeft(t) then BudgetExhausted else NoEligibleBranch)
  }

  /** The child of the root above `k`. */
  function BranchOf(s: Shape, k: string): string
    requires Rooted(s) && k in s.keys && k != ROOT
    decreases Index(s.keys, k)
  {
    ParentIsEarlier(s, k);
    if s.parent[k] == ROOT then k else BranchOf(s, s.parent[k])
  }

  function ActiveBranch(t: Tree): Option<string>
    requires TreeOk(t)
  {
    var advice := Recommend(t);
    if t.mode != Iterative || t.paused || !advice.Do? || advice.node == ROOT || advice.node !in t.nodes then None
    else Some(BranchOf(ShapeOf(t.keys, t.nodes), advice.node))
  }

  method SyncActiveBranch(t: Tree) returns (branch: Option<string>)
    requires TreeOk(t)
    ensures branch == ActiveBranch(t)
  {
    if t.mode != Iterative || t.paused {
      return None;
    }
    var advice := Recommend(t);
    if !advice.Do? || advice.node == ROOT || advice.node !in t.nodes {
      return None;
    }
    var key := advice.node;
    ghost var s := ShapeOf(t.keys, t.nodes);
    StepUp(s, key);
    while t.nodes[key].parent != Some(ROOT)
      invariant key in t.nodes && key != ROOT
      invariant BranchOf(s, key) == BranchOf(s, advice.node)
      decreases Index(t.keys, key)
    {
      StepUp(s, key);
      key := t.nodes[key].parent.value;
    }
    return Some(key);
  }

  // ---------------------------------------------------------------- actions

  datatype Request =
    | Start(goal: string, mode: Mode, budget: Option<Budget>)
    | Propose(node: string, candidates: seq<Candidate>)
    | Record(node: string, feedback: Feedback, reward: Option<real>)
    | Pause(summary: Option<string>)
    | Resume(newMode: Option<Mode>, budget: Option<Budget>)

  datatype Error =
    | StaleRevision | TreeExists | NoTree | UnknownNode | NotExpandable | BudgetExceeded | DuplicateIdea
    | RootFeedback | UnknownEvidence | HistoryFull | CriticalGaps | BudgetBelowUse

  /** The observation journal: the WorkOrder behind each observation, if any. `ideaKey` folds case and
      white space; nothing is assumed of it. */
  type Journal = map<string, Option<string>>
  type Fold = string -> string

  const DEFAULT_BUDGET: Budget := 12
  const HISTORY_LIMIT := 8

  function StartTree(goal: string, mode: Mode, budget: Option<Budget>): Tree {
    Tree(goal, mode, if budget.Some? then budget.value else DEFAULT_BUDGET, false,
         [ROOT], map[ROOT := Node(None, goal, KeyGap, Medium, true, None, [], [], None)], None, None)
  }

  function NewNode(parent: string, c: Candidate): Node {
    Node(Some(parent), c.idea, c.priority, c.cost, true, None, [], [], None)
  }

  function IdeaKeys(fold: Fold, nodes: map<string, Node>): set<string> {
    set k | k in nodes :: fold(nodes[k].idea)
  }

  lemma NextKeyIsNew(keys: seq<string>)
    requires Numbered(keys)
    ensures |keys| > 0 ==> IdeaKey(|keys|) !in keys
  {
    if |keys| > 0 && IdeaKey(|keys|) in keys {
      var i :| 0 <= i < |keys| && keys[i] == IdeaKey(|keys|);
      assert KeyOk(keys, i);
      assert ROOT[0] != IdeaKey(|keys|)[0];
      assert IdeaKey(i)[5..] == TH.Decimal(i) && IdeaKey(|keys|)[5..] == TH.Decimal(|keys|);
      TH.DecimalInjective(i, |keys|);
    }
  }

  lemma KeysGrow(keys: seq<string>)
    requires Numbered(keys) && |keys| > 0
    ensures Numbered(keys + [IdeaKey(|keys|)]) && IdeaKey(|keys|) != ROOT
  {
    assert IdeaKey(|keys|)[0] != ROOT[0];
    var keys' := keys + [IdeaKey(|keys|)];
    forall i | 0 <= i < |keys'| ensures KeyOk(keys', i) {
      assert i < |keys| ==> KeyOk(keys, i);
    }
  }

  lemma ShapeGrows(keys: seq<string>, nodes: map<string, Node>, parent: string, key: string, n: Node)
    requires Rooted(ShapeOf(keys, nodes)) && (forall k :: k in nodes <==> k in keys)
    requires parent in nodes && key !in nodes && key != ROOT && n.parent == Some(parent)
    ensures Rooted(ShapeOf(keys + [key], nodes[key := n]))
  {
    var s, s' := ShapeOf(keys, nodes), ShapeOf(keys + [key], nodes[key := n]);
    assert s'.parent == s.parent[key := parent];
    forall i | 0 < i < |s'.keys| ensures Anchored(s', i) {
      if i < |keys| {
        assert Anchored(s, i);
        assert s'.keys[..i] == keys[..i];
      } else {
        assert s'.keys[..i] == keys;
      }
    }
  }

  lemma TreeGrows(keys: seq<string>, nodes: map<string, Node>, parent: string, c: Candidate)
    requires WellFormed(keys, nodes) && parent in nodes
    ensures WellFormed(keys + [IdeaKey(|keys|)], nodes[IdeaKey(|keys|) := NewNode(parent, c)])
  {
    NextKeyIsNew(keys);
    KeysGrow(keys);
    ShapeGrows(keys, nodes, parent, IdeaKey(|keys|), NewNode(parent, c));
  }

  function AddIdeas(fold: Fold, keys: seq<string>, nodes: map<string, Node>, existing: set<string>, parent: string,
                    candidates: seq<Candidate>): (r: Result<(seq<string>, map<string, Node>), Error>)
    requires WellFormed(keys, nodes) && parent in nodes
    ensures r.Ok? ==> WellFormed(r.value.0, r.value.1)
    decreases |candidates|
  {
    if candidates == [] then Ok((keys, nodes))
    else
      var c := candidates[0];
      if fold(c.idea) in existing then Err(DuplicateIdea)
      else
        TreeGrows(keys, nodes, parent, c);
        AddIdeas(fold, keys + [IdeaKey(|keys|)], nodes[IdeaKey(|keys|) := NewNode(parent, c)],
                 existing + {fold(c.idea)}, parent, candidates[1..])
  }

  function ProposeTo(fold: Fold, t: Tree, node: string, candidates: seq<Candidate>): (r: Result<Tree, Error>)
    requires TreeOk(t)
    ensures r.Ok? ==> TreeOk(r.value)
  {
    if node !in t.nodes then Err(UnknownNode)
    else if t.paused || !t.nodes[node].expandable then Err(NotExpandable)
    else if |t.keys| - 1 + |candidates| > t.nodeBudget then Err(BudgetExceeded)
    else
      var grown :- AddIdeas(fold, t.keys, t.nodes, IdeaKeys(fold, t.nodes), node, candidates);
      Ok(t.(keys := grown.0, nodes := grown.1))
  }

  function Experiments(journal: Journal, ids: seq<string>): seq<string>
    requires forall e :: e in ids ==> e in journal
  {
    if ids == [] then []
    else
      var last := ids[|ids| - 1];
      var order := journal[last];
      Experiments(journal, ids[..|ids| - 1]) + [if order.Some? && order.value != "" then order.value else last]
  }

  function Heard(n: Node, feedback: Feedback, reward: Option<real>, experiments: seq<string>): Node {
    n.(experimentKeys := SortStrings(Dedup(experiments)),
       reward := if reward.Some? then reward else if n.feedback != Some(feedback) then None else n.reward,
       feedback := Some(feedback),
       history := n.history + [feedback],
       expandable := feedback.expandable && feedback.branch !in {Blocked, Exhausted})
  }

  function RecordOn(
      journal: Journal, t: Tree, node: string, feedback: Feedback, reward: Option<real>): Result<Tree, Error>
  {
    if node !in t.nodes then Err(UnknownNode)
    else if node == ROOT then Err(RootFeedback)
    else if exists e :: e in feedback.evidenceIds && e !in journal then Err(UnknownEvidence)
    else if |t.nodes[node].history| >= HISTORY_LIMIT then Err(HistoryFull)
    else
      var heard := Heard(t.nodes[node], feedback, reward, Experiments(journal, feedback.evidenceIds));
      Ok(t.(nodes := t.nodes[node := heard]))
  }

  function PauseWith(t: Tree, summary: Option<string>): Result<Tree, Error>
    requires TreeOk(t)
  {
    var advice := Recommend(t.(paused := false));
    if summary.None? then
      Ok(t.(paused := true, stop := Some(if advice.Halt? then Advised(advice.reason) else Interrupted(advice))))
    else if t.mode == Iterative && exists i :: i in PendingFrom(t, t.keys) && i.priority != Supporting
    then Err(CriticalGaps)
    else Ok(t.(paused := true, stop := Some(Resolved(summary.value))))
  }

  function ResumeWith(t: Tree, mode: Option<Mode>, budget: Option<Budget>): Result<Tree, Error> {
    if budget.Some? && budget.value < |t.keys| - 1 then Err(BudgetBelowUse)
    else Ok(t.(paused := false, stop := None,
               mode := if mode.Some? then mode.value else t.mode,
               nodeBudget := if budget.Some? then budget.value else t.nodeBudget))
  }

  function Act(fold: Fold, journal: Journal, t: Tree, request: Request): Result<Tree, Error>
    requires TreeOk(t)
  {
    match request
    case Start(_, _, _) => Err(TreeExists)
    case Propose(node, candidates) => ProposeTo(fold, t, node, candidates)
    case Record(node, feedback, reward) => RecordOn(journal, t, node, feedback, reward)
    case Pause(summary) => PauseWith(t, summary)
    case Resume(mode, budget) => ResumeWith(t, mode, budget)
  }
}
