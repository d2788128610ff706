/** When each archived action is accepted and what it stores, told from the request and the tree before it. */
module LegacyOutcomes {
  import opened Common
  import opened RootedTree
  import opened Legacy
  import opened LegacyStore
  import opened LegacyProofs
  import TH = ToolHistory

  // ---------------------------------------------------------------- who is let in

  /** Every action needs the current revision, a start no tree, and every other action a tree. */
  lemma GuardsExactly(fold: Fold, journal: Journal, s: State, expected: nat, request: Request)
    requires StateOk(s)
    ensures var r := Attempt(fold, journal, s, expected, request);
      && (expected != s.revision ==> r == Err(StaleRevision))
      && (expected == s.revision && request.Start? && s.tree.Some? ==> r == Err(TreeExists))
      && (expected == s.revision && !request.Start? && s.tree.None? ==> r == Err(NoTree))
  {
  }

  /** An accepted action is stored under the next revision with the branch on display; a refused one leaves
      the store as it is. */
  lemma StepExactly(fold: Fold, journal: Journal, s: State, expected: nat, request: Request)
    requires StateOk(s)
    ensures var r, s' := Attempt(fold, journal, s, expected, request), Step(fold, journal, s, expected, request);
      if r.Ok? then
        && s'.revision == s.revision + 1 && s'.tree.Some?
        && s'.tree.value == r.value.(activeBranch := ActiveBranch(r.value))
      else s' == s
  {
  }

  ghost function Accepted(fold: Fold, calls: seq<Call>): nat {
    if calls == [] then 0
    else
      var front, c := calls[..|calls| - 1], calls[|calls| - 1];
      Accepted(fold, front) + if Attempt(fold, c.journal, Run(fold, front), c.expected, c.request).Ok? then 1 else 0
  }

  /** The revision counts the actions accepted so far. */
  lemma {:induction false} RevisionCountsActions(fold: Fold, calls: seq<Call>)
    ensures Run(fold, calls).revision == Accepted(fold, calls)
  {
    if calls != [] {
      var front, c := calls[..|calls| - 1], calls[|calls| - 1];
      RevisionCountsActions(fold, front);
      StepExactly(fold, c.journal, Run(fold, front), c.expected, c.request);
    }
  }

  /** A start stores the goal as the only node, expandable, a key gap of medium cost, with room for the
      number of ideas asked for or else for twelve. */
  lemma StartExactly(fold: Fold, journal: Journal, s: State, goal: string, mode: Mode, budget: Option<Budget>)
    requires StateOk(s) && s.tree.None?
    ensures Attempt(fold, journal, s, s.revision, Start(goal, mode, budget))
         == Ok(Tree(goal, mode, match budget case Some(n) => n case None => 12, false, ["root"],
                    map["root" := Node(None, goal, KeyGap, Medium, true, None, [], [], None)], None, None))
  {
  }

  /** A resume is refused exactly when fewer ideas are asked for than there are; it ends the pause, forgets
      the stop decision, and changes mode and budget only as asked. */
  lemma ResumeExactly(fold: Fold, journal: Journal, s: State, mode: Option<Mode>, budget: Option<Budget>)
    requires StateOk(s) && s.tree.Some?
    ensures var t, r := s.tree.value, Attempt(fold, journal, s, s.revision, Resume(mode, budget));
      && (r.Ok? <==> budget.None? || |t.keys| - 1 <= budget.value)
      && (r.Ok? ==> r.value == t.(paused := false, stop := None,
                                  mode := match mode case Some(m) => m case None => t.mode,
                                  nodeBudget := match budget case Some(n) => n case None => t.nodeBudget))
  {
  }

  /** A pause with a completion summary is accepted exactly in ideas mode or when all open work is only
      supporting, and stores that summary. One without is always accepted and stores the advice of the active
      tree: its reason to stop, or the work that is interrupted. */
  lemma PauseExactly(fold: Fold, journal: Journal, s: State, summary: Option<string>)
    requires StateOk(s) && s.tree.Some?
    ensures var t, r := s.tree.value, Attempt(fold, journal, s, s.revision, Pause(summary));
      && (r.Ok? <==>
            summary.None? || t.mode == Ideas
            || forall i :: i in PendingFrom(t, t.keys) ==> i.priority == Supporting)
      && (r.Ok? ==>
            && r.value.stop.Some? && r.value == t.(paused := true, stop := r.value.stop)
            && match summary
               case Some(text) => r.value.stop == Some(Resolved(text))
               case None =>
                 match Recommend(t.(paused := false))
                 case Halt(reason) => r.value.stop == Some(Advised(reason))
                 case Do(action, node) => r.value.stop == Some(Interrupted(Do(action, node)))
                 case StayPaused => false)
  {
  }

  // ---------------------------------------------------------------- proposals

  ghost predicate FoldsOutside(fold: Fold, cs: seq<Candidate>, taken: set<string>) {
    && (forall i :: 0 <= i < |cs| ==> fold(cs[i].idea) !in taken)
    && (forall i, j :: 0 <= i < j < |cs| ==> fold(cs[i].idea) != fold(cs[j].idea))
  }

  lemma FoldsCons(fold: Fold, c: Candidate, rest: seq<Candidate>, taken: set<string>)
    ensures FoldsOutside(fold, [c] + rest, taken) <==>
      fold(c.idea) !in taken && FoldsOutside(fold, rest, taken + {fold(c.idea)})
  {
    var cs := [c] + rest;
    assert cs[0] == c;
    assert forall i :: 0 <= i < |rest| ==> cs[i + 1] == rest[i];
    assert forall i :: 1 <= i < |cs| ==> cs[i] == rest[i - 1];
    if FoldsOutside(fold, cs, taken) {
      forall i, j | 0 <= i < j < |rest| ensures fold(rest[i].idea) != fold(rest[j].idea) {
        assert fold(cs[i + 1].idea) != fold(cs[j + 1].idea);
      }
      forall i | 0 <= i < |rest| ensures fold(rest[i].idea) !in taken + {fold(c.idea)} {
        assert fold(cs[0].idea) != fold(cs[i + 1].idea);
      }
    }
  }

  /** The keys of the next `n` ideas. */
  ghost function NextKeys(from: nat, n: nat): (keys: seq<string>)
    ensures |keys| == n && forall i :: 0 <= i < n ==> keys[i] == "idea_" + TH.Decimal(from + i)
  {
    seq(n, i requires 0 <= i < n => "idea_" + TH.Decimal(from + i))
  }

  lemma NextKeysFirst(from: nat, n: nat)
    ensures NextKeys(from, n + 1) == ["idea_" + TH.Decimal(from)] + NextKeys(from + 1, n)
  {
    var all, later := NextKeys(from, n + 1), NextKeys(from + 1, n);
    forall i | 1 <= i < n + 1 ensures all[i] == later[i - 1] {
      assert from + i == from + 1 + (i - 1);
    }
  }

  lemma Rejoined(keys: seq<string>, key: string, later: seq<string>)
    ensures keys + [key] + later == keys + ([key] + later)
  {
  }

  lemma NextKeysCons(keys: seq<string>, key: string, n: nat)
    requires key == "idea_" + TH.Decimal(|keys|)
    ensures NextKeys(|keys|, n + 1) == [key] + NextKeys(|keys| + 1, n)
    ensures keys + [key] + NextKeys(|keys| + 1, n) == keys + NextKeys(|keys|, n + 1)
  {
    NextKeysFirst(|keys|, n);
    Rejoined(keys, key, NextKeys(|keys| + 1, n));
  }

  /** A proposed idea: open, not heard of, and expandable. */
  ghost predicate IdeaAt(nodes: map<string, Node>, key: string, parent: string, c: Candidate) {
    key in nodes && nodes[key] == Node(Some(parent), c.idea, c.priority, c.cost, true, None, [], [], None)
  }

  /** The ideas of before, and below the parent one for each candidate, numbered on. */
  ghost predicate IdeasStored(
      keys: seq<string>, nodes: map<string, Node>, keys': seq<string>, nodes': map<string, Node>, parent: string,
      cs: seq<Candidate>)
  {
    var added := NextKeys(|keys|, |cs|);
    && keys' == keys + added
    && (forall k :: k in nodes ==> k in nodes' && nodes'[k] == nodes[k])
    && (forall k :: k in nodes' ==> k in nodes || k in added)
    && (forall i :: 0 <= i < |cs| ==> IdeaAt(nodes', added[i], parent, cs[i]))
  }

  lemma StoredCons(
      keys: seq<string>, nodes: map<string, Node>, key: string, n: Node, keys': seq<string>, nodes': map<string, Node>,
      parent: string, c: Candidate, rest: seq<Candidate>)
    requires key == "idea_" + TH.Decimal(|keys|) && key !in nodes
    requires n == Node(Some(parent), c.idea, c.priority, c.cost, true, None, [], [], None)
    requires IdeasStored(keys + [key], nodes[key := n], keys', nodes', parent, rest)
    ensures IdeasStored(keys, nodes, keys', nodes', parent, [c] + rest)
  {
    var cs, added, later := [c] + rest, NextKeys(|keys|, |rest| + 1), NextKeys(|keys| + 1, |rest|);
    NextKeysCons(keys, key, |rest|);
    assert IdeaAt(nodes', key, parent, c) by {
      assert key in nodes[key := n];
    }
    forall i | 0 <= i < |cs| ensures IdeaAt(nodes', added[i], parent, cs[i]) {
      if i > 0 {
        assert cs[i] == rest[i - 1] && added[i] == later[i - 1];
      }
    }
  }

  lemma {:induction false} GrowthExactly(
      fold: Fold, keys: seq<string>, nodes: map<string, Node>, taken: set<string>, parent: string, cs: seq<Candidate>)
    requires WellFormed(keys, nodes) && parent in nodes
    ensures var r := AddIdeas(fold, keys, nodes, taken, parent, cs);
      && (r.Ok? <==> FoldsOutside(fold, cs, taken))
      && (r.Ok? ==> IdeasStored(keys, nodes, r.value.0, r.value.1, parent, cs))
    decreases |cs|
  {
    if cs != [] {
      var c, rest := cs[0], cs[1..];
      assert cs == [c] + rest;
      FoldsCons(fold, c, rest, taken);
      if fold(c.idea) !in taken {
        TreeGrows(keys, nodes, parent, c);
        NextKeyIsNew(keys);
        var key, n := IdeaKey(|keys|), NewNode(parent, c);
        GrowthExactly(fold, keys + [key], nodes[key := n], taken + {fold(c.idea)}, parent, rest);
        var r := AddIdeas(fold, keys + [key], nodes[key := n], taken + {fold(c.idea)}, parent, rest);
        assert AddIdeas(fold, keys, nodes, taken, parent, cs) == r;
        if r.Ok? {
          StoredCons(keys, nodes, key, n, r.value.0, r.value.1, parent, c, rest);
        }
      }
    }
  }

  /** A proposal is accepted exactly on an active tree, below a known expandable node, within the budget,
      with ideas that are new and distinct; it stores one open idea for each candidate and nothing else. */
  lemma ProposeExactly(fold: Fold, journal: Journal, s: State, node: string, cs: seq<Candidate>)
    requires StateOk(s) && s.tree.Some?
    ensures var t, r := s.tree.value, Attempt(fold, journal, s, s.revision, Propose(node, cs));
      && (r.Ok? <==>
            && node in t.nodes && !t.paused && t.nodes[node].expandable && |t.keys| - 1 + |cs| <= t.nodeBudget
            && FoldsOutside(fold, cs, set k | k in t.nodes :: fold(t.nodes[k].idea)))
      && (r.Ok? ==>
            && r.value == t.(keys := r.value.keys, nodes := r.value.nodes)
            && IdeasStored(t.keys, t.nodes, r.value.keys, r.value.nodes, node, cs))
  {
    var t := s.tree.value;
    if node in t.nodes {
      GrowthExactly(fold, t.keys, t.nodes, IdeaKeys(fold, t.nodes), node, cs);
    }
  }

  // ---------------------------------------------------------------- feedback

  /** The experiment behind an observation: its WorkOrder, or itself without one. */
  function Source(journal: Journal, e: string): string
    requires e in journal
  {
    match journal[e]
    case Some(order) => if order != "" then order else e
    case None => e
  }

  ghost function Sources(journal: Journal, ids: seq<string>): set<string>
    requires forall e :: e in ids ==> e in journal
  {
    set e | e in ids :: Source(journal, e)
  }

  lemma {:induction false} ExperimentsAreSources(journal: Journal, ids: seq<string>)
    requires forall e :: e in ids ==> e in journal
    ensures Elements(Experiments(journal, ids)) == Sources(journal, ids)
  {
    if ids != [] {
      var front, last := ids[..|ids| - 1], ids[|ids| - 1];
      assert ids == front + [last];
      ExperimentsAreSources(journal, front);
      SourcesSnoc(journal, front, last);
      ElementsSnoc(Experiments(journal, front), Source(journal, last));
    }
  }

  lemma SourcesSnoc(journal: Journal, front: seq<string>, last: string)
    requires forall e :: e in front + [last] ==> e in journal
    requires forall e :: e in front ==> e in journal
    requires last in journal
    ensures Sources(journal, front + [last]) == Sources(journal, front) + {Source(journal, last)}
  {
  }

  lemma ElementsSnoc(front: seq<string>, last: string)
    ensures Elements(front + [last]) == Elements(front) + {last}
  {
  }

  /** What feedback leaves of a node: the feedback, last in the history; the experiments it rests on, in
      order; the reward given, or none for new feedback; and whether there may be more below. */
  ghost predicate HeardRight(
      n: Node, n': Node, feedback: Feedback, reward: Option<real>, sources: set<string>)
  {
    && n'.parent == n.parent && n'.idea == n.idea && n'.priority == n.priority && n'.cost == n.cost
    && n'.feedback == Some(feedback) && n'.history == n.history + [feedback]
    && StringsAscend(n'.experimentKeys) && Elements(n'.experimentKeys) == sources
    && n'.reward == (match reward
                     case Some(given) => Some(given)
                     case None => if n.feedback == Some(feedback) then n.reward else None)
    && (n'.expandable <==> feedback.expandable && feedback.branch != Blocked && feedback.branch != Exhausted)
  }

  lemma NodeHears(journal: Journal, n: Node, feedback: Feedback, reward: Option<real>)
    requires forall e :: e in feedback.evidenceIds ==> e in journal
    ensures HeardRight(n, Heard(n, feedback, reward, Experiments(journal, feedback.evidenceIds)), feedback, reward,
                       Sources(journal, feedback.evidenceIds))
  {
    var experiments := Experiments(journal, feedback.evidenceIds);
    ExperimentsAreSources(journal, feedback.evidenceIds);
    SortedStrings(Dedup(experiments));
    assert Elements(SortStrings(Dedup(experiments))) == Elements(Dedup(experiments));
  }

  lemma HearingExactly(journal: Journal, t: Tree, node: string, feedback: Feedback, reward: Option<real>)
    ensures var r := RecordOn(journal, t, node, feedback, reward);
      && (r.Ok? <==>
            && node in t.nodes && node != "root" && |t.nodes[node].history| < 8
            && forall e :: e in feedback.evidenceIds ==> e in journal)
      && (r.Ok? ==>
            && node in r.value.nodes
            && r.value == t.(nodes := t.nodes[node := r.value.nodes[node]])
            && HeardRight(t.nodes[node], r.value.nodes[node], feedback, reward,
                          Sources(journal, feedback.evidenceIds)))
  {
    if RecordOn(journal, t, node, feedback, reward).Ok? {
      NodeHears(journal, t.nodes[node], feedback, reward);
    }
  }

  /** Feedback is accepted exactly on a known node other than the root, with evidence of the journal, at most
      eight times a node; it changes that node only. */
  lemma RecordExactly(fold: Fold, journal: Journal, s: State, node: string, feedback: Feedback, reward: Option<real>)
    requires StateOk(s) && s.tree.Some?
    ensures var t, r := s.tree.value, Attempt(fold, journal, s, s.revision, Record(node, feedback, reward));
      && (r.Ok? <==>
            && node in t.nodes && node != "root" && |t.nodes[node].history| < 8
            && forall e :: e in feedback.evidenceIds ==> e in journal)
      && (r.Ok? ==>
            && node in r.value.nodes
            && r.value == t.(nodes := t.nodes[node := r.value.nodes[node]])
            && HeardRight(t.nodes[node], r.value.nodes[node], feedback, reward,
                          Sources(journal, feedback.evidenceIds)))
  {
    HearingExactly(journal, s.tree.value, node, feedback, reward);
  }

  lemma NoElements(s: seq<string>)
    ensures s == [] <==> Elements(s) == {}
  {
    if s != [] {
      assert s[0] in Elements(s);
    }
  }

  lemma NoSources(journal: Journal, ids: seq<string>)
    requires forall e :: e in ids ==> e in journal
    ensures ids == [] <==> Sources(journal, ids) == {}
  {
    if ids != [] {
      assert ids[0] in ids && Source(journal, ids[0]) in Sources(journal, ids);
    }
  }

  /** What the statistics take a report for: the WorkOrders and observations it rests on, or else its node. */
  lemma ReportIsItsSources(key: string, n: Node, n': Node, feedback: Feedback, reward: Option<real>, journal: Journal)
    requires forall e :: e in feedback.evidenceIds ==> e in journal
    requires HeardRight(n, n', feedback, reward, Sources(journal, feedback.evidenceIds))
    ensures Identities(key, n')
         == if feedback.evidenceIds == [] then {key} else Sources(journal, feedback.evidenceIds)
    ensures Legacy.Reward(n') == match n'.reward case Some(r) => r case None => 0.0
  {
    NoElements(n'.experimentKeys);
    NoSources(journal, feedback.evidenceIds);
  }

  /** An archive of before the experiments were kept goes by the observations alone. */
  lemma OldReportIsItsEvidence(key: string, n: Node)
    requires n.feedback.Some? && n.experimentKeys == []
    ensures Identities(key, n)
         == if n.feedback.value.evidenceIds == [] then {key} else set e | e in n.feedback.value.evidenceIds
  {
  }

  /** Observations of one WorkOrder are one experiment: two reports with such observations share it, so that
      of two nodes at or below `a` the shallower one does not count there. */
  lemma OneOrderIsOneExperiment(
      t: Tree, a: string, deep: string, shallow: string, journal: Journal, order: string, e: string, e': string)
    requires TreeOk(t) && a in t.nodes && deep in Below(t, a) && shallow in Below(t, a)
    requires Depth(ShapeOf(t.keys, t.nodes), deep) > Depth(ShapeOf(t.keys, t.nodes), shallow)
    requires e in journal && e' in journal && order != "" && journal[e] == journal[e'] == Some(order)
    requires ReportsOn(t.nodes[deep], journal, e) && ReportsOn(t.nodes[shallow], journal, e')
    ensures shallow !in Counted(Order(t), Below(t, a))
  {
    assert order in Identities(deep, t.nodes[deep]) && order in Identities(shallow, t.nodes[shallow]);
    ConcreteBeatsSynthesis(t, a, deep, shallow);
  }

  /** The node was last heard with this observation as evidence. */
  ghost predicate ReportsOn(n: Node, journal: Journal, e: string)
    requires e in journal
  {
    n.feedback.Some? && e in n.feedback.value.evidenceIds && Source(journal, e) in n.experimentKeys
  }

  // ---------------------------------------------------------------- pending work

  /** Closed by a decision on its branch, or by an outcome that leaves nothing to follow up. */
  ghost predicate Settled(n: Node) {
    match n.feedback
    case None => false
    case Some(f) =>
      || f.branch == Solved || f.branch == Exhausted || f.branch == Blocked
      || f.outcome == Contradicted || f.outcome == Deferred
  }

  ghost predicate HasChild(t: Tree, k: string) {
    exists c :: c in t.nodes && t.nodes[c].parent == Some(k)
  }

  /** The work on an open node: a synthesis when it has children or was heard and may not be expanded, an
      expansion when it was heard and may, and a first test, or in ideas mode an expansion, otherwise. */
  ghost predicate WorkRight(t: Tree, i: Item) {
    && i.key in t.nodes
    && var n := t.nodes[i.key];
       && i.action == (if HasChild(t, i.key) then Synthesize
                       else if n.feedback.Some? then (if n.expandable then Expand else Synthesize)
                       else if t.mode == Iterative then Test else Expand)
       && i.priority == (if n.feedback.Some? && n.feedback.value.priority.Some? then n.feedback.value.priority.value
                         else n.priority)
       && i.cost == (if n.feedback.Some? && n.feedback.value.cost.Some? then n.feedback.value.cost.value else n.cost)
  }

  lemma ItemsAreRight(t: Tree, k: string)
    requires TreeOk(t) && k in t.nodes
    ensures forall i :: i in ItemsFor(t, k) ==> WorkRight(t, i)
  {
    var cs := ChildrenOf(t, k);
    if cs != [] {
      assert cs[0] in cs;
    }
    assert HasChild(t, k) <==> cs != [];
  }

  lemma {:induction false} PendingIsRight(t: Tree, keys: seq<string>, i: Item)
    requires TreeOk(t) && Known(t, keys) && i in PendingFrom(t, keys)
    ensures WorkRight(t, i)
  {
    var front, last := keys[..|keys| - 1], keys[|keys| - 1];
    if i in PendingFrom(t, front) {
      PendingIsRight(t, front, i);
    } else {
      ItemsAreRight(t, last);
    }
  }

  lemma SettledIsClosed(n: Node)
    ensures Closed(n) <==> Settled(n)
  {
  }

  /** Pending are exactly the open ideas whose children are all closed, each with the work it calls for. */
  lemma PendingWorkExactly(t: Tree, k: string)
    requires TreeOk(t)
    ensures (exists i :: i in PendingFrom(t, t.keys) && i.key == k) <==>
      && k in t.nodes && k != "root" && !Settled(t.nodes[k])
      && forall c :: c in t.nodes && t.nodes[c].parent == Some(k) ==> Settled(t.nodes[c])
    ensures forall i :: i in PendingFrom(t, t.keys) ==> WorkRight(t, i)
  {
    PendingExactly(t, k);
    forall n: string | n in t.nodes ensures Closed(t.nodes[n]) <==> Settled(t.nodes[n]) {
      SettledIsClosed(t.nodes[n]);
    }
    forall i | i in PendingFrom(t, t.keys) ensures WorkRight(t, i) {
      PendingIsRight(t, t.keys, i);
    }
  }

  // ---------------------------------------------------------------- advice

  ghost predicate MoreUrgent(a: Priority, b: Priority) {
    (a == Contradiction && b != Contradiction) || (a == KeyGap && b == Supporting)
  }

  ghost predicate Cheaper(a: Cost, b: Cost) {
    (a == Low && b != Low) || (a == Medium && b == High)
  }

  ghost predicate Sooner(a: Action, b: Action) {
    (a == Test && b != Test) || (a == Synthesize && b == Expand)
  }

  /** Items rank by priority, then by cost, then by action. */
  lemma RankIsLexicographic(a: Item, b: Item)
    ensures Rank(a) < Rank(b) <==>
      || MoreUrgent(a.priority, b.priority)
      || (a.priority == b.priority && Cheaper(a.cost, b.cost))
      || (a.priority == b.priority && a.cost == b.cost && Sooner(a.action, b.action))
    ensures Rank(a) == Rank(b) <==> a.priority == b.priority && a.cost == b.cost && a.action == b.action
  {
  }

  /** A paused tree is advised to stay so, and no other; an expansion is advised only while ideas fit. */
  lemma AdviceExactly(t: Tree)
    requires TreeOk(t)
    ensures Recommend(t) == StayPaused <==> t.paused
    ensures Recommend(t).Do? && Recommend(t).action == Expand ==> |t.keys| - 1 < t.nodeBudget
    ensures !t.paused && t.keys == ["root"] && t.nodeBudget > 0 ==> Recommend(t) == Do(Expand, "root")
  {
    LoneRoot(t);
    SortThenFirst(PendingFrom(t, t.keys), BudgetLeft(t));
    PendingEmptyExactly(t);
  }
}
