/** The archived tree as a stored record: one action, one transaction (src/oceanx/exploration_legacy.py). */
module LegacyStore {
  import opened Common
  import opened RootedTree
  import opened Legacy

  datatype State = State(tree: Option<Tree>, revision: nat)

  ghost predicate StateOk(s: State) {
    s.tree.Some? ==> TreeOk(s.tree.value)
  }

  lemma StartTreeOk(goal: string, mode: Mode, budget: Option<Budget>)
    ensures TreeOk(StartTree(goal, mode, budget))
  {
    assert KeyOk([ROOT], 0);
  }

  lemma NodesKeepShape(t: Tree, nodes: map<string, Node>)
    requires TreeOk(t) && nodes.Keys == t.nodes.Keys && forall k :: k in nodes ==> nodes[k].parent == t.nodes[k].parent
    ensures ShapeOf(t.keys, nodes) == ShapeOf(t.keys, t.nodes) && WellFormed(t.keys, nodes)
  {
    assert ShapeOf(t.keys, nodes).parent == ShapeOf(t.keys, t.nodes).parent;
  }

  lemma ActKeepsTreeOk(fold: Fold, journal: Journal, t: Tree, request: Request)
    requires TreeOk(t)
    ensures var r := Act(fold, journal, t, request);
      r.Ok? ==> TreeOk(r.value)
  {
    var r := Act(fold, journal, t, request);
    if r.Ok? && request.Record? {
      NodesKeepShape(t, r.value.nodes);
    }
  }

  ghost function Attempt(
      fold: Fold, journal: Journal, s: State, expected: nat, request: Request): (r: Result<Tree, Error>)
    requires StateOk(s)
    ensures r.Ok? ==> TreeOk(r.value)
  {
    if expected != s.revision then Err(StaleRevision)
    else if request.Start? then
      StartTreeOk(request.goal, request.mode, request.budget);
      if s.tree.Some? then Err(TreeExists) else Ok(StartTree(request.goal, request.mode, request.budget))
    else if s.tree.None? then Err(NoTree)
    else
      ActKeepsTreeOk(fold, journal, s.tree.value, request);
      Act(fold, journal, s.tree.value, request)
  }

  /** The call saves its tree with the branch to show, under the next revision, or changes nothing. */
  ghost function Step(fold: Fold, journal: Journal, s: State, expected: nat, request: Request): (s': State)
    requires StateOk(s)
    ensures StateOk(s')
  {
    var r := Attempt(fold, journal, s, expected, request);
    if r.Err? then s else State(Some(r.value.(activeBranch := ActiveBranch(r.value))), s.revision + 1)
  }

  datatype Call = Call(journal: Journal, expected: nat, request: Request)

  ghost function Run(fold: Fold, calls: seq<Call>): (s: State)
    ensures StateOk(s)
  {
    if calls == [] then State(None, 0)
    else
      var c := calls[|calls| - 1];
      Step(fold, c.journal, Run(fold, calls[..|calls| - 1]), c.expected, c.request)
  }

  class Archive {
    const fold: Fold
    var tree: Option<Tree>
    var revision: nat

    ghost function Now(): State
      reads this
    {
      State(tree, revision)
    }

    ghost predicate Valid()
      reads this
    {
      StateOk(Now())
    }

    constructor (fold: Fold)
      ensures this.fold == fold && Valid() && Now() == State(None, 0)
    {
      this.fold := fold;
      tree, revision := None, 0;
    }

    method Call(journal: Journal, expected: nat, request: Request) returns (outcome: Option<Error>)
      requires Valid()
      modifies this
      ensures Valid() && Now() == Step(fold, journal, old(Now()), expected, request)
      ensures var r := Attempt(fold, journal, old(Now()), expected, request);
        outcome == if r.Ok? then None else Some(r.error)
    {
      if expected != revision {
        return Some(StaleRevision);
      }
      var t: Tree;
      if request.Start? {
        if tree.Some? {
          return Some(TreeExists);
        }
        StartTreeOk(request.goal, request.mode, request.budget);
        t := StartTree(request.goal, request.mode, request.budget);
      } else {
        if tree.None? {
          return Some(NoTree);
        }
        ActKeepsTreeOk(fold, journal, tree.value, request);
        var r := Perform(journal, tree.value, request);
        if r.Err? {
          return Some(r.error);
        }
        t := r.value;
      }
      var branch := SyncActiveBranch(t);
      tree, revision := Some(t.(activeBranch := branch)), revision + 1;
      return None;
    }

    method Perform(journal: Journal, t0: Tree, request: Request) returns (r: Result<Tree, Error>)
      requires TreeOk(t0) && !request.Start?
      ensures r == Act(fold, journal, t0, request)
    {
      var t := t0;
      match request {
        case Pause(summary) =>
          r := Stopped(t, summary);
          return;
        case Resume(mode, budget) =>
          t := t.(paused := false, stop := None);
          if mode.Some? {
            t := t.(mode := mode.value);
          }
          if budget.Some? {
            if budget.value < |t.keys| - 1 {
              return Err(BudgetBelowUse);
            }
            t := t.(nodeBudget := budget.value);
          }
          return Ok(t);
        case Propose(node, candidates) =>
          if node !in t.nodes {
            return Err(UnknownNode);
          }
          if t.paused || !t.nodes[node].expandable {
            return Err(NotExpandable);
          }
          if |t.keys| - 1 + |candidates| > t.nodeBudget {
            return Err(BudgetExceeded);
          }
          r := Grow(t, node, candidates);
          return;
        case Record(node, feedback, reward) =>
          if node !in t.nodes {
            return Err(UnknownNode);
          }
          if node == ROOT {
            return Err(RootFeedback);
          }
          r := Hear(journal, t, node, feedback, reward);
          return;
      }
    }

    method Stopped(t: Tree, summary: Option<string>) returns (r: Result<Tree, Error>)
      requires TreeOk(t)
      ensures r == PauseWith(t, summary)
    {
      var decision := Recommend(t.(paused := false));
      var stop := if decision.Halt? then Advised(decision.reason) else Interrupted(decision);
      if summary.Some? {
        var pending := Pending(t);
        if t.mode == Iterative && exists i :: i in pending && i.priority != Supporting {
          return Err(CriticalGaps);
        }
        stop := Resolved(summary.value);
      }
      return Ok(t.(stop := Some(stop), paused := true));
    }

    method Grow(t: Tree, node: string, candidates: seq<Candidate>) returns (r: Result<Tree, Error>)
      requires TreeOk(t) && node in t.nodes
      ensures var grown := AddIdeas(fold, t.keys, t.nodes, IdeaKeys(fold, t.nodes), node, candidates);
        r == if grown.Ok? then Ok(t.(keys := grown.value.0, nodes := grown.value.1)) else Err(grown.error)
    {
      var keys, nodes, existing := t.keys, t.nodes, IdeaKeys(fold, t.nodes);
      for i := 0 to |candidates|
        invariant WellFormed(keys, nodes) && node in nodes
        invariant AddIdeas(fold, keys, nodes, existing, node, candidates[i..])
               == AddIdeas(fold, t.keys, t.nodes, IdeaKeys(fold, t.nodes), node, candidates)
      {
        assert candidates[i..][0] == candidates[i] && candidates[i..][1..] == candidates[i + 1..];
        var normalized := fold(candidates[i].idea);
        if normalized in existing {
          return Err(DuplicateIdea);
        }
        TreeGrows(keys, nodes, node, candidates[i]);
        existing := existing + {normalized};
        var key := IdeaKey(|keys|);
        keys, nodes := keys + [key], nodes[key := NewNode(node, candidates[i])];
      }
      return Ok(t.(keys := keys, nodes := nodes));
    }

    method ExperimentsBehind(journal: Journal, ids: seq<string>) returns (r: Option<seq<string>>)
      ensures r.Some? <==> forall e :: e in ids ==> e in journal
      ensures r.Some? ==> r.value == Experiments(journal, ids)
    {
      var experiments: seq<string> := [];
      for i := 0 to |ids|
        invariant forall e :: e in ids[..i] ==> e in journal
        invariant experiments == Experiments(journal, ids[..i])
      {
        assert ids[i] in ids;
        if ids[i] !in journal {
          return None;
        }
        var order := journal[ids[i]];
        experiments := experiments + [if order.Some? && order.value != "" then order.value else ids[i]];
        TakeOneMore(ids, i);
        assert ids[..i + 1][..i] == ids[..i];
      }
      assert ids[..|ids|] == ids;
      return Some(experiments);
    }

    method Hear(
        journal: Journal, t: Tree, key: string, feedback: Feedback, reward: Option<real>)
      returns (r: Result<Tree, Error>)
      requires key in t.nodes && key != ROOT
      ensures r == RecordOn(journal, t, key, feedback, reward)
    {
      var experiments := ExperimentsBehind(journal, feedback.evidenceIds);
      if experiments.None? {
        return Err(UnknownEvidence);
      }
      var node := t.nodes[key];
      if |node.history| >= HISTORY_LIMIT {
        return Err(HistoryFull);
      }
      node := node.(experimentKeys := SortStrings(Dedup(experiments.value)));
      if reward.Some? {
        node := node.(reward := reward);
      } else if node.feedback != Some(feedback) {
        node := node.(reward := None);
      }
      node := node.(feedback := Some(feedback), history := node.history + [feedback]);
      node := node.(expandable := feedback.expandable && feedback.branch !in {Blocked, Exhausted});
      return Ok(t.(nodes := t.nodes[key := node]));
    }
  }
}
