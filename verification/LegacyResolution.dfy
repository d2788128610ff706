/** When a recorded resolution of the archived protocol is right, and exactly what makes it wrong. */
module LegacyResolution {
  import opened Common
  import opened RootedTree
  import opened Legacy
  import opened LegacyStore
  import opened LegacyProofs
  import opened LegacyRuns

  // ---------------------------------------------------------------- completion

  /** No open idea with all its children closed has a priority above supporting. */
  ghost predicate OnlySupporting(t: Tree)
    requires TreeOk(t)
  {
    forall k :: k in t.nodes && Actionable(t, k) ==> PriorityOf(t.nodes[k]) == Supporting
  }

  lemma PendingSupporting(t: Tree)
    requires TreeOk(t)
    ensures (forall i :: i in PendingFrom(t, t.keys) ==> i.priority == Supporting) <==> OnlySupporting(t)
  {
    var pending := PendingFrom(t, t.keys);
    forall i | i in pending
      ensures i.key in t.nodes && Actionable(t, i.key) && i.priority == PriorityOf(t.nodes[i.key])
    {
      PendingExactly(t, i.key);
    }
    forall k | k in t.nodes && Actionable(t, k)
      ensures exists i :: i in pending && i.priority == PriorityOf(t.nodes[k])
    {
      PendingExactly(t, k);
      var i :| i in pending && i.key == k;
      assert i.priority == PriorityOf(t.nodes[k]);
    }
  }

  /** A completion summary is accepted exactly when only supporting work is left, or in ideas mode. */
  lemma CompletionExactly(t: Tree, summary: string)
    requires TreeOk(t)
    ensures PauseWith(t, Some(summary)).Ok? <==> t.mode == Ideas || OnlySupporting(t)
    ensures PauseWith(t, Some(summary)).Ok? ==> PauseWith(t, Some(summary)).value.stop == Some(Resolved(summary))
  {
    PendingSupporting(t);
  }

  // ---------------------------------------------------------------- what feedback does to it

  predicate OpenChild(t: Tree, p: string, c: string) {
    c in t.nodes && t.nodes[c].parent == Some(p) && !Closed(t.nodes[c])
  }

  /** Whether the feedback closes the node it is about. */
  predicate Closes(f: Feedback) {
    f.branch in {Solved, Blocked, Exhausted} || f.outcome in {Contradicted, Deferred}
  }

  function PriorityAfter(n: Node, f: Feedback): Priority {
    if f.priority.Some? then f.priority.value else n.priority
  }

  /** The node itself does not become a gap: the feedback closes it, an open child stands for it, or it
      is supporting. */
  ghost predicate NodeStaysFine(t: Tree, node: string, f: Feedback)
    requires node in t.nodes
  {
    Closes(f) || (exists c :: OpenChild(t, node, c)) || PriorityAfter(t.nodes[node], f) == Supporting
  }

  /** Its parent does not become one either: with the node closed, the parent is the root, closed, still
      represented by another open child, or supporting. */
  ghost predicate ParentStaysFine(t: Tree, node: string, f: Feedback)
    requires TreeOk(t) && node in t.nodes && node != ROOT
  {
    Closes(f) ==>
      var p := ParentOf(t, node);
      || p == ROOT || Closed(t.nodes[p])
      || (exists c :: c != node && OpenChild(t, p, c))
      || PriorityOf(t.nodes[p]) == Supporting
  }

  function ParentOf(t: Tree, node: string): (p: string)
    requires TreeOk(t) && node in t.nodes && node != ROOT
    ensures t.nodes[node].parent == Some(p) && p in t.nodes && p != node
  {
    StepUp(ShapeOf(t.keys, t.nodes), node);
    t.nodes[node].parent.value
  }

  /** `after` is `t` with feedback on one node. */
  ghost predicate HeardAt(t: Tree, after: Tree, node: string, f: Feedback) {
    && TreeOk(t) && TreeOk(after) && node in t.nodes && node != ROOT
    && after.nodes.Keys == t.nodes.Keys
    && (forall k :: k in t.nodes && k != node ==> after.nodes[k] == t.nodes[k])
    && after.nodes[node].parent == t.nodes[node].parent
    && Closed(after.nodes[node]) == Closes(f)
    && PriorityOf(after.nodes[node]) == PriorityAfter(t.nodes[node], f)
  }

  lemma NodeSelf(t: Tree, k: string)
    requires TreeOk(t) && k in t.nodes
    ensures t.nodes[k].parent != Some(k)
  {
    if t.nodes[k].parent.Some? {
      ParentFacts(t, k);
    }
  }

  /** After the feedback, the node is an open leaf of open work exactly when it is open and no child is. */
  lemma NodeAfter(t: Tree, after: Tree, node: string, f: Feedback)
    requires HeardAt(t, after, node, f)
    ensures Actionable(after, node) <==> !Closes(f) && !exists c :: OpenChild(t, node, c)
  {
    NodeSelf(t, node);
    if Actionable(after, node) {
      forall c | c in t.nodes && t.nodes[c].parent == Some(node) ensures Closed(t.nodes[c]) {
        assert after.nodes[c] == t.nodes[c];
      }
    } else if !Closes(f) {
      var c :| c in after.nodes && after.nodes[c].parent == Some(node) && !Closed(after.nodes[c]);
      assert OpenChild(t, node, c);
    }
  }

  /** Any other node is affected only through a child that the feedback closed or reopened. */
  lemma OtherAfter(t: Tree, after: Tree, node: string, f: Feedback, k: string)
    requires HeardAt(t, after, node, f) && k in t.nodes && k != node && k != ROOT && !Closed(t.nodes[k])
    ensures Actionable(after, k) <==>
      (t.nodes[node].parent == Some(k) ==> Closes(f)) && !exists c :: c != node && OpenChild(t, k, c)
  {
    if Actionable(after, k) {
      forall c | c != node && c in t.nodes && t.nodes[c].parent == Some(k) ensures Closed(t.nodes[c]) {
        assert after.nodes[c] == t.nodes[c];
      }
    } else {
      var c :| c in after.nodes && after.nodes[c].parent == Some(k) && !Closed(after.nodes[c]);
      assert c != node ==> OpenChild(t, k, c);
    }
  }

  /** A node that is no child's parent here was actionable before if it is now. */
  lemma UnrelatedAfter(t: Tree, after: Tree, node: string, f: Feedback, k: string)
    requires HeardAt(t, after, node, f) && k != node && t.nodes[node].parent != Some(k)
    ensures Actionable(after, k) ==> Actionable(t, k)
  {
    if Actionable(after, k) {
      forall c | c in t.nodes && t.nodes[c].parent == Some(k) ensures Closed(t.nodes[c]) {
        assert after.nodes[c] == t.nodes[c];
      }
    }
  }

  lemma HeardIsHeard(t: Tree, journal: Journal, node: string, f: Feedback, reward: Option<real>)
    requires TreeOk(t) && RecordOn(journal, t, node, f, reward).Ok?
    ensures HeardAt(t, RecordOn(journal, t, node, f, reward).value, node, f)
    ensures RecordOn(journal, t, node, f, reward).value.stop == t.stop
    ensures RecordOn(journal, t, node, f, reward).value.mode == t.mode
  {
    NodesKeepShape(t, RecordOn(journal, t, node, f, reward).value.nodes);
  }

  /** The condition, in terms of the tree and the feedback before the call. */
  ghost predicate KeepsResolution(t: Tree, node: string, f: Feedback)
    requires TreeOk(t) && node in t.nodes && node != ROOT
  {
    NodeStaysFine(t, node, f) && ParentStaysFine(t, node, f)
  }

  lemma HeardKeeps(t: Tree, after: Tree, node: string, f: Feedback)
    requires HeardAt(t, after, node, f) && OnlySupporting(t) && KeepsResolution(t, node, f)
    ensures OnlySupporting(after)
  {
    forall k | k in after.nodes && Actionable(after, k) ensures PriorityOf(after.nodes[k]) == Supporting {
      if k == node {
        NodeAfter(t, after, node, f);
      } else if t.nodes[node].parent == Some(k) {
        OtherAfter(t, after, node, f, k);
      } else {
        UnrelatedAfter(t, after, node, f, k);
      }
    }
  }

  lemma HeardBreaks(t: Tree, after: Tree, node: string, f: Feedback)
    requires HeardAt(t, after, node, f) && !KeepsResolution(t, node, f)
    ensures !OnlySupporting(after)
  {
    if !NodeStaysFine(t, node, f) {
      NodeAfter(t, after, node, f);
      assert Actionable(after, node);
    } else {
      var p := ParentOf(t, node);
      OtherAfter(t, after, node, f, p);
      assert Actionable(after, p);
    }
  }

  /** Accepted feedback leaves only supporting work exactly when neither the node nor its parent becomes
      a gap. */
  lemma FeedbackExactly(t: Tree, journal: Journal, node: string, f: Feedback, reward: Option<real>)
    requires TreeOk(t) && OnlySupporting(t) && RecordOn(journal, t, node, f, reward).Ok?
    ensures TreeOk(RecordOn(journal, t, node, f, reward).value)
    ensures OnlySupporting(RecordOn(journal, t, node, f, reward).value) <==> KeepsResolution(t, node, f)
  {
    HeardIsHeard(t, journal, node, f, reward);
    var after := RecordOn(journal, t, node, f, reward).value;
    if KeepsResolution(t, node, f) {
      HeardKeeps(t, after, node, f);
    } else {
      HeardBreaks(t, after, node, f);
    }
  }

  // ---------------------------------------------------------------- the recorded resolution

  /** A recorded resolution of an iterative tree is right: only supporting work is left. */
  ghost predicate ResolutionRight(t: Tree)
    requires TreeOk(t)
  {
    t.stop.Some? && t.stop.value.Resolved? && t.mode == Iterative ==> OnlySupporting(t)
  }

  ghost predicate StateRight(s: State)
    requires StateOk(s)
  {
    s.tree.Some? ==> ResolutionRight(s.tree.value)
  }

  /** The one way to make it wrong: feedback on a resolved iterative tree that opens a gap. */
  ghost predicate Harmful(journal: Journal, t: Tree, request: Request)
    requires TreeOk(t)
  {
    && t.stop.Some? && t.stop.value.Resolved? && t.mode == Iterative
    && request.Record? && RecordOn(journal, t, request.node, request.feedback, request.reward).Ok?
    && !KeepsResolution(t, request.node, request.feedback)
  }

  lemma RecordRight(journal: Journal, t: Tree, node: string, f: Feedback, reward: Option<real>)
    requires TreeOk(t) && ResolutionRight(t) && RecordOn(journal, t, node, f, reward).Ok?
    ensures TreeOk(RecordOn(journal, t, node, f, reward).value)
    ensures ResolutionRight(RecordOn(journal, t, node, f, reward).value) <==>
      !Harmful(journal, t, Record(node, f, reward))
  {
    HeardIsHeard(t, journal, node, f, reward);
    if t.stop.Some? && t.stop.value.Resolved? && t.mode == Iterative {
      FeedbackExactly(t, journal, node, f, reward);
    }
  }

  lemma PauseRight(t: Tree, summary: Option<string>)
    requires TreeOk(t) && PauseWith(t, summary).Ok?
    ensures TreeOk(PauseWith(t, summary).value) && ResolutionRight(PauseWith(t, summary).value)
  {
    if summary.Some? {
      CompletionExactly(t, summary.value);
      SameWork(t, PauseWith(t, summary).value);
    }
  }

  lemma ActRight(fold: Fold, journal: Journal, t: Tree, request: Request)
    requires TreeOk(t) && (t.paused <==> t.stop.Some?) && ResolutionRight(t) && Act(fold, journal, t, request).Ok?
    ensures TreeOk(Act(fold, journal, t, request).value)
    ensures ResolutionRight(Act(fold, journal, t, request).value) <==> !Harmful(journal, t, request)
  {
    ActKeepsTreeOk(fold, journal, t, request);
    match request
    case Record(node, f, reward) => RecordRight(journal, t, node, f, reward);
    case Pause(summary) => PauseRight(t, summary);
    case _ =>
  }

  /** Which work is left depends on the nodes only. */
  lemma SameWork(t: Tree, t': Tree)
    requires TreeOk(t) && TreeOk(t') && t'.nodes == t.nodes
    ensures OnlySupporting(t') <==> OnlySupporting(t)
  {
    assert forall k :: Actionable(t', k) <==> Actionable(t, k);
  }

  lemma SavedRight(t: Tree)
    requires TreeOk(t)
    ensures TreeOk(t.(activeBranch := ActiveBranch(t)))
    ensures ResolutionRight(t.(activeBranch := ActiveBranch(t))) <==> ResolutionRight(t)
  {
    SameWork(t, t.(activeBranch := ActiveBranch(t)));
  }

  lemma AttemptRight(fold: Fold, s: State, c: Call)
    requires StateInv(fold, s) && StateRight(s) && Attempt(fold, c.journal, s, c.expected, c.request).Ok?
    ensures ResolutionRight(Attempt(fold, c.journal, s, c.expected, c.request).value) <==>
            !(s.tree.Some? && Harmful(c.journal, s.tree.value, c.request))
  {
    if s.tree.Some? {
      ActRight(fold, c.journal, s.tree.value, c.request);
    }
  }

  /** A right resolution stays right through any call, by whomever, exactly when the call is not harmful
      feedback. */
  lemma ResolutionExactly(fold: Fold, s: State, c: Call)
    requires StateInv(fold, s) && StateRight(s)
    ensures var s' := Step(fold, c.journal, s, c.expected, c.request);
      StateRight(s') <==> !(c.expected == s.revision && s.tree.Some? && Harmful(c.journal, s.tree.value, c.request))
  {
    var r := Attempt(fold, c.journal, s, c.expected, c.request);
    if r.Ok? {
      SavedRight(r.value);
      AttemptRight(fold, s, c);
    }
  }

  /** No call of the run is harmful feedback. */
  ghost predicate NoHarm(fold: Fold, calls: seq<Call>) {
    calls == [] ||
    (var s, c := Run(fold, calls[..|calls| - 1]), calls[|calls| - 1];
     && NoHarm(fold, calls[..|calls| - 1])
     && !(c.expected == s.revision && s.tree.Some? && Harmful(c.journal, s.tree.value, c.request)))
  }

  /** In every run without harmful feedback, a recorded resolution is right at every moment. */
  lemma {:induction false} ResolutionsAreRight(fold: Fold, calls: seq<Call>)
    requires NoHarm(fold, calls)
    ensures StateRight(Run(fold, calls))
  {
    if calls != [] {
      var before := calls[..|calls| - 1];
      ResolutionsAreRight(fold, before);
      EveryReachableArchive(fold, before);
      ResolutionExactly(fold, Run(fold, before), calls[|calls| - 1]);
    }
  }

  // ---------------------------------------------------------------- the two ways it fails

  /** Open feedback on an idea whose children are all closed makes that idea a key gap. */
  lemma OpenFeedbackReopens(journal: Journal, t: Tree, node: string, f: Feedback)
    requires TreeOk(t) && t.stop.Some? && t.stop.value.Resolved? && t.mode == Iterative && OnlySupporting(t)
    requires RecordOn(journal, t, node, f, None).Ok? && !Closes(f) && PriorityAfter(t.nodes[node], f) == KeyGap
    requires forall c :: c in t.nodes && t.nodes[c].parent == Some(node) ==> Closed(t.nodes[c])
    ensures var after := RecordOn(journal, t, node, f, None).value;
      TreeOk(after) && after.stop == t.stop && !ResolutionRight(after)
  {
    assert !NodeStaysFine(t, node, f);
    HeardIsHeard(t, journal, node, f, None);
    FeedbackExactly(t, journal, node, f, None);
  }

  /** Feedback that closes the last open child makes its open parent a gap to be synthesized. */
  lemma ClosingFeedbackReopensParent(journal: Journal, t: Tree, node: string, p: string, f: Feedback)
    requires TreeOk(t) && t.stop.Some? && t.stop.value.Resolved? && t.mode == Iterative && OnlySupporting(t)
    requires RecordOn(journal, t, node, f, None).Ok? && Closes(f) && t.nodes[node].parent == Some(p)
    requires p in t.nodes && p != ROOT && !Closed(t.nodes[p]) && PriorityOf(t.nodes[p]) == KeyGap
    requires forall c :: c in t.nodes && c != node && t.nodes[c].parent == Some(p) ==> Closed(t.nodes[c])
    ensures var after := RecordOn(journal, t, node, f, None).value;
      TreeOk(after) && after.stop == t.stop && !ResolutionRight(after)
  {
    assert !ParentStaysFine(t, node, f) by {
      assert ParentOf(t, node) == p;
    }
    HeardIsHeard(t, journal, node, f, None);
    FeedbackExactly(t, journal, node, f, None);
  }

  // ---------------------------------------------------------------- a resolution that becomes wrong

  const SUPPORTED := Feedback(Outcome.Supported, Open, None, None, true, ["obs"], "")
  const SOLVED := Feedback(Outcome.Supported, Solved, None, None, true, ["obs"], "")

  /** A resolved tree: an open key gap whose only child is open, heard once, and supporting. */
  const RESOLVED_TREE := Tree(
    "goal", Iterative, 12, true,
    ["root", "idea_1", "idea_2"],
    map["root" := Node(None, "goal", KeyGap, Medium, true, None, [], [], None),
        "idea_1" := Node(Some("root"), "gap", KeyGap, Medium, true, None, [], [], None),
        "idea_2" := Node(Some("idea_1"), "detail", Supporting, Low, true, Some(SUPPORTED), [SUPPORTED], ["obs"], None)],
    Some(Resolved("answered")), None)

  lemma ResolvedKeys()
    ensures NoDup(RESOLVED_TREE.keys) && Numbered(RESOLVED_TREE.keys)
  {
    var keys := RESOLVED_TREE.keys;
    assert keys[0][0] == 'r' && keys[1][5] == '1' && keys[2][5] == '2';
    assert keys[1][0] == 'i' && keys[2][0] == 'i';
    assert IdeaKey(1) == keys[1] && IdeaKey(2) == keys[2];
    assert KeyOk(keys, 0) && KeyOk(keys, 1) && KeyOk(keys, 2);
  }

  lemma ResolvedShape()
    ensures Rooted(ShapeOf(RESOLVED_TREE.keys, RESOLVED_TREE.nodes))
  {
    ResolvedKeys();
    var keys := RESOLVED_TREE.keys;
    var s := ShapeOf(keys, RESOLVED_TREE.nodes);
    assert s.parent == map[keys[1] := keys[0], keys[2] := keys[1]];
    assert s.keys[..1] == [keys[0]] && s.keys[..2] == [keys[0], keys[1]];
    assert Anchored(s, 1) && Anchored(s, 2);
  }

  lemma ResolvedNodes()
    ensures NodesOk((x: string) => x, RESOLVED_TREE.nodes)
    ensures forall k :: k in RESOLVED_TREE.nodes <==> k in RESOLVED_TREE.keys
  {
    ResolvedKeys();
    var keys, nodes := RESOLVED_TREE.keys, RESOLVED_TREE.nodes;
    assert nodes.Keys == {keys[0], keys[1], keys[2]};
    assert nodes[keys[0]].idea == "goal" && nodes[keys[1]].idea == "gap" && nodes[keys[2]].idea == "detail";
    assert "goal"[1] != "gap"[1] && "detail"[0] == 'd';
  }

  lemma ResolvedTreeIsSound()
    ensures Inv((x: string) => x, RESOLVED_TREE)
  {
    ResolvedKeys();
    ResolvedShape();
    ResolvedNodes();
  }

  lemma ResolvedTreeIsRight()
    ensures TreeOk(RESOLVED_TREE) && OnlySupporting(RESOLVED_TREE)
  {
    ResolvedTreeIsSound();
    ResolvedKeys();
    var t := RESOLVED_TREE;
    assert t.nodes[t.keys[2]].parent == Some(t.keys[1]) && !Closed(t.nodes[t.keys[2]]);
    assert !Actionable(t, t.keys[1]);
  }

  lemma SolvedIsHeard()
    ensures TreeOk(RESOLVED_TREE)
    ensures RecordOn(map["obs" := None], RESOLVED_TREE, RESOLVED_TREE.keys[2], SOLVED, None).Ok?
  {
    ResolvedTreeIsSound();
    ResolvedKeys();
  }

  /** The detail is the only child of the gap, and nothing is closed. */
  lemma ResolvedParents()
    ensures var t := RESOLVED_TREE;
      && t.nodes[t.keys[2]].parent == Some(t.keys[1]) && t.keys[1] != ROOT && t.keys[2] != ROOT
      && !Closed(t.nodes[t.keys[1]]) && PriorityOf(t.nodes[t.keys[1]]) == KeyGap
      && forall c :: c in t.nodes && t.nodes[c].parent == Some(t.keys[1]) ==> c == t.keys[2]
  {
    ResolvedKeys();
  }

  /** In this sound tree the resolution is right, and solving the child makes it wrong. */
  lemma SolvingTheDetailBreaksIt()
    ensures Inv((x: string) => x, RESOLVED_TREE) && OnlySupporting(RESOLVED_TREE)
    ensures var r := RecordOn(map["obs" := None], RESOLVED_TREE, "idea_2", SOLVED, None);
      r.Ok? && TreeOk(r.value) && r.value.stop == Some(Resolved("answered")) && !ResolutionRight(r.value)
  {
    ResolvedTreeIsSound();
    ResolvedTreeIsRight();
    SolvedIsHeard();
    var t := RESOLVED_TREE;
    ResolvedParents();
    ClosingFeedbackReopensParent(map["obs" := None], t, t.keys[2], t.keys[1], SOLVED);
  }
}
