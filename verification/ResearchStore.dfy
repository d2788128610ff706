/**
  The research-tree calls as the code performs them: loops over the loaded tree, one save at the end
  (src/oceanx/exploration.py). Every method is proved equal to the step `ResearchTree` defines.
 */
module ResearchStore {
  import opened Common
  import opened RootedTree
  import opened ResearchTree

  // ---------------------------------------------------------------- child summaries, in place

  /** One line per child, from the summaries as they are stored now. */
  function StoredLines(hyps: map<string, Hypothesis>, cs: seq<string>): (lines: seq<string>)
    requires forall c :: c in cs ==> c in hyps
    ensures |lines| == |cs|
  {
    seq(|cs|, i requires 0 <= i < |cs| => Line(cs[i], hyps[cs[i]].judgment, hyps[cs[i]].childrenSummary))
  }

  method JoinChildren(hyps: map<string, Hypothesis>, cs: seq<string>) returns (text: string)
    requires forall c :: c in cs ==> c in hyps
    ensures text == JoinLines(StoredLines(hyps, cs))
  {
    var lines := [];
    for i := 0 to |cs|
      invariant lines == StoredLines(hyps, cs)[..i]
    {
      lines := lines + [Line(cs[i], hyps[cs[i]].judgment, hyps[cs[i]].childrenSummary)];
    }
    assert lines == StoredLines(hyps, cs);
    text := JoinLines(lines);
  }

  ghost predicate IsRefreshed(
      keys: seq<string>, hyps: map<string, Hypothesis>, target: map<string, Hypothesis>, k: string)
    requires Forest(keys, hyps) && k in hyps && k in target
  {
    target[k] == Refreshed(keys, hyps, k)
  }

  /** Once the children are refreshed, the stored lines are those of the recursive summary. */
  lemma SummaryFromStored(keys: seq<string>, base: map<string, Hypothesis>, hyps: map<string, Hypothesis>, k: string)
    requires Forest(keys, base) && k in base && hyps.Keys == base.Keys
    requires Children(ShapeOf(keys, base), k) != []
    requires forall c :: c in Children(ShapeOf(keys, base), k) ==> c in base && IsRefreshed(keys, base, hyps, c)
    ensures Summary(keys, base, k) == Some(JoinLines(StoredLines(hyps, Children(ShapeOf(keys, base), k))))
  {
    var cs := Children(ShapeOf(keys, base), k);
    var lines := seq(|cs|, i requires 0 <= i < |cs| =>
        (ChildIsLater(keys, base, k, cs[i]);
         Line(cs[i], base[cs[i]].judgment, Summary(keys, base, cs[i]))));
    forall i | 0 <= i < |cs| ensures lines[i] == StoredLines(hyps, cs)[i] {
      assert cs[i] in cs;
      assert IsRefreshed(keys, base, hyps, cs[i]);
    }
    assert lines == StoredLines(hyps, cs);
  }

  lemma ChildPassed(s: Shape, order: seq<string>, i: nat, c: string)
    requires Rooted(s) && order == DeepestFirst(s) && i < |order| && c in Children(s, order[i])
    ensures c in order[..i]
  {
    DeepestFirstFacts(s);
    assert order[i] in order;
    ParentIsEarlier(s, c);
    assert c in order;
    var j :| 0 <= j < |order| && order[j] == c;
    assert Depth(s, c) == Depth(s, order[i]) + 1;
    assert j < i;
    assert order[..i][j] == c;
  }

  lemma ChildrenPassed(keys: seq<string>, hyps: map<string, Hypothesis>, order: seq<string>, i: nat)
    requires Forest(keys, hyps) && order == DeepestFirst(ShapeOf(keys, hyps)) && i < |order|
    ensures forall c :: c in Children(ShapeOf(keys, hyps), order[i]) ==> c in hyps && c in order[..i]
  {
    forall c | c in Children(ShapeOf(keys, hyps), order[i]) ensures c in hyps && c in order[..i] {
      ChildPassed(ShapeOf(keys, hyps), order, i, c);
    }
  }

  /** When the pass reaches a key, it has passed all its children, and not the key itself. */
  lemma PassOrder(keys: seq<string>, hyps: map<string, Hypothesis>, order: seq<string>, i: nat)
    requires Forest(keys, hyps) && order == DeepestFirst(ShapeOf(keys, hyps)) && i < |order|
    ensures order[i] in hyps && order[i] !in order[..i]
    ensures forall c :: c in Children(ShapeOf(keys, hyps), order[i]) ==> c in hyps && c in order[..i]
    ensures order[..i + 1] == order[..i] + [order[i]]
  {
    DeepestFirstFacts(ShapeOf(keys, hyps));
    assert order[i] in order;
    ChildrenPassed(keys, hyps, order, i);
  }

  /** `out` is `target` on the keys already passed and `hyps` elsewhere. */
  ghost predicate Partly(
      out: map<string, Hypothesis>, hyps: map<string, Hypothesis>, target: map<string, Hypothesis>,
      passed: seq<string>)
  {
    out.Keys == hyps.Keys == target.Keys
    && forall k :: k in hyps ==> out[k] == if k in passed then target[k] else hyps[k]
  }

  lemma PartlyOneMore(out: map<string, Hypothesis>, hyps: map<string, Hypothesis>, target: map<string, Hypothesis>,
                      passed: seq<string>, key: string)
    requires Partly(out, hyps, target, passed) && key in hyps
    ensures Partly(out[key := target[key]], hyps, target, passed + [key])
  {
  }

  method SummarizeOne(keys: seq<string>, hyps: map<string, Hypothesis>, key: string,
                      ghost base: map<string, Hypothesis>, ghost target: map<string, Hypothesis>,
                      ghost passed: seq<string>)
    returns (out: map<string, Hypothesis>)
    requires Forest(keys, base) && ShapeOf(keys, hyps) == ShapeOf(keys, base)
    requires key in base && key !in passed
    requires Partly(hyps, base, target, passed)
    requires IsRefreshed(keys, base, target, key)
    requires forall c :: c in Children(ShapeOf(keys, base), key) ==>
      c in base && c in passed && IsRefreshed(keys, base, target, c)
    ensures Partly(out, base, target, passed + [key])
  {
    out := hyps;
    var cs := Children(ShapeOf(keys, hyps), key);
    if cs != [] {
      forall c | c in cs ensures c in hyps && IsRefreshed(keys, base, hyps, c) {
        assert IsRefreshed(keys, base, target, c);
      }
      var text := JoinChildren(hyps, cs);
      SummaryFromStored(keys, base, hyps, key);
      out := hyps[key := hyps[key].(childrenSummary := Some(text))];
    }
    assert out == hyps[key := target[key]];
    PartlyOneMore(hyps, base, target, passed, key);
  }

  /** One pass, deepest first, each summary built from the summaries already stored below it. */
  method SynchronizeTo(keys: seq<string>, hyps: map<string, Hypothesis>, ghost target: map<string, Hypothesis>)
    returns (out: map<string, Hypothesis>)
    requires Forest(keys, hyps) && target.Keys == hyps.Keys
    requires forall k :: k in hyps ==> IsRefreshed(keys, hyps, target, k)
    ensures out == target
  {
    var order := DeepestFirst(ShapeOf(keys, hyps));
    out := hyps;
    for i := 0 to |order|
      invariant Partly(out, hyps, target, order[..i])
    {
      PartlyShape(keys, out, hyps, target, order[..i]);
      PassOrder(keys, hyps, order, i);
      out := SummarizeOne(keys, out, order[i], hyps, target, order[..i]);
    }
    assert order[..|order|] == order;
    DeepestFirstFacts(ShapeOf(keys, hyps));
  }

  lemma PartlyShape(keys: seq<string>, out: map<string, Hypothesis>, hyps: map<string, Hypothesis>,
                    target: map<string, Hypothesis>, passed: seq<string>)
    requires Forest(keys, hyps) && Partly(out, hyps, target, passed)
    requires forall k :: k in hyps ==> IsRefreshed(keys, hyps, target, k)
    ensures Forest(keys, out) && ShapeOf(keys, out) == ShapeOf(keys, hyps)
  {
    forall k | k in hyps ensures out[k].parent == hyps[k].parent {
      assert IsRefreshed(keys, hyps, target, k);
    }
    SameParents(keys, hyps, out);
  }

  method Synchronize(keys: seq<string>, hyps: map<string, Hypothesis>) returns (out: map<string, Hypothesis>)
    requires Forest(keys, hyps)
    ensures out == Synced(keys, hyps)
  {
    out := SynchronizeTo(keys, hyps, Synced(keys, hyps));
  }

  // ---------------------------------------------------------------- growing the tree

  method GrowHypotheses(
      rules: Rules, keys: seq<string>, hyps: map<string, Hypothesis>, parent: string,
      candidates: seq<HypothesisDraft>)
    returns (r: Result<(seq<string>, map<string, Hypothesis>), Error>)
    requires Forest(keys, hyps)
    ensures r == NewHypotheses(rules, keys, hyps, parent, candidates)
  {
    if parent !in hyps {
      return Err(UnknownParent);
    }
    var existing := ClaimKeys(rules, hyps);
    var newKeys, newHyps := keys, hyps;
    for i := 0 to |candidates|
      invariant Forest(newKeys, newHyps) && parent in newHyps
      invariant AddHypotheses(rules, newKeys, newHyps, existing, parent, candidates[i..])
             == NewHypotheses(rules, keys, hyps, parent, candidates)
    {
      var draft := candidates[i];
      assert candidates[i..][0] == draft && candidates[i..][1..] == candidates[i + 1..];
      var claimKey := rules.claimKey(draft.claim);
      if draft.id in newHyps || claimKey in existing {
        return Err(DuplicateHypothesis);
      }
      ForestGrows(newKeys, newHyps, parent, draft);
      existing := existing + {claimKey};
      newKeys, newHyps := newKeys + [draft.id], newHyps[draft.id := NewHypothesis(draft, parent)];
    }
    return Ok((newKeys, newHyps));
  }

  method GrowTests(
      known: set<string>, tests: map<string, Test>, drafts: seq<TestDraft>, order: Option<string>,
      retrospective: bool)
    returns (r: Result<(map<string, Test>, seq<string>), Error>)
    ensures r == AddTests(known, tests, [], drafts, order, retrospective)
  {
    var newTests, added := tests, [];
    for i := 0 to |drafts|
      invariant AddTests(known, newTests, added, drafts[i..], order, retrospective)
             == AddTests(known, tests, [], drafts, order, retrospective)
    {
      var draft := drafts[i];
      assert drafts[i..][0] == draft && drafts[i..][1..] == drafts[i + 1..];
      if draft.id in newTests {
        var existing := newTests[draft.id];
        if order.Some? && existing.workOrder == order && existing.plan == draft {
          continue;
        }
        return Err(TestExists);
      }
      if !TargetsKnown(draft.targets, known) {
        return Err(BadTarget);
      }
      newTests := newTests[draft.id := NewTest(draft, order, retrospective)];
      added := added + [draft.id];
    }
    return Ok((newTests, added));
  }

  method Bind(rules: Rules, tests: map<string, Test>, request: ExpertRequest)
    returns (r: Result<(seq<TestDraft>, map<string, string>), Error>)
    ensures r == BindDrafts(rules, tests, request, request.tests, [], map[])
  {
    var drafts, names := [], map[];
    for i := 0 to |request.tests|
      invariant BindDrafts(rules, tests, request, request.tests[i..], drafts, names)
             == BindDrafts(rules, tests, request, request.tests, [], map[])
    {
      var draft := request.tests[i];
      assert request.tests[i..][0] == draft && request.tests[i..][1..] == request.tests[i + 1..];
      if !(Elements(draft.targets) <= request.scope) {
        return Err(OutOfScope);
      }
      var key := OwnTestId(rules, tests, request.order, draft.id);
      drafts := drafts + [draft.(id := key)];
      names := names[key := draft.id];
    }
    return Ok((drafts, names));
  }

  // ---------------------------------------------------------------- reservations

  method ReserveOne(test0: Test, keys: seq<string>, explicit: bool) returns (test: Test, changed: bool)
    ensures test == ReserveTest(test0, keys, explicit)
    ensures changed <==> test != test0
  {
    test, changed := test0, false;
    var linked := Linked(test);
    if test.status == Todo {
      test := test.(status := Running);
      changed := true;
    }
    if !test.attemptCharged {
      test := test.(attemptCharged := true);
      changed := true;
    }
    if explicit && !(Elements(keys) <= Elements(linked)) {
      LinkingChanges(test0, keys);
      var ids := Dedup(SortStrings(linked) + keys);
      test := test.(executionIds := ids);
      if |ids| == 1 {
        test := test.(executionId := Some(ids[0]));
      }
      changed := true;
    }
  }

  /** The tests with those in `passed` reserved. */
  ghost predicate ReservedIn(out: map<string, Test>, tests: map<string, Test>, passed: seq<string>, keys: seq<string>,
                             explicit: bool) {
    out.Keys == tests.Keys
    && forall k :: k in tests ==> out[k] == if k in passed then ReserveTest(tests[k], keys, explicit) else tests[k]
  }

  lemma ReservedOneMore(out: map<string, Test>, tests: map<string, Test>, passed: seq<string>, id: string,
                        keys: seq<string>, explicit: bool)
    requires ReservedIn(out, tests, passed, keys, explicit) && id in tests && id !in passed
    ensures ReservedIn(out[id := ReserveTest(tests[id], keys, explicit)], tests, passed + [id], keys, explicit)
  {
  }

  ghost predicate Differ(out: map<string, Test>, tests: map<string, Test>)
    requires out.Keys == tests.Keys
  {
    exists k :: k in tests && out[k] != tests[k]
  }

  lemma DifferOneMore(out: map<string, Test>, tests: map<string, Test>, id: string, test: Test)
    requires out.Keys == tests.Keys && id in tests && out[id] == tests[id]
    ensures Differ(out[id := test], tests) <==> Differ(out, tests) || test != tests[id]
  {
    var after := out[id := test];
    if Differ(out, tests) {
      var k :| k in tests && out[k] != tests[k];
      assert after[k] != tests[k];
    }
    if test != tests[id] {
      assert after[id] != tests[id];
    }
  }

  /** Reserve the named tests one by one, noting whether any of them changed. */
  method ReserveEach(tests: map<string, Test>, testIds: seq<string>, keys: seq<string>, explicit: bool)
    returns (out: map<string, Test>, changed: bool)
    requires NoDup(testIds) && forall k :: k in testIds ==> k in tests
    ensures ReservedIn(out, tests, testIds, keys, explicit)
    ensures changed <==> out != tests
  {
    out, changed := tests, false;
    for i := 0 to |testIds|
      invariant ReservedIn(out, tests, testIds[..i], keys, explicit)
      invariant changed <==> Differ(out, tests)
    {
      var id := testIds[i];
      assert id !in testIds[..i];
      TakeOneMore(testIds, i);
      var test, touched := ReserveOne(out[id], keys, explicit);
      ReservedOneMore(out, tests, testIds[..i], id, keys, explicit);
      DifferOneMore(out, tests, id, test);
      out := out[id := test];
      changed := changed || touched;
    }
    assert testIds[..|testIds|] == testIds;
    assert out != tests <==> Differ(out, tests);
  }

  lemma ReservedTests(t: Tree, tests: map<string, Test>, testIds: seq<string>, keys: seq<string>, explicit: bool)
    requires ReservedIn(tests, t.tests, testIds, keys, explicit)
    ensures Reserved(t, testIds, keys, explicit).tests == tests
  {
  }

  lemma ChargedDiffers(charged: seq<string>, novel: seq<string>)
    ensures charged + novel == charged <==> novel == []
  {
    assert novel != [] ==> |charged + novel| > |charged|;
  }

  method Reserve(t: Tree, testIds: seq<string>, keys: seq<string>, explicit: bool) returns (out: Tree, changed: bool)
    requires NoDup(testIds) && forall k :: k in testIds ==> k in t.tests
    ensures out == Reserved(t, testIds, keys, explicit)
    ensures changed <==> out != t
  {
    var newKeys := NewKeys(keys, t.charged);
    var tests, touched := ReserveEach(t.tests, testIds, keys, explicit);
    changed := newKeys != [] || touched;
    out := t.(tests := tests, charged := t.charged + newKeys, executionsUsed := t.executionsUsed + |newKeys|);
    ReservedTests(t, tests, testIds, keys, explicit);
    ChargedDiffers(t.charged, newKeys);
  }

  method TryBegin(
      tree: Option<Tree>, testIds: seq<string>, executionId: Option<string>, executionIds: Option<seq<string>>)
    returns (r: Result<Option<Tree>, Error>)
    ensures r == BeginTests(tree, testIds, executionId, executionIds)
  {
    if tree.None? {
      return Err(NoTree);
    }
    var t := tree.value;
    if t.paused || t.mode != Iterative {
      return Err(NotDispatchable);
    }
    DedupDetects(testIds);
    if testIds == [] || |Dedup(testIds)| != |testIds| {
      return Err(BadTestIds);
    }
    if executionId.Some? && executionIds.Some? {
      return Err(TwoIdentityForms);
    }
    var explicit := executionId.Some? || executionIds.Some?;
    var keys := ReservationKeys(testIds, executionId, executionIds);
    if keys == [] {
      return Err(NoIdentity);
    }
    if exists k :: k in testIds && k !in t.tests {
      return Err(UnknownTest);
    }
    if t.executionsUsed + |NewKeys(keys, t.charged)| > t.executionBudget {
      return Err(BudgetExceeded);
    }
    var reserved, changed := Reserve(t, testIds, keys, explicit);
    return Ok(if changed then Some(reserved) else None);
  }

  /** Linking a key the test did not have yet does change its list. */
  lemma LinkingChanges(test: Test, keys: seq<string>)
    requires !(Elements(keys) <= Elements(Linked(test)))
    ensures Dedup(SortStrings(Linked(test)) + keys) != test.executionIds
  {
    var k :| k in keys && k !in Elements(Linked(test));
    var ids := Dedup(SortStrings(Linked(test)) + keys);
    assert k in Elements(ids);
    var all := test.executionIds + OwnExecution(test);
    assert Elements(all) == Elements(Linked(test));
    assert k !in Elements(all);
    assert k !in all;
  }

  method ResumeWith(tree: Tree, mode: Option<Mode>, budget: Option<nat>) returns (r: Result<Tree, Error>)
    ensures r == ResumeTree(tree, mode, budget)
  {
    var t := tree;
    if budget.Some? {
      if budget.value < t.executionsUsed {
        return Err(BudgetBelowUse);
      }
      t := t.(executionBudget := budget.value);
    }
    t := t.(paused := false, stop := None, stopRequest := None);
    if mode.Some? {
      t := t.(mode := mode.value);
    }
    return Ok(t);
  }

  method PauseWith(tree: Tree, summary: Option<string>, decision: Option<Decision>, requestId: Option<string>)
    returns (r: Result<Tree, Error>)
    ensures r == PauseTree(tree, summary, decision, requestId)
  {
    var t := tree;
    if summary.Some? || decision.Some? {
      if AnyRunning(t.tests) {
        return Err(TestsRunning);
      }
      t := t.(stop := Some(FinalStop(t.mode, summary, decision)));
    } else {
      var exit := if t.executionsUsed >= t.executionBudget then BudgetExhausted else Interrupted;
      t := t.(stop := Some(Stop(exit, false, "")));
    }
    return Ok(t.(stopRequest := requestId, paused := true));
  }

  class Store {
    const rules: Rules
    var tree: Option<Tree>
    var revision: nat

    ghost function Now(): State
      reads this
    {
      State(tree, revision)
    }

    ghost predicate Valid()
      reads this
    {
      OptForest(tree)
    }

    constructor (rules: Rules)
      ensures this.rules == rules && Valid() && Now() == EMPTY
    {
      this.rules := rules;
      tree, revision := None, 0;
    }

    method Save(t: Tree)
      requires TreeForest(t)
      modifies this
      ensures Valid() && Now() == State(Some(t.(revision := old(revision) + 1)), old(revision) + 1)
    {
      tree := Some(t.(revision := revision + 1));
      revision := revision + 1;
    }

    method CoordinatorCall(
        world: World, expected: nat, request: Request, requestId: Option<string>)
      returns (outcome: Result<bool, Error>)
      requires Valid()
      modifies this
      ensures Valid() && Now() == Step(rules, world, old(Now()), Coordinator(expected, request, requestId))
      ensures outcome.Ok? <==> Attempt(rules, world, old(Now()), Coordinator(expected, request, requestId)).Ok?
      ensures outcome == Ok(true) <==> revision == old(revision) + 1
      ensures outcome.Err? ==>
        Err(outcome.error) == Attempt(rules, world, old(Now()), Coordinator(expected, request, requestId))
    {
      if expected != revision {
        return Err(StaleRevision);
      }
      if request.Start? {
        if tree.Some? {
          return Err(TreeExists);
        }
        StartIsForest(request.goal, request.mode, request.budget);
        Save(StartTree(request.goal, request.mode, request.budget));
        return Ok(true);
      }
      if tree.None? {
        return Err(NoTree);
      }
      var t := tree.value;
      if request.Resume? {
        var resumed := ResumeWith(t, request.newMode, request.budget);
        if resumed.Err? {
          return Err(resumed.error);
        }
        t := resumed.value;
      } else if request.Pause? {
        var stopped := PauseWith(t, request.completionSummary, request.decision, requestId);
        if stopped.Err? {
          return Err(stopped.error);
        }
        t := stopped.value;
      } else {
        if t.paused {
          return Err(Paused);
        }
        var r := DoResearch(world, t, request);
        if r.Err? {
          return Err(r.error);
        }
        if r.value.None? {
          return Ok(false);
        }
        t := r.value.value;
        var synced := Synchronize(t.keys, t.hypotheses);
        t := t.(hypotheses := synced);
      }
      Save(t);
      return Ok(true);
    }

    method DoResearch(world: World, tree0: Tree, request: Request) returns (r: Result<Option<Tree>, Error>)
      requires TreeForest(tree0) && !request.Start? && !request.Resume? && !request.Pause?
      ensures r == Research(rules, world, tree0, request)
    {
      var t := tree0;
      match request {
        case Propose(node, candidates, tests) =>
          var grown := GrowBoth(t, node, candidates, tests);
          if grown.Err? { return Err(grown.error); }
          t := grown.value;
        case PlanTest(tests) =>
          var added := GrowTests(t.hypotheses.Keys, t.tests, tests, None, false);
          if added.Err? { return Err(added.error); }
          t := t.(tests := added.value.0);
        case Reflect(reflection, candidates, tests) =>
          if AnyRunning(t.tests) {
            return Err(TestsRunning);
          }
          t := t.(reflections := t.reflections + [reflection]);
          if candidates != [] {
            var grown := GrowBoth(t, ROOT, candidates, tests);
            if grown.Err? { return Err(grown.error); }
            t := grown.value;
          } else {
            var added := GrowTests(t.hypotheses.Keys, t.tests, tests, None, false);
            if added.Err? { return Err(added.error); }
            t := t.(tests := added.value.0);
          }
        case MarkInfeasible(testId, reason) =>
          if testId !in t.tests || t.tests[testId].status !in {Todo, Running} {
            return Err(NotPending);
          }
          var test := t.tests[testId];
          test := test.(plan := test.plan.(feasible := false), status := Infeasible);
          test := test.(plan := test.plan.(infeasibleReason := Some(reason)));
          t := t.(tests := t.tests[testId := test]);
        case Record(testId, result) =>
          if testId !in t.tests {
            return Err(UnknownTest);
          }
          var recorded := RecordResult(world, t.tests[testId], result);
          if recorded.Err? { return Err(recorded.error); }
          if !recorded.value.1 {
            return Ok(None);
          }
          t := t.(tests := t.tests[testId := recorded.value.0]);
        case Adjudicate(node, status, summary, evidenceRefs, cited) =>
          if node !in t.hypotheses {
            return Err(UnknownHypothesis);
          }
          if cited.Some? && (cited.value !in t.tests || node !in t.tests[cited.value].plan.targets) {
            return Err(ForeignTest);
          }
          if status == Established && (cited.None? || |Elements(t.tests[cited.value].plan.targets)| < 2) {
            return Err(TooFewTargets);
          }
          if !EvidenceKnown(evidenceRefs, world) {
            return Err(UnknownEvidence);
          }
          var h := t.hypotheses[node];
          var updated := Judgment(status, summary, Some(evidenceRefs), cited, true);
          if h.judgment != updated {
            h := h.(history := h.history + [h.judgment]);
            h := h.(judgment := updated);
          }
          t := t.(hypotheses := t.hypotheses[node := h]);
      }
      return Ok(Some(t));
    }

    method GrowBoth(
        t: Tree, parent: string, candidates: seq<HypothesisDraft>, tests: seq<TestDraft>)
      returns (r: Result<Tree, Error>)
      requires TreeForest(t)
      ensures r == AddBoth(rules, t, parent, candidates, tests)
    {
      var hs := GrowHypotheses(rules, t.keys, t.hypotheses, parent, candidates);
      if hs.Err? { return Err(hs.error); }
      var ts := GrowTests(hs.value.1.Keys, t.tests, tests, None, false);
      if ts.Err? { return Err(ts.error); }
      return Ok(t.(keys := hs.value.0, hypotheses := hs.value.1, tests := ts.value.0));
    }

    method BeginCall(
        world: World, testIds: seq<string>, executionId: Option<string>, executionIds: Option<seq<string>>)
      returns (outcome: Result<bool, Error>)
      requires Valid()
      modifies this
      ensures Valid() && Now() == Step(rules, world, old(Now()), Begin(testIds, executionId, executionIds))
      ensures outcome == Ok(true) <==> revision == old(revision) + 1
      ensures outcome.Ok? <==> BeginTests(old(tree), testIds, executionId, executionIds).Ok?
      ensures outcome.Err? ==> Err(outcome.error) == BeginTests(old(tree), testIds, executionId, executionIds)
    {
      var r := TryBegin(tree, testIds, executionId, executionIds);
      assert r == Attempt(rules, world, Now(), Begin(testIds, executionId, executionIds));
      if r.Err? {
        return Err(r.error);
      }
      if r.value.Some? {
        Save(r.value.value);
      }
      return Ok(r.value.Some?);
    }

    method ExpertCall(world: World, request: ExpertRequest) returns (outcome: Result<bool, Error>)
      requires Valid() && tree.Some?
      modifies this
      ensures Valid() && Now() == Step(rules, world, old(Now()), Expert(request))
      ensures outcome == Ok(true) <==> revision == old(revision) + 1
      ensures outcome.Ok? <==> ExpertAction(rules, world, old(tree).value, request).Ok?
      ensures outcome.Err? ==> Err(outcome.error) == ExpertAction(rules, world, old(tree).value, request)
    {
      var t := tree.value;
      var facts := RecordFacts(rules, world, t.hypotheses.Keys, t.tests, request);
      if facts.Err? {
        return Err(facts.error);
      }
      t := t.(tests := facts.value.0);
      if facts.value.1 != [] {
        Save(t);
      }
      return Ok(facts.value.1 != []);
    }
  }

  lemma {:induction false} DedupDetects(s: seq<string>)
    ensures |Dedup(s)| == |s| <==> NoDup(s)
    ensures |Dedup(s)| <= |s|
  {
    if s != [] {
      var front := s[..|s| - 1];
      DedupDetects(front);
      assert s == front + [s[|s| - 1]];
      assert Elements(Dedup(front)) == Elements(front);
      if !NoDup(front) {
        var i, j :| 0 <= i < j < |front| && front[i] == front[j];
        assert s[i] == s[j];
      }
      if s[|s| - 1] in Dedup(front) {
        assert s[|s| - 1] in Elements(front);
        var i :| 0 <= i < |front| && front[i] == s[|s| - 1];
        assert s[i] == s[|s| - 1];
      } else {
        assert s[|s| - 1] !in Elements(front);
      }
    }
  }

  method RecordFacts(rules: Rules, world: World, known: set<string>, tests: map<string, Test>, request: ExpertRequest)
    returns (r: Result<(map<string, Test>, seq<string>), Error>)
    ensures r == ExpertFacts(rules, world, known, tests, request)
  {
    if request.order !in world.expertOrders {
      return Err(ForeignOrder);
    }
    if exists k :: k in request.scope && (k == ROOT || k !in known) {
      return Err(BadScope);
    }
    if request.execution.Some? {
      var execution := request.execution.value;
      if execution !in world.executionOwner || world.executionOwner[execution] != request.order {
        return Err(ForeignExecution);
      }
    }
    var bound := Bind(rules, tests, request);
    if bound.Err? { return Err(bound.error); }
    var grown := GrowTests(known, tests, bound.value.0, Some(request.order), request.record.Some?);
    if grown.Err? { return Err(grown.error); }
    var notes, changedIds := Named(grown.value.0, grown.value.1, bound.value.1), grown.value.1;
    if request.record.Some? {
      var recorded := RecordOwn(rules, world, notes, request, request.record.value.0, request.record.value.1);
      if recorded.Err? { return Err(recorded.error); }
      notes, changedIds := recorded.value.0, changedIds + recorded.value.1;
    }
    return Ok((notes, changedIds));
  }
}
