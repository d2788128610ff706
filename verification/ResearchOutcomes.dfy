/** What each Coordinator call and each reservation stores, told from the request and the tree before it. */
module ResearchOutcomes {
  import opened Common
  import opened RootedTree
  import opened ResearchTree
  import opened ResearchRuns
  import opened ResearchEffects

  // ---------------------------------------------------------------- who is let in

  ghost predicate AnyTestRuns(t: Tree) {
    exists k :: k in t.tests && t.tests[k].status == Running
  }

  /** Every action but a start needs a tree, every action the current revision, and all but a start, a
      resume and a pause an active tree. */
  lemma GuardsExactly(rules: Rules, w: World, s: State, expected: nat, request: Request, requestId: Option<string>)
    requires OptForest(s.tree)
    ensures var r := Attempt(rules, w, s, Coordinator(expected, request, requestId));
      && (r == Err(StaleRevision) <==> expected != s.revision)
      && (r == Err(TreeExists) <==> expected == s.revision && request.Start? && s.tree.Some?)
      && (r == Err(NoTree) <==> expected == s.revision && !request.Start? && s.tree.None?)
      && (r == Err(Paused) <==>
            && expected == s.revision && s.tree.Some? && s.tree.value.paused
            && !request.Start? && !request.Resume? && !request.Pause?)
  {
    if expected == s.revision && s.tree.Some? && !s.tree.value.paused {
      ResearchErrors(rules, w, s.tree.value, request);
    }
  }

  ghost predicate GuardError(e: Error) {
    e == StaleRevision || e == TreeExists || e == NoTree || e == Paused
  }

  lemma {:induction false} PlanErrors(
      known: set<string>, tests: map<string, Test>, added: seq<string>, drafts: seq<TestDraft>, order: Option<string>,
      retrospective: bool)
    ensures var r := AddTests(known, tests, added, drafts, order, retrospective);
      r.Err? ==> r.error == TestExists || r.error == BadTarget
    decreases |drafts|
  {
    if drafts != [] {
      var draft := drafts[0];
      PlanErrors(known, tests, added, drafts[1..], order, retrospective);
      PlanErrors(known, tests[draft.id := NewTest(draft, order, retrospective)], added + [draft.id], drafts[1..],
                 order, retrospective);
    }
  }

  lemma {:induction false} GrowthErrors(
      rules: Rules, keys: seq<string>, hyps: map<string, Hypothesis>, existing: set<string>, parent: string,
      drafts: seq<HypothesisDraft>)
    requires Forest(keys, hyps) && parent in hyps
    ensures var r := AddHypotheses(rules, keys, hyps, existing, parent, drafts);
      r.Err? ==> r.error == DuplicateHypothesis
    decreases |drafts|
  {
    if drafts != [] && drafts[0].id !in hyps {
      ForestGrows(keys, hyps, parent, drafts[0]);
      GrowthErrors(rules, keys + [drafts[0].id], hyps[drafts[0].id := NewHypothesis(drafts[0], parent)],
                   existing + {rules.claimKey(drafts[0].claim)}, parent, drafts[1..]);
    }
  }

  lemma AddBothErrors(rules: Rules, t: Tree, parent: string, candidates: seq<HypothesisDraft>, tests: seq<TestDraft>)
    requires TreeForest(t)
    ensures AddBoth(rules, t, parent, candidates, tests).Err? ==>
      !GuardError(AddBoth(rules, t, parent, candidates, tests).error)
  {
    if parent in t.hypotheses {
      GrowthErrors(rules, t.keys, t.hypotheses, ClaimKeys(rules, t.hypotheses), parent, candidates);
    }
    var hs := NewHypotheses(rules, t.keys, t.hypotheses, parent, candidates);
    if hs.Ok? {
      PlanErrors(hs.value.1.Keys, t.tests, [], tests, None, false);
    }
  }

  lemma AddTestsOnlyErrors(t: Tree, tests: seq<TestDraft>)
    ensures AddTestsOnly(t, tests).Err? ==> !GuardError(AddTestsOnly(t, tests).error)
  {
    PlanErrors(t.hypotheses.Keys, t.tests, [], tests, None, false);
  }

  lemma ReflectErrors(
      rules: Rules, t: Tree, reflection: Reflection, candidates: seq<HypothesisDraft>, tests: seq<TestDraft>)
    requires TreeForest(t)
    ensures ReflectTree(rules, t, reflection, candidates, tests).Err? ==>
      !GuardError(ReflectTree(rules, t, reflection, candidates, tests).error)
  {
    var noted := t.(reflections := t.reflections + [reflection]);
    if candidates == [] {
      AddTestsOnlyErrors(noted, tests);
    } else {
      AddBothErrors(rules, noted, ROOT, candidates, tests);
    }
  }

  lemma GrowthActionErrors(rules: Rules, w: World, t: Tree, request: Request)
    requires TreeForest(t) && (request.Propose? || request.PlanTest? || request.Reflect?)
    ensures Research(rules, w, t, request).Err? ==> !GuardError(Research(rules, w, t, request).error)
  {
    match request
    case Propose(node, candidates, tests) => AddBothErrors(rules, t, node, candidates, tests);
    case PlanTest(tests) => AddTestsOnlyErrors(t, tests);
    case Reflect(reflection, candidates, tests) => ReflectErrors(rules, t, reflection, candidates, tests);
  }

  lemma ResearchErrors(rules: Rules, w: World, t: Tree, request: Request)
    requires TreeForest(t)
    ensures Research(rules, w, t, request).Err? ==> !GuardError(Research(rules, w, t, request).error)
  {
    if request.Propose? || request.PlanTest? || request.Reflect? {
      GrowthActionErrors(rules, w, t, request);
    }
  }

  // ---------------------------------------------------------------- start, resume, pause

  /** A start stores the goal as the only hypothesis, untested, with nothing used of the budget asked for
      or else of twenty. */
  lemma StartExactly(
      rules: Rules, w: World, s: State, goal: string, mode: Mode, budget: Option<nat>, requestId: Option<string>)
    requires OptForest(s.tree) && s.tree.None?
    ensures var r := Attempt(rules, w, s, Coordinator(s.revision, Start(goal, mode, budget), requestId));
      && r.Ok? && r.value.Some?
      && var t := r.value.value;
         && t.goal == goal && t.mode == mode && !t.paused && t.stop.None? && t.stopRequest.None?
         && t.executionBudget == (if budget.Some? && budget.value > 0 then budget.value else 20)
         && t.executionsUsed == 0 && t.charged == [] && t.tests == map[] && t.reflections == []
         && t.keys == ["root"] && t.hypotheses.Keys == {"root"}
         && var h := t.hypotheses["root"];
            && h.claim == goal && h.relation == Alternatives && h.parent.None? && h.history == []
            && h.childrenSummary.None? && h.judgment == Judgment(Untested, None, None, None, false)
  {
  }

  /** A resume is refused exactly when the budget asked for is below what was used; it ends the pause,
      forgets the stop decision, and changes mode and budget only as asked. */
  lemma ResumeExactly(
      rules: Rules, w: World, s: State, mode: Option<Mode>, budget: Option<nat>, requestId: Option<string>)
    requires OptForest(s.tree) && s.tree.Some?
    ensures var t := s.tree.value;
      var r := Attempt(rules, w, s, Coordinator(s.revision, Resume(mode, budget), requestId));
      && (r.Ok? <==> budget.None? || t.executionsUsed <= budget.value)
      && (r.Err? ==> r.error == BudgetBelowUse)
      && (r.Ok? ==>
            && r.value.Some?
            && var t' := r.value.value;
               && !t'.paused && t'.stop.None? && t'.stopRequest.None?
               && t'.mode == (match mode case Some(m) => m case None => t.mode)
               && t'.executionBudget == (match budget case Some(b) => b case None => t.executionBudget)
               && t' == t.(paused := false, stop := None, stopRequest := None, mode := t'.mode,
                           executionBudget := t'.executionBudget))
  {
  }

  /** A pause is refused exactly when it is final and a test runs. A final pause delivers ideas in ideas
      mode; in iterative mode it says unable to answer if so decided, and answered otherwise. Any other
      pause says whether the budget is used up. Only an answer resolves the question. */
  lemma PauseExactly(
      rules: Rules, w: World, s: State, summary: Option<string>, decision: Option<Decision>, requestId: Option<string>)
    requires OptForest(s.tree) && s.tree.Some?
    ensures var t := s.tree.value;
      var r := Attempt(rules, w, s, Coordinator(s.revision, Pause(summary, decision), requestId));
      var final := summary.Some? || decision.Some?;
      && (r.Err? <==> final && AnyTestRuns(t))
      && (r.Err? ==> r.error == TestsRunning)
      && (r.Ok? ==>
            && r.value.Some? && r.value.value.stop.Some?
            && var t', stop := r.value.value, r.value.value.stop.value;
               && t'.paused && t'.stopRequest == requestId
               && t' == t.(paused := true, stop := Some(stop), stopRequest := requestId)
               && (stop.exit == IdeasDelivered <==> final && t.mode == Ideas)
               && (stop.exit == UnableToAnswer <==> final && t.mode == Iterative && decision == Some(DecideUnable))
               && (stop.exit == Answered <==> final && t.mode == Iterative && decision != Some(DecideUnable))
               && (stop.exit == BudgetExhausted <==> !final && t.executionsUsed >= t.executionBudget)
               && (stop.exit == Interrupted <==> !final && t.executionsUsed < t.executionBudget)
               && (stop.questionResolved <==> stop.exit == Answered)
               && stop.summary == (match summary case Some(text) => text case None => ""))
  {
    assert AnyRunning(s.tree.value.tests) <==> AnyTestRuns(s.tree.value);
  }

  ghost predicate Settles(call: Call) {
    call.Coordinator? && (call.request.Pause? || call.request.Resume?)
  }

  ghost predicate SameStop(t: Tree, t': Tree) {
    t'.paused && t'.stop == t.stop && t'.stopRequest == t.stopRequest
  }

  lemma StopStays(rules: Rules, w: World, s: State, call: Call)
    requires OptForest(s.tree) && s.tree.Some? && s.tree.value.paused && !Settles(call)
    ensures Step(rules, w, s, call).tree.Some? && SameStop(s.tree.value, Step(rules, w, s, call).tree.value)
  {
    match call
    case Coordinator(_, _, _) =>
    case Begin(_, _, _) =>
    case Expert(_) =>
  }

  /** The stop decision of a paused tree is that of the last pause: over any run, nothing but another pause
      or a resume changes it. */
  lemma {:induction false} StopHolds(rules: Rules, s: State, calls: seq<(World, Call)>)
    requires OptForest(s.tree) && s.tree.Some? && s.tree.value.paused
    requires forall i :: 0 <= i < |calls| ==> !Settles(calls[i].1)
    ensures Run(rules, s, calls).tree.Some? && SameStop(s.tree.value, Run(rules, s, calls).tree.value)
    decreases |calls|
  {
    if calls != [] {
      var last := calls[|calls| - 1];
      StopHolds(rules, s, calls[..|calls| - 1]);
      StopStays(rules, last.0, Run(rules, s, calls[..|calls| - 1]), last.1);
    }
  }

  // ---------------------------------------------------------------- revisions

  ghost predicate Saves(rules: Rules, w: World, s: State, call: Call)
    requires OptForest(s.tree)
  {
    Attempt(rules, w, s, call).Ok? && Attempt(rules, w, s, call).value.Some?
  }

  /** The calls of a run that save a tree. */
  ghost function SaveCount(rules: Rules, s: State, calls: seq<(World, Call)>): nat
    requires OptForest(s.tree)
    decreases |calls|
  {
    if calls == [] then 0
    else
      var front, last := calls[..|calls| - 1], calls[|calls| - 1];
      SaveCount(rules, s, front) + if Saves(rules, last.0, Run(rules, s, front), last.1) then 1 else 0
  }

  /** A call that saves stores its tree under the next revision; any other leaves the store as it is. */
  lemma StepExactly(rules: Rules, w: World, s: State, call: Call)
    requires OptForest(s.tree)
    ensures var s' := Step(rules, w, s, call);
      if Saves(rules, w, s, call) then
        && s'.revision == s.revision + 1 && s'.tree.Some? && s'.tree.value.revision == s.revision + 1
        && s'.tree.value == Attempt(rules, w, s, call).value.value.(revision := s.revision + 1)
      else s' == s
  {
  }

  /** Over any run the revision counts the calls that saved. */
  lemma {:induction false} RevisionCountsSaves(rules: Rules, s: State, calls: seq<(World, Call)>)
    requires OptForest(s.tree)
    ensures Run(rules, s, calls).revision == s.revision + SaveCount(rules, s, calls)
    decreases |calls|
  {
    if calls != [] {
      var front, last := calls[..|calls| - 1], calls[|calls| - 1];
      RevisionCountsSaves(rules, s, front);
      StepExactly(rules, last.0, Run(rules, s, front), last.1);
    }
  }

  // ---------------------------------------------------------------- reservations

  /** The identities a wave is charged for: the ones given, or else one for each test. */
  ghost function Wave(testIds: seq<string>, executionId: Option<string>, executionIds: Option<seq<string>>)
    : set<string>
  {
    match executionIds
    case Some(ids) => set k | k in ids
    case None =>
      match executionId
      case Some(id) => {id}
      case None => set id | id in testIds :: "test:" + id
  }

  /** The executions a test is linked to. */
  ghost function Executions(test: Test): set<string> {
    (set k | k in test.executionIds)
    + if test.executionId.Some? && test.executionId.value != "" then {test.executionId.value} else {}
  }

  lemma KeysAreTheWave(testIds: seq<string>, executionId: Option<string>, executionIds: Option<seq<string>>)
    requires NoDup(testIds)
    ensures var keys := ReservationKeys(testIds, executionId, executionIds);
      NoDup(keys) && Elements(keys) == Wave(testIds, executionId, executionIds)
  {
    ReservationKeysNoDup(testIds, executionId, executionIds);
    var keys := ReservationKeys(testIds, executionId, executionIds);
    if executionIds.None? && executionId.None? {
      forall id | id in testIds ensures "test:" + id in keys {
        var i :| 0 <= i < |testIds| && testIds[i] == id;
        assert keys[i] == "test:" + id;
      }
    }
  }

  lemma {:induction false} NovelKeys(keys: seq<string>, charged: seq<string>)
    requires NoDup(keys)
    ensures NoDup(NewKeys(keys, charged)) && Elements(NewKeys(keys, charged)) == Elements(keys) - Elements(charged)
    ensures |NewKeys(keys, charged)| == |Elements(keys) - Elements(charged)|
  {
    NovelNoDup(keys, charged);
    NoDupSize(NewKeys(keys, charged));
    assert Elements(NewKeys(keys, charged)) == Elements(keys) - Elements(charged);
  }

  lemma {:induction false} NovelNoDup(keys: seq<string>, charged: seq<string>)
    requires NoDup(keys)
    ensures NoDup(NewKeys(keys, charged))
  {
    if keys != [] {
      NovelNoDup(keys[1..], charged);
      var rest := NewKeys(keys[1..], charged);
      assert forall i :: 0 <= i < |rest| ==> rest[i] in rest && rest[i] in keys[1..];
      assert forall i :: 0 <= i < |keys[1..]| ==> keys[1..][i] == keys[i + 1];
    }
  }

  lemma WaveFits(t: Tree, testIds: seq<string>, executionId: Option<string>, executionIds: Option<seq<string>>)
    requires NoDup(testIds)
    ensures var keys, wave := ReservationKeys(testIds, executionId, executionIds),
                              Wave(testIds, executionId, executionIds);
      (keys == [] <==> wave == {}) && |NewKeys(keys, t.charged)| == |wave - Elements(t.charged)|
  {
    var keys := ReservationKeys(testIds, executionId, executionIds);
    KeysAreTheWave(testIds, executionId, executionIds);
    NovelKeys(keys, t.charged);
    assert keys != [] ==> keys[0] in Elements(keys);
  }

  lemma BeginAccepts(t: Tree, testIds: seq<string>, executionId: Option<string>, executionIds: Option<seq<string>>)
    ensures var keys := ReservationKeys(testIds, executionId, executionIds);
      BeginTests(Some(t), testIds, executionId, executionIds).Ok? <==>
      && !t.paused && t.mode == Iterative && testIds != [] && NoDup(testIds)
      && (forall k :: k in testIds ==> k in t.tests) && !(executionId.Some? && executionIds.Some?)
      && keys != [] && t.executionsUsed + |NewKeys(keys, t.charged)| <= t.executionBudget
  {
  }

  /** A reservation is accepted exactly for an active iterative tree, distinct known tests, one form of
      identity, at least one identity, and no more new identities than the budget has left. */
  lemma ReservationAcceptedExactly(
      tree: Option<Tree>, testIds: seq<string>, executionId: Option<string>, executionIds: Option<seq<string>>)
    ensures BeginTests(tree, testIds, executionId, executionIds).Ok? <==>
      && tree.Some? && !tree.value.paused && tree.value.mode == Iterative
      && testIds != [] && NoDup(testIds) && (forall k :: k in testIds ==> k in tree.value.tests)
      && !(executionId.Some? && executionIds.Some?)
      && Wave(testIds, executionId, executionIds) != {}
      && tree.value.executionsUsed + |Wave(testIds, executionId, executionIds) - Elements(tree.value.charged)|
         <= tree.value.executionBudget
  {
    if tree.Some? {
      BeginAccepts(tree.value, testIds, executionId, executionIds);
      if NoDup(testIds) {
        WaveFits(tree.value, testIds, executionId, executionIds);
      }
    }
  }

  /** The list begins with these texts, in ascending order. */
  ghost predicate OldFirst(before: set<string>, ids: seq<string>) {
    |before| <= |ids| && StringsAscend(ids[..|before|]) && Elements(ids[..|before|]) == before
  }

  lemma FirstPart(sorted: seq<string>, ids: seq<string>)
    requires sorted <= ids && StringsAscend(sorted) && NoDup(sorted)
    ensures OldFirst(Elements(sorted), ids)
  {
    NoDupSize(sorted);
    assert ids[..|sorted|] == sorted;
  }

  lemma SortedFirst(linked: seq<string>, keys: seq<string>)
    requires NoDup(linked)
    ensures OldFirst(Elements(linked), Dedup(SortStrings(linked) + keys))
  {
    var sorted := SortStrings(linked);
    SortedStrings(linked);
    AscendingDiffer(sorted);
    DedupPrefix(sorted, keys);
    FirstPart(sorted, Dedup(sorted + keys));
    assert Elements(sorted) == Elements(linked);
  }

  lemma {:induction false} NotLess(a: string)
    ensures !Less(a, a)
  {
    if a != [] {
      NotLess(a[1..]);
    }
  }

  lemma AscendingDiffer(s: seq<string>)
    requires StringsAscend(s)
    ensures NoDup(s)
  {
    forall i, j | 0 <= i < j < |s| ensures s[i] != s[j] {
      NotLess(s[i]);
    }
  }

  /** What a reservation does to a named test: it runs if it was waiting, its attempt is charged, and it is
      linked to the explicit identities besides its old ones, alone in `executionId` if there is just one. */
  ghost predicate TestReserved(before: Test, after: Test, wave: set<string>, explicit: bool) {
    && after.attemptCharged
    && after.status == (if before.status == Todo then Running else before.status)
    && after == before.(attemptCharged := true, status := after.status,
                        executionIds := after.executionIds, executionId := after.executionId)
    && (if explicit && !(wave <= Executions(before)) then
          && NoDup(after.executionIds) && Elements(after.executionIds) == Executions(before) + wave
          && OldFirst(Executions(before), after.executionIds)
          && (if |after.executionIds| == 1 then after.executionId == Some(after.executionIds[0])
              else after.executionId == before.executionId)
        else after.executionIds == before.executionIds && after.executionId == before.executionId)
    && (explicit ==> wave <= Executions(after))
  }

  lemma LinkedIsExecutions(test: Test)
    ensures Elements(Linked(test)) == Executions(test)
  {
    ElementsConcat(test.executionIds, OwnExecution(test));
  }

  lemma TestIsReserved(test: Test, keys: seq<string>, explicit: bool)
    ensures TestReserved(test, ReserveTest(test, keys, explicit), Elements(keys), explicit)
  {
    LinkedIsExecutions(test);
    ElementsConcat(SortStrings(Linked(test)), keys);
    assert Elements(SortStrings(Linked(test))) == Elements(Linked(test));
    SortedFirst(Linked(test), keys);
  }

  /** What an accepted reservation leaves: every named test reserved and no other changed, the identities
      of the wave charged besides the old ones, and the use raised by the new ones. Nothing is saved
      exactly when this is the tree there was. */
  ghost predicate WaveCharged(t: Tree, t': Tree, testIds: seq<string>, wave: set<string>, explicit: bool) {
    && t' == t.(tests := t'.tests, charged := t'.charged, executionsUsed := t'.executionsUsed)
    && t.charged <= t'.charged && Elements(t'.charged) == Elements(t.charged) + wave
    && t'.executionsUsed == t.executionsUsed + |wave - Elements(t.charged)|
    && |t'.charged| == |t.charged| + |wave - Elements(t.charged)|
    && t'.tests.Keys == t.tests.Keys
    && (forall k :: k in t.tests ==>
          if k in testIds then TestReserved(t.tests[k], t'.tests[k], wave, explicit) else t'.tests[k] == t.tests[k])
  }

  lemma ReservedIsCharged(t: Tree, testIds: seq<string>, keys: seq<string>, explicit: bool)
    requires NoDup(keys)
    ensures WaveCharged(t, Reserved(t, testIds, keys, explicit), testIds, Elements(keys), explicit)
  {
    var t' := Reserved(t, testIds, keys, explicit);
    NovelKeys(keys, t.charged);
    ElementsConcat(t.charged, NewKeys(keys, t.charged));
    forall k | k in t.tests && k in testIds
      ensures TestReserved(t.tests[k], t'.tests[k], Elements(keys), explicit)
    {
      TestIsReserved(t.tests[k], keys, explicit);
    }
  }

  lemma BeginSaves(t: Tree, testIds: seq<string>, executionId: Option<string>, executionIds: Option<seq<string>>)
    requires BeginTests(Some(t), testIds, executionId, executionIds).Ok?
    ensures var saved := BeginTests(Some(t), testIds, executionId, executionIds).value;
      var keys := ReservationKeys(testIds, executionId, executionIds);
      var t' := Reserved(t, testIds, keys, executionId.Some? || executionIds.Some?);
      NoDup(testIds) && saved == if t' == t then None else Some(t')
  {
  }

  /** An accepted reservation leaves exactly that, and saves it only if it is a change. */
  lemma ReservationExactly(
      t: Tree, testIds: seq<string>, executionId: Option<string>, executionIds: Option<seq<string>>)
    requires BeginTests(Some(t), testIds, executionId, executionIds).Ok?
    ensures var saved := BeginTests(Some(t), testIds, executionId, executionIds).value;
      var t' := if saved.Some? then saved.value else t;
      && WaveCharged(t, t', testIds, Wave(testIds, executionId, executionIds), executionId.Some? || executionIds.Some?)
      && (saved.Some? ==> t' != t)
  {
    var explicit := executionId.Some? || executionIds.Some?;
    BeginSaves(t, testIds, executionId, executionIds);
    KeysAreTheWave(testIds, executionId, executionIds);
    ReservedIsCharged(t, testIds, ReservationKeys(testIds, executionId, executionIds), explicit);
  }
}
