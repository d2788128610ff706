/** When each research action on an active tree is accepted, and what it then stores. */
module ResearchActions {
  import opened Common
  import opened RootedTree
  import opened ResearchTree
  import opened ResearchEffects
  import opened ResearchOutcomes

  // ---------------------------------------------------------------- the plan of an action

  /** New test ids, and targets among the known hypotheses other than the root. */
  ghost predicate PlanAllowed(tests: map<string, Test>, drafts: seq<TestDraft>, known: set<string>) {
    && (forall i, j :: 0 <= i < j < |drafts| ==> drafts[i].id != drafts[j].id)
    && (forall i :: 0 <= i < |drafts| ==> drafts[i].id !in tests)
    && (forall i :: 0 <= i < |drafts| ==> Among(drafts[i].targets, known))
  }

  ghost predicate Among(targets: seq<string>, known: set<string>) {
    "root" !in targets && forall k :: k in targets ==> k in known
  }

  /** A planned test: waiting or infeasible as drafted, without result, execution, charge or WorkOrder. */
  ghost predicate PlannedAs(test: Test, draft: TestDraft) {
    test == Test(draft, if draft.feasible then Todo else Infeasible, None, None, true, None, false, [], None)
  }

  ghost predicate PlanStored(tests: map<string, Test>, tests': map<string, Test>, drafts: seq<TestDraft>) {
    && (forall k :: k in tests' <==> k in tests || exists i :: 0 <= i < |drafts| && drafts[i].id == k)
    && (forall k :: k in tests ==> tests'[k] == tests[k])
    && (forall i :: 0 <= i < |drafts| ==> PlannedAs(tests'[drafts[i].id], drafts[i]))
  }

  lemma TestIdsNew(tests: map<string, Test>, drafts: seq<TestDraft>)
    ensures AllNew(TestIds(drafts), tests.Keys) <==>
      && (forall i, j :: 0 <= i < j < |drafts| ==> drafts[i].id != drafts[j].id)
      && (forall i :: 0 <= i < |drafts| ==> drafts[i].id !in tests)
  {
    var ids := TestIds(drafts);
    assert forall i :: 0 <= i < |drafts| ==> ids[i] == drafts[i].id;
  }

  lemma AmongMeans(targets: seq<string>, known: set<string>)
    ensures TargetsKnown(targets, known) <==> Among(targets, known)
  {
  }

  lemma TargetsAllowed(drafts: seq<TestDraft>, known: set<string>)
    ensures Targeted(drafts, known) <==> forall i :: 0 <= i < |drafts| ==> Among(drafts[i].targets, known)
  {
    forall i | 0 <= i < |drafts|
      ensures TargetsKnown(drafts[i].targets, known) <==> Among(drafts[i].targets, known)
    {
      AmongMeans(drafts[i].targets, known);
    }
  }

  lemma PlanFitsMeans(tests: map<string, Test>, drafts: seq<TestDraft>, known: set<string>)
    ensures PlanFits(drafts, tests.Keys, known) <==> PlanAllowed(tests, drafts, known)
  {
    TestIdsNew(tests, drafts);
    TargetsAllowed(drafts, known);
  }

  lemma PlanOutcome(known: set<string>, tests: map<string, Test>, drafts: seq<TestDraft>)
    ensures var r := AddTests(known, tests, [], drafts, None, false);
      (r.Ok? <==> PlanAllowed(tests, drafts, known)) && (r.Ok? ==> PlanStored(tests, r.value.0, drafts))
  {
    CoordinatorPlanExactly(known, tests, [], drafts);
    PlanFitsMeans(tests, drafts, known);
    if AddTests(known, tests, [], drafts, None, false).Ok? {
      PlansAreStored(known, tests, [], drafts, None, false);
      StoredAsPlanned(tests, AddTests(known, tests, [], drafts, None, false).value.0, drafts, known);
    }
  }

  lemma StoredAsPlanned(tests: map<string, Test>, tests': map<string, Test>, drafts: seq<TestDraft>, known: set<string>)
    requires PlanAllowed(tests, drafts, known) && Planned(tests, tests', drafts, None, false)
    ensures PlanStored(tests, tests', drafts)
  {
    forall k | k in tests' && k !in tests ensures exists i :: 0 <= i < |drafts| && drafts[i].id == k {
      assert k in TestIds(drafts);
    }
  }

  // ---------------------------------------------------------------- the hypotheses of an action

  ghost predicate ClaimsNew(rules: Rules, hyps: map<string, Hypothesis>, drafts: seq<HypothesisDraft>) {
    && (forall i, j :: 0 <= i < j < |drafts| ==> rules.claimKey(drafts[i].claim) != rules.claimKey(drafts[j].claim))
    && (forall i, k :: 0 <= i < |drafts| && k in hyps ==>
          rules.claimKey(drafts[i].claim) != rules.claimKey(hyps[k].claim))
  }

  ghost predicate IdsNew(hyps: map<string, Hypothesis>, drafts: seq<HypothesisDraft>) {
    && (forall i, j :: 0 <= i < j < |drafts| ==> drafts[i].id != drafts[j].id)
    && (forall i :: 0 <= i < |drafts| ==> drafts[i].id !in hyps)
  }

  /** A proposed hypothesis: as drafted, below the parent, untested, with nothing judged yet. */
  ghost predicate ProposedAs(h: Hypothesis, draft: HypothesisDraft, parent: string) {
    && h.claim == draft.claim && h.relation == draft.relation && h.parent == Some(parent)
    && h.judgment == Judgment(Untested, None, None, None, false) && h.history == []
  }

  /** Equal but for the summary of what lies below. */
  ghost predicate SameButSummary(h: Hypothesis, h': Hypothesis) {
    h' == h.(childrenSummary := h'.childrenSummary)
  }

  ghost predicate ProposalStored(t: Tree, t': Tree, parent: string, drafts: seq<HypothesisDraft>) {
    && t'.keys == t.keys + DraftIds(drafts)
    && (forall k :: k in t'.hypotheses <==> k in t.hypotheses || k in DraftIds(drafts))
    && (forall k :: k in t.hypotheses ==> SameButSummary(t.hypotheses[k], t'.hypotheses[k]))
    && (forall i :: 0 <= i < |drafts| ==> ProposedAs(t'.hypotheses[drafts[i].id], drafts[i], parent))
  }

  lemma NewMeans(rules: Rules, hyps: map<string, Hypothesis>, drafts: seq<HypothesisDraft>)
    ensures AllNew(DraftIds(drafts), hyps.Keys) <==> IdsNew(hyps, drafts)
    ensures AllNew(DraftClaims(rules, drafts), ClaimKeys(rules, hyps)) <==> ClaimsNew(rules, hyps, drafts)
  {
    IdsNewMeans(hyps, drafts);
    ClaimsNewMeans(rules, hyps, drafts);
  }

  lemma IdsNewMeans(hyps: map<string, Hypothesis>, drafts: seq<HypothesisDraft>)
    ensures AllNew(DraftIds(drafts), hyps.Keys) <==> IdsNew(hyps, drafts)
  {
    var ids := DraftIds(drafts);
    assert forall i :: 0 <= i < |drafts| ==> ids[i] == drafts[i].id;
  }

  lemma ClaimsNewMeans(rules: Rules, hyps: map<string, Hypothesis>, drafts: seq<HypothesisDraft>)
    ensures AllNew(DraftClaims(rules, drafts), ClaimKeys(rules, hyps)) <==> ClaimsNew(rules, hyps, drafts)
  {
    var claims, taken := DraftClaims(rules, drafts), ClaimKeys(rules, hyps);
    assert forall i :: 0 <= i < |drafts| ==> claims[i] == rules.claimKey(drafts[i].claim);
    assert forall k :: k in hyps ==> rules.claimKey(hyps[k].claim) in taken;
    if AllNew(claims, taken) {
      forall i, k | 0 <= i < |drafts| && k in hyps
        ensures rules.claimKey(drafts[i].claim) != rules.claimKey(hyps[k].claim)
      {
        assert claims[i] !in taken;
      }
      forall i, j | 0 <= i < j < |drafts| ensures rules.claimKey(drafts[i].claim) != rules.claimKey(drafts[j].claim) {
        assert claims[i] != claims[j];
      }
    }
  }

  /** The tree with exactly these hypotheses and tests added, and these reflections. */
  ghost predicate Added(t: Tree, t': Tree, parent: string, candidates: seq<HypothesisDraft>, tests: seq<TestDraft>,
                        reflections: seq<Reflection>) {
    && t' == t.(keys := t'.keys, hypotheses := t'.hypotheses, tests := t'.tests, reflections := reflections)
    && ProposalStored(t, t', parent, candidates) && PlanStored(t.tests, t'.tests, tests)
  }

  ghost predicate AdditionAllowed(rules: Rules, t: Tree, candidates: seq<HypothesisDraft>, tests: seq<TestDraft>) {
    && IdsNew(t.hypotheses, candidates) && ClaimsNew(rules, t.hypotheses, candidates)
    && PlanAllowed(t.tests, tests, t.hypotheses.Keys + Elements(DraftIds(candidates)))
  }

  /** What `AddBoth` does, before the summaries are recomputed. */
  lemma BothOutcome(rules: Rules, t: Tree, parent: string, candidates: seq<HypothesisDraft>, tests: seq<TestDraft>)
    requires TreeForest(t)
    ensures var r := AddBoth(rules, t, parent, candidates, tests);
      && (r.Ok? <==> parent in t.hypotheses && AdditionAllowed(rules, t, candidates, tests))
      && (r.Ok? ==> Added(t, r.value, parent, candidates, tests, t.reflections))
  {
    ProposalExactly(rules, t.keys, t.hypotheses, parent, candidates);
    NewMeans(rules, t.hypotheses, candidates);
    var hs := NewHypotheses(rules, t.keys, t.hypotheses, parent, candidates);
    if hs.Ok? {
      ProposalKeys(t.keys, t.hypotheses, hs.value.0, hs.value.1, parent, candidates);
      PlanOutcome(hs.value.1.Keys, t.tests, tests);
      ProposedMeans(t, t.(keys := hs.value.0, hypotheses := hs.value.1), parent, candidates);
    }
  }

  lemma ProposalKeys(keys: seq<string>, hyps: map<string, Hypothesis>, keys': seq<string>,
                     hyps': map<string, Hypothesis>,
                     parent: string, candidates: seq<HypothesisDraft>)
    requires Forest(keys, hyps) && Forest(keys', hyps') && Proposed(keys, hyps, keys', hyps', parent, candidates)
    ensures hyps'.Keys == hyps.Keys + Elements(DraftIds(candidates))
  {
    forall k ensures k in hyps' <==> k in hyps || k in DraftIds(candidates) {
      assert k in hyps' <==> k in keys';
      assert k in keys' <==> k in keys || k in DraftIds(candidates);
    }
  }

  lemma ProposedMeans(t: Tree, t': Tree, parent: string, candidates: seq<HypothesisDraft>)
    requires Proposed(t.keys, t.hypotheses, t'.keys, t'.hypotheses, parent, candidates)
    requires t'.hypotheses.Keys == t.hypotheses.Keys + Elements(DraftIds(candidates))
    ensures ProposalStored(t, t', parent, candidates)
  {
  }

  /** The same tree but for the stored summaries. */
  ghost predicate SummariesChanged(t: Tree, t': Tree) {
    && t' == t.(hypotheses := t'.hypotheses) && t'.hypotheses.Keys == t.hypotheses.Keys
    && forall k :: k in t.hypotheses ==> SameButSummary(t.hypotheses[k], t'.hypotheses[k])
  }

  lemma SyncChangesSummaries(t: Tree)
    requires TreeForest(t)
    ensures SummariesChanged(t, SyncTree(t))
  {
    forall k | k in t.hypotheses ensures SameButSummary(t.hypotheses[k], SyncTree(t).hypotheses[k]) {
      assert SyncTree(t).hypotheses[k] == Refreshed(t.keys, t.hypotheses, k);
    }
  }

  lemma SummariesKeepProposal(t: Tree, t': Tree, t'': Tree, parent: string, candidates: seq<HypothesisDraft>)
    requires ProposalStored(t, t', parent, candidates) && SummariesChanged(t', t'')
    ensures ProposalStored(t, t'', parent, candidates)
  {
    forall i | 0 <= i < |candidates| ensures ProposedAs(t''.hypotheses[candidates[i].id], candidates[i], parent) {
      assert DraftIds(candidates)[i] == candidates[i].id;
      assert SameButSummary(t'.hypotheses[candidates[i].id], t''.hypotheses[candidates[i].id]);
    }
    forall k | k in t.hypotheses ensures SameButSummary(t.hypotheses[k], t''.hypotheses[k]) {
      assert SameButSummary(t.hypotheses[k], t'.hypotheses[k]) && SameButSummary(t'.hypotheses[k], t''.hypotheses[k]);
    }
  }

  lemma SyncKeepsAdded(t: Tree, t': Tree, parent: string, candidates: seq<HypothesisDraft>, tests: seq<TestDraft>,
                       reflections: seq<Reflection>)
    requires TreeForest(t') && Added(t, t', parent, candidates, tests, reflections)
    ensures Added(t, SyncTree(t'), parent, candidates, tests, reflections)
  {
    SyncChangesSummaries(t');
    SummariesKeepProposal(t, t', SyncTree(t'), parent, candidates);
  }

  lemma NothingProposed(t: Tree, t': Tree)
    requires t'.keys == t.keys && t'.hypotheses == t.hypotheses
    ensures ProposalStored(t, t', "root", [])
  {
    assert t.keys + DraftIds([]) == t.keys;
  }

  // ---------------------------------------------------------------- the actions

  /** On an active tree a research action is accepted exactly when it is by itself, and is saved with the
      summaries recomputed. */
  lemma ActiveCall(rules: Rules, w: World, s: State, request: Request, requestId: Option<string>)
    requires OptForest(s.tree) && s.tree.Some? && !s.tree.value.paused
    requires !request.Start? && !request.Resume? && !request.Pause?
    ensures var r, done := Attempt(rules, w, s, Coordinator(s.revision, request, requestId)),
                           Research(rules, w, s.tree.value, request);
      && (r.Ok? <==> done.Ok?) && (r.Err? ==> r.error == done.error)
      && (r.Ok? ==> r.value == if done.value.Some? then Some(SyncTree(done.value.value)) else None)
  {
  }

  /** What is accepted is saved, and adds exactly these. */
  ghost predicate AddedBy(r: Result<Option<Tree>, Error>, t: Tree, parent: string, candidates: seq<HypothesisDraft>,
                          tests: seq<TestDraft>, reflections: seq<Reflection>) {
    r.Ok? ==> r.value.Some? && Added(t, r.value.value, parent, candidates, tests, reflections)
  }

  lemma AddedIsSaved(rules: Rules, w: World, s: State, request: Request, requestId: Option<string>, parent: string,
                     candidates: seq<HypothesisDraft>, tests: seq<TestDraft>, reflections: seq<Reflection>)
    requires OptForest(s.tree) && s.tree.Some? && !s.tree.value.paused
    requires !request.Start? && !request.Resume? && !request.Pause?
    requires AddedBy(Research(rules, w, s.tree.value, request), s.tree.value, parent, candidates, tests, reflections)
    ensures var r := Attempt(rules, w, s, Coordinator(s.revision, request, requestId));
      && (r.Ok? <==> Research(rules, w, s.tree.value, request).Ok?)
      && AddedBy(r, s.tree.value, parent, candidates, tests, reflections)
  {
    ActiveCall(rules, w, s, request, requestId);
    var done := Research(rules, w, s.tree.value, request);
    if done.Ok? {
      SyncKeepsAdded(s.tree.value, done.value.value, parent, candidates, tests, reflections);
    }
  }

  /** A proposal is accepted exactly for a known parent, new and distinct ids and claims, and an allowed
      plan over old and new hypotheses; it stores exactly its hypotheses and tests. */
  lemma ProposeExactly(rules: Rules, w: World, s: State, node: string, candidates: seq<HypothesisDraft>,
                       tests: seq<TestDraft>, requestId: Option<string>)
    requires OptForest(s.tree) && s.tree.Some? && !s.tree.value.paused
    ensures var t := s.tree.value;
      var r := Attempt(rules, w, s, Coordinator(s.revision, Propose(node, candidates, tests), requestId));
      && (r.Ok? <==> node in t.hypotheses && AdditionAllowed(rules, t, candidates, tests))
      && AddedBy(r, t, node, candidates, tests, t.reflections)
  {
    BothOutcome(rules, s.tree.value, node, candidates, tests);
    AddedIsSaved(rules, w, s, Propose(node, candidates, tests), requestId, node, candidates, tests,
                 s.tree.value.reflections);
  }

  lemma PlanOnlyOutcome(t: Tree, tests: seq<TestDraft>)
    requires TreeForest(t)
    ensures var r := AddTestsOnly(t, tests);
      && (r.Ok? <==> PlanAllowed(t.tests, tests, t.hypotheses.Keys))
      && (r.Ok? ==> TreeForest(r.value) && Added(t, r.value, "root", [], tests, t.reflections))
  {
    PlanOutcome(t.hypotheses.Keys, t.tests, tests);
    var r := AddTestsOnly(t, tests);
    if r.Ok? {
      NothingProposed(t, r.value);
    }
  }

  /** A plan is accepted exactly when it is allowed, and stores exactly its tests. */
  lemma PlanTestExactly(rules: Rules, w: World, s: State, tests: seq<TestDraft>, requestId: Option<string>)
    requires OptForest(s.tree) && s.tree.Some? && !s.tree.value.paused
    ensures var t := s.tree.value;
      var r := Attempt(rules, w, s, Coordinator(s.revision, PlanTest(tests), requestId));
      && (r.Ok? <==> PlanAllowed(t.tests, tests, t.hypotheses.Keys))
      && AddedBy(r, t, "root", [], tests, t.reflections)
  {
    PlanOnlyOutcome(s.tree.value, tests);
    AddedIsSaved(rules, w, s, PlanTest(tests), requestId, "root", [], tests, s.tree.value.reflections);
  }

  lemma NothingAdded(rules: Rules, t: Tree, tests: seq<TestDraft>)
    ensures AdditionAllowed(rules, t, [], tests) <==> PlanAllowed(t.tests, tests, t.hypotheses.Keys)
  {
    assert t.hypotheses.Keys + Elements(DraftIds([])) == t.hypotheses.Keys;
  }

  lemma ReflectOutcome(
      rules: Rules, t: Tree, reflection: Reflection, candidates: seq<HypothesisDraft>, tests: seq<TestDraft>)
    requires TreeForest(t)
    ensures var r := ReflectTree(rules, t, reflection, candidates, tests);
      && (r.Ok? <==> !AnyTestRuns(t) && AdditionAllowed(rules, t, candidates, tests))
      && (r.Ok? ==> Added(t, r.value, "root", candidates, tests, t.reflections + [reflection]))
  {
    var noted := t.(reflections := t.reflections + [reflection]);
    assert AnyRunning(t.tests) <==> AnyTestRuns(t);
    if candidates == [] {
      PlanOnlyOutcome(noted, tests);
      NothingAdded(rules, t, tests);
    } else {
      BothOutcome(rules, noted, ROOT, candidates, tests);
    }
  }

  /** A reflection is refused while a test runs; otherwise it is a proposal below the root that is also
      noted, last in the list. */
  lemma ReflectExactly(rules: Rules, w: World, s: State, reflection: Reflection, candidates: seq<HypothesisDraft>,
                       tests: seq<TestDraft>, requestId: Option<string>)
    requires OptForest(s.tree) && s.tree.Some? && !s.tree.value.paused
    ensures var t := s.tree.value;
      var r := Attempt(rules, w, s, Coordinator(s.revision, Reflect(reflection, candidates, tests), requestId));
      && (r.Ok? <==> !AnyTestRuns(t) && AdditionAllowed(rules, t, candidates, tests))
      && AddedBy(r, t, "root", candidates, tests, t.reflections + [reflection])
  {
    var t := s.tree.value;
    ReflectOutcome(rules, t, reflection, candidates, tests);
    AddedIsSaved(rules, w, s, Reflect(reflection, candidates, tests), requestId, "root", candidates, tests,
                 t.reflections + [reflection]);
  }

  /** The tests with exactly this one changed. */
  ghost predicate OneTestStored(t: Tree, t': Tree, id: string, test: Test) {
    && t' == t.(hypotheses := t'.hypotheses, tests := t.tests[id := test])
    && ProposalStored(t, t', "root", [])
  }

  lemma OneTestSaved(t: Tree, id: string, test: Test)
    requires TreeForest(t)
    ensures OneTestStored(t, SyncTree(t.(tests := t.tests[id := test])), id, test)
  {
    var t' := t.(tests := t.tests[id := test]);
    NothingProposed(t, t');
    SyncChangesSummaries(t');
    SummariesKeepProposal(t, t', SyncTree(t'), "root", []);
  }

  /** Exactly a waiting or running test can be marked infeasible; then it is, for the given reason. */
  lemma MarkExactly(rules: Rules, w: World, s: State, testId: string, reason: string, requestId: Option<string>)
    requires OptForest(s.tree) && s.tree.Some? && !s.tree.value.paused
    ensures var t := s.tree.value;
      var r := Attempt(rules, w, s, Coordinator(s.revision, MarkInfeasible(testId, reason), requestId));
      && (r.Ok? <==> testId in t.tests && (t.tests[testId].status == Todo || t.tests[testId].status == Running))
      && (r.Ok? ==>
            && r.value.Some?
            && var test := t.tests[testId];
               OneTestStored(t, r.value.value, testId,
                 test.(status := Infeasible, plan := test.plan.(feasible := false, infeasibleReason := Some(reason)))))
  {
    var t := s.tree.value;
    ActiveCall(rules, w, s, MarkInfeasible(testId, reason), requestId);
    if testId in t.tests {
      var test := t.tests[testId];
      OneTestSaved(t, testId,
        test.(status := Infeasible, plan := test.plan.(feasible := false, infeasibleReason := Some(reason))));
    }
  }

  /** A result is accepted exactly for a known test, with evidence of the journal, unless another result
      is recorded; it makes the test done, or nothing is saved when it is recorded already. */
  lemma RecordExactly(rules: Rules, w: World, s: State, testId: string, result: TestResult, requestId: Option<string>)
    requires OptForest(s.tree) && s.tree.Some? && !s.tree.value.paused
    ensures var t := s.tree.value;
      var r := Attempt(rules, w, s, Coordinator(s.revision, Record(testId, result), requestId));
      && (r.Ok? <==>
            && testId in t.tests && (forall e :: e in result.evidenceRefs ==> e in w.observations)
            && (t.tests[testId].status == Done ==> t.tests[testId].result == Some(result)))
      && (r.Ok? ==>
            if t.tests[testId].status == Done then r.value.None?
            else r.value.Some? && OneTestStored(t, r.value.value, testId,
                                    t.tests[testId].(status := Done, result := Some(result))))
  {
    var t := s.tree.value;
    ActiveCall(rules, w, s, Record(testId, result), requestId);
    if testId in t.tests {
      OneTestSaved(t, testId, t.tests[testId].(status := Done, result := Some(result)));
    }
  }

  /** A judgment is accepted exactly for a known hypothesis, a cited test among whose targets it is, for
      `established` one with two different targets, and evidence of the journal. */
  lemma AdjudicationAcceptedExactly(rules: Rules, w: World, s: State, node: string, status: Status,
                                    summary: Option<string>, refs: seq<string>, cited: Option<string>,
                                    requestId: Option<string>)
    requires OptForest(s.tree) && s.tree.Some? && !s.tree.value.paused
    ensures var t := s.tree.value;
      var r := Attempt(rules, w, s, Coordinator(s.revision, Adjudicate(node, status, summary, refs, cited), requestId));
      r.Ok? <==>
      && node in t.hypotheses && (forall e :: e in refs ==> e in w.observations)
      && (cited.Some? ==> cited.value in t.tests && node in t.tests[cited.value].plan.targets)
      && (status == Established ==>
            cited.Some? && exists k :: k in t.tests[cited.value].plan.targets && k != node)
  {
    var t := s.tree.value;
    ActiveCall(rules, w, s, Adjudicate(node, status, summary, refs, cited), requestId);
    if cited.Some? && cited.value in t.tests && node in t.tests[cited.value].plan.targets {
      TwoTargets(t.tests[cited.value].plan.targets, node);
    }
  }

  /** The tree with exactly this hypothesis judged anew. */
  ghost predicate Judged(t: Tree, t': Tree, node: string, updated: Judgment) {
    && t' == t.(hypotheses := t'.hypotheses) && t'.hypotheses.Keys == t.hypotheses.Keys
    && (forall k :: k in t.hypotheses && k != node ==> SameButSummary(t.hypotheses[k], t'.hypotheses[k]))
    && node in t.hypotheses
    && var h := t.hypotheses[node];
       SameButSummary(h.(judgment := updated,
                         history := h.history + if h.judgment == updated then [] else [h.judgment]),
                      t'.hypotheses[node])
  }

  lemma JudgedByItself(w: World, t: Tree, node: string, updated: Judgment)
    requires updated.evidenceRefs.Some? && AdjudicateTree(w, t, node, updated).Ok?
    ensures Judged(t, AdjudicateTree(w, t, node, updated).value, node, updated)
  {
    assert t.hypotheses[node].history + [] == t.hypotheses[node].history;
  }

  lemma SummariesKeepJudgment(t: Tree, t': Tree, t'': Tree, node: string, updated: Judgment)
    requires Judged(t, t', node, updated) && SummariesChanged(t', t'')
    ensures Judged(t, t'', node, updated)
  {
    forall k | k in t.hypotheses && k != node ensures SameButSummary(t.hypotheses[k], t''.hypotheses[k]) {
      assert SameButSummary(t.hypotheses[k], t'.hypotheses[k]) && SameButSummary(t'.hypotheses[k], t''.hypotheses[k]);
    }
    assert SameButSummary(t'.hypotheses[node], t''.hypotheses[node]);
  }

  /** An accepted judgment is stored as asked for, by the Coordinator, with its predecessor in the history if
      it differs; nothing else changes but the summaries. */
  lemma AdjudicationExactly(rules: Rules, w: World, s: State, node: string, status: Status, summary: Option<string>,
                            refs: seq<string>, cited: Option<string>, requestId: Option<string>)
    requires OptForest(s.tree)
    requires Attempt(rules, w, s, Coordinator(s.revision, Adjudicate(node, status, summary, refs, cited),
                                              requestId)).Ok?
    ensures var saved := Attempt(rules, w, s, Coordinator(s.revision, Adjudicate(node, status, summary, refs, cited),
                                                          requestId)).value;
      && s.tree.Some? && saved.Some?
      && Judged(s.tree.value, saved.value, node, Judgment(status, summary, Some(refs), cited, true))
  {
    var updated := Judgment(status, summary, Some(refs), cited, true);
    AdjudicateIsJudged(rules, w, s, node, updated, Adjudicate(node, status, summary, refs, cited), requestId);
    var judged := AdjudicateTree(w, s.tree.value, node, updated).value;
    JudgedByItself(w, s.tree.value, node, updated);
    SyncChangesSummaries(judged);
    SummariesKeepJudgment(s.tree.value, judged, SyncTree(judged), node, updated);
  }

  lemma TwoTargets(targets: seq<string>, node: string)
    requires node in targets
    ensures |Elements(targets)| >= 2 <==> exists k :: k in targets && k != node
  {
    OtherElement(Elements(targets), node);
    if k :| k in targets && k != node {
      SubsetSize({node, k}, Elements(targets));
      assert |{node, k}| == 2;
    }
    if |Elements(targets)| >= 2 {
      var x :| x in Elements(targets) && x != node;
      assert x in targets;
    }
  }

  // ---------------------------------------------------------------- the text of a summary

  ghost predicate StatusWord(s: Status, word: string) {
    match s
    case Untested => word == "untested"
    case Supported => word == "supported"
    case Contested => word == "contested"
    case Refuted => word == "refuted"
    case Established => word == "established"
    case Unverifiable => word == "unverifiable"
  }

  /** The line of a child: its id, its status, what was said of it, and below it its own summary. */
  ghost predicate ChildLine(line: string, k: string, j: Judgment, below: Option<string>) {
    exists word ::
      && StatusWord(j.status, word)
      && line == k + " [" + word + "]: " + (match j.summary case Some(text) => text case None => "")
                 + (match below case Some(text) => (if text == "" then "" else "\n" + text) case None => "")
  }

  /** The summary of a hypothesis with children has one line a child, in the order of the keys, joined by
      line breaks; a leaf has none of its own. */
  lemma SummaryReads(keys: seq<string>, hyps: map<string, Hypothesis>, k: string, lines: seq<string>)
    requires Forest(keys, hyps) && k in hyps && Children(ShapeOf(keys, hyps), k) != []
    requires var cs := Children(ShapeOf(keys, hyps), k);
      |lines| == |cs| && forall i :: 0 <= i < |cs| ==>
        cs[i] in hyps && ChildLine(lines[i], cs[i], hyps[cs[i]].judgment, Summary(keys, hyps, cs[i]))
    ensures Summary(keys, hyps, k) == Some(JoinLines(lines))
  {
    var cs := Children(ShapeOf(keys, hyps), k);
    var all := seq(|cs|, i requires 0 <= i < |cs| =>
        (ChildIsLater(keys, hyps, k, cs[i]);
         Line(cs[i], hyps[cs[i]].judgment, Summary(keys, hyps, cs[i]))));
    forall i | 0 <= i < |cs| ensures all[i] == lines[i] {
      LineReads(cs[i], hyps[cs[i]].judgment, Summary(keys, hyps, cs[i]), lines[i]);
    }
    assert all == lines;
  }

  /** A hypothesis without children keeps the summary it has. */
  lemma LeafKeepsSummary(keys: seq<string>, hyps: map<string, Hypothesis>, k: string)
    requires Forest(keys, hyps) && k in hyps && Children(ShapeOf(keys, hyps), k) == []
    ensures Summary(keys, hyps, k) == hyps[k].childrenSummary
  {
  }

  lemma LineReads(k: string, j: Judgment, below: Option<string>, line: string)
    requires ChildLine(line, k, j, below)
    ensures Line(k, j, below) == line
  {
    var word :| StatusWord(j.status, word)
      && line == k + " [" + word + "]: " + (match j.summary case Some(text) => text case None => "")
                 + (match below case Some(text) => (if text == "" then "" else "\n" + text) case None => "");
    assert word == StatusText(j.status);
  }

  /** Joining puts one line break between two lines and none elsewhere. */
  lemma {:induction false} JoinedLines(a: seq<string>, b: seq<string>)
    ensures JoinLines([]) == "" && forall x: string :: JoinLines([x]) == x
    ensures a != [] && b != [] ==> JoinLines(a + b) == JoinLines(a) + "\n" + JoinLines(b)
  {
    if |a| == 1 {
      assert (a + b)[0] == a[0] && (a + b)[1..] == b;
    } else if |a| > 1 {
      JoinedLines(a[1..], b);
      assert (a + b)[0] == a[0] && (a + b)[1..] == a[1..] + b;
      if b != [] {
        assert a[0] + "\n" + (JoinLines(a[1..]) + "\n" + JoinLines(b))
            == (a[0] + "\n" + JoinLines(a[1..])) + "\n" + JoinLines(b);
      }
    }
  }
}
