/** Reservations, Expert facts and whole interleavings of the three actors. */
module ResearchRuns {
  import opened Common
  import opened RootedTree
  import opened ResearchTree
  import opened ResearchTreeProofs

  // ---------------------------------------------------------------- reservations

  lemma {:induction false} NewKeysNoDup(keys: seq<string>, charged: seq<string>)
    requires NoDup(keys) && NoDup(charged)
    ensures NoDup(NewKeys(keys, charged)) && NoDup(charged + NewKeys(keys, charged))
  {
    if keys != [] {
      NewKeysNoDup(keys[1..], charged);
      var rest := NewKeys(keys[1..], charged);
      assert forall i :: 0 <= i < |rest| ==> rest[i] in rest && rest[i] in keys[1..];
      assert forall i :: 0 <= i < |keys[1..]| ==> keys[1..][i] == keys[i + 1];
    }
    var novel := NewKeys(keys, charged);
    assert forall i :: 0 <= i < |novel| ==> novel[i] in novel;
  }

  lemma ReservationKeysNoDup(testIds: seq<string>, executionId: Option<string>, executionIds: Option<seq<string>>)
    requires NoDup(testIds)
    ensures NoDup(ReservationKeys(testIds, executionId, executionIds))
  {
    if executionIds.None? && executionId.None? {
      var keys := ReservationKeys(testIds, executionId, executionIds);
      forall i, j | 0 <= i < j < |keys| ensures keys[i] != keys[j] {
        assert keys[i][5..] == testIds[i] && keys[j][5..] == testIds[j];
      }
    }
  }

  lemma ReserveTestAdvances(known: set<string>, id: string, test: Test, keys: seq<string>, explicit: bool)
    requires TestOk(known, id, test)
    ensures TestOk(known, id, ReserveTest(test, keys, explicit))
    ensures TestAdvances(test, ReserveTest(test, keys, explicit))
  {
  }

  lemma ReservedTestsAdvance(
      known: set<string>, tests: map<string, Test>, tests': map<string, Test>, testIds: seq<string>,
      keys: seq<string>, explicit: bool)
    requires TestsOk(known, tests) && tests'.Keys == tests.Keys
    requires forall k :: k in tests ==> tests'[k] == tests[k] || tests'[k] == ReserveTest(tests[k], keys, explicit)
    ensures TestsOk(known, tests') && TestsAdvance(tests, tests')
  {
    forall id | id in tests ensures TestOk(known, id, tests'[id]) && TestAdvances(tests[id], tests'[id]) {
      assert TestOk(known, id, tests[id]);
      ReserveTestAdvances(known, id, tests[id], keys, explicit);
    }
  }

  lemma ReservationKeeps(
      rules: Rules, t: Tree, testIds: seq<string>, executionId: Option<string>, executionIds: Option<seq<string>>)
    requires Inv(rules, t)
    requires BeginTests(Some(t), testIds, executionId, executionIds).Ok?
    ensures var keys := ReservationKeys(testIds, executionId, executionIds);
      var t' := Reserved(t, testIds, keys, executionId.Some? || executionIds.Some?);
      Inv(rules, t') && TreeAdvances(t, t')
  {
    var keys := ReservationKeys(testIds, executionId, executionIds);
    var explicit := executionId.Some? || executionIds.Some?;
    var t' := Reserved(t, testIds, keys, explicit);
    ReservationKeysNoDup(testIds, executionId, executionIds);
    NewKeysNoDup(keys, t.charged);
    assert BudgetOk(t') && StopOk(t');
    ReservedTestsAdvance(t.hypotheses.Keys, t.tests, t'.tests, testIds, keys, explicit);
    OnlyTestsChange(rules, t, t');
  }

  // ---------------------------------------------------------------- Expert facts

  /** An Expert call leaves every test alone except its own, inside its scope, and starts none. */
  ghost predicate ExpertOnly(tests: map<string, Test>, tests': map<string, Test>, order: string, scope: set<string>) {
    && TestsAdvance(tests, tests') && NoNewRunning(tests, tests')
    && forall id :: id in tests' && (id !in tests || tests'[id] != tests[id]) ==>
         tests'[id].workOrder == Some(order) && Elements(tests'[id].plan.targets) <= scope
  }

  lemma {:induction false} BindDraftsScope(
      rules: Rules, tests: map<string, Test>, request: ExpertRequest, drafts: seq<TestDraft>, bound: seq<TestDraft>,
      names: map<string, string>)
    requires forall i :: 0 <= i < |bound| ==> Elements(bound[i].targets) <= request.scope
    requires BindDrafts(rules, tests, request, drafts, bound, names).Ok?
    ensures forall d :: d in BindDrafts(rules, tests, request, drafts, bound, names).value.0 ==>
      Elements(d.targets) <= request.scope
    decreases |drafts|
  {
    if drafts != [] {
      var key := OwnTestId(rules, tests, request.order, drafts[0].id);
      BindDraftsScope(rules, tests, request, drafts[1..], bound + [drafts[0].(id := key)], names[key := drafts[0].id]);
    }
  }

  lemma NamedTest(
      known: set<string>, tests: map<string, Test>, added: seq<string>, names: map<string, string>, id: string)
    requires id in tests && TestOk(known, id, tests[id])
    ensures var named := Named(tests, added, names);
      && id in named && TestOk(known, id, named[id]) && named[id] == tests[id].(localId := named[id].localId)
      && (id !in added ==> named[id] == tests[id])
  {
  }

  /** What planning leaves of the tests: old ones stay, new ones are this Expert's, in scope and not running. */
  ghost predicate OwnPlans(
      tests: map<string, Test>, added: map<string, Test>, ids: seq<string>, order: string, scope: set<string>)
  {
    && (forall id :: id in tests ==> id in added && added[id] == tests[id] && id !in ids)
    && (forall id :: id in added && id !in tests ==>
          && added[id].status != Running && added[id].workOrder == Some(order)
          && Elements(added[id].plan.targets) <= scope)
  }

  lemma NamingKeeps(known: set<string>, tests: map<string, Test>, added: map<string, Test>, ids: seq<string>,
                    names: map<string, string>, order: string, scope: set<string>)
    requires TestsOk(known, added) && OwnPlans(tests, added, ids, order, scope)
    ensures TestsOk(known, Named(added, ids, names)) && ExpertOnly(tests, Named(added, ids, names), order, scope)
  {
    forall id | id in added
      ensures var named := Named(added, ids, names);
        TestOk(known, id, named[id]) && named[id] == added[id].(localId := named[id].localId)
        && (id in tests ==> named[id] == tests[id])
    {
      assert TestOk(known, id, added[id]);
      NamedTest(known, added, ids, names, id);
    }
  }

  lemma PlanPhase(rules: Rules, known: set<string>, tests: map<string, Test>, request: ExpertRequest,
                  bound: (seq<TestDraft>, map<string, string>), grown: (map<string, Test>, seq<string>))
    requires TestsOk(known, tests)
    requires BindDrafts(rules, tests, request, request.tests, [], map[]) == Ok(bound)
    requires AddTests(known, tests, [], bound.0, Some(request.order), request.record.Some?) == Ok(grown)
    ensures TestsOk(known, Named(grown.0, grown.1, bound.1))
    ensures ExpertOnly(tests, Named(grown.0, grown.1, bound.1), request.order, request.scope)
  {
    BindDraftsScope(rules, tests, request, request.tests, [], map[]);
    AddTestsKeeps(known, tests, [], bound.0, Some(request.order), request.record.Some?);
    NamingKeeps(known, tests, grown.0, grown.1, bound.1, request.order, request.scope);
  }

  lemma OwnRecord(rules: Rules, world: World, known: set<string>, tests: map<string, Test>, request: ExpertRequest,
                  localId: string, result: TestResult)
    requires TestsOk(known, tests)
    requires RecordOwn(rules, world, tests, request, localId, result).Ok?
    ensures var after := RecordOwn(rules, world, tests, request, localId, result).value.0;
      var key := OwnTestId(rules, tests, request.order, localId);
      && key in tests && key in after && after == tests[key := after[key]]
      && TestOk(known, key, after[key]) && TestAdvances(tests[key], after[key])
      && (after[key] != tests[key] ==> after[key].status == Done)
      && tests[key].workOrder == Some(request.order) && Elements(tests[key].plan.targets) <= request.scope
  {
    var key := OwnTestId(rules, tests, request.order, localId);
    assert TestOk(known, key, tests[key]);
  }

  lemma RecordPhase(rules: Rules, world: World, known: set<string>, tests: map<string, Test>, request: ExpertRequest,
                    localId: string, result: TestResult)
    requires TestsOk(known, tests)
    requires RecordOwn(rules, world, tests, request, localId, result).Ok?
    ensures var after := RecordOwn(rules, world, tests, request, localId, result).value.0;
      TestsOk(known, after) && ExpertOnly(tests, after, request.order, request.scope)
  {
    OwnRecord(rules, world, known, tests, request, localId, result);
    var key := OwnTestId(rules, tests, request.order, localId);
    var after := RecordOwn(rules, world, tests, request, localId, result).value.0;
    OneOwnTest(known, tests, key, after[key], request.order, request.scope);
  }

  lemma OneOwnTest(
      known: set<string>, tests: map<string, Test>, key: string, test: Test, order: string, scope: set<string>)
    requires TestsOk(known, tests) && key in tests && TestOk(known, key, test) && TestAdvances(tests[key], test)
    requires test != tests[key] ==> test.status == Done
    requires tests[key].workOrder == Some(order) && Elements(tests[key].plan.targets) <= scope
    ensures TestsOk(known, tests[key := test]) && ExpertOnly(tests, tests[key := test], order, scope)
  {
  }

  lemma ExpertOnlyTransitive(
      a: map<string, Test>, b: map<string, Test>, c: map<string, Test>, order: string, scope: set<string>)
    requires ExpertOnly(a, b, order, scope) && ExpertOnly(b, c, order, scope)
    ensures ExpertOnly(a, c, order, scope)
  {
    forall id | id in a ensures id in c && TestAdvances(a[id], c[id]) {
      assert TestAdvances(a[id], b[id]) && TestAdvances(b[id], c[id]);
    }
    forall id | id in c && (id !in a || c[id] != a[id])
      ensures c[id].workOrder == Some(order) && Elements(c[id].plan.targets) <= scope
    {
      if id in b && c[id] == b[id] {
        assert id !in a || b[id] != a[id];
      }
    }
  }

  lemma ExpertFactsKeep(
      rules: Rules, world: World, known: set<string>, tests: map<string, Test>, request: ExpertRequest)
    requires TestsOk(known, tests)
    requires ExpertFacts(rules, world, known, tests, request).Ok?
    ensures var after := ExpertFacts(rules, world, known, tests, request).value.0;
      TestsOk(known, after) && ExpertOnly(tests, after, request.order, request.scope)
  {
    var bound := BindDrafts(rules, tests, request, request.tests, [], map[]).value;
    var grown := AddTests(known, tests, [], bound.0, Some(request.order), request.record.Some?).value;
    PlanPhase(rules, known, tests, request, bound, grown);
    if request.record.Some? {
      var named := Named(grown.0, grown.1, bound.1);
      RecordPhase(rules, world, known, named, request, request.record.value.0, request.record.value.1);
      var after := RecordOwn(rules, world, named, request, request.record.value.0, request.record.value.1).value.0;
      ExpertOnlyTransitive(tests, named, after, request.order, request.scope);
    }
  }

  /** Expert calls record facts: no hypothesis, budget, mode or stop decision changes, other
      WorkOrders' tests stay as they are, and no test starts running. */
  lemma ExpertsOnlyRecordFacts(rules: Rules, world: World, t: Tree, request: ExpertRequest)
    requires Inv(rules, t)
    requires ExpertAction(rules, world, t, request).Ok? && ExpertAction(rules, world, t, request).value.Some?
    ensures var t' := ExpertAction(rules, world, t, request).value.value;
      && t' == t.(tests := t'.tests)
      && ExpertOnly(t.tests, t'.tests, request.order, request.scope)
      && Inv(rules, t') && TreeAdvances(t, t')
  {
    ExpertFactsKeep(rules, world, t.hypotheses.Keys, t.tests, request);
    OnlyTestsChange(rules, t, ExpertAction(rules, world, t, request).value.value);
  }

  // ---------------------------------------------------------------- one step

  lemma StartInv(rules: Rules, goal: string, mode: Mode, budget: Option<nat>)
    ensures Inv(rules, StartTree(goal, mode, budget))
  {
    var t := StartTree(goal, mode, budget);
    ChildWitness(ShapeOf(t.keys, t.hypotheses), ROOT);
  }

  lemma SameHypothesesAdvance(t: Tree)
    ensures HypothesesAdvance(t.keys, t.hypotheses, t.keys, t.hypotheses) && TestsAdvance(t.tests, t.tests)
  {
  }

  lemma CoordinatorKeeps(
      rules: Rules, world: World, s: State, expected: nat, request: Request, requestId: Option<string>)
    requires StateInv(rules, s)
    requires CoordinatorAction(rules, world, s.tree, s.revision, expected, request, requestId).Ok?
    requires CoordinatorAction(rules, world, s.tree, s.revision, expected, request, requestId).value.Some?
    ensures var t' := CoordinatorAction(rules, world, s.tree, s.revision, expected, request, requestId).value.value;
      Inv(rules, t') && (s.tree.Some? ==> TreeAdvances(s.tree.value, t'))
  {
    if request.Start? {
      StartInv(rules, request.goal, request.mode, request.budget);
    } else if request.Resume? || request.Pause? {
      SameHypothesesAdvance(s.tree.value);
    } else {
      ResearchKeeps(rules, world, s.tree.value, request);
    }
  }

  /** What a saved tree is to the one before. */
  ghost predicate Advanced(rules: Rules, tree: Option<Tree>, t': Tree) {
    Inv(rules, t') && (tree.Some? ==> TreeAdvances(tree.value, t'))
  }

  lemma BeginKeeps(
      rules: Rules, tree: Option<Tree>, testIds: seq<string>, executionId: Option<string>,
      executionIds: Option<seq<string>>)
    requires tree.Some? ==> Inv(rules, tree.value)
    requires BeginTests(tree, testIds, executionId, executionIds).Ok?
    requires BeginTests(tree, testIds, executionId, executionIds).value.Some?
    ensures Advanced(rules, tree, BeginTests(tree, testIds, executionId, executionIds).value.value)
  {
    ReservationKeeps(rules, tree.value, testIds, executionId, executionIds);
  }

  lemma AttemptKeeps(rules: Rules, world: World, s: State, call: Call)
    requires StateInv(rules, s)
    requires Attempt(rules, world, s, call).Ok? && Attempt(rules, world, s, call).value.Some?
    ensures Advanced(rules, s.tree, Attempt(rules, world, s, call).value.value)
  {
    match call
    case Coordinator(expected, request, requestId) => CoordinatorKeeps(rules, world, s, expected, request, requestId);
    case Begin(testIds, executionId, executionIds) => BeginKeeps(rules, s.tree, testIds, executionId, executionIds);
    case Expert(request) => ExpertsOnlyRecordFacts(rules, world, s.tree.value, request);
  }

  lemma SavingKeeps(rules: Rules, t: Tree, revision: nat)
    requires Inv(rules, t)
    ensures Inv(rules, t.(revision := revision))
  {
  }

  lemma SameTreeAdvances(t: Tree)
    ensures TreeAdvances(t, t)
  {
    SameHypothesesAdvance(t);
  }

  /** Every call keeps the invariant and undoes nothing. */
  lemma StepKeeps(rules: Rules, world: World, s: State, call: Call)
    requires StateInv(rules, s)
    ensures StateInv(rules, Step(rules, world, s, call)) && Later(s, Step(rules, world, s, call))
  {
    var r := Attempt(rules, world, s, call);
    if r.Ok? && r.value.Some? {
      AttemptKeeps(rules, world, s, call);
      SavingKeeps(rules, r.value.value, s.revision + 1);
    } else if s.tree.Some? {
      SameTreeAdvances(s.tree.value);
    }
  }

  // ---------------------------------------------------------------- whole runs

  lemma {:induction false} RunKeeps(rules: Rules, s: State, calls: seq<(World, Call)>)
    requires StateInv(rules, s)
    ensures StateInv(rules, Run(rules, s, calls))
    decreases |calls|
  {
    if calls != [] {
      RunKeeps(rules, s, calls[..|calls| - 1]);
      StepKeeps(rules, calls[|calls| - 1].0, Run(rules, s, calls[..|calls| - 1]), calls[|calls| - 1].1);
    }
  }

  /** In every interleaving, started from an empty store: the tree is rooted, claims are distinct,
      the summaries are fresh, tests, budget, citations and stop decisions are consistent. */
  lemma EveryReachableTree(rules: Rules, calls: seq<(World, Call)>)
    ensures StateInv(rules, Run(rules, EMPTY, calls))
  {
    RunKeeps(rules, EMPTY, calls);
  }

  lemma LaterTransitive(a: State, b: State, c: State)
    requires Later(a, b) && Later(b, c)
    ensures Later(a, c)
  {
    if a.tree.Some? {
      TreeAdvancesTransitive(a.tree.value, b.tree.value, c.tree.value);
    }
  }

  /** Nothing that was stored is ever undone: tests only move up, results and claims are frozen,
      chronicles and charges are append-only; and equal revisions mean equal trees. */
  lemma {:induction false} RunsOnlyGrow(rules: Rules, s: State, calls: seq<(World, Call)>)
    requires StateInv(rules, s)
    ensures Later(s, Run(rules, s, calls))
    decreases |calls|
  {
    if calls == [] {
      if s.tree.Some? {
        SameHypothesesAdvance(s.tree.value);
      }
    } else {
      var before := Run(rules, s, calls[..|calls| - 1]);
      RunKeeps(rules, s, calls[..|calls| - 1]);
      RunsOnlyGrow(rules, s, calls[..|calls| - 1]);
      StepKeeps(rules, calls[|calls| - 1].0, before, calls[|calls| - 1].1);
      LaterTransitive(s, before, Run(rules, s, calls));
    }
  }

  /** No lost update: after a Coordinator action was saved, a second action that expects the same
      revision is refused, whatever happened in between. */
  lemma NoLostUpdate(rules: Rules, s: State, w1: World, w2: World, expected: nat, r1: Request, r2: Request,
                     id1: Option<string>, id2: Option<string>, between: seq<(World, Call)>)
    requires StateInv(rules, s)
    requires Step(rules, w1, s, Coordinator(expected, r1, id1)) != s
    ensures var s' := Run(rules, Step(rules, w1, s, Coordinator(expected, r1, id1)), between);
      Attempt(rules, w2, s', Coordinator(expected, r2, id2)) == Err(StaleRevision)
  {
    var s1 := Step(rules, w1, s, Coordinator(expected, r1, id1));
    StepKeeps(rules, w1, s, Coordinator(expected, r1, id1));
    RunsOnlyGrow(rules, s1, between);
  }

  /** The summaries stored in a reachable tree, spelled out. */
  lemma SummariesAreFresh(rules: Rules, calls: seq<(World, Call)>, k: string)
    requires Run(rules, EMPTY, calls).tree.Some? && k in Run(rules, EMPTY, calls).tree.value.hypotheses
    ensures var t := Run(rules, EMPTY, calls).tree.value;
      && (Children(ShapeOf(t.keys, t.hypotheses), k) == [] ==> t.hypotheses[k].childrenSummary == None)
      && t.hypotheses[k].childrenSummary == Summary(t.keys, t.hypotheses, k)
  {
    EveryReachableTree(rules, calls);
  }

  /** The hypotheses hang below `root` at finite depth, and the root is never established: an
      established hypothesis cites a stored test on itself and another non-root hypothesis. */
  lemma EstablishedIsComparative(rules: Rules, calls: seq<(World, Call)>, k: string)
    requires Run(rules, EMPTY, calls).tree.Some? && k in Run(rules, EMPTY, calls).tree.value.hypotheses
    ensures var t := Run(rules, EMPTY, calls).tree.value;
      && k in t.keys && Above(ShapeOf(t.keys, t.hypotheses), ROOT, k)
      && (t.hypotheses[k].judgment.status == Established ==>
            && k != ROOT
            && t.hypotheses[k].judgment.testId.Some?
            && t.hypotheses[k].judgment.testId.value in t.tests
            && k in t.tests[t.hypotheses[k].judgment.testId.value].plan.targets
            && exists other :: other in t.tests[t.hypotheses[k].judgment.testId.value].plan.targets
                 && other != k && other != ROOT && other in t.hypotheses)
  {
    EveryReachableTree(rules, calls);
    var t := Run(rules, EMPTY, calls).tree.value;
    RootAboveAll(ShapeOf(t.keys, t.hypotheses), k);
    var h := t.hypotheses[k];
    assert Cites(k, Chronicle(h)[|h.history|], t.tests);
    if h.judgment.status == Established {
      var test := t.tests[h.judgment.testId.value];
      assert TestOk(t.hypotheses.Keys, h.judgment.testId.value, test);
      OtherElement(Elements(test.plan.targets), k);
      var other :| other in Elements(test.plan.targets) && other != k;
      assert other in test.plan.targets;
    }
  }

  // ---------------------------------------------------------------- who judges

  ghost predicate SameJudgments(t: Tree, t': Tree, k: string)
    requires k in t.hypotheses
  {
    k in t'.hypotheses
    && t'.hypotheses[k].judgment == t.hypotheses[k].judgment && t'.hypotheses[k].history == t.hypotheses[k].history
  }

  lemma AddBothGrows(rules: Rules, t: Tree, parent: string, candidates: seq<HypothesisDraft>, tests: seq<TestDraft>)
    requires TreeForest(t) && AddBoth(rules, t, parent, candidates, tests).Ok?
    ensures NewHypotheses(rules, t.keys, t.hypotheses, parent, candidates).Ok?
    ensures AddBoth(rules, t, parent, candidates, tests).value.hypotheses
         == NewHypotheses(rules, t.keys, t.hypotheses, parent, candidates).value.1
  {
  }

  lemma AddBothJudgesNothing(rules: Rules, t: Tree, noted: Tree, parent: string, candidates: seq<HypothesisDraft>,
                             tests: seq<TestDraft>, k: string)
    requires HypothesesOk(rules, t.keys, t.hypotheses) && k in t.hypotheses
    requires noted == t.(reflections := noted.reflections)
    requires AddBoth(rules, noted, parent, candidates, tests).Ok?
    ensures SameJudgments(t, AddBoth(rules, noted, parent, candidates, tests).value, k)
  {
    AddBothGrows(rules, noted, parent, candidates, tests);
    AddHypothesesKeeps(rules, t.keys, t.hypotheses, parent, candidates);
  }

  lemma ReflectJudgesNothing(
    rules: Rules, t: Tree, reflection: Reflection, candidates: seq<HypothesisDraft>, tests: seq<TestDraft>, k: string)
    requires HypothesesOk(rules, t.keys, t.hypotheses) && k in t.hypotheses
    requires ReflectTree(rules, t, reflection, candidates, tests).Ok?
    ensures SameJudgments(t, ReflectTree(rules, t, reflection, candidates, tests).value, k)
  {
    var noted := t.(reflections := t.reflections + [reflection]);
    if candidates != [] {
      AddBothJudgesNothing(rules, t, noted, ROOT, candidates, tests, k);
    }
  }

  lemma AdjudicationJudgesOne(world: World, t: Tree, node: string, updated: Judgment, k: string)
    requires updated.evidenceRefs.Some? && k in t.hypotheses && k != node
    requires AdjudicateTree(world, t, node, updated).Ok?
    ensures SameJudgments(t, AdjudicateTree(world, t, node, updated).value, k)
  {
  }

  lemma TestActionsJudgeNothing(rules: Rules, world: World, t: Tree, request: Request, k: string)
    requires TreeForest(t) && k in t.hypotheses
    requires !request.Propose? && !request.Reflect? && !request.Adjudicate?
    requires Research(rules, world, t, request).Ok? && Research(rules, world, t, request).value.Some?
    ensures SameJudgments(t, Research(rules, world, t, request).value.value, k)
  {
  }

  lemma GrowthJudgesNothing(rules: Rules, world: World, t: Tree, request: Request, k: string)
    requires HypothesesOk(rules, t.keys, t.hypotheses) && k in t.hypotheses
    requires request.Propose? || request.Reflect?
    requires Research(rules, world, t, request).Ok? && Research(rules, world, t, request).value.Some?
    ensures SameJudgments(t, Research(rules, world, t, request).value.value, k)
  {
    match request
    case Propose(node, candidates, tests) => AddBothJudgesNothing(rules, t, t, node, candidates, tests, k);
    case Reflect(reflection, candidates, tests) => ReflectJudgesNothing(rules, t, reflection, candidates, tests, k);
  }

  lemma OtherJudgment(rules: Rules, world: World, t: Tree, request: Request, k: string)
    requires TreeForest(t) && k in t.hypotheses && request.Adjudicate? && request.node != k
    requires Research(rules, world, t, request).Ok? && Research(rules, world, t, request).value.Some?
    ensures SameJudgments(t, Research(rules, world, t, request).value.value, k)
  {
    var updated := Judgment(request.status, request.summary, Some(request.evidenceRefs), request.cited, true);
    AdjudicationJudgesOne(world, t, request.node, updated, k);
  }

  lemma ResearchJudges(rules: Rules, world: World, t: Tree, request: Request, k: string)
    requires HypothesesOk(rules, t.keys, t.hypotheses) && k in t.hypotheses
    requires Research(rules, world, t, request).Ok? && Research(rules, world, t, request).value.Some?
    requires !(request.Adjudicate? && request.node == k)
    ensures SameJudgments(t, Research(rules, world, t, request).value.value, k)
  {
    if request.Propose? || request.Reflect? {
      GrowthJudgesNothing(rules, world, t, request, k);
    } else if request.Adjudicate? {
      OtherJudgment(rules, world, t, request, k);
    } else {
      TestActionsJudgeNothing(rules, world, t, request, k);
    }
  }

  lemma SyncJudgesNothing(t: Tree, t': Tree, k: string)
    requires TreeForest(t') && k in t.hypotheses && SameJudgments(t, t', k)
    ensures SameJudgments(t, SyncTree(t'), k)
  {
    assert SyncTree(t').hypotheses[k] == Refreshed(t'.keys, t'.hypotheses, k);
  }

  lemma CoordinatorSaves(
    rules: Rules, world: World, t: Tree, revision: nat, expected: nat, request: Request, requestId: Option<string>)
    requires TreeForest(t)
    requires CoordinatorAction(rules, world, Some(t), revision, expected, request, requestId).Ok?
    requires CoordinatorAction(rules, world, Some(t), revision, expected, request, requestId).value.Some?
    ensures var t' := CoordinatorAction(rules, world, Some(t), revision, expected, request, requestId).value.value;
      if request.Resume? || request.Pause? then t'.hypotheses == t.hypotheses
      else
        var r := Research(rules, world, t, request);
        r.Ok? && r.value.Some? && t' == SyncTree(r.value.value)
  {
  }

  lemma CoordinatorJudges(
    rules: Rules, world: World, s: State, expected: nat, request: Request, requestId: Option<string>, k: string)
    requires s.tree.Some? && HypothesesOk(rules, s.tree.value.keys, s.tree.value.hypotheses)
    requires k in s.tree.value.hypotheses
    requires !(request.Adjudicate? && request.node == k)
    requires CoordinatorAction(rules, world, s.tree, s.revision, expected, request, requestId).Ok?
    requires CoordinatorAction(rules, world, s.tree, s.revision, expected, request, requestId).value.Some?
    ensures SameJudgments(
      s.tree.value, CoordinatorAction(rules, world, s.tree, s.revision, expected, request, requestId).value.value, k)
  {
    var t := s.tree.value;
    CoordinatorSaves(rules, world, t, s.revision, expected, request, requestId);
    if !request.Resume? && !request.Pause? {
      ResearchJudges(rules, world, t, request, k);
      SyncJudgesNothing(t, Research(rules, world, t, request).value.value, k);
    }
  }

  lemma FactsJudgeNothing(rules: Rules, world: World, s: State, call: Call, k: string)
    requires s.tree.Some? && OptForest(s.tree) && k in s.tree.value.hypotheses && !call.Coordinator?
    requires Attempt(rules, world, s, call).Ok? && Attempt(rules, world, s, call).value.Some?
    ensures SameJudgments(s.tree.value, Attempt(rules, world, s, call).value.value, k)
  {
  }

  /** Only adjudication changes a judgment, and only that of the hypothesis it names. */
  lemma OnlyAdjudicationJudges(rules: Rules, world: World, s: State, call: Call, k: string)
    requires s.tree.Some? && HypothesesOk(rules, s.tree.value.keys, s.tree.value.hypotheses)
    requires k in s.tree.value.hypotheses
    requires !(call.Coordinator? && call.request.Adjudicate? && call.request.node == k)
    ensures Step(rules, world, s, call).tree.Some?
    ensures SameJudgments(s.tree.value, Step(rules, world, s, call).tree.value, k)
  {
    var r := Attempt(rules, world, s, call);
    if r.Ok? && r.value.Some? {
      if call.Coordinator? {
        CoordinatorJudges(rules, world, s, call.expected, call.request, call.requestId, k);
      } else {
        FactsJudgeNothing(rules, world, s, call, k);
      }
    }
  }

  // ---------------------------------------------------------------- pauses

  ghost predicate IsResume(call: Call) {
    call.Coordinator? && call.request.Resume?
  }

  /** Nothing but facts and the stop decision itself differs. */
  ghost predicate Frozen(t: Tree, t': Tree) {
    && t'.paused && t'.stop.Some?
    && t'.hypotheses == t.hypotheses && t'.keys == t.keys && t'.mode == t.mode && t'.reflections == t.reflections
    && t'.charged == t.charged && t'.executionsUsed == t.executionsUsed && t'.executionBudget == t.executionBudget
    && NoNewRunning(t.tests, t'.tests)
  }

  lemma PausedStep(rules: Rules, world: World, s: State, call: Call)
    requires StateInv(rules, s) && s.tree.Some? && s.tree.value.paused && !IsResume(call)
    ensures Step(rules, world, s, call).tree.Some? && Frozen(s.tree.value, Step(rules, world, s, call).tree.value)
  {
    var r := Attempt(rules, world, s, call);
    if r.Ok? && r.value.Some? {
      match call
      case Coordinator(_, _, _) =>
      case Begin(_, _, _) =>
      case Expert(request) => ExpertsOnlyRecordFacts(rules, world, s.tree.value, request);
    }
  }

  /** While paused, only a resume ends the pause; until then hypotheses, budget and mode are frozen,
      no test starts running, and late facts, plans and replays change tests only. */
  lemma {:induction false} PauseHolds(rules: Rules, s: State, calls: seq<(World, Call)>)
    requires StateInv(rules, s) && s.tree.Some? && s.tree.value.paused
    requires forall i :: 0 <= i < |calls| ==> !IsResume(calls[i].1)
    ensures Run(rules, s, calls).tree.Some? && Frozen(s.tree.value, Run(rules, s, calls).tree.value)
    decreases |calls|
  {
    if calls != [] {
      var last := calls[|calls| - 1];
      PauseHolds(rules, s, calls[..|calls| - 1]);
      RunKeeps(rules, s, calls[..|calls| - 1]);
      assert !IsResume(last.1);
      PausedStep(rules, last.0, Run(rules, s, calls[..|calls| - 1]), last.1);
    }
  }

  // ---------------------------------------------------------------- replay of a reservation

  lemma LinkedContains(test: Test, keys: seq<string>)
    requires Elements(keys) <= Elements(test.executionIds)
    ensures Elements(keys) <= Elements(Linked(test))
  {
    var all := test.executionIds + OwnExecution(test);
    assert Elements(Linked(test)) == Elements(all);
    forall k | k in Elements(test.executionIds) ensures k in Elements(all) {
      assert k in all;
    }
  }

  lemma ReserveTestLinks(test: Test, keys: seq<string>)
    ensures Elements(keys) <= Elements(Linked(ReserveTest(test, keys, true)))
  {
    var once := ReserveTest(test, keys, true);
    if Elements(keys) <= Elements(Linked(test)) {
      assert Linked(once) == Linked(test);
    } else {
      var joined := SortStrings(Linked(test)) + keys;
      assert Elements(once.executionIds) == Elements(joined);
      assert forall k :: k in keys ==> k in joined;
      LinkedContains(once, keys);
    }
  }

  lemma ReserveTestTwice(test: Test, keys: seq<string>, explicit: bool)
    ensures ReserveTest(ReserveTest(test, keys, explicit), keys, explicit) == ReserveTest(test, keys, explicit)
  {
    if explicit {
      ReserveTestLinks(test, keys);
    }
  }

  lemma {:induction false} NothingNew(keys: seq<string>, charged: seq<string>)
    requires forall k :: k in keys ==> k in charged
    ensures NewKeys(keys, charged) == []
  {
    if keys != [] {
      NothingNew(keys[1..], charged);
    }
  }

  /** After a reservation all its keys are charged and its tests stand as reserved. */
  lemma ReservedInPlace(t: Tree, testIds: seq<string>, keys: seq<string>, explicit: bool, s1: State)
    requires s1.tree.Some?
    requires s1.tree.value == Reserved(t, testIds, keys, explicit).(revision := s1.tree.value.revision)
    ensures forall k :: k in keys ==> k in s1.tree.value.charged
    ensures s1.tree.value.tests.Keys == t.tests.Keys
    ensures forall k :: k in t.tests && k in testIds ==>
      s1.tree.value.tests[k] == ReserveTest(t.tests[k], keys, explicit)
  {
    forall k | k in keys ensures k in s1.tree.value.charged {
      assert k in t.charged || k in NewKeys(keys, t.charged);
    }
  }

  /** Charged keys and known tests: the same reservation is accepted again and charges nothing. */
  lemma ChargedIsFree(t: Tree, testIds: seq<string>, executionId: Option<string>, executionIds: Option<seq<string>>)
    requires BudgetOk(t) && !t.paused && t.mode == Iterative
    requires testIds != [] && NoDup(testIds) && !(executionId.Some? && executionIds.Some?)
    requires ReservationKeys(testIds, executionId, executionIds) != []
    requires forall k :: k in ReservationKeys(testIds, executionId, executionIds) ==> k in t.charged
    requires forall k :: k in testIds ==> k in t.tests
    ensures var r := BeginTests(Some(t), testIds, executionId, executionIds);
      && r.Ok?
      && (r.value.Some? ==> r.value.value.charged == t.charged && r.value.value.executionsUsed == t.executionsUsed)
    ensures var keys := ReservationKeys(testIds, executionId, executionIds);
      Reserved(t, testIds, keys, executionId.Some? || executionIds.Some?) == t ==>
      BeginTests(Some(t), testIds, executionId, executionIds) == Ok(None)
  {
    NothingNew(ReservationKeys(testIds, executionId, executionIds), t.charged);
    assert t.charged + [] == t.charged;
  }

  lemma ReservedTwice(t: Tree, testIds: seq<string>, keys: seq<string>, explicit: bool, s1: State)
    requires s1.tree.Some?
    requires s1.tree.value == Reserved(t, testIds, keys, explicit).(revision := s1.tree.value.revision)
    ensures Reserved(s1.tree.value, testIds, keys, explicit) == s1.tree.value
  {
    var t1 := s1.tree.value;
    ReservedInPlace(t, testIds, keys, explicit, s1);
    NothingNew(keys, t1.charged);
    forall k | k in t1.tests && k in testIds ensures ReserveTest(t1.tests[k], keys, explicit) == t1.tests[k] {
      ReserveTestTwice(t.tests[k], keys, explicit);
    }
    assert t1.charged + [] == t1.charged;
    assert Reserved(t1, testIds, keys, explicit).tests == t1.tests;
  }

  lemma LaterHolds(t: Tree, t': Tree, keys: seq<string>, testIds: seq<string>)
    requires TreeAdvances(t, t')
    requires forall k :: k in keys ==> k in t.charged
    requires forall k :: k in testIds ==> k in t.tests
    ensures forall k :: k in keys ==> k in t'.charged
    ensures forall k :: k in testIds ==> k in t'.tests
  {
    forall k | k in keys ensures k in t'.charged {
      var i :| 0 <= i < |t.charged| && t.charged[i] == k;
      assert t'.charged[i] == k;
    }
  }

  lemma BeginReserves(s: State, testIds: seq<string>, executionId: Option<string>, executionIds: Option<seq<string>>)
    requires BeginTests(s.tree, testIds, executionId, executionIds).Ok?
    ensures var keys := ReservationKeys(testIds, executionId, executionIds);
      && s.tree.Some? && testIds != [] && NoDup(testIds) && keys != [] && !(executionId.Some? && executionIds.Some?)
      && (forall k :: k in testIds ==> k in s.tree.value.tests)
      && BeginTests(s.tree, testIds, executionId, executionIds)
         == (var t' := Reserved(s.tree.value, testIds, keys, executionId.Some? || executionIds.Some?);
             Ok(if t' == s.tree.value then None else Some(t')))
  {
  }

  /** What holds right after a reservation was accepted. */
  lemma AcceptedReservation(
    rules: Rules, w: World, s: State, testIds: seq<string>, executionId: Option<string>,
    executionIds: Option<seq<string>>)
    requires StateInv(rules, s) && Attempt(rules, w, s, Begin(testIds, executionId, executionIds)).Ok?
    ensures var s1 := Step(rules, w, s, Begin(testIds, executionId, executionIds));
      var keys := ReservationKeys(testIds, executionId, executionIds);
      && StateInv(rules, s1) && s1.tree.Some?
      && testIds != [] && NoDup(testIds) && keys != [] && !(executionId.Some? && executionIds.Some?)
      && (forall k :: k in keys ==> k in s1.tree.value.charged)
      && (forall k :: k in testIds ==> k in s1.tree.value.tests)
      && Reserved(s1.tree.value, testIds, keys, executionId.Some? || executionIds.Some?) == s1.tree.value
  {
    var keys := ReservationKeys(testIds, executionId, executionIds);
    var explicit := executionId.Some? || executionIds.Some?;
    var s1 := Step(rules, w, s, Begin(testIds, executionId, executionIds));
    BeginReserves(s, testIds, executionId, executionIds);
    StepKeeps(rules, w, s, Begin(testIds, executionId, executionIds));
    ReservedInPlace(s.tree.value, testIds, keys, explicit, s1);
    ReservedTwice(s.tree.value, testIds, keys, explicit, s1);
  }

  /** A reservation that succeeded may be repeated at any later time while research is active and
      iterative: it is accepted and charges nothing, whatever the test and WorkOrder ids overlap. */
  lemma ReplayIsFree(
      rules: Rules, w: World, s: State, testIds: seq<string>, executionId: Option<string>,
      executionIds: Option<seq<string>>, between: seq<(World, Call)>)
    requires StateInv(rules, s) && Attempt(rules, w, s, Begin(testIds, executionId, executionIds)).Ok?
    requires var s' := Run(rules, Step(rules, w, s, Begin(testIds, executionId, executionIds)), between);
      s'.tree.Some? && !s'.tree.value.paused && s'.tree.value.mode == Iterative
    ensures var s' := Run(rules, Step(rules, w, s, Begin(testIds, executionId, executionIds)), between);
      var r := BeginTests(s'.tree, testIds, executionId, executionIds);
      && r.Ok?
      && (r.value.Some? ==> r.value.value.charged == s'.tree.value.charged
                            && r.value.value.executionsUsed == s'.tree.value.executionsUsed)
      && (between == [] ==> r.value == None)
  {
    AcceptedReservation(rules, w, s, testIds, executionId, executionIds);
    var s1 := Step(rules, w, s, Begin(testIds, executionId, executionIds));
    RunsOnlyGrow(rules, s1, between);
    RunKeeps(rules, s1, between);
    var t2 := Run(rules, s1, between).tree.value;
    LaterHolds(s1.tree.value, t2, ReservationKeys(testIds, executionId, executionIds), testIds);
    ChargedIsFree(t2, testIds, executionId, executionIds);
  }
}
