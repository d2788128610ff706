/**
  The durable research tree (src/oceanx/exploration.py): its data and, as functions, what each
  accepted call makes of it. `ResearchStore` is the same protocol as in-place updates.
 */
module ResearchTree {
  import opened Common
  import opened RootedTree

  // ---------------------------------------------------------------- data

  datatype Status = Untested | Supported | Contested | Refuted | Established | Unverifiable
  datatype Relation = Alternatives | Prerequisites
  datatype Mode = Ideas | Iterative
  datatype TestStatus = Todo | Running | Infeasible | Done

  /** The five fields that a judgment replaces together. */
  datatype Judgment = Judgment(
    status: Status,
    summary: Option<string>,
    evidenceRefs: Option<seq<string>>,
    testId: Option<string>,
    byCoordinator: bool)

  const UNJUDGED := Judgment(Untested, None, None, None, false)

  /** Stored under its id. */
  datatype Hypothesis = Hypothesis(
    claim: string,
    relation: Relation,
    parent: Option<string>,
    judgment: Judgment,
    history: seq<Judgment>,
    childrenSummary: Option<string>)

  datatype HypothesisDraft = HypothesisDraft(id: string, claim: string, relation: Relation)

  /** `design` stands for method, discriminators, purpose, condition and cost. */
  datatype TestDraft = TestDraft(
    id: string,
    targets: seq<string>,
    design: string,
    feasible: bool,
    infeasibleReason: Option<string>)

  datatype TestResult = TestResult(evidenceRefs: seq<string>, outcome: string, summary: string)

  datatype Test = Test(
    plan: TestDraft,
    status: TestStatus,
    result: Option<TestResult>,
    workOrder: Option<string>,
    registered: bool,
    localId: Option<string>,
    attemptCharged: bool,
    executionIds: seq<string>,
    executionId: Option<string>)

  datatype Exit = Answered | UnableToAnswer | IdeasDelivered | BudgetExhausted | Interrupted
  datatype Stop = Stop(exit: Exit, questionResolved: bool, summary: string)
  datatype Reflection = Reflection(summary: string, coverageComplete: Option<bool>)

  datatype Tree = Tree(
    revision: nat,
    goal: string,
    mode: Mode,
    paused: bool,
    executionBudget: nat,
    executionsUsed: nat,
    charged: seq<string>,
    keys: seq<string>,
    hypotheses: map<string, Hypothesis>,
    tests: map<string, Test>,
    stop: Option<Stop>,
    stopRequest: Option<string>,
    reflections: seq<Reflection>)

  /** What the protocol takes from outside: `claimKey` folds case and white space of a claim;
      `expertTestId` derives a test id from a WorkOrder and the Expert's local name. Nothing is
      assumed of either. */
  datatype Rules = Rules(claimKey: string -> string, expertTestId: (string, string) -> string)

  /** The other tables of the database at the time of a call. */
  datatype World = World(observations: set<string>, expertOrders: set<string>, executionOwner: map<string, string>)

  datatype Error =
    | StaleRevision | TreeExists | NoTree | BudgetBelowUse | TestsRunning | Paused
    | UnknownParent | DuplicateHypothesis | TestExists | BadTarget | UnknownTest | NotPending
    | UnknownEvidence | ResultImmutable | UnknownHypothesis | ForeignTest | TooFewTargets
    | NotDispatchable | BadTestIds | TwoIdentityForms | NoIdentity | BudgetExceeded
    | ForeignOrder | BadScope | ForeignExecution | OutOfScope | NotOwnTest | ExecutionImmutable | BrokenNote

  // ---------------------------------------------------------------- hypotheses

  function ShapeOf(keys: seq<string>, hyps: map<string, Hypothesis>): Shape {
    Shape(keys, map k | k in hyps && hyps[k].parent.Some? :: hyps[k].parent.value)
  }

  ghost predicate Forest(keys: seq<string>, hyps: map<string, Hypothesis>) {
    Rooted(ShapeOf(keys, hyps)) && forall k :: k in hyps <==> k in keys
  }

  function ClaimKeys(rules: Rules, hyps: map<string, Hypothesis>): set<string> {
    set k | k in hyps :: rules.claimKey(hyps[k].claim)
  }

  function NewHypothesis(draft: HypothesisDraft, parent: string): Hypothesis {
    Hypothesis(draft.claim, draft.relation, Some(parent), UNJUDGED, [], None)
  }

  lemma ForestGrows(keys: seq<string>, hyps: map<string, Hypothesis>, parent: string, draft: HypothesisDraft)
    requires Forest(keys, hyps) && parent in hyps && draft.id !in hyps
    ensures Forest(keys + [draft.id], hyps[draft.id := NewHypothesis(draft, parent)])
  {
    var s := ShapeOf(keys, hyps);
    var s' := ShapeOf(keys + [draft.id], hyps[draft.id := NewHypothesis(draft, parent)]);
    forall i | 0 < i < |s'.keys| ensures Anchored(s', i) {
      if i < |keys| {
        assert Anchored(s, i);
        assert s'.keys[..i] == s.keys[..i];
      } else {
        assert s'.keys[..i] == keys;
      }
    }
  }

  function AddHypotheses(
    rules: Rules, keys: seq<string>, hyps: map<string, Hypothesis>, existing: set<string>,
    parent: string, drafts: seq<HypothesisDraft>
  ): (r: Result<(seq<string>, map<string, Hypothesis>), Error>)
    requires Forest(keys, hyps) && parent in hyps
    ensures r.Ok? ==> Forest(r.value.0, r.value.1)
    decreases |drafts|
  {
    if drafts == [] then Ok((keys, hyps))
    else
      var draft := drafts[0];
      var claimKey := rules.claimKey(draft.claim);
      if draft.id in hyps || claimKey in existing then Err(DuplicateHypothesis)
      else
        ForestGrows(keys, hyps, parent, draft);
        AddHypotheses(rules, keys + [draft.id], hyps[draft.id := NewHypothesis(draft, parent)],
                      existing + {claimKey}, parent, drafts[1..])
  }

  function NewHypotheses(
    rules: Rules, keys: seq<string>, hyps: map<string, Hypothesis>, parent: string, drafts: seq<HypothesisDraft>
  ): (r: Result<(seq<string>, map<string, Hypothesis>), Error>)
    requires Forest(keys, hyps)
    ensures r.Ok? ==> Forest(r.value.0, r.value.1)
  {
    if parent !in hyps then Err(UnknownParent)
    else AddHypotheses(rules, keys, hyps, ClaimKeys(rules, hyps), parent, drafts)
  }

  function SetStatus(h: Hypothesis, updated: Judgment): Hypothesis {
    if h.judgment == updated then h
    else h.(history := h.history + [h.judgment], judgment := updated)
  }

  // ---------------------------------------------------------------- derived child summaries

  function StatusText(s: Status): string {
    match s
    case Untested => "untested"
    case Supported => "supported"
    case Contested => "contested"
    case Refuted => "refuted"
    case Established => "established"
    case Unverifiable => "unverifiable"
  }

  function Line(k: string, j: Judgment, below: Option<string>): string {
    k + " [" + StatusText(j.status) + "]: " + (if j.summary.Some? then j.summary.value else "")
    + (if below.Some? && below.value != "" then "\n" + below.value else "")
  }

  lemma ChildIsLater(keys: seq<string>, hyps: map<string, Hypothesis>, k: string, c: string)
    requires Forest(keys, hyps) && k in hyps && c in Children(ShapeOf(keys, hyps), k)
    ensures c in hyps && c != ROOT && Index(keys, k) < Index(keys, c)
  {
    ParentIsEarlier(ShapeOf(keys, hyps), c);
  }

  /** `"\n".join(lines)`. */
  function JoinLines(lines: seq<string>): string {
    if lines == [] then ""
    else if |lines| == 1 then lines[0]
    else lines[0] + "\n" + JoinLines(lines[1..])
  }

  /** The summary of everything below `k`, recursively; a leaf keeps what it has. */
  ghost function Summary(keys: seq<string>, hyps: map<string, Hypothesis>, k: string): Option<string>
    requires Forest(keys, hyps) && k in hyps
    decreases |keys| - Index(keys, k)
  {
    var cs := Children(ShapeOf(keys, hyps), k);
    if cs == [] then hyps[k].childrenSummary
    else
      Some(JoinLines(seq(|cs|, i requires 0 <= i < |cs| =>
        (ChildIsLater(keys, hyps, k, cs[i]);
         Line(cs[i], hyps[cs[i]].judgment, Summary(keys, hyps, cs[i]))))))
  }

  lemma SameParents(keys: seq<string>, hyps: map<string, Hypothesis>, hyps': map<string, Hypothesis>)
    requires hyps'.Keys == hyps.Keys
    requires forall k :: k in hyps ==> hyps'[k].parent == hyps[k].parent
    ensures ShapeOf(keys, hyps') == ShapeOf(keys, hyps)
    ensures Forest(keys, hyps') <==> Forest(keys, hyps)
  {
    assert ShapeOf(keys, hyps').parent == ShapeOf(keys, hyps).parent;
  }

  ghost function Refreshed(keys: seq<string>, hyps: map<string, Hypothesis>, k: string): Hypothesis
    requires Forest(keys, hyps) && k in hyps
  {
    hyps[k].(childrenSummary := Summary(keys, hyps, k))
  }

  /** The same hypotheses with every cached summary recomputed. */
  ghost function Synced(keys: seq<string>, hyps: map<string, Hypothesis>): (out: map<string, Hypothesis>)
    requires Forest(keys, hyps)
    ensures Forest(keys, out)
  {
    var out := map k | k in hyps :: Refreshed(keys, hyps, k);
    SameParents(keys, hyps, out);
    out
  }

  // ---------------------------------------------------------------- tests

  predicate TargetsKnown(targets: seq<string>, known: set<string>) {
    forall k :: k in targets ==> k != ROOT && k in known
  }

  function NewTest(draft: TestDraft, order: Option<string>, retrospective: bool): Test {
    Test(draft, if draft.feasible then Todo else Infeasible, None, order, !retrospective, None, false, [], None)
  }

  function AddTests(
    known: set<string>, tests: map<string, Test>, added: seq<string>, drafts: seq<TestDraft>,
    order: Option<string>, retrospective: bool
  ): Result<(map<string, Test>, seq<string>), Error>
    decreases |drafts|
  {
    if drafts == [] then Ok((tests, added))
    else
      var draft := drafts[0];
      if draft.id in tests then
        if order.Some? && tests[draft.id].workOrder == order && tests[draft.id].plan == draft then
          AddTests(known, tests, added, drafts[1..], order, retrospective)
        else Err(TestExists)
      else if !TargetsKnown(draft.targets, known) then Err(BadTarget)
      else
        AddTests(known, tests[draft.id := NewTest(draft, order, retrospective)], added + [draft.id],
                 drafts[1..], order, retrospective)
  }

  predicate EvidenceKnown(refs: seq<string>, world: World) {
    forall r :: r in refs ==> r in world.observations
  }

  /** The test after recording, and whether anything was recorded. */
  function RecordResult(world: World, test: Test, result: TestResult): Result<(Test, bool), Error> {
    if !EvidenceKnown(result.evidenceRefs, world) then Err(UnknownEvidence)
    else if test.status == Done then
      if test.result == Some(result) then Ok((test, false)) else Err(ResultImmutable)
    else Ok((test.(result := Some(result), status := Done), true))
  }

  // ---------------------------------------------------------------- Coordinator actions

  datatype Decision = DecideAnswered | DecideUnable

  datatype Request =
    | Start(goal: string, mode: Mode, budget: Option<nat>)
    | Resume(newMode: Option<Mode>, budget: Option<nat>)
    | Pause(completionSummary: Option<string>, decision: Option<Decision>)
    | Propose(node: string, candidates: seq<HypothesisDraft>, tests: seq<TestDraft>)
    | PlanTest(tests: seq<TestDraft>)
    | Reflect(reflection: Reflection, candidates: seq<HypothesisDraft>, tests: seq<TestDraft>)
    | MarkInfeasible(testId: string, reason: string)
    | Record(testId: string, result: TestResult)
    | Adjudicate(node: string, status: Status, summary: Option<string>, evidenceRefs: seq<string>,
                 cited: Option<string>)

  const DEFAULT_BUDGET: nat := 20

  function StartTree(goal: string, mode: Mode, budget: Option<nat>): Tree {
    Tree(0, goal, mode, false,
         if budget.Some? && budget.value != 0 then budget.value else DEFAULT_BUDGET,
         0, [], [ROOT], map[ROOT := Hypothesis(goal, Alternatives, None, UNJUDGED, [], None)],
         map[], None, None, [])
  }

  predicate AnyRunning(tests: map<string, Test>) {
    exists k :: k in tests && tests[k].status == Running
  }

  function ResumeTree(t: Tree, mode: Option<Mode>, budget: Option<nat>): Result<Tree, Error> {
    if budget.Some? && budget.value < t.executionsUsed then Err(BudgetBelowUse)
    else Ok(t.(executionBudget := if budget.Some? then budget.value else t.executionBudget,
               paused := false, stop := None, stopRequest := None,
               mode := if mode.Some? then mode.value else t.mode))
  }

  function FinalStop(mode: Mode, summary: Option<string>, decision: Option<Decision>): Stop {
    var exit := if mode == Ideas then IdeasDelivered
                else if decision == Some(DecideUnable) then UnableToAnswer
                else Answered;
    Stop(exit, exit == Answered, if summary.Some? then summary.value else "")
  }

  function PauseTree(
      t: Tree, summary: Option<string>, decision: Option<Decision>, requestId: Option<string>): Result<Tree, Error>
  {
    var final := summary.Some? || decision.Some?;
    if final && AnyRunning(t.tests) then Err(TestsRunning)
    else
      var stop := if final then FinalStop(t.mode, summary, decision)
                  else Stop(if t.executionsUsed >= t.executionBudget then BudgetExhausted else Interrupted, false, "");
      Ok(t.(stop := Some(stop), stopRequest := requestId, paused := true))
  }

  ghost predicate TreeForest(t: Tree) {
    Forest(t.keys, t.hypotheses)
  }

  function AddBoth(
      rules: Rules, t: Tree, parent: string, candidates: seq<HypothesisDraft>, tests: seq<TestDraft>)
    : (r: Result<Tree, Error>)
    requires TreeForest(t)
    ensures r.Ok? ==> TreeForest(r.value)
  {
    var hs :- NewHypotheses(rules, t.keys, t.hypotheses, parent, candidates);
    var ts :- AddTests(hs.1.Keys, t.tests, [], tests, None, false);
    Ok(t.(keys := hs.0, hypotheses := hs.1, tests := ts.0))
  }

  function AddTestsOnly(t: Tree, tests: seq<TestDraft>): Result<Tree, Error> {
    var ts :- AddTests(t.hypotheses.Keys, t.tests, [], tests, None, false);
    Ok(t.(tests := ts.0))
  }

  function ReflectTree(
      rules: Rules, t: Tree, reflection: Reflection, candidates: seq<HypothesisDraft>, tests: seq<TestDraft>)
    : (r: Result<Tree, Error>)
    requires TreeForest(t)
    ensures r.Ok? ==> TreeForest(r.value)
  {
    if AnyRunning(t.tests) then Err(TestsRunning)
    else
      var noted := t.(reflections := t.reflections + [reflection]);
      if candidates == [] then AddTestsOnly(noted, tests) else AddBoth(rules, noted, ROOT, candidates, tests)
  }

  function MarkTree(t: Tree, testId: string, reason: string): Result<Tree, Error> {
    if testId !in t.tests || t.tests[testId].status !in {Todo, Running} then Err(NotPending)
    else
      var test := t.tests[testId];
      Ok(t.(tests := t.tests[testId :=
           test.(plan := test.plan.(feasible := false, infeasibleReason := Some(reason)), status := Infeasible)]))
  }

  /** None when the same result was recorded before. */
  function RecordTree(world: World, t: Tree, testId: string, result: TestResult): Result<Option<Tree>, Error> {
    if testId !in t.tests then Err(UnknownTest)
    else
      var recorded :- RecordResult(world, t.tests[testId], result);
      Ok(if recorded.1 then Some(t.(tests := t.tests[testId := recorded.0])) else None)
  }

  function AdjudicateTree(world: World, t: Tree, node: string, updated: Judgment): (r: Result<Tree, Error>)
    requires updated.evidenceRefs.Some?
    ensures r.Ok? && TreeForest(t) ==> TreeForest(r.value)
  {
    if node !in t.hypotheses then Err(UnknownHypothesis)
    else if updated.testId.Some?
            && (updated.testId.value !in t.tests || node !in t.tests[updated.testId.value].plan.targets)
    then Err(ForeignTest)
    else if updated.status == Established
            && (updated.testId.None? || |Elements(t.tests[updated.testId.value].plan.targets)| < 2)
    then Err(TooFewTargets)
    else if !EvidenceKnown(updated.evidenceRefs.value, world) then Err(UnknownEvidence)
    else
      var hypotheses := t.hypotheses[node := SetStatus(t.hypotheses[node], updated)];
      SameParents(t.keys, t.hypotheses, hypotheses);
      Ok(t.(hypotheses := hypotheses))
  }

  function Saved(r: Result<Tree, Error>): Result<Option<Tree>, Error> {
    if r.Ok? then Ok(Some(r.value)) else Err(r.error)
  }

  /** The research actions proper: what they make of an active tree, or None when a replayed result
      leaves nothing to save. */
  function Research(rules: Rules, world: World, t: Tree, request: Request): (r: Result<Option<Tree>, Error>)
    requires TreeForest(t)
    ensures r.Ok? && r.value.Some? ==> TreeForest(r.value.value)
  {
    match request
    case Propose(node, candidates, tests) => Saved(AddBoth(rules, t, node, candidates, tests))
    case PlanTest(tests) => Saved(AddTestsOnly(t, tests))
    case Reflect(reflection, candidates, tests) => Saved(ReflectTree(rules, t, reflection, candidates, tests))
    case MarkInfeasible(testId, reason) => Saved(MarkTree(t, testId, reason))
    case Record(testId, result) => RecordTree(world, t, testId, result)
    case Adjudicate(node, status, summary, evidenceRefs, cited) =>
      Saved(AdjudicateTree(world, t, node, Judgment(status, summary, Some(evidenceRefs), cited, true)))
    case _ => Ok(None)
  }

  ghost function SyncTree(t: Tree): (t': Tree)
    requires TreeForest(t)
    ensures TreeForest(t')
  {
    t.(hypotheses := Synced(t.keys, t.hypotheses))
  }

  ghost predicate OptForest(tree: Option<Tree>) {
    tree.Some? ==> TreeForest(tree.value)
  }

  lemma StartIsForest(goal: string, mode: Mode, budget: Option<nat>)
    ensures TreeForest(StartTree(goal, mode, budget))
  {
  }

  /** The tree a Coordinator action saves; None when it saves nothing. */
  ghost function CoordinatorAction(
    rules: Rules, world: World, tree: Option<Tree>, revision: nat,
    expected: nat, request: Request, requestId: Option<string>
  ): (r: Result<Option<Tree>, Error>)
    requires OptForest(tree)
    ensures r.Ok? ==> OptForest(r.value)
  {
    if expected != revision then Err(StaleRevision)
    else if request.Start? then
      StartIsForest(request.goal, request.mode, request.budget);
      if tree.Some? then Err(TreeExists) else Ok(Some(StartTree(request.goal, request.mode, request.budget)))
    else if tree.None? then Err(NoTree)
    else if request.Resume? then
      var t :- ResumeTree(tree.value, request.newMode, request.budget);
      Ok(Some(t))
    else if request.Pause? then
      var t :- PauseTree(tree.value, request.completionSummary, request.decision, requestId);
      Ok(Some(t))
    else if tree.value.paused then Err(Paused)
    else
      var t :- Research(rules, world, tree.value, request);
      Ok(if t.Some? then Some(SyncTree(t.value)) else None)
  }

  // ---------------------------------------------------------------- execution reservations

  function OwnExecution(test: Test): seq<string> {
    if test.executionId.Some? && test.executionId.value != "" then [test.executionId.value] else []
  }

  function Linked(test: Test): seq<string> {
    Dedup(test.executionIds + OwnExecution(test))
  }

  function ReserveTest(test: Test, keys: seq<string>, explicit: bool): Test {
    var started := test.(status := if test.status == Todo then Running else test.status, attemptCharged := true);
    if explicit && !(Elements(keys) <= Elements(Linked(test))) then
      var ids := Dedup(SortStrings(Linked(test)) + keys);
      started.(executionIds := ids, executionId := if |ids| == 1 then Some(ids[0]) else started.executionId)
    else started
  }

  function ReservationKeys(
      testIds: seq<string>, executionId: Option<string>, executionIds: Option<seq<string>>): seq<string>
  {
    if executionIds.Some? then Dedup(executionIds.value)
    else if executionId.Some? then [executionId.value]
    else seq(|testIds|, i requires 0 <= i < |testIds| => "test:" + testIds[i])
  }

  function NewKeys(keys: seq<string>, charged: seq<string>): (novel: seq<string>)
    ensures forall k :: k in novel <==> k in keys && k !in charged
  {
    if keys == [] then []
    else (if keys[0] in charged then [] else [keys[0]]) + NewKeys(keys[1..], charged)
  }

  function Reserved(t: Tree, testIds: seq<string>, keys: seq<string>, explicit: bool): Tree {
    var novel := NewKeys(keys, t.charged);
    t.(tests := map k | k in t.tests :: if k in testIds then ReserveTest(t.tests[k], keys, explicit) else t.tests[k],
       charged := t.charged + novel,
       executionsUsed := t.executionsUsed + |novel|)
  }

  /** The tree a reservation saves; None when it would save the tree it read. */
  ghost function BeginTests(
      tree: Option<Tree>, testIds: seq<string>, executionId: Option<string>, executionIds: Option<seq<string>>)
    : Result<Option<Tree>, Error>
  {
    if tree.None? then Err(NoTree)
    else
      var t := tree.value;
      var keys := ReservationKeys(testIds, executionId, executionIds);
      if t.paused || t.mode != Iterative then Err(NotDispatchable)
      else if testIds == [] || !NoDup(testIds) then Err(BadTestIds)
      else if executionId.Some? && executionIds.Some? then Err(TwoIdentityForms)
      else if keys == [] then Err(NoIdentity)
      else if exists k :: k in testIds && k !in t.tests then Err(UnknownTest)
      else if t.executionsUsed + |NewKeys(keys, t.charged)| > t.executionBudget then Err(BudgetExceeded)
      else
        var t' := Reserved(t, testIds, keys, executionId.Some? || executionIds.Some?);
        Ok(if t' == t then None else Some(t'))
  }

  // ---------------------------------------------------------------- Expert facts

  datatype ExpertRequest = ExpertRequest(
    order: string,
    scope: set<string>,
    tests: seq<TestDraft>,
    record: Option<(string, TestResult)>,
    execution: Option<string>)

  function OwnTestId(rules: Rules, tests: map<string, Test>, order: string, localId: string): string {
    if localId in tests && tests[localId].workOrder == Some(order) then localId else rules.expertTestId(order, localId)
  }

  /** The drafts under their stored ids, and the Expert's name for each of these. */
  function BindDrafts(
    rules: Rules, tests: map<string, Test>, request: ExpertRequest, drafts: seq<TestDraft>,
    bound: seq<TestDraft>, names: map<string, string>
  ): (r: Result<(seq<TestDraft>, map<string, string>), Error>)
    decreases |drafts|
  {
    if drafts == [] then Ok((bound, names))
    else if !(Elements(drafts[0].targets) <= request.scope) then Err(OutOfScope)
    else
      var key := OwnTestId(rules, tests, request.order, drafts[0].id);
      BindDrafts(rules, tests, request, drafts[1..], bound + [drafts[0].(id := key)], names[key := drafts[0].id])
  }

  function Named(tests: map<string, Test>, added: seq<string>, names: map<string, string>): map<string, Test> {
    map k | k in tests :: if k in added && k in names then tests[k].(localId := Some(names[k])) else tests[k]
  }

  function RecordOwn(
      rules: Rules, world: World, tests: map<string, Test>, request: ExpertRequest, localId: string,
      result: TestResult)
    : Result<(map<string, Test>, seq<string>), Error>
  {
    var key := OwnTestId(rules, tests, request.order, localId);
    if key !in tests || tests[key].workOrder != Some(request.order) then Err(NotOwnTest)
    else if !(Elements(tests[key].plan.targets) <= request.scope) then Err(OutOfScope)
    else if request.execution.Some? && tests[key].executionId.Some? && tests[key].executionId != request.execution
    then Err(ExecutionImmutable)
    else
      var recorded :- RecordResult(world, tests[key], result);
      if recorded.1 then
        var test := if request.execution.Some? then recorded.0.(executionId := request.execution) else recorded.0;
        Ok((tests[key := test], [key]))
      else Ok((tests, []))
  }

  /** The tests after an Expert call, and the ids it changed. */
  function ExpertFacts(rules: Rules, world: World, known: set<string>, tests: map<string, Test>, request: ExpertRequest)
    : Result<(map<string, Test>, seq<string>), Error>
  {
    if request.order !in world.expertOrders then Err(ForeignOrder)
    else if exists k :: k in request.scope && (k == ROOT || k !in known) then Err(BadScope)
    else if request.execution.Some?
            && (request.execution.value !in world.executionOwner
                || world.executionOwner[request.execution.value] != request.order)
    then Err(ForeignExecution)
    else
      var bound :- BindDrafts(rules, tests, request, request.tests, [], map[]);
      var added :- AddTests(known, tests, [], bound.0, Some(request.order), request.record.Some?);
      var named := Named(added.0, added.1, bound.1);
      if request.record.None? then Ok((named, added.1))
      else
        var recorded :- RecordOwn(rules, world, named, request, request.record.value.0, request.record.value.1);
        Ok((recorded.0, added.1 + recorded.1))
  }

  /** The tree an Expert call saves; None when it changes no test. */
  function ExpertAction(rules: Rules, world: World, t: Tree, request: ExpertRequest): Result<Option<Tree>, Error> {
    var facts :- ExpertFacts(rules, world, t.hypotheses.Keys, t.tests, request);
    Ok(if facts.1 == [] then None else Some(t.(tests := facts.0)))
  }

  // ---------------------------------------------------------------- one call, one atomic step

  datatype State = State(tree: Option<Tree>, revision: nat)

  datatype Call =
    | Coordinator(expected: nat, request: Request, requestId: Option<string>)
    | Begin(testIds: seq<string>, executionId: Option<string>, executionIds: Option<seq<string>>)
    | Expert(expert: ExpertRequest)

  ghost function Attempt(rules: Rules, world: World, s: State, call: Call): (r: Result<Option<Tree>, Error>)
    requires OptForest(s.tree)
    ensures r.Ok? ==> OptForest(r.value)
  {
    match call
    case Coordinator(expected, request, requestId) =>
      CoordinatorAction(rules, world, s.tree, s.revision, expected, request, requestId)
    case Begin(testIds, executionId, executionIds) =>
      BeginTests(s.tree, testIds, executionId, executionIds)
    case Expert(request) =>
      if s.tree.None? then Ok(None) else ExpertAction(rules, world, s.tree.value, request)
  }

  /** Either the call saves its tree under the next revision, or the store stays as it is. */
  ghost function Step(rules: Rules, world: World, s: State, call: Call): (s': State)
    requires OptForest(s.tree)
    ensures OptForest(s'.tree)
  {
    var r := Attempt(rules, world, s, call);
    if r.Ok? && r.value.Some? then State(Some(r.value.value.(revision := s.revision + 1)), s.revision + 1) else s
  }

  /** Any interleaving of the three actors, each call seeing the database of its moment. */
  ghost function Run(rules: Rules, s: State, calls: seq<(World, Call)>): (s': State)
    requires OptForest(s.tree)
    ensures OptForest(s'.tree)
    decreases |calls|
  {
    if calls == [] then s
    else
      var before := Run(rules, s, calls[..|calls| - 1]);
      var last := calls[|calls| - 1];
      Step(rules, last.0, before, last.1)
  }

  const EMPTY := State(None, 0)
}
