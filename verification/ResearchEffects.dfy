/** What each accepted call on the research tree brings about, and exactly when it is accepted. */
module ResearchEffects {
  import opened Common
  import opened ResearchTree
  import opened ResearchTreeProofs
  import opened ResearchRuns

  // ---------------------------------------------------------------- proposals

  function DraftIds(drafts: seq<HypothesisDraft>): (ids: seq<string>)
    ensures |ids| == |drafts| && forall i :: 0 <= i < |ids| ==> ids[i] == drafts[i].id
  {
    seq(|drafts|, i requires 0 <= i < |drafts| => drafts[i].id)
  }

  function DraftClaims(rules: Rules, drafts: seq<HypothesisDraft>): (cs: seq<string>)
    ensures |cs| == |drafts| && forall i :: 0 <= i < |cs| ==> cs[i] == rules.claimKey(drafts[i].claim)
  {
    seq(|drafts|, i requires 0 <= i < |drafts| => rules.claimKey(drafts[i].claim))
  }

  ghost predicate AllNew(xs: seq<string>, taken: set<string>) {
    NoDup(xs) && forall i :: 0 <= i < |xs| ==> xs[i] !in taken
  }

  lemma AllNewCons(x: string, rest: seq<string>, taken: set<string>)
    ensures AllNew([x] + rest, taken) <==> x !in taken && AllNew(rest, taken + {x})
  {
    var xs := [x] + rest;
    if AllNew(xs, taken) {
      assert xs[0] == x;
      forall i | 0 <= i < |rest| ensures rest[i] !in taken + {x} {
        assert xs[i + 1] == rest[i] && xs[0] != xs[i + 1];
      }
      forall i, j | 0 <= i < j < |rest| ensures rest[i] != rest[j] {
        assert xs[i + 1] != xs[j + 1];
      }
    }
    if x !in taken && AllNew(rest, taken + {x}) {
      forall i | 0 <= i < |xs| ensures xs[i] !in taken {
        assert i > 0 ==> xs[i] == rest[i - 1] && rest[i - 1] !in taken + {x};
      }
      forall i, j | 0 <= i < j < |xs| ensures xs[i] != xs[j] {
        assert xs[j] == rest[j - 1] && rest[j - 1] !in taken + {x};
        assert i > 0 ==> xs[i] == rest[i - 1];
      }
    }
  }

  /** The hypotheses are those of before and one untested child of `parent` for each draft. */
  ghost predicate Proposed(
      keys: seq<string>, hyps: map<string, Hypothesis>, keys': seq<string>, hyps': map<string, Hypothesis>,
      parent: string, drafts: seq<HypothesisDraft>)
  {
    && keys' == keys + DraftIds(drafts)
    && (forall k :: k in hyps ==> k in hyps' && hyps'[k] == hyps[k])
    && (forall i :: 0 <= i < |drafts| ==>
          drafts[i].id in hyps' && hyps'[drafts[i].id] == NewHypothesis(drafts[i], parent))
  }

  lemma ProposedKeys(keys: seq<string>, draft: HypothesisDraft, rest: seq<HypothesisDraft>)
    ensures (keys + [draft.id]) + DraftIds(rest) == keys + DraftIds([draft] + rest)
  {
    DraftIdsCons(draft, rest);
  }

  lemma ProposedCons(
      keys: seq<string>, hyps: map<string, Hypothesis>, keys': seq<string>, hyps': map<string, Hypothesis>,
      parent: string, draft: HypothesisDraft, rest: seq<HypothesisDraft>)
    requires draft.id !in hyps
    requires Proposed(keys + [draft.id], hyps[draft.id := NewHypothesis(draft, parent)], keys', hyps', parent, rest)
    ensures Proposed(keys, hyps, keys', hyps', parent, [draft] + rest)
  {
    ProposedKeys(keys, draft, rest);
    var hyps1 := hyps[draft.id := NewHypothesis(draft, parent)];
    assert draft.id in hyps1 && hyps'[draft.id] == NewHypothesis(draft, parent);
  }

  lemma AddsOne(rules: Rules, keys: seq<string>, hyps: map<string, Hypothesis>, existing: set<string>, parent: string,
                draft: HypothesisDraft, rest: seq<HypothesisDraft>)
    requires Forest(keys, hyps) && parent in hyps
    requires AddHypotheses(rules, keys, hyps, existing, parent, [draft] + rest).Ok?
    ensures var keys', hyps' := keys + [draft.id], hyps[draft.id := NewHypothesis(draft, parent)];
      && draft.id !in hyps && Forest(keys', hyps')
      && AddHypotheses(rules, keys, hyps, existing, parent, [draft] + rest)
         == AddHypotheses(rules, keys', hyps', existing + {rules.claimKey(draft.claim)}, parent, rest)
  {
    ForestGrows(keys, hyps, parent, draft);
    assert ([draft] + rest)[1..] == rest;
  }

  lemma {:induction false} AddsStore(
      rules: Rules, keys: seq<string>, hyps: map<string, Hypothesis>, existing: set<string>, parent: string,
      drafts: seq<HypothesisDraft>)
    requires Forest(keys, hyps) && parent in hyps && AddHypotheses(rules, keys, hyps, existing, parent, drafts).Ok?
    ensures var r := AddHypotheses(rules, keys, hyps, existing, parent, drafts).value;
      Proposed(keys, hyps, r.0, r.1, parent, drafts)
    decreases |drafts|
  {
    if drafts != [] {
      var draft, rest := drafts[0], drafts[1..];
      assert drafts == [draft] + rest;
      AddsOne(rules, keys, hyps, existing, parent, draft, rest);
      var hyps' := hyps[draft.id := NewHypothesis(draft, parent)];
      var existing' := existing + {rules.claimKey(draft.claim)};
      AddsStore(rules, keys + [draft.id], hyps', existing', parent, rest);
      var r := AddHypotheses(rules, keys + [draft.id], hyps', existing', parent, rest).value;
      ProposedCons(keys, hyps, r.0, r.1, parent, draft, rest);
    }
  }

  lemma DraftIdsCons(draft: HypothesisDraft, rest: seq<HypothesisDraft>)
    ensures DraftIds([draft] + rest) == [draft.id] + DraftIds(rest)
  {
  }

  lemma DraftClaimsCons(rules: Rules, draft: HypothesisDraft, rest: seq<HypothesisDraft>)
    ensures DraftClaims(rules, [draft] + rest) == [rules.claimKey(draft.claim)] + DraftClaims(rules, rest)
  {
  }

  lemma DraftsCons(rules: Rules, drafts: seq<HypothesisDraft>, ids: set<string>, claims: set<string>)
    requires drafts != []
    ensures var draft, rest := drafts[0], drafts[1..];
      var claimKey := rules.claimKey(draft.claim);
      && (AllNew(DraftIds(drafts), ids) <==> draft.id !in ids && AllNew(DraftIds(rest), ids + {draft.id}))
      && (AllNew(DraftClaims(rules, drafts), claims) <==>
            claimKey !in claims && AllNew(DraftClaims(rules, rest), claims + {claimKey}))
  {
    var draft, rest := drafts[0], drafts[1..];
    assert drafts == [draft] + rest;
    DraftIdsCons(draft, rest);
    DraftClaimsCons(rules, draft, rest);
    AllNewCons(draft.id, DraftIds(rest), ids);
    AllNewCons(rules.claimKey(draft.claim), DraftClaims(rules, rest), claims);
  }

  lemma {:induction false} AddsAcceptExactly(
      rules: Rules, keys: seq<string>, hyps: map<string, Hypothesis>, existing: set<string>, parent: string,
      drafts: seq<HypothesisDraft>)
    requires Forest(keys, hyps) && parent in hyps
    ensures AddHypotheses(rules, keys, hyps, existing, parent, drafts).Ok? <==>
      AllNew(DraftIds(drafts), hyps.Keys) && AllNew(DraftClaims(rules, drafts), existing)
    decreases |drafts|
  {
    if drafts != [] {
      var draft, rest := drafts[0], drafts[1..];
      var claimKey := rules.claimKey(draft.claim);
      DraftsCons(rules, drafts, hyps.Keys, existing);
      if draft.id !in hyps && claimKey !in existing {
        ForestGrows(keys, hyps, parent, draft);
        var hyps' := hyps[draft.id := NewHypothesis(draft, parent)];
        assert hyps'.Keys == hyps.Keys + {draft.id};
        AddsAcceptExactly(rules, keys + [draft.id], hyps', existing + {claimKey}, parent, rest);
      }
    }
  }

  /** A proposal is accepted exactly when the parent exists and all ids and normalised claims are new and
      distinct; then each draft becomes an untested child of the parent, in order. */
  lemma ProposalExactly(
      rules: Rules, keys: seq<string>, hyps: map<string, Hypothesis>, parent: string, drafts: seq<HypothesisDraft>)
    requires Forest(keys, hyps)
    ensures var r := NewHypotheses(rules, keys, hyps, parent, drafts);
      && (r.Ok? <==>
            && parent in hyps
            && AllNew(DraftIds(drafts), hyps.Keys) && AllNew(DraftClaims(rules, drafts), ClaimKeys(rules, hyps)))
      && (r.Ok? ==> Proposed(keys, hyps, r.value.0, r.value.1, parent, drafts))
  {
    if parent in hyps {
      AddsAcceptExactly(rules, keys, hyps, ClaimKeys(rules, hyps), parent, drafts);
      if AddHypotheses(rules, keys, hyps, ClaimKeys(rules, hyps), parent, drafts).Ok? {
        AddsStore(rules, keys, hyps, ClaimKeys(rules, hyps), parent, drafts);
      }
    }
  }

  // ---------------------------------------------------------------- plans

  function TestIds(drafts: seq<TestDraft>): (ids: seq<string>)
    ensures |ids| == |drafts| && forall i :: 0 <= i < |ids| ==> ids[i] == drafts[i].id
  {
    seq(|drafts|, i requires 0 <= i < |drafts| => drafts[i].id)
  }

  ghost predicate Planned(
      tests: map<string, Test>, tests': map<string, Test>, drafts: seq<TestDraft>, order: Option<string>,
      retrospective: bool)
  {
    && (forall k :: k in tests ==> k in tests' && tests'[k] == tests[k])
    && (forall i :: 0 <= i < |drafts| ==>
          && drafts[i].id in tests' && tests'[drafts[i].id].plan == drafts[i]
          && (drafts[i].id !in tests ==> tests'[drafts[i].id] == NewTest(drafts[i], order, retrospective)))
    && (forall k :: k in tests' && k !in tests ==> k in TestIds(drafts))
  }

  lemma {:induction false} PlansAreStored(
      known: set<string>, tests: map<string, Test>, added: seq<string>, drafts: seq<TestDraft>, order: Option<string>,
      retrospective: bool)
    requires AddTests(known, tests, added, drafts, order, retrospective).Ok?
    ensures Planned(tests, AddTests(known, tests, added, drafts, order, retrospective).value.0,
                    drafts, order, retrospective)
    decreases |drafts|
  {
    if drafts != [] {
      var draft, rest := drafts[0], drafts[1..];
      assert drafts == [draft] + rest;
      var tests0 := if draft.id in tests then tests else tests[draft.id := NewTest(draft, order, retrospective)];
      var added0 := if draft.id in tests then added else added + [draft.id];
      PlansAreStored(known, tests0, added0, rest, order, retrospective);
      var planned := AddTests(known, tests, added, drafts, order, retrospective).value.0;
      PlannedCons(tests, tests0, planned, draft, rest, order, retrospective);
    }
  }

  lemma PlannedCons(
      tests: map<string, Test>, tests0: map<string, Test>, tests': map<string, Test>, draft: TestDraft,
      rest: seq<TestDraft>, order: Option<string>, retrospective: bool)
    requires Planned(tests0, tests', rest, order, retrospective)
    requires if draft.id in tests then tests0 == tests && tests[draft.id].plan == draft
             else tests0 == tests[draft.id := NewTest(draft, order, retrospective)]
    ensures Planned(tests, tests', [draft] + rest, order, retrospective)
  {
    var drafts := [draft] + rest;
    assert TestIds(drafts) == [draft.id] + TestIds(rest);
    forall i | 0 <= i < |drafts|
      ensures drafts[i].id in tests' && tests'[drafts[i].id].plan == drafts[i]
      ensures drafts[i].id !in tests ==> tests'[drafts[i].id] == NewTest(drafts[i], order, retrospective)
    {
      assert i > 0 ==> drafts[i] == rest[i - 1];
      assert drafts[i].id in tests0 ==> tests'[drafts[i].id] == tests0[drafts[i].id];
    }
  }

  ghost predicate Targeted(drafts: seq<TestDraft>, known: set<string>) {
    forall i :: 0 <= i < |drafts| ==> TargetsKnown(drafts[i].targets, known)
  }

  lemma TargetedCons(draft: TestDraft, rest: seq<TestDraft>, known: set<string>)
    ensures Targeted([draft] + rest, known) <==> TargetsKnown(draft.targets, known) && Targeted(rest, known)
  {
    var drafts := [draft] + rest;
    assert drafts[0] == draft;
    assert forall i :: 0 <= i < |rest| ==> rest[i] == drafts[i + 1];
    assert forall i :: 1 <= i < |drafts| ==> drafts[i] == rest[i - 1];
  }

  lemma TestIdsCons(draft: TestDraft, rest: seq<TestDraft>)
    ensures TestIds([draft] + rest) == [draft.id] + TestIds(rest)
  {
  }

  lemma PlanCons(draft: TestDraft, rest: seq<TestDraft>, ids: set<string>, known: set<string>)
    ensures AllNew(TestIds([draft] + rest), ids) <==> draft.id !in ids && AllNew(TestIds(rest), ids + {draft.id})
    ensures Targeted([draft] + rest, known) <==> TargetsKnown(draft.targets, known) && Targeted(rest, known)
  {
    TestIdsCons(draft, rest);
    AllNewCons(draft.id, TestIds(rest), ids);
    TargetedCons(draft, rest, known);
  }

  ghost predicate PlanFits(drafts: seq<TestDraft>, ids: set<string>, known: set<string>) {
    AllNew(TestIds(drafts), ids) && Targeted(drafts, known)
  }

  lemma PlanFitsCons(drafts: seq<TestDraft>, ids: set<string>, known: set<string>)
    requires drafts != []
    ensures PlanFits(drafts, ids, known) <==>
      && drafts[0].id !in ids && TargetsKnown(drafts[0].targets, known)
      && PlanFits(drafts[1..], ids + {drafts[0].id}, known)
  {
    PlanCons(drafts[0], drafts[1..], ids, known);
    assert drafts == [drafts[0]] + drafts[1..];
  }

  /** A Coordinator's plan is accepted exactly when its ids are new and distinct and every target is an
      existing hypothesis other than the root. */
  lemma {:induction false} CoordinatorPlanExactly(
    known: set<string>, tests: map<string, Test>, added: seq<string>, drafts: seq<TestDraft>)
    ensures AddTests(known, tests, added, drafts, None, false).Ok? <==> PlanFits(drafts, tests.Keys, known)
    decreases |drafts|
  {
    if drafts != [] {
      var draft := drafts[0];
      PlanFitsCons(drafts, tests.Keys, known);
      if draft.id !in tests && TargetsKnown(draft.targets, known) {
        var tests0 := tests[draft.id := NewTest(draft, None, false)];
        assert tests0.Keys == tests.Keys + {draft.id};
        CoordinatorPlanExactly(known, tests0, added + [draft.id], drafts[1..]);
      }
    }
  }

  // ---------------------------------------------------------------- reservations

  lemma {:induction false} NewKeysAreTheDifference(keys: seq<string>, charged: seq<string>)
    requires NoDup(keys) && NoDup(charged)
    ensures |NewKeys(keys, charged)| == |Elements(keys) - Elements(charged)|
  {
    NewKeysNoDup(keys, charged);
    NoDupSize(NewKeys(keys, charged));
    assert Elements(NewKeys(keys, charged)) == Elements(keys) - Elements(charged);
  }

  /** What a reservation does to a named test: it is no longer waiting, it counts as charged, and with
      explicit identities it is linked to exactly these in addition. */
  ghost predicate Started(before: Test, after: Test, keys: seq<string>, explicit: bool) {
    && after.attemptCharged
    && after.status == (if before.status == Todo then Running else before.status)
    && Elements(Linked(after)) == Elements(Linked(before)) + (if explicit then Elements(keys) else {})
    && after.plan == before.plan && after.result == before.result && after.workOrder == before.workOrder
  }

  lemma {:induction false} ReserveTestMeans(test: Test, keys: seq<string>, explicit: bool)
    requires keys != []
    ensures Started(test, ReserveTest(test, keys, explicit), keys, explicit)
  {
    var after := ReserveTest(test, keys, explicit);
    if explicit && !(Elements(keys) <= Elements(Linked(test))) {
      ElementsConcat(SortStrings(Linked(test)), keys);
      assert Elements(SortStrings(Linked(test))) == Elements(Linked(test));
      LinkedAfter(test, after, SortStrings(Linked(test)) + keys);
    } else {
      assert Linked(after) == Linked(test);
    }
  }

  lemma ElementsConcat(a: seq<string>, b: seq<string>)
    ensures Elements(a + b) == Elements(a) + Elements(b)
  {
  }

  lemma LinkedAfter(test: Test, after: Test, joined: seq<string>)
    requires after.executionIds == Dedup(joined)
    requires after.executionId == if |Dedup(joined)| == 1 then Some(Dedup(joined)[0]) else test.executionId
    requires Elements(Linked(test)) <= Elements(joined)
    ensures Elements(Linked(after)) == Elements(joined)
  {
    var ids := Dedup(joined);
    ElementsConcat(test.executionIds, OwnExecution(test));
    ElementsConcat(ids, OwnExecution(after));
    assert Elements(Linked(test)) == Elements(test.executionIds) + Elements(OwnExecution(test));
    assert Elements(Linked(after)) == Elements(ids) + Elements(OwnExecution(after));
    if |ids| == 1 {
      assert ids[0] in Elements(ids);
    }
    assert Elements(OwnExecution(after)) <= Elements(joined);
  }

  /** An accepted reservation makes the tree `Reserved`, which may be the tree it was. */
  lemma BeginIsReserved(t: Tree, testIds: seq<string>, executionId: Option<string>, executionIds: Option<seq<string>>)
    requires BeginTests(Some(t), testIds, executionId, executionIds).Ok?
    ensures var r := BeginTests(Some(t), testIds, executionId, executionIds).value;
      var keys := ReservationKeys(testIds, executionId, executionIds);
      && (if r.Some? then r.value else t) == Reserved(t, testIds, keys, executionId.Some? || executionIds.Some?)
      && NoDup(testIds) && keys != [] && (forall k :: k in testIds ==> k in t.tests)
      && t.executionsUsed + |NewKeys(keys, t.charged)| <= t.executionBudget
  {
  }

  lemma ReservedMeans(t: Tree, testIds: seq<string>, keys: seq<string>, explicit: bool)
    requires NoDup(t.charged) && NoDup(keys) && keys != [] && forall k :: k in testIds ==> k in t.tests
    ensures var t' := Reserved(t, testIds, keys, explicit);
      && t' == t.(tests := t'.tests, charged := t'.charged, executionsUsed := t'.executionsUsed)
      && t'.tests.Keys == t.tests.Keys
      && (forall k :: k in t.tests && k !in testIds ==> t'.tests[k] == t.tests[k])
      && (forall k :: k in testIds ==> Started(t.tests[k], t'.tests[k], keys, explicit))
      && Elements(t'.charged) == Elements(t.charged) + Elements(keys)
      && t'.executionsUsed == t.executionsUsed + |Elements(keys) - Elements(t.charged)|
  {
    NewKeysAreTheDifference(keys, t.charged);
    var t' := Reserved(t, testIds, keys, explicit);
    forall k | k in testIds ensures Started(t.tests[k], t'.tests[k], keys, explicit) {
      ReserveTestMeans(t.tests[k], keys, explicit);
    }
    ElementsConcat(t.charged, NewKeys(keys, t.charged));
    assert Elements(t.charged) + Elements(NewKeys(keys, t.charged)) == Elements(t.charged) + Elements(keys);
  }

  /** An accepted reservation starts exactly the named tests and charges exactly the identities that were
      not charged before, each once. */
  lemma ReservationMeans(t: Tree, testIds: seq<string>, executionId: Option<string>, executionIds: Option<seq<string>>)
    requires BudgetOk(t) && BeginTests(Some(t), testIds, executionId, executionIds).Ok?
    ensures var r := BeginTests(Some(t), testIds, executionId, executionIds).value;
      var t' := if r.Some? then r.value else t;
      var keys := ReservationKeys(testIds, executionId, executionIds);
      && t' == t.(tests := t'.tests, charged := t'.charged, executionsUsed := t'.executionsUsed)
      && t'.tests.Keys == t.tests.Keys
      && (forall k :: k in t.tests && k !in testIds ==> t'.tests[k] == t.tests[k])
      && (forall k :: k in testIds ==>
            k in t.tests && Started(t.tests[k], t'.tests[k], keys, executionId.Some? || executionIds.Some?))
      && Elements(t'.charged) == Elements(t.charged) + Elements(keys)
      && t'.executionsUsed == t.executionsUsed + |Elements(keys) - Elements(t.charged)| <= t.executionBudget
  {
    var keys := ReservationKeys(testIds, executionId, executionIds);
    BeginIsReserved(t, testIds, executionId, executionIds);
    ReservationKeysNoDup(testIds, executionId, executionIds);
    ReservedMeans(t, testIds, keys, executionId.Some? || executionIds.Some?);
    NewKeysAreTheDifference(keys, t.charged);
  }

  // ---------------------------------------------------------------- Expert facts

  /** The test stored under `key` is this Expert's own, within its scope, and done with this result. */
  ghost predicate OwnResult(tests: map<string, Test>, key: string, request: ExpertRequest, result: TestResult) {
    && key in tests && tests[key].workOrder == Some(request.order)
    && Elements(tests[key].plan.targets) <= request.scope
    && tests[key].status == Done && tests[key].result == Some(result)
    && (request.execution.Some? && key in tests ==>
          tests[key].executionId == request.execution || tests[key].executionId.None?)
  }

  lemma RecordOwnStores(
      rules: Rules, world: World, tests: map<string, Test>, request: ExpertRequest, localId: string,
      result: TestResult)
    requires RecordOwn(rules, world, tests, request, localId, result).Ok?
    ensures var r := RecordOwn(rules, world, tests, request, localId, result).value;
      && OwnResult(r.0, OwnTestId(rules, tests, request.order, localId), request, result)
      && (forall k :: k in tests && k != OwnTestId(rules, tests, request.order, localId) ==>
            k in r.0 && r.0[k] == tests[k])
  {
  }

  /** An accepted Expert result is stored: under the Expert's own name for the test or the id derived from
      it, in one of its own tests, done with exactly this result. */
  lemma ExpertResultIsStored(
      rules: Rules, world: World, known: set<string>, tests: map<string, Test>, request: ExpertRequest)
    requires ExpertFacts(rules, world, known, tests, request).Ok? && request.record.Some?
    ensures var after := ExpertFacts(rules, world, known, tests, request).value.0;
      var (localId, result) := request.record.value;
      || OwnResult(after, localId, request, result)
      || OwnResult(after, rules.expertTestId(request.order, localId), request, result)
  {
    var bound := BindDrafts(rules, tests, request, request.tests, [], map[]).value;
    var grown := AddTests(known, tests, [], bound.0, Some(request.order), true).value;
    var named := Named(grown.0, grown.1, bound.1);
    RecordOwnStores(rules, world, named, request, request.record.value.0, request.record.value.1);
  }

  // ---------------------------------------------------------------- results and judgments

  lemma RecordedNow(rules: Rules, w: World, s: State, testId: string, result: TestResult, requestId: Option<string>)
    requires StateInv(rules, s) && Attempt(rules, w, s, Coordinator(s.revision, Record(testId, result), requestId)).Ok?
    ensures var s1 := Step(rules, w, s, Coordinator(s.revision, Record(testId, result), requestId));
      && s1.tree.Some? && testId in s1.tree.value.tests
      && s1.tree.value.tests[testId].status == Done && s1.tree.value.tests[testId].result == Some(result)
  {
    assert TestOk(s.tree.value.hypotheses.Keys, testId, s.tree.value.tests[testId]);
  }

  lemma RecordedStays(rules: Rules, w: World, s: State, testId: string, result: TestResult, requestId: Option<string>,
                      between: seq<(World, Call)>)
    requires StateInv(rules, s) && Attempt(rules, w, s, Coordinator(s.revision, Record(testId, result), requestId)).Ok?
    ensures var s1 := Step(rules, w, s, Coordinator(s.revision, Record(testId, result), requestId));
      var s' := Run(rules, s1, between);
      && StateInv(rules, s') && s'.tree.Some? && testId in s'.tree.value.tests
      && s'.tree.value.tests[testId].status == Done && s'.tree.value.tests[testId].result == Some(result)
  {
    var call := Coordinator(s.revision, Record(testId, result), requestId);
    var s1 := Step(rules, w, s, call);
    StepKeeps(rules, w, s, call);
    RecordedNow(rules, w, s, testId, result, requestId);
    RunKeeps(rules, s1, between);
    RunsOnlyGrow(rules, s1, between);
    var s' := Run(rules, s1, between);
    assert TestAdvances(s1.tree.value.tests[testId], s'.tree.value.tests[testId]);
  }

  lemma RecordAgain(rules: Rules, w: World, s: State, testId: string, result: TestResult, later: TestResult,
                    requestId: Option<string>)
    requires StateInv(rules, s) && s.tree.Some? && testId in s.tree.value.tests
    requires s.tree.value.tests[testId].status == Done && s.tree.value.tests[testId].result == Some(result)
    ensures Attempt(rules, w, s, Coordinator(s.revision, Record(testId, later), requestId))
         == if s.tree.value.paused then Err(Paused)
            else if !EvidenceKnown(later.evidenceRefs, w) then Err(UnknownEvidence)
            else if later == result then Ok(None)
            else Err(ResultImmutable)
  {
  }

  /** After a result was recorded, that test is done with it for good: whatever happens in between, a later
      call with the same result is accepted without a save, and one with any other result is refused. */
  lemma FirstResultWins(rules: Rules, w: World, s: State, testId: string, result: TestResult, requestId: Option<string>,
                        between: seq<(World, Call)>, w': World, later: TestResult, laterId: Option<string>)
    requires StateInv(rules, s) && Attempt(rules, w, s, Coordinator(s.revision, Record(testId, result), requestId)).Ok?
    ensures var s1 := Step(rules, w, s, Coordinator(s.revision, Record(testId, result), requestId));
      var s' := Run(rules, s1, between);
      && s'.tree.Some? && testId in s'.tree.value.tests
      && s'.tree.value.tests[testId].status == Done && s'.tree.value.tests[testId].result == Some(result)
      && Attempt(rules, w', s', Coordinator(s'.revision, Record(testId, later), laterId))
         == if s'.tree.value.paused then Err(Paused)
            else if !EvidenceKnown(later.evidenceRefs, w') then Err(UnknownEvidence)
            else if later == result then Ok(None)
            else Err(ResultImmutable)
  {
    RecordedStays(rules, w, s, testId, result, requestId, between);
    var s' := Run(rules, Step(rules, w, s, Coordinator(s.revision, Record(testId, result), requestId)), between);
    RecordAgain(rules, w', s', testId, result, later, laterId);
  }

  lemma JudgedAndSynced(world: World, t: Tree, node: string, updated: Judgment)
    requires TreeForest(t) && updated.evidenceRefs.Some? && AdjudicateTree(world, t, node, updated).Ok?
    ensures node in t.hypotheses
    ensures var judged := AdjudicateTree(world, t, node, updated).value;
      && TreeForest(judged) && node in SyncTree(judged).hypotheses
      && SyncTree(judged).hypotheses[node].judgment == updated
      && SyncTree(judged).hypotheses[node].history
         == t.hypotheses[node].history
            + if t.hypotheses[node].judgment == updated then [] else [t.hypotheses[node].judgment]
  {
    var judged := AdjudicateTree(world, t, node, updated).value;
    assert SyncTree(judged).hypotheses[node] == Refreshed(judged.keys, judged.hypotheses, node);
  }

  lemma AdjudicateIsJudged(rules: Rules, w: World, s: State, node: string, updated: Judgment, request: Request,
                           requestId: Option<string>)
    requires OptForest(s.tree) && updated.evidenceRefs.Some?
    requires request == Adjudicate(node, updated.status, updated.summary, updated.evidenceRefs.value, updated.testId)
    requires updated.byCoordinator && Attempt(rules, w, s, Coordinator(s.revision, request, requestId)).Ok?
    ensures s.tree.Some? && AdjudicateTree(w, s.tree.value, node, updated).Ok?
    ensures Attempt(rules, w, s, Coordinator(s.revision, request, requestId)).value
         == Some(SyncTree(AdjudicateTree(w, s.tree.value, node, updated).value))
  {
  }

  /** An accepted adjudication stores exactly the judgment asked for; its predecessor joins the history
      if and only if it differs. */
  lemma JudgmentIsStored(rules: Rules, w: World, s: State, node: string, status: Status, summary: Option<string>,
                         refs: seq<string>, cited: Option<string>, requestId: Option<string>)
    requires OptForest(s.tree)
    requires var request := Adjudicate(node, status, summary, refs, cited);
      Attempt(rules, w, s, Coordinator(s.revision, request, requestId)).Ok?
    ensures var updated := Judgment(status, summary, Some(refs), cited, true);
      var request := Adjudicate(node, status, summary, refs, cited);
      var saved := Attempt(rules, w, s, Coordinator(s.revision, request, requestId)).value;
      && s.tree.Some? && saved.Some? && node in s.tree.value.hypotheses && node in saved.value.hypotheses
      && saved.value.hypotheses[node].judgment == updated
      && saved.value.hypotheses[node].history
         == s.tree.value.hypotheses[node].history
            + if s.tree.value.hypotheses[node].judgment == updated then [] else [s.tree.value.hypotheses[node].judgment]
  {
    var updated := Judgment(status, summary, Some(refs), cited, true);
    AdjudicateIsJudged(rules, w, s, node, updated, Adjudicate(node, status, summary, refs, cited), requestId);
    JudgedAndSynced(w, s.tree.value, node, updated);
  }
}
