/** What an Expert call leaves of its planned tests and its result, told from the request and the tests
    before it. */
module ExpertOutcomes {
  import opened Common
  import opened ResearchTree
  import opened ResearchEffects

  // ---------------------------------------------------------------- the stored ids

  ghost predicate Owns(tests: map<string, Test>, order: string, id: string) {
    id in tests && tests[id].workOrder == Some(order)
  }

  /** The id a test of the WorkOrder stands under: its own one if it has one, or else the derived one. */
  ghost function StoredUnder(rules: Rules, tests: map<string, Test>, order: string, name: string): string {
    if Owns(tests, order, name) then name else rules.expertTestId(order, name)
  }

  ghost function KeysOf(rules: Rules, tests: map<string, Test>, order: string, drafts: seq<TestDraft>)
    : (keys: seq<string>)
    ensures |keys| == |drafts|
    ensures forall i :: 0 <= i < |drafts| ==> keys[i] == StoredUnder(rules, tests, order, drafts[i].id)
  {
    seq(|drafts|, i requires 0 <= i < |drafts| => StoredUnder(rules, tests, order, drafts[i].id))
  }

  /** The drafts with these ids in place of their own. */
  ghost function Under(drafts: seq<TestDraft>, keys: seq<string>): (plans: seq<TestDraft>)
    requires |keys| == |drafts|
    ensures |plans| == |drafts| && forall i :: 0 <= i < |drafts| ==> plans[i] == drafts[i].(id := keys[i])
  {
    seq(|drafts|, i requires 0 <= i < |drafts| => drafts[i].(id := keys[i]))
  }

  ghost predicate Within(targets: seq<string>, scope: set<string>) {
    forall k :: k in targets ==> k in scope
  }

  ghost predicate AllWithin(drafts: seq<TestDraft>, scope: set<string>) {
    forall i :: 0 <= i < |drafts| ==> Within(drafts[i].targets, scope)
  }

  ghost predicate LastAt(keys: seq<string>, i: int) {
    0 <= i < |keys| && forall j :: i < j < |keys| ==> keys[j] != keys[i]
  }

  /** Every key has a name, that of the last draft under it. */
  ghost predicate NamesAre(
      keys: seq<string>, drafts: seq<TestDraft>, names: map<string, string>, names': map<string, string>)
    requires |keys| == |drafts|
  {
    && (forall k :: k in names' <==> k in names || k in keys)
    && (forall k :: k in names && k !in keys ==> names'[k] == names[k])
    && (forall i :: LastAt(keys, i) ==> keys[i] in names' && names'[keys[i]] == drafts[i].id)
  }

  lemma LastAtCons(key: string, keys: seq<string>, i: int)
    ensures LastAt([key] + keys, i) <==> (if i == 0 then key !in keys else LastAt(keys, i - 1))
  {
    var all := [key] + keys;
    assert forall j :: 0 <= j < |keys| ==> all[j + 1] == keys[j];
    assert forall j :: 1 <= j < |all| ==> all[j] == keys[j - 1];
    if i > 0 && LastAt(all, i) {
      forall j | i - 1 < j < |keys| ensures keys[j] != keys[i - 1] {
        assert all[j + 1] != all[i];
      }
    }
  }

  lemma InCons(key: string, keys: seq<string>, k: string)
    ensures k in [key] + keys <==> k == key || k in keys
  {
  }

  lemma NameCons(key: string, keys: seq<string>, draft: TestDraft, drafts: seq<TestDraft>, names: map<string, string>,
                 names': map<string, string>, i: int)
    requires |keys| == |drafts| && NamesAre(keys, drafts, names[key := draft.id], names')
    requires LastAt([key] + keys, i)
    ensures var k := ([key] + keys)[i]; k in names' && names'[k] == ([draft] + drafts)[i].id
  {
    LastAtCons(key, keys, i);
    if i > 0 {
      assert LastAt(keys, i - 1);
    }
  }

  lemma NamesCons(key: string, keys: seq<string>, draft: TestDraft, drafts: seq<TestDraft>, names: map<string, string>,
                  names': map<string, string>)
    requires |keys| == |drafts| && NamesAre(keys, drafts, names[key := draft.id], names')
    ensures NamesAre([key] + keys, [draft] + drafts, names, names')
  {
    var all, named := [key] + keys, [draft] + drafts;
    forall i | LastAt(all, i) ensures all[i] in names' && names'[all[i]] == named[i].id {
      NameCons(key, keys, draft, drafts, names, names', i);
    }
    forall k ensures k in all <==> k == key || k in keys {
      InCons(key, keys, k);
    }
  }

  lemma AllWithinCons(draft: TestDraft, rest: seq<TestDraft>, scope: set<string>)
    ensures AllWithin([draft] + rest, scope) <==> Within(draft.targets, scope) && AllWithin(rest, scope)
  {
    var drafts := [draft] + rest;
    assert drafts[0] == draft;
    assert forall i :: 0 <= i < |rest| ==> rest[i] == drafts[i + 1];
  }

  lemma KeysCons(rules: Rules, tests: map<string, Test>, order: string, draft: TestDraft, rest: seq<TestDraft>)
    ensures KeysOf(rules, tests, order, [draft] + rest)
         == [StoredUnder(rules, tests, order, draft.id)] + KeysOf(rules, tests, order, rest)
  {
  }

  lemma UnderCons(draft: TestDraft, rest: seq<TestDraft>, key: string, keys: seq<string>)
    requires |keys| == |rest|
    ensures Under([draft] + rest, [key] + keys) == [draft.(id := key)] + Under(rest, keys)
  {
  }

  lemma BindOne(rules: Rules, tests: map<string, Test>, request: ExpertRequest, draft: TestDraft, rest: seq<TestDraft>,
                bound: seq<TestDraft>, names: map<string, string>)
    ensures BindDrafts(rules, tests, request, [draft] + rest, bound, names)
         == if !Within(draft.targets, request.scope) then Err(OutOfScope)
            else
              var key := StoredUnder(rules, tests, request.order, draft.id);
              BindDrafts(rules, tests, request, rest, bound + [draft.(id := key)], names[key := draft.id])
  {
    assert ([draft] + rest)[1..] == rest;
    assert Elements(draft.targets) <= request.scope <==> Within(draft.targets, request.scope);
  }

  ghost predicate BoundAs(
      r: Result<(seq<TestDraft>, map<string, string>), Error>, keys: seq<string>, request: ExpertRequest,
      drafts: seq<TestDraft>, bound: seq<TestDraft>, names: map<string, string>)
    requires |keys| == |drafts|
  {
    && (r.Ok? <==> AllWithin(drafts, request.scope))
    && (r.Ok? ==> r.value.0 == bound + Under(drafts, keys) && NamesAre(keys, drafts, names, r.value.1))
  }

  lemma BoundAssoc(bound: seq<TestDraft>, plan: TestDraft, plans: seq<TestDraft>)
    ensures bound + [plan] + plans == bound + ([plan] + plans)
  {
  }

  lemma BoundCons(
      r: Result<(seq<TestDraft>, map<string, string>), Error>, key: string, keys: seq<string>, request: ExpertRequest,
      draft: TestDraft, rest: seq<TestDraft>, bound: seq<TestDraft>, names: map<string, string>)
    requires |keys| == |rest| && Within(draft.targets, request.scope)
    requires BoundAs(r, keys, request, rest, bound + [draft.(id := key)], names[key := draft.id])
    ensures BoundAs(r, [key] + keys, request, [draft] + rest, bound, names)
  {
    AllWithinCons(draft, rest, request.scope);
    if r.Ok? {
      UnderCons(draft, rest, key, keys);
      BoundAssoc(bound, draft.(id := key), Under(rest, keys));
      NamesCons(key, keys, draft, rest, names, r.value.1);
    }
  }

  lemma {:induction false} BindExactly(
      rules: Rules, tests: map<string, Test>, request: ExpertRequest, drafts: seq<TestDraft>, bound: seq<TestDraft>,
      names: map<string, string>)
    ensures BoundAs(BindDrafts(rules, tests, request, drafts, bound, names),
                    KeysOf(rules, tests, request.order, drafts), request, drafts, bound, names)
    decreases |drafts|
  {
    if drafts != [] {
      var draft, rest := drafts[0], drafts[1..];
      var key, keys := StoredUnder(rules, tests, request.order, draft.id), KeysOf(rules, tests, request.order, rest);
      assert drafts == [draft] + rest;
      BindOne(rules, tests, request, draft, rest, bound, names);
      KeysCons(rules, tests, request.order, draft, rest);
      AllWithinCons(draft, rest, request.scope);
      if Within(draft.targets, request.scope) {
        BindExactly(rules, tests, request, rest, bound + [draft.(id := key)], names[key := draft.id]);
        BoundCons(BindDrafts(rules, tests, request, drafts, bound, names), key, keys, request, draft, rest, bound,
                  names);
      }
    } else {
      assert bound + [] == bound;
    }
  }

  // ---------------------------------------------------------------- storing the plans

  /** A plan fits the tests if it is new, or stored already for this WorkOrder; equal ids are equal plans. */
  ghost predicate OwnPlansFit(tests: map<string, Test>, plans: seq<TestDraft>, order: string) {
    && (forall i :: 0 <= i < |plans| && plans[i].id in tests ==>
          Owns(tests, order, plans[i].id) && tests[plans[i].id].plan == plans[i])
    && (forall i, j :: 0 <= i < j < |plans| && plans[i].id == plans[j].id ==> plans[i] == plans[j])
  }

  lemma FitsOld(tests: map<string, Test>, plan: TestDraft, rest: seq<TestDraft>, order: string)
    requires plan.id in tests
    ensures OwnPlansFit(tests, [plan] + rest, order) <==>
      Owns(tests, order, plan.id) && tests[plan.id].plan == plan && OwnPlansFit(tests, rest, order)
  {
    var plans := [plan] + rest;
    assert plans[0] == plan;
    assert forall i :: 0 <= i < |rest| ==> rest[i] == plans[i + 1];
    assert forall i :: 1 <= i < |plans| ==> plans[i] == rest[i - 1];
  }

  lemma FitsNew(tests: map<string, Test>, plan: TestDraft, rest: seq<TestDraft>, order: string, test: Test)
    requires plan.id !in tests && test.plan == plan && test.workOrder == Some(order)
    ensures OwnPlansFit(tests, [plan] + rest, order) <==> OwnPlansFit(tests[plan.id := test], rest, order)
  {
    var plans := [plan] + rest;
    assert plans[0] == plan;
    assert forall i :: 0 <= i < |rest| ==> rest[i] == plans[i + 1];
    assert forall i :: 1 <= i < |plans| ==> plans[i] == rest[i - 1];
  }

  lemma {:induction false} OwnPlansAcceptedExactly(
      known: set<string>, tests: map<string, Test>, added: seq<string>, plans: seq<TestDraft>, order: string,
      retrospective: bool)
    requires Targeted(plans, known)
    ensures AddTests(known, tests, added, plans, Some(order), retrospective).Ok? <==> OwnPlansFit(tests, plans, order)
    decreases |plans|
  {
    if plans != [] {
      var plan, rest := plans[0], plans[1..];
      assert plans == [plan] + rest;
      TargetedCons(plan, rest, known);
      if plan.id in tests {
        FitsOld(tests, plan, rest, order);
        OwnPlansAcceptedExactly(known, tests, added, rest, order, retrospective);
      } else {
        var test := NewTest(plan, Some(order), retrospective);
        FitsNew(tests, plan, rest, order, test);
        OwnPlansAcceptedExactly(known, tests[plan.id := test], added + [plan.id], rest, order, retrospective);
      }
    }
  }

  lemma {:induction false} AddedAreTheNew(
      known: set<string>, tests: map<string, Test>, added: seq<string>, plans: seq<TestDraft>, order: Option<string>,
      retrospective: bool)
    requires AddTests(known, tests, added, plans, order, retrospective).Ok?
    ensures var r := AddTests(known, tests, added, plans, order, retrospective).value;
      tests.Keys <= r.0.Keys && Elements(r.1) == Elements(added) + (r.0.Keys - tests.Keys)
    decreases |plans|
  {
    if plans != [] {
      var plan, rest := plans[0], plans[1..];
      if plan.id in tests {
        AddedAreTheNew(known, tests, added, rest, order, retrospective);
      } else {
        AddedAreTheNew(known, tests[plan.id := NewTest(plan, order, retrospective)], added + [plan.id], rest, order,
                       retrospective);
        ElementsConcat(added, [plan.id]);
      }
    }
  }

  /** A test just planned under this key: the draft under that id, waiting or infeasible as drafted, of this
      WorkOrder, not charged, and registered in advance unless it comes with its result. */
  ghost predicate NewlyPlanned(test: Test, draft: TestDraft, key: string, order: string, inAdvance: bool) {
    test == Test(draft.(id := key), if draft.feasible then Todo else Infeasible, None, Some(order), inAdvance,
                 test.localId, false, [], None)
  }

  /** The tests after the plans of a request and before its result: every test of before unchanged, every
      draft under its key, a new one with the name of the last draft under it, and nothing else. */
  ghost predicate PlansStand(
      tests: map<string, Test>, tests': map<string, Test>, keys: seq<string>, drafts: seq<TestDraft>, order: string,
      inAdvance: bool)
    requires |keys| == |drafts|
  {
    && (forall k :: k in tests' <==> k in tests || k in keys)
    && (forall k :: k in tests ==> tests'[k] == tests[k])
    && (forall i :: 0 <= i < |keys| ==>
          && keys[i] in tests' && tests'[keys[i]].plan == drafts[i].(id := keys[i])
          && tests'[keys[i]].workOrder == Some(order))
    && (forall i :: 0 <= i < |keys| && keys[i] !in tests ==>
          keys[i] in tests' && NewlyPlanned(tests'[keys[i]], drafts[i], keys[i], order, inAdvance))
    && (forall i :: LastAt(keys, i) && keys[i] !in tests ==>
          keys[i] in tests' && tests'[keys[i]].localId == Some(drafts[i].id))
  }

  lemma PlanIds(drafts: seq<TestDraft>, keys: seq<string>)
    requires |keys| == |drafts|
    ensures TestIds(Under(drafts, keys)) == keys
  {
  }

  lemma PlansAreNamed(
      tests: map<string, Test>, grown: map<string, Test>, added: seq<string>, names: map<string, string>,
      keys: seq<string>, drafts: seq<TestDraft>, order: string, retrospective: bool)
    requires |keys| == |drafts| && OwnPlansFit(tests, Under(drafts, keys), order)
    requires Planned(tests, grown, Under(drafts, keys), Some(order), retrospective)
    requires Elements(added) == grown.Keys - tests.Keys && NamesAre(keys, drafts, map[], names)
    ensures PlansStand(tests, Named(grown, added, names), keys, drafts, order, !retrospective)
  {
    var plans, named := Under(drafts, keys), Named(grown, added, names);
    PlanIds(drafts, keys);
    forall k ensures k in added <==> k in grown && k !in tests {
      assert k in added <==> k in Elements(added);
    }
    forall i | 0 <= i < |keys|
      ensures keys[i] in named && named[keys[i]].plan == plans[i] && named[keys[i]].workOrder == Some(order)
      ensures keys[i] !in tests ==> NewlyPlanned(named[keys[i]], drafts[i], keys[i], order, !retrospective)
    {
      assert plans[i].id == keys[i];
    }
    forall i | LastAt(keys, i) && keys[i] !in tests
      ensures keys[i] in named && named[keys[i]].localId == Some(drafts[i].id)
    {
      assert plans[i].id == keys[i] && keys[i] in added && keys[i] in names;
    }
  }

  // ---------------------------------------------------------------- the call

  ghost predicate CallFits(w: World, known: set<string>, request: ExpertRequest) {
    && request.order in w.expertOrders
    && "root" !in request.scope && request.scope <= known
    && (request.execution.Some? ==>
          && request.execution.value in w.executionOwner
          && w.executionOwner[request.execution.value] == request.order)
  }

  /** The drafts stay within the scope, and each is new under its key or stored there already. */
  ghost predicate PlansAllowed(rules: Rules, tests: map<string, Test>, request: ExpertRequest) {
    var keys := KeysOf(rules, tests, request.order, request.tests);
    AllWithin(request.tests, request.scope) && OwnPlansFit(tests, Under(request.tests, keys), request.order)
  }

  ghost function WithNames(r: Result<(map<string, Test>, seq<string>), Error>, names: map<string, string>)
    : Result<(map<string, Test>, seq<string>), Error>
  {
    if r.Ok? then Ok((Named(r.value.0, r.value.1, names), r.value.1)) else r
  }

  ghost function PlannedTests(rules: Rules, known: set<string>, tests: map<string, Test>, request: ExpertRequest)
    : Result<(map<string, Test>, seq<string>), Error>
  {
    var bound :- BindDrafts(rules, tests, request, request.tests, [], map[]);
    WithNames(AddTests(known, tests, [], bound.0, Some(request.order), request.record.Some?), bound.1)
  }

  lemma WithinIsTargeted(drafts: seq<TestDraft>, keys: seq<string>, scope: set<string>, known: set<string>)
    requires |keys| == |drafts| && AllWithin(drafts, scope) && "root" !in scope && scope <= known
    ensures Targeted(Under(drafts, keys), known)
  {
    var plans := Under(drafts, keys);
    forall i | 0 <= i < |plans| ensures TargetsKnown(plans[i].targets, known) {
      assert Within(drafts[i].targets, scope) && plans[i].targets == drafts[i].targets;
    }
  }

  ghost predicate PlansMade(
      r: Result<(map<string, Test>, seq<string>), Error>, tests: map<string, Test>, keys: seq<string>,
      request: ExpertRequest)
    requires |keys| == |request.tests|
  {
    && (r.Ok? <==> AllWithin(request.tests, request.scope)
                   && OwnPlansFit(tests, Under(request.tests, keys), request.order))
    && (r.Ok? ==>
          && PlansStand(tests, r.value.0, keys, request.tests, request.order, request.record.None?)
          && Elements(r.value.1) == r.value.0.Keys - tests.Keys)
  }

  ghost predicate PlansGrown(
      r: Result<(map<string, Test>, seq<string>), Error>, tests: map<string, Test>, plans: seq<TestDraft>,
      order: string, retrospective: bool)
  {
    && (r.Ok? <==> OwnPlansFit(tests, plans, order))
    && (r.Ok? ==>
          && Planned(tests, r.value.0, plans, Some(order), retrospective)
          && Elements(r.value.1) == r.value.0.Keys - tests.Keys)
  }

  lemma PlansGrow(
      known: set<string>, tests: map<string, Test>, plans: seq<TestDraft>, order: string, retrospective: bool)
    requires Targeted(plans, known)
    ensures PlansGrown(AddTests(known, tests, [], plans, Some(order), retrospective), tests, plans, order,
                       retrospective)
  {
    OwnPlansAcceptedExactly(known, tests, [], plans, order, retrospective);
    if AddTests(known, tests, [], plans, Some(order), retrospective).Ok? {
      PlansAreStored(known, tests, [], plans, Some(order), retrospective);
      AddedAreTheNew(known, tests, [], plans, Some(order), retrospective);
      assert Elements<string>([]) == {};
    }
  }

  lemma PlansAreMade(
      r: Result<(map<string, Test>, seq<string>), Error>, tests: map<string, Test>, keys: seq<string>,
      names: map<string, string>, request: ExpertRequest)
    requires |keys| == |request.tests|
    requires PlansGrown(r, tests, Under(request.tests, keys), request.order, request.record.Some?)
    requires AllWithin(request.tests, request.scope) && NamesAre(keys, request.tests, map[], names)
    ensures PlansMade(WithNames(r, names), tests, keys, request)
  {
    if r.Ok? {
      PlansAreNamed(tests, r.value.0, r.value.1, names, keys, request.tests, request.order, request.record.Some?);
    }
  }

  lemma PlansWithin(
      known: set<string>, tests: map<string, Test>, keys: seq<string>, names: map<string, string>,
      request: ExpertRequest)
    requires |keys| == |request.tests| && NamesAre(keys, request.tests, map[], names)
    requires AllWithin(request.tests, request.scope) && "root" !in request.scope && request.scope <= known
    ensures var grown := AddTests(known, tests, [], Under(request.tests, keys), Some(request.order),
                                  request.record.Some?);
      PlansMade(WithNames(grown, names), tests, keys, request)
  {
    var plans := Under(request.tests, keys);
    WithinIsTargeted(request.tests, keys, request.scope, known);
    PlansGrow(known, tests, plans, request.order, request.record.Some?);
    PlansAreMade(AddTests(known, tests, [], plans, Some(request.order), request.record.Some?), tests, keys, names,
                 request);
  }

  lemma PlannedTestsExactly(
      rules: Rules, w: World, known: set<string>, tests: map<string, Test>, request: ExpertRequest)
    requires CallFits(w, known, request)
    ensures PlansMade(PlannedTests(rules, known, tests, request), tests,
                      KeysOf(rules, tests, request.order, request.tests), request)
  {
    var keys := KeysOf(rules, tests, request.order, request.tests);
    BindExactly(rules, tests, request, request.tests, [], map[]);
    var bound := BindDrafts(rules, tests, request, request.tests, [], map[]);
    if bound.Ok? {
      assert bound.value.0 == Under(request.tests, keys);
      PlansWithin(known, tests, keys, bound.value.1, request);
    }
  }

  lemma CallIsPlansThenResult(
      rules: Rules, w: World, known: set<string>, tests: map<string, Test>, request: ExpertRequest)
    ensures var r, planned := ExpertFacts(rules, w, known, tests, request), PlannedTests(rules, known, tests, request);
      && (r.Ok? ==> CallFits(w, known, request) && planned.Ok?)
      && (CallFits(w, known, request) && planned.Ok? ==>
            r == if request.record.None? then planned
                 else
                   var recorded := RecordOwn(rules, w, planned.value.0, request, request.record.value.0,
                                             request.record.value.1);
                   if recorded.Err? then Err(recorded.error)
                   else Ok((recorded.value.0, planned.value.1 + recorded.value.1)))
  {
  }

  /** A plan is accepted exactly for an Expert WorkOrder, a scope of known hypotheses without the root, an own
      execution if one is named, and drafts that are allowed; it leaves exactly its plans beside the tests
      there were, and reports the new ones as changed. */
  lemma ExpertPlanExactly(rules: Rules, w: World, known: set<string>, tests: map<string, Test>, request: ExpertRequest)
    requires request.record.None?
    ensures var r := ExpertFacts(rules, w, known, tests, request);
      && (r.Ok? <==> CallFits(w, known, request) && PlansAllowed(rules, tests, request))
      && (r.Ok? ==>
            && PlansStand(tests, r.value.0, KeysOf(rules, tests, request.order, request.tests), request.tests,
                          request.order, true)
            && Elements(r.value.1) == r.value.0.Keys - tests.Keys)
  {
    CallIsPlansThenResult(rules, w, known, tests, request);
    if CallFits(w, known, request) {
      PlannedTestsExactly(rules, w, known, tests, request);
    }
  }

  // ---------------------------------------------------------------- the result

  ghost predicate ResultFits(w: World, test: Test, request: ExpertRequest, result: TestResult) {
    && test.workOrder == Some(request.order) && Within(test.plan.targets, request.scope)
    && (request.execution.Some? && test.executionId.Some? ==> test.executionId == request.execution)
    && (forall e :: e in result.evidenceRefs ==> e in w.observations)
    && (test.status == Done ==> test.result == Some(result))
  }

  /** Done with the result; with an execution named, by that one. A result that stands already changes
      nothing. */
  ghost predicate ResultStands(test: Test, test': Test, request: ExpertRequest, result: TestResult) {
    if test.status == Done then test' == test
    else test' == test.(status := Done, result := Some(result),
                        executionId := if request.execution.Some? then request.execution else test.executionId)
  }

  lemma ResultExactly(rules: Rules, w: World, tests: map<string, Test>, request: ExpertRequest, name: string,
                      result: TestResult)
    ensures var r, key := RecordOwn(rules, w, tests, request, name, result),
                          StoredUnder(rules, tests, request.order, name);
      && (r.Ok? <==> key in tests && ResultFits(w, tests[key], request, result))
      && (r.Ok? ==>
            && r.value.0.Keys == tests.Keys && (forall k :: k in tests && k != key ==> r.value.0[k] == tests[k])
            && ResultStands(tests[key], r.value.0[key], request, result)
            && Elements(r.value.1) == if tests[key].status == Done then {} else {key})
  {
    var key := StoredUnder(rules, tests, request.order, name);
    assert OwnTestId(rules, tests, request.order, name) == key;
    if key in tests {
      var targets := tests[key].plan.targets;
      assert Elements(targets) <= request.scope <==> Within(targets, request.scope);
    }
  }

  /** The id a result is stored under: the name given if it is that of an own test, stored or just planned,
      and else the derived one. */
  ghost function ResultKey(rules: Rules, tests: map<string, Test>, request: ExpertRequest, name: string): string {
    if Owns(tests, request.order, name) || name in KeysOf(rules, tests, request.order, request.tests) then name
    else rules.expertTestId(request.order, name)
  }

  /** A just planned test takes a first result; any other one must be an own one that the result fits. */
  ghost predicate ResultAllowed(
      rules: Rules, w: World, tests: map<string, Test>, request: ExpertRequest, name: string, result: TestResult)
  {
    var key := ResultKey(rules, tests, request, name);
    && (forall e :: e in result.evidenceRefs ==> e in w.observations)
    && if key in tests then ResultFits(w, tests[key], request, result)
       else key in KeysOf(rules, tests, request.order, request.tests)
  }

  lemma ResultOnPlans(
      rules: Rules, w: World, tests: map<string, Test>, planned: map<string, Test>, request: ExpertRequest,
      name: string, result: TestResult)
    requires PlansAllowed(rules, tests, request)
    requires PlansStand(tests, planned, KeysOf(rules, tests, request.order, request.tests), request.tests,
                        request.order, false)
    ensures var key := StoredUnder(rules, planned, request.order, name);
      && key == ResultKey(rules, tests, request, name)
      && (key in planned && ResultFits(w, planned[key], request, result)
          <==> ResultAllowed(rules, w, tests, request, name, result))
  {
    var keys := KeysOf(rules, tests, request.order, request.tests);
    assert Owns(planned, request.order, name) <==> Owns(tests, request.order, name) || name in keys;
    var key := ResultKey(rules, tests, request, name);
    if key !in tests && key in keys {
      var i :| 0 <= i < |keys| && keys[i] == key;
      assert NewlyPlanned(planned[key], request.tests[i], key, request.order, false);
      assert Within(request.tests[i].targets, request.scope);
    }
  }

  /** The one result in the tests after the plans, and what has changed since before the call. */
  ghost predicate RecordedOver(
      tests: map<string, Test>, planned: map<string, Test>, tests': map<string, Test>, changed: seq<string>,
      request: ExpertRequest, key: string, result: TestResult)
  {
    && key in planned && key in tests' && ResultStands(planned[key], tests'[key], request, result)
    && tests' == planned[key := tests'[key]]
    && Elements(changed) == (tests'.Keys - tests.Keys) + (if planned[key].status == Done then {} else {key})
  }

  /** What an accepted call with a result leaves: the plans, and the result in the one test it is for. */
  ghost predicate ResultRecorded(
      rules: Rules, tests: map<string, Test>, tests': map<string, Test>, changed: seq<string>, request: ExpertRequest,
      key: string, result: TestResult)
  {
    exists planned: map<string, Test> ::
      && RecordedOver(tests, planned, tests', changed, request, key, result)
      && PlansStand(tests, planned, KeysOf(rules, tests, request.order, request.tests), request.tests, request.order,
                    false)
  }

  lemma ResultIsOver(
      tests: map<string, Test>, planned: map<string, Test>, added: seq<string>, tests': map<string, Test>,
      recorded: seq<string>, request: ExpertRequest, key: string, result: TestResult)
    requires Elements(added) == planned.Keys - tests.Keys
    requires key in planned && tests'.Keys == planned.Keys
    requires (forall k :: k in planned && k != key ==> tests'[k] == planned[k])
             && ResultStands(planned[key], tests'[key], request, result)
    requires Elements(recorded) == if planned[key].status == Done then {} else {key}
    ensures RecordedOver(tests, planned, tests', added + recorded, request, key, result)
  {
    ElementsConcat(added, recorded);
    assert tests' == planned[key := tests'[key]];
  }

  /** A call with a result is accepted exactly when its plans are, and the test the result is for is a just
      planned one or one that the result fits; it leaves exactly the plans and that result. */
  lemma ExpertResultExactly(
      rules: Rules, w: World, known: set<string>, tests: map<string, Test>, request: ExpertRequest, name: string,
      result: TestResult)
    requires request.record == Some((name, result))
    ensures var r := ExpertFacts(rules, w, known, tests, request);
      && (r.Ok? <==>
            && CallFits(w, known, request) && PlansAllowed(rules, tests, request)
            && ResultAllowed(rules, w, tests, request, name, result))
      && (r.Ok? ==> ResultRecorded(rules, tests, r.value.0, r.value.1, request,
                                   ResultKey(rules, tests, request, name), result))
  {
    CallIsPlansThenResult(rules, w, known, tests, request);
    if CallFits(w, known, request) {
      PlannedTestsExactly(rules, w, known, tests, request);
      var plans := PlannedTests(rules, known, tests, request);
      if plans.Ok? {
        var planned := plans.value.0;
        ResultOnPlans(rules, w, tests, planned, request, name, result);
        ResultExactly(rules, w, planned, request, name, result);
        var recorded := RecordOwn(rules, w, planned, request, name, result);
        if recorded.Ok? {
          ResultIsOver(tests, planned, plans.value.1, recorded.value.0, recorded.value.1, request,
                       ResultKey(rules, tests, request, name), result);
        }
      }
    }
  }

  /** Without a stored tree the call saves no tree. */
  lemma ExpertWithoutTree(rules: Rules, w: World, s: State, request: ExpertRequest)
    requires s.tree.None?
    ensures Attempt(rules, w, s, Expert(request)) == Ok(None)
  {
  }

  lemma ChangedMeansChanged(
      rules: Rules, w: World, known: set<string>, tests: map<string, Test>, request: ExpertRequest)
    requires ExpertFacts(rules, w, known, tests, request).Ok?
    ensures var facts := ExpertFacts(rules, w, known, tests, request).value; facts.0 == tests <==> facts.1 == []
  {
    var facts := ExpertFacts(rules, w, known, tests, request).value;
    NoElements(facts.1);
    if request.record.None? {
      ExpertPlanExactly(rules, w, known, tests, request);
      PlannedMeansChanged(tests, facts.0, facts.1, KeysOf(rules, tests, request.order, request.tests), request);
    } else {
      var (name, result) := request.record.value;
      ExpertResultExactly(rules, w, known, tests, request, name, result);
      RecordedMeansChanged(rules, tests, facts.0, facts.1, request, ResultKey(rules, tests, request, name), result);
    }
  }

  /** On a tree the call saves the tests it makes, and saves exactly when a test changed. */
  lemma ExpertSavesExactly(rules: Rules, w: World, s: State, t: Tree, request: ExpertRequest)
    requires OptForest(s.tree) && s.tree == Some(t)
    ensures var facts, saved := ExpertFacts(rules, w, t.hypotheses.Keys, t.tests, request),
                                Attempt(rules, w, s, Expert(request));
      && (saved.Ok? <==> facts.Ok?)
      && (saved.Ok? ==> saved.value == if facts.value.0 == t.tests then None else Some(t.(tests := facts.value.0)))
  {
    if ExpertFacts(rules, w, t.hypotheses.Keys, t.tests, request).Ok? {
      ChangedMeansChanged(rules, w, t.hypotheses.Keys, t.tests, request);
    }
  }

  lemma NothingPlanned(
      tests: map<string, Test>, planned: map<string, Test>, keys: seq<string>, request: ExpertRequest, inAdvance: bool)
    requires |keys| == |request.tests| && PlansStand(tests, planned, keys, request.tests, request.order, inAdvance)
    requires planned.Keys == tests.Keys
    ensures planned == tests
  {
  }

  lemma PlannedMeansChanged(
      tests: map<string, Test>, tests': map<string, Test>, changed: seq<string>, keys: seq<string>,
      request: ExpertRequest)
    requires |keys| == |request.tests| && PlansStand(tests, tests', keys, request.tests, request.order, true)
    requires Elements(changed) == tests'.Keys - tests.Keys
    ensures tests' == tests <==> Elements(changed) == {}
  {
    assert tests.Keys <= tests'.Keys;
    NoNewKeys(tests.Keys, tests'.Keys);
    if tests'.Keys == tests.Keys {
      NothingPlanned(tests, tests', keys, request, true);
    }
  }

  lemma NoElements(ids: seq<string>)
    ensures ids == [] <==> Elements(ids) == {}
  {
    if ids != [] {
      assert ids[0] in Elements(ids);
    }
  }

  lemma NoNewKeys(before: set<string>, now: set<string>)
    requires before <= now
    ensures now - before == {} <==> now == before
  {
    if now - before == {} {
      forall k | k in now ensures k in before {
        assert k !in now - before;
      }
    }
  }

  lemma OverMeansChanged(
      tests: map<string, Test>, planned: map<string, Test>, tests': map<string, Test>, changed: seq<string>,
      keys: seq<string>, request: ExpertRequest, key: string, result: TestResult)
    requires |keys| == |request.tests| && PlansStand(tests, planned, keys, request.tests, request.order, false)
    requires RecordedOver(tests, planned, tests', changed, request, key, result)
    ensures tests' == tests <==> Elements(changed) == {}
  {
    assert tests.Keys <= planned.Keys && planned.Keys == tests'.Keys;
    NoNewKeys(tests.Keys, tests'.Keys);
    if tests'.Keys == tests.Keys {
      NothingPlanned(tests, planned, keys, request, false);
    }
  }

  lemma RecordedMeansChanged(
      rules: Rules, tests: map<string, Test>, tests': map<string, Test>, changed: seq<string>, request: ExpertRequest,
      key: string, result: TestResult)
    requires ResultRecorded(rules, tests, tests', changed, request, key, result)
    ensures tests' == tests <==> Elements(changed) == {}
  {
    var keys := KeysOf(rules, tests, request.order, request.tests);
    var planned: map<string, Test> :|
      && RecordedOver(tests, planned, tests', changed, request, key, result)
      && PlansStand(tests, planned, keys, request.tests, request.order, false);
    OverMeansChanged(tests, planned, tests', changed, keys, request, key, result);
  }

  // ---------------------------------------------------------------- consequences

  /** When no two of its drafts share a key, each new test carries its own draft's name. */
  lemma PlansCarryTheirNames(
      rules: Rules, tests: map<string, Test>, tests': map<string, Test>, request: ExpertRequest, inAdvance: bool,
      i: nat)
    requires PlansStand(tests, tests', KeysOf(rules, tests, request.order, request.tests), request.tests, request.order,
                        inAdvance)
    requires NoDup(KeysOf(rules, tests, request.order, request.tests)) && i < |request.tests|
    ensures var key := StoredUnder(rules, tests, request.order, request.tests[i].id);
      key !in tests ==> key in tests' && tests'[key].localId == Some(request.tests[i].id)
  {
    assert LastAt(KeysOf(rules, tests, request.order, request.tests), i);
  }
}
