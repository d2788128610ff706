/** What every reachable research tree satisfies, and what no later call can undo. */
module ResearchTreeProofs {
  import opened Common
  import opened RootedTree
  import opened ResearchTree

  // ---------------------------------------------------------------- invariants of one tree

  /** All judgments of a hypothesis, oldest first, the present one last. */
  function Chronicle(h: Hypothesis): seq<Judgment> {
    h.history + [h.judgment]
  }

  ghost predicate ChronicleOk(h: Hypothesis) {
    var all := Chronicle(h);
    all[0] == UNJUDGED
    && (forall i :: 0 < i < |all| ==> all[i].byCoordinator && all[i] != all[i - 1])
  }

  ghost predicate DistinctClaims(rules: Rules, hyps: map<string, Hypothesis>) {
    forall a, b :: a in hyps && b in hyps && a != b ==> rules.claimKey(hyps[a].claim) != rules.claimKey(hyps[b].claim)
  }

  ghost predicate LeavesClean(keys: seq<string>, hyps: map<string, Hypothesis>) {
    forall k :: k in hyps && Children(ShapeOf(keys, hyps), k) == [] ==> hyps[k].childrenSummary == None
  }

  ghost predicate HypothesesOk(rules: Rules, keys: seq<string>, hyps: map<string, Hypothesis>) {
    Forest(keys, hyps) && DistinctClaims(rules, hyps) && LeavesClean(keys, hyps)
    && forall k :: k in hyps ==> ChronicleOk(hyps[k])
  }

  /** Every stored summary is the recursive summary of the present subtree. */
  ghost predicate Cached(keys: seq<string>, hyps: map<string, Hypothesis>)
    requires Forest(keys, hyps)
  {
    forall k :: k in hyps ==> hyps[k].childrenSummary == Summary(keys, hyps, k)
  }

  ghost predicate TestOk(known: set<string>, id: string, t: Test) {
    && t.plan.id == id
    && (t.status == Done <==> t.result.Some?)
    && (t.status == Todo || t.status == Running ==> t.plan.feasible)
    && TargetsKnown(t.plan.targets, known)
  }

  ghost predicate TestsOk(known: set<string>, tests: map<string, Test>) {
    forall id :: id in tests ==> TestOk(known, id, tests[id])
  }

  /** An `established` judgment names a stored test of this hypothesis and of at least one other. */
  ghost predicate Cites(k: string, j: Judgment, tests: map<string, Test>) {
    j.status == Established ==>
      && j.testId.Some? && j.testId.value in tests
      && k in tests[j.testId.value].plan.targets
      && |Elements(tests[j.testId.value].plan.targets)| >= 2
  }

  ghost predicate AllCite(hyps: map<string, Hypothesis>, tests: map<string, Test>) {
    forall k, i :: k in hyps && 0 <= i < |Chronicle(hyps[k])| ==> Cites(k, Chronicle(hyps[k])[i], tests)
  }

  ghost predicate BudgetOk(t: Tree) {
    NoDup(t.charged) && t.executionsUsed == |t.charged| && t.executionsUsed <= t.executionBudget
  }

  predicate Final(exit: Exit) {
    exit == Answered || exit == UnableToAnswer || exit == IdeasDelivered
  }

  ghost predicate StopOk(t: Tree) {
    && (t.paused <==> t.stop.Some?)
    && (t.stop.Some? ==> (t.stop.value.questionResolved <==> t.stop.value.exit == Answered))
    && (t.stop.Some? && Final(t.stop.value.exit) ==> !AnyRunning(t.tests))
    && (t.stopRequest.Some? ==> t.paused)
  }

  ghost predicate Inv(rules: Rules, t: Tree) {
    && HypothesesOk(rules, t.keys, t.hypotheses)
    && Cached(t.keys, t.hypotheses)
    && TestsOk(t.hypotheses.Keys, t.tests)
    && AllCite(t.hypotheses, t.tests)
    && BudgetOk(t)
    && StopOk(t)
  }

  ghost predicate StateInv(rules: Rules, s: State) {
    if s.tree.None? then s.revision == 0
    else s.revision > 0 && s.tree.value.revision == s.revision && Inv(rules, s.tree.value)
  }

  // ---------------------------------------------------------------- what only grows

  function Rank(s: TestStatus): nat {
    match s
    case Todo => 0
    case Running => 1
    case Infeasible => 2
    case Done => 3
  }

  ghost predicate TestAdvances(t: Test, t': Test) {
    && t'.plan.id == t.plan.id && t'.plan.targets == t.plan.targets && t'.plan.design == t.plan.design
    && t'.workOrder == t.workOrder && t'.registered == t.registered
    && Rank(t.status) <= Rank(t'.status)
    && (t.status == Done ==> t'.result == t.result)
  }

  ghost predicate TestsAdvance(tests: map<string, Test>, tests': map<string, Test>) {
    forall id :: id in tests ==> id in tests' && TestAdvances(tests[id], tests'[id])
  }

  ghost predicate HypothesisAdvances(h: Hypothesis, h': Hypothesis) {
    h'.claim == h.claim && h'.relation == h.relation && h'.parent == h.parent && Chronicle(h) <= Chronicle(h')
  }

  ghost predicate HypothesesAdvance(
      keys: seq<string>, hyps: map<string, Hypothesis>, keys': seq<string>, hyps': map<string, Hypothesis>)
  {
    keys <= keys' && forall k :: k in hyps ==> k in hyps' && HypothesisAdvances(hyps[k], hyps'[k])
  }

  ghost predicate TreeAdvances(t: Tree, t': Tree) {
    && t'.goal == t.goal
    && HypothesesAdvance(t.keys, t.hypotheses, t'.keys, t'.hypotheses)
    && TestsAdvance(t.tests, t'.tests)
    && t.charged <= t'.charged
  }

  /** Later in the same run: same tree under the same revision, or a grown tree under a larger one. */
  ghost predicate Later(s: State, s': State) {
    && s.revision <= s'.revision
    && (s.revision == s'.revision ==> s' == s)
    && (s.tree.Some? ==> s'.tree.Some? && TreeAdvances(s.tree.value, s'.tree.value))
  }

  lemma TreeAdvancesTransitive(a: Tree, b: Tree, c: Tree)
    requires TreeAdvances(a, b) && TreeAdvances(b, c)
    ensures TreeAdvances(a, c)
  {
    forall k | k in a.hypotheses ensures k in c.hypotheses && HypothesisAdvances(a.hypotheses[k], c.hypotheses[k]) {
      assert HypothesisAdvances(a.hypotheses[k], b.hypotheses[k]);
      assert HypothesisAdvances(b.hypotheses[k], c.hypotheses[k]);
    }
    forall id | id in a.tests ensures id in c.tests && TestAdvances(a.tests[id], c.tests[id]) {
      assert TestAdvances(a.tests[id], b.tests[id]) && TestAdvances(b.tests[id], c.tests[id]);
    }
  }

  // ---------------------------------------------------------------- hypotheses

  lemma ChildrenStay(
      keys: seq<string>, hyps: map<string, Hypothesis>, parent: string, draft: HypothesisDraft, k: string)
    requires draft.id !in hyps
    ensures Children(ShapeOf(keys + [draft.id], hyps[draft.id := NewHypothesis(draft, parent)]), k) == [] ==>
            Children(ShapeOf(keys, hyps), k) == []
  {
    var s, s' := ShapeOf(keys, hyps), ShapeOf(keys + [draft.id], hyps[draft.id := NewHypothesis(draft, parent)]);
    ChildWitness(s, k);
    ChildWitness(s', k);
    assert forall c :: c in keys && c in s.parent ==> c in s'.keys && c in s'.parent && s'.parent[c] == s.parent[c];
  }

  lemma LeavesStayClean(keys: seq<string>, hyps: map<string, Hypothesis>, parent: string, draft: HypothesisDraft)
    requires LeavesClean(keys, hyps) && draft.id !in hyps
    ensures LeavesClean(keys + [draft.id], hyps[draft.id := NewHypothesis(draft, parent)])
  {
    var keys', hyps' := keys + [draft.id], hyps[draft.id := NewHypothesis(draft, parent)];
    forall k | k in hyps' && Children(ShapeOf(keys', hyps'), k) == [] ensures hyps'[k].childrenSummary == None {
      ChildrenStay(keys, hyps, parent, draft, k);
    }
  }

  lemma ClaimKeysGrow(rules: Rules, hyps: map<string, Hypothesis>, id: string, h: Hypothesis)
    requires id !in hyps
    ensures ClaimKeys(rules, hyps[id := h]) == ClaimKeys(rules, hyps) + {rules.claimKey(h.claim)}
    ensures DistinctClaims(rules, hyps) && rules.claimKey(h.claim) !in ClaimKeys(rules, hyps) ==>
              DistinctClaims(rules, hyps[id := h])
  {
    var hyps' := hyps[id := h];
    assert hyps'[id] == h;
    forall x | x in ClaimKeys(rules, hyps) ensures x in ClaimKeys(rules, hyps') {
      var k :| k in hyps && rules.claimKey(hyps[k].claim) == x;
      assert hyps'[k] == hyps[k];
    }
    forall a | a in hyps ensures rules.claimKey(hyps[a].claim) in ClaimKeys(rules, hyps) {
    }
  }

  lemma OneHypothesisKeeps(
      rules: Rules, keys: seq<string>, hyps: map<string, Hypothesis>, parent: string, draft: HypothesisDraft)
    requires HypothesesOk(rules, keys, hyps) && parent in hyps
    requires draft.id !in hyps && rules.claimKey(draft.claim) !in ClaimKeys(rules, hyps)
    ensures HypothesesOk(rules, keys + [draft.id], hyps[draft.id := NewHypothesis(draft, parent)])
  {
    ForestGrows(keys, hyps, parent, draft);
    LeavesStayClean(keys, hyps, parent, draft);
    ClaimKeysGrow(rules, hyps, draft.id, NewHypothesis(draft, parent));
  }

  /** Old hypotheses are untouched, new ones stand unjudged at the end. */
  ghost predicate Grown(
      keys: seq<string>, hyps: map<string, Hypothesis>, keys': seq<string>, hyps': map<string, Hypothesis>)
  {
    && keys <= keys'
    && (forall k :: k in hyps ==> k in hyps' && hyps'[k] == hyps[k])
    && (forall k :: k in hyps' && k !in hyps ==> Chronicle(hyps'[k]) == [UNJUDGED])
  }

  lemma GrownStep(keys: seq<string>, hyps: map<string, Hypothesis>, draft: HypothesisDraft, parent: string,
                  keys': seq<string>, hyps': map<string, Hypothesis>)
    requires draft.id !in hyps
    requires Grown(keys + [draft.id], hyps[draft.id := NewHypothesis(draft, parent)], keys', hyps')
    ensures Grown(keys, hyps, keys', hyps')
  {
    var hyps1 := hyps[draft.id := NewHypothesis(draft, parent)];
    forall k | k in hyps ensures k in hyps' && hyps'[k] == hyps[k] {
      assert hyps1[k] == hyps[k];
    }
    assert Chronicle(hyps1[draft.id]) == [UNJUDGED];
  }

  lemma OneDraft(
      rules: Rules, keys: seq<string>, hyps: map<string, Hypothesis>, parent: string, drafts: seq<HypothesisDraft>)
    requires HypothesesOk(rules, keys, hyps) && parent in hyps && drafts != []
    requires AddHypotheses(rules, keys, hyps, ClaimKeys(rules, hyps), parent, drafts).Ok?
    ensures var keys', hyps' := keys + [drafts[0].id], hyps[drafts[0].id := NewHypothesis(drafts[0], parent)];
      && drafts[0].id !in hyps && HypothesesOk(rules, keys', hyps')
      && AddHypotheses(rules, keys, hyps, ClaimKeys(rules, hyps), parent, drafts)
         == AddHypotheses(rules, keys', hyps', ClaimKeys(rules, hyps'), parent, drafts[1..])
  {
    OneHypothesisKeeps(rules, keys, hyps, parent, drafts[0]);
    ClaimKeysGrow(rules, hyps, drafts[0].id, NewHypothesis(drafts[0], parent));
  }

  lemma {:induction false} AddHypothesesKeeps(
    rules: Rules, keys: seq<string>, hyps: map<string, Hypothesis>, parent: string, drafts: seq<HypothesisDraft>)
    requires HypothesesOk(rules, keys, hyps) && parent in hyps
    requires AddHypotheses(rules, keys, hyps, ClaimKeys(rules, hyps), parent, drafts).Ok?
    ensures var r := AddHypotheses(rules, keys, hyps, ClaimKeys(rules, hyps), parent, drafts).value;
      HypothesesOk(rules, r.0, r.1) && Grown(keys, hyps, r.0, r.1)
    decreases |drafts|
  {
    if drafts != [] {
      var keys', hyps' := keys + [drafts[0].id], hyps[drafts[0].id := NewHypothesis(drafts[0], parent)];
      OneDraft(rules, keys, hyps, parent, drafts);
      AddHypothesesKeeps(rules, keys', hyps', parent, drafts[1..]);
      var r := AddHypotheses(rules, keys', hyps', ClaimKeys(rules, hyps'), parent, drafts[1..]).value;
      GrownStep(keys, hyps, drafts[0], parent, r.0, r.1);
    }
  }

  /** Only judgments, parents and the stored summaries of leaves enter a summary. */
  lemma {:induction false} SummaryAgrees(
      keys: seq<string>, hyps: map<string, Hypothesis>, hyps': map<string, Hypothesis>, k: string)
    requires Forest(keys, hyps) && Forest(keys, hyps') && ShapeOf(keys, hyps') == ShapeOf(keys, hyps) && k in hyps
    requires forall c :: c in hyps ==> c in hyps' && hyps'[c].judgment == hyps[c].judgment
    requires forall c :: c in hyps && Children(ShapeOf(keys, hyps), c) == [] ==>
      hyps'[c].childrenSummary == hyps[c].childrenSummary
    ensures Summary(keys, hyps', k) == Summary(keys, hyps, k)
    decreases |keys| - Index(keys, k)
  {
    var cs := Children(ShapeOf(keys, hyps), k);
    forall c | c in cs ensures c in hyps && Summary(keys, hyps', c) == Summary(keys, hyps, c) {
      ChildIsLater(keys, hyps, k, c);
      SummaryAgrees(keys, hyps, hyps', c);
    }
    if cs != [] {
      var lines := seq(|cs|, i requires 0 <= i < |cs| =>
        (ChildIsLater(keys, hyps, k, cs[i]);
         Line(cs[i], hyps[cs[i]].judgment, Summary(keys, hyps, cs[i]))));
      var lines' := seq(|cs|, i requires 0 <= i < |cs| =>
        (ChildIsLater(keys, hyps', k, cs[i]);
         Line(cs[i], hyps'[cs[i]].judgment, Summary(keys, hyps', cs[i]))));
      forall i | 0 <= i < |cs| ensures lines'[i] == lines[i] {
        assert cs[i] in cs;
      }
      assert lines' == lines;
    }
  }

  /** Recomputing every summary makes every stored summary right, and changes nothing else. */
  lemma SyncedIsCached(rules: Rules, keys: seq<string>, hyps: map<string, Hypothesis>)
    requires HypothesesOk(rules, keys, hyps)
    ensures HypothesesOk(rules, keys, Synced(keys, hyps)) && Cached(keys, Synced(keys, hyps))
    ensures Synced(keys, hyps).Keys == hyps.Keys
    ensures forall k :: k in hyps ==>
      Synced(keys, hyps)[k] == hyps[k].(childrenSummary := Synced(keys, hyps)[k].childrenSummary)
  {
    var out := Synced(keys, hyps);
    forall k | k in hyps ensures out[k] == Refreshed(keys, hyps, k) {
    }
    SameParents(keys, hyps, out);
    forall k | k in hyps ensures Summary(keys, out, k) == Summary(keys, hyps, k) {
      SummaryAgrees(keys, hyps, out, k);
    }
    forall k | k in hyps ensures ChronicleOk(out[k]) {
      assert ChronicleOk(hyps[k]) && Chronicle(out[k]) == Chronicle(hyps[k]);
    }
  }

  // ---------------------------------------------------------------- tests

  ghost predicate NoNewRunning(tests: map<string, Test>, tests': map<string, Test>) {
    forall id :: id in tests' && tests'[id].status == Running ==> id in tests && tests[id].status == Running
  }

  lemma {:induction false} AddTestsKeeps(
      known: set<string>, tests: map<string, Test>, added: seq<string>, drafts: seq<TestDraft>, order: Option<string>,
      retrospective: bool)
    requires TestsOk(known, tests)
    requires AddTests(known, tests, added, drafts, order, retrospective).Ok?
    ensures var r := AddTests(known, tests, added, drafts, order, retrospective).value;
      && TestsOk(known, r.0)
      && added <= r.1
      && (forall id :: id in tests ==> id in r.0 && r.0[id] == tests[id])
      && (forall id :: id in r.0 && id !in tests ==>
            id in r.1 && r.0[id].status != Running && r.0[id].workOrder == order && r.0[id].plan in drafts)
      && (forall id :: id in r.1 && id !in added ==> id in r.0 && id !in tests)
    decreases |drafts|
  {
    if drafts != [] {
      var draft := drafts[0];
      if draft.id in tests {
        AddTestsKeeps(known, tests, added, drafts[1..], order, retrospective);
      } else {
        var tests' := tests[draft.id := NewTest(draft, order, retrospective)];
        AddTestsKeeps(known, tests', added + [draft.id], drafts[1..], order, retrospective);
        assert (added + [draft.id])[|added|] == draft.id;
      }
    }
  }

  lemma KnownGrows(known: set<string>, known': set<string>, tests: map<string, Test>)
    requires TestsOk(known, tests) && known <= known'
    ensures TestsOk(known', tests)
  {
    forall id | id in tests ensures TestOk(known', id, tests[id]) {
      assert TestOk(known, id, tests[id]);
    }
  }

  lemma AllCiteGrows(
      keys: seq<string>, hyps: map<string, Hypothesis>, keys': seq<string>, hyps': map<string, Hypothesis>,
      tests: map<string, Test>, tests': map<string, Test>)
    requires AllCite(hyps, tests) && TestsAdvance(tests, tests') && Grown(keys, hyps, keys', hyps')
    ensures AllCite(hyps', tests')
  {
    forall k, i | k in hyps' && 0 <= i < |Chronicle(hyps'[k])| ensures Cites(k, Chronicle(hyps'[k])[i], tests') {
      if k in hyps {
        var j := Chronicle(hyps[k])[i];
        assert Cites(k, j, tests);
        if j.status == Established {
          assert TestAdvances(tests[j.testId.value], tests'[j.testId.value]);
        }
      }
    }
  }

  // ---------------------------------------------------------------- each way to save a tree

  /** Saving `changed` with recomputed summaries keeps the invariant and undoes nothing. */
  ghost predicate Kept(rules: Rules, t: Tree, changed: Tree) {
    TreeForest(changed) && Inv(rules, SyncTree(changed)) && TreeAdvances(t, SyncTree(changed))
  }

  /** The part of the invariant that saving without a change of hypotheses has to re-establish. */
  lemma OnlyTestsChange(rules: Rules, t: Tree, t': Tree)
    requires Inv(rules, t)
    requires t'.keys == t.keys && t'.hypotheses == t.hypotheses && t'.goal == t.goal
    requires TestsOk(t.hypotheses.Keys, t'.tests) && TestsAdvance(t.tests, t'.tests)
    requires t.charged <= t'.charged && BudgetOk(t') && StopOk(t')
    ensures Inv(rules, t') && TreeAdvances(t, t')
  {
    assert Grown(t.keys, t.hypotheses, t.keys, t.hypotheses);
    AllCiteGrows(t.keys, t.hypotheses, t.keys, t.hypotheses, t.tests, t'.tests);
  }

  /** Growing the tree and adding tests, then recomputing the summaries. */
  lemma GrowthKeeps(rules: Rules, t: Tree, grown: Tree)
    requires Inv(rules, t) && !t.paused
    requires HypothesesOk(rules, grown.keys, grown.hypotheses)
    requires Grown(t.keys, t.hypotheses, grown.keys, grown.hypotheses)
    requires TestsOk(grown.hypotheses.Keys, grown.tests) && TestsAdvance(t.tests, grown.tests)
    requires grown.goal == t.goal && grown.charged == t.charged && BudgetOk(grown)
    requires grown.paused == t.paused && grown.stop == t.stop && grown.stopRequest == t.stopRequest
    ensures Kept(rules, t, grown)
  {
    AllCiteGrows(t.keys, t.hypotheses, grown.keys, grown.hypotheses, t.tests, grown.tests);
    SyncKeeps(rules, t, grown);
  }

  lemma AddTestsAdvance(
      known: set<string>, tests: map<string, Test>, drafts: seq<TestDraft>, order: Option<string>,
      retrospective: bool)
    requires TestsOk(known, tests)
    requires AddTests(known, tests, [], drafts, order, retrospective).Ok?
    ensures var r := AddTests(known, tests, [], drafts, order, retrospective).value;
      TestsOk(known, r.0) && TestsAdvance(tests, r.0) && NoNewRunning(tests, r.0)
  {
    AddTestsKeeps(known, tests, [], drafts, order, retrospective);
  }

  lemma AddBothKeeps(
      rules: Rules, t: Tree, noted: Tree, parent: string, candidates: seq<HypothesisDraft>, tests: seq<TestDraft>)
    requires Inv(rules, t) && !t.paused && noted == t.(reflections := noted.reflections)
    requires AddBoth(rules, noted, parent, candidates, tests).Ok?
    ensures var grown := AddBoth(rules, noted, parent, candidates, tests).value;
      Kept(rules, t, grown)
  {
    AddHypothesesKeeps(rules, t.keys, t.hypotheses, parent, candidates);
    var hs := NewHypotheses(rules, t.keys, t.hypotheses, parent, candidates).value;
    KnownGrows(t.hypotheses.Keys, hs.1.Keys, t.tests);
    AddTestsAdvance(hs.1.Keys, t.tests, tests, None, false);
    GrowthKeeps(rules, t, AddBoth(rules, noted, parent, candidates, tests).value);
  }

  lemma AddTestsOnlyKeeps(rules: Rules, t: Tree, noted: Tree, tests: seq<TestDraft>)
    requires Inv(rules, t) && !t.paused && noted == t.(reflections := noted.reflections)
    requires AddTestsOnly(noted, tests).Ok?
    ensures var grown := AddTestsOnly(noted, tests).value;
      Kept(rules, t, grown)
  {
    AddTestsAdvance(t.hypotheses.Keys, t.tests, tests, None, false);
    assert Grown(t.keys, t.hypotheses, t.keys, t.hypotheses);
    GrowthKeeps(rules, t, AddTestsOnly(noted, tests).value);
  }

  lemma OneTestKeeps(rules: Rules, t: Tree, id: string, test: Test)
    requires Inv(rules, t) && !t.paused && id in t.tests
    requires TestOk(t.hypotheses.Keys, id, test) && TestAdvances(t.tests[id], test)
    ensures var changed := t.(tests := t.tests[id := test]);
      Kept(rules, t, changed)
  {
    var changed := t.(tests := t.tests[id := test]);
    assert Grown(t.keys, t.hypotheses, t.keys, t.hypotheses);
    GrowthKeeps(rules, t, changed);
  }

  lemma SetStatusKeeps(h: Hypothesis, updated: Judgment)
    requires ChronicleOk(h) && updated.byCoordinator
    ensures ChronicleOk(SetStatus(h, updated)) && HypothesisAdvances(h, SetStatus(h, updated))
    ensures SetStatus(h, updated).judgment == updated
    ensures forall i :: 0 <= i < |Chronicle(SetStatus(h, updated))| ==>
              || Chronicle(SetStatus(h, updated))[i] == updated
              || (i < |Chronicle(h)| && Chronicle(SetStatus(h, updated))[i] == Chronicle(h)[i])
  {
    if h.judgment != updated {
      assert Chronicle(SetStatus(h, updated)) == Chronicle(h) + [updated];
    }
  }

  lemma JudgedHypothesesOk(
      rules: Rules, keys: seq<string>, hyps: map<string, Hypothesis>, node: string, updated: Judgment)
    requires HypothesesOk(rules, keys, hyps) && node in hyps && updated.byCoordinator
    ensures HypothesesOk(rules, keys, hyps[node := SetStatus(hyps[node], updated)])
  {
    var hyps' := hyps[node := SetStatus(hyps[node], updated)];
    assert ChronicleOk(hyps[node]);
    SetStatusKeeps(hyps[node], updated);
    SameParents(keys, hyps, hyps');
    assert forall k :: k in hyps ==>
      hyps'[k].claim == hyps[k].claim && hyps'[k].childrenSummary == hyps[k].childrenSummary;
    assert LeavesClean(keys, hyps');
    assert DistinctClaims(rules, hyps');
  }

  lemma JudgedCite(hyps: map<string, Hypothesis>, tests: map<string, Test>, node: string, updated: Judgment)
    requires AllCite(hyps, tests) && node in hyps && ChronicleOk(hyps[node]) && updated.byCoordinator
    requires Cites(node, updated, tests)
    ensures AllCite(hyps[node := SetStatus(hyps[node], updated)], tests)
  {
    SetStatusKeeps(hyps[node], updated);
    var hyps' := hyps[node := SetStatus(hyps[node], updated)];
    forall k, i | k in hyps' && 0 <= i < |Chronicle(hyps'[k])| ensures Cites(k, Chronicle(hyps'[k])[i], tests) {
      if k != node || Chronicle(hyps'[k])[i] != updated {
        assert Cites(k, Chronicle(hyps[k])[i], tests);
      }
    }
  }

  lemma JudgedTree(world: World, t: Tree, node: string, updated: Judgment)
    requires updated.evidenceRefs.Some? && AdjudicateTree(world, t, node, updated).Ok?
    ensures node in t.hypotheses && Cites(node, updated, t.tests)
    ensures AdjudicateTree(world, t, node, updated).value
         == t.(hypotheses := t.hypotheses[node := SetStatus(t.hypotheses[node], updated)])
  {
  }

  /** Judging: one chronicle grows by one entry that differs from the last and cites what it must. */
  lemma AdjudicationKeeps(rules: Rules, world: World, t: Tree, node: string, updated: Judgment)
    requires Inv(rules, t) && !t.paused && updated.byCoordinator && updated.evidenceRefs.Some?
    requires AdjudicateTree(world, t, node, updated).Ok?
    ensures Kept(rules, t, AdjudicateTree(world, t, node, updated).value)
  {
    JudgedTree(world, t, node, updated);
    JudgingKeeps(rules, t, node, updated);
  }

  lemma JudgingKeeps(rules: Rules, t: Tree, node: string, updated: Judgment)
    requires Inv(rules, t) && !t.paused && updated.byCoordinator
    requires node in t.hypotheses && Cites(node, updated, t.tests)
    ensures Kept(rules, t, t.(hypotheses := t.hypotheses[node := SetStatus(t.hypotheses[node], updated)]))
  {
    var judged := t.(hypotheses := t.hypotheses[node := SetStatus(t.hypotheses[node], updated)]);
    JudgedHypothesesOk(rules, t.keys, t.hypotheses, node, updated);
    assert ChronicleOk(t.hypotheses[node]);
    JudgedCite(t.hypotheses, t.tests, node, updated);
    JudgedAdvances(t, node, updated, judged);
    SyncKeeps(rules, t, judged);
  }

  lemma JudgedAdvances(t: Tree, node: string, updated: Judgment, judged: Tree)
    requires node in t.hypotheses && ChronicleOk(t.hypotheses[node]) && updated.byCoordinator
    requires judged == t.(hypotheses := t.hypotheses[node := SetStatus(t.hypotheses[node], updated)])
    ensures TreeAdvances(t, judged) && judged.hypotheses.Keys == t.hypotheses.Keys
  {
    SetStatusKeeps(t.hypotheses[node], updated);
  }

  /** Recomputing the summaries of a tree that satisfies everything else. */
  lemma SyncKeeps(rules: Rules, t: Tree, t': Tree)
    requires HypothesesOk(rules, t'.keys, t'.hypotheses) && AllCite(t'.hypotheses, t'.tests)
    requires TestsOk(t'.hypotheses.Keys, t'.tests) && BudgetOk(t') && StopOk(t')
    requires TreeAdvances(t, t')
    ensures Kept(rules, t, t')
  {
    var synced := SyncTree(t');
    SyncedIsCached(rules, t'.keys, t'.hypotheses);
    assert synced.hypotheses.Keys == t'.hypotheses.Keys;
    forall k | k in t'.hypotheses ensures Chronicle(synced.hypotheses[k]) == Chronicle(t'.hypotheses[k]) {
    }
    forall k, i | k in synced.hypotheses && 0 <= i < |Chronicle(synced.hypotheses[k])|
      ensures Cites(k, Chronicle(synced.hypotheses[k])[i], synced.tests)
    {
      assert Cites(k, Chronicle(t'.hypotheses[k])[i], t'.tests);
    }
    forall k | k in t.hypotheses
      ensures k in synced.hypotheses && HypothesisAdvances(t.hypotheses[k], synced.hypotheses[k])
    {
      assert HypothesisAdvances(t.hypotheses[k], t'.hypotheses[k]);
    }
  }

  lemma MarkKeeps(rules: Rules, t: Tree, testId: string, reason: string)
    requires Inv(rules, t) && !t.paused && MarkTree(t, testId, reason).Ok?
    ensures var t' := MarkTree(t, testId, reason).value;
      Kept(rules, t, t')
  {
    var test := t.tests[testId];
    assert TestOk(t.hypotheses.Keys, testId, test);
    OneTestKeeps(rules, t, testId,
      test.(plan := test.plan.(feasible := false, infeasibleReason := Some(reason)), status := Infeasible));
  }

  lemma RecordKeeps(rules: Rules, world: World, t: Tree, testId: string, result: TestResult)
    requires Inv(rules, t) && !t.paused
    requires RecordTree(world, t, testId, result).Ok? && RecordTree(world, t, testId, result).value.Some?
    ensures Kept(rules, t, RecordTree(world, t, testId, result).value.value)
  {
    assert TestOk(t.hypotheses.Keys, testId, t.tests[testId]);
    OneTestKeeps(rules, t, testId, RecordResult(world, t.tests[testId], result).value.0);
  }

  lemma ReflectKeeps(
    rules: Rules, t: Tree, reflection: Reflection, candidates: seq<HypothesisDraft>, tests: seq<TestDraft>)
    requires Inv(rules, t) && !t.paused
    requires ReflectTree(rules, t, reflection, candidates, tests).Ok?
    ensures Kept(rules, t, ReflectTree(rules, t, reflection, candidates, tests).value)
  {
    var noted := t.(reflections := t.reflections + [reflection]);
    if candidates == [] {
      AddTestsOnlyKeeps(rules, t, noted, tests);
    } else {
      AddBothKeeps(rules, t, noted, ROOT, candidates, tests);
    }
  }

  lemma TestActionsKeep(rules: Rules, world: World, t: Tree, request: Request)
    requires Inv(rules, t) && !t.paused && (request.PlanTest? || request.MarkInfeasible? || request.Record?)
    requires Research(rules, world, t, request).Ok? && Research(rules, world, t, request).value.Some?
    ensures Kept(rules, t, Research(rules, world, t, request).value.value)
  {
    match request
    case PlanTest(tests) => AddTestsOnlyKeeps(rules, t, t, tests);
    case MarkInfeasible(testId, reason) => MarkKeeps(rules, t, testId, reason);
    case Record(testId, result) => RecordKeeps(rules, world, t, testId, result);
  }

  lemma GrowthActionsKeep(rules: Rules, world: World, t: Tree, request: Request)
    requires Inv(rules, t) && !t.paused && (request.Propose? || request.Reflect?)
    requires Research(rules, world, t, request).Ok? && Research(rules, world, t, request).value.Some?
    ensures Kept(rules, t, Research(rules, world, t, request).value.value)
  {
    match request
    case Propose(node, candidates, tests) => AddBothKeeps(rules, t, t, node, candidates, tests);
    case Reflect(reflection, candidates, tests) => ReflectKeeps(rules, t, reflection, candidates, tests);
  }

  lemma AdjudicationActionKeeps(rules: Rules, world: World, t: Tree, request: Request)
    requires Inv(rules, t) && !t.paused && request.Adjudicate?
    requires Research(rules, world, t, request).Ok? && Research(rules, world, t, request).value.Some?
    ensures Kept(rules, t, Research(rules, world, t, request).value.value)
  {
    var updated := Judgment(request.status, request.summary, Some(request.evidenceRefs), request.cited, true);
    AdjudicationKeeps(rules, world, t, request.node, updated);
  }

  lemma ResearchKeeps(rules: Rules, world: World, t: Tree, request: Request)
    requires Inv(rules, t) && !t.paused
    requires Research(rules, world, t, request).Ok? && Research(rules, world, t, request).value.Some?
    ensures Kept(rules, t, Research(rules, world, t, request).value.value)
  {
    if request.PlanTest? || request.MarkInfeasible? || request.Record? {
      TestActionsKeep(rules, world, t, request);
    } else if request.Adjudicate? {
      AdjudicationActionKeeps(rules, world, t, request);
    } else {
      GrowthActionsKeep(rules, world, t, request);
    }
  }
}
