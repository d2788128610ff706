/** What the archived tree's statistics, pending set, recommendation and actions promise. */
module LegacyProofs {
  import opened Common
  import opened RootedTree
  import opened Legacy

  // ---------------------------------------------------------------- statistics

  /** The nodes that count, in order. */
  function Counted(order: seq<string>, below: map<string, Experiment>): seq<string> {
    if order == [] then []
    else
      var front, k := order[..|order| - 1], order[|order| - 1];
      Counted(front, below) + if k in below && TallyOver(front, below).seen !! below[k].ids then [k] else []
  }

  function TotalReward(ks: seq<string>, below: map<string, Experiment>): real {
    if ks == [] then 0.0
    else
      var k := ks[|ks| - 1];
      TotalReward(ks[..|ks| - 1], below) + if k in below then below[k].reward else 0.0
  }

  /** Every experiment reported by a node of `order`. */
  ghost function Pool(order: seq<string>, below: map<string, Experiment>): set<string> {
    set k, x | k in order && k in below && x in below[k].ids :: x
  }

  lemma PoolGrows(front: seq<string>, k: string, below: map<string, Experiment>)
    ensures Pool(front + [k], below) == Pool(front, below) + if k in below then below[k].ids else {}
  {
  }

  lemma CountedGrows(front: seq<string>, k: string, below: map<string, Experiment>)
    ensures Counted(front + [k], below)
         == Counted(front, below) + if k in below && TallyOver(front, below).seen !! below[k].ids then [k] else []
  {
    var all := front + [k];
    assert all[..|all| - 1] == front && all[|all| - 1] == k;
  }

  lemma TotalGrows(front: seq<string>, k: string, below: map<string, Experiment>)
    ensures TotalReward(front + [k], below) == TotalReward(front, below) + if k in below then below[k].reward else 0.0
  {
    var all := front + [k];
    assert all[..|all| - 1] == front && all[|all| - 1] == k;
  }

  lemma {:induction false} CountedReports(order: seq<string>, below: map<string, Experiment>, k: string)
    requires k in Counted(order, below)
    ensures k in order && k in below
  {
    var front, last := order[..|order| - 1], order[|order| - 1];
    if k in Counted(front, below) {
      CountedReports(front, below, k);
    }
  }

  lemma {:induction false} TallyMeaning(order: seq<string>, below: map<string, Experiment>)
    ensures var y, ks := TallyOver(order, below), Counted(order, below);
      y.attempts == |ks| && y.reward == TotalReward(ks, below) && y.seen == Pool(order, below)
  {
    if order != [] {
      var front, k := order[..|order| - 1], order[|order| - 1];
      TakeOneMore(order, |order| - 1);
      TallyMeaning(front, below);
      PoolGrows(front, k, below);
      TotalGrows(Counted(front, below), k, below);
      assert Counted(front, below) + [] == Counted(front, below);
    }
  }

  /** `order[i]` shares no experiment with an earlier report. */
  ghost predicate Novel(order: seq<string>, below: map<string, Experiment>, i: nat)
    requires i < |order|
  {
    order[i] in below && forall j :: 0 <= j < i && order[j] in below ==> below[order[j]].ids !! below[order[i]].ids
  }

  lemma NovelStays(front: seq<string>, k: string, below: map<string, Experiment>, i: nat)
    requires i < |front|
    ensures Novel(front + [k], below, i) <==> Novel(front, below, i)
  {
    assert forall j :: 0 <= j < |front| ==> (front + [k])[j] == front[j];
  }

  lemma NewestCounts(front: seq<string>, k: string, below: map<string, Experiment>)
    requires k !in front
    ensures k in Counted(front + [k], below) <==> Novel(front + [k], below, |front|)
  {
    CountedGrows(front, k, below);
    TallyMeaning(front, below);
    if k in Counted(front, below) {
      CountedReports(front, below, k);
    }
    var order := front + [k];
    if k in below {
      if Pool(front, below) !! below[k].ids {
        forall j | 0 <= j < |front| && order[j] in below ensures below[order[j]].ids !! below[k].ids {
          assert front[j] in front;
        }
      } else {
        var x :| x in Pool(front, below) && x in below[k].ids;
        var r :| r in front && r in below && x in below[r].ids;
        var j :| 0 <= j < |front| && front[j] == r;
        assert order[j] == r;
      }
    }
  }

  /** A node counts exactly when it reports and shares no experiment with a report before it. */
  lemma {:induction false} CountedExactly(order: seq<string>, below: map<string, Experiment>, i: nat)
    requires NoDup(order) && i < |order|
    ensures order[i] in Counted(order, below) <==> Novel(order, below, i)
    decreases |order|
  {
    var front, k := order[..|order| - 1], order[|order| - 1];
    assert order == front + [k];
    if i < |front| {
      CountedExactly(front, below, i);
      NovelStays(front, k, below, i);
      CountedGrows(front, k, below);
    } else {
      NewestCounts(front, k, below);
    }
  }

  /** Attempts never exceed the distinct experiments; with one identity per report they are equal. */
  lemma {:induction false} AttemptsAreExperiments(order: seq<string>, below: map<string, Experiment>)
    requires forall k :: k in below ==> below[k].ids != {}
    ensures TallyOver(order, below).attempts <= |Pool(order, below)|
    ensures (forall k :: k in order && k in below ==> |below[k].ids| == 1) ==>
      TallyOver(order, below).attempts == |Pool(order, below)|
  {
    if order != [] {
      var front, k := order[..|order| - 1], order[|order| - 1];
      TakeOneMore(order, |order| - 1);
      AttemptsAreExperiments(front, below);
      TallyMeaning(front, below);
      PoolGrows(front, k, below);
      TallyGrows(front, k, below);
      if k in below {
        UnionSize(TallyOver(front, below).seen, below[k].ids);
      }
    }
  }

  lemma UnionSize(seen: set<string>, ids: set<string>)
    ensures |seen + ids| >= |seen|
    ensures ids != {} && seen !! ids ==> |seen + ids| >= |seen| + 1
    ensures |ids| == 1 ==> |seen + ids| == if seen !! ids then |seen| + 1 else |seen|
  {
    SubsetSize(seen, seen + ids);
    if seen !! ids {
      assert |seen + ids| == |seen| + |ids|;
    } else if |ids| == 1 {
      var x :| x in ids && x in seen;
      assert |ids - {x}| == 0;
      assert ids == {x};
      assert seen + ids == seen;
    }
  }

  lemma {:induction false} AboveTransitive(s: Shape, a: string, b: string, k: string)
    requires Rooted(s) && k in s.keys && b in s.keys && Above(s, b, k) && Above(s, a, b)
    ensures Above(s, a, k)
    decreases Index(s.keys, k)
  {
    if b != k {
      ParentIsEarlier(s, k);
      AboveTransitive(s, a, b, s.parent[k]);
    }
  }

  lemma OrderListsOnce(t: Tree)
    requires TreeOk(t)
    ensures NoDup(Order(t))
    ensures forall i, j :: 0 <= i < j < |Order(t)| ==>
      Order(t)[i] in t.keys && Order(t)[j] in t.keys
      && Depth(ShapeOf(t.keys, t.nodes), Order(t)[i]) >= Depth(ShapeOf(t.keys, t.nodes), Order(t)[j])
  {
    DeepestFirstFacts(ShapeOf(t.keys, t.nodes));
  }

  /** All the experiments reported at or below `a`. */
  ghost function ExperimentsBelow(t: Tree, a: string): set<string>
    requires TreeOk(t)
  {
    set k, x | k in Below(t, a) && x in Below(t, a)[k].ids :: x
  }

  lemma PoolOfOrder(t: Tree, a: string)
    requires TreeOk(t)
    ensures Pool(Order(t), Below(t, a)) == ExperimentsBelow(t, a)
  {
  }

  /** What `_statistics` stores at each node: the experiments of its subtree, none counted twice. */
  lemma StatisticsCountOnce(t: Tree, a: string, i: nat, j: nat)
    requires TreeOk(t) && a in t.nodes
    ensures var order, below := Order(t), Below(t, a);
      var y, ks := TallyOver(order, below), Counted(order, below);
      && y.attempts == |ks| <= |ExperimentsBelow(t, a)| && y.reward == TotalReward(ks, below)
      && ((forall k :: k in below ==> |below[k].ids| == 1) ==> y.attempts == |ExperimentsBelow(t, a)|)
      && (i < j < |order| && order[i] in ks && order[j] in ks ==>
            order[i] in below && order[j] in below && below[order[i]].ids !! below[order[j]].ids)
  {
    var order, below := Order(t), Below(t, a);
    OrderListsOnce(t);
    TallyMeaning(order, below);
    AttemptsAreExperiments(order, below);
    PoolOfOrder(t, a);
    if i < j < |order| {
      CountedExactly(order, below, i);
      CountedExactly(order, below, j);
    }
  }

  lemma PositionInOrder(t: Tree, k: string) returns (i: nat)
    requires TreeOk(t) && k in t.nodes
    ensures i < |Order(t)| && Order(t)[i] == k
  {
    i :| 0 <= i < |Order(t)| && Order(t)[i] == k;
  }

  lemma BelowGrowsUpwards(t: Tree, a: string, b: string, k: string)
    requires TreeOk(t) && b in t.nodes && Above(ShapeOf(t.keys, t.nodes), a, b)
    ensures k in Below(t, b) ==> k in Below(t, a) && Below(t, a)[k] == Below(t, b)[k]
  {
    if k in Below(t, b) {
      AboveTransitive(ShapeOf(t.keys, t.nodes), a, b, k);
    }
  }

  lemma FewerReportsCountMore(order: seq<string>, a: map<string, Experiment>, b: map<string, Experiment>, k: string)
    requires NoDup(order) && k in order && k in b && k in Counted(order, a)
    requires forall x :: x in b ==> x in a && a[x] == b[x]
    ensures k in Counted(order, b)
  {
    var i :| 0 <= i < |order| && order[i] == k;
    CountedExactly(order, a, i);
    CountedExactly(order, b, i);
  }

  /** What an ancestor counts, every node on the way down counts too. */
  lemma CountedDownwards(t: Tree, a: string, b: string, k: string)
    requires TreeOk(t) && b in t.nodes && Above(ShapeOf(t.keys, t.nodes), a, b)
    requires k in Counted(Order(t), Below(t, a)) && k in Below(t, b)
    ensures k in Counted(Order(t), Below(t, b))
  {
    OrderListsOnce(t);
    forall x | x in Below(t, b) ensures x in Below(t, a) && Below(t, a)[x] == Below(t, b)[x] {
      BelowGrowsUpwards(t, a, b, x);
    }
    CountedReports(Order(t), Below(t, a), k);
    FewerReportsCountMore(Order(t), Below(t, a), Below(t, b), k);
  }

  lemma SharedBefore(order: seq<string>, below: map<string, Experiment>, i: nat, j: nat)
    requires NoDup(order) && j < i < |order| && order[i] in below && order[j] in below
    requires !(below[order[j]].ids !! below[order[i]].ids)
    ensures order[i] !in Counted(order, below)
  {
    CountedExactly(order, below, i);
  }

  lemma DeeperIsEarlier(t: Tree, deep: string, shallow: string) returns (i: nat, j: nat)
    requires TreeOk(t) && deep in t.nodes && shallow in t.nodes
    requires Depth(ShapeOf(t.keys, t.nodes), shallow) < Depth(ShapeOf(t.keys, t.nodes), deep)
    ensures j < i < |Order(t)| && Order(t)[i] == shallow && Order(t)[j] == deep
  {
    OrderListsOnce(t);
    i := PositionInOrder(t, shallow);
    j := PositionInOrder(t, deep);
  }

  /** A concrete experiment beats a synthesis of it: of two reports below `a` that share an identity,
      the shallower one does not count. */
  lemma ConcreteBeatsSynthesis(t: Tree, a: string, deep: string, shallow: string)
    requires TreeOk(t) && deep in Below(t, a) && shallow in Below(t, a)
    requires Depth(ShapeOf(t.keys, t.nodes), shallow) < Depth(ShapeOf(t.keys, t.nodes), deep)
    requires !(Below(t, a)[deep].ids !! Below(t, a)[shallow].ids)
    ensures shallow !in Counted(Order(t), Below(t, a))
  {
    OrderListsOnce(t);
    var i, j := DeeperIsEarlier(t, deep, shallow);
    SharedBefore(Order(t), Below(t, a), i, j);
  }

  // ---------------------------------------------------------------- pending work

  /** Open, and every child closed. */
  ghost predicate Actionable(t: Tree, k: string)
    requires TreeOk(t)
  {
    k in t.nodes && k != ROOT && !Closed(t.nodes[k])
    && forall c :: c in t.nodes && t.nodes[c].parent == Some(k) ==> Closed(t.nodes[c])
  }

  lemma ItemsExactly(t: Tree, k: string)
    requires TreeOk(t) && k in t.nodes
    ensures ItemsFor(t, k) != [] <==> Actionable(t, k)
    ensures forall i :: i in ItemsFor(t, k) ==> i.key == k && i.priority == PriorityOf(t.nodes[k])
  {
    var cs := ChildrenOf(t, k);
    if cs != [] {
      assert cs[0] in cs;
    }
  }

  lemma {:induction false} PendingExactlyFrom(t: Tree, keys: seq<string>, k: string)
    requires TreeOk(t) && Known(t, keys)
    ensures (exists i :: i in PendingFrom(t, keys) && i.key == k) <==> k in keys && Actionable(t, k)
    ensures forall i :: i in PendingFrom(t, keys) && i.key == k ==> k in t.nodes && i.priority == PriorityOf(t.nodes[k])
  {
    if keys != [] {
      var front, last := keys[..|keys| - 1], keys[|keys| - 1];
      assert keys == front + [last];
      PendingExactlyFrom(t, front, k);
      ItemsExactly(t, last);
      var items := ItemsFor(t, last);
      if items != [] {
        assert items[0] in items;
        assert items[0] in PendingFrom(t, keys);
      }
    }
  }

  /** A node is pending exactly when it is open and all its children are closed. */
  lemma PendingExactly(t: Tree, k: string)
    requires TreeOk(t)
    ensures (exists i :: i in PendingFrom(t, t.keys) && i.key == k) <==> Actionable(t, k)
    ensures forall i :: i in PendingFrom(t, t.keys) && i.key == k ==>
      k in t.nodes && i.priority == PriorityOf(t.nodes[k])
  {
    PendingExactlyFrom(t, t.keys, k);
  }

  lemma ParentFacts(t: Tree, c: string)
    requires TreeOk(t) && c in t.nodes && t.nodes[c].parent.Some?
    ensures c != ROOT && t.nodes[c].parent.value in t.nodes && Index(t.keys, t.nodes[c].parent.value) < Index(t.keys, c)
  {
    ParentIsEarlier(ShapeOf(t.keys, t.nodes), c);
  }

  /** At or below every open node there is one to act on. */
  lemma {:induction false} OpenLeadsToActionable(t: Tree, k: string) returns (p: string)
    requires TreeOk(t) && k in t.nodes && k != ROOT && !Closed(t.nodes[k])
    ensures Actionable(t, p) && Above(ShapeOf(t.keys, t.nodes), k, p)
    decreases |t.keys| - Index(t.keys, k)
  {
    if Actionable(t, k) {
      p := k;
    } else {
      var c :| c in t.nodes && t.nodes[c].parent == Some(k) && !Closed(t.nodes[c]);
      ParentFacts(t, c);
      p := OpenLeadsToActionable(t, c);
      var s := ShapeOf(t.keys, t.nodes);
      assert Above(s, k, c) by {
        StepUp(s, c);
        assert Above(s, k, s.parent[c]);
      }
      AboveTransitive(s, k, c, p);
    }
  }

  ghost predicate AllClosed(t: Tree)
  {
    forall k :: k in t.nodes && k != ROOT ==> Closed(t.nodes[k])
  }

  /** Nothing is pending exactly when every idea is closed. */
  lemma PendingEmptyExactly(t: Tree)
    requires TreeOk(t)
    ensures PendingFrom(t, t.keys) == [] <==> AllClosed(t)
  {
    if PendingFrom(t, t.keys) == [] {
      forall k | k in t.nodes && k != ROOT ensures Closed(t.nodes[k]) {
        if !Closed(t.nodes[k]) {
          var p := OpenLeadsToActionable(t, k);
          PendingExactly(t, p);
        }
      }
    } else {
      var i := PendingFrom(t, t.keys)[0];
      assert i in PendingFrom(t, t.keys);
      PendingExactly(t, i.key);
    }
  }

  // ---------------------------------------------------------------- recommendation

  ghost predicate Ascending(items: seq<Item>) {
    forall i, j :: 0 <= i < j < |items| ==> Rank(items[i]) <= Rank(items[j])
  }

  lemma {:induction false} InsertFirst(x: Item, sorted: seq<Item>, budget: bool)
    requires Ascending(sorted)
    ensures Ascending(InsertItem(x, sorted))
    ensures forall y :: y in InsertItem(x, sorted) <==> y == x || y in sorted
    ensures var f := FirstAffordable(sorted, budget);
      FirstAffordable(InsertItem(x, sorted), budget)
      == if Affordable(x, budget) && (f.None? || Rank(x) <= Rank(f.value)) then Some(x) else f
  {
    FirstIsLeast(sorted, budget);
    if sorted != [] && Rank(x) > Rank(sorted[0]) {
      InsertFirst(x, sorted[1..], budget);
      var rest := InsertItem(x, sorted[1..]);
      forall i | 0 <= i < |rest| ensures Rank(sorted[0]) <= Rank(rest[i]) {
        assert rest[i] in rest;
      }
    }
  }

  lemma {:induction false} FirstIsLeast(sorted: seq<Item>, budget: bool)
    requires Ascending(sorted)
    ensures var f := FirstAffordable(sorted, budget);
      f.Some? ==> f.value in sorted && Rank(sorted[0]) <= Rank(f.value)
  {
    if sorted != [] && !Affordable(sorted[0], budget) {
      FirstIsLeast(sorted[1..], budget);
    }
  }

  /** Item `b` is affordable, none affordable ranks before it, and none of its rank comes earlier. */
  ghost predicate Best(items: seq<Item>, budget: bool, b: nat)
    requires b < |items|
  {
    Affordable(items[b], budget)
    && forall j :: 0 <= j < |items| && Affordable(items[j], budget) ==>
         Rank(items[b]) < Rank(items[j]) || (Rank(items[b]) == Rank(items[j]) && b <= j)
  }

  ghost predicate HasBest(items: seq<Item>, budget: bool, f: Option<Item>) {
    && (f.None? ==> forall i :: 0 <= i < |items| ==> !Affordable(items[i], budget))
    && (f.Some? ==> exists b :: 0 <= b < |items| && items[b] == f.value && Best(items, budget, b))
  }

  lemma BestOfMore(x: Item, items: seq<Item>, budget: bool, f: Option<Item>)
    requires HasBest(items, budget, f)
    ensures var better := Affordable(x, budget) && (f.None? || Rank(x) <= Rank(f.value));
      HasBest([x] + items, budget, if better then Some(x) else f)
  {
    var all := [x] + items;
    assert forall j :: 1 <= j < |all| ==> all[j] == items[j - 1];
    if Affordable(x, budget) && (f.None? || Rank(x) <= Rank(f.value)) {
      assert Best(all, budget, 0);
    } else if f.Some? {
      var b :| 0 <= b < |items| && items[b] == f.value && Best(items, budget, b);
      assert Best(all, budget, b + 1);
    }
  }

  lemma {:induction false} SortThenFirst(items: seq<Item>, budget: bool)
    ensures Ascending(SortItems(items)) && HasBest(items, budget, FirstAffordable(SortItems(items), budget))
  {
    if items != [] {
      SortThenFirst(items[1..], budget);
      InsertFirst(items[0], SortItems(items[1..]), budget);
      BestOfMore(items[0], items[1..], budget, FirstAffordable(SortItems(items[1..]), budget));
      assert [items[0]] + items[1..] == items;
    }
  }

  lemma LoneRoot(t: Tree)
    requires TreeOk(t)
    ensures |t.keys| == 1 <==> t.keys == [ROOT]
  {
    assert t.keys[0] == ROOT;
  }

  ghost predicate AdvisesBest(items: seq<Item>, budget: bool, advice: Advice) {
    exists b :: 0 <= b < |items| && Best(items, budget, b) && advice == Do(items[b].action, items[b].key)
  }

  /** The recommendation: the best affordable pending item, else the first expansion of a lone root. */
  lemma AdviceIsBest(t: Tree)
    requires TreeOk(t) && Recommend(t).Do?
    ensures var pending, advice := PendingFrom(t, t.keys), Recommend(t);
      (t.keys == [ROOT] && advice == Do(Expand, ROOT)) || AdvisesBest(pending, BudgetLeft(t), advice)
  {
    var pending := PendingFrom(t, t.keys);
    var chosen := FirstAffordable(SortItems(pending), BudgetLeft(t));
    SortThenFirst(pending, BudgetLeft(t));
    LoneRoot(t);
    if chosen.Some? {
      var b :| 0 <= b < |pending| && pending[b] == chosen.value && Best(pending, BudgetLeft(t), b);
      assert Recommend(t) == Do(pending[b].action, pending[b].key);
    }
  }

  /** The budget is blamed exactly when everything pending would spend it and none is left. */
  lemma BudgetExhaustedExactly(t: Tree)
    requires TreeOk(t)
    ensures var pending := PendingFrom(t, t.keys);
      Recommend(t) == Halt(BudgetExhausted) <==>
      !t.paused && pending != [] && !BudgetLeft(t) && forall i :: 0 <= i < |pending| ==> pending[i].action == Expand
  {
    SortThenFirst(PendingFrom(t, t.keys), BudgetLeft(t));
  }

  /** `no_eligible_branch` is reported exactly when there are ideas and all of them are closed. */
  lemma NoEligibleBranchExactly(t: Tree)
    requires TreeOk(t)
    ensures Recommend(t) == Halt(NoEligibleBranch) <==> !t.paused && AllClosed(t) && t.keys != [ROOT]
  {
    SortThenFirst(PendingFrom(t, t.keys), BudgetLeft(t));
    PendingEmptyExactly(t);
    LoneRoot(t);
  }

  lemma {:induction false} BranchIsTop(s: Shape, k: string)
    requires Rooted(s) && k in s.keys && k != ROOT
    ensures BranchOf(s, k) in s.parent && s.parent[BranchOf(s, k)] == ROOT && Above(s, BranchOf(s, k), k)
    decreases Index(s.keys, k)
  {
    ParentIsEarlier(s, k);
    if s.parent[k] != ROOT {
      BranchIsTop(s, s.parent[k]);
    }
  }

  /** The branch on display is the child of the root above the recommended idea. */
  lemma ActiveBranchExactly(t: Tree)
    requires TreeOk(t)
    ensures ActiveBranch(t).Some? <==> t.mode == Iterative && !t.paused && Recommend(t).Do? && Recommend(t).node != ROOT
    ensures ActiveBranch(t).Some? ==>
      var b, k := ActiveBranch(t).value, Recommend(t).node;
      b in t.nodes && t.nodes[b].parent == Some(ROOT) && k in t.nodes && Above(ShapeOf(t.keys, t.nodes), b, k)
  {
    if Recommend(t).Do? {
      AdviceIsBest(t);
    }
    if !t.paused && Recommend(t).Do? && Recommend(t).node != ROOT {
      var k := Recommend(t).node;
      var pending := PendingFrom(t, t.keys);
      var b :| 0 <= b < |pending| && Best(pending, BudgetLeft(t), b) && k == pending[b].key;
      assert pending[b] in pending;
      PendingExactly(t, k);
      BranchIsTop(ShapeOf(t.keys, t.nodes), k);
      AboveIsShallower(ShapeOf(t.keys, t.nodes), BranchOf(ShapeOf(t.keys, t.nodes), k), k);
    }
  }
}
