/** What one reservation and one return do to the ledger, and that no review reserves beyond its limit. */
module CuratorOutcomes {
  import opened Common
  import opened CuratorBudget

  function BytesOf(messages: seq<nat>): nat {
    if messages == [] then 0 else messages[0] + BytesOf(messages[1..])
  }

  lemma {:induction false} BytesOneMore(front: seq<nat>, last: nat)
    ensures BytesOf(front + [last]) == BytesOf(front) + last
  {
    if front != [] {
      assert (front + [last])[1..] == front[1..] + [last];
      BytesOneMore(front[1..], last);
    }
  }

  /** The estimate of a call: every byte of its messages and of the schema, 256 for each message, the whole
      output and 2048 for the call. */
  lemma {:induction false} AmountExactly(messages: seq<nat>, schema: nat, limits: Limits)
    ensures Amount(messages, schema, limits)
         == BytesOf(messages) + 256 * |messages| + schema + limits.maxOutput + 2048
  {
    if messages != [] {
      var front, last := messages[..|messages| - 1], messages[|messages| - 1];
      assert messages == front + [last];
      AmountExactly(front, schema, limits);
      BytesOneMore(front, last);
    }
  }

  // ---------------------------------------------------------------- one call

  /** A reservation is accepted exactly when neither the review nor the day would exceed its limit; then it
      is a new row and counts for its budget, and otherwise nothing changes. */
  lemma ReservationExactly(s: State, a: nat, amount: nat, day: string, id: string)
    requires |s.rows| == |s.owners| && Possible(s, Reserve(a, amount, day, id))
    ensures var s', account := Step(s, Reserve(a, amount, day, id)), s.accounts[a];
      var fits := account.reserved + amount <= account.limits.review
                  && DayTotal(s.rows, day) + amount <= account.limits.daily;
      && (fits ==>
            s' == State(s.rows + [Row(id, day, amount, amount, None, false)], s.owners + [a],
                        s.accounts[a := Account(account.limits, account.reserved + amount)]))
      && (!fits ==> s' == s)
  {
  }

  /** The day's total is that of its rows alone. */
  lemma {:induction false} DayTotalSkips(rows: seq<Row>, day: string)
    ensures (forall i :: 0 <= i < |rows| ==> rows[i].day != day) ==> DayTotal(rows, day) == 0
    ensures forall i :: 0 <= i < |rows| && rows[i].day == day ==> rows[i].reserved <= DayTotal(rows, day)
  {
    if rows != [] {
      DayTotalSkips(rows[..|rows| - 1], day);
    }
  }

  /** A return marks its row, keeps the use reported and raises the row to it; what goes beyond the row
      counts for the budget that returns. A call the ledger does not know changes nothing. */
  lemma ReturnExactly(s: State, a: nat, id: string, actual: Option<nat>, i: nat)
    requires DistinctIds(s.rows) && a < |s.accounts|
    ensures var s' := Step(s, Finish(a, id, actual));
      var use := match actual case Some(n) => n case None => 0;
      && ((forall j :: 0 <= j < |s.rows| ==> s.rows[j].id != id) ==> s' == s)
      && (i < |s.rows| && s.rows[i].id == id ==>
            var row := s.rows[i];
            var over := if use > row.reserved then use - row.reserved else 0;
            && s'.rows == s.rows[i := Row(id, row.day, row.estimate, row.reserved + over, actual, true)]
            && s'.owners == s.owners
            && s'.accounts == s.accounts[a := Account(s.accounts[a].limits, s.accounts[a].reserved + over)])
  {
    var k := Find(s.rows, id);
    if k == |s.rows| {
      assert s.accounts[a := s.accounts[a].(reserved := s.accounts[a].reserved)] == s.accounts;
    } else if i < |s.rows| && s.rows[i].id == id {
      assert k == i by {
        assert s.rows[k].id == s.rows[i].id;
      }
    }
  }

  // ---------------------------------------------------------------- every run

  /** What account `a` estimated for its calls. */
  function OwnEstimates(rows: seq<Row>, owners: seq<nat>, a: nat): nat
    requires |rows| == |owners|
  {
    if rows == [] then 0
    else
      OwnEstimates(rows[..|rows| - 1], owners[..|owners| - 1], a)
      + if owners[|owners| - 1] == a then rows[|rows| - 1].estimate else 0
  }

  ghost predicate WithinReview(s: State, a: nat)
    requires |s.rows| == |s.owners| && a < |s.accounts|
  {
    var estimates := OwnEstimates(s.rows, s.owners, a);
    estimates <= s.accounts[a].reserved && estimates <= s.accounts[a].limits.review
  }

  ghost predicate ReviewInv(s: State) {
    && |s.rows| == |s.owners|
    && (forall i :: 0 <= i < |s.owners| ==> s.owners[i] < |s.accounts|)
    && forall a :: 0 <= a < |s.accounts| ==> WithinReview(s, a)
  }

  lemma EstimatesOneMore(rows: seq<Row>, owners: seq<nat>, row: Row, owner: nat, a: nat)
    requires |rows| == |owners|
    ensures OwnEstimates(rows + [row], owners + [owner], a)
         == OwnEstimates(rows, owners, a) + if owner == a then row.estimate else 0
  {
    assert (rows + [row])[..|rows|] == rows && (owners + [owner])[..|owners|] == owners;
  }

  lemma {:induction false} EstimatesStay(rows: seq<Row>, owners: seq<nat>, i: nat, row: Row, a: nat)
    requires |rows| == |owners| && i < |rows| && row.estimate == rows[i].estimate
    ensures OwnEstimates(rows[i := row], owners, a) == OwnEstimates(rows, owners, a)
    decreases |rows|
  {
    var n := |rows| - 1;
    if i < n {
      EstimatesStay(rows[..n], owners[..n], i, row, a);
      assert rows[i := row][..n] == rows[..n][i := row];
    } else {
      assert rows[i := row][..n] == rows[..n];
    }
  }

  lemma {:induction false} NoEstimatesOf(rows: seq<Row>, owners: seq<nat>, a: nat)
    requires |rows| == |owners| && forall i :: 0 <= i < |owners| ==> owners[i] < a
    ensures OwnEstimates(rows, owners, a) == 0
  {
    if rows != [] {
      NoEstimatesOf(rows[..|rows| - 1], owners[..|owners| - 1], a);
    }
  }

  lemma OpenKeepsReview(s: State, limits: Limits)
    requires ReviewInv(s)
    ensures ReviewInv(Step(s, Open(limits)))
  {
    NoEstimatesOf(s.rows, s.owners, |s.accounts|);
    var s' := Step(s, Open(limits));
    forall a | 0 <= a < |s'.accounts| ensures WithinReview(s', a) {
      assert a < |s.accounts| ==> WithinReview(s, a);
    }
  }

  lemma ReserveKeepsReview(s: State, a: nat, amount: nat, day: string, id: string)
    requires ReviewInv(s) && Possible(s, Reserve(a, amount, day, id))
    ensures ReviewInv(Step(s, Reserve(a, amount, day, id)))
  {
    var s' := Step(s, Reserve(a, amount, day, id));
    ReservationExactly(s, a, amount, day, id);
    if s' != s {
      forall b | 0 <= b < |s'.accounts| ensures WithinReview(s', b) {
        EstimatesOneMore(s.rows, s.owners, Row(id, day, amount, amount, None, false), a, b);
        assert WithinReview(s, b);
      }
    }
  }

  lemma FinishKeepsReview(s: State, a: nat, id: string, actual: Option<nat>)
    requires ReviewInv(s) && a < |s.accounts|
    ensures ReviewInv(Step(s, Finish(a, id, actual)))
  {
    var s', i := Step(s, Finish(a, id, actual)), Find(s.rows, id);
    forall b | 0 <= b < |s'.accounts| ensures WithinReview(s', b) {
      if i < |s.rows| {
        EstimatesStay(s.rows, s.owners, i, Returned(s.rows[i], actual), b);
      }
      assert WithinReview(s, b);
    }
  }

  lemma StepKeepsReview(s: State, c: Call)
    requires ReviewInv(s) && Possible(s, c)
    ensures ReviewInv(Step(s, c))
  {
    match c
    case Open(limits) => OpenKeepsReview(s, limits);
    case Reserve(a, amount, day, id) => ReserveKeepsReview(s, a, amount, day, id);
    case Finish(a, id, actual) => FinishKeepsReview(s, a, id, actual);
  }

  lemma {:induction false} RunsKeepReview(s: State, calls: seq<Call>, s': State, daily: nat, own: bool)
    requires ReviewInv(s) && Follows(s, calls, s', daily, own)
    ensures ReviewInv(s')
    decreases |calls|
  {
    if calls != [] {
      StepKeepsReview(s, calls[0]);
      RunsKeepReview(Step(s, calls[0]), calls[1..], s', daily, own);
    }
  }

  /** In every run of many budgets, each returning whatever calls it likes, what a budget reserved for its
      own calls never exceeds the limit of its review. */
  lemma ReviewIsBounded(calls: seq<Call>, s: State, daily: nat, own: bool, a: nat)
    requires Follows(EMPTY, calls, s, daily, own) && a < |s.accounts|
    ensures |s.rows| == |s.owners| && OwnEstimates(s.rows, s.owners, a) <= s.accounts[a].limits.review
  {
    RunsKeepReview(EMPTY, calls, s, daily, own);
    assert WithinReview(s, a);
  }
}
