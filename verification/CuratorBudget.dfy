/**
  Token reservations of the curator (src/oceanx/curator_budget.py): many review budgets, one durable
  ledger. A reservation is charged in full; what a call really used can only add to its row.
 */
module CuratorBudget {
  import opened Common

  /** A row of `curator_calls`. `estimate` keeps what was first reserved. */
  datatype Row = Row(id: string, day: string, estimate: nat, reserved: nat, actual: Option<nat>, returned: bool)

  datatype Limits = Limits(maxOutput: nat, review: nat, daily: nat)
  datatype Error = ReviewExhausted | DayExhausted

  const PER_MESSAGE: nat := 256
  const PER_CALL: nat := 2048

  /** The estimate of a call: the bytes of every message and of the schema, and the whole output. */
  function Amount(messages: seq<nat>, schema: nat, limits: Limits): (n: nat)
    ensures n >= PER_CALL + limits.maxOutput + schema
  {
    if messages == [] then schema + limits.maxOutput + PER_CALL
    else Amount(messages[..|messages| - 1], schema, limits) + messages[|messages| - 1] + PER_MESSAGE
  }

  // ---------------------------------------------------------------- the ledger

  function DayTotal(rows: seq<Row>, day: string): nat {
    if rows == [] then 0
    else DayTotal(rows[..|rows| - 1], day) + if rows[|rows| - 1].day == day then rows[|rows| - 1].reserved else 0
  }

  /** Position of the row with this id, or the length. */
  function Find(rows: seq<Row>, id: string): (i: nat)
    ensures i <= |rows|
    ensures i < |rows| ==> rows[i].id == id
    ensures i == |rows| ==> forall j :: 0 <= j < |rows| ==> rows[j].id != id
  {
    if rows == [] || rows[0].id == id then 0 else 1 + Find(rows[1..], id)
  }

  function Max(a: nat, b: nat): nat {
    if a >= b then a else b
  }

  function Used(actual: Option<nat>): nat {
    if actual.Some? then actual.value else 0
  }

  function Returned(row: Row, actual: Option<nat>): Row {
    row.(returned := true, actual := actual, reserved := Max(row.reserved, Used(actual)))
  }

  /** The ledger and the budget's own count after a reservation, or why it is refused. */
  function ReserveIn(
      rows: seq<Row>, reserved: nat, limits: Limits, amount: nat, day: string, id: string)
    : Result<(seq<Row>, nat), Error>
  {
    if reserved + amount > limits.review then Err(ReviewExhausted)
    else if DayTotal(rows, day) + amount > limits.daily then Err(DayExhausted)
    else Ok((rows + [Row(id, day, amount, amount, None, false)], reserved + amount))
  }

  function FinishIn(rows: seq<Row>, reserved: nat, id: string, actual: Option<nat>): (seq<Row>, nat) {
    var i := Find(rows, id);
    if i == |rows| then (rows, reserved)
    else (rows[i := Returned(rows[i], actual)],
          reserved + if Used(actual) > rows[i].reserved then Used(actual) - rows[i].reserved else 0)
  }

  class Ledger {
    var rows: seq<Row>

    constructor ()
      ensures rows == []
    {
      rows := [];
    }
  }

  class ReviewBudget {
    const ledger: Ledger
    const limits: Limits
    var reserved: nat

    constructor (ledger: Ledger, limits: Limits)
      ensures this.ledger == ledger && this.limits == limits && reserved == 0
    {
      this.ledger, this.limits := ledger, limits;
      reserved := 0;
    }

    method Reserve(messages: seq<nat>, schema: nat, day: string, id: string) returns (r: Result<string, Error>)
      modifies this, ledger
      ensures var amount := Amount(messages, schema, limits);
        var outcome := ReserveIn(old(ledger.rows), old(reserved), limits, amount, day, id);
        if outcome.Ok? then r == Ok(id) && (ledger.rows, reserved) == outcome.value
        else r == Err(outcome.error) && ledger.rows == old(ledger.rows) && reserved == old(reserved)
    {
      var amount: nat := 0;
      for i := 0 to |messages|
        invariant amount + schema + limits.maxOutput + PER_CALL == Amount(messages[..i], schema, limits)
      {
        assert messages[..i + 1][..i] == messages[..i];
        amount := amount + messages[i] + PER_MESSAGE;
      }
      assert messages[..|messages|] == messages;
      amount := amount + schema + limits.maxOutput + PER_CALL;
      if reserved + amount > limits.review {
        return Err(ReviewExhausted);
      }
      var used := DayTotal(ledger.rows, day);
      if used + amount > limits.daily {
        return Err(DayExhausted);
      }
      ledger.rows := ledger.rows + [Row(id, day, amount, amount, None, false)];
      reserved := reserved + amount;
      return Ok(id);
    }

    method Finish(id: string, actual: Option<nat>)
      modifies this, ledger
      ensures (ledger.rows, reserved) == FinishIn(old(ledger.rows), old(reserved), id, actual)
    {
      var i := Find(ledger.rows, id);
      if i < |ledger.rows| {
        var previous := ledger.rows[i].reserved;
        ledger.rows := ledger.rows[i := Returned(ledger.rows[i], actual)];
        if Used(actual) > previous {
          reserved := reserved + (Used(actual) - previous);
        }
      }
    }
  }

  // ---------------------------------------------------------------- many budgets, one ledger

  datatype Account = Account(limits: Limits, reserved: nat)

  /** `owners[i]` is the budget that made row `i`. A restarted process is a new account. */
  datatype State = State(rows: seq<Row>, owners: seq<nat>, accounts: seq<Account>)

  datatype Call =
    | Open(limits: Limits)
    | Reserve(account: nat, amount: nat, day: string, id: string)
    | Finish(account: nat, id: string, actual: Option<nat>)

  /** A call the environment may make: ids of new rows are new, accounts exist. */
  predicate Possible(s: State, c: Call) {
    match c
    case Open(_) => true
    case Reserve(a, amount, _, id) => a < |s.accounts| && amount > 0 && Find(s.rows, id) == |s.rows|
    case Finish(a, _, _) => a < |s.accounts|
  }

  function Step(s: State, c: Call): State
    requires Possible(s, c)
  {
    match c
    case Open(limits) => s.(accounts := s.accounts + [Account(limits, 0)])
    case Reserve(a, amount, day, id) =>
      (match ReserveIn(s.rows, s.accounts[a].reserved, s.accounts[a].limits, amount, day, id)
       case Err(_) => s
       case Ok((rows, reserved)) =>
         State(rows, s.owners + [a], s.accounts[a := s.accounts[a].(reserved := reserved)]))
    case Finish(a, id, actual) =>
      var (rows, reserved) := FinishIn(s.rows, s.accounts[a].reserved, id, actual);
      s.(rows := rows, accounts := s.accounts[a := s.accounts[a].(reserved := reserved)])
  }

  const EMPTY := State([], [], [])

  /** What account `a` reserved, summed over its rows. */
  function OwnTotal(rows: seq<Row>, owners: seq<nat>, a: nat): nat
    requires |rows| == |owners|
  {
    if rows == [] then 0
    else
      OwnTotal(rows[..|rows| - 1], owners[..|owners| - 1], a)
      + if owners[|owners| - 1] == a then rows[|rows| - 1].reserved else 0
  }

  /** What calls of a day used beyond their estimates. */
  function DayOverrun(rows: seq<Row>, day: string): int {
    if rows == [] then 0
    else
      var last := rows[|rows| - 1];
      DayOverrun(rows[..|rows| - 1], day) + if last.day == day then last.reserved - last.estimate else 0
  }

  ghost predicate DistinctIds(rows: seq<Row>) {
    forall i, j :: 0 <= i < j < |rows| ==> rows[i].id != rows[j].id
  }

  /** Each budget's count is the sum of its own rows. */
  ghost predicate Balanced(s: State) {
    && |s.rows| == |s.owners|
    && forall a :: 0 <= a < |s.accounts| ==> s.accounts[a].reserved == OwnTotal(s.rows, s.owners, a)
  }

  ghost predicate Inv(s: State, daily: nat) {
    && |s.rows| == |s.owners| && DistinctIds(s.rows)
    && (forall i :: 0 <= i < |s.owners| ==> s.owners[i] < |s.accounts|)
    && (forall day :: DayBounded(s.rows, daily, day))
    && (forall i :: 0 <= i < |s.rows| ==> s.rows[i].estimate <= s.rows[i].reserved)
  }

  lemma TotalsOneMore(rows: seq<Row>, owners: seq<nat>, row: Row, owner: nat, a: nat, day: string)
    requires |rows| == |owners|
    ensures OwnTotal(rows + [row], owners + [owner], a)
         == OwnTotal(rows, owners, a) + if owner == a then row.reserved else 0
    ensures DayTotal(rows + [row], day) == DayTotal(rows, day) + if row.day == day then row.reserved else 0
    ensures DayOverrun(rows + [row], day)
         == DayOverrun(rows, day) + if row.day == day then row.reserved - row.estimate else 0
  {
    assert (rows + [row])[..|rows|] == rows && (owners + [owner])[..|owners|] == owners;
  }

  /** Raising one row raises exactly the totals it belongs to. */
  lemma {:induction false} TotalsRaised(rows: seq<Row>, owners: seq<nat>, i: nat, row: Row, a: nat, day: string)
    requires |rows| == |owners| && i < |rows| && row.day == rows[i].day && row.estimate == rows[i].estimate
    ensures OwnTotal(rows[i := row], owners, a)
         == OwnTotal(rows, owners, a) + if owners[i] == a then row.reserved - rows[i].reserved else 0
    ensures DayTotal(rows[i := row], day)
         == DayTotal(rows, day) + if row.day == day then row.reserved - rows[i].reserved else 0
    ensures DayOverrun(rows[i := row], day)
         == DayOverrun(rows, day) + if row.day == day then row.reserved - rows[i].reserved else 0
    decreases |rows|
  {
    var n := |rows| - 1;
    if i < n {
      TotalsRaised(rows[..n], owners[..n], i, row, a, day);
      assert rows[i := row][..n] == rows[..n][i := row];
    } else {
      assert rows[i := row][..n] == rows[..n];
    }
  }

  /** The rows of a day only grow. */
  ghost predicate RowsGrow(rows: seq<Row>, rows': seq<Row>) {
    |rows| <= |rows'| && forall i :: 0 <= i < |rows| ==>
      rows'[i].id == rows[i].id && rows'[i].day == rows[i].day && rows'[i].estimate == rows[i].estimate
      && rows[i].reserved <= rows'[i].reserved
  }

  ghost predicate DayBounded(rows: seq<Row>, daily: nat, day: string) {
    DayTotal(rows, day) <= daily + DayOverrun(rows, day)
  }

  lemma ReserveKeepsDay(s: State, a: nat, amount: nat, day: string, id: string, daily: nat, d: string)
    requires Inv(s, daily) && a < |s.accounts| && s.accounts[a].limits.daily <= daily
    requires ReserveIn(s.rows, s.accounts[a].reserved, s.accounts[a].limits, amount, day, id).Ok?
    ensures DayBounded(s.rows + [Row(id, day, amount, amount, None, false)], daily, d)
  {
    TotalsOneMore(s.rows, s.owners, Row(id, day, amount, amount, None, false), a, a, d);
    assert DayBounded(s.rows, daily, d);
    OverrunIsNatural(s.rows, d);
  }

  lemma FinishKeepsDay(s: State, i: nat, actual: Option<nat>, daily: nat, d: string)
    requires Inv(s, daily) && i < |s.rows|
    ensures DayBounded(s.rows[i := Returned(s.rows[i], actual)], daily, d)
  {
    TotalsRaised(s.rows, s.owners, i, Returned(s.rows[i], actual), 0, d);
    assert DayBounded(s.rows, daily, d);
  }

  lemma StepKeeps(s: State, c: Call, daily: nat)
    requires Inv(s, daily) && Possible(s, c) && (c.Reserve? ==> s.accounts[c.account].limits.daily <= daily)
    ensures Inv(Step(s, c), daily) && RowsGrow(s.rows, Step(s, c).rows) && |s.accounts| <= |Step(s, c).accounts|
  {
    var s' := Step(s, c);
    if s'.rows != s.rows {
      forall d ensures DayBounded(s'.rows, daily, d) {
        if c.Reserve? {
          ReserveKeepsDay(s, c.account, c.amount, c.day, c.id, daily, d);
        } else {
          FinishKeepsDay(s, Find(s.rows, c.id), c.actual, daily, d);
        }
      }
    }
  }

  lemma {:induction false} OverrunIsNatural(rows: seq<Row>, day: string)
    requires forall i :: 0 <= i < |rows| ==> rows[i].estimate <= rows[i].reserved
    ensures DayOverrun(rows, day) >= 0
  {
    if rows != [] {
      OverrunIsNatural(rows[..|rows| - 1], day);
    }
  }

  lemma ReserveBalances(s: State, a: nat, amount: nat, day: string, id: string, daily: nat)
    requires Inv(s, daily) && a < |s.accounts| && Balanced(s)
    requires ReserveIn(s.rows, s.accounts[a].reserved, s.accounts[a].limits, amount, day, id).Ok?
    ensures var reserved := s.accounts[a].reserved + amount;
      Balanced(State(s.rows + [Row(id, day, amount, amount, None, false)], s.owners + [a],
                     s.accounts[a := s.accounts[a].(reserved := reserved)]))
  {
    forall b: nat
      ensures OwnTotal(s.rows + [Row(id, day, amount, amount, None, false)], s.owners + [a], b)
           == OwnTotal(s.rows, s.owners, b) + if a == b then amount else 0
    {
      TotalsOneMore(s.rows, s.owners, Row(id, day, amount, amount, None, false), a, b, day);
    }
  }

  lemma FinishBalances(s: State, a: nat, i: nat, actual: Option<nat>, daily: nat)
    requires Inv(s, daily) && a < |s.accounts| && i < |s.rows| && Balanced(s)
    ensures var over := if Used(actual) > s.rows[i].reserved then Used(actual) - s.rows[i].reserved else 0;
      var s' := s.(rows := s.rows[i := Returned(s.rows[i], actual)],
                   accounts := s.accounts[a := s.accounts[a].(reserved := s.accounts[a].reserved + over)]);
      Balanced(s') <==> over == 0 || s.owners[i] == a
  {
    var over := if Used(actual) > s.rows[i].reserved then Used(actual) - s.rows[i].reserved else 0;
    var rows := s.rows[i := Returned(s.rows[i], actual)];
    forall b: nat
      ensures OwnTotal(rows, s.owners, b) == OwnTotal(s.rows, s.owners, b) + if s.owners[i] == b then over else 0
    {
      TotalsRaised(s.rows, s.owners, i, Returned(s.rows[i], actual), b, "");
      TotalsRaised(s.rows, s.owners, i, Returned(s.rows[i], actual), b, s.rows[i].day);
    }
    assert s.accounts[a].reserved == OwnTotal(s.rows, s.owners, a);
  }

  /** A budget's count stays the sum of its own rows through a step exactly when the step is not the
      return of another budget's call beyond what that call reserved. */
  lemma BalancedExactly(s: State, c: Call, daily: nat)
    requires Inv(s, daily) && Possible(s, c) && Balanced(s)
    ensures Balanced(Step(s, c)) <==> !ForeignOverrun(s, c)
  {
    match c
    case Open(_) =>
      NoRowsOf(s.rows, s.owners, |s.accounts|);
    case Reserve(a, amount, day, id) =>
      if ReserveIn(s.rows, s.accounts[a].reserved, s.accounts[a].limits, amount, day, id).Ok? {
        ReserveBalances(s, a, amount, day, id, daily);
      }
    case Finish(a, id, actual) =>
      var i := Find(s.rows, id);
      if i < |s.rows| {
        FinishBalances(s, a, i, actual, daily);
      } else {
        assert s.accounts[a := s.accounts[a].(reserved := s.accounts[a].reserved)] == s.accounts;
      }
  }

  predicate ForeignOverrun(s: State, c: Call) {
    c.Finish? &&
    (var i := Find(s.rows, c.id);
     i < |s.rows| && i < |s.owners| && s.owners[i] != c.account && Used(c.actual) > s.rows[i].reserved)
  }

  lemma {:induction false} NoRowsOf(rows: seq<Row>, owners: seq<nat>, a: nat)
    requires |rows| == |owners| && forall i :: 0 <= i < |owners| ==> owners[i] < a
    ensures OwnTotal(rows, owners, a) == 0
  {
    if rows != [] {
      NoRowsOf(rows[..|rows| - 1], owners[..|owners| - 1], a);
    }
  }

  // ---------------------------------------------------------------- runs

  /** `s'` follows from `s` by calls under this daily limit; own returns only if `own`. */
  ghost predicate Follows(s: State, calls: seq<Call>, s': State, daily: nat, own: bool)
    decreases |calls|
  {
    if calls == [] then s' == s
    else
      && Possible(s, calls[0])
      && (calls[0].Reserve? ==> s.accounts[calls[0].account].limits.daily <= daily)
      && (own ==> !ForeignOverrun(s, calls[0]))
      && Follows(Step(s, calls[0]), calls[1..], s', daily, own)
  }

  lemma {:induction false} RunsKeep(s: State, calls: seq<Call>, s': State, daily: nat, own: bool)
    requires Inv(s, daily) && Follows(s, calls, s', daily, own)
    ensures Inv(s', daily) && RowsGrow(s.rows, s'.rows)
    ensures own && Balanced(s) ==> Balanced(s')
    decreases |calls|
  {
    if calls != [] {
      StepKeeps(s, calls[0], daily);
      if Balanced(s) {
        BalancedExactly(s, calls[0], daily);
      }
      RunsKeep(Step(s, calls[0]), calls[1..], s', daily, own);
    }
  }

  /** After any run no day's total exceeds the limit by more than the recorded overruns, and while every
      budget returns its own calls, its count is the sum of its own rows. */
  lemma EveryRun(calls: seq<Call>, s: State, daily: nat, own: bool, day: string, a: nat)
    requires Follows(EMPTY, calls, s, daily, own) && a < |s.accounts|
    ensures DayTotal(s.rows, day) <= daily + DayOverrun(s.rows, day)
    ensures |s.rows| == |s.owners| && (own ==> s.accounts[a].reserved == OwnTotal(s.rows, s.owners, a))
  {
    RunsKeep(EMPTY, calls, s, daily, own);
    assert DayBounded(s.rows, daily, day);
  }

  lemma {:induction false} TotalGrows(rows: seq<Row>, rows': seq<Row>, day: string)
    requires RowsGrow(rows, rows')
    ensures DayTotal(rows, day) <= DayTotal(rows', day)
    decreases |rows'|
  {
    if rows' != [] {
      var n := |rows'| - 1;
      if |rows'| > |rows| {
        TotalGrows(rows, rows'[..n], day);
      } else {
        TotalGrows(rows[..n], rows'[..n], day);
      }
    }
  }

  /** Once a day's total has reached a budget's limit, none of its reservations for that day succeeds
      any more, whatever happens in between. */
  lemma LimitIsFinal(s: State, calls: seq<Call>, s': State, daily: nat, a: nat, amount: nat, day: string, id: string)
    requires Inv(s, daily) && Follows(s, calls, s', daily, false)
    requires a < |s'.accounts| && amount > 0 && DayTotal(s.rows, day) >= s'.accounts[a].limits.daily
    ensures ReserveIn(s'.rows, s'.accounts[a].reserved, s'.accounts[a].limits, amount, day, id).Err?
  {
    RunsKeep(s, calls, s', daily, false);
    TotalGrows(s.rows, s'.rows, day);
  }
}
