/** Which exchanges compaction shortens and what is left of them, told from the history alone. */
module ExpertContextOutcomes {
  import opened Common
  import opened Messages
  import opened ExpertContext
  import opened ExpertContextProofs

  // ---------------------------------------------------------------- calls and receipts

  ghost predicate Usable(v: Value) {
    match v
    case Null => false
    case Text(s) => s != ""
    case NonText(_) => true
  }

  /** The last code call of one message with this id. */
  ghost function LastIn(calls: seq<Call>, id: Value): Option<Call> {
    if calls == [] then None
    else
      var later := LastIn(calls[1..], id);
      if later.Some? then later
      else if calls[0].id == id && calls[0].name == Text("ocean_expert_run_code") then Some(calls[0]) else None
  }

  /** The last code call of a history with this id. */
  ghost function LastCall(ms: seq<Message>, id: Value): Option<Call> {
    if ms == [] then None
    else
      var m := ms[|ms| - 1];
      var last := if m.AI? then LastIn(m.calls, id) else None;
      if last.Some? then last else LastCall(ms[..|ms| - 1], id)
  }

  ghost function At(table: map<Value, Call>, id: Value): Option<Call> {
    if id in table then Some(table[id]) else None
  }

  lemma {:induction false} CodeCallsOfExactly(calls: seq<Call>, table: map<Value, Call>, id: Value)
    requires Usable(id)
    ensures At(CodeCallsOf(calls, table), id) == if LastIn(calls, id).Some? then LastIn(calls, id) else At(table, id)
    decreases |calls|
  {
    if calls != [] {
      var c := calls[0];
      CodeCallsOfExactly(calls[1..], if c.name == Text(CODE_TOOL) && Truthy(c.id) then table[c.id := c] else table, id);
    }
  }

  lemma {:induction false} CodeCallsAreUsable(calls: seq<Call>, table: map<Value, Call>, id: Value)
    requires !Usable(id)
    ensures At(CodeCallsOf(calls, table), id) == At(table, id)
    decreases |calls|
  {
    if calls != [] {
      var c := calls[0];
      CodeCallsAreUsable(calls[1..], if c.name == Text(CODE_TOOL) && Truthy(c.id) then table[c.id := c] else table, id);
    }
  }

  lemma {:induction false} CodeCallsExactly(ms: seq<Message>, id: Value)
    ensures At(CodeCalls(ms), id) == if Usable(id) then LastCall(ms, id) else None
  {
    if ms != [] {
      var front, m := ms[..|ms| - 1], ms[|ms| - 1];
      CodeCallsExactly(front, id);
      if m.AI? && Usable(id) {
        CodeCallsOfExactly(m.calls, CodeCalls(front), id);
      } else if m.AI? {
        CodeCallsAreUsable(m.calls, CodeCalls(front), id);
      }
    }
  }

  /** The result of a code call that has ended. */
  ghost predicate ReceiptAt(ms: seq<Message>, i: int) {
    && 0 <= i < |ms| && ms[i].Tool? && Usable(ms[i].id) && LastCall(ms, ms[i].id).Some? && ms[i].content.Json?
    && var r := ms[i].content.receipt; Usable(r.executionId) && r.state != Null && r.state != Text("running")
  }

  ghost predicate FailedAt(ms: seq<Message>, i: int) {
    ReceiptAt(ms, i) && ms[i].content.receipt.state != Text("succeeded")
  }

  /** The number of receipts from position `from` on. */
  ghost function ReceiptsFrom(ms: seq<Message>, from: nat): nat
    decreases |ms| - from
  {
    if from >= |ms| then 0 else (if ReceiptAt(ms, from) then 1 else 0) + ReceiptsFrom(ms, from + 1)
  }

  /** Two more receipts came after this one. */
  ghost predicate OldAt(ms: seq<Message>, i: nat) {
    ReceiptAt(ms, i) && ReceiptsFrom(ms, i + 1) >= 2
  }

  ghost predicate LatestFailureAt(ms: seq<Message>, i: int) {
    FailedAt(ms, i) && forall j :: FailedAt(ms, j) ==> j <= i
  }

  lemma ReceiptIsCompleted(ms: seq<Message>, i: nat)
    requires i < |ms|
    ensures ReceiptAt(ms, i) <==> IsCompleted(ms[i], CodeCalls(ms))
  {
    if ms[i].Tool? {
      CodeCallsExactly(ms, ms[i].id);
    }
  }

  lemma CompletedAfter(ms: seq<Message>, i: nat)
    requires i < |ms|
    ensures Completed(ms[i..], CodeCalls(ms))
         == (if ReceiptAt(ms, i) then [ms[i]] else []) + Completed(ms[i + 1..], CodeCalls(ms))
  {
    ReceiptIsCompleted(ms, i);
    assert ms[i..][0] == ms[i] && ms[i..][1..] == ms[i + 1..];
  }

  lemma {:induction false} ReceiptsCounted(ms: seq<Message>, from: nat)
    requires from <= |ms|
    ensures |Completed(ms[from..], CodeCalls(ms))| == ReceiptsFrom(ms, from)
    decreases |ms| - from
  {
    if from < |ms| {
      ReceiptsCounted(ms, from + 1);
      CompletedAfter(ms, from);
    }
  }

  /** Where a receipt stands among all of them. */
  ghost function Rank(ms: seq<Message>, i: nat): nat
    requires i <= |ms|
  {
    |Completed(ms[..i], CodeCalls(ms))|
  }

  lemma RankedAt(ms: seq<Message>, i: nat)
    requires ReceiptAt(ms, i)
    ensures var c := CompletedIn(ms);
      Rank(ms, i) + 1 + ReceiptsFrom(ms, i + 1) == |c| && c[Rank(ms, i)] == ms[i]
    ensures CompletedIn(ms)[Rank(ms, i) + 1..] == Completed(ms[i + 1..], CodeCalls(ms))
  {
    var calls := CodeCalls(ms);
    CompletedConcat(ms[..i], ms[i..], calls);
    assert ms[..i] + ms[i..] == ms;
    CompletedAfter(ms, i);
    ReceiptsCounted(ms, i + 1);
    Placed(Completed(ms[..i], calls), ms[i], Completed(ms[i + 1..], calls));
  }

  lemma Placed(a: seq<Message>, m: Message, b: seq<Message>)
    ensures (a + ([m] + b))[|a|] == m && (a + ([m] + b))[|a| + 1..] == b
  {
  }

  // ---------------------------------------------------------------- the latest failure

  /** The latest failure among the first `n` messages. */
  ghost predicate LatestBefore(ms: seq<Message>, n: nat, latest: Option<Value>) {
    match latest
    case None => forall j :: 0 <= j < n ==> !FailedAt(ms, j)
    case Some(id) =>
      exists i :: 0 <= i < n && FailedAt(ms, i) && ms[i].id == id && forall j :: i < j < n ==> !FailedAt(ms, j)
  }

  lemma CompletedOne(m: Message, calls: map<Value, Call>)
    ensures Completed([m], calls) == if IsCompleted(m, calls) then [m] else []
  {
    assert [m][1..] == [];
  }

  /** The receipts among the first `n` messages. */
  ghost function ReceiptsTo(ms: seq<Message>, n: nat): (c: seq<Message>)
    requires n <= |ms|
    ensures forall i :: 0 <= i < |c| ==> c[i].Tool?
  {
    Completed(ms[..n], CodeCalls(ms))
  }

  lemma CompletedOneMore(ms: seq<Message>, n: nat)
    requires n < |ms|
    ensures ReceiptsTo(ms, n + 1) == ReceiptsTo(ms, n) + if ReceiptAt(ms, n) then [ms[n]] else []
  {
    var calls := CodeCalls(ms);
    ReceiptIsCompleted(ms, n);
    TakeOneMore(ms, n);
    CompletedConcat(ms[..n], [ms[n]], calls);
    CompletedOne(ms[n], calls);
  }

  lemma LatestOneMore(c: seq<Message>, m: Message)
    requires m.Tool? && forall i :: 0 <= i < |c| ==> c[i].Tool?
    ensures LatestFailure(c + [m])
         == if m.content.Json? && m.content.receipt.state != Text("succeeded") then Some(m.id) else LatestFailure(c)
  {
    assert (c + [m])[..|c|] == c;
  }

  lemma LatestStep(ms: seq<Message>, n: nat, before: Option<Value>)
    requires n < |ms| && LatestBefore(ms, n, before)
    ensures LatestBefore(ms, n + 1, if FailedAt(ms, n) then Some(ms[n].id) else before)
  {
    if !FailedAt(ms, n) && before.Some? {
      var i :| 0 <= i < n && FailedAt(ms, i) && ms[i].id == before.value && forall j :: i < j < n ==> !FailedAt(ms, j);
      assert forall j :: i < j < n + 1 ==> !FailedAt(ms, j);
    }
  }

  lemma LatestAfter(ms: seq<Message>, n: nat)
    requires n < |ms|
    ensures LatestFailure(ReceiptsTo(ms, n + 1))
         == if FailedAt(ms, n) then Some(ms[n].id) else LatestFailure(ReceiptsTo(ms, n))
  {
    CompletedOneMore(ms, n);
    if ReceiptAt(ms, n) {
      LatestOneMore(ReceiptsTo(ms, n), ms[n]);
    } else {
      assert ReceiptsTo(ms, n + 1) == ReceiptsTo(ms, n);
    }
  }

  lemma {:induction false} LatestExactly(ms: seq<Message>, n: nat)
    requires n <= |ms|
    ensures LatestBefore(ms, n, LatestFailure(ReceiptsTo(ms, n)))
  {
    if n > 0 {
      LatestExactly(ms, n - 1);
      LatestAfter(ms, n - 1);
      LatestStep(ms, n - 1, LatestFailure(ReceiptsTo(ms, n - 1)));
    }
  }

  /** The latest failure answers the call with this id. */
  ghost predicate FailsLast(ms: seq<Message>, id: Value) {
    exists i :: LatestFailureAt(ms, i) && ms[i].id == id
  }

  lemma LatestIsAt(ms: seq<Message>, id: Value)
    ensures LatestFailure(CompletedIn(ms)) == Some(id) <==> FailsLast(ms, id)
  {
    LatestExactly(ms, |ms|);
    assert ms[..|ms|] == ms && ReceiptsTo(ms, |ms|) == CompletedIn(ms);
    var latest := LatestFailure(CompletedIn(ms));
    if latest.Some? {
      var k :| 0 <= k < |ms| && FailedAt(ms, k) && ms[k].id == latest.value
        && forall j :: k < j < |ms| ==> !FailedAt(ms, j);
      assert LatestFailureAt(ms, k);
    }
  }

  // ---------------------------------------------------------------- what becomes of an exchange

  /** Where the script that was executed can be read again. */
  ghost function ScriptPath(r: Receipt): Option<string> {
    match r.savedCodePath
    case NonText(_) => None
    case Text(path) =>
      if path != "" then Some(path)
      else (match r.legacyRoot case Some(root) => Some(root + "/code/analysis.py") case None => None)
    case Null => match r.legacyRoot case Some(root) => Some(root + "/code/analysis.py") case None => None
  }

  /** The note that stands for an older script and says where to read it. */
  ghost function Note(path: string): string {
    "# Older executed code omitted from model context (not for re-execution).\n"
    + "# Read the complete script with ocean_read_file: " + path + "\n"
  }

  ghost predicate IsLong(s: Stream) {
    s.value.Text? && |s.value.text| > 600 && s.log.Some? && s.log.value != ""
  }

  /** A stream of more than 600 characters that is kept in a log is cut to its first and last 240. */
  ghost function CutStream(s: Stream): Stream {
    if IsLong(s) then
      var text := s.value.text;
      Stream(Text(text[..240] + "\n[older excerpt; full text: " + s.log.value + "]\n" + text[|text| - 240..]),
             s.log, true)
    else s
  }

  /** An old exchange, not that of the latest failure, whose script can be read again. */
  ghost predicate ShortenedAt(ms: seq<Message>, i: nat) {
    && OldAt(ms, i) && !FailsLast(ms, ms[i].id) && ScriptPath(ms[i].content.receipt).Some?
    && var args := LastCall(ms, ms[i].id).value.args; args.Object? && args.code.Text?
  }

  /** What this exchange asks for in place of the arguments of its call: the note for a longer script. */
  ghost function ArgsAfter(ms: seq<Message>, i: nat): Option<Args>
    requires ReceiptAt(ms, i)
  {
    var args := LastCall(ms, ms[i].id).value.args;
    if !ShortenedAt(ms, i) then None
    else
      var note := Note(ScriptPath(ms[i].content.receipt).value);
      if |args.code.text| > |note| then Some(Object(Text(note), args.rest)) else None
  }

  /** What it asks for in place of its result: the receipt with long streams cut. */
  ghost function CutAfter(ms: seq<Message>, i: nat): Option<Message>
    requires ReceiptAt(ms, i)
  {
    var r := ms[i].content.receipt;
    if ShortenedAt(ms, i) && (IsLong(r.stdout) || IsLong(r.stderr)) then
      Some(ms[i].(content := Json(r.(stdout := CutStream(r.stdout), stderr := CutStream(r.stderr)))))
    else None
  }

  /** What this exchange asks for, under the id of its call. */
  ghost function Ask(ms: seq<Message>, i: nat): Entry
    requires ReceiptAt(ms, i)
  {
    Entry(ms[i].id, ArgsAfter(ms, i), CutAfter(ms, i))
  }

  /** What the old exchanges among the first `n` messages ask for, in order. */
  ghost function AsksTo(ms: seq<Message>, n: nat): seq<Entry>
    requires n <= |ms|
  {
    if n == 0 then [] else AsksTo(ms, n - 1) + if OldAt(ms, n - 1) then [Ask(ms, n - 1)] else []
  }

  /** The last one with this id that asks for other arguments decides. */
  ghost function LastArgs(asks: seq<Entry>, id: Value): Option<Args> {
    if asks == [] then None
    else
      var last := asks[|asks| - 1];
      if last.id == id && last.args.Some? then last.args else LastArgs(asks[..|asks| - 1], id)
  }

  /** The same for the result. */
  ghost function LastResult(asks: seq<Entry>, id: Value): Option<Message> {
    if asks == [] then None
    else
      var last := asks[|asks| - 1];
      if last.id == id && last.result.Some? then last.result else LastResult(asks[..|asks| - 1], id)
  }

  ghost function ArgsFor(ms: seq<Message>, id: Value): Option<Args> {
    LastArgs(AsksTo(ms, |ms|), id)
  }

  ghost function ResultFor(ms: seq<Message>, id: Value): Option<Message> {
    LastResult(AsksTo(ms, |ms|), id)
  }

  lemma PathIsSaved(r: Receipt)
    ensures SavedCode(r) == ScriptPath(r)
  {
  }

  lemma CutIsShort(s: Stream)
    ensures ShortStream(s) == CutStream(s)
  {
  }

  lemma LongIsLong(s: Stream)
    ensures LongStream(s) <==> IsLong(s)
  {
  }

  lemma NoteIsReplacement(path: string)
    ensures Replacement(path) == Note(path)
  {
  }

  lemma ShortArgsAre(m: Message, call: Call)
    requires ExpertContext.Recoverable(m, call)
    ensures var note := Note(ScriptPath(m.content.receipt).value);
      ShortArgs(m, call) == if |call.args.code.text| > |note| then Some(Object(Text(note), call.args.rest)) else None
  {
    PathIsSaved(m.content.receipt);
    NoteIsReplacement(ScriptPath(m.content.receipt).value);
  }

  lemma ShortResultIs(m: Message)
    requires m.Tool? && m.content.Json?
    ensures var r := m.content.receipt;
      ShortResult(m) ==
        if IsLong(r.stdout) || IsLong(r.stderr) then
          Some(m.(content := Json(r.(stdout := CutStream(r.stdout), stderr := CutStream(r.stderr)))))
        else None
  {
    CutIsShort(m.content.receipt.stdout);
    CutIsShort(m.content.receipt.stderr);
    LongIsLong(m.content.receipt.stdout);
    LongIsLong(m.content.receipt.stderr);
  }

  lemma OlderIsOld(ms: seq<Message>, i: nat)
    requires ReceiptAt(ms, i)
    ensures Rank(ms, i) < |Older(CompletedIn(ms))| <==> OldAt(ms, i)
    ensures Rank(ms, i) < |CompletedIn(ms)| && CompletedIn(ms)[Rank(ms, i)] == ms[i]
  {
    RankedAt(ms, i);
  }

  lemma ShortenedExactly(ms: seq<Message>, i: nat)
    requires OldAt(ms, i) && IsCompleted(ms[i], CodeCalls(ms))
    ensures var call := CodeCalls(ms)[ms[i].id];
      && call == LastCall(ms, ms[i].id).value
      && (ShortenedAt(ms, i) <==>
            LatestFailure(CompletedIn(ms)) != Some(ms[i].id) && ExpertContext.Recoverable(ms[i], call))
  {
    LatestIsAt(ms, ms[i].id);
    CodeCallsExactly(ms, ms[i].id);
    PathIsSaved(ms[i].content.receipt);
  }

  lemma EntryArgsAreRight(ms: seq<Message>, i: nat)
    requires OldAt(ms, i) && IsCompleted(ms[i], CodeCalls(ms))
    ensures EntryOf(ms[i], CodeCalls(ms), LatestFailure(CompletedIn(ms))).args == ArgsAfter(ms, i)
  {
    ShortenedExactly(ms, i);
    if ShortenedAt(ms, i) {
      ShortArgsAre(ms[i], CodeCalls(ms)[ms[i].id]);
    }
  }

  lemma EntryResultIsRight(ms: seq<Message>, i: nat)
    requires OldAt(ms, i) && IsCompleted(ms[i], CodeCalls(ms))
    ensures EntryOf(ms[i], CodeCalls(ms), LatestFailure(CompletedIn(ms))).result == CutAfter(ms, i)
  {
    ShortenedExactly(ms, i);
    if ShortenedAt(ms, i) {
      ShortResultIs(ms[i]);
    }
  }

  // ---------------------------------------------------------------- the tables

  ghost function AllEntries(ms: seq<Message>): (es: seq<Entry>)
    ensures |es| == |Older(CompletedIn(ms))| && Plan(ms) == Filled(es)
  {
    var c := CompletedIn(ms);
    PlanUnfolded(ms);
    Entries(Older(c), CodeCalls(ms), LatestFailure(c))
  }

  lemma EntryAt(ms: seq<Message>, i: nat)
    requires OldAt(ms, i)
    ensures |ReceiptsTo(ms, i)| < |AllEntries(ms)|
    ensures AllEntries(ms)[|ReceiptsTo(ms, i)|] == Ask(ms, i)
  {
    OlderIsOld(ms, i);
    OlderAt(CompletedIn(ms));
    ReceiptIsCompleted(ms, i);
    PlanUnfolded(ms);
    EntryArgsAreRight(ms, i);
    EntryResultIsRight(ms, i);
  }

  /** `k` entries, or all there are. */
  function FirstOnes(es: seq<Entry>, k: nat): seq<Entry> {
    if k <= |es| then es[..k] else es
  }

  lemma OneEntryMore(es: seq<Entry>, k: nat)
    requires k < |es|
    ensures FirstOnes(es, k + 1) == FirstOnes(es, k) + [es[k]]
  {
  }

  ghost predicate AskedTo(ms: seq<Message>, n: nat)
    requires n <= |ms|
  {
    AsksTo(ms, n) == FirstOnes(AllEntries(ms), |ReceiptsTo(ms, n)|)
  }

  lemma OneReceiptMore(ms: seq<Message>, n: nat)
    requires n < |ms|
    ensures |ReceiptsTo(ms, n + 1)| == |ReceiptsTo(ms, n)| + if ReceiptAt(ms, n) then 1 else 0
  {
    CompletedOneMore(ms, n);
  }

  lemma AskedOld(ms: seq<Message>, n: nat)
    requires OldAt(ms, n) && AskedTo(ms, n)
    ensures AskedTo(ms, n + 1)
  {
    OneReceiptMore(ms, n);
    EntryAt(ms, n);
    OneEntryMore(AllEntries(ms), |ReceiptsTo(ms, n)|);
  }

  lemma AskedNothing(ms: seq<Message>, n: nat)
    requires n < |ms| && !OldAt(ms, n) && AskedTo(ms, n)
    ensures AskedTo(ms, n + 1)
  {
    OneReceiptMore(ms, n);
    if ReceiptAt(ms, n) {
      OlderIsOld(ms, n);
    }
  }

  lemma AskedStep(ms: seq<Message>, n: nat)
    requires n < |ms| && AskedTo(ms, n)
    ensures AskedTo(ms, n + 1)
  {
    if OldAt(ms, n) {
      AskedOld(ms, n);
    } else {
      AskedNothing(ms, n);
    }
  }

  lemma NothingAsked(ms: seq<Message>)
    ensures AskedTo(ms, 0)
  {
    assert ms[..0] == [];
  }

  lemma {:induction false} AllAsked(ms: seq<Message>, n: nat)
    requires n <= |ms|
    ensures AskedTo(ms, n)
  {
    if n == 0 {
      NothingAsked(ms);
    } else {
      AllAsked(ms, n - 1);
      AskedStep(ms, n - 1);
    }
  }

  lemma {:induction false} HeldByLast(es: seq<Entry>, id: Value)
    ensures Held(Filled(es), id) == (LastArgs(es, id), LastResult(es, id))
  {
    if es != [] {
      HeldByLast(es[..|es| - 1], id);
    }
  }

  lemma AsksAreEntries(ms: seq<Message>)
    ensures AsksTo(ms, |ms|) == AllEntries(ms)
  {
    AllAsked(ms, |ms|);
    assert ms[..|ms|] == ms && ReceiptsTo(ms, |ms|) == CompletedIn(ms);
    OlderAt(CompletedIn(ms));
  }

  /** What the tables hold for an id. */
  lemma TablesExactly(ms: seq<Message>, id: Value)
    ensures Held(Plan(ms), id) == (ArgsFor(ms, id), ResultFor(ms, id))
  {
    AsksAreEntries(ms);
    HeldByLast(AllEntries(ms), id);
  }

  // ---------------------------------------------------------------- the projected history

  ghost function Changed<T>(before: T, after: Option<T>): T {
    match after
    case Some(t) => t
    case None => before
  }

  /** A result reads as it did, or as the last old exchange with its id that has a long stream asks: with long
      streams cut to their ends. Any other message that is no assistant's stays as it is. */
  lemma ResultsExactly(ms: seq<Message>, k: nat)
    requires k < |ms| && !ms[k].AI?
    ensures Compact(ms)[k] == if ms[k].Tool? then Changed(ms[k], ResultFor(ms, ms[k].id)) else ms[k]
  {
    if ms[k].Tool? {
      TablesExactly(ms, ms[k].id);
    }
  }

  ghost function ArgsLeft(ms: seq<Message>, id: Value, before: Args): Args {
    Changed(before, ArgsFor(ms, id))
  }

  /** A call keeps its id, name and other data; its arguments are those it had, or what the last old exchange
      with its id and a longer script asks for: the note where to read that script. */
  lemma CallsExactly(ms: seq<Message>, k: nat, l: nat)
    requires k < |ms| && ms[k].AI? && l < |ms[k].calls|
    ensures var call := ms[k].calls[l]; CallsAfter(ms, k)[l] == call.(args := ArgsLeft(ms, call.id, call.args))
  {
    TablesExactly(ms, ms[k].calls[l].id);
  }

  ghost function BlockLeft(ms: seq<Message>, b: Block): Block {
    match b
    case OtherBlock(_) => b
    case ToolUse(id, input, rest) => ToolUse(id, ArgsLeft(ms, id, input), rest)
    case ToolCall(id, args, rest) => ToolCall(id, ArgsLeft(ms, id, args), rest)
  }

  lemma BlockExactly(ms: seq<Message>, b: Block)
    ensures ProjectBlock(b, Plan(ms).args) == BlockLeft(ms, b)
  {
    match b
    case ToolUse(id, input, _) => TablesExactly(ms, id);
    case ToolCall(id, args, _) => TablesExactly(ms, id);
    case OtherBlock(_) =>
  }

  /** Some call of the message has other arguments afterwards. */
  ghost predicate CallChanges(ms: seq<Message>, m: Message)
    requires m.AI?
  {
    exists l :: 0 <= l < |m.calls| && ArgsFor(ms, m.calls[l].id).Some?
  }

  ghost predicate BlocksLeft(ms: seq<Message>, before: Prose, after: Prose) {
    match before
    case Plain(_) => after == before
    case Blocks(blocks) =>
      && after.Blocks? && |after.blocks| == |blocks|
      && forall j :: 0 <= j < |blocks| ==> after.blocks[j] == BlockLeft(ms, blocks[j])
  }

  lemma TouchesExactly(ms: seq<Message>, m: Message)
    requires m.AI?
    ensures Touches(m.calls, Plan(ms).args) <==> CallChanges(ms, m)
  {
    forall l | 0 <= l < |m.calls|
      ensures m.calls[l].id in Plan(ms).args <==> ArgsFor(ms, m.calls[l].id).Some?
    {
      TablesExactly(ms, m.calls[l].id);
    }
  }

  /** An assistant message with such a call loses the script in its content blocks too, and the raw copy of
      its calls; any other assistant message stays as it is. */
  lemma ProseExactly(ms: seq<Message>, k: nat)
    requires k < |ms| && ms[k].AI?
    ensures var m, m' := ms[k], Compact(ms)[k];
      if CallChanges(ms, m) then
        m'.AI? && m' == m.(calls := m'.calls, prose := m'.prose, rawCalls := None) && BlocksLeft(ms, m.prose, m'.prose)
      else m' == m
  {
    TouchesExactly(ms, ms[k]);
    if ms[k].prose.Blocks? {
      forall j | 0 <= j < |ms[k].prose.blocks|
        ensures ProjectBlock(ms[k].prose.blocks[j], Plan(ms).args) == BlockLeft(ms, ms[k].prose.blocks[j])
      {
        BlockExactly(ms, ms[k].prose.blocks[j]);
      }
    }
  }
}
