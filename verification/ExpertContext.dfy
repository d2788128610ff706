/**
  Projection of older code exchanges before a model call (src/oceanx/expert_context.py).
  Ids decide what is replaced, so both tables are keyed by call id.
 */
module ExpertContext {
  import opened Common
  import opened Messages

  const CODE_TOOL := "ocean_expert_run_code"
  const EXCERPT := 240
  const LONG_STREAM := 600

  /** Python truthiness of a loosely typed field; values that are no strings are taken as truthy. */
  predicate Truthy(v: Value) {
    v.NonText? || (v.Text? && v.text != "")
  }

  // ---------------------------------------------------------------- selection

  function CodeCallsOf(calls: seq<Call>, table: map<Value, Call>): map<Value, Call>
    decreases |calls|
  {
    if calls == [] then table
    else
      var c := calls[0];
      CodeCallsOf(calls[1..], if c.name == Text(CODE_TOOL) && Truthy(c.id) then table[c.id := c] else table)
  }

  /** The code calls of a history by id; a later call replaces an earlier one of the same id. */
  function CodeCalls(ms: seq<Message>): map<Value, Call> {
    if ms == [] then map[]
    else
      var table := CodeCalls(ms[..|ms| - 1]);
      var m := ms[|ms| - 1];
      if m.AI? then CodeCallsOf(m.calls, table) else table
  }

  predicate IsCompleted(m: Message, calls: map<Value, Call>) {
    && m.Tool? && m.id in calls && m.content.Json?
    && Truthy(m.content.receipt.executionId)
    && m.content.receipt.state != Null && m.content.receipt.state != Text("running")
  }

  function Completed(ms: seq<Message>, calls: map<Value, Call>): (c: seq<Message>)
    ensures forall i :: 0 <= i < |c| ==> IsCompleted(c[i], calls) && c[i] in ms
  {
    if ms == [] then []
    else (if IsCompleted(ms[0], calls) then [ms[0]] else []) + Completed(ms[1..], calls)
  }

  predicate Failed(m: Message) {
    m.Tool? && m.content.Json? && m.content.receipt.state != Text("succeeded")
  }

  function LatestFailure(completed: seq<Message>): Option<Value>
    requires forall i :: 0 <= i < |completed| ==> completed[i].Tool?
  {
    if completed == [] then None
    else
      var m := completed[|completed| - 1];
      if Failed(m) then Some(m.id) else LatestFailure(completed[..|completed| - 1])
  }

  /** `completed[:-2]`. */
  function Older(completed: seq<Message>): seq<Message> {
    if |completed| <= 2 then [] else completed[..|completed| - 2]
  }

  // ---------------------------------------------------------------- one exchange

  /** Where the executed script can be read again, if the receipt says so. */
  function SavedCode(r: Receipt): Option<string> {
    if r.savedCodePath.Text? && r.savedCodePath.text != "" then Some(r.savedCodePath.text)
    else if !Truthy(r.savedCodePath) && r.legacyRoot.Some? then Some(r.legacyRoot.value + "/code/analysis.py")
    else None
  }

  function Replacement(savedCode: string): string {
    "# Older executed code omitted from model context (not for re-execution).\n"
    + "# Read the complete script with ocean_read_file: " + savedCode + "\n"
  }

  predicate Recoverable(m: Message, call: Call) {
    && m.Tool? && m.content.Json? && SavedCode(m.content.receipt).Some?
    && call.args.Object? && call.args.code.Text?
  }

  function ShortArgs(m: Message, call: Call): Option<Args>
    requires Recoverable(m, call)
  {
    var replacement := Replacement(SavedCode(m.content.receipt).value);
    if |call.args.code.text| > |replacement| then Some(call.args.(code := Text(replacement))) else None
  }

  predicate LongStream(s: Stream) {
    s.value.Text? && |s.value.text| > LONG_STREAM && s.log.Some? && s.log.value != ""
  }

  function Excerpt(text: string, log: string): string
    requires |text| > LONG_STREAM
  {
    text[..EXCERPT] + "\n[older excerpt; full text: " + log + "]\n" + text[|text| - EXCERPT..]
  }

  function ShortStream(s: Stream): Stream {
    if LongStream(s) then Stream(Text(Excerpt(s.value.text, s.log.value)), s.log, true) else s
  }

  function ShortResult(m: Message): Option<Message>
    requires m.Tool? && m.content.Json?
  {
    var r := m.content.receipt;
    if LongStream(r.stdout) || LongStream(r.stderr) then
      Some(m.(content := Json(r.(stdout := ShortStream(r.stdout), stderr := ShortStream(r.stderr)))))
    else None
  }

  // ---------------------------------------------------------------- the two tables

  datatype Tables = Tables(args: map<Value, Args>, results: map<Value, Message>)

  /** What a receipt contributes to the tables, under the id of the call it answers. */
  datatype Entry = Entry(id: Value, args: Option<Args>, result: Option<Message>)

  /** An entry for this receipt: empty for the latest failure, and otherwise under the receipt's id. */
  predicate EntryFor(e: Entry, m: Message, latest: Option<Value>) {
    && m.Tool? && e.id == m.id
    && (latest == Some(m.id) ==> e.args.None? && e.result.None?)
    && (e.result.Some? ==> e.result.value.Tool? && e.result.value.id == m.id)
  }

  function EntryOf(m: Message, calls: map<Value, Call>, latest: Option<Value>): (e: Entry)
    requires IsCompleted(m, calls)
    ensures EntryFor(e, m, latest)
  {
    if latest == Some(m.id) || !Recoverable(m, calls[m.id]) then Entry(m.id, None, None)
    else Entry(m.id, ShortArgs(m, calls[m.id]), ShortResult(m))
  }

  function Entries(older: seq<Message>, calls: map<Value, Call>, latest: Option<Value>): (es: seq<Entry>)
    requires forall i :: 0 <= i < |older| ==> IsCompleted(older[i], calls)
    ensures |es| == |older| && forall i :: 0 <= i < |es| ==> EntryFor(es[i], older[i], latest)
  {
    seq(|older|, i requires 0 <= i < |older| => EntryOf(older[i], calls, latest))
  }

  function Enter(t: Tables, e: Entry): Tables {
    Tables(if e.args.Some? then t.args[e.id := e.args.value] else t.args,
           if e.result.Some? then t.results[e.id := e.result.value] else t.results)
  }

  function Filled(es: seq<Entry>): Tables {
    if es == [] then Tables(map[], map[]) else Enter(Filled(es[..|es| - 1]), es[|es| - 1])
  }

  lemma FilledOne(es: seq<Entry>, i: nat)
    requires i < |es|
    ensures Filled(es[..i + 1]) == Enter(Filled(es[..i]), es[i])
    ensures es[..|es|] == es
  {
    assert es[..i + 1][..i] == es[..i];
  }

  function Plan(ms: seq<Message>): Tables {
    var calls := CodeCalls(ms);
    var completed := Completed(ms, calls);
    Filled(Entries(Older(completed), calls, LatestFailure(completed)))
  }

  // ---------------------------------------------------------------- projection

  function ProjectCall(c: Call, args: map<Value, Args>): Call {
    if c.id in args then c.(args := args[c.id]) else c
  }

  function ProjectBlock(b: Block, args: map<Value, Args>): Block {
    match b
    case ToolUse(id, _, _) => if id in args then b.(input := args[id]) else b
    case ToolCall(id, _, _) => if id in args then b.(args := args[id]) else b
    case OtherBlock(_) => b
  }

  function ProjectProse(p: Prose, args: map<Value, Args>): Prose {
    match p
    case Plain(_) => p
    case Blocks(blocks) =>
      Blocks(seq(|blocks|, i requires 0 <= i < |blocks| => ProjectBlock(blocks[i], args)))
  }

  predicate Touches(calls: seq<Call>, args: map<Value, Args>) {
    exists i :: 0 <= i < |calls| && calls[i].id in args
  }

  function ProjectMessage(m: Message, t: Tables): Message {
    if m.Tool? && m.id in t.results then t.results[m.id]
    else if m.AI? && Touches(m.calls, t.args) then
      m.(calls := seq(|m.calls|, i requires 0 <= i < |m.calls| => ProjectCall(m.calls[i], t.args)),
         prose := ProjectProse(m.prose, t.args),
         rawCalls := None)
    else m
  }

  function Project(ms: seq<Message>, t: Tables): (out: seq<Message>)
    ensures |out| == |ms|
  {
    seq(|ms|, i requires 0 <= i < |ms| => ProjectMessage(ms[i], t))
  }

  function Compact(ms: seq<Message>): seq<Message> {
    Project(ms, Plan(ms))
  }

  method CompactExpertHistory(messages: seq<Message>) returns (projectedMessages: seq<Message>)
    ensures projectedMessages == Compact(messages)
  {
    var calls := CodeCalls(messages);
    var completed := Completed(messages, calls);
    var latestFailure := LatestFailure(completed);
    var older := Older(completed);
    var replacements: map<Value, Args> := map[];
    var results: map<Value, Message> := map[];
    ghost var entries := Entries(older, calls, latestFailure);
    for i := 0 to |older|
      invariant Tables(replacements, results) == Filled(entries[..i])
    {
      FilledOne(entries, i);
      var entry := MakeEntry(older[i], calls, latestFailure);
      if entry.args.Some? {
        replacements := replacements[entry.id := entry.args.value];
      }
      if entry.result.Some? {
        results := results[entry.id := entry.result.value];
      }
    }
    assert entries[..|older|] == entries;
    projectedMessages := ProjectMessages(messages, Tables(replacements, results));
  }

  method ProjectMessages(messages: seq<Message>, tables: Tables) returns (projectedMessages: seq<Message>)
    ensures projectedMessages == Project(messages, tables)
  {
    projectedMessages := [];
    for i := 0 to |messages|
      invariant projectedMessages == Project(messages, tables)[..i]
    {
      TakeOneMore(Project(messages, tables), i);
      projectedMessages := projectedMessages + [ProjectMessage(messages[i], tables)];
    }
  }

  /** The replacement for the executed script, and the receipt with its long streams shortened. */
  method MakeEntry(message: Message, calls: map<Value, Call>, latestFailure: Option<Value>) returns (entry: Entry)
    requires IsCompleted(message, calls)
    ensures entry == EntryOf(message, calls, latestFailure)
  {
    var call := calls[message.id];
    if latestFailure == Some(message.id) || !Recoverable(message, call) {
      return Entry(message.id, None, None);
    }
    var args := ShortenCode(message, call);
    var result := ShortenReceipt(message);
    entry := Entry(message.id, args, result);
  }

  method ShortenCode(message: Message, call: Call) returns (args: Option<Args>)
    requires Recoverable(message, call)
    ensures args == ShortArgs(message, call)
  {
    var replacement := Replacement(SavedCode(message.content.receipt).value);
    args := None;
    if |call.args.code.text| > |replacement| {
      args := Some(call.args.(code := Text(replacement)));
    }
  }

  method ShortenReceipt(message: Message) returns (result: Option<Message>)
    requires message.Tool? && message.content.Json?
    ensures result == ShortResult(message)
  {
    var receipt := message.content.receipt;
    var projected, changed := receipt, false;
    if LongStream(receipt.stdout) {
      projected, changed := projected.(stdout := ShortStream(receipt.stdout)), true;
    }
    if LongStream(receipt.stderr) {
      projected, changed := projected.(stderr := ShortStream(receipt.stderr)), true;
    }
    result := if changed then Some(message.(content := Json(projected))) else None;
  }
}
