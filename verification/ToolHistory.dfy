/**
  Repair of interrupted tool exchanges (src/oceanx/tool_history.py).

  `Repair` follows the two passes of the code; `RepairToolHistory` is those passes as loops.
  The reference is `ProviderValid`: split into exchanges, every head has well-formed calls and
  the results directly after it answer exactly its calls, each once.
 */
module ToolHistory {
  import opened Common
  import opened Messages

  const INTERRUPTED := "Tool execution was interrupted before completion."

  // ---------------------------------------------------------------- positional ids

  function Digit(d: nat): char
    requires d < 10
  {
    ['0', '1', '2', '3', '4', '5', '6', '7', '8', '9'][d]
  }

  function Decimal(n: nat): (s: string)
    ensures |s| > 0
    ensures forall c :: c in s ==> '0' <= c <= '9'
  {
    if n < 10 then [Digit(n)] else Decimal(n / 10) + [Digit(n % 10)]
  }

  lemma LastDigitIsUnique(a: string, x: char, b: string, y: char)
    requires a + [x] == b + [y]
    ensures a == b && x == y
  {
    assert a == (a + [x])[..|a + [x]| - 1] == (b + [y])[..|b + [y]| - 1] == b;
    assert x == (a + [x])[|a|] && y == (b + [y])[|b|];
  }

  lemma {:induction false} DecimalInjective(m: nat, n: nat)
    ensures Decimal(m) == Decimal(n) ==> m == n
  {
    if Decimal(m) == Decimal(n) && m >= 10 && n >= 10 {
      LastDigitIsUnique(Decimal(m / 10), Digit(m % 10), Decimal(n / 10), Digit(n % 10));
      DecimalInjective(m / 10, n / 10);
    }
  }

  function RepairId(at: nat, index: nat): string {
    "ocean_repair_" + Decimal(at) + "_" + Decimal(index)
  }

  lemma PrefixCancels(prefix: string, a: string, b: string)
    requires prefix + a == prefix + b
    ensures a == b
  {
    assert a == (prefix + a)[|prefix|..] == (prefix + b)[|prefix|..] == b;
  }

  lemma RepairIdFacts(at: nat, i: nat, j: nat)
    ensures !Blank(Text(RepairId(at, i)))
    ensures RepairId(at, i) == RepairId(at, j) ==> i == j
  {
    assert RepairId(at, i)[0] == 'o';
    if RepairId(at, i) == RepairId(at, j) {
      PrefixCancels("ocean_repair_" + Decimal(at) + "_", Decimal(i), Decimal(j));
      DecimalInjective(i, j);
    }
  }

  lemma RepairIdParts(at: nat, i: nat)
    ensures RepairId(at, i) == "ocean_repair_" + (Decimal(at) + ['_'] + Decimal(i))
  {
  }

  /** Positional ids of different calls differ, in one message or in two. */
  lemma RepairIdInjective(at: nat, i: nat, at': nat, j: nat)
    ensures RepairId(at, i) == RepairId(at', j) ==> at == at' && i == j
  {
    if RepairId(at, i) == RepairId(at', j) {
      RepairIdParts(at, i);
      RepairIdParts(at', j);
      PrefixCancels("ocean_repair_", Decimal(at) + ['_'] + Decimal(i), Decimal(at') + ['_'] + Decimal(j));
      SeparatorsAreUnique(Decimal(at), Decimal(i), Decimal(at'), Decimal(j), '_');
      DecimalInjective(at, at');
      DecimalInjective(i, j);
    }
  }

  // ---------------------------------------------------------------- first pass: ids

  function FillId(call: Call, at: nat, index: nat): Call {
    if Blank(call.id) then call.(id := Text(RepairId(at, index))) else call
  }

  function FillIds(calls: seq<Call>, at: nat): (filled: seq<Call>)
    ensures |filled| == |calls|
  {
    seq(|calls|, i requires 0 <= i < |calls| => FillId(calls[i], at, i))
  }

  function CallIdTexts(calls: seq<Call>): (ids: seq<string>)
    ensures |ids| == |calls|
  {
    seq(|calls|, i requires 0 <= i < |calls| => Str(calls[i].id))
  }

  predicate AnyBlank(calls: seq<Call>) {
    exists i :: 0 <= i < |calls| && Blank(calls[i].id)
  }

  function NormalizeHead(m: Message, at: nat): Message
    requires m.AI?
  {
    if AnyBlank(m.calls) then m.(calls := FillIds(m.calls, at), rawCalls := None) else m
  }

  function NormalizeOne(m: Message, at: nat, queue: seq<string>): Message {
    if m.AI? then NormalizeHead(m, at)
    else if m.Tool? && Blank(m.id) && queue != [] then m.(id := Text(queue[0]))
    else m
  }

  function NextQueue(m: Message, at: nat, queue: seq<string>): seq<string> {
    if m.AI? then CallIdTexts(FillIds(m.calls, at))
    else if m.Tool? then (if Blank(m.id) && queue != [] then queue[1..] else queue)
    else []
  }

  function NormalizeFrom(ms: seq<Message>, at: nat, queue: seq<string>): (out: seq<Message>)
    ensures |out| == |ms|
  {
    if ms == [] then []
    else [NormalizeOne(ms[0], at, queue)] + NormalizeFrom(ms[1..], at + 1, NextQueue(ms[0], at, queue))
  }

  function Normalize(ms: seq<Message>): seq<Message> {
    NormalizeFrom(ms, 0, [])
  }

  method FillCalls(toolCalls: seq<Call>, at: nat)
    returns (calls: seq<Call>, ids: seq<string>, changed: bool)
    ensures calls == FillIds(toolCalls, at)
    ensures ids == CallIdTexts(calls)
    ensures changed <==> AnyBlank(toolCalls)
  {
    calls, ids, changed := [], [], false;
    for k := 0 to |toolCalls|
      invariant calls == FillIds(toolCalls, at)[..k]
      invariant ids == CallIdTexts(calls)
      invariant changed <==> exists i :: 0 <= i < k && Blank(toolCalls[i].id)
    {
      var call := toolCalls[k];
      if Blank(call.id) {
        call := call.(id := Text(RepairId(at, k)));
        changed := true;
      }
      ids := ids + [Str(call.id)];
      calls := calls + [call];
    }
  }

  lemma NormalizeStep(done: seq<Message>, ms: seq<Message>, at: nat, queue: seq<string>)
    requires at < |ms|
    ensures done + NormalizeFrom(ms[at..], at, queue)
         == done + [NormalizeOne(ms[at], at, queue)] + NormalizeFrom(ms[at + 1..], at + 1, NextQueue(ms[at], at, queue))
  {
    assert ms[at..][0] == ms[at] && ms[at..][1..] == ms[at + 1..];
  }

  method NormalizeIds(messages: seq<Message>) returns (normalized: seq<Message>)
    ensures normalized == Normalize(messages)
  {
    var pending: seq<string> := [];
    normalized := [];
    for index := 0 to |messages|
      invariant normalized + NormalizeFrom(messages[index..], index, pending) == Normalize(messages)
    {
      NormalizeStep(normalized, messages, index, pending);
      ghost var queue := pending;
      var message := messages[index];
      if message.AI? {
        var calls, ids, changed := FillCalls(message.calls, index);
        pending := ids;
        if changed {
          message := message.(calls := calls, rawCalls := None);
        }
      } else if message.Tool? {
        if Blank(message.id) && pending != [] {
          message := message.(id := Text(pending[0]));
          pending := pending[1..];
        }
      } else {
        pending := [];
      }
      assert message == NormalizeOne(messages[index], index, queue);
      assert pending == NextQueue(messages[index], index, queue);
      normalized := normalized + [message];
    }
  }

  // ---------------------------------------------------------------- second pass: pairing

  /** One entry of the `pending` dictionary: a call still waiting for its result. */
  datatype Open = Open(id: string, name: string)

  predicate ValidCall(call: Call) {
    call.id.Text? && call.id.text != "" && call.name.Text? && call.name.text != ""
  }

  function ValidCalls(calls: seq<Call>): (valid: seq<Call>)
    ensures forall i :: 0 <= i < |valid| ==> valid[i] in calls && ValidCall(valid[i])
  {
    if calls == [] then []
    else (if ValidCall(calls[0]) then [calls[0]] else []) + ValidCalls(calls[1..])
  }

  function Clean(m: Message): Message {
    if m.AI? then m.(calls := ValidCalls(m.calls), invalid := [], rawCalls := None) else m
  }

  predicate Waiting(pending: seq<Open>, id: string) {
    exists i :: 0 <= i < |pending| && pending[i].id == id
  }

  function Remove(pending: seq<Open>, id: string): seq<Open> {
    if pending == [] then []
    else if pending[0].id == id then pending[1..]
    else [pending[0]] + Remove(pending[1..], id)
  }

  /** Dictionary assignment: an existing key keeps its place and takes the new value. */
  function Put(pending: seq<Open>, id: string, name: string): seq<Open> {
    if pending == [] then [Open(id, name)]
    else if pending[0].id == id then [Open(id, name)] + pending[1..]
    else [pending[0]] + Put(pending[1..], id, name)
  }

  function PutAll(pending: seq<Open>, calls: seq<Call>): seq<Open>
    decreases |calls|
  {
    if calls == [] then pending
    else PutAll(Put(pending, Str(calls[0].id), Str(calls[0].name)), calls[1..])
  }

  function Pending(m: Message): seq<Open> {
    if m.AI? then PutAll([], ValidCalls(m.calls)) else []
  }

  function Interrupted(o: Open): Message {
    Tool(Text(o.id), Text(o.name), Opaque(INTERRUPTED), Error)
  }

  function Close(pending: seq<Open>): (closed: seq<Message>)
    ensures |closed| == |pending|
  {
    seq(|pending|, i requires 0 <= i < |pending| => Interrupted(pending[i]))
  }

  predicate Answers(m: Message, pending: seq<Open>) {
    m.Tool? && m.id.Text? && Waiting(pending, m.id.text)
  }

  function RepairFrom(ms: seq<Message>, pending: seq<Open>): seq<Message> {
    if ms == [] then Close(pending)
    else if ms[0].Tool? then
      if Answers(ms[0], pending) then [ms[0]] + RepairFrom(ms[1..], Remove(pending, ms[0].id.text))
      else RepairFrom(ms[1..], pending)
    else
      Close(pending) + [Clean(ms[0])] + RepairFrom(ms[1..], Pending(ms[0]))
  }

  function Repair(ms: seq<Message>): seq<Message> {
    RepairFrom(Normalize(ms), [])
  }

  method ClosePending(pending: seq<Open>) returns (closed: seq<Message>)
    ensures closed == Close(pending)
  {
    closed := [];
    for i := 0 to |pending|
      invariant closed == Close(pending)[..i]
    {
      closed := closed + [Interrupted(pending[i])];
    }
  }

  lemma RepairStep(done: seq<Message>, ms: seq<Message>, at: nat, pending: seq<Open>)
    requires at < |ms|
    ensures done + RepairFrom(ms[at..], pending)
         == if !ms[at].Tool? then done + Close(pending) + [Clean(ms[at])] + RepairFrom(ms[at + 1..], Pending(ms[at]))
            else if Answers(ms[at], pending) then
              done + [ms[at]] + RepairFrom(ms[at + 1..], Remove(pending, ms[at].id.text))
            else done + RepairFrom(ms[at + 1..], pending)
  {
    assert ms[at..][0] == ms[at] && ms[at..][1..] == ms[at + 1..];
  }

  method RepairToolHistory(messages: seq<Message>) returns (repaired: seq<Message>)
    ensures repaired == Repair(messages)
  {
    repaired := [];
    var pending: seq<Open> := [];
    var normalized := NormalizeIds(messages);
    for i := 0 to |normalized|
      invariant repaired + RepairFrom(normalized[i..], pending) == RepairFrom(normalized, [])
    {
      RepairStep(repaired, normalized, i, pending);
      var message := normalized[i];
      if message.Tool? {
        if Answers(message, pending) {
          repaired := repaired + [message];
          pending := Remove(pending, message.id.text);
        }
        continue;
      }
      var closed := ClosePending(pending);
      repaired := repaired + closed;
      pending := [];
      if message.AI? {
        pending := Pending(message);
        message := Clean(message);
      }
      repaired := repaired + [message];
    }
    var closed := ClosePending(pending);
    repaired := repaired + closed;
  }
}
