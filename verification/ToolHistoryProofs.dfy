/** What `ToolHistory.Repair` guarantees for every message list. */
module ToolHistoryProofs {
  import opened Common
  import opened Messages
  import opened ToolHistory

  // ---------------------------------------------------------------- the reference: exchanges

  /** A message that is no tool result, with the tool results directly after it. */
  datatype Exchange = Exchange(head: Message, results: seq<Message>)

  /** The tool results before the first other message. */
  function Block(ms: seq<Message>): (b: seq<Message>)
    ensures |b| <= |ms| && b == ms[..|b|]
    ensures forall i :: 0 <= i < |b| ==> b[i].Tool?
    ensures |b| < |ms| ==> !ms[|b|].Tool?
  {
    if ms == [] || !ms[0].Tool? then [] else [ms[0]] + Block(ms[1..])
  }

  function Split(ms: seq<Message>): (es: seq<Exchange>)
    ensures forall i :: 0 <= i < |es| ==> !es[i].head.Tool?
    decreases |ms|
  {
    if ms == [] then []
    else if ms[0].Tool? then Split(ms[1..])
    else [Exchange(ms[0], Block(ms[1..]))] + Split(ms[1..])
  }

  function Join(es: seq<Exchange>): seq<Message> {
    if es == [] then [] else [es[0].head] + es[0].results + Join(es[1..])
  }

  function IdsOf(calls: seq<Call>): set<Value> {
    set c | c in calls :: c.id
  }

  function CallIds(m: Message): set<Value> {
    if m.AI? then IdsOf(m.calls) else {}
  }

  function ResultIds(results: seq<Message>): (ids: seq<Value>)
    requires forall i :: 0 <= i < |results| ==> results[i].Tool?
    ensures |ids| == |results|
  {
    seq(|results|, i requires 0 <= i < |results| => results[i].id)
  }

  /** Every call of the head has exactly one result here, and nothing else is answered. */
  ghost predicate ExactlyAnswered(e: Exchange) {
    && (forall i :: 0 <= i < |e.results| ==> e.results[i].Tool?)
    && NoDup(ResultIds(e.results))
    && Elements(ResultIds(e.results)) == CallIds(e.head)
  }

  predicate CleanCall(c: Call) {
    ValidCall(c) && !Blank(c.id)
  }

  predicate CleanHead(m: Message) {
    m.AI? ==>
      && m.invalid == []
      && m.rawCalls == None
      && forall i :: 0 <= i < |m.calls| ==> CleanCall(m.calls[i])
  }

  /** What strict chat providers accept. */
  ghost predicate ProviderValid(ms: seq<Message>) {
    && ms == Join(Split(ms))
    && forall i :: 0 <= i < |Split(ms)| ==> CleanHead(Split(ms)[i].head) && ExactlyAnswered(Split(ms)[i])
  }

  // ---------------------------------------------------------------- streaming pass = exchange by exchange

  /** The results that the streaming pass leaves after a head whose open calls are `pending`. */
  function AnswerBlock(block: seq<Message>, pending: seq<Open>): seq<Message> {
    if block == [] then Close(pending)
    else if Answers(block[0], pending) then
      [block[0]] + AnswerBlock(block[1..], Remove(pending, block[0].id.text))
    else AnswerBlock(block[1..], pending)
  }

  function RepairExchange(e: Exchange): Exchange {
    Exchange(Clean(e.head), AnswerBlock(e.results, Pending(e.head)))
  }

  function RepairExchanges(es: seq<Exchange>): (out: seq<Exchange>)
    ensures |out| == |es|
    ensures forall i :: 0 <= i < |es| ==> out[i] == RepairExchange(es[i])
  {
    if es == [] then [] else [RepairExchange(es[0])] + RepairExchanges(es[1..])
  }

  lemma HeadStep(ms: seq<Message>)
    requires ms != [] && !ms[0].Tool?
    ensures Block(ms) == []
    ensures Join(RepairExchanges(Split(ms)))
         == [Clean(ms[0])] + AnswerBlock(Block(ms[1..]), Pending(ms[0])) + Join(RepairExchanges(Split(ms[1..])))
  {
    var e := Exchange(ms[0], Block(ms[1..]));
    assert Split(ms) == [e] + Split(ms[1..]);
    assert Split(ms)[1..] == Split(ms[1..]);
    assert RepairExchanges(Split(ms)) == [RepairExchange(e)] + RepairExchanges(Split(ms[1..]));
    assert RepairExchanges(Split(ms))[1..] == RepairExchanges(Split(ms[1..]));
  }

  lemma ToolStep(ms: seq<Message>, pending: seq<Open>)
    requires ms != [] && ms[0].Tool?
    ensures var answers := Answers(ms[0], pending);
      AnswerBlock(Block(ms), pending)
      == (if answers then [ms[0]] else [])
         + AnswerBlock(Block(ms[1..]), if answers then Remove(pending, ms[0].id.text) else pending)
    ensures Split(ms) == Split(ms[1..])
  {
    assert Block(ms)[1..] == Block(ms[1..]) && Block(ms)[0] == ms[0];
  }

  lemma Assoc(a: seq<Message>, b: seq<Message>, c: seq<Message>)
    ensures (a + b) + c == a + (b + c)
    ensures a == [] ==> a + b == b
  {
  }

  lemma {:induction false} StreamingIsExchangewise(ms: seq<Message>, pending: seq<Open>)
    ensures RepairFrom(ms, pending) == AnswerBlock(Block(ms), pending) + Join(RepairExchanges(Split(ms)))
  {
    if ms == [] {
    } else if ms[0].Tool? {
      var pending' := if Answers(ms[0], pending) then Remove(pending, ms[0].id.text) else pending;
      StreamingIsExchangewise(ms[1..], pending');
      ToolStep(ms, pending);
      Assoc(if Answers(ms[0], pending) then [ms[0]] else [], AnswerBlock(Block(ms[1..]), pending'),
            Join(RepairExchanges(Split(ms[1..]))));
    } else {
      StreamingIsExchangewise(ms[1..], Pending(ms[0]));
      HeadStep(ms);
      var head, answers := [Clean(ms[0])], AnswerBlock(Block(ms[1..]), Pending(ms[0]));
      var rest := Join(RepairExchanges(Split(ms[1..])));
      Assoc(head, answers, rest);
      Assoc(Close(pending), head, answers + rest);
    }
  }

  /** Splitting what was joined gives the exchanges back. */
  lemma {:induction false} SplitJoin(es: seq<Exchange>)
    requires forall i :: 0 <= i < |es| ==> !es[i].head.Tool?
    requires forall i, j :: 0 <= i < |es| && 0 <= j < |es[i].results| ==> es[i].results[j].Tool?
    ensures Split(Join(es)) == es
    ensures Block(Join(es)) == []
  {
    if es != [] {
      SplitJoin(es[1..]);
      var tail := es[0].results + Join(es[1..]);
      assert Join(es) == [es[0].head] + tail;
      assert Join(es)[1..] == tail;
      SplitAfterBlock(es[0].results, Join(es[1..]));
      assert es == [es[0]] + es[1..];
    }
  }

  lemma {:induction false} SplitAfterBlock(block: seq<Message>, rest: seq<Message>)
    requires forall j :: 0 <= j < |block| ==> block[j].Tool?
    requires Block(rest) == []
    ensures Block(block + rest) == block
    ensures Split(block + rest) == Split(rest)
  {
    if block == [] {
      assert block + rest == rest;
    } else {
      assert (block + rest)[1..] == block[1..] + rest;
      SplitAfterBlock(block[1..], rest);
    }
  }

  // ---------------------------------------------------------------- one exchange

  function OpenIds(pending: seq<Open>): set<Value> {
    set o | o in pending :: Text(o.id)
  }

  ghost predicate DistinctOpen(pending: seq<Open>) {
    forall i, j :: 0 <= i < j < |pending| ==> pending[i].id != pending[j].id
  }

  lemma OpenCons(o: Open, rest: seq<Open>)
    ensures OpenIds([o] + rest) == {Text(o.id)} + OpenIds(rest)
    ensures DistinctOpen([o] + rest) <==> DistinctOpen(rest) && Text(o.id) !in OpenIds(rest)
  {
    var all := [o] + rest;
    forall v | v in {Text(o.id)} + OpenIds(rest) ensures v in OpenIds(all) {
      if v == Text(o.id) {
        assert all[0] == o;
      } else {
        var p :| p in rest && v == Text(p.id);
        assert p in all;
      }
    }
    if DistinctOpen(all) {
      forall i, j | 0 <= i < j < |rest| ensures rest[i].id != rest[j].id {
        assert all[i + 1].id != all[j + 1].id;
      }
      forall p | p in rest ensures p.id != o.id {
        var k :| 0 <= k < |rest| && rest[k] == p;
        assert all[0].id != all[k + 1].id;
      }
    }
    if DistinctOpen(rest) && Text(o.id) !in OpenIds(rest) {
      forall i, j | 0 <= i < j < |all| ensures all[i].id != all[j].id {
        assert all[j] == rest[j - 1] && all[j] in rest;
        assert i > 0 ==> all[i] == rest[i - 1];
      }
    }
  }

  lemma {:induction false} RemoveFacts(pending: seq<Open>, id: string)
    requires DistinctOpen(pending) && Waiting(pending, id)
    ensures DistinctOpen(Remove(pending, id))
    ensures OpenIds(Remove(pending, id)) == OpenIds(pending) - {Text(id)}
  {
    assert pending == [pending[0]] + pending[1..];
    OpenCons(pending[0], pending[1..]);
    if pending[0].id != id {
      RemoveFacts(pending[1..], id);
      OpenCons(pending[0], Remove(pending[1..], id));
    }
  }

  lemma {:induction false} PutFacts(pending: seq<Open>, id: string, name: string)
    requires DistinctOpen(pending)
    ensures DistinctOpen(Put(pending, id, name))
    ensures OpenIds(Put(pending, id, name)) == OpenIds(pending) + {Text(id)}
  {
    if pending != [] {
      assert pending == [pending[0]] + pending[1..];
      OpenCons(pending[0], pending[1..]);
      if pending[0].id == id {
        OpenCons(Open(id, name), pending[1..]);
      } else {
        PutFacts(pending[1..], id, name);
        OpenCons(pending[0], Put(pending[1..], id, name));
      }
    } else {
      OpenCons(Open(id, name), []);
      assert Put(pending, id, name) == [Open(id, name)] + [];
    }
  }

  lemma IdsCons(call: Call, rest: seq<Call>)
    ensures IdsOf([call] + rest) == {call.id} + IdsOf(rest)
  {
    var all := [call] + rest;
    assert all[0] == call;
    assert forall i :: 0 <= i < |rest| ==> all[i + 1] == rest[i];
  }

  lemma {:induction false} PutAllFacts(pending: seq<Open>, calls: seq<Call>)
    requires DistinctOpen(pending)
    requires forall i :: 0 <= i < |calls| ==> ValidCall(calls[i])
    ensures DistinctOpen(PutAll(pending, calls))
    ensures OpenIds(PutAll(pending, calls)) == OpenIds(pending) + IdsOf(calls)
    decreases |calls|
  {
    if calls != [] {
      var call, rest := calls[0], calls[1..];
      var pending' := Put(pending, Str(call.id), Str(call.name));
      PutFacts(pending, Str(call.id), Str(call.name));
      PutAllFacts(pending', rest);
      assert IdsOf(calls) == {call.id} + IdsOf(rest) by {
        IdsCons(call, rest);
        assert [call] + rest == calls;
      }
    }
  }

  lemma PendingFacts(m: Message)
    ensures DistinctOpen(Pending(m))
    ensures OpenIds(Pending(m)) == CallIds(Clean(m))
  {
    if m.AI? {
      PutAllFacts([], ValidCalls(m.calls));
    }
  }

  /** The first result for `id`. */
  function FirstFor(id: Value, results: seq<Message>): Option<Message> {
    if results == [] then None
    else if results[0].Tool? && results[0].id == id then Some(results[0])
    else FirstFor(id, results[1..])
  }

  lemma {:induction false} FirstForMember(id: Value, results: seq<Message>, i: nat)
    requires i < |results| && results[i].Tool? && results[i].id == id
    ensures FirstFor(id, results).Some?
  {
    if !(results[0].Tool? && results[0].id == id) {
      FirstForMember(id, results[1..], i - 1);
    }
  }

  lemma {:induction false} FirstForFound(id: Value, results: seq<Message>)
    requires FirstFor(id, results).Some?
    ensures FirstFor(id, results).value in results
    ensures FirstFor(id, results).value.Tool? && FirstFor(id, results).value.id == id
  {
    if !(results[0].Tool? && results[0].id == id) {
      FirstForFound(id, results[1..]);
    }
  }

  lemma {:induction false} CloseFacts(pending: seq<Open>)
    requires DistinctOpen(pending)
    ensures NoDup(ResultIds(Close(pending)))
    ensures Elements(ResultIds(Close(pending))) == OpenIds(pending)
  {
    var ids := ResultIds(Close(pending));
    forall v | v in OpenIds(pending) ensures v in ids {
      var o :| o in pending && v == Text(o.id);
      var i :| 0 <= i < |pending| && pending[i] == o;
      assert ids[i] == v;
    }
  }

  lemma {:induction false} AnswerBlockIsExact(block: seq<Message>, pending: seq<Open>)
    requires forall i :: 0 <= i < |block| ==> block[i].Tool?
    requires DistinctOpen(pending)
    ensures forall i :: 0 <= i < |AnswerBlock(block, pending)| ==> AnswerBlock(block, pending)[i].Tool?
    ensures NoDup(ResultIds(AnswerBlock(block, pending)))
    ensures Elements(ResultIds(AnswerBlock(block, pending))) == OpenIds(pending)
  {
    if block == [] {
      CloseFacts(pending);
    } else if Answers(block[0], pending) {
      var id := block[0].id.text;
      RemoveFacts(pending, id);
      var rest := AnswerBlock(block[1..], Remove(pending, id));
      AnswerBlockIsExact(block[1..], Remove(pending, id));
      assert ResultIds([block[0]] + rest) == [Text(id)] + ResultIds(rest);
      assert Text(id) !in Elements(ResultIds(rest));
      assert Elements([Text(id)] + ResultIds(rest)) == {Text(id)} + Elements(ResultIds(rest));
      var o :| 0 <= o < |pending| && pending[o].id == id;
      assert pending[o] in pending;
    } else {
      AnswerBlockIsExact(block[1..], pending);
    }
  }

  lemma {:induction false} CleanHeads(m: Message, at: nat)
    requires m.AI?
    ensures CleanHead(Clean(NormalizeHead(m, at)))
  {
    var n := NormalizeHead(m, at);
    forall i | 0 <= i < |Clean(n).calls| ensures CleanCall(Clean(n).calls[i]) {
      var c := Clean(n).calls[i];
      var k :| 0 <= k < |n.calls| && n.calls[k] == c;
      RepairIdFacts(at, k, k);
    }
  }

  lemma {:induction false} NormalizedHeads(ms: seq<Message>, at: nat, queue: seq<string>, i: nat)
    requires i < |Split(NormalizeFrom(ms, at, queue))|
    ensures CleanHead(Clean(Split(NormalizeFrom(ms, at, queue))[i].head))
    decreases |ms|
  {
    if ms != [] {
      var n := NormalizeFrom(ms, at, queue);
      var queue' := NextQueue(ms[0], at, queue);
      assert n[1..] == NormalizeFrom(ms[1..], at + 1, queue');
      if ms[0].Tool? {
        NormalizedHeads(ms[1..], at + 1, queue', i);
      } else if i > 0 {
        NormalizedHeads(ms[1..], at + 1, queue', i - 1);
      } else if ms[0].AI? {
        CleanHeads(ms[0], at);
      }
    }
  }

  lemma RepairedExchangeIsExchange(ms: seq<Message>, i: nat)
    requires i < |Split(ms)|
    ensures !RepairExchange(Split(ms)[i]).head.Tool?
    ensures var results := RepairExchange(Split(ms)[i]).results;
      forall j :: 0 <= j < |results| ==> results[j].Tool?
  {
    SplitResults(ms, i);
    PendingFacts(Split(ms)[i].head);
    AnswerBlockIsExact(Split(ms)[i].results, Pending(Split(ms)[i].head));
  }

  lemma SplitRepaired(ms: seq<Message>)
    ensures Split(Join(RepairExchanges(Split(ms)))) == RepairExchanges(Split(ms))
  {
    var es := RepairExchanges(Split(ms));
    forall i | 0 <= i < |es|
      ensures !es[i].head.Tool?
      ensures forall j :: 0 <= j < |es[i].results| ==> es[i].results[j].Tool?
    {
      RepairedExchangeIsExchange(ms, i);
    }
    SplitJoin(es);
  }

  /** The repaired history, exchange by exchange. */
  lemma RepairIsExchangewise(ms: seq<Message>)
    ensures Repair(ms) == Join(RepairExchanges(Split(Normalize(ms))))
    ensures Split(Repair(ms)) == RepairExchanges(Split(Normalize(ms)))
  {
    var n := Normalize(ms);
    StreamingIsExchangewise(n, []);
    AnswerNothing(Block(n));
    assert [] + Join(RepairExchanges(Split(n))) == Join(RepairExchanges(Split(n)));
    SplitRepaired(n);
  }

  lemma {:induction false} AnswerNothing(block: seq<Message>)
    ensures AnswerBlock(block, []) == []
  {
    if block != [] {
      AnswerNothing(block[1..]);
    }
  }

  lemma {:induction false} SplitResults(ms: seq<Message>, i: nat)
    requires i < |Split(ms)|
    ensures forall j :: 0 <= j < |Split(ms)[i].results| ==> Split(ms)[i].results[j].Tool?
    decreases |ms|
  {
    if ms[0].Tool? {
      SplitResults(ms[1..], i);
    } else if i > 0 {
      SplitResults(ms[1..], i - 1);
    }
  }

  /** Every repaired history is one a strict provider accepts. */
  lemma RepairIsProviderValid(ms: seq<Message>)
    ensures ProviderValid(Repair(ms))
  {
    RepairIsExchangewise(ms);
    var es := Split(Normalize(ms));
    forall i | 0 <= i < |es|
      ensures CleanHead(RepairExchange(es[i]).head) && ExactlyAnswered(RepairExchange(es[i]))
    {
      NormalizedHeads(ms, 0, [], i);
      SplitResults(Normalize(ms), i);
      PendingFacts(es[i].head);
      AnswerBlockIsExact(es[i].results, Pending(es[i].head));
    }
  }

  // ---------------------------------------------------------------- fixed points and idempotence

  lemma OpenIdsEmpty(pending: seq<Open>)
    ensures OpenIds(pending) == {} ==> pending == []
  {
    if pending != [] {
      assert Text(pending[0].id) in OpenIds(pending);
    }
  }

  lemma {:induction false} AnswerBlockKeepsExactBlock(block: seq<Message>, pending: seq<Open>)
    requires forall i :: 0 <= i < |block| ==> block[i].Tool?
    requires DistinctOpen(pending)
    requires NoDup(ResultIds(block)) && Elements(ResultIds(block)) == OpenIds(pending)
    ensures AnswerBlock(block, pending) == block
  {
    if block == [] {
      OpenIdsEmpty(pending);
    } else {
      var ids := ResultIds(block);
      assert ids[0] in Elements(ids);
      var o :| o in pending && Text(o.id) == ids[0];
      RemoveFacts(pending, o.id);
      assert ids[1..] == ResultIds(block[1..]);
      assert ids == [ids[0]] + ids[1..];
      AnswerBlockKeepsExactBlock(block[1..], Remove(pending, o.id));
    }
  }

  lemma {:induction false} ValidCallsIdentity(calls: seq<Call>)
    requires forall i :: 0 <= i < |calls| ==> CleanCall(calls[i])
    ensures ValidCalls(calls) == calls
  {
    if calls != [] {
      assert CleanCall(calls[0]);
      forall i | 0 <= i < |calls[1..]| ensures CleanCall(calls[1..][i]) {
        assert CleanCall(calls[i + 1]);
      }
      ValidCallsIdentity(calls[1..]);
    }
  }

  lemma CleanIdentity(m: Message)
    requires CleanHead(m)
    ensures Clean(m) == m
  {
    if m.AI? {
      ValidCallsIdentity(m.calls);
    }
  }

  /** Nothing blank, nothing to fill in. */
  lemma {:induction false} NormalizeIdentity(ms: seq<Message>, at: nat, queue: seq<string>)
    requires forall i :: 0 <= i < |ms| && ms[i].Tool? ==> !Blank(ms[i].id)
    requires forall i :: 0 <= i < |ms| ==> CleanHead(ms[i])
    ensures NormalizeFrom(ms, at, queue) == ms
  {
    if ms != [] {
      var queue' := NextQueue(ms[0], at, queue);
      NormalizeIdentity(ms[1..], at + 1, queue');
      assert NormalizeFrom(ms, at, queue)[1..] == ms[1..];
      if ms[0].AI? {
        assert forall i :: 0 <= i < |ms[0].calls| ==> CleanCall(ms[0].calls[i]);
      }
    }
  }

  /** In a joined list of clean, exactly answered exchanges every message is clean and no result id is blank. */
  lemma {:induction false} JoinedMessages(es: seq<Exchange>, i: nat)
    requires forall k :: 0 <= k < |es| ==> CleanHead(es[k].head) && ExactlyAnswered(es[k])
    requires forall k :: 0 <= k < |es| ==> !es[k].head.Tool?
    requires i < |Join(es)|
    ensures CleanHead(Join(es)[i])
    ensures Join(es)[i].Tool? ==> !Blank(Join(es)[i].id)
    decreases |es|
  {
    var e := es[0];
    assert ExactlyAnswered(e);
    if i > |e.results| {
      JoinedMessages(es[1..], i - 1 - |e.results|);
    } else if i > 0 {
      var id := ResultIds(e.results)[i - 1];
      assert id in Elements(ResultIds(e.results));
      var k :| 0 <= k < |e.head.calls| && e.head.calls[k].id == id;
      assert CleanCall(e.head.calls[k]);
    }
  }

  /** Repair leaves a history alone exactly when the history already is provider-valid. */
  lemma RepairFixesExactlyTheInvalid(ms: seq<Message>)
    ensures Repair(ms) == ms <==> ProviderValid(ms)
  {
    RepairIsProviderValid(ms);
    if ProviderValid(ms) {
      var es := Split(ms);
      forall i | 0 <= i < |ms|
        ensures CleanHead(ms[i]) && (ms[i].Tool? ==> !Blank(ms[i].id))
      {
        JoinedMessages(es, i);
      }
      NormalizeIdentity(ms, 0, []);
      RepairIsExchangewise(ms);
      forall i | 0 <= i < |es| ensures RepairExchange(es[i]) == es[i] {
        CleanIdentity(es[i].head);
        PendingFacts(es[i].head);
        AnswerBlockKeepsExactBlock(es[i].results, Pending(es[i].head));
      }
      assert RepairExchanges(es) == es;
    }
  }

  /** Repairing twice equals repairing once. */
  lemma RepairIsIdempotent(ms: seq<Message>)
    ensures Repair(Repair(ms)) == Repair(ms)
  {
    RepairIsProviderValid(ms);
    RepairFixesExactlyTheInvalid(Repair(ms));
  }

  // ---------------------------------------------------------------- preservation

  /** `n` is `m` up to ids the first pass filled in. */
  predicate SameUpToFilledIds(m: Message, n: Message, at: nat) {
    match m
    case AI(prose, calls, invalid, rawCalls, extra) =>
      && n.AI? && |n.calls| == |calls|
      && n == AI(prose, n.calls, invalid, if n.calls == calls then rawCalls else None, extra)
      && forall j :: 0 <= j < |calls| ==>
           n.calls[j] == if Blank(calls[j].id) then calls[j].(id := Text(RepairId(at, j))) else calls[j]
    case Tool(id, _, _, _) => n.Tool? && n == m.(id := n.id) && (n.id == id || Blank(id))
    case Other(_) => n == m
  }

  lemma HeadFilled(m: Message, at: nat)
    requires m.AI?
    ensures SameUpToFilledIds(m, NormalizeHead(m, at), at)
  {
    var n := NormalizeHead(m, at);
    if AnyBlank(m.calls) {
      var j :| 0 <= j < |m.calls| && Blank(m.calls[j].id);
      RepairIdFacts(at, j, j);
      assert n.calls[j] != m.calls[j];
    }
  }

  lemma NormalizeStepsOn(ms: seq<Message>, at: nat, queue: seq<string>)
    requires ms != []
    ensures var n := NormalizeFrom(ms, at, queue);
      && n != [] && n[0] == NormalizeOne(ms[0], at, queue)
      && n[1..] == NormalizeFrom(ms[1..], at + 1, NextQueue(ms[0], at, queue))
  {
  }

  lemma OneFilled(m: Message, at: nat, queue: seq<string>)
    ensures SameUpToFilledIds(m, NormalizeOne(m, at, queue), at)
  {
    if m.AI? {
      HeadFilled(m, at);
    }
  }

  ghost predicate FilledAt(ms: seq<Message>, at: nat, out: seq<Message>, i: nat) {
    i < |ms| == |out| && SameUpToFilledIds(ms[i], out[i], at + i)
  }

  lemma FilledLater(ms: seq<Message>, at: nat, out: seq<Message>, i: nat)
    requires 0 < i < |ms| == |out| && FilledAt(ms[1..], at + 1, out[1..], i - 1)
    ensures FilledAt(ms, at, out, i)
  {
    assert ms[1..][i - 1] == ms[i] && out[1..][i - 1] == out[i];
  }

  /** The first pass changes nothing but blank ids, message by message. */
  lemma {:induction false} NormalizePointwise(ms: seq<Message>, at: nat, queue: seq<string>, i: nat)
    requires i < |ms|
    ensures FilledAt(ms, at, NormalizeFrom(ms, at, queue), i)
    decreases |ms|
  {
    NormalizeStepsOn(ms, at, queue);
    if i > 0 {
      NormalizePointwise(ms[1..], at + 1, NextQueue(ms[0], at, queue), i - 1);
      FilledLater(ms, at, NormalizeFrom(ms, at, queue), i);
    } else {
      OneFilled(ms[0], at, queue);
    }
  }

  /** The messages that are no tool results, in order. */
  function NonTools(ms: seq<Message>): seq<Message> {
    if ms == [] then [] else (if ms[0].Tool? then [] else [ms[0]]) + NonTools(ms[1..])
  }

  function Heads(es: seq<Exchange>): (hs: seq<Message>)
    ensures |hs| == |es|
  {
    seq(|es|, i requires 0 <= i < |es| => es[i].head)
  }

  lemma {:induction false} SplitHeads(ms: seq<Message>)
    ensures Heads(Split(ms)) == NonTools(ms)
    decreases |ms|
  {
    if ms != [] {
      SplitHeads(ms[1..]);
      if !ms[0].Tool? {
        assert Heads(Split(ms)) == [ms[0]] + Heads(Split(ms[1..]));
      }
    }
  }

  /** The name under which an unanswered call is closed: that of its last valid duplicate. */
  function OpenName(pending: seq<Open>, id: string): Option<string> {
    if pending == [] then None
    else if pending[0].id == id then Some(pending[0].name)
    else OpenName(pending[1..], id)
  }

  lemma {:induction false} FirstForClosed(pending: seq<Open>, id: string)
    requires Waiting(pending, id)
    ensures OpenName(pending, id).Some?
    ensures FirstFor(Text(id), Close(pending)) == Some(Interrupted(Open(id, OpenName(pending, id).value)))
  {
    assert Close(pending)[0] == Interrupted(pending[0]);
    assert Close(pending)[1..] == Close(pending[1..]);
    if pending[0].id != id {
      FirstForClosed(pending[1..], id);
    }
  }

  lemma {:induction false} RemoveOther(pending: seq<Open>, gone: string, id: string)
    requires gone != id
    ensures OpenName(Remove(pending, gone), id) == OpenName(pending, id)
    ensures Waiting(Remove(pending, gone), id) <==> Waiting(pending, id)
  {
    if pending != [] {
      RemoveOther(pending[1..], gone, id);
      var r := Remove(pending, gone);
      assert Waiting(pending, id) <==> pending[0].id == id || Waiting(pending[1..], id) by {
        assert forall i :: 0 <= i < |pending[1..]| ==> pending[1..][i] == pending[i + 1];
      }
      if pending[0].id != gone {
        assert r[1..] == Remove(pending[1..], gone);
        assert Waiting(r, id) <==> r[0].id == id || Waiting(r[1..], id) by {
          assert forall i :: 0 <= i < |r[1..]| ==> r[1..][i] == r[i + 1];
        }
      }
    }
  }

  lemma {:induction false} FirstAnswerWins(block: seq<Message>, pending: seq<Open>, id: string)
    requires forall i :: 0 <= i < |block| ==> block[i].Tool?
    requires Waiting(pending, id)
    ensures OpenName(pending, id).Some?
    ensures FirstFor(Text(id), AnswerBlock(block, pending))
         == if FirstFor(Text(id), block).Some? then FirstFor(Text(id), block)
            else Some(Interrupted(Open(id, OpenName(pending, id).value)))
  {
    if block == [] {
      FirstForClosed(pending, id);
    } else if Answers(block[0], pending) {
      var got := block[0].id.text;
      var rest := AnswerBlock(block[1..], Remove(pending, got));
      assert AnswerBlock(block, pending)[0] == block[0] && AnswerBlock(block, pending)[1..] == rest;
      if got == id {
        FirstForClosed(pending, id);
      } else {
        RemoveOther(pending, got, id);
        FirstAnswerWins(block[1..], Remove(pending, got), id);
      }
    } else {
      FirstAnswerWins(block[1..], pending, id);
    }
  }

  /** Heads keep their order and lose only what strict providers refuse; each call is answered by
      the first real result that names it in its own block, and by the interruption notice otherwise. */
  lemma RepairKeepsNormalized(ms: seq<Message>, i: nat, id: string)
    requires i < |NonTools(Normalize(ms))|
    ensures |Split(Normalize(ms))| == |Split(Repair(ms))| == |NonTools(Normalize(ms))| == |NonTools(Repair(ms))|
    ensures NonTools(Repair(ms))[i] == Clean(NonTools(Normalize(ms))[i])
    ensures var before := Split(Normalize(ms))[i];
            var after := Split(Repair(ms))[i];
            Text(id) in CallIds(after.head) ==>
              && OpenName(Pending(before.head), id).Some?
              && FirstFor(Text(id), after.results)
                 == if FirstFor(Text(id), before.results).Some? then FirstFor(Text(id), before.results)
                    else Some(Interrupted(Open(id, OpenName(Pending(before.head), id).value)))
  {
    RepairIsExchangewise(ms);
    SplitHeads(Normalize(ms));
    SplitHeads(Repair(ms));
    var before := Split(Normalize(ms))[i];
    assert NonTools(Normalize(ms))[i] == Heads(Split(Normalize(ms)))[i] == before.head;
    assert NonTools(Repair(ms))[i] == Heads(Split(Repair(ms)))[i] == RepairExchange(before).head;
    if Text(id) in CallIds(Clean(before.head)) {
      PendingFacts(before.head);
      var o :| o in Pending(before.head) && Text(o.id) == Text(id);
      var k :| 0 <= k < |Pending(before.head)| && Pending(before.head)[k] == o;
      SplitResults(Normalize(ms), i);
      FirstAnswerWins(before.results, Pending(before.head), id);
    }
  }

  // ---------------------------------------------------------------- pairing by position

  /** The results of an exchange after the first pass; the head is message number `at`. */
  function FilledResults(calls: seq<Call>, at: nat, results: seq<Message>): (out: seq<Message>)
    ensures |out| == |results|
  {
    NormalizeFrom(results, at + 1, CallIdTexts(FillIds(calls, at)))
  }

  /** After an assistant message the pass goes on with that message's calls, whatever was before. */
  ghost predicate GoesOnAfter(ms: seq<Message>, at: nat, out: seq<Message>, i: nat) {
    && i < |ms| == |out| && ms[i].AI? && out[i] == NormalizeHead(ms[i], at + i)
    && out[i + 1..] == NormalizeFrom(ms[i + 1..], at + i + 1, CallIdTexts(FillIds(ms[i].calls, at + i)))
  }

  lemma GoesOnLater(ms: seq<Message>, at: nat, out: seq<Message>, i: nat)
    requires 0 < i < |ms| == |out| && GoesOnAfter(ms[1..], at + 1, out[1..], i - 1)
    ensures GoesOnAfter(ms, at, out, i)
  {
    assert ms[1..][i - 1 + 1..] == ms[i + 1..] && ms[1..][i - 1] == ms[i];
    assert out[1..][i - 1 + 1..] == out[i + 1..] && out[1..][i - 1] == out[i];
    assert at + 1 + (i - 1) == at + i;
  }

  lemma GoesOnAtOnce(ms: seq<Message>, at: nat, queue: seq<string>)
    requires ms != [] && ms[0].AI?
    ensures GoesOnAfter(ms, at, NormalizeFrom(ms, at, queue), 0)
  {
    NormalizeStepsOn(ms, at, queue);
  }

  lemma {:induction false} NormalizeAfter(ms: seq<Message>, at: nat, queue: seq<string>, i: nat)
    requires i < |ms| && ms[i].AI?
    ensures GoesOnAfter(ms, at, NormalizeFrom(ms, at, queue), i)
    decreases |ms|
  {
    if i == 0 {
      GoesOnAtOnce(ms, at, queue);
    } else {
      NormalizeStepsOn(ms, at, queue);
      NormalizeAfter(ms[1..], at + 1, NextQueue(ms[0], at, queue), i - 1);
      GoesOnLater(ms, at, NormalizeFrom(ms, at, queue), i);
    }
  }

  lemma PrefixTail(short: seq<Message>, ms: seq<Message>)
    requires short != [] && short <= ms
    ensures ms != [] && short[0] == ms[0] && short[1..] <= ms[1..]
  {
  }

  /** What follows does not matter to the messages before it. */
  lemma {:induction false} NormalizePrefix(short: seq<Message>, ms: seq<Message>, at: nat, queue: seq<string>, k: nat)
    requires k < |short| && short <= ms
    ensures NormalizeFrom(ms, at, queue)[k] == NormalizeFrom(short, at, queue)[k]
    decreases |short|
  {
    PrefixTail(short, ms);
    NormalizeStepsOn(ms, at, queue);
    NormalizeStepsOn(short, at, queue);
    if k > 0 {
      NormalizePrefix(short[1..], ms[1..], at + 1, NextQueue(ms[0], at, queue), k - 1);
    }
  }

  /** Inside a history, the first pass fills the results after message `i` from its own calls only: each
      reads as it would right after that message alone. */
  lemma NormalizeIsLocal(ms: seq<Message>, i: nat, n: nat, k: nat)
    requires i + n < |ms| && ms[i].AI? && k < n
    ensures Normalize(ms)[i] == NormalizeHead(ms[i], i)
    ensures Normalize(ms)[i + 1 + k] == FilledResults(ms[i].calls, i, ms[i + 1..i + 1 + n])[k]
  {
    NormalizeAfter(ms, 0, [], i);
    NormalizePrefix(ms[i + 1..i + 1 + n], ms[i + 1..], i + 1, CallIdTexts(FillIds(ms[i].calls, i)), k);
    assert Normalize(ms)[i + 1..][k] == Normalize(ms)[i + 1 + k];
  }

  function BlankCount(results: seq<Message>): nat {
    if results == [] then 0
    else BlankCount(results[1..]) + if results[0].Tool? && Blank(results[0].id) then 1 else 0
  }

  lemma {:induction false} BlankCountBound(results: seq<Message>)
    ensures BlankCount(results) <= |results|
    ensures BlankCount(results) == |results| <==>
            forall i :: 0 <= i < |results| ==> results[i].Tool? && Blank(results[i].id)
  {
    if results != [] {
      BlankCountBound(results[1..]);
      if BlankCount(results[1..]) == |results[1..]| && results[0].Tool? && Blank(results[0].id) {
        forall i | 0 <= i < |results| ensures results[i].Tool? && Blank(results[i].id) {
          assert i > 0 ==> results[i] == results[1..][i - 1];
        }
      }
      if forall i :: 0 <= i < |results| ==> results[i].Tool? && Blank(results[i].id) {
        forall i | 0 <= i < |results[1..]| ensures results[1..][i].Tool? && Blank(results[1..][i].id) {
          assert results[1..][i] == results[i + 1];
        }
      }
    }
  }

  /** A blank result takes the queue entry numbered by the blank results before it. */
  lemma {:induction false} FilledId(results: seq<Message>, at: nat, queue: seq<string>, i: nat)
    requires forall k :: 0 <= k < |results| ==> results[k].Tool?
    requires i < |results|
    ensures NormalizeFrom(results, at, queue)[i].Tool?
    ensures NormalizeFrom(results, at, queue)[i].id
         == if Blank(results[i].id) && BlankCount(results[..i]) < |queue|
            then Text(queue[BlankCount(results[..i])]) else results[i].id
    decreases |results|
  {
    if i > 0 {
      var blank := Blank(results[0].id);
      var queue' := if blank && queue != [] then queue[1..] else queue;
      assert NormalizeFrom(results, at, queue)[1..] == NormalizeFrom(results[1..], at + 1, queue');
      FilledId(results[1..], at + 1, queue', i - 1);
      assert results[..i][0] == results[0] && results[..i][1..] == results[1..][..i - 1];
    }
  }

  /** Calls whose ids, once filled in, are distinct strings. */
  ghost predicate DistinctCalls(calls: seq<Call>, at: nat) {
    && (forall i :: 0 <= i < |calls| ==> FillIds(calls, at)[i].id.Text?)
    && NoDup(CallIdTexts(FillIds(calls, at)))
  }

  /** Results reported in call order: each is blank or names the call of its own position. */
  ghost predicate Positional(calls: seq<Call>, at: nat, results: seq<Message>) {
    && (forall i :: 0 <= i < |results| ==> results[i].Tool?)
    && forall i :: 0 <= i < |results| && i < |calls| ==>
         Blank(results[i].id) || results[i].id == FillIds(calls, at)[i].id
  }

  ghost predicate PairedByPosition(calls: seq<Call>, at: nat, results: seq<Message>) {
    forall i :: 0 <= i < |results| && i < |calls| ==>
      FilledResults(calls, at, results)[i].Tool?
      && FilledResults(calls, at, results)[i].id == FillIds(calls, at)[i].id
  }

  /** Results in call order end up with their own calls exactly when no result that carries an id
      stands before a blank one: a result with an id does not consume its queue entry. */
  lemma PositionalPairing(calls: seq<Call>, at: nat, results: seq<Message>)
    requires DistinctCalls(calls, at) && Positional(calls, at, results)
    ensures PairedByPosition(calls, at, results) <==>
            forall i, j :: 0 <= i < j < |results| && j < |calls| && Blank(results[j].id) ==> Blank(results[i].id)
  {
    var queue := CallIdTexts(FillIds(calls, at));
    forall j | 0 <= j < |results| && j < |calls|
      ensures FilledResults(calls, at, results)[j].Tool?
      ensures FilledResults(calls, at, results)[j].id == FillIds(calls, at)[j].id
         <==> (Blank(results[j].id) ==> forall i :: 0 <= i < j ==> Blank(results[i].id))
    {
      FilledId(results, at + 1, queue, j);
      BlankCountBound(results[..j]);
      assert FillIds(calls, at)[j].id == Text(queue[j]);
      var b := BlankCount(results[..j]);
      assert b != j ==> queue[b] != queue[j];
      if b == j {
        assert forall i :: 0 <= i < j ==> results[i] == results[..j][i];
      }
    }
  }

  /** When a whole exchange lost its ids, the i-th result still answers the i-th call. */
  lemma BlankExchangePairing(calls: seq<Call>, at: nat, results: seq<Message>)
    requires forall i :: 0 <= i < |calls| ==> Blank(calls[i].id)
    requires forall i :: 0 <= i < |results| ==> results[i].Tool? && Blank(results[i].id)
    ensures DistinctCalls(calls, at) && PairedByPosition(calls, at, results)
  {
    var ids := CallIdTexts(FillIds(calls, at));
    forall i, j | 0 <= i < j < |ids| ensures ids[i] != ids[j] {
      RepairIdFacts(at, i, j);
    }
    PositionalPairing(calls, at, results);
  }

  lemma {:induction false} PutNew(pending: seq<Open>, id: string, name: string)
    requires !Waiting(pending, id)
    ensures Put(pending, id, name) == pending + [Open(id, name)]
  {
    if pending != [] {
      assert pending[0].id != id;
      forall i | 0 <= i < |pending[1..]| ensures pending[1..][i].id != id {
        assert pending[1..][i] == pending[i + 1];
      }
      PutNew(pending[1..], id, name);
    }
  }

  function Opens(calls: seq<Call>): (os: seq<Open>)
    ensures |os| == |calls|
  {
    seq(|calls|, i requires 0 <= i < |calls| => Open(Str(calls[i].id), Str(calls[i].name)))
  }

  lemma {:induction false} PutAllDistinct(pending: seq<Open>, calls: seq<Call>)
    requires DistinctOpen(pending + Opens(calls))
    ensures PutAll(pending, calls) == pending + Opens(calls)
    decreases |calls|
  {
    if calls != [] {
      var o := Open(Str(calls[0].id), Str(calls[0].name));
      var all := pending + Opens(calls);
      assert all[|pending|] == o;
      assert forall i :: 0 <= i < |pending| ==> all[i] == pending[i];
      PutNew(pending, o.id, o.name);
      assert Opens(calls) == [o] + Opens(calls[1..]);
      assert pending + [o] + Opens(calls[1..]) == all;
      PutAllDistinct(pending + [o], calls[1..]);
    }
  }

  function Min(a: nat, b: nat): nat {
    if a <= b then a else b
  }

  lemma {:induction false} AnswerFirst(block: seq<Message>, pending: seq<Open>)
    requires block != [] && pending != [] && block[0].Tool? && block[0].id == Text(pending[0].id)
    ensures AnswerBlock(block, pending) == [block[0]] + AnswerBlock(block[1..], pending[1..])
  {
    assert Waiting(pending, pending[0].id);
    assert Remove(pending, pending[0].id) == pending[1..];
  }

  lemma FirstAndRest(block: seq<Message>, n: nat)
    requires 0 < n <= |block|
    ensures block[..n] == [block[0]] + block[1..][..n - 1]
  {
  }

  lemma {:induction false} AnswerInOrder(block: seq<Message>, pending: seq<Open>)
    requires forall i :: 0 <= i < |block| && i < |pending| ==> block[i].Tool? && block[i].id == Text(pending[i].id)
    ensures var n := Min(|block|, |pending|);
            AnswerBlock(block, pending) == block[..n] + Close(pending[n..])
  {
    if pending == [] {
      AnswerNothing(block);
    } else if block != [] {
      var n := Min(|block|, |pending|);
      AnswerFirst(block, pending);
      AnswerInOrder(block[1..], pending[1..]);
      FirstAndRest(block, n);
      assert pending[1..][n - 1..] == pending[n..];
      Assoc([block[0]], block[1..][..n - 1], Close(pending[n..]));
    }
  }

  lemma NothingBlank(calls: seq<Call>, at: nat)
    requires !AnyBlank(calls)
    ensures FillIds(calls, at) == calls
  {
    assert forall i :: 0 <= i < |calls| ==> FillId(calls[i], at, i) == calls[i];
  }

  lemma DistinctOpens(calls: seq<Call>)
    requires NoDup(CallIdTexts(calls))
    ensures DistinctOpen(Opens(calls))
  {
    var pending := Opens(calls);
    forall i, j | 0 <= i < j < |pending| ensures pending[i].id != pending[j].id {
      assert CallIdTexts(calls)[i] != CallIdTexts(calls)[j];
    }
  }

  lemma PutAllFromNothing(calls: seq<Call>)
    requires DistinctOpen(Opens(calls))
    ensures PutAll([], calls) == Opens(calls)
  {
    assert [] + Opens(calls) == Opens(calls);
    PutAllDistinct([], calls);
  }

  lemma PendingOfDistinct(head: Message, at: nat)
    requires head.AI? && DistinctCalls(head.calls, at)
    requires forall i :: 0 <= i < |head.calls| ==> ValidCall(FillIds(head.calls, at)[i])
    ensures Pending(NormalizeHead(head, at)) == Opens(FillIds(head.calls, at))
    ensures DistinctOpen(Opens(FillIds(head.calls, at)))
  {
    var filled := FillIds(head.calls, at);
    if !AnyBlank(head.calls) {
      NothingBlank(head.calls, at);
    }
    assert NormalizeHead(head, at).calls == filled;
    ValidCallsAll(filled);
    DistinctOpens(filled);
    PutAllFromNothing(filled);
  }

  /** An exchange paired by position keeps its results in order, closes the calls that got none
      and drops any surplus. */
  lemma PairedExchangeKeepsItsResults(head: Message, at: nat, results: seq<Message>, n: nat)
    requires head.AI? && DistinctCalls(head.calls, at)
    requires forall i :: 0 <= i < |head.calls| ==> ValidCall(FillIds(head.calls, at)[i])
    requires PairedByPosition(head.calls, at, results)
    requires n == Min(|results|, |head.calls|)
    ensures RepairExchange(Exchange(NormalizeHead(head, at), FilledResults(head.calls, at, results))).results
         == FilledResults(head.calls, at, results)[..n] + Close(Opens(FillIds(head.calls, at)[n..]))
  {
    PendingOfDistinct(head, at);
    var filled := FillIds(head.calls, at);
    var pending := Opens(filled);
    var block := FilledResults(head.calls, at, results);
    forall i | 0 <= i < |block| && i < |pending|
      ensures block[i].Tool? && block[i].id == Text(pending[i].id)
    {
      assert filled[i].id.Text?;
    }
    AnswerInOrder(block, pending);
    assert pending[n..] == Opens(filled[n..]);
  }

  lemma {:induction false} ValidCallsAll(calls: seq<Call>)
    requires forall i :: 0 <= i < |calls| ==> ValidCall(calls[i])
    ensures ValidCalls(calls) == calls
  {
    if calls != [] {
      assert ValidCall(calls[0]);
      forall i | 0 <= i < |calls[1..]| ensures ValidCall(calls[1..][i]) {
        assert ValidCall(calls[i + 1]);
      }
      ValidCallsAll(calls[1..]);
    }
  }

  /** Two calls, the second without an id, both answered in order and successfully. */
  const FIRST_CALL := Call(Text("a"), Text("run"), NotObject(""), "")
  const MIXED_CALLS := [FIRST_CALL, FIRST_CALL.(id := Null)]
  const MIXED_HEAD := AI(Plain(""), MIXED_CALLS, [], None, "")
  const FIRST_ANSWER := Tool(Text("a"), Text("run"), Opaque("1"), Success)
  const SECOND_ANSWER := Tool(Null, Text("run"), Opaque("2"), Success)

  lemma MixedExchangeFilled()
    ensures FillIds(MIXED_CALLS, 0) == [FIRST_CALL, FIRST_CALL.(id := Text(RepairId(0, 1)))]
    ensures NormalizeFrom([FIRST_ANSWER, SECOND_ANSWER], 1, ["a", RepairId(0, 1)])
         == [FIRST_ANSWER, SECOND_ANSWER.(id := Text("a"))]
  {
    assert !Blank(Text("a")) by { assert "a"[0] == 'a' && 'a' as int == 97; }
    var queue := ["a", RepairId(0, 1)];
    assert [FIRST_ANSWER, SECOND_ANSWER][1..] == [SECOND_ANSWER];
    assert NormalizeFrom([SECOND_ANSWER], 2, queue) == [SECOND_ANSWER.(id := Text("a"))];
  }

  lemma MixedBlock()
    ensures DistinctCalls(MIXED_CALLS, 0) && Positional(MIXED_CALLS, 0, [FIRST_ANSWER, SECOND_ANSWER])
    ensures AnswerBlock(FilledResults(MIXED_CALLS, 0, [FIRST_ANSWER, SECOND_ANSWER]),
                        Pending(NormalizeHead(MIXED_HEAD, 0)))
         == [FIRST_ANSWER, Interrupted(Open(RepairId(0, 1), "run"))]
  {
    MixedExchangeFilled();
    var filled := FillIds(MIXED_CALLS, 0);
    var rid := RepairId(0, 1);
    assert rid[0] == 'o';
    assert CallIdTexts(filled) == ["a", rid];
    assert AnyBlank(MIXED_CALLS) by { assert Blank(MIXED_CALLS[1].id); }
    var o1, o2 := Open("a", "run"), Open(rid, "run");
    assert Opens(filled) == [o1, o2];
    PendingOfDistinct(MIXED_HEAD, 0);
    MixedAnswered(o1, o2);
  }

  lemma MixedAnswered(o1: Open, o2: Open)
    requires o1.id == "a" && o2.id != "a"
    ensures AnswerBlock([FIRST_ANSWER, SECOND_ANSWER.(id := Text("a"))], [o1, o2])
         == [FIRST_ANSWER, Interrupted(o2)]
  {
    var second := SECOND_ANSWER.(id := Text("a"));
    assert Waiting([o1, o2], "a") by { assert [o1, o2][0].id == "a"; }
    assert Remove([o1, o2], "a") == [o2];
    assert AnswerBlock([second], [o2]) == Close([o2]);
    assert [FIRST_ANSWER, second][1..] == [second];
  }

  /** The history of one exchange is repaired as that exchange. */
  lemma RepairOneExchange(head: Message, results: seq<Message>)
    requires head.AI? && forall j :: 0 <= j < |results| ==> results[j].Tool?
    ensures Repair([head] + results)
         == [Clean(NormalizeHead(head, 0))]
            + AnswerBlock(FilledResults(head.calls, 0, results), Pending(NormalizeHead(head, 0)))
  {
    var filled := FilledResults(head.calls, 0, results);
    var head' := NormalizeHead(head, 0);
    assert ([head] + results)[1..] == results;
    assert Normalize([head] + results) == [head'] + filled;
    FilledAreTools(results, 1, CallIdTexts(FillIds(head.calls, 0)));
    SplitAfterBlock(filled, []);
    assert filled + [] == filled;
    assert ([head'] + filled)[1..] == filled;
    var e := Exchange(head', filled);
    assert Split([head'] + filled) == [e];
    RepairIsExchangewise([head] + results);
    assert [e][1..] == [];
    assert RepairExchanges([e]) == [RepairExchange(e)] && [RepairExchange(e)][1..] == [];
  }

  lemma {:induction false} FilledAreTools(results: seq<Message>, at: nat, queue: seq<string>)
    requires forall j :: 0 <= j < |results| ==> results[j].Tool?
    ensures forall j :: 0 <= j < |results| ==> NormalizeFrom(results, at, queue)[j].Tool?
    decreases |results|
  {
    if results != [] {
      FilledAreTools(results[1..], at + 1, NextQueue(results[0], at, queue));
    }
  }

  /** The second answer is taken for another answer to the first call and dropped; its own call is
      reported as interrupted. */
  lemma MixedExchangeLosesAnAnswer()
    ensures DistinctCalls(MIXED_CALLS, 0) && Positional(MIXED_CALLS, 0, [FIRST_ANSWER, SECOND_ANSWER])
    ensures Repair([MIXED_HEAD, FIRST_ANSWER, SECOND_ANSWER])
         == [Clean(NormalizeHead(MIXED_HEAD, 0)), FIRST_ANSWER, Interrupted(Open(RepairId(0, 1), "run"))]
  {
    MixedBlock();
    RepairOneExchange(MIXED_HEAD, [FIRST_ANSWER, SECOND_ANSWER]);
    assert [MIXED_HEAD] + [FIRST_ANSWER, SECOND_ANSWER] == [MIXED_HEAD, FIRST_ANSWER, SECOND_ANSWER];
  }
}
