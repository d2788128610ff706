/** Repair measured against the messages as they were given, before any id was filled in. */
module ToolHistoryPreservation {
  import opened Common
  import opened Messages
  import opened ToolHistory
  import opened ToolHistoryProofs

  // ---------------------------------------------------------------- white space

  /** The characters of Unicode that count as white space. */
  const SPACES := "\t\n\U{000B}\U{000C}\r\U{001C}\U{001D}\U{001E}\U{001F} \U{0085}\U{00A0}\U{1680}"
    + "\U{2000}\U{2001}\U{2002}\U{2003}\U{2004}\U{2005}\U{2006}\U{2007}\U{2008}\U{2009}\U{200A}"
    + "\U{2028}\U{2029}\U{202F}\U{205F}\U{3000}"

  lemma SpacesExactly(c: char)
    ensures IsSpace(c) <==> c in SPACES
  {
    assert |SPACES| == 29;
    var n := c as int;
  }

  /** An id is blank exactly when it is absent or a text of white space alone. */
  lemma BlankExactly(v: Value)
    ensures Blank(v) <==> v == Null || (v.Text? && forall c :: c in v.text ==> c in SPACES)
  {
    forall c: char ensures IsSpace(c) <==> c in SPACES {
      SpacesExactly(c);
    }
  }

  // ---------------------------------------------------------------- heads

  /** The calls that stay: those with a non-empty id and name that are strings, a blank id replaced by one
      made of the numbers of the message and of the call. */
  function KeptCalls(calls: seq<Call>, at: nat, number: nat): seq<Call>
    decreases |calls|
  {
    if calls == [] then []
    else
      var call := calls[0];
      var id := if Blank(call.id) then Text("ocean_repair_" + Decimal(at) + "_" + Decimal(number)) else call.id;
      (if id.Text? && id.text != "" && call.name.Text? && call.name.text != "" then [call.(id := id)] else [])
      + KeptCalls(calls[1..], at, number + 1)
  }

  /** What repair makes of message number `at`, which is no tool result. */
  function RepairedHead(m: Message, at: nat): Message {
    if m.AI? then AI(m.prose, KeptCalls(m.calls, at, 0), [], None, m.extra) else m
  }

  lemma {:induction false} KeptAreValid(calls: seq<Call>, at: nat, k: nat)
    requires k <= |calls|
    ensures ValidCalls(FillIds(calls, at)[k..]) == KeptCalls(calls[k..], at, k)
    decreases |calls| - k
  {
    if k < |calls| {
      var filled := FillIds(calls, at);
      KeptAreValid(calls, at, k + 1);
      assert calls[k..][0] == calls[k] && calls[k..][1..] == calls[k + 1..];
      assert filled[k..][0] == filled[k] == FillId(calls[k], at, k) && filled[k..][1..] == filled[k + 1..];
    }
  }

  lemma HeadIsRepaired(m: Message, at: nat)
    requires !m.Tool?
    ensures Clean(if m.AI? then NormalizeHead(m, at) else m) == RepairedHead(m, at)
  {
    if m.AI? {
      KeptAreValid(m.calls, at, 0);
      if !AnyBlank(m.calls) {
        NothingBlank(m.calls, at);
      }
      assert m.calls[0..] == m.calls && FillIds(m.calls, at)[0..] == FillIds(m.calls, at);
    }
  }

  /** The digits of a number, base ten. */
  ghost function ValueOf(digits: string): int {
    if digits == "" then 0
    else ValueOf(digits[..|digits| - 1]) * 10 + (digits[|digits| - 1] as int - '0' as int)
  }

  /** `Decimal` writes a number in base ten, without leading zeros. */
  lemma {:induction false} DecimalReads(n: nat)
    ensures ValueOf(Decimal(n)) == n
    ensures |Decimal(n)| > 1 ==> Decimal(n)[0] != '0'
    ensures n > 0 ==> Decimal(n)[0] != '0'
  {
    var last := Digit(n % 10);
    assert last as int - '0' as int == n % 10;
    if n >= 10 {
      DecimalReads(n / 10);
      var front := Decimal(n / 10);
      assert (front + [last])[..|front + [last]| - 1] == front;
    } else {
      assert ValueOf("") == 0;
      assert [last][..0] == "";
    }
  }

  /** What is left of the messages that are no tool results; the first message is number `at`. */
  function RepairedHeads(ms: seq<Message>, at: nat): seq<Message> {
    if ms == [] then []
    else (if ms[0].Tool? then [] else [RepairedHead(ms[0], at)]) + RepairedHeads(ms[1..], at + 1)
  }

  function CleanAll(ms: seq<Message>): seq<Message> {
    if ms == [] then [] else [Clean(ms[0])] + CleanAll(ms[1..])
  }

  lemma CleanCons(m: Message, ms: seq<Message>)
    ensures CleanAll([m] + ms) == [Clean(m)] + CleanAll(ms)
  {
    assert ([m] + ms)[1..] == ms;
  }

  lemma NonToolsOf(n: seq<Message>, m: Message, rest: seq<Message>)
    requires n != [] && n[0] == m && n[1..] == rest
    ensures NonTools(n) == if m.Tool? then NonTools(rest) else [m] + NonTools(rest)
  {
  }

  lemma {:induction false} HeadsOfNormalized(ms: seq<Message>, at: nat, queue: seq<string>)
    ensures CleanAll(NonTools(NormalizeFrom(ms, at, queue))) == RepairedHeads(ms, at)
    decreases |ms|
  {
    if ms != [] {
      var m, queue' := NormalizeOne(ms[0], at, queue), NextQueue(ms[0], at, queue);
      var rest := NormalizeFrom(ms[1..], at + 1, queue');
      NormalizeStepsOn(ms, at, queue);
      HeadsOfNormalized(ms[1..], at + 1, queue');
      if !ms[0].Tool? {
        HeadIsRepaired(ms[0], at);
      }
      NonToolsOf(NormalizeFrom(ms, at, queue), m, rest);
      CleanCons(m, NonTools(rest));
    }
  }

  lemma HeadsCons(e: Exchange, es: seq<Exchange>)
    ensures Heads([e] + es) == [e.head] + Heads(es)
  {
  }

  lemma {:induction false} HeadsOfRepaired(es: seq<Exchange>)
    ensures Heads(RepairExchanges(es)) == CleanAll(Heads(es))
  {
    if es != [] {
      HeadsOfRepaired(es[1..]);
      HeadsCons(RepairExchange(es[0]), RepairExchanges(es[1..]));
      HeadsCons(es[0], es[1..]);
      assert [es[0]] + es[1..] == es;
      CleanCons(es[0].head, Heads(es[1..]));
    }
  }

  /** Messages that are no results stay, in order; an assistant message loses only what strict
      providers refuse and gains ids for blank ones. */
  lemma RepairKeepsHeads(ms: seq<Message>)
    ensures NonTools(Repair(ms)) == RepairedHeads(ms, 0)
  {
    RepairIsExchangewise(ms);
    SplitHeads(Repair(ms));
    SplitHeads(Normalize(ms));
    HeadsOfRepaired(Split(Normalize(ms)));
    HeadsOfNormalized(ms, 0, []);
  }

  // ---------------------------------------------------------------- answers

  /** Tool results that differ from the given ones only in ids that were blank. */
  ghost predicate FilledFrom(given: seq<Message>, filled: seq<Message>) {
    |given| == |filled| && forall j :: 0 <= j < |given| ==> given[j].Tool? && SameUpToFilledIds(given[j], filled[j], 0)
  }

  lemma {:induction false} BlockFilled(ms: seq<Message>, at: nat, queue: seq<string>)
    ensures FilledFrom(ToolHistoryProofs.Block(ms), ToolHistoryProofs.Block(NormalizeFrom(ms, at, queue)))
    decreases |ms|
  {
    if ms != [] && ms[0].Tool? {
      BlockFilled(ms[1..], at + 1, NextQueue(ms[0], at, queue));
      NormalizeStepsOn(ms, at, queue);
    }
  }

  ghost predicate ExchangesFrom(given: seq<Exchange>, filled: seq<Exchange>) {
    |given| == |filled| && forall i :: 0 <= i < |given| ==> FilledFrom(given[i].results, filled[i].results)
  }

  lemma ExchangesCons(e: Exchange, given: seq<Exchange>, f: Exchange, filled: seq<Exchange>)
    requires FilledFrom(e.results, f.results) && ExchangesFrom(given, filled)
    ensures ExchangesFrom([e] + given, [f] + filled)
  {
  }

  lemma SplitOf(n: seq<Message>, m: Message, rest: seq<Message>)
    requires n != [] && n[0] == m && n[1..] == rest
    ensures Split(n) == if m.Tool? then Split(rest) else [Exchange(m, ToolHistoryProofs.Block(rest))] + Split(rest)
  {
  }

  lemma {:induction false} ExchangesFilled(ms: seq<Message>, at: nat, queue: seq<string>)
    ensures ExchangesFrom(Split(ms), Split(NormalizeFrom(ms, at, queue)))
    decreases |ms|
  {
    if ms != [] {
      var m, queue' := NormalizeOne(ms[0], at, queue), NextQueue(ms[0], at, queue);
      var rest := NormalizeFrom(ms[1..], at + 1, queue');
      NormalizeStepsOn(ms, at, queue);
      ExchangesFilled(ms[1..], at + 1, queue');
      SplitOf(ms, ms[0], ms[1..]);
      SplitOf(NormalizeFrom(ms, at, queue), m, rest);
      if !m.Tool? {
        BlockFilled(ms[1..], at + 1, queue');
        ExchangesCons(Exchange(ms[0], ToolHistoryProofs.Block(ms[1..])), Split(ms[1..]),
          Exchange(m, ToolHistoryProofs.Block(rest)), Split(rest));
      }
    }
  }

  /** The name of the last of the calls with this id. */
  function LastName(calls: seq<Call>, id: string): string {
    if calls == [] then ""
    else
      var last := calls[|calls| - 1];
      if last.id == Text(id) then Str(last.name) else LastName(calls[..|calls| - 1], id)
  }

  /** The notice that closes a call: it names the call and its tool, and is an error. */
  function Notice(id: string, name: string): Message {
    Tool(Text(id), Text(name), Opaque("Tool execution was interrupted before completion."), Error)
  }

  lemma {:induction false} PutAllSnoc(pending: seq<Open>, calls: seq<Call>, last: Call)
    ensures PutAll(pending, calls + [last]) == Put(PutAll(pending, calls), Str(last.id), Str(last.name))
    decreases |calls|
  {
    if calls == [] {
      assert [last][1..] == [];
      assert calls + [last] == [last];
    } else {
      assert (calls + [last])[0] == calls[0] && (calls + [last])[1..] == calls[1..] + [last];
      PutAllSnoc(Put(pending, Str(calls[0].id), Str(calls[0].name)), calls[1..], last);
    }
  }

  /** The ids of these calls in the order of their first mention. */
  function Mentions(calls: seq<Call>): seq<string> {
    if calls == [] then []
    else
      var front, last := Mentions(calls[..|calls| - 1]), Str(calls[|calls| - 1].id);
      if last in front then front else front + [last]
  }

  /** The calls that wait: one for each id, under the name of the last call that has it. */
  ghost predicate OpensAre(pending: seq<Open>, ids: seq<string>, calls: seq<Call>) {
    |pending| == |ids| && forall i :: 0 <= i < |ids| ==> pending[i] == Open(ids[i], LastName(calls, ids[i]))
  }

  lemma {:induction false} PutOld(pending: seq<Open>, id: string, name: string)
    requires DistinctOpen(pending) && Waiting(pending, id)
    ensures var after := Put(pending, id, name);
      |after| == |pending|
      && forall i :: 0 <= i < |pending| ==> after[i] == if pending[i].id == id then Open(id, name) else pending[i]
  {
    if pending[0].id != id {
      assert Waiting(pending[1..], id) by {
        var k :| 0 <= k < |pending| && pending[k].id == id;
        assert pending[1..][k - 1].id == id;
      }
      PutOld(pending[1..], id, name);
    }
  }

  lemma LastNameSnoc(calls: seq<Call>, last: Call, id: string)
    ensures LastName(calls + [last], id) == if last.id == Text(id) then Str(last.name) else LastName(calls, id)
  {
    assert (calls + [last])[..|calls|] == calls;
  }

  lemma OpensSnoc(pending: seq<Open>, calls: seq<Call>, last: Call)
    requires ValidCall(last) && DistinctOpen(pending) && OpensAre(pending, Mentions(calls), calls)
    ensures OpensAre(Put(pending, Str(last.id), Str(last.name)), Mentions(calls + [last]), calls + [last])
  {
    var ids, id := Mentions(calls), Str(last.id);
    assert (calls + [last])[..|calls|] == calls;
    forall i | 0 <= i < |Mentions(calls + [last])| {
      LastNameSnoc(calls, last, Mentions(calls + [last])[i]);
    }
    if id in ids {
      var k :| 0 <= k < |ids| && ids[k] == id;
      assert pending[k].id == id;
      PutOld(pending, id, Str(last.name));
    } else {
      assert forall i :: 0 <= i < |pending| ==> pending[i].id == ids[i];
      PutNew(pending, id, Str(last.name));
    }
  }

  lemma {:induction false} OpensOfCalls(calls: seq<Call>)
    requires forall i :: 0 <= i < |calls| ==> ValidCall(calls[i])
    ensures DistinctOpen(PutAll([], calls)) && OpensAre(PutAll([], calls), Mentions(calls), calls)
  {
    PutAllFacts([], calls);
    if calls != [] {
      var front, last := calls[..|calls| - 1], calls[|calls| - 1];
      assert front + [last] == calls;
      OpensOfCalls(front);
      PutAllSnoc([], front, last);
      OpensSnoc(PutAll([], front), front, last);
    }
  }

  lemma PendingOfHead(m: Message)
    requires m.AI?
    ensures DistinctOpen(Pending(m)) && OpensAre(Pending(m), Mentions(Clean(m).calls), Clean(m).calls)
  {
    OpensOfCalls(ValidCalls(m.calls));
  }

  /** What answers a call: the first of these results that names it, else the notice that the tool of the
      last call with that id was interrupted. */
  ghost predicate Answering(id: string, calls: seq<Call>, filled: seq<Message>, answers: seq<Message>) {
    if FirstFor(Text(id), filled).Some? then FirstFor(Text(id), answers) == FirstFor(Text(id), filled)
    else FirstFor(Text(id), answers) == Some(Notice(id, LastName(calls, id)))
  }

  lemma {:induction false} OpenNameAt(pending: seq<Open>, i: nat)
    requires DistinctOpen(pending) && i < |pending|
    ensures OpenName(pending, pending[i].id) == Some(pending[i].name)
  {
    if i > 0 {
      OpenNameAt(pending[1..], i - 1);
      assert pending[1..][i - 1] == pending[i];
    }
  }

  lemma OpenNameIsLast(m: Message, id: string)
    requires m.AI? && OpenName(Pending(m), id).Some? && Waiting(Pending(m), id)
    ensures OpenName(Pending(m), id) == Some(LastName(Clean(m).calls, id))
  {
    PendingOfHead(m);
    var i :| 0 <= i < |Pending(m)| && Pending(m)[i].id == id;
    OpenNameAt(Pending(m), i);
  }

  lemma NameOfOpen(m: Message, id: string)
    requires m.AI? && Text(id) in CallIds(Clean(m)) && OpenName(Pending(m), id).Some?
    ensures OpenName(Pending(m), id) == Some(LastName(Clean(m).calls, id))
  {
    PendingFacts(m);
    var o :| o in Pending(m) && Text(o.id) == Text(id);
    var k :| 0 <= k < |Pending(m)| && Pending(m)[k] == o;
    OpenNameIsLast(m, id);
  }

  /** A call of the i-th message that is no result is answered by the first of the results given right
      after that message which names it, once their blank ids are filled in. */
  lemma RepairKeepsAnswers(ms: seq<Message>, i: nat, id: string)
    requires i < |Split(ms)|
    ensures |Split(ms)| == |Split(Normalize(ms))| == |Split(Repair(ms))|
    ensures FilledFrom(Split(ms)[i].results, Split(Normalize(ms))[i].results)
    ensures Text(id) in CallIds(Split(Repair(ms))[i].head) ==>
      Answering(id, Split(Repair(ms))[i].head.calls, Split(Normalize(ms))[i].results, Split(Repair(ms))[i].results)
  {
    ExchangesFilled(ms, 0, []);
    SplitHeads(Normalize(ms));
    RepairKeepsNormalized(ms, i, id);
    RepairIsExchangewise(ms);
    var before, after := Split(Normalize(ms))[i], Split(Repair(ms))[i];
    assert after == RepairExchange(before);
    if Text(id) in CallIds(after.head) {
      NameOfOpen(before.head, id);
    }
  }
}
