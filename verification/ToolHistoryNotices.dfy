/** Which results a repaired message is followed by: given ones, and notices for the calls without one. */
module ToolHistoryNotices {
  import opened Messages
  import opened ToolHistory
  import opened ToolHistoryProofs
  import opened ToolHistoryPreservation

  /** The first result for each of these ids, in the order given. */
  function KeptResults(results: seq<Message>, ids: set<Value>): seq<Message> {
    if results == [] then []
    else if results[0].Tool? && results[0].id in ids then
      [results[0]] + KeptResults(results[1..], ids - {results[0].id})
    else KeptResults(results[1..], ids)
  }

  ghost predicate NamedBy(id: string, results: seq<Message>) {
    exists j :: 0 <= j < |results| && results[j].Tool? && results[j].id == Text(id)
  }

  /** A notice for each of these ids that no result names, under the name of the last call that has it. */
  ghost function Notices(ids: seq<string>, calls: seq<Call>, results: seq<Message>): seq<Message> {
    if ids == [] then []
    else (if NamedBy(ids[0], results) then [] else [Notice(ids[0], LastName(calls, ids[0]))])
         + Notices(ids[1..], calls, results)
  }

  ghost function Unanswered(pending: seq<Open>, results: seq<Message>): seq<Open> {
    if pending == [] then []
    else (if NamedBy(pending[0].id, results) then [] else [pending[0]]) + Unanswered(pending[1..], results)
  }

  lemma {:induction false} UnansweredSame(pending: seq<Open>, a: seq<Message>, b: seq<Message>)
    requires forall i :: 0 <= i < |pending| ==> (NamedBy(pending[i].id, a) <==> NamedBy(pending[i].id, b))
    ensures Unanswered(pending, a) == Unanswered(pending, b)
  {
    if pending != [] {
      assert forall i :: 0 <= i < |pending[1..]| ==> pending[1..][i] == pending[i + 1];
      UnansweredSame(pending[1..], a, b);
    }
  }

  lemma UnansweredCons(o: Open, rest: seq<Open>, results: seq<Message>)
    ensures Unanswered([o] + rest, results)
         == (if NamedBy(o.id, results) then [] else [o]) + Unanswered(rest, results)
  {
    assert ([o] + rest)[1..] == rest;
  }

  lemma {:induction false} UnansweredRemoved(pending: seq<Open>, id: string, results: seq<Message>)
    requires NamedBy(id, results)
    ensures Unanswered(Remove(pending, id), results) == Unanswered(pending, results)
  {
    if pending != [] {
      var first, rest := pending[0], pending[1..];
      assert pending == [first] + rest;
      UnansweredCons(first, rest, results);
      if first.id != id {
        UnansweredRemoved(rest, id, results);
        UnansweredCons(first, Remove(rest, id), results);
      }
    }
  }

  lemma NamedByCons(id: string, m: Message, rest: seq<Message>)
    ensures NamedBy(id, [m] + rest) <==> (m.Tool? && m.id == Text(id)) || NamedBy(id, rest)
  {
    var results := [m] + rest;
    assert results[0] == m;
    assert forall j :: 0 <= j < |rest| ==> results[j + 1] == rest[j];
    assert forall j :: 1 <= j < |results| ==> results[j] == rest[j - 1];
  }

  lemma UnansweredLater(pending: seq<Open>, m: Message, rest: seq<Message>)
    requires forall i :: 0 <= i < |pending| ==> !(m.Tool? && m.id == Text(pending[i].id))
    ensures Unanswered(pending, [m] + rest) == Unanswered(pending, rest)
  {
    forall i | 0 <= i < |pending|
      ensures NamedBy(pending[i].id, [m] + rest) <==> NamedBy(pending[i].id, rest)
    {
      NamedByCons(pending[i].id, m, rest);
    }
    UnansweredSame(pending, [m] + rest, rest);
  }

  lemma {:induction false} UnansweredByNothing(pending: seq<Open>)
    ensures Unanswered(pending, []) == pending
  {
    if pending != [] {
      UnansweredByNothing(pending[1..]);
    }
  }

  lemma OpenIdIn(pending: seq<Open>, id: string)
    ensures Waiting(pending, id) <==> Text(id) in OpenIds(pending)
  {
    if Waiting(pending, id) {
      var i :| 0 <= i < |pending| && pending[i].id == id;
      assert pending[i] in pending;
    }
    if Text(id) in OpenIds(pending) {
      var o :| o in pending && Text(o.id) == Text(id);
      var i :| 0 <= i < |pending| && pending[i] == o;
    }
  }

  lemma AnswerTaken(m: Message, rest: seq<Message>, pending: seq<Open>)
    requires DistinctOpen(pending) && Answers(m, pending)
    ensures var pending' := Remove(pending, m.id.text);
      && DistinctOpen(pending') && OpenIds(pending') == OpenIds(pending) - {m.id} && m.id in OpenIds(pending)
      && Unanswered(pending', rest) == Unanswered(pending, [m] + rest)
  {
    var id := m.id.text;
    OpenIdIn(pending, id);
    RemoveFacts(pending, id);
    NamedByCons(id, m, rest);
    UnansweredRemoved(pending, id, [m] + rest);
    var pending' := Remove(pending, id);
    forall i | 0 <= i < |pending'| ensures pending'[i].id != id {
      assert Text(pending'[i].id) in OpenIds(pending');
    }
    UnansweredLater(pending', m, rest);
  }

  lemma AnswerDropped(m: Message, rest: seq<Message>, pending: seq<Open>)
    requires m.Tool? && !Answers(m, pending)
    ensures m.id !in OpenIds(pending) && Unanswered(pending, rest) == Unanswered(pending, [m] + rest)
  {
    if m.id.Text? {
      OpenIdIn(pending, m.id.text);
    }
    UnansweredLater(pending, m, rest);
  }

  /** The streaming pass leaves the kept results and then closes what is unanswered. */
  lemma {:induction false} AnswersThenNotices(block: seq<Message>, pending: seq<Open>)
    requires DistinctOpen(pending) && forall j :: 0 <= j < |block| ==> block[j].Tool?
    ensures AnswerBlock(block, pending) == KeptResults(block, OpenIds(pending)) + Close(Unanswered(pending, block))
  {
    if block == [] {
      UnansweredByNothing(pending);
    } else {
      var m, rest := block[0], block[1..];
      assert block == [m] + rest;
      if Answers(m, pending) {
        AnswerTaken(m, rest, pending);
        AnswersThenNotices(rest, Remove(pending, m.id.text));
        Assoc([m], KeptResults(rest, OpenIds(pending) - {m.id}), Close(Unanswered(pending, block)));
      } else {
        AnswerDropped(m, rest, pending);
        AnswersThenNotices(rest, pending);
      }
    }
  }

  lemma {:induction false} ClosedAreNotices(
      pending: seq<Open>, ids: seq<string>, calls: seq<Call>, results: seq<Message>)
    requires OpensAre(pending, ids, calls)
    ensures Close(Unanswered(pending, results)) == Notices(ids, calls, results)
  {
    if pending != [] {
      ClosedAreNotices(pending[1..], ids[1..], calls, results);
      var rest := Unanswered(pending[1..], results);
      assert pending[0] == Open(ids[0], LastName(calls, ids[0]));
      assert Close([pending[0]] + rest) == [Interrupted(pending[0])] + Close(rest);
    }
  }

  /** The results after a repaired message: of those given right after it, once their blank ids are filled,
      the first for each of its calls; then, for every other call, the notice that it was interrupted. */
  ghost predicate AnsweredThenNoticed(head: Message, filled: seq<Message>, results: seq<Message>) {
    if head.AI? then
      results == KeptResults(filled, CallIds(head)) + Notices(Mentions(head.calls), head.calls, filled)
    else results == []
  }

  lemma OneExchange(e: Exchange)
    requires !e.head.Tool? && forall j :: 0 <= j < |e.results| ==> e.results[j].Tool?
    ensures AnsweredThenNoticed(RepairExchange(e).head, e.results, RepairExchange(e).results)
  {
    if e.head.AI? {
      PendingFacts(e.head);
      PendingOfHead(e.head);
      AnswersThenNotices(e.results, Pending(e.head));
      var calls := Clean(e.head).calls;
      ClosedAreNotices(Pending(e.head), Mentions(calls), calls, e.results);
    } else {
      AnswerNothing(e.results);
    }
  }

  /** Exactly these results follow each message that stays: the ones kept, in their order, and then a notice,
      in the order of the calls, for every call that no result names. */
  lemma RepairedResultsExactly(ms: seq<Message>, i: nat)
    requires i < |Split(ms)|
    ensures |Split(ms)| == |Split(Normalize(ms))| == |Split(Repair(ms))|
    ensures FilledFrom(Split(ms)[i].results, Split(Normalize(ms))[i].results)
    ensures AnsweredThenNoticed(Split(Repair(ms))[i].head, Split(Normalize(ms))[i].results,
                                Split(Repair(ms))[i].results)
  {
    ExchangesFilled(ms, 0, []);
    RepairIsExchangewise(ms);
    SplitResults(Normalize(ms), i);
    OneExchange(Split(Normalize(ms))[i]);
  }

  lemma NoticesCons(id: string, rest: seq<string>, calls: seq<Call>, results: seq<Message>, m: Message)
    ensures m in Notices([id] + rest, calls, results) <==>
      (!NamedBy(id, results) && m == Notice(id, LastName(calls, id))) || m in Notices(rest, calls, results)
  {
    assert ([id] + rest)[1..] == rest;
  }

  ghost predicate NoticeFor(id: string, calls: seq<Call>, results: seq<Message>, m: Message) {
    !NamedBy(id, results) && m == Notice(id, LastName(calls, id))
  }

  lemma {:induction false} NoticesAre(ids: seq<string>, calls: seq<Call>, results: seq<Message>, m: Message)
    ensures m in Notices(ids, calls, results) <==> exists id :: id in ids && NoticeFor(id, calls, results, m)
  {
    if ids != [] {
      var first, rest := ids[0], ids[1..];
      assert ids == [first] + rest;
      NoticesCons(first, rest, calls, results, m);
      NoticesAre(rest, calls, results, m);
      if m in Notices(rest, calls, results) {
        var id :| id in rest && NoticeFor(id, calls, results, m);
        assert id in ids;
      } else if NoticeFor(first, calls, results, m) {
        assert first in ids;
      }
    }
  }

  lemma {:induction false} KeptAreGiven(results: seq<Message>, ids: set<Value>, m: Message)
    requires m in KeptResults(results, ids)
    ensures m in results && m.Tool? && m.id in ids
  {
    if results[0].Tool? && results[0].id in ids {
      if m != results[0] {
        KeptAreGiven(results[1..], ids - {results[0].id}, m);
      }
    } else {
      KeptAreGiven(results[1..], ids, m);
    }
  }

  /** Whatever stands in a repaired history for a call without a result is an error that says so: a result
      that was not given tells that its tool was interrupted, and its call is named by no result given. */
  lemma InventedResultsAreNotices(ms: seq<Message>, i: nat, m: Message)
    requires i < |Split(ms)| && |Split(ms)| == |Split(Normalize(ms))| == |Split(Repair(ms))|
    requires m in Split(Repair(ms))[i].results && m !in Split(Normalize(ms))[i].results
    ensures m.Tool? && m.status == Error && m.id.Text? && m.name.Text?
    ensures m.content == Opaque("Tool execution was interrupted before completion.")
    ensures m.id in CallIds(Split(Repair(ms))[i].head) && !NamedBy(m.id.text, Split(Normalize(ms))[i].results)
    ensures m.name == Text(LastName(Split(Repair(ms))[i].head.calls, m.id.text))
  {
    RepairedResultsExactly(ms, i);
    var head, filled := Split(Repair(ms))[i].head, Split(Normalize(ms))[i].results;
    if m in KeptResults(filled, CallIds(head)) {
      KeptAreGiven(filled, CallIds(head), m);
    } else {
      NoticesAre(Mentions(head.calls), head.calls, filled, m);
      var id :| id in Mentions(head.calls) && NoticeFor(id, head.calls, filled, m);
      RepairIsProviderValid(ms);
      MentionsAreIds(head.calls, id);
    }
  }

  lemma {:induction false} MentionsAreIds(calls: seq<Call>, id: string)
    requires id in Mentions(calls) && forall i :: 0 <= i < |calls| ==> calls[i].id.Text?
    ensures Text(id) in IdsOf(calls)
  {
    var front, last := calls[..|calls| - 1], calls[|calls| - 1];
    if id == Str(last.id) {
      assert last in calls;
    } else {
      MentionsAreIds(front, id);
      var c :| c in front && c.id == Text(id);
      assert c in calls;
    }
  }

  // ---------------------------------------------------------------- results without calls

  /** Up to here there is a message that is no result, and the last of these is no assistant message, or
      there is none. */
  ghost predicate NoCallsBefore(ms: seq<Message>, k: nat)
    requires k < |ms|
  {
    forall i :: 0 <= i < k && ms[i].AI? ==> exists j :: i < j < k && ms[j].Other?
  }

  lemma NoCallsLater(ms: seq<Message>, k: nat)
    requires 0 < k < |ms| && NoCallsBefore(ms, k)
    ensures NoCallsBefore(ms[1..], k - 1)
    ensures ms[0].AI? ==> exists j :: 0 <= j < k - 1 && ms[1..][j].Other?
  {
    forall i | 0 <= i < k - 1 && ms[1..][i].AI?
      ensures exists j :: i < j < k - 1 && ms[1..][j].Other?
    {
      assert ms[i + 1].AI?;
      var j :| i + 1 < j < k && ms[j].Other?;
      assert ms[1..][j - 1].Other?;
    }
    if ms[0].AI? {
      var j :| 0 < j < k && ms[j].Other?;
      assert ms[1..][j - 1].Other?;
    }
  }

  lemma {:induction false} UnfilledFrom(ms: seq<Message>, at: nat, queue: seq<string>, k: nat)
    requires k < |ms| && ms[k].Tool? && NoCallsBefore(ms, k)
    requires queue == [] || exists j :: 0 <= j < k && ms[j].Other?
    ensures NormalizeFrom(ms, at, queue)[k] == ms[k]
    decreases k
  {
    NormalizeStepsOn(ms, at, queue);
    if k > 0 {
      NoCallsLater(ms, k);
      var queue' := NextQueue(ms[0], at, queue);
      if queue' != [] && queue != [] {
        var j :| 0 <= j < k && ms[j].Other?;
        assert j > 0 && ms[1..][j - 1].Other?;
      }
      UnfilledFrom(ms[1..], at + 1, queue', k - 1);
      assert ms[1..][k - 1] == ms[k];
    }
  }

  /** A result that no assistant message stands before, or none since the last other message, gets no id. */
  lemma ResultsWithoutCallsStay(ms: seq<Message>, k: nat)
    requires k < |ms| && ms[k].Tool? && NoCallsBefore(ms, k)
    ensures Normalize(ms)[k] == ms[k]
  {
    UnfilledFrom(ms, 0, [], k);
  }
}
