/** What `ExpertContext.Compact` keeps, when it acts again, and how it meets the repair pass. */
module ExpertContextProofs {
  import opened Common
  import opened Messages
  import opened ExpertContext
  import TH = ToolHistory
  import THP = ToolHistoryProofs

  // ---------------------------------------------------------------- skeletons

  ghost predicate SameCalls(a: seq<Call>, b: seq<Call>) {
    |a| == |b| && forall i :: 0 <= i < |a| ==> b[i].id == a[i].id && b[i].name == a[i].name
  }

  /** Same kind, same call ids and names, same result id: all that pairing looks at. */
  ghost predicate SameBones(a: Message, b: Message) {
    match a
    case AI(_, calls, _, _, _) => b.AI? && SameCalls(calls, b.calls)
    case Tool(id, _, _, _) => b.Tool? && b.id == id
    case Other(_) => b == a
  }

  ghost predicate SameSkeleton(a: seq<Message>, b: seq<Message>) {
    |a| == |b| && forall i :: 0 <= i < |a| ==> SameBones(a[i], b[i])
  }

  ghost predicate UnderOwnId(results: map<Value, Message>) {
    forall id :: id in results ==> results[id].Tool? && results[id].id == id
  }

  ghost predicate ResultUnderOwnId(e: Entry) {
    e.result.Some? ==> e.result.value.Tool? && e.result.value.id == e.id
  }

  lemma {:induction false} FilledKeepsIds(es: seq<Entry>)
    requires forall i :: 0 <= i < |es| ==> ResultUnderOwnId(es[i])
    ensures UnderOwnId(Filled(es).results)
  {
    if es != [] {
      FilledKeepsIds(es[..|es| - 1]);
    }
  }

  lemma ProjectKeepsBones(m: Message, t: Tables)
    requires UnderOwnId(t.results)
    ensures SameBones(m, ProjectMessage(m, t))
  {
  }

  /** Compaction of any history keeps its skeleton. */
  lemma CompactKeepsSkeleton(ms: seq<Message>)
    ensures SameSkeleton(ms, Compact(ms))
  {
    var calls := CodeCalls(ms);
    var completed := Completed(ms, calls);
    var es := Entries(Older(completed), calls, LatestFailure(completed));
    forall i | 0 <= i < |es| ensures ResultUnderOwnId(es[i]) {
      assert EntryFor(es[i], Older(completed)[i], LatestFailure(completed));
    }
    FilledKeepsIds(es);
    assert UnderOwnId(Plan(ms).results);
    forall i | 0 <= i < |ms| ensures SameBones(ms[i], Compact(ms)[i]) {
      ProjectKeepsBones(ms[i], Plan(ms));
    }
  }

  // ---------------------------------------------------------------- repair looks at the skeleton only

  lemma NormalizeKeepsBones(a: Message, b: Message, at: nat, queue: seq<string>)
    requires SameBones(a, b)
    ensures SameBones(TH.NormalizeOne(a, at, queue), TH.NormalizeOne(b, at, queue))
    ensures TH.NextQueue(a, at, queue) == TH.NextQueue(b, at, queue)
  {
    if a.AI? {
      assert TH.CallIdTexts(TH.FillIds(a.calls, at)) == TH.CallIdTexts(TH.FillIds(b.calls, at));
      assert TH.AnyBlank(a.calls) <==> TH.AnyBlank(b.calls);
    }
  }

  lemma SkeletonCons(a: Message, b: Message, as': seq<Message>, bs: seq<Message>)
    requires SameBones(a, b) && SameSkeleton(as', bs)
    ensures SameSkeleton([a] + as', [b] + bs)
  {
  }

  lemma {:induction false} NormalizeKeepsSkeleton(a: seq<Message>, b: seq<Message>, at: nat, queue: seq<string>)
    requires SameSkeleton(a, b)
    ensures SameSkeleton(TH.NormalizeFrom(a, at, queue), TH.NormalizeFrom(b, at, queue))
  {
    if a != [] {
      var queue' := TH.NextQueue(a[0], at, queue);
      NormalizeKeepsBones(a[0], b[0], at, queue);
      NormalizeKeepsSkeleton(a[1..], b[1..], at + 1, queue');
      SkeletonCons(TH.NormalizeOne(a[0], at, queue), TH.NormalizeOne(b[0], at, queue),
                   TH.NormalizeFrom(a[1..], at + 1, queue'), TH.NormalizeFrom(b[1..], at + 1, queue'));
    }
  }

  lemma {:induction false} ValidCallsSkeleton(a: seq<Call>, b: seq<Call>)
    requires SameCalls(a, b)
    ensures SameCalls(TH.ValidCalls(a), TH.ValidCalls(b))
  {
    if a != [] {
      ValidCallsSkeleton(a[1..], b[1..]);
      assert b[0].id == a[0].id && b[0].name == a[0].name;
      assert TH.ValidCall(a[0]) <==> TH.ValidCall(b[0]);
      ConcatSkeleton(a[0], b[0], TH.ValidCalls(a[1..]), TH.ValidCalls(b[1..]));
    }
  }

  lemma ConcatSkeleton(a: Call, b: Call, as': seq<Call>, bs: seq<Call>)
    requires b.id == a.id && b.name == a.name && SameCalls(as', bs)
    ensures SameCalls([a] + as', [b] + bs)
    ensures SameCalls([] + as', [] + bs)
  {
    var x, y := [a] + as', [b] + bs;
    forall i | 0 <= i < |x| ensures y[i].id == x[i].id && y[i].name == x[i].name {
      if i > 0 {
        assert x[i] == as'[i - 1] && y[i] == bs[i - 1];
      }
    }
  }

  lemma {:induction false} PutAllSkeleton(pending: seq<TH.Open>, a: seq<Call>, b: seq<Call>)
    requires SameCalls(a, b)
    ensures TH.PutAll(pending, a) == TH.PutAll(pending, b)
    decreases |a|
  {
    if a != [] {
      PutAllSkeleton(TH.Put(pending, Str(a[0].id), Str(a[0].name)), a[1..], b[1..]);
    }
  }

  lemma SkeletonConcat(a: seq<Message>, b: seq<Message>, a': seq<Message>, b': seq<Message>)
    requires SameSkeleton(a, b) && SameSkeleton(a', b')
    ensures SameSkeleton(a + a', b + b')
  {
  }

  lemma HeadSkeleton(a: Message, b: Message)
    requires SameBones(a, b)
    ensures SameBones(TH.Clean(a), TH.Clean(b))
    ensures TH.Pending(a) == TH.Pending(b)
  {
    if a.AI? {
      ValidCallsSkeleton(a.calls, b.calls);
      PutAllSkeleton([], TH.ValidCalls(a.calls), TH.ValidCalls(b.calls));
    }
  }

  lemma {:induction false} RepairFromKeepsSkeleton(a: seq<Message>, b: seq<Message>, pending: seq<TH.Open>)
    requires SameSkeleton(a, b)
    ensures SameSkeleton(TH.RepairFrom(a, pending), TH.RepairFrom(b, pending))
  {
    if a != [] {
      assert SameBones(a[0], b[0]);
      if a[0].Tool? {
        var answered := TH.Answers(a[0], pending);
        var pending' := if answered then TH.Remove(pending, a[0].id.text) else pending;
        RepairFromKeepsSkeleton(a[1..], b[1..], pending');
        if answered {
          SkeletonConcat([a[0]], [b[0]], TH.RepairFrom(a[1..], pending'), TH.RepairFrom(b[1..], pending'));
        }
      } else {
        HeadSkeleton(a[0], b[0]);
        RepairFromKeepsSkeleton(a[1..], b[1..], TH.Pending(a[0]));
        var closed := TH.Close(pending);
        SkeletonConcat(closed, closed, [TH.Clean(a[0])], [TH.Clean(b[0])]);
        SkeletonConcat(closed + [TH.Clean(a[0])], closed + [TH.Clean(b[0])],
                       TH.RepairFrom(a[1..], TH.Pending(a[0])), TH.RepairFrom(b[1..], TH.Pending(b[0])));
      }
    }
  }

  /** The two passes together: the projected request is provider-valid and pairs calls and results
      exactly as repair alone would. */
  lemma CompactThenRepair(ms: seq<Message>)
    ensures THP.ProviderValid(TH.Repair(Compact(ms)))
    ensures SameSkeleton(TH.Repair(ms), TH.Repair(Compact(ms)))
  {
    CompactKeepsSkeleton(ms);
    THP.RepairIsProviderValid(Compact(ms));
    NormalizeKeepsSkeleton(ms, Compact(ms), 0, []);
    RepairFromKeepsSkeleton(TH.Normalize(ms), TH.Normalize(Compact(ms)), []);
  }

  // ---------------------------------------------------------------- the protected exchanges

  function Ids(results: seq<Message>): (ids: seq<Value>)
    ensures |ids| == |results|
  {
    seq(|results|, i requires 0 <= i < |results| => if results[i].Tool? then results[i].id else Null)
  }

  function CompletedIn(ms: seq<Message>): (c: seq<Message>)
    ensures forall i :: 0 <= i < |c| ==> c[i].Tool?
  {
    Completed(ms, CodeCalls(ms))
  }

  /** No two completed receipts answer the same call. */
  ghost predicate UniqueReceipts(ms: seq<Message>) {
    NoDup(Ids(CompletedIn(ms)))
  }

  function Held(t: Tables, id: Value): (Option<Args>, Option<Message>) {
    (if id in t.args then Some(t.args[id]) else None, if id in t.results then Some(t.results[id]) else None)
  }

  ghost predicate Lists(es: seq<Entry>, id: Value) {
    exists i :: 0 <= i < |es| && es[i].id == id && (es[i].args, es[i].result) != (None, None)
  }

  lemma EnterHeld(t: Tables, e: Entry, id: Value)
    ensures e.id != id || (e.args, e.result) == (None, None) ==> Held(Enter(t, e), id) == Held(t, id)
    ensures e.id == id && Held(t, id) == (None, None) ==> Held(Enter(t, e), id) == (e.args, e.result)
  {
  }

  /** The tables hold only what an entry put there. */
  lemma {:induction false} FilledOnly(es: seq<Entry>, id: Value)
    ensures Held(Filled(es), id) != (None, None) ==> Lists(es, id)
  {
    if es != [] {
      var last := |es| - 1;
      FilledOnly(es[..last], id);
      EnterHeld(Filled(es[..last]), es[last], id);
      if Lists(es[..last], id) {
        var i :| 0 <= i < last && es[..last][i].id == id && (es[..last][i].args, es[..last][i].result) != (None, None);
        assert es[i] == es[..last][i];
      }
    }
  }

  ghost predicate DistinctEntries(es: seq<Entry>) {
    forall i, j :: 0 <= i < j < |es| ==> es[i].id != es[j].id
  }

  /** Entries under distinct ids are all held. */
  lemma {:induction false} FilledAt(es: seq<Entry>, i: nat)
    requires DistinctEntries(es) && i < |es|
    ensures Held(Filled(es), es[i].id) == (es[i].args, es[i].result)
    decreases |es|
  {
    var last := |es| - 1;
    if i < last {
      FilledAt(es[..last], i);
    } else {
      FilledOnly(es[..last], es[i].id);
    }
    EnterHeld(Filled(es[..last]), es[last], es[i].id);
  }

  lemma EntriesDiffer(older: seq<Message>, es: seq<Entry>, latest: Option<Value>)
    requires |es| == |older| && (forall i :: 0 <= i < |older| ==> older[i].Tool?) && NoDup(Ids(older))
    requires forall i :: 0 <= i < |es| ==> EntryFor(es[i], older[i], latest)
    ensures DistinctEntries(es)
  {
    forall i, j | 0 <= i < j < |es| ensures es[i].id != es[j].id {
      assert Ids(older)[i] != Ids(older)[j];
      assert EntryFor(es[i], older[i], latest) && EntryFor(es[j], older[j], latest);
    }
  }

  ghost predicate AllCompleted(c: seq<Message>, calls: map<Value, Call>) {
    forall i :: 0 <= i < |c| ==> IsCompleted(c[i], calls)
  }

  lemma OlderIds(completed: seq<Message>)
    requires NoDup(Ids(completed))
    ensures NoDup(Ids(Older(completed)))
  {
    assert Ids(Older(completed)) == Ids(completed)[..|Older(completed)|];
  }

  lemma ProjectedCalls(m: Message, t: Tables)
    requires m.AI?
    ensures ProjectMessage(m, t).AI? && |ProjectMessage(m, t).calls| == |m.calls|
    ensures forall j :: 0 <= j < |m.calls| ==> ProjectMessage(m, t).calls[j] == ProjectCall(m.calls[j], t.args)
  {
  }

  lemma OlderAt(c: seq<Message>)
    ensures |Older(c)| <= |c| && forall i :: 0 <= i < |Older(c)| ==> Older(c)[i] == c[i]
  {
  }

  lemma PlanUnfolded(ms: seq<Message>)
    ensures var c := CompletedIn(ms);
      && AllCompleted(c, CodeCalls(ms)) && AllCompleted(Older(c), CodeCalls(ms))
      && Plan(ms) == Filled(Entries(Older(c), CodeCalls(ms), LatestFailure(c)))
  {
  }

  lemma EntriesOnly(c: seq<Message>, es: seq<Entry>, latest: Option<Value>, id: Value)
    requires |es| == |c| && forall i :: 0 <= i < |es| ==> EntryFor(es[i], c[i], latest)
    ensures Lists(es, id) ==> latest != Some(id) && exists i :: 0 <= i < |c| && c[i].Tool? && c[i].id == id
  {
    if Lists(es, id) {
      var i :| 0 <= i < |es| && es[i].id == id && (es[i].args, es[i].result) != (None, None);
      assert EntryFor(es[i], c[i], latest);
    }
  }

  /** An id that the tables hold is that of an older receipt and not of the latest failure. */
  lemma HeldIsOlder(ms: seq<Message>, id: Value)
    ensures Held(Plan(ms), id) != (None, None) ==>
      && LatestFailure(CompletedIn(ms)) != Some(id)
      && exists i :: 0 <= i < |Older(CompletedIn(ms))| && CompletedIn(ms)[i].id == id
  {
    var c := CompletedIn(ms);
    PlanUnfolded(ms);
    var es := Entries(Older(c), CodeCalls(ms), LatestFailure(c));
    FilledOnly(es, id);
    EntriesOnly(Older(c), es, LatestFailure(c), id);
    OlderAt(c);
  }

  /** The two newest receipts, the latest failure and the calls they answer are never replaced. */
  lemma ProtectedStayIntact(ms: seq<Message>, k: nat, protectedId: Value)
    requires UniqueReceipts(ms)
    requires k < |CompletedIn(ms)| && protectedId == CompletedIn(ms)[k].id
    requires k + 2 >= |CompletedIn(ms)| || LatestFailure(CompletedIn(ms)) == Some(protectedId)
    ensures forall i :: 0 <= i < |ms| && ms[i].Tool? && ms[i].id == protectedId ==> Compact(ms)[i] == ms[i]
    ensures forall i, j :: 0 <= i < |ms| && ms[i].AI? && 0 <= j < |ms[i].calls| && ms[i].calls[j].id == protectedId ==>
              Compact(ms)[i].AI? && |Compact(ms)[i].calls| == |ms[i].calls| && Compact(ms)[i].calls[j] == ms[i].calls[j]
  {
    HeldIsOlder(ms, protectedId);
    if k + 2 >= |CompletedIn(ms)| {
      forall i | 0 <= i < |Older(CompletedIn(ms))| ensures CompletedIn(ms)[i].id != protectedId {
        assert Ids(CompletedIn(ms))[i] != Ids(CompletedIn(ms))[k];
      }
    }
    assert Held(Plan(ms), protectedId) == (None, None);
    forall i, j | 0 <= i < |ms| && ms[i].AI? && 0 <= j < |ms[i].calls| && ms[i].calls[j].id == protectedId
      ensures Compact(ms)[i].AI? && |Compact(ms)[i].calls| == |ms[i].calls| && Compact(ms)[i].calls[j] == ms[i].calls[j]
    {
      ProjectedCalls(ms[i], Plan(ms));
    }
  }

  // ---------------------------------------------------------------- behaviour under append

  /** `more` starts no call and reports no result under an id that `ms` already uses. */
  ghost predicate FreshIds(ms: seq<Message>, more: seq<Message>) {
    && (forall i, j, k :: 0 <= i < |ms| && 0 <= j < |more| && ms[i].Tool? && more[j].AI? && 0 <= k < |more[j].calls| ==>
          more[j].calls[k].id != ms[i].id)
    && (forall i, j, k, l ::
          (0 <= i < |ms| && 0 <= j < |more| && ms[i].AI? && more[j].AI?
           && 0 <= k < |more[j].calls| && 0 <= l < |ms[i].calls|) ==>
            more[j].calls[k].id != ms[i].calls[l].id)
    && (forall i, j :: 0 <= i < |ms| && 0 <= j < |more| && ms[i].Tool? && more[j].Tool? ==> more[j].id != ms[i].id)
  }

  lemma {:induction false} CodeCallsOfFrame(calls: seq<Call>, table: map<Value, Call>, id: Value)
    requires forall k :: 0 <= k < |calls| ==> calls[k].id != id
    ensures id in CodeCallsOf(calls, table) <==> id in table
    ensures id in table ==> CodeCallsOf(calls, table)[id] == table[id]
    decreases |calls|
  {
    if calls != [] {
      var c := calls[0];
      CodeCallsOfFrame(calls[1..], if c.name == Text(CODE_TOOL) && Truthy(c.id) then table[c.id := c] else table, id);
    }
  }

  lemma {:induction false} CodeCallsFrame(ms: seq<Message>, more: seq<Message>, id: Value)
    requires forall j, k :: 0 <= j < |more| && more[j].AI? && 0 <= k < |more[j].calls| ==> more[j].calls[k].id != id
    ensures id in CodeCalls(ms + more) <==> id in CodeCalls(ms)
    ensures id in CodeCalls(ms) ==> CodeCalls(ms + more)[id] == CodeCalls(ms)[id]
    decreases |more|
  {
    if more == [] {
      assert ms + more == ms;
    } else {
      var last := more[|more| - 1];
      var front := more[..|more| - 1];
      CodeCallsFrame(ms, front, id);
      assert (ms + more)[..|ms + more| - 1] == ms + front;
      if last.AI? {
        CodeCallsOfFrame(last.calls, CodeCalls(ms + front), id);
      }
    }
  }

  lemma CompletedCons(m: Message, rest: seq<Message>, calls: map<Value, Call>)
    ensures Completed([m] + rest, calls) == (if IsCompleted(m, calls) then [m] else []) + Completed(rest, calls)
  {
    assert ([m] + rest)[1..] == rest;
  }

  lemma {:induction false} CompletedConcat(a: seq<Message>, b: seq<Message>, calls: map<Value, Call>)
    ensures Completed(a + b, calls) == Completed(a, calls) + Completed(b, calls)
  {
    if a == [] {
      assert a + b == b;
    } else {
      CompletedConcat(a[1..], b, calls);
      assert a + b == [a[0]] + (a[1..] + b);
      CompletedCons(a[0], a[1..] + b, calls);
      THP.Assoc(if IsCompleted(a[0], calls) then [a[0]] else [], Completed(a[1..], calls), Completed(b, calls));
    }
  }

  lemma {:induction false} CompletedCongruence(ms: seq<Message>, c1: map<Value, Call>, c2: map<Value, Call>)
    requires forall i :: 0 <= i < |ms| && ms[i].Tool? ==> (ms[i].id in c1 <==> ms[i].id in c2)
    ensures Completed(ms, c1) == Completed(ms, c2)
  {
    if ms != [] {
      CompletedCongruence(ms[1..], c1, c2);
    }
  }

  lemma {:induction false} LatestFailureConcat(a: seq<Message>, b: seq<Message>)
    requires forall i :: 0 <= i < |a| ==> a[i].Tool?
    requires forall i :: 0 <= i < |b| ==> b[i].Tool?
    ensures LatestFailure(a + b) == LatestFailure(a)
         || exists i :: 0 <= i < |b| && LatestFailure(a + b) == Some(b[i].id)
  {
    if b == [] {
      assert a + b == a;
    } else {
      var front := b[..|b| - 1];
      assert (a + b)[..|a + b| - 1] == a + front;
      LatestFailureConcat(a, front);
      assert forall i :: 0 <= i < |front| ==> front[i] == b[i];
    }
  }

  /** What an append leaves of the receipts, the calls and the latest failure. */
  lemma AppendKeepsReceipts(ms: seq<Message>, more: seq<Message>)
    requires FreshIds(ms, more)
    ensures var all := CodeCalls(ms + more);
      && CompletedIn(ms + more) == CompletedIn(ms) + Completed(more, all)
      && (forall i :: 0 <= i < |CompletedIn(ms)| ==>
            CompletedIn(ms)[i].id in CodeCalls(ms) && CompletedIn(ms)[i].id in all
            && all[CompletedIn(ms)[i].id] == CodeCalls(ms)[CompletedIn(ms)[i].id])
      && (forall i, j :: 0 <= i < |CompletedIn(ms)| && 0 <= j < |Completed(more, all)| ==>
            Completed(more, all)[j].id != CompletedIn(ms)[i].id)
  {
    var all := CodeCalls(ms + more);
    forall i | 0 <= i < |ms| && ms[i].Tool?
      ensures ms[i].id in all <==> ms[i].id in CodeCalls(ms)
      ensures ms[i].id in all ==> all[ms[i].id] == CodeCalls(ms)[ms[i].id]
    {
      CodeCallsFrame(ms, more, ms[i].id);
    }
    CompletedConcat(ms, more, all);
    CompletedCongruence(ms, CodeCalls(ms), all);
    var c, d := CompletedIn(ms), Completed(more, all);
    forall i | 0 <= i < |c|
      ensures c[i].id in CodeCalls(ms) && c[i].id in all && all[c[i].id] == CodeCalls(ms)[c[i].id]
    {
      var k :| 0 <= k < |ms| && ms[k] == c[i];
    }
    forall i, j | 0 <= i < |c| && 0 <= j < |d| ensures d[j].id != c[i].id {
      var k :| 0 <= k < |ms| && ms[k] == c[i];
      var l :| 0 <= l < |more| && more[l] == d[j];
    }
  }

  /** A failure among later receipts, or none there, leaves the latest failure of the earlier ones or
      names a later receipt. */
  lemma FailureStaysAway(c: seq<Message>, d: seq<Message>, id: Value)
    requires forall i :: 0 <= i < |c| ==> c[i].Tool?
    requires forall i :: 0 <= i < |d| ==> d[i].Tool? && d[i].id != id
    requires LatestFailure(c) != Some(id)
    ensures forall i :: 0 <= i < |c + d| ==> (c + d)[i].Tool?
    ensures LatestFailure(c + d) != Some(id)
  {
    LatestFailureConcat(c, d);
  }

  lemma OlderGrows(c: seq<Message>, d: seq<Message>)
    ensures |Older(c)| <= |Older(c + d)| && forall i :: 0 <= i < |Older(c)| ==> Older(c + d)[i] == Older(c)[i] == c[i]
  {
  }

  lemma OlderCompleted(c: seq<Message>, calls: map<Value, Call>)
    requires AllCompleted(c, calls)
    ensures AllCompleted(Older(c), calls)
  {
  }

  /** What the tables hold for an older receipt. */
  lemma HeldAt(c: seq<Message>, calls: map<Value, Call>, i: nat)
    requires AllCompleted(c, calls) && NoDup(Ids(c)) && i < |Older(c)|
    ensures AllCompleted(Older(c), calls)
    ensures var e := EntryOf(c[i], calls, LatestFailure(c));
      Held(Filled(Entries(Older(c), calls, LatestFailure(c))), c[i].id) == (e.args, e.result)
  {
    OlderCompleted(c, calls);
    OlderIds(c);
    EntriesDiffer(Older(c), Entries(Older(c), calls, LatestFailure(c)), LatestFailure(c));
    FilledAt(Entries(Older(c), calls, LatestFailure(c)), i);
  }

  lemma HeldOverAppend(c: seq<Message>, d: seq<Message>, calls: map<Value, Call>, all: map<Value, Call>, i: nat)
    requires AllCompleted(c, calls) && AllCompleted(c + d, all) && AllCompleted(d, all)
    requires NoDup(Ids(c)) && NoDup(Ids(c + d)) && i < |Older(c)|
    requires c[i].id in calls && c[i].id in all && all[c[i].id] == calls[c[i].id]
    requires forall j :: 0 <= j < |d| ==> d[j].id != c[i].id
    requires LatestFailure(c) != Some(c[i].id)
    ensures AllCompleted(Older(c), calls) && AllCompleted(Older(c + d), all)
    ensures Held(Filled(Entries(Older(c + d), all, LatestFailure(c + d))), c[i].id)
         == Held(Filled(Entries(Older(c), calls, LatestFailure(c))), c[i].id)
  {
    OlderGrows(c, d);
    FailureStaysAway(c, d, c[i].id);
    HeldAt(c, calls, i);
    HeldAt(c + d, all, i);
    assert (c + d)[i] == c[i];
  }

  /** Compaction is monotone: what it replaced stays replaced, by the same text, after any append. */
  lemma CompactIsMonotone(ms: seq<Message>, more: seq<Message>, id: Value)
    requires FreshIds(ms, more) && UniqueReceipts(ms) && UniqueReceipts(ms + more)
    ensures Held(Plan(ms), id) != (None, None) ==> Held(Plan(ms + more), id) == Held(Plan(ms), id)
  {
    if Held(Plan(ms), id) != (None, None) {
      HeldIsOlder(ms, id);
      var i :| 0 <= i < |Older(CompletedIn(ms))| && CompletedIn(ms)[i].id == id;
      AppendKeepsReceipts(ms, more);
      PlanUnfolded(ms);
      PlanUnfolded(ms + more);
      HeldOverAppend(CompletedIn(ms), Completed(more, CodeCalls(ms + more)), CodeCalls(ms), CodeCalls(ms + more), i);
    }
  }

  /** The calls of a message after compaction. */
  function CallsAfter(ms: seq<Message>, i: nat): (calls: seq<Call>)
    requires i < |ms| && ms[i].AI?
    ensures Compact(ms)[i].AI? && calls == Compact(ms)[i].calls
    ensures |calls| == |ms[i].calls|
    ensures forall j :: 0 <= j < |calls| ==> calls[j] == ProjectCall(ms[i].calls[j], Plan(ms).args)
  {
    ProjectedCalls(ms[i], Plan(ms));
    Compact(ms)[i].calls
  }

  /** Message by message: a result or call that was compacted reads the same after any append. */
  lemma CompactionSurvivesAppend(ms: seq<Message>, more: seq<Message>, i: nat, j: nat)
    requires FreshIds(ms, more) && UniqueReceipts(ms) && UniqueReceipts(ms + more) && i < |ms|
    ensures ms[i].Tool? && Compact(ms)[i] != ms[i] ==> Compact(ms + more)[i] == Compact(ms)[i]
    ensures ms[i].AI? && j < |ms[i].calls| && CallsAfter(ms, i)[j] != ms[i].calls[j] ==>
            CallsAfter(ms + more, i)[j] == CallsAfter(ms, i)[j]
  {
    assert (ms + more)[i] == ms[i];
    if ms[i].Tool? {
      CompactIsMonotone(ms, more, ms[i].id);
    } else if ms[i].AI? && j < |ms[i].calls| {
      CompactIsMonotone(ms, more, ms[i].calls[j].id);
    }
  }

  // ---------------------------------------------------------------- size

  /** The excerpt is shorter than the stream it stands for exactly when the stream is longer than
      the kept ends and the reference line together. */
  lemma ExcerptShrinksExactly(text: string, log: string)
    requires |text| > LONG_STREAM
    ensures |Excerpt(text, log)| < |text| <==> |text| > 2 * EXCERPT + 30 + |log|
  {
    assert |"\n[older excerpt; full text: "| == 28;
  }

  /** A long log path makes the projected receipt larger than the stored one. */
  lemma LongPathGrowsTheStream(text: string, log: string)
    requires |text| == 601 && |log| == 200
    ensures LongStream(Stream(Text(text), Some(log), false))
    ensures |ShortStream(Stream(Text(text), Some(log), false)).value.text| > |text|
  {
    ExcerptShrinksExactly(text, log);
  }
}
