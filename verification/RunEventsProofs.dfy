/** The projection hides exactly what tools do inside, matches calls in order and counts tools exactly. */
module RunEventsProofs {
  import opened Common
  import opened ModelRecovery
  import opened RunEvents
  import M = Messages

  // ---------------------------------------------------------------- hidden events

  ghost predicate VisibleAt(raws: seq<Raw>, i: nat)
    requires i < |raws|
  {
    !Hidden(Project(raws[..i]), raws[i])
  }

  lemma ProjectOne(raws: seq<Raw>, n: nat)
    requires n < |raws|
    ensures Project(raws[..n + 1]) == Absorb(Project(raws[..n]), raws[n])
  {
    assert raws[..n + 1][..n] == raws[..n];
  }

  ghost predicate StartedAt(raws: seq<Raw>, i: nat, r: string)
    requires i < |raws|
  {
    raws[i].kind.ToolStart? && raws[i].run == r && VisibleAt(raws, i)
  }

  ghost predicate StartedBefore(raws: seq<Raw>, n: nat, r: string)
    requires n <= |raws|
  {
    exists i :: 0 <= i < n && StartedAt(raws, i, r)
  }

  lemma OpaqueOne(p: Projection, raw: Raw, r: string)
    ensures r in Absorb(p, raw).opaqueRuns <==>
            r in p.opaqueRuns || (raw.kind.ToolStart? && raw.run == r && !Hidden(p, raw))
  {
  }

  lemma {:induction false} OpaqueAreToolStarts(raws: seq<Raw>, n: nat, r: string)
    requires n <= |raws|
    ensures r in Project(raws[..n]).opaqueRuns <==> StartedBefore(raws, n, r)
  {
    if n > 0 {
      OpaqueAreToolStarts(raws, n - 1, r);
      ProjectOne(raws, n - 1);
      OpaqueOne(Project(raws[..n - 1]), raws[n - 1], r);
      assert StartedBefore(raws, n, r) <==> StartedBefore(raws, n - 1, r) || StartedAt(raws, n - 1, r);
    }
  }

  lemma {:induction false} OpaqueGrows(raws: seq<Raw>, m: nat, n: nat)
    requires m <= n <= |raws|
    ensures Project(raws[..m]).opaqueRuns <= Project(raws[..n]).opaqueRuns
  {
    if m < n {
      OpaqueGrows(raws, m, n - 1);
      ProjectOne(raws, n - 1);
    }
  }

  /** An event is hidden exactly when some tool run is around it, visible or not. */
  lemma HiddenExactly(raws: seq<Raw>, n: nat)
    requires Transitive(raws) && n < |raws|
    ensures VisibleAt(raws, n) <==> !Inside(raws, raws[n])
  {
    if !VisibleAt(raws, n) {
      var r :| r in raws[n].parents && r in Project(raws[..n]).opaqueRuns;
      OpaqueAreToolStarts(raws, n, r);
      var i :| 0 <= i < n && StartedAt(raws, i, r);
      assert Encloses(raws, i, raws[n]);
    }
    if Inside(raws, raws[n]) {
      var i :| 0 <= i < |raws| && Encloses(raws, i, raws[n]);
      OpaqueAreToolStarts(raws, n, raws[i].run);
      OpaqueGrows(raws, i, n);
      assert VisibleAt(raws, i) ==> StartedAt(raws, i, raws[i].run);
    }
  }

  /** The events at the agent's own level. */
  ghost function Outer(raws: seq<Raw>, n: nat): seq<Raw>
    requires n <= |raws|
  {
    if n == 0 then [] else Outer(raws, n - 1) + if Inside(raws, raws[n - 1]) then [] else [raws[n - 1]]
  }

  /** The projection of events none of which is inside a tool. */
  function Flat(raws: seq<Raw>): Projection {
    if raws == [] then BEGIN else Take(Flat(raws[..|raws| - 1]), raws[|raws| - 1])
  }

  lemma FlatOneMore(raws: seq<Raw>, raw: Raw)
    ensures Flat(raws + [raw]) == Take(Flat(raws), raw)
  {
    assert (raws + [raw])[..|raws|] == raws;
  }

  lemma OuterOneMore(raws: seq<Raw>, n: nat)
    requires n < |raws|
    ensures Outer(raws, n + 1) == if Inside(raws, raws[n]) then Outer(raws, n) else Outer(raws, n) + [raws[n]]
  {
  }

  lemma FlatStep(p: Projection, outer: seq<Raw>, raw: Raw, inside: bool)
    requires p == Flat(outer) && inside == Hidden(p, raw)
    ensures Absorb(p, raw) == Flat(if inside then outer else outer + [raw])
  {
    FlatOneMore(outer, raw);
  }

  ghost predicate FlatUpTo(raws: seq<Raw>, n: nat)
    requires n <= |raws|
  {
    Project(raws[..n]) == Flat(Outer(raws, n))
  }

  lemma ProjectionStep(raws: seq<Raw>, n: nat)
    requires Transitive(raws) && n < |raws| && FlatUpTo(raws, n)
    ensures FlatUpTo(raws, n + 1)
  {
    var p, outer, inside := Project(raws[..n]), Outer(raws, n), Inside(raws, raws[n]);
    assert inside == Hidden(p, raws[n]) by {
      HiddenExactly(raws, n);
    }
    FlatStep(p, outer, raws[n], inside);
    ProjectOne(raws, n);
    OuterOneMore(raws, n);
  }

  lemma {:induction false} AllFlat(raws: seq<Raw>, n: nat)
    requires Transitive(raws) && n <= |raws|
    ensures FlatUpTo(raws, n)
  {
    if n > 0 {
      AllFlat(raws, n - 1);
      ProjectionStep(raws, n - 1);
    }
  }

  /** Projecting a run tree is the same as dropping everything inside tools and projecting the rest. */
  lemma ProjectionIsFlat(raws: seq<Raw>, n: nat)
    requires Transitive(raws) && n <= |raws|
    ensures Project(raws[..n]) == Flat(Outer(raws, n))
  {
    AllFlat(raws, n);
  }

  // ---------------------------------------------------------------- first in, first out per name

  function OfName(calls: seq<Announced>, name: string): seq<Announced> {
    if calls == [] then [] else (if calls[0].name == name then [calls[0]] else []) + OfName(calls[1..], name)
  }

  lemma {:induction false} OfNameConcat(a: seq<Announced>, b: seq<Announced>, name: string)
    ensures OfName(a + b, name) == OfName(a, name) + OfName(b, name)
  {
    if a == [] {
      assert a + b == b;
    } else {
      assert (a + b)[0] == a[0] && (a + b)[1..] == a[1..] + b;
      OfNameConcat(a[1..], b, name);
      var head := if a[0].name == name then [a[0]] else [];
      assert (head + OfName(a[1..], name)) + OfName(b, name) == head + (OfName(a[1..], name) + OfName(b, name));
    }
  }

  lemma OfNameCons(c: Announced, rest: seq<Announced>, name: string)
    ensures OfName([c] + rest, name) == (if c.name == name then [c] else []) + OfName(rest, name)
  {
    assert ([c] + rest)[1..] == rest;
  }

  lemma WithoutLater(calls: seq<Announced>, i: nat)
    requires 0 < i < |calls|
    ensures Without(calls, i) == [calls[0]] + Without(calls[1..], i - 1)
  {
    assert calls[..i] == [calls[0]] + calls[1..][..i - 1];
    assert calls[i + 1..] == calls[1..][i..];
  }

  /** Leaving out a call leaves out nothing of another name. */
  lemma {:induction false} WithoutOther(calls: seq<Announced>, i: nat, other: string)
    requires i < |calls| && calls[i].name != other
    ensures OfName(Without(calls, i), other) == OfName(calls, other)
  {
    if i == 0 {
      assert Without(calls, 0) == calls[1..];
    } else {
      WithoutOther(calls[1..], i - 1, other);
      WithoutLater(calls, i);
      OfNameCons(calls[0], Without(calls[1..], i - 1), other);
    }
  }

  lemma {:induction false} WithoutFirst(calls: seq<Announced>, i: nat)
    requires i < |calls| && forall j :: 0 <= j < i ==> calls[j].name != calls[i].name
    ensures OfName(calls, calls[i].name) == [calls[i]] + OfName(Without(calls, i), calls[i].name)
  {
    var name := calls[i].name;
    if i == 0 {
      assert Without(calls, 0) == calls[1..];
    } else {
      assert calls[0].name != name;
      WithoutFirst(calls[1..], i - 1);
      WithoutLater(calls, i);
      OfNameCons(calls[0], Without(calls[1..], i - 1), name);
    }
  }

  lemma {:induction false} NoneOfName(calls: seq<Announced>, name: string)
    requires forall j :: 0 <= j < |calls| ==> calls[j].name != name
    ensures OfName(calls, name) == []
  {
    if calls != [] {
      NoneOfName(calls[1..], name);
    }
  }

  /** Taking the first call of a name takes the oldest, and no call of another name. */
  lemma TakeOldest(pending: seq<Announced>, name: string, other: string)
    ensures var i := FirstNamed(pending, name);
      if i < |pending| then
        && OfName(pending, name) == [pending[i]] + OfName(Without(pending, i), name)
        && (other != name ==> OfName(Without(pending, i), other) == OfName(pending, other))
      else OfName(pending, name) == []
  {
    var i := FirstNamed(pending, name);
    if i < |pending| {
      WithoutFirst(pending, i);
      if other != name {
        WithoutOther(pending, i, other);
      }
    } else {
      NoneOfName(pending, name);
    }
  }

  ghost predicate Fifo(p: Projection, name: string) {
    OfName(p.announced, name) == OfName(p.taken, name) + OfName(p.pending, name)
  }

  lemma Assoc(a: seq<Announced>, b: seq<Announced>, c: seq<Announced>)
    ensures (a + b) + c == a + (b + c)
  {
  }

  lemma MoreCallsKeepFifo(announced: seq<Announced>, taken: seq<Announced>, pending: seq<Announced>,
                          calls: seq<Announced>, name: string)
    requires OfName(announced, name) == OfName(taken, name) + OfName(pending, name)
    ensures OfName(announced + calls, name) == OfName(taken, name) + OfName(pending + calls, name)
  {
    OfNameConcat(announced, calls, name);
    OfNameConcat(pending, calls, name);
    Assoc(OfName(taken, name), OfName(pending, name), OfName(calls, name));
  }

  lemma TakingKeepsFifo(
      all: seq<Announced>, taken: seq<Announced>, pending: seq<Announced>, started: string, name: string)
    requires all == OfName(taken, name) + OfName(pending, name)
    requires FirstNamed(pending, started) < |pending|
    ensures var i := FirstNamed(pending, started);
      all == OfName(taken + [pending[i]], name) + OfName(Without(pending, i), name)
  {
    var i := FirstNamed(pending, started);
    var call, rest := pending[i], OfName(Without(pending, i), name);
    TakeOldest(pending, started, name);
    OfNameConcat(taken, [call], name);
    OfNameCons(call, [], name);
    assert [call] + [] == [call];
    if name == started {
      Assoc(OfName(taken, name), [call], rest);
    }
  }

  lemma ReplyKeepsFifo(p: Projection, run: string, summary: bool, reply: Option<Reply>, name: string)
    requires Fifo(p, name)
    ensures Fifo(OnModelEnd(p, run, summary, reply), name)
  {
    if reply.Some? {
      MoreCallsKeepFifo(p.announced, p.taken, p.pending, reply.value.calls, name);
    }
  }

  lemma StartKeepsFifo(p: Projection, run: string, started: string, name: string)
    requires Fifo(p, name)
    ensures Fifo(OnToolStart(p, run, started), name)
  {
    if FirstNamed(p.pending, started) < |p.pending| {
      TakingKeepsFifo(OfName(p.announced, name), p.taken, p.pending, started, name);
    }
  }

  lemma TakeKeepsFifo(p: Projection, raw: Raw, name: string)
    requires Fifo(p, name)
    ensures Fifo(Take(p, raw), name)
  {
    match raw.kind
    case ModelEnd(summary, reply) => ReplyKeepsFifo(p, raw.run, summary, reply, name);
    case ToolStart(started) => StartKeepsFifo(p, raw.run, started, name);
    case _ =>
  }

  lemma {:induction false} CallsAreTakenInOrder(raws: seq<Raw>, name: string)
    ensures Fifo(Project(raws), name)
  {
    if raws != [] {
      CallsAreTakenInOrder(raws[..|raws| - 1], name);
      TakeKeepsFifo(Project(raws[..|raws| - 1]), raws[|raws| - 1], name);
    }
  }

  /** Each start of a tool takes the oldest announced call of that name not taken before, and
      reports it; a start without one reports its own run. */
  lemma StartTakesOldest(raws: seq<Raw>, run: string, name: string)
    ensures var p := Project(raws);
      var all, used := OfName(p.announced, name), OfName(p.taken, name);
      var p' := OnToolStart(p, run, name);
      && used <= all
      && (if |used| < |all| then
            && p'.taken == p.taken + [all[|used|]]
            && p'.out == p.out + [ToolStarted(name, if all[|used|].id != "" then all[|used|].id else run)]
          else p'.taken == p.taken && p'.out == p.out + [ToolStarted(name, run)])
  {
    var p := Project(raws);
    CallsAreTakenInOrder(raws, name);
    TakeOldest(p.pending, name, name);
  }

  // ---------------------------------------------------------------- tools outstanding

  /** Run `r` was started at the agent's own level and has not ended within the first `n` events. */
  ghost predicate Outstanding(raws: seq<Raw>, n: nat, r: string)
    requires n <= |raws|
  {
    && StartedBefore(raws, n, r)
    && (forall j :: 0 <= j < n && raws[j].kind.ToolEnd? ==> raws[j].run != r)
  }

  lemma OpenerIsVisible(raws: seq<Raw>, i: nat, j: nat)
    requires Opens(raws, i, j)
    ensures VisibleAt(raws, j) ==> VisibleAt(raws, i)
  {
    OpaqueGrows(raws, i, j);
  }

  /** Ends of hidden tools do not touch the table of started ones. */
  lemma EndTouchesItsOwn(raws: seq<Raw>, j: nat, r: string)
    requires WellNested(raws) && j < |raws| && raws[j].kind.ToolEnd?
    requires Outstanding(raws, j, raws[j].run)
    ensures VisibleAt(raws, j)
  {
    var m :| 0 <= m < j && StartedAt(raws, m, raws[j].run);
    var i :| 0 <= i < j && Opens(raws, i, j);
    assert i == m;
    HiddenExactly(raws, i);
    HiddenExactly(raws, j);
    assert forall k :: 0 <= k < |raws| ==> (Encloses(raws, k, raws[i]) <==> Encloses(raws, k, raws[j]));
  }

  lemma StartIsNew(raws: seq<Raw>, n: nat)
    requires ToolRunsDiffer(raws) && n < |raws| && raws[n].kind.ToolStart?
    ensures !StartedBefore(raws, n, raws[n].run)
  {
  }

  lemma EndIsOfStarted(raws: seq<Raw>, j: nat)
    requires WellNested(raws) && j < |raws| && raws[j].kind.ToolEnd? && VisibleAt(raws, j)
    ensures Outstanding(raws, j, raws[j].run)
  {
    var i :| 0 <= i < j && Opens(raws, i, j);
    OpenerIsVisible(raws, i, j);
    assert StartedAt(raws, i, raws[j].run);
  }

  lemma OutstandingOne(raws: seq<Raw>, n: nat, r: string)
    requires WellNested(raws) && n < |raws|
    ensures Outstanding(raws, n + 1, r) <==>
      StartedAt(raws, n, r) || (Outstanding(raws, n, r) && !(raws[n].kind.ToolEnd? && raws[n].run == r))
  {
    if StartedAt(raws, n, r) {
      NoEarlyEnd(raws, n);
    }
  }

  lemma StartedOne(p: Projection, raw: Raw, r: string)
    ensures r in Absorb(p, raw).started <==>
      if Hidden(p, raw) || raw.run != r then r in p.started
      else raw.kind.ToolStart? || (r in p.started && !raw.kind.ToolEnd?)
  {
  }

  lemma {:induction false} StartedExactly(raws: seq<Raw>, n: nat, r: string)
    requires WellNested(raws) && n <= |raws|
    ensures r in Project(raws[..n]).started <==> Outstanding(raws, n, r)
  {
    if n > 0 {
      StartedExactly(raws, n - 1, r);
      ProjectOne(raws, n - 1);
      OutstandingOne(raws, n - 1, r);
      StartedOne(Project(raws[..n - 1]), raws[n - 1], r);
      var raw := raws[n - 1];
      if raw.kind.ToolEnd? && raw.run == r && Outstanding(raws, n - 1, r) {
        EndTouchesItsOwn(raws, n - 1, r);
      }
    }
  }

  lemma NoEarlyEnd(raws: seq<Raw>, n: nat)
    requires WellNested(raws) && n < |raws| && raws[n].kind.ToolStart?
    ensures forall j :: 0 <= j < n && raws[j].kind.ToolEnd? ==> raws[j].run != raws[n].run
  {
    forall j | 0 <= j < n && raws[j].kind.ToolEnd? ensures raws[j].run != raws[n].run {
      var i :| 0 <= i < j && Opens(raws, i, j);
      assert raws[i].run != raws[n].run;
    }
  }

  lemma {:induction false} ProjectHasNoFailure(raws: seq<Raw>)
    ensures NoFailure(Project(raws).out)
  {
    if raws != [] {
      ProjectHasNoFailure(raws[..|raws| - 1]);
    }
  }

  lemma AppendedCounts(out: seq<Event>, e: Event, n: nat)
    requires ActiveAfter(0, out) == n
    ensures ActiveAfter(0, out + [e]) == Active(n, e)
  {
    ActiveOneMore(0, out, e);
  }

  lemma StartCounts(p: Projection, run: string, name: string)
    requires ActiveAfter(0, p.out) == |p.started| && run !in p.started
    ensures ActiveAfter(0, OnToolStart(p, run, name).out) == |OnToolStart(p, run, name).started|
  {
    var p' := OnToolStart(p, run, name);
    var e := p'.out[|p.out|];
    assert p'.out == p.out + [e];
    AppendedCounts(p.out, e, |p.started|);
  }

  lemma EndCounts(p: Projection, run: string, name: string)
    requires ActiveAfter(0, p.out) == |p.started| && run in p.started
    ensures ActiveAfter(0, OnToolEnd(p, run, name).out) == |OnToolEnd(p, run, name).started|
  {
    var p' := OnToolEnd(p, run, name);
    var e := p'.out[|p.out|];
    assert p'.out == p.out + [e];
    AppendedCounts(p.out, e, |p.started|);
    assert p.started.Keys == p'.started.Keys + {run};
  }

  lemma ReplyCounts(p: Projection, run: string, summary: bool, reply: Option<Reply>)
    requires ActiveAfter(0, p.out) == |p.started|
    ensures ActiveAfter(0, OnModelEnd(p, run, summary, reply).out) == |OnModelEnd(p, run, summary, reply).started|
  {
    var p' := OnModelEnd(p, run, summary, reply);
    if |p'.out| > |p.out| {
      var e := p'.out[|p.out|];
      assert p'.out == p.out + [e];
      AppendedCounts(p.out, e, |p.started|);
    }
  }

  lemma CountOne(p: Projection, raw: Raw)
    requires ActiveAfter(0, p.out) == |p.started|
    requires raw.kind.ToolStart? ==> raw.run !in p.started
    requires raw.kind.ToolEnd? ==> raw.run in p.started
    ensures ActiveAfter(0, Take(p, raw).out) == |Take(p, raw).started|
  {
    match raw.kind
    case ToolStart(name) => StartCounts(p, raw.run, name);
    case ToolEnd(name) => EndCounts(p, raw.run, name);
    case ModelEnd(summary, reply) => ReplyCounts(p, raw.run, summary, reply);
    case ModelText(text, _) => AppendedCounts(p.out, Delta(text), |p.started|);
    case _ =>
  }

  /** The counter of the recovery loop is exact: it is the number of outstanding tools. */
  lemma {:induction false} CounterIsExact(raws: seq<Raw>, n: nat)
    requires WellNested(raws) && n <= |raws|
    ensures ActiveAfter(0, Project(raws[..n]).out) == |Project(raws[..n]).started|
  {
    if n > 0 {
      CounterIsExact(raws, n - 1);
      ProjectOne(raws, n - 1);
      var raw := raws[n - 1];
      StartedExactly(raws, n - 1, raw.run);
      if VisibleAt(raws, n - 1) {
        if raw.kind.ToolStart? {
          StartIsNew(raws, n - 1);
        } else if raw.kind.ToolEnd? {
          EndIsOfStarted(raws, n - 1);
        }
        CountOne(Project(raws[..n - 1]), raw);
      }
    }
  }

  /** An engine whose attempts are these run trees. */
  ghost predicate Engine(streams: nat -> seq<Event>, raws: nat -> seq<Raw>, endings: nat -> Ending) {
    forall k: nat :: WellNested(raws(k)) && streams(k) == Submit(raws(k), endings(k))
  }

  /** An attempt is resumed only when every tool it started at its own level has ended. */
  lemma ResumeOnlyWhenToolsAreDone(streams: nat -> seq<Event>, raws: nat -> seq<Raw>, endings: nat -> Ending,
                                   k: nat, maxRetries: nat, canResume: bool, i: nat)
    requires Engine(streams, raws, endings) && Passes(streams, k, maxRetries, canResume)
    requires i < |raws(k)| && raws(k)[i].kind.ToolStart? && !Inside(raws(k), raws(k)[i])
    ensures exists j :: i < j < |raws(k)| && raws(k)[j].kind.ToolEnd? && raws(k)[j].run == raws(k)[i].run
  {
    var rs := raws(k);
    var n := |rs|;
    assert rs[..n] == rs;
    ProjectHasNoFailure(rs);
    ScanActive(0, false, Project(rs).out, Close(Project(rs).last, endings(k)));
    CounterIsExact(rs, n);
    assert Project(rs).started == map[];
    HiddenExactly(rs, i);
    StartedExactly(rs, n, rs[i].run);
    assert StartedAt(rs, i, rs[i].run);
    var j :| 0 <= j < n && rs[j].kind.ToolEnd? && rs[j].run == rs[i].run;
    var m :| 0 <= m < j && Opens(rs, m, j);
    assert m == i;
  }

  // ---------------------------------------------------------------- the final answer

  /** Whether an event at the agent's own level disturbs the last reply; `before` says whether one did so far. */
  predicate Disturbs(p: Projection, raw: Raw, before: bool) {
    match raw.kind
    case ToolStart(_) => true
    case ModelEnd(summary, reply) => if raw.run in p.completed || reply.None? then before else summary
    case _ => before
  }

  /** Whether a summary turn ended or a tool was started since the last reply. */
  predicate Disturbed(raws: seq<Raw>) {
    if raws == [] then false
    else
      var front, raw := raws[..|raws| - 1], raws[|raws| - 1];
      var p := Project(front);
      if Hidden(p, raw) then Disturbed(front) else Disturbs(p, raw, Disturbed(front))
  }

  /** The last word of the output is the last reply, or something that is no answer. */
  ghost predicate LastWordIs(p: Projection, disturbed: bool) {
    if disturbed then LastWord(p.out).Some? && !Answers(LastWord(p.out).value)
    else LastWord(p.out) == if p.last.Some? then Some(Turn(p.last.value.text, CallIds(p.last.value.calls))) else None
  }

  lemma ReplyIsLastWord(p: Projection, run: string, summary: bool, reply: Option<Reply>, before: bool)
    requires LastWordIs(p, before)
    ensures LastWordIs(OnModelEnd(p, run, summary, reply),
                       if run in p.completed || reply.None? then before else summary)
  {
    var p' := OnModelEnd(p, run, summary, reply);
    if |p'.out| > |p.out| {
      var e := p'.out[|p.out|];
      assert p'.out == p.out + [e];
      LastWordOneMore(p.out, e);
    }
  }

  lemma LastWordAfter(p: Projection, raw: Raw, before: bool)
    requires LastWordIs(p, before)
    ensures LastWordIs(Take(p, raw), Disturbs(p, raw, before))
  {
    var p' := Take(p, raw);
    if raw.kind.ModelEnd? {
      ReplyIsLastWord(p, raw.run, raw.kind.summary, raw.kind.reply, before);
    } else if |p'.out| > |p.out| {
      var e := p'.out[|p.out|];
      assert p'.out == p.out + [e];
      LastWordOneMore(p.out, e);
    }
  }

  lemma {:induction false} LastWordOfProjection(raws: seq<Raw>)
    ensures LastWordIs(Project(raws), Disturbed(raws))
  {
    if raws != [] {
      var front, raw := raws[..|raws| - 1], raws[|raws| - 1];
      LastWordOfProjection(front);
      LastWordAfter(Project(front), raw, Disturbed(front));
    }
  }

  /** An attempt counts as delivered exactly when the graph ends without a budget notice, its last
      reply is an answer, and after it no summary turn ended and no tool was started. */
  lemma DeliveredExactly(raws: seq<Raw>, ending: Ending)
    ensures Scan(0, false, Submit(raws, ending)).error.None? <==>
      ending.Finished? && ending.budgetNotice.None? && Speaks(Project(raws).last) && !Disturbed(raws)
  {
    var p := Project(raws);
    var close := Close(p.last, ending);
    ProjectHasNoFailure(raws);
    LastWordOfProjection(raws);
    ScanSucceedsExactly(p.out + close);
    if close == [] {
      assert p.out + close == p.out;
    } else {
      assert (p.out + close)[|p.out|].Failed?;
    }
  }

  lemma ProjectTwo(a: Raw, b: Raw)
    requires a.parents == {} && b.parents == {}
    ensures Project([a, b]) == Take(Take(BEGIN, a), b)
  {
    var raws := [a, b];
    assert raws[..1] == [a] && raws[..0] == [] && raws[..2] == raws;
    ProjectOne(raws, 0);
    ProjectOne(raws, 1);
  }

  lemma AnswerThenSummary(text: string, answer: Raw, summary: Raw)
    requires answer.kind == ModelEnd(false, Some(Reply(text, [])))
    requires summary.kind == ModelEnd(true, Some(Reply("", [])))
    requires answer.run != summary.run
    ensures var p := Take(Take(BEGIN, answer), summary);
      p.out == [Turn(text, []), Turn("", [])] && p.last == Some(Reply(text, []))
  {
    assert CallIds([]) == [];
    var p1 := Take(BEGIN, answer);
    assert p1.out == [Turn(text, [])] && p1.completed == {answer.run};
  }

  lemma TwoTurns(text: string)
    requires !M.Blank(M.Text(text))
    ensures NoFailure([Turn(text, []), Turn("", [])])
    ensures Scan(0, false, [Turn(text, []), Turn("", [])]).error == Some(EMPTY)
  {
    var stream := [Turn(text, []), Turn("", [])];
    assert stream[1..] == [Turn("", [])] && stream[1..][1..] == [];
    assert Scan(0, false, []).error == Some(EMPTY);
    assert Scan(0, true, stream[1..]).error == Some(EMPTY);
  }

  /** The condition matters: a summary turn after the answer makes the loop ask for the answer again,
      although the engine itself reported no error. */
  lemma SummaryAfterAnswerIsLost(text: string)
    requires text != "" && !M.IsSpace(text[0])
    ensures var answer := Raw(ModelEnd(false, Some(Reply(text, []))), "a", {});
      var summary := Raw(ModelEnd(true, Some(Reply("", []))), "b", {});
      var stream := Submit([answer, summary], Finished(None, false));
      NoFailure(stream) && Scan(0, false, stream).error == Some(EMPTY)
  {
    var answer := Raw(ModelEnd(false, Some(Reply(text, []))), "a", {});
    var summary := Raw(ModelEnd(true, Some(Reply("", []))), "b", {});
    var stream := Submit([answer, summary], Finished(None, false));
    assert stream == [Turn(text, []), Turn("", [])] by {
      ProjectTwo(answer, summary);
      AnswerThenSummary(text, answer, summary);
      assert !M.Blank(M.Text(text));
      assert Close(Some(Reply(text, [])), Finished(None, false)) == [];
    }
    TwoTurns(text);
  }
}
