/** What the projection emits for every event of a run tree, told from the tree alone. */
module RunEventsOutputs {
  import opened Common
  import opened ModelRecovery
  import opened RunEvents
  import opened RunEventsProofs
  import M = Messages

  // ---------------------------------------------------------------- replies

  ghost predicate OuterAt(raws: seq<Raw>, n: nat)
    requires n < |raws|
  {
    forall i :: 0 <= i < |raws| && raws[i].kind.ToolStart? ==> raws[i].run !in raws[n].parents
  }

  lemma OuterIsVisible(raws: seq<Raw>, n: nat)
    requires Transitive(raws) && n < |raws|
    ensures OuterAt(raws, n) <==> VisibleAt(raws, n)
  {
    HiddenExactly(raws, n);
    if Inside(raws, raws[n]) {
      var i :| 0 <= i < |raws| && Encloses(raws, i, raws[n]);
      assert raws[i].kind.ToolStart? && raws[i].run in raws[n].parents;
    } else {
      forall i | 0 <= i < |raws| && raws[i].kind.ToolStart? ensures raws[i].run !in raws[n].parents {
        assert !Encloses(raws, i, raws[n]);
      }
    }
  }

  /** A model call of this run has ended before. */
  ghost predicate EndedBefore(raws: seq<Raw>, n: nat, run: string)
    requires n <= |raws|
  {
    exists j :: 0 <= j < n && raws[j].kind.ModelEnd? && raws[j].run == run && OuterAt(raws, j)
  }

  /** The first end of a model call at the agent's own level. */
  ghost predicate FirstEnd(raws: seq<Raw>, n: nat)
    requires n < |raws|
  {
    raws[n].kind.ModelEnd? && OuterAt(raws, n) && !EndedBefore(raws, n, raws[n].run)
  }

  /** It brings a reply of the agent, not a summary. */
  ghost predicate NewReply(raws: seq<Raw>, n: nat)
    requires n < |raws|
  {
    FirstEnd(raws, n) && raws[n].kind.reply.Some? && !raws[n].kind.summary
  }

  ghost function LastReply(raws: seq<Raw>, n: nat): Option<Reply>
    requires n <= |raws|
  {
    if n == 0 then None else if NewReply(raws, n - 1) then raws[n - 1].kind.reply else LastReply(raws, n - 1)
  }

  /** The calls of all replies so far. */
  ghost function AnnouncedBy(raws: seq<Raw>, n: nat): seq<Announced>
    requires n <= |raws|
  {
    if n == 0 then []
    else AnnouncedBy(raws, n - 1) + if NewReply(raws, n - 1) then raws[n - 1].kind.reply.value.calls else []
  }

  lemma AbsorbCompletes(p: Projection, raw: Raw, run: string)
    ensures run in Absorb(p, raw).completed <==>
            run in p.completed || (!Hidden(p, raw) && raw.kind.ModelEnd? && raw.run == run)
  {
  }

  lemma {:induction false} CompletedExactly(raws: seq<Raw>, n: nat, run: string)
    requires Transitive(raws) && n <= |raws|
    ensures run in Project(raws[..n]).completed <==> EndedBefore(raws, n, run)
  {
    if n > 0 {
      CompletedExactly(raws, n - 1, run);
      ProjectOne(raws, n - 1);
      OuterIsVisible(raws, n - 1);
      AbsorbCompletes(Project(raws[..n - 1]), raws[n - 1], run);
      assert EndedBefore(raws, n, run) <==>
        EndedBefore(raws, n - 1, run)
        || (raws[n - 1].kind.ModelEnd? && raws[n - 1].run == run && OuterAt(raws, n - 1));
    }
  }

  lemma AbsorbReply(p: Projection, raw: Raw)
    ensures var replies := !Hidden(p, raw) && raw.kind.ModelEnd? && raw.run !in p.completed
                           && raw.kind.reply.Some? && !raw.kind.summary;
      && Absorb(p, raw).last == (if replies then raw.kind.reply else p.last)
      && Absorb(p, raw).announced == p.announced + (if replies then raw.kind.reply.value.calls else [])
  {
    assert p.announced + [] == p.announced;
  }

  ghost predicate RepliesKept(raws: seq<Raw>, n: nat)
    requires n <= |raws|
  {
    Project(raws[..n]).last == LastReply(raws, n) && Project(raws[..n]).announced == AnnouncedBy(raws, n)
  }

  lemma RepliesStep(raws: seq<Raw>, n: nat)
    requires Transitive(raws) && n < |raws| && RepliesKept(raws, n)
    ensures RepliesKept(raws, n + 1)
  {
    ProjectOne(raws, n);
    OuterIsVisible(raws, n);
    CompletedExactly(raws, n, raws[n].run);
    AbsorbReply(Project(raws[..n]), raws[n]);
  }

  /** The projection keeps the last reply and the calls of all of them. */
  lemma {:induction false} RepliesExactly(raws: seq<Raw>, n: nat)
    requires Transitive(raws) && n <= |raws|
    ensures RepliesKept(raws, n)
  {
    if n > 0 {
      RepliesExactly(raws, n - 1);
      RepliesStep(raws, n - 1);
    }
  }

  // ---------------------------------------------------------------- tools

  ghost predicate StartsAt(raws: seq<Raw>, n: nat, name: string)
    requires n < |raws|
  {
    raws[n].kind == ToolStart(name) && OuterAt(raws, n)
  }

  /** How many calls of this name are taken: one by each start that finds one left. */
  ghost function TakenOf(raws: seq<Raw>, n: nat, name: string): nat
    requires n <= |raws|
  {
    if n == 0 then 0
    else
      TakenOf(raws, n - 1, name)
      + if StartsAt(raws, n - 1, name) && TakenOf(raws, n - 1, name) < |OfName(AnnouncedBy(raws, n - 1), name)|
        then 1 else 0
  }

  /** The id a tool start reports: that of the oldest call of its name not taken, or of its own run. */
  ghost function StartId(raws: seq<Raw>, n: nat, name: string): string
    requires n < |raws|
  {
    var calls, taken := OfName(AnnouncedBy(raws, n), name), TakenOf(raws, n, name);
    if taken < |calls| && calls[taken].id != "" then calls[taken].id else raws[n].run
  }

  lemma StartTakes(raws: seq<Raw>, run: string, started: string, name: string)
    ensures var p := Project(raws);
      var all, used := |OfName(p.announced, name)|, |OfName(p.taken, name)|;
      |OfName(OnToolStart(p, run, started).taken, name)| == used + if started == name && used < all then 1 else 0
  {
    var p := Project(raws);
    StartTakesOldest(raws, run, started);
    var used, all := OfName(p.taken, started), OfName(p.announced, started);
    if |used| < |all| {
      OfNameConcat(p.taken, [all[|used|]], name);
      OfNameAre(p.announced, started, |used|);
      OfNameCons(all[|used|], [], name);
    }
  }

  lemma AbsorbTakes(raws: seq<Raw>, raw: Raw, name: string)
    ensures var p := Project(raws);
      var all, used := |OfName(p.announced, name)|, |OfName(p.taken, name)|;
      |OfName(Absorb(p, raw).taken, name)|
      == used + if !Hidden(p, raw) && raw.kind == ToolStart(name) && used < all then 1 else 0
  {
    if raw.kind.ToolStart? {
      StartTakes(raws, raw.run, raw.kind.name, name);
    }
  }

  lemma {:induction false} OfNameAre(calls: seq<Announced>, name: string, i: nat)
    requires i < |OfName(calls, name)|
    ensures OfName(calls, name)[i].name == name
  {
    if calls[0].name != name {
      OfNameAre(calls[1..], name, i);
    } else if i > 0 {
      OfNameAre(calls[1..], name, i - 1);
    }
  }

  lemma TakenStep(raws: seq<Raw>, n: nat, name: string)
    requires Transitive(raws) && n < |raws|
    requires |OfName(Project(raws[..n]).taken, name)| == TakenOf(raws, n, name)
    ensures |OfName(Project(raws[..n + 1]).taken, name)| == TakenOf(raws, n + 1, name)
  {
    ProjectOne(raws, n);
    OuterIsVisible(raws, n);
    RepliesExactly(raws, n);
    AbsorbTakes(raws[..n], raws[n], name);
  }

  lemma {:induction false} TakenExactly(raws: seq<Raw>, n: nat, name: string)
    requires Transitive(raws) && n <= |raws|
    ensures |OfName(Project(raws[..n]).taken, name)| == TakenOf(raws, n, name)
  {
    if n > 0 {
      TakenExactly(raws, n - 1, name);
      TakenStep(raws, n - 1, name);
    }
  }

  lemma StartEmits(raws: seq<Raw>, n: nat, name: string)
    requires Transitive(raws) && n < |raws| && StartsAt(raws, n, name)
    ensures var p, p' := Project(raws[..n]), Project(raws[..n + 1]);
      && p'.out == p.out + [ToolStarted(name, StartId(raws, n, name))]
      && p'.started == p.started[raws[n].run := StartId(raws, n, name)]
  {
    ProjectOne(raws, n);
    OuterIsVisible(raws, n);
    RepliesExactly(raws, n);
    TakenExactly(raws, n, name);
    StartTakesOldest(raws[..n], raws[n].run, name);
    var p := Project(raws[..n]);
    var p' := OnToolStart(p, raws[n].run, name);
    assert p'.out[|p.out|] == ToolStarted(name, p'.started[raws[n].run]);
  }

  /** What is recorded for a tool that was started by event `i` and has not ended. */
  ghost predicate Recorded(raws: seq<Raw>, n: nat, i: nat)
    requires i < n <= |raws|
  {
    && raws[i].kind.ToolStart? && raws[i].run in Project(raws[..n]).started
    && Project(raws[..n]).started[raws[i].run] == StartId(raws, i, raws[i].kind.name)
  }

  lemma AbsorbKeepsStarted(p: Projection, raw: Raw, run: string)
    requires run in p.started && !((raw.kind.ToolStart? || raw.kind.ToolEnd?) && raw.run == run)
    ensures run in Absorb(p, raw).started && Absorb(p, raw).started[run] == p.started[run]
  {
  }

  lemma {:induction false} RecordedUntilItsEnd(raws: seq<Raw>, n: nat, i: nat)
    requires WellNested(raws) && i < n <= |raws| && raws[i].kind.ToolStart? && OuterAt(raws, i)
    requires forall j :: i < j < n && raws[j].kind.ToolEnd? ==> raws[j].run != raws[i].run
    ensures Recorded(raws, n, i)
    decreases n
  {
    if n == i + 1 {
      StartEmits(raws, i, raws[i].kind.name);
    } else {
      RecordedUntilItsEnd(raws, n - 1, i);
      ProjectOne(raws, n - 1);
      AbsorbKeepsStarted(Project(raws[..n - 1]), raws[n - 1], raws[i].run);
    }
  }

  lemma EndEmits(raws: seq<Raw>, i: nat, n: nat, name: string)
    requires WellNested(raws) && n < |raws| && OuterAt(raws, n) && raws[n].kind == ToolEnd(name) && Opens(raws, i, n)
    ensures Project(raws[..n + 1]).out
         == Project(raws[..n]).out + [ToolCompleted(name, StartId(raws, i, raws[i].kind.name))]
  {
    ProjectOne(raws, n);
    OuterIsVisible(raws, n);
    RecordedUntilItsEnd(raws, n, i);
  }

  // ---------------------------------------------------------------- the emissions

  /** What one event of the tree emits: nothing inside a tool; text as it comes; a turn at the first end of
      a model call, with text and calls of its reply but without those of a summary; and for a tool its
      start and its completion, both under the same call id. */
  ghost predicate EmittedRight(raws: seq<Raw>, n: nat, out: seq<Event>)
    requires n < |raws|
  {
    if !OuterAt(raws, n) then out == []
    else
      match raws[n].kind
      case ModelStart => out == []
      case Unrelated => out == []
      case ModelText(text, summary) => out == if summary || text == "" then [] else [Delta(text)]
      case ModelEnd(summary, reply) =>
        if !FirstEnd(raws, n) || reply.None? then out == []
        else if summary then out == [Turn("", [])]
        else
          && |out| == 1 && out[0].Turn? && out[0].text == reply.value.text
          && |out[0].toolUses| == |reply.value.calls|
          && forall k :: 0 <= k < |reply.value.calls| ==> out[0].toolUses[k] == reply.value.calls[k].id
      case ToolStart(name) => out == [ToolStarted(name, StartId(raws, n, name))]
      case ToolEnd(name) =>
        exists i :: 0 <= i < n && Opens(raws, i, n) && out == [ToolCompleted(name, StartId(raws, i, raws[i].kind.name))]
  }

  lemma ModelEventEmits(p: Projection, raw: Raw)
    requires !Hidden(p, raw) && !raw.kind.ToolStart? && !raw.kind.ToolEnd?
    ensures Absorb(p, raw).out == p.out +
      match raw.kind
      case ModelText(text, summary) => (if summary || text == "" then [] else [Delta(text)])
      case ModelEnd(summary, reply) =>
        (if raw.run in p.completed || reply.None? then []
         else if summary then [Turn("", [])] else [Turn(reply.value.text, CallIds(reply.value.calls))])
      case _ => []
  {
  }

  /** The events emitted for event `n`: the output of the first `n + 1` events beyond that of the first `n`. */
  lemma EmissionExactly(raws: seq<Raw>, n: nat)
    requires WellNested(raws) && n < |raws|
    ensures var before, after := Project(raws[..n]).out, Project(raws[..n + 1]).out;
      before <= after && EmittedRight(raws, n, after[|before|..])
  {
    ProjectOne(raws, n);
    OuterIsVisible(raws, n);
    if OuterAt(raws, n) {
      match raws[n].kind
      case ToolStart(name) => StartEmits(raws, n, name);
      case ToolEnd(name) =>
        var i :| 0 <= i < n && Opens(raws, i, n);
        EndEmits(raws, i, n, name);
        assert Project(raws[..n + 1]).out[|Project(raws[..n]).out|..]
            == [ToolCompleted(name, StartId(raws, i, raws[i].kind.name))];
      case _ =>
        ModelEventEmits(Project(raws[..n]), raws[n]);
        CompletedExactly(raws, n, raws[n].run);
    }
  }

  // ---------------------------------------------------------------- the end

  /** How the stream closes: with the exception, with the budget notice, with nothing after an answer, and
      otherwise with an error that can be retried unless the provider cut the reply off. */
  ghost predicate ClosedRight(raws: seq<Raw>, ending: Ending, close: seq<Event>) {
    var last := LastReply(raws, |raws|);
    match ending
    case Raised(error) => close == [Failed(error)]
    case Finished(Some(notice), _) =>
      close == [Failed(ModelError(OtherCode("budget_exhausted"), false, None, false, notice))]
    case Finished(None, cut) =>
      if last.Some? && last.value.calls == [] && !M.Blank(M.Text(last.value.text)) then close == []
      else if cut then
        close == [Failed(ModelError(OtherCode("model_output_error"), false, None, false,
                                    "Model did not deliver an answer"))]
      else
        close == [Failed(ModelError(EmptyModelResponse, true, None, false,
                                    "Model stream ended without a final answer."))]
  }

  lemma SubmissionClosesRight(raws: seq<Raw>, ending: Ending)
    requires WellNested(raws)
    ensures var out := Project(raws).out;
      out <= Submit(raws, ending) && ClosedRight(raws, ending, Submit(raws, ending)[|out|..])
  {
    assert raws[..|raws|] == raws;
    RepliesExactly(raws, |raws|);
    var out, close := Project(raws).out, Close(Project(raws).last, ending);
    assert (out + close)[|out|..] == close;
  }
}
