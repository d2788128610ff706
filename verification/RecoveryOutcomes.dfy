/** Which failures are resumed, after what wait, and what is reported when none is left, told from the
    streams alone. */
module RecoveryOutcomes {
  import opened Common
  import opened ModelRecovery
  import M = Messages

  // ---------------------------------------------------------------- one attempt

  /** The events of a stream before its first failure. */
  function Sound(events: seq<Event>): (sound: seq<Event>)
    ensures |sound| <= |events| && sound == events[..|sound|]
    ensures forall i :: 0 <= i < |sound| ==> !sound[i].Failed?
    ensures |sound| < |events| ==> events[|sound|].Failed?
  {
    if events == [] || events[0].Failed? then [] else [events[0]] + Sound(events[1..])
  }

  /** Tools started and not completed; a completion without a start counts for nothing. */
  function Outstanding(events: seq<Event>): nat {
    if events == [] then 0
    else
      var before := Outstanding(events[..|events| - 1]);
      match events[|events| - 1]
      case ToolStarted(_, _) => before + 1
      case ToolCompleted(_, _) => if before > 0 then before - 1 else 0
      case _ => before
  }

  /** The last turn is an answer with some text and no tool call, and no tool was started after it. */
  predicate Delivered(events: seq<Event>) {
    events != [] &&
    match events[|events| - 1]
    case ToolStarted(_, _) => false
    case Turn(text, toolUses) => toolUses == [] && !M.Blank(M.Text(text))
    case _ => Delivered(events[..|events| - 1])
  }

  /** Why the attempt fails that these events end, after some others: their first failure, or else that it
      ends without an answer. */
  function FailureAfter(done: seq<Event>, events: seq<Event>): Option<ModelError> {
    var n := |Sound(events)|;
    if n < |events| then Some(events[n].error)
    else if Delivered(done + events) then None
    else Some(ModelError(EmptyModelResponse, true, None, false,
                         "Model ended without delivering an answer or a pending tool call."))
  }

  function FailureOf(events: seq<Event>): Option<ModelError> {
    FailureAfter([], events)
  }

  lemma OneMore(done: seq<Event>, e: Event)
    ensures Outstanding(done + [e]) == Active(Outstanding(done), e)
    ensures Delivered(done + [e]) == Final(Delivered(done), e)
  {
    assert (done + [e])[..|done|] == done;
  }

  /** The scan of a stream whose first events are behind it. */
  ghost predicate ScannedAs(r: Scanned, done: seq<Event>, events: seq<Event>) {
    r == Scanned(Sound(events), Outstanding(done + Sound(events)), FailureAfter(done, events))
  }

  lemma ScanNothing(done: seq<Event>, events: seq<Event>)
    requires events == [] || events[0].Failed?
    ensures ScannedAs(Scan(Outstanding(done), Delivered(done), events), done, events)
  {
    assert done + [] == done;
  }

  lemma SoundCons(e: Event, rest: seq<Event>)
    requires !e.Failed?
    ensures Sound([e] + rest) == [e] + Sound(rest)
  {
    assert ([e] + rest)[1..] == rest;
  }

  lemma Rearranged(done: seq<Event>, e: Event, rest: seq<Event>)
    ensures done + ([e] + rest) == done + [e] + rest
  {
  }

  lemma FailureLater(done: seq<Event>, e: Event, rest: seq<Event>)
    requires !e.Failed?
    ensures FailureAfter(done, [e] + rest) == FailureAfter(done + [e], rest)
  {
    SoundCons(e, rest);
    Rearranged(done, e, rest);
    var n := |Sound(rest)|;
    assert n < |rest| ==> ([e] + rest)[n + 1] == rest[n];
  }

  lemma ScannedStep(r: Scanned, done: seq<Event>, e: Event, rest: seq<Event>)
    requires !e.Failed? && ScannedAs(r, done + [e], rest)
    ensures ScannedAs(r.(relayed := [e] + r.relayed), done, [e] + rest)
  {
    SoundCons(e, rest);
    FailureLater(done, e, rest);
    Rearranged(done, e, Sound(rest));
  }

  lemma {:induction false} ScanIs(done: seq<Event>, events: seq<Event>)
    ensures ScannedAs(Scan(Outstanding(done), Delivered(done), events), done, events)
    decreases |events|
  {
    if events == [] || events[0].Failed? {
      ScanNothing(done, events);
    } else {
      var e, rest := events[0], events[1..];
      OneMore(done, e);
      ScanIs(done + [e], rest);
      ScannedStep(Scan(Outstanding(done + [e]), Delivered(done + [e]), rest), done, e, rest);
      assert [e] + rest == events;
    }
  }

  lemma AttemptIs(events: seq<Event>)
    ensures Scan(0, false, events) == Scanned(Sound(events), Outstanding(Sound(events)), FailureOf(events))
  {
    ScanIs([], events);
    assert [] + Sound(events) == Sound(events);
  }

  // ---------------------------------------------------------------- after a failure

  /** A transport failure of the provider, said to be worth a retry. */
  predicate Recoverable(e: ModelError) {
    e.retryable &&
    (e.code == NetworkFailure || e.code == ProviderTimeout || e.code == ProviderRateLimit
     || e.code == ProviderUnavailable || e.code == EmptyModelResponse)
  }

  /** The wait before resume number `k + 1`: 5, 15, 30 and then 60 seconds, or what was asked for if longer. */
  function WaitFor(k: nat, e: ModelError): real {
    var planned := match k case 0 => 5.0 case 1 => 15.0 case 2 => 30.0 case _ => 60.0;
    match e.retryAfter
    case Some(asked) => (if asked >= planned then asked else planned)
    case None => planned
  }

  /** The failure of an attempt after `k` resumes is followed by another one. */
  predicate GoesOn(events: seq<Event>, k: nat, maxRetries: nat, canResume: bool) {
    && FailureOf(events).Some?
    && Recoverable(FailureOf(events).value) && Outstanding(Sound(events)) == 0
    && k < maxRetries && canResume && WaitFor(k, FailureOf(events).value) <= 300.0
  }

  /** The failure as reported: a recoverable one of an engine that can resume becomes a pause. */
  function Reported(e: ModelError, canResume: bool): ModelError {
    if Recoverable(e) && canResume then
      ModelError(e.code, false, e.retryAfter, true,
                 "Research paused; saved progress is retained. "
                 + "Continue when the model service is available. Last delivery error: " + e.message)
    else e
  }

  lemma WaitIsDelay(k: nat, e: ModelError)
    ensures Delay(k, e) == WaitFor(k, e)
  {
  }

  lemma RecoverableIsTransient(e: ModelError)
    ensures Recoverable(e) == Transient(e)
  {
  }

  lemma ReportIsLast(e: ModelError, canResume: bool)
    ensures LastError(e, canResume) == Reported(e, canResume)
  {
    RecoverableIsTransient(e);
    assert LastError(e, canResume).message == Reported(e, canResume).message;
  }

  lemma GoesOnExactly(events: seq<Event>, k: nat, maxRetries: nat, canResume: bool)
    ensures var r := Scan(0, false, events);
      GoesOn(events, k, maxRetries, canResume)
      <==> r.error.Some? && Resumes(r.error.value, r.active, k, maxRetries, canResume)
  {
    AttemptIs(events);
    if FailureOf(events).Some? {
      WaitIsDelay(k, FailureOf(events).value);
    }
  }

  // ---------------------------------------------------------------- the whole run

  /** The run from resume `k` on: the attempt up to its failure, then a wait and the next one, or the report. */
  function Told(streams: nat -> seq<Event>, k: nat, maxRetries: nat, canResume: bool): seq<Output>
    requires k <= maxRetries
    decreases maxRetries - k
  {
    var events := streams(k);
    var failure := FailureOf(events);
    Relays(Sound(events))
    + if failure.None? then []
      else if GoesOn(events, k, maxRetries, canResume) then
        [Waiting(failure.value.code, WaitFor(k, failure.value), k + 1)] + Told(streams, k + 1, maxRetries, canResume)
      else [Stopped(Reported(failure.value, canResume))]
  }

  lemma {:induction false} FromIsTold(streams: nat -> seq<Event>, k: nat, maxRetries: nat, canResume: bool)
    requires k <= maxRetries
    ensures From(streams, k, maxRetries, canResume) == Told(streams, k, maxRetries, canResume)
    decreases maxRetries - k
  {
    AttemptIs(streams(k));
    GoesOnExactly(streams(k), k, maxRetries, canResume);
    var r := Scan(0, false, streams(k));
    if r.error.Some? {
      WaitIsDelay(k, r.error.value);
      ReportIsLast(r.error.value, canResume);
    }
    if GoesOn(streams(k), k, maxRetries, canResume) {
      FromIsTold(streams, k + 1, maxRetries, canResume);
    }
    assert r.error.Some? ==>
        From(streams, k, maxRetries, canResume)
        == Relays(r.relayed) + OnError(streams, k, r.active, r.error.value, maxRetries, canResume);
  }

  /** For any engine the loop delivers exactly this run. */
  lemma DeliveredIsTold(streams: nat -> seq<Event>, maxRetries: nat, canResume: bool)
    ensures Deliver(streams, maxRetries, canResume) == Told(streams, 0, maxRetries, canResume)
  {
    FromIsTold(streams, 0, maxRetries, canResume);
  }

  /** Attempt `k` fails, and this is the wait before the next one. */
  ghost predicate WaitIsRight(wait: Output, streams: nat -> seq<Event>, k: nat, maxRetries: nat, canResume: bool) {
    && GoesOn(streams(k), k, maxRetries, canResume)
    && wait == Waiting(FailureOf(streams(k)).value.code, WaitFor(k, FailureOf(streams(k)).value), k + 1)
  }

  ghost predicate WaitsAreRight(
      waits: seq<Output>, streams: nat -> seq<Event>, from: nat, maxRetries: nat, canResume: bool)
  {
    forall j :: 0 <= j < |waits| ==> WaitIsRight(waits[j], streams, from + j, maxRetries, canResume)
  }

  ghost predicate CloseIsRight(out: seq<Output>, failure: Option<ModelError>, canResume: bool) {
    match failure
    case Some(e) => out != [] && out[|out| - 1] == Stopped(Reported(e, canResume))
    case None => out == [] || !out[|out| - 1].Stopped?
  }

  /** The waits are those of attempts `from`, `from + 1`, ..., each of which is followed by another; the
      attempt after the last wait is not, and its failure, if it fails, is what the output ends with. */
  ghost predicate EndsRight(out: seq<Output>, streams: nat -> seq<Event>, from: nat, maxRetries: nat, canResume: bool) {
    var last := from + |Waits(out)|;
    && last <= maxRetries && WaitsAreRight(Waits(out), streams, from, maxRetries, canResume)
    && !GoesOn(streams(last), last, maxRetries, canResume)
    && CloseIsRight(out, FailureOf(streams(last)), canResume)
  }

  lemma WaitsLater(wait: Output, waits: seq<Output>, streams: nat -> seq<Event>, k: nat, maxRetries: nat,
                   canResume: bool)
    requires WaitIsRight(wait, streams, k, maxRetries, canResume)
    requires WaitsAreRight(waits, streams, k + 1, maxRetries, canResume)
    ensures WaitsAreRight([wait] + waits, streams, k, maxRetries, canResume)
  {
    forall j | 0 <= j < |[wait] + waits|
      ensures WaitIsRight(([wait] + waits)[j], streams, k + j, maxRetries, canResume)
    {
      if j > 0 {
        assert ([wait] + waits)[j] == waits[j - 1];
        assert WaitIsRight(waits[j - 1], streams, k + 1 + (j - 1), maxRetries, canResume);
      }
    }
  }

  lemma WaitsJoin(relayed: seq<Event>, wait: Output, more: seq<Output>)
    requires wait.Waiting?
    ensures Waits(Relays(relayed) + ([wait] + more)) == [wait] + Waits(more)
  {
    RelaysWaitForNothing(relayed);
    WaitsConcat(Relays(relayed), [wait] + more);
    WaitsCons(wait, more);
  }

  lemma CloseLater(relayed: seq<Event>, wait: Output, more: seq<Output>, failure: Option<ModelError>, canResume: bool)
    requires wait.Waiting? && CloseIsRight(more, failure, canResume)
    ensures CloseIsRight(Relays(relayed) + ([wait] + more), failure, canResume)
  {
    var out := Relays(relayed) + ([wait] + more);
    assert out[|out| - 1] == if more == [] then wait else more[|more| - 1];
  }

  lemma EndsLater(relayed: seq<Event>, wait: Output, more: seq<Output>, streams: nat -> seq<Event>, k: nat,
                  maxRetries: nat, canResume: bool)
    requires k < maxRetries && EndsRight(more, streams, k + 1, maxRetries, canResume)
    requires WaitIsRight(wait, streams, k, maxRetries, canResume)
    ensures EndsRight(Relays(relayed) + ([wait] + more), streams, k, maxRetries, canResume)
  {
    var out, last := Relays(relayed) + ([wait] + more), k + 1 + |Waits(more)|;
    WaitsJoin(relayed, wait, more);
    assert k + |Waits(out)| == last;
    WaitsLater(wait, Waits(more), streams, k, maxRetries, canResume);
    CloseLater(relayed, wait, more, FailureOf(streams(last)), canResume);
  }

  lemma EndsNow(relayed: seq<Event>, closing: seq<Output>, streams: nat -> seq<Event>, k: nat, maxRetries: nat,
                canResume: bool)
    requires k <= maxRetries && !GoesOn(streams(k), k, maxRetries, canResume)
    requires match FailureOf(streams(k))
             case Some(e) => closing == [Stopped(Reported(e, canResume))]
             case None => closing == []
    ensures EndsRight(Relays(relayed) + closing, streams, k, maxRetries, canResume)
  {
    RelaysWaitForNothing(relayed);
    WaitsConcat(Relays(relayed), closing);
    assert Waits(closing) == [];
  }

  lemma {:induction false} ToldEndsRight(streams: nat -> seq<Event>, k: nat, maxRetries: nat, canResume: bool)
    requires k <= maxRetries
    ensures EndsRight(Told(streams, k, maxRetries, canResume), streams, k, maxRetries, canResume)
    decreases maxRetries - k
  {
    var failure := FailureOf(streams(k));
    if GoesOn(streams(k), k, maxRetries, canResume) {
      ToldEndsRight(streams, k + 1, maxRetries, canResume);
      EndsLater(Sound(streams(k)), Waiting(failure.value.code, WaitFor(k, failure.value), k + 1),
                Told(streams, k + 1, maxRetries, canResume), streams, k, maxRetries, canResume);
    } else {
      EndsNow(Sound(streams(k)), if failure.Some? then [Stopped(Reported(failure.value, canResume))] else [],
              streams, k, maxRetries, canResume);
    }
  }

  /** After every failure the loop waits and resumes exactly when the failure is recoverable, no tool is
      outstanding, a retry is left, the engine can resume and the wait is at most five minutes; the first
      failure for which this does not hold is reported, and an attempt that delivers an answer ends the run. */
  lemma EveryFailureIsAnsweredRight(streams: nat -> seq<Event>, maxRetries: nat, canResume: bool)
    ensures EndsRight(Deliver(streams, maxRetries, canResume), streams, 0, maxRetries, canResume)
  {
    DeliveredIsTold(streams, maxRetries, canResume);
    ToldEndsRight(streams, 0, maxRetries, canResume);
  }
}
