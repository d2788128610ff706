/**
  Bounded recovery of model delivery (src/oceanx/model_recovery.py): the events of an engine, with
  transient failures resumed a limited number of times.

  The specification works stream by stream, the loop event by event. An engine is any function
  from the number of resumes to the events it then emits.
 */
module ModelRecovery {
  import opened Common
  import M = Messages

  datatype Code =
    | NetworkFailure | ProviderTimeout | ProviderRateLimit | ProviderUnavailable | EmptyModelResponse
    | OtherCode(name: string)

  datatype ModelError = ModelError(
    code: Code,
    retryable: bool,
    retryAfter: Option<real>,
    exhausted: bool,
    message: string)

  datatype Event =
    | Delta(text: string)
    | Turn(text: string, toolUses: seq<string>)
    | ToolStarted(name: string, callId: string)
    | ToolCompleted(name: string, callId: string)
    | Failed(error: ModelError)
    | Status(text: string)

  /** What the caller sees: an event passed on, a wait before a resume, or the last error. */
  datatype Output =
    | Relay(event: Event)
    | Waiting(code: Code, delay: real, retry: nat)
    | Stopped(error: ModelError)

  const RETRY_DELAYS: seq<real> := [5.0, 15.0, 30.0, 60.0]
  const LONGEST_WAIT := 300.0

  const EMPTY := ModelError(EmptyModelResponse, true, None, false,
                            "Model ended without delivering an answer or a pending tool call.")

  predicate Answers(e: Event) {
    e.Turn? && !M.Blank(M.Text(e.text)) && e.toolUses == []
  }

  predicate Transient(e: ModelError) {
    e.retryable && !e.code.OtherCode?
  }

  function Delay(retries: nat, e: ModelError): real {
    var planned := RETRY_DELAYS[if retries < |RETRY_DELAYS| then retries else |RETRY_DELAYS| - 1];
    var asked := if e.retryAfter.Some? then e.retryAfter.value else 0.0;
    if asked > planned then asked else planned
  }

  // ---------------------------------------------------------------- one stream

  /** Tools outstanding after an event. */
  function Active(active: nat, e: Event): nat {
    match e
    case ToolStarted(_, _) => active + 1
    case ToolCompleted(_, _) => if active == 0 then 0 else active - 1
    case _ => active
  }

  /** Whether the last answer still stands after an event. */
  function Final(final: bool, e: Event): bool {
    match e
    case ToolStarted(_, _) => false
    case Turn(_, _) => Answers(e)
    case _ => final
  }

  /** A stream up to its first error; a stream that ends without an answer counts as failed. */
  datatype Scanned = Scanned(relayed: seq<Event>, active: nat, error: Option<ModelError>)

  function Scan(active: nat, final: bool, events: seq<Event>): Scanned
    decreases |events|
  {
    if events == [] then Scanned([], active, if final then None else Some(EMPTY))
    else if events[0].Failed? then Scanned([], active, Some(events[0].error))
    else
      var rest := Scan(Active(active, events[0]), Final(final, events[0]), events[1..]);
      rest.(relayed := [events[0]] + rest.relayed)
  }

  // ---------------------------------------------------------------- all attempts

  predicate Resumes(e: ModelError, active: nat, retries: nat, maxRetries: nat, canResume: bool) {
    Transient(e) && active == 0 && retries < maxRetries && Delay(retries, e) <= LONGEST_WAIT && canResume
  }

  /** The error as reported when it is not resumed. */
  function LastError(e: ModelError, canResume: bool): ModelError {
    if Transient(e) && canResume then
      e.(exhausted := true, retryable := false,
         message := "Research paused; saved progress is retained. "
           + "Continue when the model service is available. Last delivery error: " + e.message)
    else e
  }

  function Relays(events: seq<Event>): (out: seq<Output>)
    ensures |out| == |events| && forall i :: 0 <= i < |out| ==> out[i] == Relay(events[i])
  {
    seq(|events|, i requires 0 <= i < |events| => Relay(events[i]))
  }

  /** What follows an error: a wait and the next stream, or the error itself. */
  function OnError(
    streams: nat -> seq<Event>, retries: nat, active: nat, e: ModelError, maxRetries: nat, canResume: bool
  ): seq<Output>
    requires retries <= maxRetries
    decreases maxRetries - retries, 0
  {
    if Resumes(e, active, retries, maxRetries, canResume) then
      [Waiting(e.code, Delay(retries, e), retries + 1)]
      + DeliverFrom(streams, retries + 1, active, false, streams(retries + 1), maxRetries, canResume)
    else [Stopped(LastError(e, canResume))]
  }

  function DeliverFrom(
    streams: nat -> seq<Event>, retries: nat, active: nat, final: bool, events: seq<Event>,
    maxRetries: nat, canResume: bool
  ): seq<Output>
    requires retries <= maxRetries
    decreases maxRetries - retries, 1
  {
    var r := Scan(active, final, events);
    Relays(r.relayed)
    + if r.error.None? then [] else OnError(streams, retries, r.active, r.error.value, maxRetries, canResume)
  }

  function Deliver(streams: nat -> seq<Event>, maxRetries: nat, canResume: bool): seq<Output> {
    DeliverFrom(streams, 0, 0, false, streams(0), maxRetries, canResume)
  }

  lemma ScanOne(
    streams: nat -> seq<Event>, retries: nat, active: nat, final: bool, events: seq<Event>,
    maxRetries: nat, canResume: bool)
    requires retries <= maxRetries && events != [] && !events[0].Failed?
    ensures DeliverFrom(streams, retries, active, final, events, maxRetries, canResume)
         == [Relay(events[0])] + DeliverFrom(streams, retries, Active(active, events[0]), Final(final, events[0]),
                                             events[1..], maxRetries, canResume)
  {
    var rest := Scan(Active(active, events[0]), Final(final, events[0]), events[1..]);
    assert Relays([events[0]] + rest.relayed) == [Relay(events[0])] + Relays(rest.relayed);
  }

  /** The error at the head of a stream, or the one that stands for its end. */
  function HeadError(final: bool, events: seq<Event>): Option<ModelError> {
    if events == [] then if final then None else Some(EMPTY)
    else if events[0].Failed? then Some(events[0].error)
    else None
  }

  lemma ScanHead(
    streams: nat -> seq<Event>, retries: nat, active: nat, final: bool, events: seq<Event>,
    maxRetries: nat, canResume: bool)
    requires retries <= maxRetries && (events == [] || events[0].Failed?)
    ensures var out := DeliverFrom(streams, retries, active, final, events, maxRetries, canResume);
      match HeadError(final, events)
      case None => out == []
      case Some(e) =>
        if Resumes(e, active, retries, maxRetries, canResume) then
          out == [Waiting(e.code, Delay(retries, e), retries + 1)]
                 + DeliverFrom(streams, retries + 1, active, false, streams(retries + 1), maxRetries, canResume)
        else out == [Stopped(LastError(e, canResume))]
  {
    assert Scan(active, final, events) == Scanned([], active, HeadError(final, events));
    var out := DeliverFrom(streams, retries, active, final, events, maxRetries, canResume);
    if HeadError(final, events).Some? {
      var after := OnError(streams, retries, active, HeadError(final, events).value, maxRetries, canResume);
      assert out == Relays([]) + after == after;
    }
  }

  /** What was emitted, followed by what the rest of the current stream leads to, is the whole run. */
  ghost predicate OnTrack(
    streams: nat -> seq<Event>, maxRetries: nat, canResume: bool,
    out: seq<Output>, retries: nat, active: nat, final: bool, stream: seq<Event>)
    requires retries <= maxRetries
  {
    out + DeliverFrom(streams, retries, active, final, stream, maxRetries, canResume)
    == Deliver(streams, maxRetries, canResume)
  }

  lemma Assoc(a: seq<Output>, b: seq<Output>, c: seq<Output>)
    ensures (a + b) + c == a + (b + c)
  {
  }

  lemma RelayOne(
    streams: nat -> seq<Event>, maxRetries: nat, canResume: bool,
    out: seq<Output>, retries: nat, active: nat, final: bool, stream: seq<Event>)
    requires retries <= maxRetries && OnTrack(streams, maxRetries, canResume, out, retries, active, final, stream)
    requires stream != [] && !stream[0].Failed?
    ensures OnTrack(streams, maxRetries, canResume, out + [Relay(stream[0])], retries,
                    Active(active, stream[0]), Final(final, stream[0]), stream[1..])
  {
    ScanOne(streams, retries, active, final, stream, maxRetries, canResume);
    Assoc(out, [Relay(stream[0])], DeliverFrom(streams, retries, Active(active, stream[0]), Final(final, stream[0]),
                                               stream[1..], maxRetries, canResume));
  }

  lemma EndDone(
    streams: nat -> seq<Event>, maxRetries: nat, canResume: bool, out: seq<Output>, retries: nat, active: nat)
    requires retries <= maxRetries && OnTrack(streams, maxRetries, canResume, out, retries, active, true, [])
    ensures out == Deliver(streams, maxRetries, canResume)
  {
    ScanHead(streams, retries, active, true, [], maxRetries, canResume);
  }

  lemma EndResumes(
    streams: nat -> seq<Event>, maxRetries: nat, canResume: bool,
    out: seq<Output>, retries: nat, active: nat, final: bool, stream: seq<Event>, e: ModelError)
    requires retries <= maxRetries && OnTrack(streams, maxRetries, canResume, out, retries, active, final, stream)
    requires HeadError(final, stream) == Some(e) && Resumes(e, active, retries, maxRetries, canResume)
    ensures OnTrack(streams, maxRetries, canResume, out + [Waiting(e.code, Delay(retries, e), retries + 1)],
                    retries + 1, active, false, streams(retries + 1))
  {
    ScanHead(streams, retries, active, final, stream, maxRetries, canResume);
    Assoc(out, [Waiting(e.code, Delay(retries, e), retries + 1)],
          DeliverFrom(streams, retries + 1, active, false, streams(retries + 1), maxRetries, canResume));
  }

  lemma EndStops(
    streams: nat -> seq<Event>, maxRetries: nat, canResume: bool,
    out: seq<Output>, retries: nat, active: nat, final: bool, stream: seq<Event>, e: ModelError)
    requires retries <= maxRetries && OnTrack(streams, maxRetries, canResume, out, retries, active, final, stream)
    requires HeadError(final, stream) == Some(e) && !Resumes(e, active, retries, maxRetries, canResume)
    ensures out + [Stopped(LastError(e, canResume))] == Deliver(streams, maxRetries, canResume)
  {
    ScanHead(streams, retries, active, final, stream, maxRetries, canResume);
  }

  method ModelEvents(streams: nat -> seq<Event>, maxRetries: nat, canResume: bool) returns (out: seq<Output>)
    ensures out == Deliver(streams, maxRetries, canResume)
  {
    out := [];
    var retries: nat, activeTools: nat, finalDelivered := 0, 0, false;
    var stream := streams(0);
    while true
      invariant retries <= maxRetries
      invariant OnTrack(streams, maxRetries, canResume, out, retries, activeTools, finalDelivered, stream)
      decreases maxRetries - retries, |stream|
    {
      if stream == [] || stream[0].Failed? {
        if stream == [] && finalDelivered {
          EndDone(streams, maxRetries, canResume, out, retries, activeTools);
          return;
        }
        var error := if stream == [] then EMPTY else stream[0].error;
        var delay := Delay(retries, error);
        if Transient(error) && activeTools == 0 && retries < maxRetries && delay <= LONGEST_WAIT && canResume {
          EndResumes(streams, maxRetries, canResume, out, retries, activeTools, finalDelivered, stream, error);
          retries := retries + 1;
          out := out + [Waiting(error.code, delay, retries)];
          finalDelivered := false;
          stream := streams(retries);
          continue;
        }
        EndStops(streams, maxRetries, canResume, out, retries, activeTools, finalDelivered, stream, error);
        out := out + [Stopped(LastError(error, canResume))];
        return;
      }
      RelayOne(streams, maxRetries, canResume, out, retries, activeTools, finalDelivered, stream);
      var event := stream[0];
      if event.ToolStarted? {
        activeTools, finalDelivered := activeTools + 1, false;
      } else if event.ToolCompleted? {
        activeTools := if activeTools == 0 then 0 else activeTools - 1;
      } else if event.Turn? {
        finalDelivered := Answers(event);
      }
      out := out + [Relay(event)];
      stream := stream[1..];
    }
  }

  // ---------------------------------------------------------------- what the caller may rely on

  /** `out[i]` resumes; the resumes are numbered 1, 2, ... and each waits between 5 and 300 seconds. */
  ghost predicate Numbered(out: seq<Output>, done: nat, maxRetries: nat) {
    && |Waits(out)| + done <= maxRetries
    && forall i :: 0 <= i < |Waits(out)| ==>
         Waits(out)[i].Waiting? && Waits(out)[i].retry == done + i + 1 && 5.0 <= Waits(out)[i].delay <= LONGEST_WAIT
  }

  function Waits(out: seq<Output>): seq<Output> {
    if out == [] then [] else (if out[0].Waiting? then [out[0]] else []) + Waits(out[1..])
  }

  lemma WaitsCons(x: Output, rest: seq<Output>)
    ensures Waits([x] + rest) == (if x.Waiting? then [x] else []) + Waits(rest)
  {
    assert ([x] + rest)[1..] == rest;
  }

  lemma {:induction false} WaitsConcat(a: seq<Output>, b: seq<Output>)
    ensures Waits(a + b) == Waits(a) + Waits(b)
  {
    if a == [] {
      assert a + b == b;
    } else {
      WaitsConcat(a[1..], b);
      assert a + b == [a[0]] + (a[1..] + b);
      WaitsCons(a[0], a[1..] + b);
      Assoc(if a[0].Waiting? then [a[0]] else [], Waits(a[1..]), Waits(b));
    }
  }

  lemma {:induction false} RelaysWaitForNothing(events: seq<Event>)
    ensures Waits(Relays(events)) == []
  {
    if events != [] {
      assert Relays(events)[1..] == Relays(events[1..]);
      RelaysWaitForNothing(events[1..]);
    }
  }

  lemma OneWait(relayed: seq<Event>, wait: Output, more: seq<Output>, done: nat, maxRetries: nat)
    requires Numbered(more, done + 1, maxRetries)
    requires wait.Waiting? && wait.retry == done + 1 && 5.0 <= wait.delay <= LONGEST_WAIT
    ensures Numbered(Relays(relayed) + ([wait] + more), done, maxRetries)
  {
    RelaysWaitForNothing(relayed);
    WaitsConcat(Relays(relayed), [wait] + more);
    assert ([wait] + more)[1..] == more;
    assert Waits(Relays(relayed) + ([wait] + more)) == [wait] + Waits(more);
  }

  lemma NoWait(relayed: seq<Event>, closing: seq<Output>, done: nat, maxRetries: nat)
    requires done <= maxRetries && |closing| <= 1 && Waits(closing) == []
    ensures Numbered(Relays(relayed) + closing, done, maxRetries)
  {
    RelaysWaitForNothing(relayed);
    WaitsConcat(Relays(relayed), closing);
  }

  lemma {:induction false} AtMostMaxRetriesFrom(
    streams: nat -> seq<Event>, retries: nat, active: nat, final: bool, events: seq<Event>,
    maxRetries: nat, canResume: bool)
    requires retries <= maxRetries
    ensures Numbered(DeliverFrom(streams, retries, active, final, events, maxRetries, canResume), retries, maxRetries)
    decreases maxRetries - retries
  {
    var r := Scan(active, final, events);
    if r.error.None? {
      NoWait(r.relayed, [], retries, maxRetries);
    } else {
      var e := r.error.value;
      if Resumes(e, r.active, retries, maxRetries, canResume) {
        AtMostMaxRetriesFrom(streams, retries + 1, r.active, false, streams(retries + 1), maxRetries, canResume);
        OneWait(r.relayed, Waiting(e.code, Delay(retries, e), retries + 1),
                DeliverFrom(streams, retries + 1, r.active, false, streams(retries + 1), maxRetries, canResume),
                retries, maxRetries);
      } else {
        NoWait(r.relayed, [Stopped(LastError(e, canResume))], retries, maxRetries);
      }
    }
  }

  /** For any engine there are at most `maxRetries` resumes, numbered in order, each after a bounded wait. */
  lemma AtMostMaxRetries(streams: nat -> seq<Event>, maxRetries: nat, canResume: bool)
    ensures Numbered(Deliver(streams, maxRetries, canResume), 0, maxRetries)
  {
    AtMostMaxRetriesFrom(streams, 0, 0, false, streams(0), maxRetries, canResume);
  }

  lemma {:induction false} ScanRelaysNoError(active: nat, final: bool, events: seq<Event>)
    ensures var r := Scan(active, final, events);
      r.relayed <= events && forall i :: 0 <= i < |r.relayed| ==> !r.relayed[i].Failed?
    ensures var r := Scan(active, final, events);
      |r.relayed| < |events| ==> events[|r.relayed|].Failed? && r.error == Some(events[|r.relayed|].error)
    decreases |events|
  {
    if events != [] && !events[0].Failed? {
      ScanRelaysNoError(Active(active, events[0]), Final(final, events[0]), events[1..]);
    }
  }

  ghost predicate ErrorOnlyLast(out: seq<Output>) {
    forall i :: 0 <= i < |out| ==>
      (out[i].Stopped? ==> i + 1 == |out|) && (out[i].Relay? ==> !out[i].event.Failed?)
  }

  lemma ErrorLater(events: seq<Event>, wait: Output, more: seq<Output>)
    requires (forall i :: 0 <= i < |events| ==> !events[i].Failed?) && wait.Waiting? && ErrorOnlyLast(more)
    ensures ErrorOnlyLast(Relays(events) + ([wait] + more))
  {
    var out, n := Relays(events) + ([wait] + more), |events|;
    DropFirst(Relays(events), wait, more);
    forall i | n < i < |out| ensures out[i] == more[i - n - 1] {
      assert out[n + 1..][i - n - 1] == out[i];
    }
  }

  /** An error is reported only as the very last event, so at most once. */
  lemma {:induction false} OneErrorAtMostFrom(
    streams: nat -> seq<Event>, retries: nat, events: seq<Event>, maxRetries: nat, canResume: bool)
    requires retries <= maxRetries
    ensures ErrorOnlyLast(DeliverFrom(streams, retries, 0, false, events, maxRetries, canResume))
    decreases maxRetries - retries
  {
    var r := Scan(0, false, events);
    ScanRelaysNoError(0, false, events);
    if r.error.Some? && Resumes(r.error.value, r.active, retries, maxRetries, canResume) {
      OneErrorAtMostFrom(streams, retries + 1, streams(retries + 1), maxRetries, canResume);
      ErrorLater(r.relayed, Waiting(r.error.value.code, Delay(retries, r.error.value), retries + 1),
                 DeliverFrom(streams, retries + 1, 0, false, streams(retries + 1), maxRetries, canResume));
    }
  }

  lemma OneErrorAtMost(streams: nat -> seq<Event>, maxRetries: nat, canResume: bool, i: nat)
    requires i < |Deliver(streams, maxRetries, canResume)|
    ensures var out := Deliver(streams, maxRetries, canResume);
      (out[i].Stopped? ==> i + 1 == |out|) && (out[i].Relay? ==> !out[i].event.Failed?)
  {
    OneErrorAtMostFrom(streams, 0, streams(0), maxRetries, canResume);
  }

  // ---------------------------------------------------------------- when an answer is delivered

  function Attempt(streams: nat -> seq<Event>, k: nat): Scanned {
    Scan(0, false, streams(k))
  }

  /** Attempt `k` fails in a way that is resumed. */
  predicate Passes(streams: nat -> seq<Event>, k: nat, maxRetries: nat, canResume: bool) {
    var r := Attempt(streams, k);
    r.error.Some? && Resumes(r.error.value, r.active, k, maxRetries, canResume)
  }

  /** Attempt `k` is the first that is not resumed. */
  predicate EndsAt(streams: nat -> seq<Event>, k: nat, maxRetries: nat, canResume: bool) {
    && (forall j :: 0 <= j < k ==> Passes(streams, j, maxRetries, canResume))
    && !Passes(streams, k, maxRetries, canResume)
  }

  /** The output of the first `k` attempts, all resumed: each stream up to its error, and a wait. */
  function Resumed(streams: nat -> seq<Event>, k: nat): seq<Output> {
    if k == 0 then []
    else
      var r := Attempt(streams, k - 1);
      var e := if r.error.Some? then r.error.value else EMPTY;
      Resumed(streams, k - 1) + Relays(r.relayed) + [Waiting(e.code, Delay(k - 1, e), k)]
  }

  function Closing(r: Scanned, canResume: bool): seq<Output> {
    if r.error.Some? then [Stopped(LastError(r.error.value, canResume))] else []
  }

  lemma AttemptResumed(streams: nat -> seq<Event>, k: nat, maxRetries: nat, canResume: bool)
    requires k <= maxRetries && Passes(streams, k, maxRetries, canResume)
    ensures k < maxRetries
    ensures var r := Attempt(streams, k);
      From(streams, k, maxRetries, canResume)
      == Relays(r.relayed) + ([Waiting(r.error.value.code, Delay(k, r.error.value), k + 1)]
                              + From(streams, k + 1, maxRetries, canResume))
  {
    var r := Attempt(streams, k);
    assert From(streams, k, maxRetries, canResume)
      == Relays(r.relayed) + OnError(streams, k, r.active, r.error.value, maxRetries, canResume);
  }

  lemma LastAttempt(streams: nat -> seq<Event>, k: nat, maxRetries: nat, canResume: bool)
    requires k <= maxRetries && !Passes(streams, k, maxRetries, canResume)
    ensures From(streams, k, maxRetries, canResume)
         == Relays(Attempt(streams, k).relayed) + Closing(Attempt(streams, k), canResume)
  {
    var r := Attempt(streams, k);
    if r.error.Some? {
      assert From(streams, k, maxRetries, canResume)
        == Relays(r.relayed) + OnError(streams, k, r.active, r.error.value, maxRetries, canResume);
    }
  }

  lemma Rejoin(before: seq<Output>, relays: seq<Output>, wait: seq<Output>, rest: seq<Output>)
    ensures before + (relays + (wait + rest)) == (before + relays + wait) + rest
  {
    Assoc(before, relays, wait + rest);
    Assoc(before + relays, wait, rest);
  }

  ghost function From(streams: nat -> seq<Event>, k: nat, maxRetries: nat, canResume: bool): seq<Output>
    requires k <= maxRetries
  {
    DeliverFrom(streams, k, 0, false, streams(k), maxRetries, canResume)
  }

  ghost predicate AllPass(streams: nat -> seq<Event>, k: nat, maxRetries: nat, canResume: bool) {
    forall j :: 0 <= j < k ==> Passes(streams, j, maxRetries, canResume)
  }

  lemma OneMorePasses(streams: nat -> seq<Event>, k: nat, maxRetries: nat, canResume: bool)
    requires AllPass(streams, k, maxRetries, canResume)
    requires Passes(streams, k, maxRetries, canResume)
    ensures AllPass(streams, k + 1, maxRetries, canResume)
  {
  }

  lemma {:induction false} FirstToEnd(
      streams: nat -> seq<Event>, retries: nat, maxRetries: nat, canResume: bool)
    returns (k: nat)
    requires retries <= maxRetries && AllPass(streams, retries, maxRetries, canResume)
    ensures k <= maxRetries && EndsAt(streams, k, maxRetries, canResume)
    decreases maxRetries - retries
  {
    k := retries;
    if Passes(streams, retries, maxRetries, canResume) {
      OneMorePasses(streams, retries, maxRetries, canResume);
      k := FirstToEnd(streams, retries + 1, maxRetries, canResume);
    }
  }

  /** The first `k` attempts, all resumed, and what follows them are the whole run. */
  ghost predicate Joined(streams: nat -> seq<Event>, k: nat, maxRetries: nat, canResume: bool)
    requires k <= maxRetries
  {
    Deliver(streams, maxRetries, canResume) == Resumed(streams, k) + From(streams, k, maxRetries, canResume)
  }

  lemma NothingJoined(streams: nat -> seq<Event>, maxRetries: nat, canResume: bool)
    ensures Joined(streams, 0, maxRetries, canResume)
  {
  }

  lemma JoinedStep(streams: nat -> seq<Event>, k: nat, maxRetries: nat, canResume: bool)
    requires k < maxRetries && Joined(streams, k, maxRetries, canResume) && Passes(streams, k, maxRetries, canResume)
    ensures Joined(streams, k + 1, maxRetries, canResume)
  {
    AttemptResumed(streams, k, maxRetries, canResume);
    var r := Attempt(streams, k);
    Rejoin(Resumed(streams, k), Relays(r.relayed), [Waiting(r.error.value.code, Delay(k, r.error.value), k + 1)],
           From(streams, k + 1, maxRetries, canResume));
  }

  lemma FewerPass(streams: nat -> seq<Event>, k: nat, maxRetries: nat, canResume: bool)
    requires k > 0 && AllPass(streams, k, maxRetries, canResume)
    ensures AllPass(streams, k - 1, maxRetries, canResume) && Passes(streams, k - 1, maxRetries, canResume)
  {
  }

  lemma {:induction false} RunsUntil(streams: nat -> seq<Event>, k: nat, maxRetries: nat, canResume: bool)
    requires k <= maxRetries && AllPass(streams, k, maxRetries, canResume)
    ensures Joined(streams, k, maxRetries, canResume)
  {
    if k == 0 {
      NothingJoined(streams, maxRetries, canResume);
    } else {
      FewerPass(streams, k, maxRetries, canResume);
      RunsUntil(streams, k - 1, maxRetries, canResume);
      JoinedStep(streams, k - 1, maxRetries, canResume);
    }
  }

  /** The whole run: every stream is passed on up to its error, nothing is lost, repeated or reordered,
      and the first attempt that is not resumed is the last. */
  lemma RunIsAttempts(streams: nat -> seq<Event>, maxRetries: nat, canResume: bool) returns (k: nat)
    ensures k <= maxRetries && EndsAt(streams, k, maxRetries, canResume)
    ensures Deliver(streams, maxRetries, canResume)
         == Resumed(streams, k) + (Relays(Attempt(streams, k).relayed) + Closing(Attempt(streams, k), canResume))
  {
    k := FirstToEnd(streams, 0, maxRetries, canResume);
    RunsUntil(streams, k, maxRetries, canResume);
    LastAttempt(streams, k, maxRetries, canResume);
  }

  /** The last event that is the end of a turn or the start of a tool. */
  function LastWord(events: seq<Event>): Option<Event> {
    if events == [] then None
    else
      var later := LastWord(events[1..]);
      if later.None? && (events[0].Turn? || events[0].ToolStarted?) then Some(events[0]) else later
  }

  /** The stream closes with an answer: its last turn is one, and no tool was started after it. */
  ghost predicate Answered(events: seq<Event>) {
    LastWord(events).Some? && Answers(LastWord(events).value)
  }

  ghost predicate NoFailure(events: seq<Event>) {
    forall i :: 0 <= i < |events| ==> !events[i].Failed?
  }

  lemma {:induction false} ScanByLastWord(active: nat, final: bool, events: seq<Event>)
    ensures NoFailure(events) ==>
      && Scan(active, final, events).relayed == events
      && (Scan(active, final, events).error.None? <==> if LastWord(events).Some? then Answered(events) else final)
    ensures !NoFailure(events) ==> Scan(active, final, events).error.Some?
    decreases |events|
  {
    if events != [] {
      var e, rest := events[0], events[1..];
      ScanByLastWord(Active(active, e), Final(final, e), rest);
      assert events == [e] + rest;
      assert NoFailure(events) <==> !e.Failed? && NoFailure(rest);
    }
  }

  /** A stream succeeds exactly when it has no error and closes with an answer. */
  lemma ScanSucceedsExactly(events: seq<Event>)
    ensures Scan(0, false, events).error.None? <==> NoFailure(events) && Answered(events)
    ensures Scan(0, false, events).error.None? ==> Scan(0, false, events).relayed == events
  {
    ScanByLastWord(0, false, events);
  }

  ghost predicate ErrorFree(out: seq<Output>) {
    forall i :: 0 <= i < |out| ==> !out[i].Stopped?
  }

  lemma {:induction false} ResumedIsErrorFree(streams: nat -> seq<Event>, k: nat)
    ensures ErrorFree(Resumed(streams, k))
  {
    if k > 0 {
      ResumedIsErrorFree(streams, k - 1);
    }
  }

  /** The run ends without an error exactly when the attempt it ends with delivers an answer, and
      then that whole stream is the end of the output. */
  lemma AnswerOrError(streams: nat -> seq<Event>, maxRetries: nat, canResume: bool) returns (k: nat)
    ensures k <= maxRetries && EndsAt(streams, k, maxRetries, canResume)
    ensures var out := Deliver(streams, maxRetries, canResume);
      && (ErrorFree(out) <==> NoFailure(streams(k)) && Answered(streams(k)))
      && (ErrorFree(out) ==> out == Resumed(streams, k) + Relays(streams(k)))
  {
    k := RunIsAttempts(streams, maxRetries, canResume);
    ResumedIsErrorFree(streams, k);
    ScanSucceedsExactly(streams(k));
    var out := Deliver(streams, maxRetries, canResume);
    if Attempt(streams, k).error.Some? {
      assert out[|out| - 1].Stopped?;
    } else {
      assert Relays(Attempt(streams, k).relayed) + [] == Relays(streams(k));
    }
  }

  // ---------------------------------------------------------------- tools at a resume

  /** Tools started less tools completed. */
  function Balance(out: seq<Output>): int {
    if out == [] then 0
    else
      var e := out[|out| - 1];
      Balance(out[..|out| - 1]) +
      if e.Relay? && e.event.ToolStarted? then 1 else if e.Relay? && e.event.ToolCompleted? then -1 else 0
  }

  lemma {:induction false} BalanceConcat(a: seq<Output>, b: seq<Output>)
    ensures Balance(a + b) == Balance(a) + Balance(b)
  {
    if b == [] {
      assert a + b == a;
    } else {
      assert (a + b)[..|a + b| - 1] == a + b[..|b| - 1];
      BalanceConcat(a, b[..|b| - 1]);
    }
  }

  lemma {:induction false} ScanCountsTools(active: nat, final: bool, events: seq<Event>)
    ensures var r := Scan(active, final, events);
      active + Balance(Relays(r.relayed)) <= r.active
    decreases |events|
  {
    if events != [] && !events[0].Failed? {
      var rest := Scan(Active(active, events[0]), Final(final, events[0]), events[1..]);
      ScanCountsTools(Active(active, events[0]), Final(final, events[0]), events[1..]);
      var first := [Relay(events[0])];
      assert Relays([events[0]] + rest.relayed) == first + Relays(rest.relayed);
      BalanceConcat(first, Relays(rest.relayed));
      assert first[..0] == [];
    }
  }

  lemma BalanceSplit(out: seq<Output>, n: nat, i: nat)
    requires n < i <= |out| && !out[n].Relay?
    ensures Balance(out[..i]) == Balance(out[..n]) + Balance(out[n + 1..][..i - n - 1])
  {
    assert out[..i] == (out[..n] + [out[n]]) + out[n + 1..][..i - n - 1];
    BalanceConcat(out[..n] + [out[n]], out[n + 1..][..i - n - 1]);
    BalanceConcat(out[..n], [out[n]]);
  }

  /** No wait in this output comes while more tools have been started than completed; `before` counts
      those started less those completed earlier. */
  ghost predicate Settled(out: seq<Output>, before: int) {
    forall i :: 0 <= i < |out| && out[i].Waiting? ==> before + Balance(out[..i]) <= 0
  }

  lemma RelaysSettle(events: seq<Event>, before: int, closing: seq<Output>)
    requires |closing| <= 1
    requires closing != [] && closing[0].Waiting? ==> before + Balance(Relays(events)) <= 0
    ensures Settled(Relays(events) + closing, before)
  {
    assert (Relays(events) + closing)[..|events|] == Relays(events);
  }

  lemma DropFirst(a: seq<Output>, x: Output, b: seq<Output>)
    ensures (a + ([x] + b))[..|a|] == a && (a + ([x] + b))[|a| + 1..] == b
  {
  }

  lemma SettledLater(out: seq<Output>, n: nat, more: seq<Output>, before: int, i: nat)
    requires n < i < |out| && !out[n].Relay? && more == out[n + 1..] && out[i].Waiting?
    requires Settled(more, before + Balance(out[..n]))
    ensures before + Balance(out[..i]) <= 0
  {
    BalanceSplit(out, n, i);
    assert more[i - n - 1] == out[i];
  }

  lemma SettledJoin(events: seq<Event>, wait: Output, more: seq<Output>, before: int)
    requires wait.Waiting? && before + Balance(Relays(events)) <= 0
    requires Settled(more, before + Balance(Relays(events)))
    ensures Settled(Relays(events) + ([wait] + more), before)
  {
    var out, n := Relays(events) + ([wait] + more), |events|;
    DropFirst(Relays(events), wait, more);
    forall i | 0 <= i < |out| && out[i].Waiting? ensures before + Balance(out[..i]) <= 0 {
      if i > n {
        SettledLater(out, n, more, before, i);
      }
    }
  }

  lemma {:induction false} NoResumeOverToolsFrom(
    streams: nat -> seq<Event>, retries: nat, events: seq<Event>, maxRetries: nat, canResume: bool, before: int)
    requires retries <= maxRetries && before <= 0
    ensures Settled(DeliverFrom(streams, retries, 0, false, events, maxRetries, canResume), before)
    decreases maxRetries - retries
  {
    var r := Scan(0, false, events);
    ScanCountsTools(0, false, events);
    if r.error.None? {
      RelaysSettle(r.relayed, before, []);
    } else {
      var e := r.error.value;
      if Resumes(e, r.active, retries, maxRetries, canResume) {
        NoResumeOverToolsFrom(streams, retries + 1, streams(retries + 1), maxRetries, canResume,
                              before + Balance(Relays(r.relayed)));
        SettledJoin(r.relayed, Waiting(e.code, Delay(retries, e), retries + 1),
                    DeliverFrom(streams, retries + 1, 0, false, streams(retries + 1), maxRetries, canResume), before);
      } else {
        RelaysSettle(r.relayed, before, [Stopped(LastError(e, canResume))]);
      }
    }
  }

  /** For any engine, no resume happens while more tools have been started than completed. */
  lemma NoResumeOverTools(streams: nat -> seq<Event>, maxRetries: nat, canResume: bool, i: nat)
    requires i < |Deliver(streams, maxRetries, canResume)| && Deliver(streams, maxRetries, canResume)[i].Waiting?
    ensures Balance(Deliver(streams, maxRetries, canResume)[..i]) <= 0
  {
    NoResumeOverToolsFrom(streams, 0, streams(0), maxRetries, canResume, 0);
  }

  function ActiveAfter(active: nat, events: seq<Event>): nat
    decreases |events|
  {
    if events == [] then active else ActiveAfter(Active(active, events[0]), events[1..])
  }

  lemma {:induction false} ActiveOneMore(active: nat, events: seq<Event>, e: Event)
    ensures ActiveAfter(active, events + [e]) == Active(ActiveAfter(active, events), e)
    decreases |events|
  {
    if events == [] {
      assert [e][1..] == [];
    } else {
      assert (events + [e])[1..] == events[1..] + [e];
      ActiveOneMore(Active(active, events[0]), events[1..], e);
    }
  }

  lemma {:induction false} ScanActive(active: nat, final: bool, events: seq<Event>, close: seq<Event>)
    requires NoFailure(events) && |close| <= 1 && forall e :: e in close ==> e.Failed?
    ensures Scan(active, final, events + close).active == ActiveAfter(active, events)
    decreases |events|
  {
    if events == [] {
      assert events + close == close;
    } else {
      assert (events + close)[1..] == events[1..] + close;
      ScanActive(Active(active, events[0]), Final(final, events[0]), events[1..], close);
    }
  }

  lemma {:induction false} LastWordOneMore(events: seq<Event>, e: Event)
    ensures LastWord(events + [e]) == if e.Turn? || e.ToolStarted? then Some(e) else LastWord(events)
  {
    if events == [] {
      assert [e][1..] == [];
    } else {
      assert (events + [e])[1..] == events[1..] + [e];
      LastWordOneMore(events[1..], e);
    }
  }
}
