/**
  Projection of a nested run-tree event stream to the events of one agent (src/oceanx/deep_runtime.py).

  A tool is a boundary: what happens inside its run is private to it. Model calls announce tool
  calls; a tool start takes the oldest announced call of its name.
 */
module RunEvents {
  import opened Common
  import opened ModelRecovery
  import M = Messages

  datatype Announced = Announced(id: string, name: string, args: string)
  datatype Reply = Reply(text: string, calls: seq<Announced>)

  datatype Kind =
    | ModelStart
    | ModelText(text: string, summary: bool)
    | ModelEnd(summary: bool, reply: Option<Reply>)
    | ToolStart(name: string)
    | ToolEnd(name: string)
    | Unrelated

  /** An event of the run tree; `parents` are the runs around it. */
  datatype Raw = Raw(kind: Kind, run: string, parents: set<string>)

  /** `announced` and `taken` keep the history: all calls of the replies, and those matched to a tool start. */
  datatype Projection = Projection(
    pending: seq<Announced>,
    started: map<string, string>,
    opaqueRuns: set<string>,
    completed: set<string>,
    last: Option<Reply>,
    taken: seq<Announced>,
    announced: seq<Announced>,
    out: seq<Event>)

  const BEGIN := Projection([], map[], {}, {}, None, [], [], [])

  predicate Hidden(p: Projection, raw: Raw) {
    exists r :: r in raw.parents && r in p.opaqueRuns
  }

  /** Position of the oldest pending call of this name, or the length. */
  function FirstNamed(pending: seq<Announced>, name: string): (i: nat)
    ensures i <= |pending|
    ensures i < |pending| ==> pending[i].name == name
    ensures forall j :: 0 <= j < i ==> pending[j].name != name
  {
    if pending == [] || pending[0].name == name then 0 else 1 + FirstNamed(pending[1..], name)
  }

  function Without(calls: seq<Announced>, i: nat): seq<Announced>
    requires i < |calls|
  {
    calls[..i] + calls[i + 1..]
  }

  function CallIds(calls: seq<Announced>): (ids: seq<string>)
    ensures |ids| == |calls|
  {
    seq(|calls|, i requires 0 <= i < |calls| => calls[i].id)
  }

  function OnModelEnd(p: Projection, run: string, summary: bool, reply: Option<Reply>): Projection {
    if run in p.completed then p
    else
      var seen := p.(completed := p.completed + {run});
      if reply.None? then seen
      else if summary then seen.(out := p.out + [Turn("", [])])
      else
        var r := reply.value;
        seen.(last := Some(r), pending := p.pending + r.calls, announced := p.announced + r.calls,
              out := p.out + [Turn(r.text, CallIds(r.calls))])
  }

  function OnToolStart(p: Projection, run: string, name: string): Projection {
    var i := FirstNamed(p.pending, name);
    var call := if i < |p.pending| then p.pending[i] else Announced(run, name, "");
    var callId := if call.id != "" then call.id else run;
    p.(opaqueRuns := p.opaqueRuns + {run},
       pending := if i < |p.pending| then Without(p.pending, i) else p.pending,
       taken := if i < |p.pending| then p.taken + [call] else p.taken,
       started := p.started[run := callId],
       out := p.out + [ToolStarted(name, callId)])
  }

  function OnToolEnd(p: Projection, run: string, name: string): Projection {
    p.(started := p.started - {run},
       out := p.out + [ToolCompleted(name, if run in p.started then p.started[run] else run)])
  }

  /** An event at the agent's own level. */
  function Take(p: Projection, raw: Raw): Projection {
    match raw.kind
    case ModelText(text, summary) => if summary || text == "" then p else p.(out := p.out + [Delta(text)])
    case ModelEnd(summary, reply) => OnModelEnd(p, raw.run, summary, reply)
    case ToolStart(name) => OnToolStart(p, raw.run, name)
    case ToolEnd(name) => OnToolEnd(p, raw.run, name)
    case _ => p
  }

  function Absorb(p: Projection, raw: Raw): Projection {
    if Hidden(p, raw) then p else Take(p, raw)
  }

  function Project(raws: seq<Raw>): Projection {
    if raws == [] then BEGIN else Absorb(Project(raws[..|raws| - 1]), raws[|raws| - 1])
  }

  // ---------------------------------------------------------------- the end of the stream

  /** How the graph run ends: an exception, already classified, or a final state. */
  datatype Ending =
    | Raised(error: ModelError)
    | Finished(budgetNotice: Option<string>, cut: bool)

  predicate Speaks(reply: Option<Reply>) {
    reply.Some? && !M.Blank(M.Text(reply.value.text)) && reply.value.calls == []
  }

  function Close(last: Option<Reply>, ending: Ending): seq<Event> {
    match ending
    case Raised(error) => [Failed(error)]
    case Finished(budgetNotice, cut) =>
      if budgetNotice.Some? then
        [Failed(ModelError(OtherCode("budget_exhausted"), false, None, false, budgetNotice.value))]
      else if Speaks(last) then []
      else if cut then
        [Failed(ModelError(OtherCode("model_output_error"), false, None, false, "Model did not deliver an answer"))]
      else
        [Failed(ModelError(EmptyModelResponse, true, None, false, "Model stream ended without a final answer."))]
  }

  function Submit(raws: seq<Raw>, ending: Ending): seq<Event> {
    Project(raws).out + Close(Project(raws).last, ending)
  }

  method SubmitMessage(raws: seq<Raw>, ending: Ending) returns (out: seq<Event>)
    ensures out == Submit(raws, ending)
  {
    out := [];
    var pending: seq<Announced> := [];
    var started: map<string, string> := map[];
    var opaqueRuns: set<string> := {};
    var completed: set<string> := {};
    var last: Option<Reply> := None;
    ghost var p := BEGIN;
    for n := 0 to |raws|
      invariant p == Project(raws[..n])
      invariant p == Projection(pending, started, opaqueRuns, completed, last, p.taken, p.announced, out)
    {
      TakeOneMore(raws, n);
      p := Absorb(p, raws[n]);
      var raw := raws[n];
      if exists r :: r in raw.parents && r in opaqueRuns {
        continue;
      }
      match raw.kind {
        case ModelText(text, summary) =>
          if !summary && text != "" {
            out := out + [Delta(text)];
          }
        case ModelEnd(summary, reply) =>
          if raw.run in completed {
            continue;
          }
          completed := completed + {raw.run};
          if reply.None? {
            continue;
          }
          if summary {
            out := out + [Turn("", [])];
            continue;
          }
          last := reply;
          pending := pending + reply.value.calls;
          out := out + [Turn(reply.value.text, CallIds(reply.value.calls))];
        case ToolStart(name) =>
          opaqueRuns := opaqueRuns + {raw.run};
          var i := FirstNamed(pending, name);
          var call := Announced(raw.run, name, "");
          if i < |pending| {
            call := pending[i];
            pending := Without(pending, i);
          }
          var callId := if call.id != "" then call.id else raw.run;
          started := started[raw.run := callId];
          out := out + [ToolStarted(name, callId)];
        case ToolEnd(name) =>
          var callId := if raw.run in started then started[raw.run] else raw.run;
          started := started - {raw.run};
          out := out + [ToolCompleted(name, callId)];
        case _ =>
      }
    }
    assert raws[..|raws|] == raws;
    out := out + Close(last, ending);
  }

  // ---------------------------------------------------------------- well-nested streams

  /** `raws[i]` starts a tool around `raw`. */
  predicate Encloses(raws: seq<Raw>, i: nat, raw: Raw) {
    i < |raws| && raws[i].kind.ToolStart? && raws[i].run in raw.parents
  }

  /** A run is inside everything that its parent is inside. */
  ghost predicate Transitive(raws: seq<Raw>) {
    forall i, j :: 0 <= i < |raws| && 0 <= j < |raws| && Encloses(raws, i, raws[j]) ==>
      i < j && raws[i].parents <= raws[j].parents
  }

  ghost predicate ToolRunsDiffer(raws: seq<Raw>) {
    forall i, j :: 0 <= i < j < |raws| && raws[i].kind.ToolStart? && raws[j].kind.ToolStart? ==>
      raws[i].run != raws[j].run
  }

  ghost predicate EndsOnce(raws: seq<Raw>) {
    forall i, j :: 0 <= i < j < |raws| && raws[i].kind.ToolEnd? && raws[j].kind.ToolEnd? ==> raws[i].run != raws[j].run
  }

  /** `raws[i]` is the start that `raws[j]` ends. */
  predicate Opens(raws: seq<Raw>, i: nat, j: nat) {
    i < j < |raws| && raws[i].kind.ToolStart? && raws[i].run == raws[j].run && raws[i].parents == raws[j].parents
  }

  ghost predicate EndsAreOpened(raws: seq<Raw>) {
    forall j :: 0 <= j < |raws| && raws[j].kind.ToolEnd? ==> exists i :: 0 <= i < j && Opens(raws, i, j)
  }

  /** The event stream of a run tree: starts before everything inside, one start and at most one end a tool. */
  ghost predicate WellNested(raws: seq<Raw>) {
    Transitive(raws) && ToolRunsDiffer(raws) && EndsOnce(raws) && EndsAreOpened(raws)
  }

  ghost predicate Inside(raws: seq<Raw>, raw: Raw) {
    exists i :: 0 <= i < |raws| && Encloses(raws, i, raw)
  }
}
