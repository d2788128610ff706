/** What a run that is not cut makes of a checkpoint, told from the checkpoint and the readings. */
module Era5Outcomes {
  import opened Common
  import opened Era5

  // ---------------------------------------------------------------- the time coordinate

  /** Position `i` lies in block `b` at offset `o`, and reads this hour. */
  ghost predicate Stands(a: Axis, i: int, hour: int, b: int, o: int) {
    && 0 <= o < a.size && i == a.size * b + o
    && a.block(b).Some? && o < |a.block(b).value| && a.block(b).value[o] == hour
  }

  ghost predicate ReadsHour(a: Axis, i: int, hour: int) {
    exists b, o :: Stands(a, i, hour, b, o)
  }

  lemma HourMatchesExactly(a: Axis, origin: int, first: int, h: int)
    requires AxisOk(a)
    ensures HourMatches(a, origin, first, h) <==> ReadsHour(a, first + h - origin, first + h)
  {
    var i := first + h - origin;
    Split(i, a.size);
    if HourMatches(a, origin, first, h) {
      assert Stands(a, i, first + h, i / a.size, i % a.size);
    }
    if ReadsHour(a, i, first + h) {
      var b, o :| Stands(a, i, first + h, b, o);
      BlockOf(i, a.size, b, o);
    }
  }

  /** Hour `h` of the request stands as far from the first position as it lies from the hour there. */
  ghost predicate HourFits(ask: Ask, s: Session, h: nat)
    requires s.axis.block(0).Some?
  {
    ReadsHour(s.axis, ask.first + h - s.axis.block(0).value[0], ask.first + h)
  }

  /** The coordinate fits exactly if its first block can be read and every requested hour fits. */
  lemma TimesOkExactly(ask: Ask, s: Session)
    ensures TimesOk(ask, s) <==> s.axis.block(0).Some? && forall h :: 0 <= h < ask.hours ==> HourFits(ask, s, h)
  {
    if s.axis.block(0).Some? {
      forall h | 0 <= h < ask.hours
        ensures HourMatches(s.axis, s.axis.block(0).value[0], ask.first, h) <==> HourFits(ask, s, h)
      {
        HourMatchesExactly(s.axis, s.axis.block(0).value[0], ask.first, h);
      }
    }
  }

  // ---------------------------------------------------------------- the checkpoint found

  /** A file of this request, from this source, on this grid, with a counter within the hours. */
  ghost predicate Usable(ask: Ask, file: File) {
    match file
    case Broken => false
    case Opens(cp) =>
      && cp.request == Some(ask.request) && cp.source == Some(ask.source) && cp.grid == Some(ask.grid)
      && match cp.completed case Some(n) => 0 <= n && n <= ask.hours case None => false
  }

  /** Without a usable coordinate or checkpoint a run fails, for this reason, and changes nothing. */
  lemma UnusableExactly(ask: Ask, d: Disk, s: Session)
    requires !TimesOk(ask, s) || (d.checkpoint.Some? && !Usable(ask, d.checkpoint.value))
    ensures var (d', outcome) := Fetch(ask, d, s);
      && d' == d && outcome.Failed?
      && (outcome.why == NoConnection <==> s.axis.block(0).None?)
      && (outcome.why == WrongTimes <==> s.axis.block(0).Some? && !TimesOk(ask, s))
      && (outcome.why == CannotOpen ==> d.checkpoint == Some(Broken))
      && (outcome.why == Mismatch ==>
            var cp := d.checkpoint.value.content;
            cp.request != Some(ask.request) || cp.source != Some(ask.source) || cp.grid != Some(ask.grid))
      && (outcome.why == Incomplete ==> d.checkpoint.value.content.completed.None?)
      && (outcome.why == BadProgress ==> d.checkpoint.value.content.completed.Some?)
      && outcome.why != MissingValues
  {
  }

  // ---------------------------------------------------------------- the hours of a run that is not cut

  ghost predicate Readable(s: Session, from: nat, to: nat) {
    forall k :: from <= k < to ==> s.read(k).Values?
  }

  /** The file with the hours from `from` to `to` read, each with its time, and counted. */
  ghost predicate Filled(ask: Ask, cp: Checkpoint, cp': Checkpoint, from: nat, to: nat, s: Session)
    requires from <= to && Readable(s, from, to)
  {
    && cp' == cp.(cells := cp'.cells, completed := if from == to then cp.completed else Some(to))
    && |cp'.cells| == |cp.cells|
    && forall k :: 0 <= k < |cp.cells| ==>
         cp'.cells[k] == if from <= k < to then Some(Cell(s.read(k).slice, ask.first + k)) else cp.cells[k]
  }

  /** The result: every hour of the file and those just read. */
  ghost predicate Result(ask: Ask, cp: Checkpoint, cells: seq<Cell>, from: nat, s: Session)
    requires |cp.cells| == ask.hours && Readable(s, from, ask.hours)
  {
    && |cells| == ask.hours
    && forall k :: 0 <= k < ask.hours ==>
         if k >= from then cells[k] == Cell(s.read(k).slice, ask.first + k)
         else cp.cells[k].Some? ==> cells[k] == cp.cells[k].value
  }

  /** The run stops before hour `b`, which it cannot read, with the hours before it in the file. */
  ghost predicate StopsAt(
      ask: Ask, cp: Checkpoint, destination: Option<seq<Cell>>, from: nat, s: Session, d: Disk, outcome: Outcome,
      b: nat)
  {
    && from <= b < ask.hours && Readable(s, from, b) && !s.read(b).Values?
    && outcome == Failed(if s.read(b).Unreachable? then NoConnection else MissingValues)
    && d.destination == destination && d.checkpoint.Some? && d.checkpoint.value.Opens?
    && Filled(ask, cp, d.checkpoint.value.content, from, b, s)
  }

  /** The run promotes the result if every hour from here on can be read, and stops at the first that cannot. */
  ghost predicate RunsRight(
      ask: Ask, cp: Checkpoint, destination: Option<seq<Cell>>, from: nat, s: Session, d: Disk, outcome: Outcome)
    requires |cp.cells| == ask.hours
  {
    if Readable(s, from, ask.hours) then
      outcome == Promoted && d.checkpoint.None? && d.destination.Some? && Result(ask, cp, d.destination.value, from, s)
    else exists b :: StopsAt(ask, cp, destination, from, s, d, outcome, b)
  }

  lemma StopsLater(
      ask: Ask, cp: Checkpoint, cp1: Checkpoint, destination: Option<seq<Cell>>, h: nat, s: Session, d: Disk,
      outcome: Outcome, b: nat)
    requires h < |cp.cells| == ask.hours && s.read(h).Values?
    requires cp1 == cp.(cells := cp.cells[h := Some(Cell(s.read(h).slice, ask.first + h))], completed := Some(h + 1))
    requires StopsAt(ask, cp1, destination, h + 1, s, d, outcome, b)
    ensures StopsAt(ask, cp, destination, h, s, d, outcome, b)
  {
  }

  lemma RunsLater(
      ask: Ask, cp: Checkpoint, cp1: Checkpoint, destination: Option<seq<Cell>>, h: nat, s: Session, d: Disk,
      outcome: Outcome)
    requires h < |cp.cells| == ask.hours && s.read(h).Values?
    requires cp1 == cp.(cells := cp.cells[h := Some(Cell(s.read(h).slice, ask.first + h))], completed := Some(h + 1))
    requires RunsRight(ask, cp1, destination, h + 1, s, d, outcome)
    ensures RunsRight(ask, cp, destination, h, s, d, outcome)
  {
    assert Readable(s, h, ask.hours) <==> Readable(s, h + 1, ask.hours);
    if !Readable(s, h, ask.hours) {
      var b :| StopsAt(ask, cp1, destination, h + 1, s, d, outcome, b);
      StopsLater(ask, cp, cp1, destination, h, s, d, outcome, b);
    }
  }

  lemma {:induction false} HoursExactly(
      ask: Ask, cp: Checkpoint, destination: Option<seq<Cell>>, h: nat, s: Session, limit: nat)
    requires h <= ask.hours == |cp.cells| && limit > 2 * (ask.hours - h)
    ensures var (d, outcome) := Hours(ask, cp, destination, h, s, limit);
      RunsRight(ask, cp, destination, h, s, d, outcome)
    decreases ask.hours - h
  {
    if h < ask.hours && s.read(h).Values? {
      var cp1 := cp.(cells := cp.cells[h := Some(Cell(s.read(h).slice, ask.first + h))], completed := Some(h + 1));
      HoursExactly(ask, cp1, destination, h + 1, s, limit - 2);
      var (d, outcome) := Hours(ask, cp1, destination, h + 1, s, limit - 2);
      RunsLater(ask, cp, cp1, destination, h, s, d, outcome);
    } else if h < ask.hours {
      var (d, outcome) := Hours(ask, cp, destination, h, s, limit);
      assert StopsAt(ask, cp, destination, h, s, d, outcome, h);
    }
  }

  /** A run that is not cut goes on after the counted hours of the file it finds, or at the first hour of a new
      one, and promotes the result exactly when it can read all hours from there on. */
  lemma UncutExactly(ask: Ask, d: Disk, s: Session)
    requires TimesOk(ask, s) && s.limit >= 2 * ask.hours + 3
    requires d.checkpoint.Some? ==>
      Usable(ask, d.checkpoint.value) && |d.checkpoint.value.content.cells| == ask.hours
    ensures var (d', outcome) := Fetch(ask, d, s);
      match d.checkpoint
      case None =>
        var empty := Checkpoint(Some(ask.request), Some(ask.source), Some(ask.grid), Some(0),
                                seq(ask.hours, i => None));
        RunsRight(ask, empty, d.destination, 0, s, d', outcome)
      case Some(file) =>
        RunsRight(ask, file.content, d.destination, file.content.completed.value, s, d', outcome)
  {
    match d.checkpoint
    case None =>
      assert NewCheckpoint(ask).cells == seq(ask.hours, i => None);
      HoursExactly(ask, NewCheckpoint(ask), d.destination, 0, s, s.limit - 2);
    case Some(file) =>
      HoursExactly(ask, file.content, d.destination, file.content.completed.value, s, s.limit);
  }
}
