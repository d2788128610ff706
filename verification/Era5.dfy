/**
  Hourly ERA5 subsets over a persistent checkpoint (benchmarking/download/era5_google.py).

  The store keeps its time coordinate in blocks; the checkpoint is synced twice an hour. A crash may
  lose or keep any write since the last sync, and may leave a file that no longer opens.
 */
module Era5 {
  import opened Common

  // ---------------------------------------------------------------- the time coordinate

  /** The time coordinate, cut into blocks of `size`; a block that cannot be read is None. */
  datatype Axis = Axis(size: int, block: int -> Option<seq<int>>)

  ghost predicate AxisOk(a: Axis) {
    a.size > 0 && forall b :: a.block(b).Some? ==> |a.block(b).value| == a.size
  }

  type TimeAxis = a: Axis | AxisOk(a) witness Axis(1, (b: int) => None)

  /** The coordinate at a position of the whole axis. */
  function Coordinate(a: Axis, i: int): Option<int>
    requires AxisOk(a)
  {
    var block := a.block(i / a.size);
    if block.None? then None else Some(block.value[i % a.size])
  }

  /** Hour `h` of the request lies at position `first - origin + h` and must read `first + h`. */
  predicate HourMatches(a: Axis, origin: int, first: int, h: int)
    requires AxisOk(a)
  {
    Coordinate(a, first + h - origin) == Some(first + h)
  }

  /** `indices // size`. */
  function BlockAt(a: Axis, origin: int, first: int, h: int): int
    requires AxisOk(a)
  {
    (first + h - origin) / a.size
  }

  lemma BlocksOfHours(a: Axis, origin: int, first: int, hours: nat)
    requires AxisOk(a) && hours > 0
    ensures forall h :: 0 <= h < hours ==>
      BlockAt(a, origin, first, 0) <= BlockAt(a, origin, first, h) <= BlockAt(a, origin, first, hours - 1)
  {
    forall h | 0 <= h < hours
      ensures BlockAt(a, origin, first, 0) <= BlockAt(a, origin, first, h) <= BlockAt(a, origin, first, hours - 1)
    {
      BlocksAscend(first - origin, first + h - origin, a.size);
      BlocksAscend(first + h - origin, first + hours - 1 - origin, a.size);
    }
  }

  /** The hours of one block match; a block that cannot be read matches none. */
  method BlockMatches(a: Axis, origin: int, first: int, hours: nat, block: int) returns (ok: bool)
    requires AxisOk(a) && hours > 0
    requires BlockAt(a, origin, first, 0) <= block <= BlockAt(a, origin, first, hours - 1)
    ensures ok <==>
      forall h :: 0 <= h < hours && BlockAt(a, origin, first, h) == block ==> HourMatches(a, origin, first, h)
  {
    var values := a.block(block);
    if values.None? {
      var h := HourIn(first - origin, hours, a.size, block);
      assert BlockAt(a, origin, first, h) == block && !HourMatches(a, origin, first, h);
      return false;
    }
    for h := 0 to hours
      invariant forall k :: 0 <= k < h && BlockAt(a, origin, first, k) == block ==> HourMatches(a, origin, first, k)
    {
      if BlockAt(a, origin, first, h) == block && values.value[(first + h - origin) % a.size] != first + h {
        assert !HourMatches(a, origin, first, h);
        return false;
      }
    }
    return true;
  }

  /** Block by block: read each block that a requested hour lies in, compare those hours in it. */
  method TimesMatch(a: Axis, origin: int, first: int, hours: nat) returns (ok: bool)
    requires AxisOk(a)
    ensures ok <==> forall h :: 0 <= h < hours ==> HourMatches(a, origin, first, h)
  {
    if hours == 0 {
      return true;
    }
    BlocksOfHours(a, origin, first, hours);
    var block, last := BlockAt(a, origin, first, 0), BlockAt(a, origin, first, hours - 1);
    while block <= last
      invariant BlockAt(a, origin, first, 0) <= block <= last + 1
      invariant forall h :: 0 <= h < hours && BlockAt(a, origin, first, h) < block ==> HourMatches(a, origin, first, h)
      decreases last + 1 - block
    {
      ok := BlockMatches(a, origin, first, hours, block);
      if !ok {
        return;
      }
      block := block + 1;
    }
    return true;
  }

  lemma Product(size: nat, n: nat)
    ensures n > 0 ==> size * n >= size
  {
  }

  lemma Distribute(size: int, m: int, n: int)
    ensures size * (m - n) == size * m - size * n
  {
  }

  lemma Split(i: int, size: int)
    requires size > 0
    ensures i == size * (i / size) + i % size && 0 <= i % size < size
  {
  }

  lemma Ordered(size: int, q: int, r: int, q': int, r': int)
    requires size > 0 && 0 <= r < size && 0 <= r' < size && size * q + r <= size * q' + r'
    ensures q <= q'
  {
    Distribute(size, q, q');
    if q > q' {
      Product(size, q - q');
    }
  }

  lemma BlocksAscend(i: int, j: int, size: int)
    requires size > 0 && i <= j
    ensures i / size <= j / size
  {
    Split(i, size);
    Split(j, size);
    Ordered(size, i / size, i % size, j / size, j % size);
  }

  lemma BlockOf(i: int, size: int, q: int, r: int)
    requires size > 0 && i == size * q + r && 0 <= r < size
    ensures i / size == q
  {
    Split(i, size);
    Ordered(size, i / size, i % size, q, r);
    Ordered(size, q, r, i / size, i % size);
  }

  /** Every block between the first and the last holds a requested hour. */
  lemma HourIn(start: int, hours: nat, size: int, block: int) returns (h: nat)
    requires size > 0 && hours > 0 && start / size <= block <= (start + hours - 1) / size
    ensures h < hours && (start + h) / size == block
  {
    var x := size * block;
    BlockOf(x, size, block, 0);
    assert x - 1 == size * (block - 1) + (size - 1);
    BlockOf(x - 1, size, block - 1, size - 1);
    if start / size == block {
      h := 0;
    } else {
      if x <= start {
        BlocksAscend(x, start, size);
      }
      if start + hours - 1 < x {
        BlocksAscend(start + hours - 1, x - 1, size);
      }
      h := x - start;
    }
  }

  // ---------------------------------------------------------------- the checkpoint file

  type Slice = seq<int>
  type Grid = seq<int>

  datatype Cell = Cell(values: Slice, hour: int)

  /** What the file holds: None where nothing was stored. `cells` is empty while the variables are missing. */
  datatype Checkpoint = Checkpoint(
    request: Option<string>,
    source: Option<string>,
    grid: Option<Grid>,
    completed: Option<int>,
    cells: seq<Option<Cell>>)

  datatype File = Opens(content: Checkpoint) | Broken

  /** What a request asks for: its fingerprint, the points inside its box, and its hours. */
  datatype Ask = Ask(request: string, source: string, grid: Grid, first: int, hours: nat)

  datatype Disk = Disk(checkpoint: Option<File>, destination: Option<seq<Cell>>)

  /** One hour read from the store. */
  datatype Reading = Values(slice: Slice) | NotFinite | Unreachable

  datatype Failure = CannotOpen | WrongTimes | Mismatch | Incomplete | BadProgress | MissingValues | NoConnection
  datatype Outcome = Crashed | Failed(why: Failure) | Promoted

  /** What a crash leaves of the writes since the last sync: whether the file still opens, the parts of a
      new file that reached the disk, the cell of the hour being written, and whether the hour counter moved. */
  datatype Torn = Torn(
    opens: bool,
    request: bool, source: bool, grid: bool, completed: bool, cells: bool,
    cell: Option<Cell>,
    counted: bool)

  /** One run: the time coordinate it sees, the hours it reads, and after how many changes it is cut. */
  datatype Session = Session(axis: TimeAxis, read: nat -> Reading, limit: nat, torn: Torn)

  function Empty(n: nat): (cells: seq<Option<Cell>>)
    ensures |cells| == n && forall i :: 0 <= i < n ==> cells[i] == None
  {
    seq(n, i => None)
  }

  function NewCheckpoint(ask: Ask): Checkpoint {
    Checkpoint(Some(ask.request), Some(ask.source), Some(ask.grid), Some(0), Empty(ask.hours))
  }

  /** A new file of which only some parts were stored. */
  function PartOf(ask: Ask, t: Torn): Checkpoint {
    Checkpoint(if t.request then Some(ask.request) else None,
               if t.source then Some(ask.source) else None,
               if t.grid then Some(ask.grid) else None,
               if t.completed then Some(0) else None,
               if t.cells then Empty(ask.hours) else [])
  }

  predicate WholeHeader(t: Torn) {
    t.request && t.source && t.grid && t.completed && t.cells
  }

  /** The file after a crash during writes that left `cp` of its content. */
  function Left(t: Torn, cp: Checkpoint): Option<File> {
    Some(if t.opens then Opens(cp) else Broken)
  }

  /** Why a run gives up on a checkpoint it finds, if it does. */
  function Reject(ask: Ask, file: File): Option<Failure> {
    if file.Broken? then Some(CannotOpen) else RejectContent(ask, file.content)
  }

  function RejectContent(ask: Ask, cp: Checkpoint): Option<Failure> {
    if cp.request != Some(ask.request) || cp.source != Some(ask.source) || cp.grid != Some(ask.grid) then Some(Mismatch)
    else if cp.completed.None? then Some(Incomplete)
    else if !(0 <= cp.completed.value <= ask.hours) then Some(BadProgress)
    else None
  }

  function Cells(ask: Ask, cp: Checkpoint): seq<Cell>
  {
    seq(|cp.cells|, i requires 0 <= i < |cp.cells| => if cp.cells[i].Some? then cp.cells[i].value else Cell([], 0))
  }

  /** The hours from `h` on, over a checkpoint that was accepted. */
  function Hours(
      ask: Ask, cp: Checkpoint, destination: Option<seq<Cell>>, h: nat, s: Session, limit: nat): (Disk, Outcome)
    requires h <= ask.hours
    decreases ask.hours - h
  {
    if h == ask.hours then
      if limit == 0 then (Disk(Left(s.torn, cp), destination), Crashed)
      else (Disk(None, Some(Cells(ask, cp))), Promoted)
    else
      match s.read(h)
      case Unreachable => (Disk(Some(Opens(cp)), destination), Failed(NoConnection))
      case NotFinite => (Disk(Some(Opens(cp)), destination), Failed(MissingValues))
      case Values(slice) =>
        if h >= |cp.cells| then (Disk(Some(Opens(cp)), destination), Failed(Incomplete))
        else
          var stored := cp.(cells := cp.cells[h := Some(Cell(slice, ask.first + h))]);
          var counted := stored.(completed := Some(h + 1));
          if limit == 0 then (Disk(Left(s.torn, cp.(cells := cp.cells[h := s.torn.cell])), destination), Crashed)
          else if limit == 1 then (Disk(Left(s.torn, if s.torn.counted then counted else stored), destination), Crashed)
          else Hours(ask, counted, destination, h + 1, s, limit - 2)
  }

  /** Every requested hour is where the first entry of the coordinate says it is. */
  predicate TimesOk(ask: Ask, s: Session) {
    && s.axis.block(0).Some?
    && forall h :: 0 <= h < ask.hours ==> HourMatches(s.axis, s.axis.block(0).value[0], ask.first, h)
  }

  function Fetch(ask: Ask, d: Disk, s: Session): (Disk, Outcome) {
    if s.axis.block(0).None? then (d, Failed(NoConnection))
    else if !TimesOk(ask, s) then (d, Failed(WrongTimes))
    else if d.checkpoint.None? then
      if s.limit == 0 then (d, Crashed)
      else if s.limit == 1 then (d.(checkpoint := Left(s.torn, PartOf(ask, s.torn))), Crashed)
      else Hours(ask, NewCheckpoint(ask), d.destination, 0, s, s.limit - 2)
    else
      var rejected := Reject(ask, d.checkpoint.value);
      if rejected.Some? then (d, Failed(rejected.value))
      else
        var cp := d.checkpoint.value.content;
        Hours(ask, cp, d.destination, cp.completed.value, s, s.limit)
  }

  // ---------------------------------------------------------------- the same, in place

  class Region {
    const ask: Ask
    var checkpoint: Option<File>
    var destination: Option<seq<Cell>>

    function Now(): Disk
      reads this
    {
      Disk(checkpoint, destination)
    }

    constructor (ask: Ask)
      ensures this.ask == ask && Now() == Disk(None, None)
    {
      this.ask := ask;
      checkpoint, destination := None, None;
    }

    method Download(s: Session) returns (outcome: Outcome)
      modifies this
      ensures (Now(), outcome) == Fetch(ask, old(Now()), s)
    {
      var blockZero := s.axis.block(0);
      if blockZero.None? {
        return Failed(NoConnection);
      }
      var timesOk := TimesMatch(s.axis, blockZero.value[0], ask.first, ask.hours);
      if !timesOk {
        return Failed(WrongTimes);
      }
      var limit := s.limit;
      if checkpoint.Some? {
        var rejected := Reject(ask, checkpoint.value);
        if rejected.Some? {
          return Failed(rejected.value);
        }
      } else {
        if limit == 0 {
          return Crashed;
        }
        if limit == 1 {
          checkpoint := Left(s.torn, PartOf(ask, s.torn));
          return Crashed;
        }
        checkpoint, limit := Some(Opens(NewCheckpoint(ask))), limit - 2;
      }
      var cp := checkpoint.value.content;
      var h := cp.completed.value;
      while h < ask.hours
        invariant checkpoint == Some(Opens(cp)) && 0 <= h <= ask.hours && limit >= 0
        invariant destination == old(destination)
        invariant Hours(ask, cp, destination, h, s, limit) == Fetch(ask, old(Now()), s)
      {
        var reading := s.read(h);
        if reading.Unreachable? {
          return Failed(NoConnection);
        }
        if reading.NotFinite? {
          return Failed(MissingValues);
        }
        if h >= |cp.cells| {
          return Failed(Incomplete);
        }
        if limit == 0 {
          checkpoint := Left(s.torn, cp.(cells := cp.cells[h := s.torn.cell]));
          return Crashed;
        }
        cp := cp.(cells := cp.cells[h := Some(Cell(reading.slice, ask.first + h))]);
        if limit == 1 {
          checkpoint := Left(s.torn, if s.torn.counted then cp.(completed := Some(h + 1)) else cp);
          return Crashed;
        }
        cp := cp.(completed := Some(h + 1));
        checkpoint := Some(Opens(cp));
        h, limit := h + 1, limit - 2;
      }
      if limit == 0 {
        checkpoint := Left(s.torn, cp);
        return Crashed;
      }
      destination := Some(Cells(ask, cp));
      checkpoint := None;
      return Promoted;
    }
  }

  // ---------------------------------------------------------------- any number of interruptions

  function Runs(ask: Ask, d: Disk, sessions: seq<Session>): Disk {
    if sessions == [] then d
    else Fetch(ask, Runs(ask, d, sessions[..|sessions| - 1]), sessions[|sessions| - 1]).0
  }

  /** Every hour that can be read reads the same in every session. */
  ghost predicate Steady(truth: nat -> Slice, s: Session) {
    forall h :: s.read(h).Values? ==> s.read(h).slice == truth(h)
  }

  function Right(ask: Ask, truth: nat -> Slice, h: nat): Cell {
    Cell(truth(h), ask.first + h)
  }

  /** The uninterrupted result. */
  function Whole(ask: Ask, truth: nat -> Slice): (cells: seq<Cell>)
    ensures |cells| == ask.hours
  {
    seq(ask.hours, h requires 0 <= h < ask.hours => Right(ask, truth, h))
  }

  /** A checkpoint whose completed hours are right. */
  ghost predicate Sound(ask: Ask, truth: nat -> Slice, cp: Checkpoint) {
    && cp.request == Some(ask.request) && cp.source == Some(ask.source) && cp.grid == Some(ask.grid)
    && |cp.cells| == ask.hours
    && cp.completed.Some? && 0 <= cp.completed.value <= ask.hours
    && forall h :: 0 <= h < cp.completed.value ==> cp.cells[h] == Some(Right(ask, truth, h))
  }

  /** A new file that lacks a part. */
  ghost predicate Stunted(ask: Ask, cp: Checkpoint) {
    exists t :: cp == PartOf(ask, t) && !WholeHeader(t)
  }

  ghost predicate SoundFile(ask: Ask, truth: nat -> Slice, file: Option<File>) {
    file.Some? && file.value.Opens? && Sound(ask, truth, file.value.content)
  }

  /** A file that no longer opens or lacks a part. */
  ghost predicate Blocked(ask: Ask, d: Disk) {
    d.checkpoint.Some? && (d.checkpoint.value.Broken? || Stunted(ask, d.checkpoint.value.content))
  }

  ghost predicate Inv(ask: Ask, truth: nat -> Slice, d: Disk) {
    && (d.checkpoint.Some? ==> SoundFile(ask, truth, d.checkpoint) || Blocked(ask, d))
    && (d.destination.Some? ==> d.destination.value == Whole(ask, truth))
  }

  lemma {:induction false} HoursKeep(ask: Ask, truth: nat -> Slice, cp: Checkpoint, destination: Option<seq<Cell>>,
    h: nat, s: Session, limit: nat)
    requires Sound(ask, truth, cp) && cp.completed == Some(h) && Steady(truth, s)
    requires destination.Some? ==> destination.value == Whole(ask, truth)
    ensures var (d, outcome) := Hours(ask, cp, destination, h, s, limit);
      if outcome == Promoted then d == Disk(None, Some(Whole(ask, truth)))
      else
        && d.destination == destination
        && (if outcome == Crashed && !s.torn.opens then d.checkpoint == Some(Broken)
            else SoundFile(ask, truth, d.checkpoint) && h <= d.checkpoint.value.content.completed.value)
    decreases ask.hours - h
  {
    if h == ask.hours {
      assert Cells(ask, cp) == Whole(ask, truth);
    } else if s.read(h).Values? && limit >= 2 {
      var cells := cp.cells[h := Some(Cell(s.read(h).slice, ask.first + h))];
      HoursKeep(ask, truth, cp.(cells := cells, completed := Some(h + 1)), destination, h + 1, s, limit - 2);
    }
  }

  /** A file that no longer opens or lacks a part stops every later run and stays as it is. */
  lemma BlockedStops(ask: Ask, d: Disk, s: Session)
    requires Blocked(ask, d) && ask.hours > 0
    ensures Fetch(ask, d, s).0 == d && Fetch(ask, d, s).1.Failed?
  {
  }

  lemma PartIsWholeOrStunted(ask: Ask, truth: nat -> Slice, t: Torn)
    ensures if WholeHeader(t) then Sound(ask, truth, PartOf(ask, t)) else Stunted(ask, PartOf(ask, t))
  {
  }

  lemma SoundIsNotStunted(ask: Ask, truth: nat -> Slice, cp: Checkpoint)
    requires Sound(ask, truth, cp) && ask.hours > 0
    ensures !Stunted(ask, cp)
  {
  }

  /** The run whose crash leaves such a file. */
  ghost predicate BlockingCrash(ask: Ask, d: Disk, s: Session) {
    && Fetch(ask, d, s).1 == Crashed && Fetch(ask, d, s).0.checkpoint.Some?
    && (!s.torn.opens || (d.checkpoint.None? && s.limit == 1 && !WholeHeader(s.torn)))
  }

  /** One run keeps the invariant. It blocks the runs after it exactly when it is cut while the file is
      open and the file no longer opens, or it is cut during creation and a part is lost. */
  lemma FetchKeeps(ask: Ask, truth: nat -> Slice, d: Disk, s: Session)
    requires ask.hours > 0 && Inv(ask, truth, d) && Steady(truth, s)
    ensures Inv(ask, truth, Fetch(ask, d, s).0)
    ensures Fetch(ask, d, s).1 == Promoted ==> Fetch(ask, d, s).0 == Disk(None, Some(Whole(ask, truth)))
    ensures Blocked(ask, Fetch(ask, d, s).0) <==> Blocked(ask, d) || BlockingCrash(ask, d, s)
  {
    var d' := Fetch(ask, d, s).0;
    if Blocked(ask, d) {
      BlockedStops(ask, d, s);
    } else if TimesOk(ask, s) {
      PartIsWholeOrStunted(ask, truth, s.torn);
      if d.checkpoint.Some? {
        var cp := d.checkpoint.value.content;
        HoursKeep(ask, truth, cp, d.destination, cp.completed.value, s, s.limit);
      } else if s.limit >= 2 {
        HoursKeep(ask, truth, NewCheckpoint(ask), d.destination, 0, s, s.limit - 2);
      }
      if SoundFile(ask, truth, d'.checkpoint) {
        SoundIsNotStunted(ask, truth, d'.checkpoint.value.content);
      }
    }
  }

  /** After any number of runs and crashes, hours below the counter hold the right slice and time, and a
      promoted file is the uninterrupted result. */
  lemma {:induction false} AnyInterruptions(ask: Ask, truth: nat -> Slice, sessions: seq<Session>)
    requires ask.hours > 0 && forall s :: s in sessions ==> Steady(truth, s)
    ensures Inv(ask, truth, Runs(ask, Disk(None, None), sessions))
  {
    if sessions != [] {
      AnyInterruptions(ask, truth, sessions[..|sessions| - 1]);
      FetchKeeps(ask, truth, Runs(ask, Disk(None, None), sessions[..|sessions| - 1]), sessions[|sessions| - 1]);
    }
  }

  /** A run that reads every hour and is not cut. */
  ghost predicate Clear(ask: Ask, s: Session) {
    TimesOk(ask, s) && s.limit >= 2 * ask.hours + 3 && forall h :: 0 <= h < ask.hours ==> s.read(h).Values?
  }

  lemma {:induction false} HoursFinish(
      ask: Ask, cp: Checkpoint, destination: Option<seq<Cell>>, h: nat, s: Session, limit: nat)
    requires h <= ask.hours && |cp.cells| == ask.hours && limit > 2 * (ask.hours - h)
    requires forall k :: h <= k < ask.hours ==> s.read(k).Values?
    ensures Hours(ask, cp, destination, h, s, limit).1 == Promoted
    decreases ask.hours - h
  {
    if h < ask.hours {
      var counted := cp.(cells := cp.cells[h := Some(Cell(s.read(h).slice, ask.first + h))], completed := Some(h + 1));
      HoursFinish(ask, counted, destination, h + 1, s, limit - 2);
    }
  }

  ghost predicate CutAt(ask: Ask, sessions: seq<Session>, i: nat)
    requires i < |sessions|
  {
    BlockingCrash(ask, Runs(ask, Disk(None, None), sessions[..i]), sessions[i])
  }

  /** Some run of the history was cut in a way that blocks the later ones. */
  ghost predicate WasBlocked(ask: Ask, sessions: seq<Session>) {
    exists i: nat :: i < |sessions| && CutAt(ask, sessions, i)
  }

  lemma {:induction false} BlockedExactly(ask: Ask, truth: nat -> Slice, sessions: seq<Session>)
    requires ask.hours > 0 && forall s :: s in sessions ==> Steady(truth, s)
    ensures Blocked(ask, Runs(ask, Disk(None, None), sessions)) <==> WasBlocked(ask, sessions)
  {
    if sessions != [] {
      var n := |sessions| - 1;
      var before := sessions[..n];
      BlockedExactly(ask, truth, before);
      AnyInterruptions(ask, truth, before);
      FetchKeeps(ask, truth, Runs(ask, Disk(None, None), before), sessions[n]);
      WasBlockedStep(ask, sessions, n);
    }
  }

  lemma CutBefore(ask: Ask, sessions: seq<Session>, n: nat, i: nat)
    requires i < n <= |sessions|
    ensures CutAt(ask, sessions[..n], i) == CutAt(ask, sessions, i)
  {
    assert sessions[..n][..i] == sessions[..i];
  }

  lemma WasBlockedStep(ask: Ask, sessions: seq<Session>, n: nat)
    requires |sessions| == n + 1
    ensures WasBlocked(ask, sessions) <==> WasBlocked(ask, sessions[..n]) || CutAt(ask, sessions, n)
  {
    forall i: nat | i < n ensures CutAt(ask, sessions[..n], i) == CutAt(ask, sessions, i) {
      CutBefore(ask, sessions, n, i);
    }
  }

  /** After any history, a clear run promotes the file exactly when no run was cut in a way that left a
      file that no longer opens or lacks a part; such a file blocks every later run. */
  lemma ResumesExactly(ask: Ask, truth: nat -> Slice, sessions: seq<Session>, s: Session)
    requires ask.hours > 0 && (forall r :: r in sessions ==> Steady(truth, r)) && Steady(truth, s) && Clear(ask, s)
    ensures var d := Runs(ask, Disk(None, None), sessions);
      Fetch(ask, d, s).1 == Promoted <==> !WasBlocked(ask, sessions)
    ensures var d := Runs(ask, Disk(None, None), sessions);
      Fetch(ask, d, s).1 == Promoted ==> Fetch(ask, d, s).0.destination == Some(Whole(ask, truth))
  {
    var d := Runs(ask, Disk(None, None), sessions);
    AnyInterruptions(ask, truth, sessions);
    BlockedExactly(ask, truth, sessions);
    FetchKeeps(ask, truth, d, s);
    if Blocked(ask, d) {
      BlockedStops(ask, d, s);
    } else if d.checkpoint.None? {
      HoursFinish(ask, NewCheckpoint(ask), d.destination, 0, s, s.limit - 2);
    } else {
      var cp := d.checkpoint.value.content;
      HoursFinish(ask, cp, d.destination, cp.completed.value, s, s.limit);
    }
  }
}
