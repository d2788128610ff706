/**
  Test facts of tasks without a research tree, kept as rows of the observation journal
  (src/oceanx/exploration.py, src/oceanx/backend/store.py).

  A snapshot longer than a row is cut into chunk rows. The journal ignores a row it already holds,
  so writing an old snapshot again does not bring it back.
 */
module TestNotes {
  import opened Common
  import opened ResearchTree
  import opened ResearchStore
  import TH = ToolHistory

  const STATEMENT_LIMIT := 8000
  const CHUNK := 3000
  /** Length of a chunk row around its snapshot, part, total and text. */
  const CHUNK_FRAME := 83
  const DIGEST := 64

  /** What `json.loads` makes of a row, as far as the reader looks at it. */
  datatype Payload =
    | Fact(test: Test)
    | BrokenFact
    | Chunk(snapshot: Option<string>, part: Option<int>, total: Option<int>, text: Option<string>)
    | OtherObject
    | NotObject

  /** JSON and SHA-256. `loads` is None for text that is not JSON. */
  datatype Codec = Codec(dumps: Payload -> string, loads: string -> Option<Payload>, sha: string -> string)

  /** Length of a character inside a JSON string, non-ASCII characters kept. */
  function EscapedLength(c: char): nat {
    if c == '"' || c == '\\' || c in ['\n', '\r', '\t'] || c as int == 8 || c as int == 12 then 2
    else if (c as int) < 32 then 6
    else 1
  }

  function EscapedTextLength(text: string): nat {
    if text == "" then 0 else EscapedLength(text[0]) + EscapedTextLength(text[1..])
  }

  /** What the proofs take from the two libraries: JSON text reads back and holds no control character, a
      digest is 64 characters that JSON writes as they are, and a chunk row is its frame, its digest, its
      numbers and its text with escapes. */
  ghost predicate Lawful(c: Codec) {
    && (forall p :: c.loads(c.dumps(p)) == Some(p))
    && (forall x :: |c.sha(x)| == DIGEST)
    && (forall t: Test, i :: 0 <= i < |c.dumps(Fact(t))| ==> (c.dumps(Fact(t))[i] as int) >= 32)
    && (forall x, part: nat, total: nat, text ::
          |c.dumps(Chunk(Some(c.sha(x)), Some(part), Some(total), Some(text)))|
          == CHUNK_FRAME + DIGEST + |TH.Decimal(part)| + |TH.Decimal(total)| + EscapedTextLength(text))
  }

  // ---------------------------------------------------------------- writing

  function Pieces(s: string): (ps: seq<string>)
    ensures forall i :: 0 <= i < |ps| ==> |ps[i]| <= CHUNK
  {
    if s == "" then [] else if |s| <= CHUNK then [s] else [s[..CHUNK]] + Pieces(s[CHUNK..])
  }

  function ChunkRow(c: Codec, snapshot: string, pieces: seq<string>, i: nat): string
    requires i < |pieces|
  {
    c.dumps(Chunk(Some(snapshot), Some(i), Some(|pieces|), Some(pieces[i])))
  }

  /** The rows of one snapshot. */
  function Statements(c: Codec, test: Test): seq<string> {
    var encoded := c.dumps(Fact(test));
    if |encoded| <= STATEMENT_LIMIT then [encoded]
    else
      var pieces := Pieces(encoded);
      seq(|pieces|, i requires 0 <= i < |pieces| => ChunkRow(c, c.sha(encoded), pieces, i))
  }

  /** `INSERT OR IGNORE` under the digest of the row. */
  function Insert(rows: seq<string>, statement: string): seq<string> {
    if statement in rows then rows else rows + [statement]
  }

  function InsertAll(rows: seq<string>, statements: seq<string>): seq<string>
    decreases |statements|
  {
    if statements == [] then rows else InsertAll(Insert(rows, statements[0]), statements[1..])
  }

  // ---------------------------------------------------------------- reading

  datatype Reader = Reader(tests: map<string, Test>, chunks: map<string, map<int, string>>)

  predicate Readable(p: Payload) {
    p.Chunk? && p.snapshot.Some? && p.part.Some? && p.total.Some? && p.text.Some? && 0 <= p.part.value < p.total.value
  }

  /** All parts are here, and no other. */
  predicate Complete(pieces: map<int, string>, total: nat) {
    (forall k :: k in pieces ==> 0 <= k < total) && (forall i :: 0 <= i < total ==> i in pieces)
  }

  function Assemble(pieces: map<int, string>, total: nat): string
    requires forall i :: 0 <= i < total ==> i in pieces
  {
    if total == 0 then "" else Assemble(pieces, total - 1) + pieces[total - 1]
  }

  /** One row; None stands for the exception that reading a broken note raises. */
  function Absorb(c: Codec, r: Reader, row: string): Option<Reader> {
    match c.loads(row)
    case Some(Fact(test)) => Some(r.(tests := r.tests[test.plan.id := test]))
    case Some(BrokenFact) => None
    case Some(Chunk(snapshot, part, total, text)) =>
      if !Readable(Chunk(snapshot, part, total, text)) then Some(r)
      else
        var key := snapshot.value;
        var pieces := (if key in r.chunks then r.chunks[key] else map[])[part.value := text.value];
        var kept := r.(chunks := r.chunks[key := pieces]);
        if !Complete(pieces, total.value) then Some(kept)
        else
          var encoded := Assemble(pieces, total.value);
          if c.sha(encoded) != key then Some(kept)
          else
            (match c.loads(encoded)
             case Some(Fact(test)) => Some(Reader(r.tests[test.plan.id := test], kept.chunks - {key}))
             case Some(Chunk(_, _, _, _)) => Some(r.(chunks := kept.chunks - {key}))
             case Some(OtherObject) => Some(r.(chunks := kept.chunks - {key}))
             case _ => None)
    case _ => Some(r)
  }

  function ReadFrom(c: Codec, r: Reader, rows: seq<string>): Option<Reader>
    decreases |rows|
  {
    if rows == [] then Some(r)
    else
      var r' := Absorb(c, r, rows[0]);
      if r'.None? then None else ReadFrom(c, r'.value, rows[1..])
  }

  method ReadTestNotes(c: Codec, rows: seq<string>) returns (tests: Option<map<string, Test>>)
    ensures var r := ReadFrom(c, Reader(map[], map[]), rows);
      tests == if r.Some? then Some(r.value.tests) else None
  {
    var found: map<string, Test> := map[];
    var chunks: map<string, map<int, string>> := map[];
    for i := 0 to |rows|
      invariant ReadFrom(c, Reader(found, chunks), rows[i..]) == ReadFrom(c, Reader(map[], map[]), rows)
    {
      assert rows[i..][0] == rows[i] && rows[i..][1..] == rows[i + 1..];
      var payload := c.loads(rows[i]);
      if payload.None? || payload.value.NotObject? {
        continue;
      }
      var fact := payload.value;
      if fact.Chunk? {
        if !Readable(fact) {
          continue;
        }
        var key, total := fact.snapshot.value, fact.total.value;
        var pieces := (if key in chunks then chunks[key] else map[])[fact.part.value := fact.text.value];
        chunks := chunks[key := pieces];
        if !Complete(pieces, total) {
          continue;
        }
        var encoded := Assemble(pieces, total);
        if c.sha(encoded) != key {
          continue;
        }
        var whole := c.loads(encoded);
        if whole.None? || whole.value.NotObject? {
          return None;
        }
        fact := whole.value;
        chunks := chunks - {key};
      }
      if fact.BrokenFact? {
        return None;
      }
      if fact.Fact? {
        found := found[fact.test.plan.id := fact.test];
      }
    }
    return Some(found);
  }

  // ---------------------------------------------------------------- the journal of one WorkOrder

  /** One write to the journal: a snapshot, or a row that is no test note. */
  datatype Entry = Note(test: Test) | Noise(row: string)

  ghost predicate IsNoise(c: Codec, row: string) {
    var p := c.loads(row);
    p.None? || p.value.OtherObject? || p.value.NotObject?
  }

  ghost predicate Entries(c: Codec, es: seq<Entry>) {
    forall e :: e in es && e.Noise? ==> IsNoise(c, e.row)
  }

  /** The rows in the table after these writes. */
  function RowsOf(c: Codec, es: seq<Entry>): seq<string> {
    if es == [] then []
    else
      var rows := RowsOf(c, es[..|es| - 1]);
      match es[|es| - 1]
      case Note(test) => InsertAll(rows, Statements(c, test))
      case Noise(row) => Insert(rows, row)
  }

  /** The snapshots as the reader will see them: the one written first last. */
  function NotesOf(es: seq<Entry>): map<string, Test> {
    if es == [] then map[]
    else
      var notes := NotesOf(es[..|es| - 1]);
      match es[|es| - 1]
      case Note(test) => if es[|es| - 1] in es[..|es| - 1] then notes else notes[test.plan.id := test]
      case Noise(_) => notes
  }

  function NoteEntries(tests: map<string, Test>, ids: seq<string>): (es: seq<Entry>)
    requires forall k :: k in ids ==> k in tests
    ensures |es| == |ids|
  {
    seq(|ids|, i requires 0 <= i < |ids| => Note(tests[ids[i]]))
  }

  lemma NoteEntriesGrow(tests: map<string, Test>, ids: seq<string>, i: nat)
    requires i < |ids| && forall k :: k in ids ==> k in tests
    ensures ids[i] in tests
    ensures NoteEntries(tests, ids[..i + 1]) == NoteEntries(tests, ids[..i]) + [Note(tests[ids[i]])]
  {
    assert ids[i] in ids;
  }

  /** What an Expert call without a tree writes to the journal, and the tests it then knows. */
  function ExpertNotes(rules: Rules, world: World, tests: map<string, Test>, request: ExpertRequest)
    : Result<(seq<Entry>, map<string, Test>), Error>
  {
    var facts :- ExpertFacts(rules, world, {}, tests, request);
    if forall k :: k in Dedup(facts.1) ==> k in facts.0 then Ok((NoteEntries(facts.0, Dedup(facts.1)), facts.0))
    else Err(UnknownTest)
  }

  function NoTreeCall(rules: Rules, c: Codec, world: World, rows: seq<string>, request: ExpertRequest)
    : Result<(seq<Entry>, map<string, Test>), Error>
  {
    var read := ReadFrom(c, Reader(map[], map[]), rows);
    if read.None? then Err(BrokenNote) else ExpertNotes(rules, world, read.value.tests, request)
  }

  class NoteJournal {
    const rules: Rules
    const codec: Codec
    var rows: seq<string>
    ghost var entries: seq<Entry>

    ghost predicate Valid()
      reads this
    {
      Entries(codec, entries) && rows == RowsOf(codec, entries)
    }

    constructor (rules: Rules, codec: Codec)
      ensures Valid() && entries == [] && this.rules == rules && this.codec == codec
    {
      this.rules, this.codec := rules, codec;
      rows, entries := [], [];
    }

    method WriteTestNote(test: Test)
      requires Valid()
      modifies this
      ensures Valid() && entries == old(entries) + [Note(test)]
    {
      var statements := Statements(codec, test);
      for i := 0 to |statements|
        invariant unchanged(`entries)
        invariant InsertAll(rows, statements[i..]) == InsertAll(old(rows), statements)
      {
        assert statements[i..][0] == statements[i] && statements[i..][1..] == statements[i + 1..];
        rows := Insert(rows, statements[i]);
      }
      entries := entries + [Note(test)];
      assert entries[..|entries| - 1] == old(entries);
    }

    method WriteOther(row: string)
      requires Valid() && IsNoise(codec, row)
      modifies this
      ensures Valid() && entries == old(entries) + [Noise(row)]
    {
      rows := Insert(rows, row);
      entries := entries + [Noise(row)];
      assert entries[..|entries| - 1] == old(entries);
    }

    method WriteNotes(tests: map<string, Test>, ids: seq<string>)
      requires Valid() && forall k :: k in ids ==> k in tests
      modifies this
      ensures Valid() && entries == old(entries) + NoteEntries(tests, ids)
    {
      for i := 0 to |ids|
        invariant Valid() && entries == old(entries) + NoteEntries(tests, ids[..i])
      {
        assert ids[i] in ids;
        WriteTestNote(tests[ids[i]]);
        NoteEntriesGrow(tests, ids, i);
      }
      assert ids[..|ids|] == ids;
    }

    /** One transaction: read the journal, record the facts, write the changed tests. */
    method ExpertCall(world: World, request: ExpertRequest) returns (r: Result<map<string, Test>, Error>)
      requires Valid()
      modifies this
      ensures Valid()
      ensures var outcome := NoTreeCall(rules, codec, world, old(rows), request);
        && (outcome.Ok? ==> r == Ok(outcome.value.1) && entries == old(entries) + outcome.value.0)
        && (outcome.Err? ==> r == Err(outcome.error) && entries == old(entries) && rows == old(rows))
    {
      var known := ReadTestNotes(codec, rows);
      if known.None? {
        return Err(BrokenNote);
      }
      var facts := RecordFacts(rules, world, {}, known.value, request);
      if facts.Err? {
        return Err(facts.error);
      }
      var tests, changed := facts.value.0, Dedup(facts.value.1);
      if exists k :: k in changed && k !in tests {
        return Err(UnknownTest);
      }
      WriteNotes(tests, changed);
      return Ok(tests);
    }
  }
}
