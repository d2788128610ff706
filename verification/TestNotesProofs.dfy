/** The journal codec: row size, round trip, and the Expert calls that rely on it. */
module TestNotesProofs {
  import opened Common
  import opened ResearchTree
  import opened ResearchTreeProofs
  import opened ResearchRuns
  import opened TestNotes
  import TH = ToolHistory

  // ---------------------------------------------------------------- every row fits

  ghost predicate Printable(s: string) {
    forall i :: 0 <= i < |s| ==> (s[i] as int) >= 32
  }

  lemma {:induction false} EscapingAtMostDoubles(s: string)
    requires Printable(s)
    ensures EscapedTextLength(s) <= 2 * |s|
  {
    if s != "" {
      assert (s[0] as int) >= 32;
      forall i | 0 <= i < |s[1..]| ensures (s[1..][i] as int) >= 32 {
        assert (s[i + 1] as int) >= 32;
      }
      EscapingAtMostDoubles(s[1..]);
    }
  }

  lemma {:induction false} PiecesPrintable(s: string, i: nat)
    requires Printable(s) && i < |Pieces(s)|
    ensures Printable(Pieces(s)[i])
    decreases |s|
  {
    if |s| > CHUNK && i > 0 {
      forall k | 0 <= k < |s[CHUNK..]| ensures (s[CHUNK..][k] as int) >= 32 {
        assert (s[k + CHUNK] as int) >= 32;
      }
      PiecesPrintable(s[CHUNK..], i - 1);
    }
  }

  lemma {:induction false} DecimalMonotone(m: nat, n: nat)
    requires m <= n
    ensures |TH.Decimal(m)| <= |TH.Decimal(n)|
  {
    if m >= 10 {
      DecimalMonotone(m / 10, n / 10);
    }
  }

  /** A snapshot is stored whole or in chunk rows, and each row fits the statement limit as long as
      the number of chunks has at most 900 digits. */
  lemma EveryRowFits(c: Codec, test: Test, k: nat)
    requires Lawful(c) && k < |Statements(c, test)|
    requires |TH.Decimal(|Pieces(c.dumps(Fact(test)))|)| <= 900
    ensures |Statements(c, test)[k]| <= 8000
  {
    var encoded := c.dumps(Fact(test));
    if |encoded| > STATEMENT_LIMIT {
      assert Printable(encoded);
      PiecesPrintable(encoded, k);
      EscapingAtMostDoubles(Pieces(encoded)[k]);
      DecimalMonotone(k, |Pieces(encoded)|);
    }
  }

  // ---------------------------------------------------------------- reading one snapshot back

  function Concat(ps: seq<string>): string {
    if ps == [] then "" else Concat(ps[..|ps| - 1]) + ps[|ps| - 1]
  }

  lemma {:induction false} ConcatCons(p: string, ps: seq<string>)
    ensures Concat([p] + ps) == p + Concat(ps)
  {
    var all := [p] + ps;
    if ps == [] {
      assert all[..0] == [];
    } else {
      assert all[..|all| - 1] == [p] + ps[..|ps| - 1];
      ConcatCons(p, ps[..|ps| - 1]);
    }
  }

  lemma {:induction false} PiecesConcat(s: string)
    ensures Concat(Pieces(s)) == s
    decreases |s|
  {
    if |s| > CHUNK {
      PiecesConcat(s[CHUNK..]);
      ConcatCons(s[..CHUNK], Pieces(s[CHUNK..]));
    } else if s != "" {
      assert [s][..0] == [];
    }
  }

  /** The parts seen before chunk row `i`. */
  function Parts(ps: seq<string>, i: nat): map<int, string>
    requires i <= |ps|
  {
    map k: int | 0 <= k < i :: ps[k]
  }

  lemma {:induction false} AssembleParts(ps: seq<string>, pieces: map<int, string>, n: nat)
    requires n <= |ps| && forall k :: 0 <= k < n ==> k in pieces && pieces[k] == ps[k]
    ensures Assemble(pieces, n) == Concat(ps[..n])
  {
    if n > 0 {
      AssembleParts(ps, pieces, n - 1);
      assert ps[..n][..n - 1] == ps[..n - 1];
    }
  }

  function ChunksBefore(key: string, ps: seq<string>, i: nat): map<string, map<int, string>>
    requires i <= |ps|
  {
    if i == 0 then map[] else map[key := Parts(ps, i)]
  }

  /** What the reader makes of part `i` of a snapshot cut into `ps`. */
  lemma AbsorbPart(c: Codec, tests: map<string, Test>, key: string, ps: seq<string>, i: nat)
    requires Lawful(c) && i + 1 < |ps|
    ensures Absorb(c, Reader(tests, ChunksBefore(key, ps, i)), ChunkRow(c, key, ps, i))
         == Some(Reader(tests, ChunksBefore(key, ps, i + 1)))
  {
    var r := Reader(tests, ChunksBefore(key, ps, i));
    var pieces := (if key in r.chunks then r.chunks[key] else map[])[i as int := ps[i]];
    assert pieces == Parts(ps, i + 1);
    assert (|ps| - 1) !in pieces;
    assert r.chunks[key := pieces] == ChunksBefore(key, ps, i + 1);
  }

  lemma AbsorbWhole(c: Codec, r: Reader, row: string, key: string, i: int, n: int, text: string,
                    pieces: map<int, string>, encoded: string, test: Test)
    requires c.loads(row) == Some(Chunk(Some(key), Some(i), Some(n), Some(text))) && 0 <= i < n
    requires pieces == (if key in r.chunks then r.chunks[key] else map[])[i := text]
    requires Complete(pieces, n) && Assemble(pieces, n) == encoded
    requires c.sha(encoded) == key && c.loads(encoded) == Some(Fact(test))
    ensures Absorb(c, r, row) == Some(Reader(r.tests[test.plan.id := test], r.chunks[key := pieces] - {key}))
  {
  }

  lemma AbsorbLast(c: Codec, tests: map<string, Test>, test: Test, encoded: string, ps: seq<string>, i: nat)
    requires i + 1 == |ps|
    requires c.loads(ChunkRow(c, c.sha(encoded), ps, i))
         == Some(Chunk(Some(c.sha(encoded)), Some(i), Some(|ps|), Some(ps[i])))
    requires c.loads(encoded) == Some(Fact(test)) && Assemble(Parts(ps, |ps|), |ps|) == encoded
    ensures Absorb(c, Reader(tests, ChunksBefore(c.sha(encoded), ps, i)), ChunkRow(c, c.sha(encoded), ps, i))
         == Some(Reader(tests[test.plan.id := test], map[]))
  {
    var key := c.sha(encoded);
    var pieces := Parts(ps, |ps|);
    var chunks := ChunksBefore(key, ps, i);
    assert pieces == (if key in chunks then chunks[key] else map[])[i as int := ps[i]];
    AbsorbWhole(c, Reader(tests, chunks), ChunkRow(c, key, ps, i), key, i, |ps|, ps[i], pieces, encoded, test);
    assert chunks[key := pieces] - {key} == map[];
  }

  lemma AssemblePieces(s: string)
    ensures var ps := Pieces(s);
      Assemble(Parts(ps, |ps|), |ps|) == s
  {
    var ps := Pieces(s);
    AssembleParts(ps, Parts(ps, |ps|), |ps|);
    assert ps[..|ps|] == ps;
    PiecesConcat(s);
  }

  lemma {:induction false} ReadConcat(c: Codec, r: Reader, a: seq<string>, b: seq<string>)
    ensures ReadFrom(c, r, a + b)
         == if ReadFrom(c, r, a).Some? then ReadFrom(c, ReadFrom(c, r, a).value, b) else None
    decreases |a|
  {
    if a == [] {
      assert a + b == b;
    } else {
      assert (a + b)[1..] == a[1..] + b;
      if Absorb(c, r, a[0]).Some? {
        ReadConcat(c, Absorb(c, r, a[0]).value, a[1..], b);
      }
    }
  }

  lemma {:induction false} ReadChunks(c: Codec, tests: map<string, Test>, test: Test, i: nat)
    requires Lawful(c) && |c.dumps(Fact(test))| > STATEMENT_LIMIT
    requires i < |Pieces(c.dumps(Fact(test)))|
    ensures var encoded := c.dumps(Fact(test));
      ReadFrom(c, Reader(tests, ChunksBefore(c.sha(encoded), Pieces(encoded), i)), Statements(c, test)[i..])
         == Some(Reader(tests[test.plan.id := test], map[]))
    decreases |Pieces(c.dumps(Fact(test)))| - i
  {
    var rows := Statements(c, test);
    var ps, key := Pieces(c.dumps(Fact(test))), c.sha(c.dumps(Fact(test)));
    assert rows[i] == ChunkRow(c, key, ps, i);
    assert rows[i..][0] == rows[i] && rows[i..][1..] == rows[i + 1..];
    if i + 1 < |rows| {
      AbsorbPart(c, tests, key, ps, i);
      ReadChunks(c, tests, test, i + 1);
    } else {
      AssemblePieces(c.dumps(Fact(test)));
      AbsorbLast(c, tests, test, c.dumps(Fact(test)), ps, i);
    }
  }

  /** A snapshot's rows, read with no chunk pending, give the snapshot and leave no chunk pending. */
  lemma ReadOneNote(c: Codec, tests: map<string, Test>, test: Test)
    requires Lawful(c)
    ensures ReadFrom(c, Reader(tests, map[]), Statements(c, test)) == Some(Reader(tests[test.plan.id := test], map[]))
  {
    var encoded := c.dumps(Fact(test));
    var rows := Statements(c, test);
    if |encoded| <= STATEMENT_LIMIT {
      assert rows[1..] == [];
    } else {
      ReadChunks(c, tests, test, 0);
      assert rows[0..] == rows;
    }
  }

  // ---------------------------------------------------------------- what the table holds

  /** SHA-256 tells the snapshots of one WorkOrder apart. */
  ghost predicate NoCollision(c: Codec, es: seq<Entry>) {
    forall a, b :: Note(a) in es && Note(b) in es && c.sha(c.dumps(Fact(a))) == c.sha(c.dumps(Fact(b))) ==> a == b
  }

  lemma {:induction false} InsertNew(rows: seq<string>, statements: seq<string>)
    requires NoDup(statements) && forall s :: s in statements ==> s !in rows
    ensures InsertAll(rows, statements) == rows + statements
    decreases |statements|
  {
    if statements != [] {
      assert statements[0] in statements;
      InsertNew(rows + [statements[0]], statements[1..]);
    }
  }

  lemma {:induction false} InsertOld(rows: seq<string>, statements: seq<string>)
    requires forall s :: s in statements ==> s in rows
    ensures InsertAll(rows, statements) == rows
    decreases |statements|
  {
    if statements != [] {
      assert statements[0] in statements;
      InsertOld(rows, statements[1..]);
    }
  }

  lemma {:induction false} InsertKeeps(rows: seq<string>, statements: seq<string>, s: string)
    ensures s in InsertAll(rows, statements) <==> s in rows || s in statements
    decreases |statements|
  {
    if statements != [] {
      InsertKeeps(Insert(rows, statements[0]), statements[1..], s);
    }
  }

  /** Where a row of the table comes from. */
  lemma {:induction false} RowOrigin(c: Codec, es: seq<Entry>, row: string)
    ensures row in RowsOf(c, es) <==>
            Noise(row) in es || exists t :: Note(t) in es && row in Statements(c, t)
    decreases |es|
  {
    if es != [] {
      var front, last := es[..|es| - 1], es[|es| - 1];
      assert es == front + [last];
      RowOrigin(c, front, row);
      if last.Note? {
        InsertKeeps(RowsOf(c, front), Statements(c, last.test), row);
      }
    }
  }

  /** Which payload a statement decodes to. */
  lemma StatementPayload(c: Codec, test: Test, i: nat)
    requires Lawful(c) && i < |Statements(c, test)|
    ensures c.loads(Statements(c, test)[i])
         == Some(if |c.dumps(Fact(test))| <= STATEMENT_LIMIT then Fact(test)
                 else Chunk(Some(c.sha(c.dumps(Fact(test)))), Some(i), Some(|Statements(c, test)|),
                            Some(Pieces(c.dumps(Fact(test)))[i])))
  {
  }

  lemma StatementsDistinct(c: Codec, test: Test)
    requires Lawful(c)
    ensures NoDup(Statements(c, test))
  {
    var rows := Statements(c, test);
    forall i, j | 0 <= i < j < |rows| ensures rows[i] != rows[j] {
      StatementPayload(c, test, i);
      StatementPayload(c, test, j);
    }
  }

  lemma StatementOwner(c: Codec, a: Test, b: Test, row: string)
    requires Lawful(c) && row in Statements(c, a) && row in Statements(c, b)
    ensures c.sha(c.dumps(Fact(a))) == c.sha(c.dumps(Fact(b)))
  {
    var i :| 0 <= i < |Statements(c, a)| && Statements(c, a)[i] == row;
    var j :| 0 <= j < |Statements(c, b)| && Statements(c, b)[j] == row;
    StatementPayload(c, a, i);
    StatementPayload(c, b, j);
  }

  lemma StatementIsNoNoise(c: Codec, test: Test, row: string)
    requires Lawful(c) && row in Statements(c, test)
    ensures !IsNoise(c, row)
  {
    var i :| 0 <= i < |Statements(c, test)| && Statements(c, test)[i] == row;
    StatementPayload(c, test, i);
  }

  /** A statement of a snapshot is in the table only if the snapshot was written. */
  lemma StatementWasWritten(c: Codec, es: seq<Entry>, test: Test, row: string)
    requires Lawful(c) && Entries(c, es) && NoCollision(c, es + [Note(test)])
    requires row in Statements(c, test) && row in RowsOf(c, es)
    ensures Note(test) in es
  {
    RowOrigin(c, es, row);
    StatementIsNoNoise(c, test, row);
    var t :| Note(t) in es && row in Statements(c, t);
    StatementOwner(c, t, test, row);
    assert Note(t) in es + [Note(test)] && Note(test) in es + [Note(test)];
  }

  lemma WriteAppends(c: Codec, es: seq<Entry>, test: Test)
    requires Lawful(c) && Entries(c, es) && NoCollision(c, es + [Note(test)])
    ensures RowsOf(c, es + [Note(test)])
         == if Note(test) in es then RowsOf(c, es) else RowsOf(c, es) + Statements(c, test)
  {
    assert (es + [Note(test)])[..|es|] == es;
    var rows, statements := RowsOf(c, es), Statements(c, test);
    if Note(test) in es {
      forall s | s in statements ensures s in rows {
        RowOrigin(c, es, s);
      }
      InsertOld(rows, statements);
    } else {
      forall s | s in statements ensures s !in rows {
        if s in rows {
          StatementWasWritten(c, es, test, s);
        }
      }
      StatementsDistinct(c, test);
      InsertNew(rows, statements);
    }
  }

  // ---------------------------------------------------------------- round trip

  /** Reading the journal, whole or chunked notes and foreign rows in any order, gives for each test
      the snapshot whose first write came last. */
  lemma {:induction false} JournalRoundTrip(c: Codec, es: seq<Entry>)
    requires Lawful(c) && Entries(c, es) && NoCollision(c, es)
    ensures ReadFrom(c, Reader(map[], map[]), RowsOf(c, es)) == Some(Reader(NotesOf(es), map[]))
    decreases |es|
  {
    if es != [] {
      var front, last := es[..|es| - 1], es[|es| - 1];
      assert es == front + [last];
      JournalRoundTrip(c, front);
      var rows := RowsOf(c, front);
      match last
      case Note(test) =>
        WriteAppends(c, front, test);
        if last !in front {
          ReadConcat(c, Reader(map[], map[]), rows, Statements(c, test));
          ReadOneNote(c, NotesOf(front), test);
        }
      case Noise(row) =>
        assert IsNoise(c, row);
        if row !in rows {
          ReadConcat(c, Reader(map[], map[]), rows, [row]);
          assert [row][1..] == [];
        }
    }
  }

  /** A write is what the next read returns exactly when it is new to the journal or current already. */
  lemma WriteIsReadBackExactly(c: Codec, es: seq<Entry>, test: Test)
    requires Lawful(c) && Entries(c, es) && NoCollision(c, es + [Note(test)])
    ensures ReadFrom(c, Reader(map[], map[]), RowsOf(c, es + [Note(test)])).Some?
    ensures var read := ReadFrom(c, Reader(map[], map[]), RowsOf(c, es + [Note(test)])).value.tests;
      (test.plan.id in read && read[test.plan.id] == test)
      <==> (Note(test) !in es || (test.plan.id in NotesOf(es) && NotesOf(es)[test.plan.id] == test))
  {
    var all := es + [Note(test)];
    assert Entries(c, all) by {
      forall e | e in all && e.Noise? ensures IsNoise(c, e.row) {
        assert e in es;
      }
    }
    JournalRoundTrip(c, all);
    assert all[..|all| - 1] == es;
  }

  /** Writing a snapshot, a different one of the same test and the first again: the reader finds the second. */
  lemma RewindIsLost(c: Codec, a: Test, b: Test)
    requires Lawful(c) && a != b && a.plan.id == b.plan.id && NoCollision(c, [Note(a), Note(b), Note(a)])
    ensures ReadFrom(c, Reader(map[], map[]), RowsOf(c, [Note(a), Note(b), Note(a)]))
         == Some(Reader(map[a.plan.id := b], map[]))
  {
    var es := [Note(a), Note(b), Note(a)];
    JournalRoundTrip(c, es);
    assert es[..2] == [Note(a), Note(b)] && es[..2][..1] == [Note(a)] && [Note(a)][..0] == [];
    assert NotesOf([Note(a)]) == map[a.plan.id := a];
    assert NotesOf(es) == map[a.plan.id := b];
  }

  // ---------------------------------------------------------------- Expert calls never rewind

  /** Every snapshot in the journal is the current one of its test or an earlier stage of it. */
  ghost predicate Forward(es: seq<Entry>) {
    forall t :: Note(t) in es ==>
      t.plan.id in NotesOf(es)
      && (t == NotesOf(es)[t.plan.id] || Rank(t.status) < Rank(NotesOf(es)[t.plan.id].status))
  }

  /** What an Expert call may do to a test: create it, or complete one that was not done. */
  ghost predicate Progress(before: map<string, Test>, after: map<string, Test>, changed: seq<string>) {
    && (forall k :: k in changed ==> k in after)
    && (forall k :: k in before ==> k in after)
    && (forall k :: k in after ==> k in changed || (k in before && after[k] == before[k]))
    && (forall k :: k in changed && k in before ==> Rank(before[k].status) < Rank(after[k].status))
  }

  ghost predicate OnlyForward(before: map<string, Test>, after: map<string, Test>) {
    forall k :: k in before ==> k in after && (after[k] == before[k] || Rank(before[k].status) < Rank(after[k].status))
  }

  lemma PlanProgress(rules: Rules, known: set<string>, tests: map<string, Test>, request: ExpertRequest)
    requires TestsOk(known, tests)
    requires BindDrafts(rules, tests, request, request.tests, [], map[]).Ok?
    requires AddTests(known, tests, [], BindDrafts(rules, tests, request, request.tests, [], map[]).value.0,
                      Some(request.order), request.record.Some?).Ok?
    ensures var bound := BindDrafts(rules, tests, request, request.tests, [], map[]).value;
      var grown := AddTests(known, tests, [], bound.0, Some(request.order), request.record.Some?).value;
      Progress(tests, Named(grown.0, grown.1, bound.1), grown.1)
  {
    var bound := BindDrafts(rules, tests, request, request.tests, [], map[]).value;
    AddTestsKeeps(known, tests, [], bound.0, Some(request.order), request.record.Some?);
  }

  lemma RecordProgress(
      rules: Rules, world: World, tests: map<string, Test>, request: ExpertRequest, localId: string,
      result: TestResult)
    requires RecordOwn(rules, world, tests, request, localId, result).Ok?
    ensures var r := RecordOwn(rules, world, tests, request, localId, result).value;
      Progress(tests, r.0, r.1)
  {
  }

  lemma ProgressJoins(
      a: map<string, Test>, b: map<string, Test>, c: map<string, Test>, ab: seq<string>, bc: seq<string>)
    requires Progress(a, b, ab) && Progress(b, c, bc)
    ensures Progress(a, c, ab + bc)
  {
  }

  lemma ExpertProgress(rules: Rules, world: World, known: set<string>, tests: map<string, Test>, request: ExpertRequest)
    requires TestsOk(known, tests)
    requires ExpertFacts(rules, world, known, tests, request).Ok?
    ensures var facts := ExpertFacts(rules, world, known, tests, request).value;
      Progress(tests, facts.0, facts.1)
  {
    PlanProgress(rules, known, tests, request);
    var bound := BindDrafts(rules, tests, request, request.tests, [], map[]).value;
    var grown := AddTests(known, tests, [], bound.0, Some(request.order), request.record.Some?).value;
    var named := Named(grown.0, grown.1, bound.1);
    if request.record.Some? {
      RecordProgress(rules, world, named, request, request.record.value.0, request.record.value.1);
      var recorded := RecordOwn(rules, world, named, request, request.record.value.0, request.record.value.1).value;
      ProgressJoins(tests, named, recorded.0, grown.1, recorded.1);
    }
  }

  /** The tests a list of ids names. */
  function Chosen(after: map<string, Test>, ids: seq<string>): map<string, Test>
    requires forall k :: k in ids ==> k in after
  {
    map k | k in ids :: after[k]
  }

  /** The snapshots to be written are keyed by their own ids, and the journal holds none of them. */
  ghost predicate Fresh(es: seq<Entry>, after: map<string, Test>, ids: seq<string>) {
    forall k :: k in ids ==> k in after && after[k].plan.id == k && Note(after[k]) !in es
  }

  lemma NoteEntryAt(after: map<string, Test>, ids: seq<string>, e: Entry)
    requires (forall k :: k in ids ==> k in after) && e in NoteEntries(after, ids)
    ensures exists k :: k in ids && e == Note(after[k])
  {
    var i :| 0 <= i < |ids| && NoteEntries(after, ids)[i] == e;
    assert ids[i] in ids;
  }

  lemma OneMoreNote(es: seq<Entry>, test: Test)
    requires Note(test) !in es
    ensures NotesOf(es + [Note(test)]) == NotesOf(es)[test.plan.id := test]
  {
    assert (es + [Note(test)])[..|es|] == es;
  }

  lemma FreshSplits(es: seq<Entry>, after: map<string, Test>, front: seq<string>, last: string)
    requires Fresh(es, after, front + [last]) && last !in front
    ensures Fresh(es, after, front) && last in after && after[last].plan.id == last
    ensures Note(after[last]) !in es + NoteEntries(after, front)
    ensures NoteEntries(after, front + [last]) == NoteEntries(after, front) + [Note(after[last])]
    ensures Chosen(after, front + [last]) == Chosen(after, front)[last := after[last]]
  {
    var ids := front + [last];
    assert ids[|front|] == last;
    assert forall k :: k in front ==> k in ids;
    if Note(after[last]) in NoteEntries(after, front) {
      NoteEntryAt(after, front, Note(after[last]));
    }
  }

  lemma NotesExtend(es: seq<Entry>, more: seq<Entry>, test: Test)
    requires Note(test) !in es + more
    ensures NotesOf(es + (more + [Note(test)])) == NotesOf(es + more)[test.plan.id := test]
  {
    assert es + (more + [Note(test)]) == (es + more) + [Note(test)];
    OneMoreNote(es + more, test);
  }

  lemma MapUpdate(a: map<string, Test>, b: map<string, Test>, k: string, t: Test)
    ensures (a + b)[k := t] == a + b[k := t]
  {
  }

  lemma {:induction false} NotesOfAppend(es: seq<Entry>, after: map<string, Test>, ids: seq<string>)
    requires NoDup(ids) && Fresh(es, after, ids)
    ensures NotesOf(es + NoteEntries(after, ids)) == NotesOf(es) + Chosen(after, ids)
    decreases |ids|
  {
    if ids == [] {
      assert es + NoteEntries(after, ids) == es;
    } else {
      var front, last := ids[..|ids| - 1], ids[|ids| - 1];
      assert ids == front + [last];
      FreshSplits(es, after, front, last);
      NotesOfAppend(es, after, front);
      NotesExtend(es, NoteEntries(after, front), after[last]);
      MapUpdate(NotesOf(es), Chosen(after, front), last, after[last]);
    }
  }

  lemma DedupElements(s: seq<string>)
    ensures forall k :: k in Dedup(s) <==> k in s
  {
    assert forall k :: k in s <==> k in Elements(s);
    assert forall k :: k in Dedup(s) <==> k in Elements(Dedup(s));
  }

  lemma NewSnapshots(es: seq<Entry>, after: map<string, Test>, changed: seq<string>)
    requires Forward(es) && TestsOk({}, after) && Progress(NotesOf(es), after, changed)
    ensures Fresh(es, after, Dedup(changed))
    ensures NotesOf(es) + Chosen(after, Dedup(changed)) == after
  {
    DedupElements(changed);
    forall k | k in Dedup(changed)
      ensures k in after && after[k].plan.id == k && Note(after[k]) !in es
    {
      assert k in changed;
      assert TestOk({}, k, after[k]);
    }
  }

  /** Without a tree, an Expert call leaves in the journal exactly the tests it computed: the next
      call reads back every plan and every result, and no later write is ever a rewind. */
  lemma ExpertNotesAreDurable(rules: Rules, world: World, c: Codec, es: seq<Entry>, request: ExpertRequest)
    requires Lawful(c) && Entries(c, es) && Forward(es) && TestsOk({}, NotesOf(es))
    requires ExpertFacts(rules, world, {}, NotesOf(es), request).Ok?
    ensures var r := ExpertNotes(rules, world, NotesOf(es), request);
      && r.Ok? && Forward(es + r.value.0) && TestsOk({}, r.value.1) && Entries(c, es + r.value.0)
      && NotesOf(es + r.value.0) == r.value.1
      && (NoCollision(c, es + r.value.0) ==>
            ReadFrom(c, Reader(map[], map[]), RowsOf(c, es + r.value.0)) == Some(Reader(r.value.1, map[])))
  {
    ExpertProgress(rules, world, {}, NotesOf(es), request);
    ExpertFactsKeep(rules, world, {}, NotesOf(es), request);
    var facts := ExpertFacts(rules, world, {}, NotesOf(es), request).value;
    NotesGrow(c, es, facts.0, facts.1);
    if NoCollision(c, es + NoteEntries(facts.0, Dedup(facts.1))) {
      JournalRoundTrip(c, es + NoteEntries(facts.0, Dedup(facts.1)));
    }
  }

  lemma NotesGrow(c: Codec, es: seq<Entry>, after: map<string, Test>, changed: seq<string>)
    requires Entries(c, es) && Forward(es) && TestsOk({}, after) && Progress(NotesOf(es), after, changed)
    ensures forall k :: k in Dedup(changed) ==> k in after
    ensures var all := es + NoteEntries(after, Dedup(changed));
      Entries(c, all) && Forward(all) && NotesOf(all) == after
  {
    NewSnapshots(es, after, changed);
    NotesOfAppend(es, after, Dedup(changed));
    EntriesGrow(c, es, after, Dedup(changed));
    ForwardGrows(es, es + NoteEntries(after, Dedup(changed)), after, Dedup(changed));
  }

  lemma EntriesGrow(c: Codec, es: seq<Entry>, after: map<string, Test>, ids: seq<string>)
    requires Entries(c, es) && forall k :: k in ids ==> k in after
    ensures Entries(c, es + NoteEntries(after, ids))
  {
    forall e | e in es + NoteEntries(after, ids) && e.Noise? ensures IsNoise(c, e.row) {
      if e !in es {
        NoteEntryAt(after, ids, e);
      }
    }
  }

  lemma ForwardGrows(es: seq<Entry>, all: seq<Entry>, after: map<string, Test>, ids: seq<string>)
    requires Forward(es) && forall k :: k in ids ==> k in after && after[k].plan.id == k
    requires all == es + NoteEntries(after, ids) && NotesOf(all) == after
    requires OnlyForward(NotesOf(es), after)
    ensures Forward(all)
  {
    forall t | Note(t) in all
      ensures t.plan.id in after && (t == after[t.plan.id] || Rank(t.status) < Rank(after[t.plan.id].status))
    {
      if Note(t) !in es {
        NoteEntryAt(after, ids, Note(t));
      }
    }
  }

  // ---------------------------------------------------------------- whole histories of one WorkOrder

  /** What may reach the journal: a row of another kind, or an Expert call without a tree. */
  datatype JournalCall = Foreign(row: string) | Work(world: World, request: ExpertRequest)

  /** The writes to the journal after these calls; each call reads the rows it finds. */
  function WritesOf(rules: Rules, c: Codec, calls: seq<JournalCall>): seq<Entry> {
    if calls == [] then []
    else
      var es := WritesOf(rules, c, calls[..|calls| - 1]);
      match calls[|calls| - 1]
      case Foreign(row) => es + [Noise(row)]
      case Work(world, request) =>
        var outcome := NoTreeCall(rules, c, world, RowsOf(c, es), request);
        if outcome.Ok? then es + outcome.value.0 else es
  }

  /** The same calls on a plain table of tests, without any journal. */
  function TestsAfter(rules: Rules, calls: seq<JournalCall>): map<string, Test> {
    if calls == [] then map[]
    else
      var tests := TestsAfter(rules, calls[..|calls| - 1]);
      match calls[|calls| - 1]
      case Foreign(_) => tests
      case Work(world, request) =>
        var facts := ExpertFacts(rules, world, {}, tests, request);
        if facts.Ok? then facts.value.0 else tests
  }

  ghost predicate ForeignRows(c: Codec, calls: seq<JournalCall>) {
    forall call :: call in calls && call.Foreign? ==> IsNoise(c, call.row)
  }

  /** The journal holds exactly these tests, and no write so far was a rewind. */
  ghost predicate Holds(c: Codec, es: seq<Entry>, tests: map<string, Test>) {
    Entries(c, es) && Forward(es) && TestsOk({}, tests) && NotesOf(es) == tests
  }

  lemma NoiseHolds(c: Codec, es: seq<Entry>, tests: map<string, Test>, row: string)
    requires Holds(c, es, tests) && IsNoise(c, row)
    ensures Holds(c, es + [Noise(row)], tests)
  {
    assert (es + [Noise(row)])[..|es|] == es;
  }

  lemma WorkHolds(
      rules: Rules, c: Codec, es: seq<Entry>, tests: map<string, Test>, world: World, request: ExpertRequest)
    requires Lawful(c) && Holds(c, es, tests) && NoCollision(c, es)
    ensures var outcome := NoTreeCall(rules, c, world, RowsOf(c, es), request);
      var facts := ExpertFacts(rules, world, {}, tests, request);
      && (outcome.Ok? <==> facts.Ok?)
      && (outcome.Ok? ==> Holds(c, es + outcome.value.0, facts.value.0))
  {
    JournalRoundTrip(c, es);
    if ExpertFacts(rules, world, {}, tests, request).Ok? {
      ExpertNotesAreDurable(rules, world, c, es, request);
    }
  }

  lemma FewerCollisions(c: Codec, es: seq<Entry>, more: seq<Entry>)
    requires NoCollision(c, es + more)
    ensures NoCollision(c, es)
  {
    forall a, b | Note(a) in es && Note(b) in es && c.sha(c.dumps(Fact(a))) == c.sha(c.dumps(Fact(b))) ensures a == b {
      assert Note(a) in es + more && Note(b) in es + more;
    }
  }

  lemma {:induction false} JournalHolds(rules: Rules, c: Codec, calls: seq<JournalCall>)
    requires Lawful(c) && ForeignRows(c, calls) && NoCollision(c, WritesOf(rules, c, calls))
    ensures Holds(c, WritesOf(rules, c, calls), TestsAfter(rules, calls))
  {
    if calls != [] {
      var front, last := calls[..|calls| - 1], calls[|calls| - 1];
      var es := WritesOf(rules, c, front);
      assert NoCollision(c, es) by {
        if WritesOf(rules, c, calls) != es {
          FewerCollisions(c, es, WritesOf(rules, c, calls)[|es|..]);
          assert es + WritesOf(rules, c, calls)[|es|..] == WritesOf(rules, c, calls);
        }
      }
      JournalHolds(rules, c, front);
      match last
      case Foreign(row) => NoiseHolds(c, es, TestsAfter(rules, front), row);
      case Work(world, request) => WorkHolds(rules, c, es, TestsAfter(rules, front), world, request);
    }
  }

  /** From the empty journal, through any mix of Expert calls and rows of other kinds, the journal is as
      good as a table of tests: what is read next is exactly what the calls made of such a table. */
  lemma JournalIsATable(rules: Rules, c: Codec, calls: seq<JournalCall>)
    requires Lawful(c) && ForeignRows(c, calls) && NoCollision(c, WritesOf(rules, c, calls))
    ensures ReadFrom(c, Reader(map[], map[]), RowsOf(c, WritesOf(rules, c, calls)))
         == Some(Reader(TestsAfter(rules, calls), map[]))
  {
    JournalHolds(rules, c, calls);
    JournalRoundTrip(c, WritesOf(rules, c, calls));
  }
}
