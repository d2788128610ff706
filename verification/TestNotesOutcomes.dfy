/** The rows of a snapshot, and what the reader makes of a single row, told from the row alone. */
module TestNotesOutcomes {
  import opened Common
  import opened ResearchTree
  import opened TestNotes

  // ---------------------------------------------------------------- writing

  /** The part of a text that stands in chunk number `i`. */
  function PartOf(s: string, i: nat): string
    requires 3000 * i < |s|
  {
    if 3000 * i + 3000 <= |s| then s[3000 * i..3000 * i + 3000] else s[3000 * i..]
  }

  lemma {:induction false} PiecesAreParts(s: string, i: nat)
    ensures |Pieces(s)| == (|s| + 2999) / 3000
    ensures i < |Pieces(s)| ==> 3000 * i < |s| && Pieces(s)[i] == PartOf(s, i)
    decreases |s|
  {
    if |s| > 3000 {
      PiecesAreParts(s[3000..], if i > 0 then i - 1 else 0);
      if 0 < i < |Pieces(s)| {
        PartLater(s, i);
      }
    }
  }

  lemma PartLater(s: string, i: nat)
    requires i > 0 && 3000 * i < |s|
    ensures PartOf(s[3000..], i - 1) == PartOf(s, i)
  {
    assert 3000 * (i - 1) + 3000 == 3000 * i;
  }

  /** A snapshot of at most 8000 characters is one row. A longer one is cut into parts of 3000 characters, the
      last one shorter, each a row that says which snapshot, which part, and of how many. */
  lemma StatementsExactly(c: Codec, test: Test, i: nat)
    ensures var encoded, rows := c.dumps(Fact(test)), Statements(c, test);
      && (|encoded| <= 8000 ==> rows == [encoded])
      && (|encoded| > 8000 ==>
            && |rows| == (|encoded| + 2999) / 3000
            && (i < |rows| ==>
                  && 3000 * i < |encoded|
                  && rows[i] == c.dumps(Chunk(Some(c.sha(encoded)), Some(i), Some(|rows|),
                                              Some(PartOf(encoded, i))))))
  {
    PiecesAreParts(c.dumps(Fact(test)), i);
  }

  /** A row that the table holds is not written again; any other one comes last. */
  lemma InsertExactly(rows: seq<string>, row: string)
    ensures row in rows ==> Insert(rows, row) == rows
    ensures row !in rows ==> Insert(rows, row) == rows + [row]
  {
  }

  // ---------------------------------------------------------------- reading

  /** The row is a part of a snapshot: it names the snapshot and its text, and its number is in range. */
  ghost predicate IsPart(p: Payload) {
    match p
    case Chunk(Some(_), Some(part), Some(total), Some(_)) => 0 <= part && part < total
    case _ => false
  }

  /** The parts of this snapshot once this one is there as well. */
  ghost function WithPart(r: Reader, p: Payload): map<int, string>
    requires IsPart(p)
  {
    var key := p.snapshot.value;
    (if key in r.chunks then r.chunks[key] else map[])[p.part.value := p.text.value]
  }

  /** The parts of a snapshot of `n` of them, joined. */
  ghost predicate Joins(pieces: map<int, string>, n: nat, text: string)
    decreases n
  {
    if n == 0 then text == ""
    else
      n - 1 in pieces && |pieces[n - 1]| <= |text|
      && text[|text| - |pieces[n - 1]|..] == pieces[n - 1]
      && Joins(pieces, n - 1, text[..|text| - |pieces[n - 1]|])
  }

  lemma {:induction false} AssembledJoins(pieces: map<int, string>, n: nat)
    requires forall i :: 0 <= i < n ==> i in pieces
    ensures Joins(pieces, n, Assemble(pieces, n))
  {
    if n > 0 {
      AssembledJoins(pieces, n - 1);
      var front, last := Assemble(pieces, n - 1), pieces[n - 1];
      assert (front + last)[..|front|] == front && (front + last)[|front|..] == last;
    }
  }

  /** The snapshot is whole: its parts are exactly those numbered below the total, and joined they have its
      digest. */
  ghost predicate WholeWith(c: Codec, r: Reader, p: Payload, text: string)
    requires IsPart(p)
  {
    var pieces, n := WithPart(r, p), p.total.value;
    && (forall k :: k in pieces <==> 0 <= k < n) && Joins(pieces, n, text) && c.sha(text) == p.snapshot.value
  }

  lemma JoinsOnce(pieces: map<int, string>, n: nat, a: string, b: string)
    requires Joins(pieces, n, a) && Joins(pieces, n, b)
    ensures a == b
  {
    if n > 0 {
      var p := pieces[n - 1];
      JoinsOnce(pieces, n - 1, a[..|a| - |p|], b[..|b| - |p|]);
      assert a == a[..|a| - |p|] + p && b == b[..|b| - |p|] + p;
    }
  }

  /** What a fact does: it is the test now. One without a usable id is an exception, and anything that is no
      object is, too, but only inside a snapshot. */
  ghost predicate Reads(p: Option<Payload>, r: Reader, after: Option<Reader>) {
    match p
    case Some(Fact(test)) => after == Some(r.(tests := r.tests[test.plan.id := test]))
    case Some(BrokenFact) => after == None
    case Some(NotObject) => after == None
    case None => after == None
    case _ => after == Some(r)
  }

  /** A part is kept until its snapshot is whole, which then is read in its place and forgotten. */
  ghost predicate PartRead(c: Codec, r: Reader, p: Payload, after: Option<Reader>)
    requires IsPart(p)
  {
    && ((forall text :: !WholeWith(c, r, p, text)) ==>
          after == Some(r.(chunks := r.chunks[p.snapshot.value := WithPart(r, p)])))
    && (forall text :: WholeWith(c, r, p, text) ==>
          Reads(c.loads(text), r.(chunks := r.chunks - {p.snapshot.value}), after))
  }

  /** A row that is no object is skipped, one that is a part of no snapshot is read as it stands. */
  ghost predicate RowRead(c: Codec, r: Reader, p: Option<Payload>, after: Option<Reader>) {
    if p.None? || p.value.NotObject? then after == Some(r)
    else if IsPart(p.value) then PartRead(c, r, p.value, after)
    else Reads(p, r, after)
  }

  lemma RowsAreReadExactly(c: Codec, r: Reader, row: string)
    ensures RowRead(c, r, c.loads(row), Absorb(c, r, row))
  {
    var p := c.loads(row);
    if p.Some? && IsPart(p.value) {
      PartIsRead(c, r, row, p.value);
    }
  }

  ghost function PartTable(r: Reader, p: Payload): Reader
    requires IsPart(p)
  {
    r.(chunks := r.chunks[p.snapshot.value := WithPart(r, p)])
  }

  lemma CompleteExactly(pieces: map<int, string>, n: nat)
    ensures Complete(pieces, n) <==> forall k :: k in pieces <==> 0 <= k < n
  {
  }

  lemma WholeExactly(c: Codec, r: Reader, p: Payload, text: string)
    requires IsPart(p)
    ensures var pieces, n := WithPart(r, p), p.total.value;
      WholeWith(c, r, p, text) <==>
      Complete(pieces, n) && text == Assemble(pieces, n) && c.sha(text) == p.snapshot.value
  {
    var pieces, n := WithPart(r, p), p.total.value;
    CompleteExactly(pieces, n);
    if Complete(pieces, n) {
      AssembledJoins(pieces, n);
      if Joins(pieces, n, text) {
        JoinsOnce(pieces, n, text, Assemble(pieces, n));
      }
    }
  }

  lemma PartWaits(c: Codec, r: Reader, row: string, p: Payload)
    requires c.loads(row) == Some(p) && IsPart(p)
    requires !Complete(WithPart(r, p), p.total.value)
             || c.sha(Assemble(WithPart(r, p), p.total.value)) != p.snapshot.value
    ensures Absorb(c, r, row) == Some(PartTable(r, p))
  {
  }

  lemma WholeIsRead(c: Codec, r: Reader, row: string, p: Payload)
    requires c.loads(row) == Some(p) && IsPart(p) && Complete(WithPart(r, p), p.total.value)
    requires c.sha(Assemble(WithPart(r, p), p.total.value)) == p.snapshot.value
    ensures Reads(c.loads(Assemble(WithPart(r, p), p.total.value)), r.(chunks := r.chunks - {p.snapshot.value}),
                  Absorb(c, r, row))
  {
    assert PartTable(r, p).chunks - {p.snapshot.value} == r.chunks - {p.snapshot.value};
  }

  lemma PartIsRead(c: Codec, r: Reader, row: string, p: Payload)
    requires c.loads(row) == Some(p) && IsPart(p)
    ensures PartRead(c, r, p, Absorb(c, r, row))
  {
    var pieces, n := WithPart(r, p), p.total.value;
    forall text
      ensures WholeWith(c, r, p, text) <==>
        Complete(pieces, n) && text == Assemble(pieces, n) && c.sha(text) == p.snapshot.value
    {
      WholeExactly(c, r, p, text);
    }
    if Complete(pieces, n) && c.sha(Assemble(pieces, n)) == p.snapshot.value {
      assert WholeWith(c, r, p, Assemble(pieces, n));
      WholeIsRead(c, r, row, p);
    } else {
      PartWaits(c, r, row, p);
    }
  }
}
