/** Small datatypes and sequence facts shared by every module of the project. */
module Common {

  datatype Option<+T> = None | Some(value: T)

  datatype Result<+T, +E> = Ok(value: T) | Err(error: E) {
    predicate IsFailure() {
      Err?
    }

    function PropagateFailure<U>(): Result<U, E>
      requires Err?
    {
      Err(error)
    }

    function Extract(): T
      requires Ok?
    {
      value
    }
  }

  ghost predicate NoDup<T>(s: seq<T>) {
    forall i, j :: 0 <= i < j < |s| ==> s[i] != s[j]
  }

  function Elements<T>(s: seq<T>): set<T> {
    set x | x in s
  }

  lemma TakeOneMore<T>(s: seq<T>, i: nat)
    requires i < |s|
    ensures s[..i + 1] == s[..i] + [s[i]]
    ensures i + 1 == |s| ==> s[..i + 1] == s
  {
  }

  function FirstOf(w: string, sep: char): (i: nat)
    requires sep in w
    ensures i < |w| && w[i] == sep && forall j :: 0 <= j < i ==> w[j] != sep
  {
    if w[0] == sep then 0 else 1 + FirstOf(w[1..], sep)
  }

  function LastOf(w: string, sep: char): (i: nat)
    requires sep in w
    ensures i < |w| && w[i] == sep && forall j :: i < j < |w| ==> w[j] != sep
  {
    if w[|w| - 1] == sep then |w| - 1 else LastOf(w[..|w| - 1], sep)
  }

  lemma FirstOfAt(a: string, b: string, sep: char)
    requires sep !in a
    ensures sep in a + [sep] + b && FirstOf(a + [sep] + b, sep) == |a|
  {
    var w := a + [sep] + b;
    assert w[|a|] == sep;
    assert forall j :: 0 <= j < |a| ==> w[j] == a[j];
  }

  lemma LastOfAt(a: string, b: string, sep: char)
    requires sep !in b
    ensures sep in a + [sep] + b && LastOf(a + [sep] + b, sep) == |a|
  {
    var w := a + [sep] + b;
    assert w[|a|] == sep;
    assert forall j :: |a| < j < |w| ==> w[j] == b[j - |a| - 1];
  }

  lemma CutAt(a: string, b: string, sep: char)
    ensures (a + [sep] + b)[..|a|] == a && (a + [sep] + b)[|a| + 1..] == b
  {
  }

  /** A text splits at its first separator in one way only, and at its last one as well. */
  lemma SeparatorsAreUnique(a: string, b: string, a': string, b': string, sep: char)
    requires a + [sep] + b == a' + [sep] + b'
    requires (sep !in a && sep !in a') || (sep !in b && sep !in b')
    ensures a == a' && b == b'
  {
    if sep !in a && sep !in a' {
      FirstOfAt(a, b, sep);
      FirstOfAt(a', b', sep);
    } else {
      LastOfAt(a, b, sep);
      LastOfAt(a', b', sep);
    }
    CutAt(a, b, sep);
    CutAt(a', b', sep);
  }

  /** `list(dict.fromkeys(s))`: the first occurrence of each element, in order. */
  function Dedup<T(==)>(s: seq<T>): (d: seq<T>)
    ensures NoDup(d)
    ensures Elements(d) == Elements(s)
    ensures NoDup(s) ==> d == s
  {
    if s == [] then
      []
    else
      var last := s[|s| - 1];
      var front := Dedup(s[..|s| - 1]);
      assert s == s[..|s| - 1] + [last];
      var d := if last in front then front else front + [last];
      assert Elements(d) == Elements(s) by {
        assert Elements(s) == Elements(s[..|s| - 1]) + {last};
        assert Elements(front + [last]) == Elements(front) + {last};
      }
      d
  }

  lemma NoDupSize<T>(s: seq<T>)
    requires NoDup(s)
    ensures |Elements(s)| == |s|
  {
    if s == [] {
    } else {
      NoDupSize(s[1..]);
      assert Elements(s) == {s[0]} + Elements(s[1..]);
    }
  }

  lemma SubsetSize<T>(a: set<T>, b: set<T>)
    requires a <= b
    ensures |a| <= |b|
  {
    if a != {} {
      var x :| x in a;
      SubsetSize(a - {x}, b - {x});
    }
  }

  lemma OtherElement<T(!new)>(s: set<T>, k: T)
    ensures |s| >= 2 ==> exists x :: x in s && x != k
  {
    if |s| >= 2 {
      var rest := s - {k};
      assert s <= rest + {k};
      SubsetSize(s, rest + {k});
      var x :| x in rest;
    }
  }

  /** Code-point order, as Python compares strings. */
  predicate Less(a: string, b: string) {
    b != [] && (a == [] || a[0] < b[0] || (a[0] == b[0] && Less(a[1..], b[1..])))
  }

  /** At the first position where the texts differ, `a` has the smaller code point, or has ended. */
  ghost predicate SmallerAt(a: string, b: string, i: nat) {
    i <= |a| && i < |b| && a[..i] == b[..i] && (i < |a| ==> a[i] < b[i])
  }

  lemma {:induction false} LessExactly(a: string, b: string)
    ensures Less(a, b) <==> exists i :: 0 <= i <= |a| && SmallerAt(a, b, i)
  {
    if a == [] || b == [] || a[0] != b[0] {
      assert b != [] ==> (SmallerAt(a, b, 0) <==> Less(a, b));
      forall i | 0 < i <= |a| ensures !SmallerAt(a, b, i) {
        assert b != [] && i < |b| ==> a[..i][0] != b[..i][0];
      }
    } else {
      LessExactly(a[1..], b[1..]);
      forall i | 0 <= i <= |a[1..]| ensures SmallerAt(a, b, i + 1) <==> SmallerAt(a[1..], b[1..], i) {
        SmallerLater(a, b, i);
      }
      if Less(a, b) {
        var i :| 0 <= i <= |a[1..]| && SmallerAt(a[1..], b[1..], i);
        assert SmallerAt(a, b, i + 1);
      }
      if i :| 0 <= i <= |a| && SmallerAt(a, b, i) {
        assert i > 0 && SmallerAt(a[1..], b[1..], i - 1);
      }
    }
  }

  lemma SmallerLater(a: string, b: string, i: nat)
    requires a != [] && b != [] && a[0] == b[0]
    ensures SmallerAt(a, b, i + 1) <==> SmallerAt(a[1..], b[1..], i)
  {
    if i < |a| && i + 1 < |b| {
      assert a[..i + 1] == [a[0]] + a[1..][..i] && b[..i + 1] == [b[0]] + b[1..][..i];
      assert a[..i + 1][1..] == a[1..][..i] && b[..i + 1][1..] == b[1..][..i];
    }
  }

  lemma {:induction false} LessTotal(a: string, b: string)
    ensures Less(a, b) || a == b || Less(b, a)
  {
    if a != [] && b != [] && a[0] == b[0] {
      LessTotal(a[1..], b[1..]);
      assert a == [a[0]] + a[1..] && b == [b[0]] + b[1..];
    }
  }

  lemma {:induction false} LessTransitive(a: string, b: string, c: string)
    ensures Less(a, b) && Less(b, c) ==> Less(a, c)
  {
    if a != [] && b != [] && c != [] {
      LessTransitive(a[1..], b[1..], c[1..]);
    }
  }

  /** Strictly ascending, so without duplicates. */
  ghost predicate StringsAscend(s: seq<string>) {
    forall i, j :: 0 <= i < j < |s| ==> Less(s[i], s[j])
  }

  function InsertString(x: string, sorted: seq<string>): (out: seq<string>)
    ensures forall y :: y in out <==> y == x || y in sorted
  {
    if sorted == [] || !Less(sorted[0], x) then [x] + sorted
    else [sorted[0]] + InsertString(x, sorted[1..])
  }

  function SortStrings(s: seq<string>): (out: seq<string>)
    ensures forall y :: y in out <==> y in s
  {
    if s == [] then [] else InsertString(s[0], SortStrings(s[1..]))
  }

  lemma {:induction false} InsertStringKeepsOrder(x: string, sorted: seq<string>)
    requires StringsAscend(sorted) && x !in sorted
    ensures StringsAscend(InsertString(x, sorted))
  {
    if sorted != [] {
      var first, rest := sorted[0], sorted[1..];
      LessTotal(x, first);
      forall y | y in rest ensures Less(first, y) {
        var i :| 0 <= i < |rest| && rest[i] == y;
        assert sorted[i + 1] == y;
      }
      if !Less(first, x) {
        forall y | y in rest ensures Less(x, y) {
          LessTransitive(x, first, y);
        }
      } else {
        InsertStringKeepsOrder(x, rest);
        var out := InsertString(x, rest);
        forall i | 0 <= i < |out| ensures Less(first, out[i]) {
          assert out[i] in out;
        }
      }
    }
  }

  /** Sorting distinct texts makes them ascend. */
  lemma {:induction false} SortedStrings(s: seq<string>)
    requires NoDup(s)
    ensures StringsAscend(SortStrings(s))
  {
    if s != [] {
      SortedStrings(s[1..]);
      assert s[0] !in s[1..];
      InsertStringKeepsOrder(s[0], SortStrings(s[1..]));
    }
  }

  /** `Dedup` keeps first occurrences: what comes later only adds to the end. */
  lemma {:induction false} DedupPrefix<T>(a: seq<T>, b: seq<T>)
    ensures Dedup(a) <= Dedup(a + b)
  {
    if b == [] {
      assert a + b == a;
    } else {
      DedupPrefix(a, b[..|b| - 1]);
      assert (a + b)[..|a + b| - 1] == a + b[..|b| - 1];
    }
  }
}
