/** Which artifacts a portable export contains (src/oceanx/exports.py): the closure of the requested
    ones under intrinsic links, in order of id and version. */
module ExportClosure {
  import opened Common

  datatype Ref = Ref(id: string, version: int)
  datatype Link = Link(target: Ref, intrinsic: bool)

  /** The artifacts of the workspace and their outgoing links; cycles and repeated links are allowed. */
  datatype Store = Store(artifacts: set<Ref>, links: Ref -> seq<Link>)

  // ---------------------------------------------------------------- what is asked for

  ghost predicate Points(s: Store, a: Ref, b: Ref) {
    exists i :: 0 <= i < |s.links(a)| && s.links(a)[i] == Link(b, true)
  }

  ghost predicate IsPath(s: Store, path: seq<Ref>) {
    forall i :: 0 <= i < |path| - 1 ==> Points(s, path[i], path[i + 1])
  }

  ghost predicate PathTo(s: Store, roots: seq<Ref>, path: seq<Ref>, x: Ref) {
    |path| > 0 && path[0] in roots && path[|path| - 1] == x && IsPath(s, path)
  }

  ghost predicate Reachable(s: Store, roots: seq<Ref>, x: Ref) {
    exists path :: PathTo(s, roots, path, x)
  }

  // ---------------------------------------------------------------- the worklist

  function Targets(links: seq<Link>): (ts: seq<Ref>)
    ensures forall t :: t in ts <==> exists i :: 0 <= i < |links| && links[i] == Link(t, true)
  {
    if links == [] then []
    else
      var front := Targets(links[..|links| - 1]);
      assert links == links[..|links| - 1] + [links[|links| - 1]];
      if links[|links| - 1].intrinsic then front + [links[|links| - 1].target] else front
  }

  /** What is waiting or selected can be reached, and nothing that a selected artifact needs is forgotten. */
  ghost predicate Progressing(s: Store, roots: seq<Ref>, pending: seq<Ref>, selected: seq<Ref>) {
    && NoDup(selected) && (forall x :: x in selected ==> x in s.artifacts)
    && (forall x :: x in pending || x in selected ==> Reachable(s, roots, x))
    && (forall x :: x in roots ==> x in pending || x in selected)
    && (forall x, y :: x in selected && Points(s, x, y) ==> y in pending || y in selected)
  }

  lemma RootIsReachable(s: Store, roots: seq<Ref>, x: Ref)
    requires x in roots
    ensures Reachable(s, roots, x)
  {
    assert PathTo(s, roots, [x], x);
  }

  lemma NextIsReachable(s: Store, roots: seq<Ref>, x: Ref, y: Ref)
    requires Reachable(s, roots, x) && Points(s, x, y)
    ensures Reachable(s, roots, y)
  {
    var path :| PathTo(s, roots, path, x);
    assert PathTo(s, roots, path + [y], y);
  }

  lemma ExpandKeeps(s: Store, roots: seq<Ref>, pending: seq<Ref>, selected: seq<Ref>)
    requires Progressing(s, roots, pending, selected) && pending != []
    ensures var rest, ref := pending[..|pending| - 1], pending[|pending| - 1];
      && (ref in selected ==> Progressing(s, roots, rest, selected))
      && (ref !in selected && ref in s.artifacts ==>
            Progressing(s, roots, rest + Targets(s.links(ref)), selected + [ref]))
  {
    var rest, ref := pending[..|pending| - 1], pending[|pending| - 1];
    assert pending == rest + [ref];
    if ref !in selected && ref in s.artifacts {
      var more, chosen := rest + Targets(s.links(ref)), selected + [ref];
      forall x | x in more || x in chosen ensures Reachable(s, roots, x) {
        if x !in pending && x !in selected {
          NextIsReachable(s, roots, ref, x);
        }
      }
      forall x, y | x in chosen && Points(s, x, y) ensures y in more || y in chosen {
        assert x in selected ==> y in pending || y in selected;
        assert x == ref ==> y in Targets(s.links(ref));
      }
    }
  }

  lemma {:induction false} ClosedHoldsPath(s: Store, roots: seq<Ref>, selected: seq<Ref>, path: seq<Ref>, x: Ref)
    requires Progressing(s, roots, [], selected) && PathTo(s, roots, path, x)
    ensures x in selected
    decreases |path|
  {
    if |path| > 1 {
      var front := path[..|path| - 1];
      assert PathTo(s, roots, front, front[|front| - 1]);
      ClosedHoldsPath(s, roots, selected, front, front[|front| - 1]);
      assert Points(s, path[|path| - 2], path[|path| - 1]);
    }
  }

  /** With nothing waiting, the selection is exactly what can be reached. */
  lemma ClosedIsExact(s: Store, roots: seq<Ref>, selected: seq<Ref>)
    requires Progressing(s, roots, [], selected)
    ensures forall x :: x in selected <==> Reachable(s, roots, x)
  {
    forall x | Reachable(s, roots, x) ensures x in selected {
      var path :| PathTo(s, roots, path, x);
      ClosedHoldsPath(s, roots, selected, path, x);
    }
  }

  lemma MoreSelected(s: Store, selected: seq<Ref>, ref: Ref)
    requires ref in s.artifacts && ref !in selected
    ensures |s.artifacts - Elements(selected + [ref])| < |s.artifacts - Elements(selected)|
  {
    var left := s.artifacts - Elements(selected);
    assert s.artifacts - Elements(selected + [ref]) == left - {ref};
    assert ref in left;
  }

  /** Select the closure, or fail with a reachable artifact that does not exist. */
  method SelectRefs(s: Store, requested: Option<seq<Ref>>, summaries: seq<Ref>) returns (r: Result<seq<Ref>, Ref>)
    ensures var roots := if requested.Some? then requested.value else summaries;
      && (r.Ok? <==> forall x :: Reachable(s, roots, x) ==> x in s.artifacts)
      && (r.Ok? ==> Ascending(r.value) && forall x :: x in r.value <==> Reachable(s, roots, x))
      && (r.Err? ==> Reachable(s, roots, r.error) && r.error !in s.artifacts)
  {
    var roots := if requested.Some? then requested.value else summaries;
    var pending, selected := roots, [];
    forall x | x in roots ensures Reachable(s, roots, x) {
      RootIsReachable(s, roots, x);
    }
    while pending != []
      invariant Progressing(s, roots, pending, selected)
      decreases |s.artifacts - Elements(selected)|, |pending|
    {
      ExpandKeeps(s, roots, pending, selected);
      var ref := pending[|pending| - 1];
      assert ref in pending;
      pending := pending[..|pending| - 1];
      if ref in selected {
        continue;
      }
      if ref !in s.artifacts {
        return Err(ref);
      }
      MoreSelected(s, selected, ref);
      selected := selected + [ref];
      pending := pending + Targets(s.links(ref));
    }
    ClosedIsExact(s, roots, selected);
    SortedRefs(selected);
    return Ok(SortRefs(selected));
  }

  // ---------------------------------------------------------------- the order

  predicate Before(a: Ref, b: Ref) {
    Less(a.id, b.id) || (a.id == b.id && a.version < b.version)
  }

  /** Ids in the order of their code points, and versions of one id by number. */
  lemma BeforeExactly(a: Ref, b: Ref)
    ensures Before(a, b) <==>
      (exists i :: 0 <= i <= |a.id| && SmallerAt(a.id, b.id, i)) || (a.id == b.id && a.version < b.version)
  {
    LessExactly(a.id, b.id);
  }

  /** Strictly ascending, so without duplicates. */
  ghost predicate Ascending(s: seq<Ref>) {
    forall i, j :: 0 <= i < j < |s| ==> Before(s[i], s[j])
  }

  function InsertRef(x: Ref, sorted: seq<Ref>): (out: seq<Ref>)
    ensures forall y :: y in out <==> y == x || y in sorted
  {
    if sorted == [] || Before(x, sorted[0]) then [x] + sorted else [sorted[0]] + InsertRef(x, sorted[1..])
  }

  function SortRefs(s: seq<Ref>): (out: seq<Ref>)
    ensures forall y :: y in out <==> y in s
  {
    if s == [] then [] else InsertRef(s[0], SortRefs(s[1..]))
  }

  lemma BeforeTransitive(a: Ref, b: Ref, c: Ref)
    requires Before(a, b) && Before(b, c)
    ensures Before(a, c)
  {
    LessTransitive(a.id, b.id, c.id);
  }

  lemma {:induction false} InsertKeepsOrder(x: Ref, sorted: seq<Ref>)
    requires Ascending(sorted) && x !in sorted
    ensures Ascending(InsertRef(x, sorted))
  {
    if sorted != [] {
      var first, rest := sorted[0], sorted[1..];
      LessTotal(x.id, first.id);
      forall y | y in rest ensures Before(first, y) {
        var i :| 0 <= i < |rest| && rest[i] == y;
        assert sorted[i + 1] == y;
      }
      if Before(x, first) {
        forall y | y in rest ensures Before(x, y) {
          BeforeTransitive(x, first, y);
        }
      } else {
        InsertKeepsOrder(x, rest);
        var out := InsertRef(x, rest);
        forall i | 0 <= i < |out| ensures Before(first, out[i]) {
          assert out[i] in out;
        }
      }
    }
  }

  /** Sorting distinct refs makes them ascend. */
  lemma {:induction false} SortedRefs(s: seq<Ref>)
    requires NoDup(s)
    ensures Ascending(SortRefs(s))
  {
    if s != [] {
      SortedRefs(s[1..]);
      assert s[0] !in s[1..];
      InsertKeepsOrder(s[0], SortRefs(s[1..]));
    }
  }
}
