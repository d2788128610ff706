/**
  A tree stored as a dictionary: keys in insertion order, each key but the first naming its parent.
  Both research-tree protocols (src/oceanx/exploration.py, src/oceanx/exploration_legacy.py) store one.
 */
module RootedTree {
  import opened Common

  const ROOT := "root"

  datatype Shape = Shape(keys: seq<string>, parent: map<string, string>)

  /** The i-th key has a parent, stored before it. */
  ghost predicate Anchored(s: Shape, i: int)
    requires 0 <= i < |s.keys|
  {
    s.keys[i] in s.parent && s.parent[s.keys[i]] in s.keys[..i]
  }

  /** The root comes first, has no parent, and every other key names an earlier key as its parent. */
  ghost predicate Rooted(s: Shape) {
    && NoDup(s.keys) && |s.keys| > 0 && s.keys[0] == ROOT
    && (forall k :: k in s.parent ==> k in s.keys && k != ROOT)
    && (forall i {:trigger Anchored(s, i)} :: 0 < i < |s.keys| ==> Anchored(s, i))
  }

  /** Position of a key: the measure that every walk towards the root decreases. */
  function Index(keys: seq<string>, k: string): (i: nat)
    requires k in keys
    ensures i < |keys| && keys[i] == k
  {
    if keys[0] == k then 0 else 1 + Index(keys[1..], k)
  }

  lemma ParentIsEarlier(s: Shape, k: string)
    requires Rooted(s) && k in s.keys && k != ROOT
    ensures k in s.parent && s.parent[k] in s.keys
    ensures Index(s.keys, s.parent[k]) < Index(s.keys, k)
  {
    var i := Index(s.keys, k);
    assert Anchored(s, i);
    var j :| 0 <= j < i && s.keys[j] == s.parent[k];
    var p := Index(s.keys, s.parent[k]);
    assert p == j;
  }

  function Depth(s: Shape, k: string): nat
    requires Rooted(s) && k in s.keys
    decreases Index(s.keys, k)
  {
    if k == ROOT then 0
    else
      ParentIsEarlier(s, k);
      1 + Depth(s, s.parent[k])
  }

  method DepthOf(s: Shape, k: string) returns (depth: nat)
    requires Rooted(s) && k in s.keys
    ensures depth == Depth(s, k)
  {
    depth := 0;
    var key := k;
    while key in s.parent
      invariant key in s.keys
      invariant depth + Depth(s, key) == Depth(s, k)
      decreases Index(s.keys, key)
    {
      ParentIsEarlier(s, key);
      depth := depth + 1;
      key := s.parent[key];
    }
    assert Index(s.keys, key) > 0 ==> Anchored(s, Index(s.keys, key));
  }

  /** `a` is `k` or one of the keys above it. */
  predicate Above(s: Shape, a: string, k: string)
    requires Rooted(s) && k in s.keys
    decreases Index(s.keys, k)
  {
    a == k ||
    (k != ROOT &&
     (ParentIsEarlier(s, k);
      Above(s, a, s.parent[k])))
  }

  /** Every key hangs below the root, at a depth no larger than its position. */
  lemma {:induction false} RootAboveAll(s: Shape, k: string)
    requires Rooted(s) && k in s.keys
    ensures Above(s, ROOT, k)
    ensures Depth(s, k) <= Index(s.keys, k)
    decreases Index(s.keys, k)
  {
    if k != ROOT {
      ParentIsEarlier(s, k);
      RootAboveAll(s, s.parent[k]);
    }
  }

  lemma {:induction false} AboveIsShallower(s: Shape, a: string, k: string)
    requires Rooted(s) && k in s.keys && Above(s, a, k)
    ensures a in s.keys
    ensures a == k || (Depth(s, a) < Depth(s, k) && Index(s.keys, a) < Index(s.keys, k))
    decreases Index(s.keys, k)
  {
    if a != k {
      ParentIsEarlier(s, k);
      AboveIsShallower(s, a, s.parent[k]);
    }
  }

  function Filter(keys: seq<string>, parent: map<string, string>, k: string): (cs: seq<string>)
    ensures forall c :: c in cs <==> c in keys && c in parent && parent[c] == k
  {
    if keys == [] then []
    else (if keys[0] in parent && parent[keys[0]] == k then [keys[0]] else []) + Filter(keys[1..], parent, k)
  }

  /** The keys whose parent is `k`, in insertion order. */
  function Children(s: Shape, k: string): (cs: seq<string>)
    ensures forall c :: c in cs <==> c in s.keys && c in s.parent && s.parent[c] == k
  {
    Filter(s.keys, s.parent, k)
  }

  lemma ChildWitness(s: Shape, k: string)
    ensures Children(s, k) != [] <==> exists c :: c in s.keys && c in s.parent && s.parent[c] == k
  {
    var cs := Children(s, k);
    if cs != [] {
      assert cs[0] in cs;
    }
  }

  // ---------------------------------------------------------------- deepest first

  function InsertDeep(s: Shape, k: string, sorted: seq<string>): (out: seq<string>)
    requires Rooted(s) && k in s.keys
    requires forall x :: x in sorted ==> x in s.keys
    ensures forall x :: x in out <==> x == k || x in sorted
  {
    if sorted == [] || Depth(s, sorted[0]) <= Depth(s, k) then [k] + sorted
    else [sorted[0]] + InsertDeep(s, k, sorted[1..])
  }

  function SortDeep(s: Shape, keys: seq<string>): (sorted: seq<string>)
    requires Rooted(s)
    requires forall x :: x in keys ==> x in s.keys
    ensures forall x :: x in sorted <==> x in keys
  {
    if keys == [] then [] else InsertDeep(s, keys[0], SortDeep(s, keys[1..]))
  }

  /** `sorted(keys, key=depth, reverse=True)`: deepest first, ties in insertion order. */
  function DeepestFirst(s: Shape): (sorted: seq<string>)
    requires Rooted(s)
    ensures forall x :: x in sorted <==> x in s.keys
  {
    SortDeep(s, s.keys)
  }

  ghost predicate Descending(s: Shape, keys: seq<string>)
    requires Rooted(s)
    requires forall x :: x in keys ==> x in s.keys
  {
    forall i, j :: 0 <= i < j < |keys| ==> Depth(s, keys[i]) >= Depth(s, keys[j])
  }

  lemma {:induction false} InsertDeepSorted(s: Shape, k: string, sorted: seq<string>)
    requires Rooted(s) && k in s.keys && k !in sorted
    requires forall x :: x in sorted ==> x in s.keys
    requires NoDup(sorted) && Descending(s, sorted)
    ensures NoDup(InsertDeep(s, k, sorted)) && Descending(s, InsertDeep(s, k, sorted))
  {
    if !(sorted == [] || Depth(s, sorted[0]) <= Depth(s, k)) {
      InsertDeepSorted(s, k, sorted[1..]);
      var out := InsertDeep(s, k, sorted[1..]);
      forall i | 0 <= i < |out| ensures Depth(s, sorted[0]) >= Depth(s, out[i]) && out[i] != sorted[0] {
        assert out[i] in out;
        if out[i] != k {
          var j :| 0 <= j < |sorted[1..]| && sorted[1..][j] == out[i];
          assert sorted[j + 1] == out[i];
        }
      }
    }
  }

  lemma {:induction false} SortDeepSorted(s: Shape, keys: seq<string>)
    requires Rooted(s) && NoDup(keys)
    requires forall x :: x in keys ==> x in s.keys
    ensures NoDup(SortDeep(s, keys)) && Descending(s, SortDeep(s, keys))
  {
    if keys != [] {
      SortDeepSorted(s, keys[1..]);
      InsertDeepSorted(s, keys[0], SortDeep(s, keys[1..]));
    }
  }

  /** Deepest first lists every key once, children before parents. */
  lemma DeepestFirstFacts(s: Shape)
    requires Rooted(s)
    ensures NoDup(DeepestFirst(s)) && Descending(s, DeepestFirst(s))
  {
    SortDeepSorted(s, s.keys);
  }

  // ---------------------------------------------------------------- the order of equals

  lemma {:induction false} IndexOfKey(keys: seq<string>, i: nat)
    requires NoDup(keys) && i < |keys|
    ensures Index(keys, keys[i]) == i
  {
    assert keys[Index(keys, keys[i])] == keys[i];
  }

  /** Later elements stand later among the keys. */
  ghost predicate InOrder(keys: seq<string>, some: seq<string>) {
    (forall x :: x in some ==> x in keys)
    && forall i, j :: 0 <= i < j < |some| ==> Index(keys, some[i]) < Index(keys, some[j])
  }

  lemma {:induction false} FilterInOrder(keys: seq<string>, parent: map<string, string>, k: string, from: nat)
    requires NoDup(keys) && from <= |keys|
    ensures var cs := Filter(keys[from..], parent, k);
      InOrder(keys, cs) && forall x :: x in cs ==> Index(keys, x) >= from
    decreases |keys| - from
  {
    if from < |keys| {
      FilterInOrder(keys, parent, k, from + 1);
      IndexOfKey(keys, from);
      assert keys[from..][0] == keys[from] && keys[from..][1..] == keys[from + 1..];
      var rest := Filter(keys[from + 1..], parent, k);
      assert forall i :: 0 <= i < |rest| ==> rest[i] in rest;
    }
  }

  /** The children of a key come in the order in which they were added. */
  lemma ChildrenInOrder(s: Shape, k: string)
    requires Rooted(s)
    ensures InOrder(s.keys, Children(s, k))
  {
    FilterInOrder(s.keys, s.parent, k, 0);
    assert s.keys[0..] == s.keys;
  }

  /** Of two keys of one depth the one added first comes first. */
  ghost predicate TiesInOrder(s: Shape, sorted: seq<string>)
    requires Rooted(s) && forall x :: x in sorted ==> x in s.keys
  {
    forall i, j :: 0 <= i < j < |sorted| && Depth(s, sorted[i]) == Depth(s, sorted[j]) ==>
      Index(s.keys, sorted[i]) < Index(s.keys, sorted[j])
  }

  lemma TiesCons(s: Shape, first: string, rest: seq<string>)
    requires Rooted(s) && first in s.keys && forall x :: x in rest ==> x in s.keys
    requires TiesInOrder(s, rest)
    requires forall x :: x in rest && Depth(s, x) == Depth(s, first) ==> Index(s.keys, first) < Index(s.keys, x)
    ensures TiesInOrder(s, [first] + rest)
  {
    assert forall i :: 0 <= i < |rest| ==> rest[i] in rest;
  }

  lemma TiesOfFirst(s: Shape, sorted: seq<string>)
    requires Rooted(s) && sorted != [] && (forall x :: x in sorted ==> x in s.keys) && TiesInOrder(s, sorted)
    ensures forall x :: x in sorted[1..] && Depth(s, x) == Depth(s, sorted[0]) ==>
      Index(s.keys, sorted[0]) < Index(s.keys, x)
    ensures TiesInOrder(s, sorted[1..])
  {
    assert forall i :: 0 <= i < |sorted[1..]| ==> sorted[1..][i] == sorted[i + 1];
  }

  lemma {:induction false} InsertDeepStable(s: Shape, k: string, sorted: seq<string>)
    requires Rooted(s) && k in s.keys && forall x :: x in sorted ==> x in s.keys
    requires forall x :: x in sorted ==> Index(s.keys, k) < Index(s.keys, x)
    requires TiesInOrder(s, sorted)
    ensures TiesInOrder(s, InsertDeep(s, k, sorted))
  {
    if sorted == [] || Depth(s, sorted[0]) <= Depth(s, k) {
      TiesCons(s, k, sorted);
    } else {
      TiesOfFirst(s, sorted);
      InsertDeepStable(s, k, sorted[1..]);
      TiesCons(s, sorted[0], InsertDeep(s, k, sorted[1..]));
    }
  }

  lemma {:induction false} SortDeepStable(s: Shape, from: nat)
    requires Rooted(s) && from <= |s.keys|
    ensures forall x :: x in s.keys[from..] ==> x in s.keys && Index(s.keys, x) >= from
    ensures TiesInOrder(s, SortDeep(s, s.keys[from..]))
    decreases |s.keys| - from
  {
    if from < |s.keys| {
      SortDeepStable(s, from + 1);
      IndexOfKey(s.keys, from);
      assert s.keys[from..] == [s.keys[from]] + s.keys[from + 1..];
      assert s.keys[from..][1..] == s.keys[from + 1..];
      InsertDeepStable(s, s.keys[from], SortDeep(s, s.keys[from + 1..]));
    }
  }

  /** Keys of one depth are visited in the order in which they were added. */
  lemma DeepestFirstIsStable(s: Shape)
    requires Rooted(s)
    ensures TiesInOrder(s, DeepestFirst(s))
  {
    SortDeepStable(s, 0);
    assert s.keys[0..] == s.keys;
  }
}
