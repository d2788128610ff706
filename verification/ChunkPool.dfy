/** The bounded worker pool of the service downloads (benchmarking/download/download_services.py). */
module ChunkPool {
  import opened Common

  datatype Error = BadWorkers | DuplicateDestinations

  /** What the pool does, in order. */
  datatype Event = Submitted(chunk: nat) | Yielded(chunk: nat)

  function Submits(log: seq<Event>): seq<nat> {
    if log == [] then []
    else Submits(log[..|log| - 1]) + if log[|log| - 1].Submitted? then [log[|log| - 1].chunk] else []
  }

  function Yields(log: seq<Event>): seq<nat> {
    if log == [] then []
    else Yields(log[..|log| - 1]) + if log[|log| - 1].Yielded? then [log[|log| - 1].chunk] else []
  }

  lemma LogGrows(log: seq<Event>, e: Event)
    ensures Submits(log + [e]) == Submits(log) + if e.Submitted? then [e.chunk] else []
    ensures Yields(log + [e]) == Yields(log) + if e.Yielded? then [e.chunk] else []
  {
    assert (log + [e])[..|log|] == log;
  }

  function Upto(n: nat): (s: seq<nat>)
    ensures |s| == n && forall i :: 0 <= i < n ==> s[i] == i
  {
    seq(n, i => i)
  }

  predicate AllBelow(order: seq<nat>, n: nat) {
    forall k :: 0 <= k < |order| ==> order[k] < n
  }

  function Results<R>(run: string -> R, paths: seq<string>, order: seq<nat>): (r: seq<R>)
    requires AllBelow(order, |paths|)
    ensures |r| == |order| && forall k :: 0 <= k < |r| ==> r[k] == run(paths[order[k]])
  {
    seq(|order|, k requires 0 <= k < |order| => run(paths[order[k]]))
  }

  lemma ResultsConcat<R>(run: string -> R, paths: seq<string>, a: seq<nat>, b: seq<nat>)
    requires AllBelow(a, |paths|) && AllBelow(b, |paths|)
    ensures AllBelow(a + b, |paths|) && Results(run, paths, a + b) == Results(run, paths, a) + Results(run, paths, b)
  {
  }

  /** `results` are those of the chunks yielded so far, in the order of the yields. */
  ghost predicate Reported<R>(run: string -> R, paths: seq<string>, order: seq<nat>, results: seq<R>) {
    AllBelow(order, |paths|) && results == Results(run, paths, order)
  }

  lemma ReportOne<R>(run: string -> R, paths: seq<string>, order: seq<nat>, results: seq<R>, i: nat)
    requires Reported(run, paths, order, results) && i < |paths|
    ensures Reported(run, paths, order + [i], results + [run(paths[i])])
  {
    ResultsConcat(run, paths, order, [i]);
    assert Results(run, paths, [i]) == [run(paths[i])];
  }

  /** At every moment at most `workers` chunks are submitted and not yet yielded. */
  ghost predicate Bounded(log: seq<Event>, workers: int) {
    forall k :: 0 <= k <= |log| ==> 0 <= |Submits(log[..k])| - |Yields(log[..k])| <= workers
  }

  lemma BoundedGrows(log: seq<Event>, e: Event, workers: int)
    requires Bounded(log, workers)
    requires 0 <= |Submits(log + [e])| - |Yields(log + [e])| <= workers
    ensures Bounded(log + [e], workers)
  {
    forall k | 0 <= k <= |log| + 1
      ensures 0 <= |Submits((log + [e])[..k])| - |Yields((log + [e])[..k])| <= workers
    {
      if k <= |log| {
        assert (log + [e])[..k] == log[..k];
      } else {
        assert (log + [e])[..k] == log + [e];
      }
    }
  }

  ghost function Below(n: nat): (s: set<nat>)
    ensures forall i :: i in s <==> 0 <= i < n
  {
    if n == 0 then {} else Below(n - 1) + {n - 1}
  }

  lemma BelowGrows(n: nat)
    ensures Below(n + 1) == Below(n) + {n} && n !in Below(n)
    ensures Upto(n + 1) == Upto(n) + [n]
  {
  }

  /** Chunks below `next` are submitted; each is yielded once or in flight. */
  ghost predicate Pooled(log: seq<Event>, next: nat, inFlight: set<nat>, workers: int) {
    && Submits(log) == Upto(next)
    && NoDup(Yields(log)) && Elements(Yields(log)) !! inFlight && Elements(Yields(log)) + inFlight == Below(next)
    && |Yields(log)| + |inFlight| == next && |inFlight| <= workers
    && Bounded(log, workers)
  }

  lemma SubmitKeeps(log: seq<Event>, next: nat, inFlight: set<nat>, workers: int)
    requires Pooled(log, next, inFlight, workers) && |inFlight| < workers
    ensures next !in inFlight && |inFlight + {next}| == |inFlight| + 1
    ensures Pooled(log + [Submitted(next)], next + 1, inFlight + {next}, workers)
    ensures Yields(log + [Submitted(next)]) == Yields(log)
  {
    LogGrows(log, Submitted(next));
    BelowGrows(next);
    BoundedGrows(log, Submitted(next), workers);
  }

  lemma YieldKeeps(log: seq<Event>, next: nat, inFlight: set<nat>, workers: int, i: nat)
    requires Pooled(log, next, inFlight, workers) && i in inFlight
    ensures i < next && |inFlight - {i}| == |inFlight| - 1
    ensures Yields(log + [Yielded(i)]) == Yields(log) + [i]
    ensures Pooled(log + [Yielded(i)], next, inFlight - {i}, workers)
  {
    LogGrows(log, Yielded(i));
    assert i in Below(next);
    OneMoreElement(Yields(log), i);
    BoundedGrows(log, Yielded(i), workers);
  }

  lemma OneMoreElement(s: seq<nat>, i: nat)
    requires NoDup(s) && i !in Elements(s)
    ensures NoDup(s + [i]) && Elements(s + [i]) == Elements(s) + {i}
  {
    assert forall k :: 0 <= k < |s| ==> s[k] in Elements(s);
  }

  /** Run every chunk once, at most `workers` at a time; completions come in any order. */
  method ExecuteChunks<R>(
      paths: seq<string>, workers: int, run: string -> R)
    returns (r: Result<(seq<R>, seq<Event>), Error>)
    ensures r.Err? <==> workers < 1 || !NoDup(paths)
    ensures r.Ok? ==>
      var (results, log) := r.value;
      && Submits(log) == Upto(|paths|)
      && NoDup(Yields(log)) && Elements(Yields(log)) == Below(|paths|) && AllBelow(Yields(log), |paths|)
      && results == Results(run, paths, Yields(log))
      && Bounded(log, workers)
  {
    if workers < 1 {
      return Err(BadWorkers);
    }
    SameSize(paths);
    if |paths| != |Elements(paths)| {
      return Err(DuplicateDestinations);
    }
    if workers == 1 || |paths| < 2 {
      var results, log := Serial(paths, run, workers);
      return Ok((results, log));
    }
    var results, log := Pool(paths, workers, run);
    return Ok((results, log));
  }

  lemma Regroup(held: set<nat>, pending: set<nat>, next: nat)
    requires held !! pending && next !in held + pending
    ensures held + (pending + {next}) == held + pending + {next} && held !! pending + {next}
  {
  }

  /** Submit the next chunk, if any is left; `held` are the chunks in flight that the caller deals with. */
  method SubmitNext(n: nat, workers: int, log0: seq<Event>, next0: nat, ghost held: set<nat>, pending0: set<nat>)
    returns (log: seq<Event>, next: nat, pending: set<nat>)
    requires held !! pending0 && Pooled(log0, next0, held + pending0, workers) && next0 <= n
    requires next0 < n ==> |held + pending0| == workers - 1
    ensures held !! pending && Pooled(log, next, held + pending, workers) && next <= n
    ensures next < n ==> |held + pending| == workers
    ensures Yields(log) == Yields(log0)
  {
    log, next, pending := log0, next0, pending0;
    if next < n {
      SubmitKeeps(log, next, held + pending, workers);
      Regroup(held, pending, next);
      log, pending, next := log + [Submitted(next)], pending + {next}, next + 1;
    }
  }

  /** The first chunks, one a worker. */
  method Fill(n: nat, workers: int) returns (log: seq<Event>, next: nat, pending: set<nat>)
    requires workers >= 1
    ensures Pooled(log, next, pending, workers) && next <= n && Yields(log) == []
    ensures next < n ==> |pending| == workers
  {
    log, next, pending := [], 0, {};
    assert Pooled(log, 0, {}, workers);
    while next < n && next < workers
      invariant Pooled(log, next, pending, workers) && next <= n && |pending| == next <= workers && Yields(log) == []
    {
      SubmitKeeps(log, next, pending, workers);
      log, pending, next := log + [Submitted(next)], pending + {next}, next + 1;
    }
  }

  /** Between two yields: the pool is full as long as chunks are left, and the results are up to date. */
  ghost predicate Busy<R>(run: string -> R, paths: seq<string>, workers: int,
                          results: seq<R>, log: seq<Event>, next: nat, inFlight: set<nat>) {
    && Pooled(log, next, inFlight, workers) && next <= |paths| && (next < |paths| ==> |inFlight| == workers)
    && Reported(run, paths, Yields(log), results)
  }

  lemma OneYields<R>(run: string -> R, paths: seq<string>, workers: int,
                     results: seq<R>, log: seq<Event>, next: nat, inFlight: set<nat>, i: nat)
    requires i in inFlight && Busy(run, paths, workers, results, log, next, inFlight)
    ensures i < |paths|
    ensures var log' := log + [Yielded(i)];
      && Pooled(log', next, inFlight - {i}, workers) && (next < |paths| ==> |inFlight - {i}| == workers - 1)
      && |Yields(log')| == |Yields(log)| + 1
      && Reported(run, paths, Yields(log'), results + [run(paths[i])])
  {
    YieldKeeps(log, next, inFlight, workers, i);
    ReportOne(run, paths, Yields(log), results, i);
  }

  lemma LeaveOne(ready: set<nat>, pending: set<nat>, i: nat)
    requires i in ready && ready !! pending
    ensures ready + pending - {i} == (ready - {i}) + pending && ready - {i} !! pending
  {
  }

  lemma SomeAreReady(ready: set<nat>, pending: set<nat>)
    requires ready <= pending
    ensures ready + (pending - ready) == pending && ready !! pending - ready
  {
  }

  /** Yield one finished chunk and submit the next one, if any. */
  method YieldOne<R>(paths: seq<string>, workers: int, run: string -> R, results0: seq<R>, log0: seq<Event>, next0: nat,
                     ghost ready: set<nat>, pending0: set<nat>, i: nat)
    returns (results: seq<R>, log: seq<Event>, next: nat, pending: set<nat>)
    requires i in ready && ready !! pending0
    requires Busy(run, paths, workers, results0, log0, next0, ready + pending0)
    ensures ready - {i} !! pending && Busy(run, paths, workers, results, log, next, (ready - {i}) + pending)
    ensures |Yields(log)| == |Yields(log0)| + 1
  {
    OneYields(run, paths, workers, results0, log0, next0, ready + pending0, i);
    LeaveOne(ready, pending0, i);
    results := results0 + [run(paths[i])];
    log, next, pending := SubmitNext(|paths|, workers, log0 + [Yielded(i)], next0, ready - {i}, pending0);
  }

  /** Yield everything that is done; each yield lets the next chunk in. */
  method Drain<R>(paths: seq<string>, workers: int, run: string -> R, results0: seq<R>, log0: seq<Event>, next0: nat,
                  ready0: set<nat>, pending0: set<nat>)
    returns (results: seq<R>, log: seq<Event>, next: nat, pending: set<nat>)
    requires workers >= 1 && ready0 != {} && ready0 <= pending0
    requires Busy(run, paths, workers, results0, log0, next0, pending0)
    ensures Busy(run, paths, workers, results, log, next, pending)
    ensures |Yields(log0)| < |Yields(log)|
  {
    SomeAreReady(ready0, pending0);
    results, log, next, pending := results0, log0, next0, pending0 - ready0;
    var ready := ready0;
    while ready != {}
      invariant ready !! pending && Busy(run, paths, workers, results, log, next, ready + pending)
      invariant |Yields(log)| == |Yields(log0)| + |ready0| - |ready|
      decreases |ready|
    {
      var i :| i in ready;
      results, log, next, pending := YieldOne(paths, workers, run, results, log, next, ready, pending, i);
      ready := ready - {i};
    }
    assert ready + pending == pending;
  }

  lemma BusyEnds<R>(
      run: string -> R, paths: seq<string>, workers: int, results: seq<R>, log: seq<Event>, next: nat,
      inFlight: set<nat>)
    requires workers >= 1 && Busy(run, paths, workers, results, log, next, inFlight)
    ensures |Yields(log)| + |inFlight| <= |paths|
    ensures inFlight == {} ==> next == |paths|
  {
  }

  method Pool<R>(paths: seq<string>, workers: int, run: string -> R) returns (results: seq<R>, log: seq<Event>)
    requires workers >= 1
    ensures Pooled(log, |paths|, {}, workers)
    ensures Reported(run, paths, Yields(log), results)
  {
    var next: nat, pending: set<nat>;
    log, next, pending := Fill(|paths|, workers);
    results := [];
    while pending != {}
      invariant Busy(run, paths, workers, results, log, next, pending)
      decreases |paths| - |Yields(log)|
    {
      BusyEnds(run, paths, workers, results, log, next, pending);
      var ready: set<nat> :| ready != {} && ready <= pending;
      results, log, next, pending := Drain(paths, workers, run, results, log, next, ready, pending);
    }
    BusyEnds(run, paths, workers, results, log, next, pending);
  }

  lemma SameSize(paths: seq<string>)
    ensures |Elements(paths)| == |paths| <==> NoDup(paths)
  {
    if NoDup(paths) {
      NoDupSize(paths);
    } else {
      var i, j :| 0 <= i < j < |paths| && paths[i] == paths[j];
      var rest := paths[..j] + paths[j + 1..];
      FewerElements(rest);
      assert Elements(paths) <= Elements(rest) by {
        forall p | p in paths ensures p in rest {
          var k :| 0 <= k < |paths| && paths[k] == p;
          assert k < j ==> rest[k] == p;
          assert k > j ==> rest[k - 1] == p;
          assert rest[i] == paths[j];
        }
      }
      SubsetSize(Elements(paths), Elements(rest));
    }
  }

  lemma {:induction false} FewerElements(s: seq<string>)
    ensures |Elements(s)| <= |s|
  {
    if s != [] {
      FewerElements(s[1..]);
      assert Elements(s) == {s[0]} + Elements(s[1..]);
    }
  }

  /** The path without a pool: chunk after chunk. */
  method Serial<R>(paths: seq<string>, run: string -> R, workers: int) returns (results: seq<R>, log: seq<Event>)
    requires workers >= 1
    ensures Yields(log) == Upto(|paths|) && Pooled(log, |paths|, {}, workers)
    ensures Reported(run, paths, Yields(log), results)
  {
    results, log := [], [];
    for i := 0 to |paths|
      invariant Yields(log) == Upto(i) && Pooled(log, i, {}, workers)
      invariant Reported(run, paths, Yields(log), results)
    {
      SubmitKeeps(log, i, {}, workers);
      log := log + [Submitted(i)];
      YieldKeeps(log, i + 1, {} + {i}, workers, i);
      assert {} + {i} - {i} == {};
      BelowGrows(i);
      ReportOne(run, paths, Upto(i), results, i);
      results := results + [run(paths[i])];
      log := log + [Yielded(i)];
    }
  }

  lemma ResultsFromMiddle<R>(run: string -> R, paths: seq<string>, left: seq<nat>, x: nat, right: seq<nat>)
    requires AllBelow(left, |paths|) && AllBelow(right, |paths|) && x < |paths|
    ensures AllBelow(left + [x] + right, |paths|) && AllBelow(left + right, |paths|)
    ensures multiset(Results(run, paths, left + [x] + right))
         == multiset(Results(run, paths, left + right)) + multiset{run(paths[x])}
  {
    ResultsConcat(run, paths, left, right);
    ResultsConcat(run, paths, left, [x]);
    ResultsConcat(run, paths, left + [x], right);
    assert Results(run, paths, [x]) == [run(paths[x])];
  }

  /** `b` around its first occurrence of `x`. */
  lemma Around(b: seq<nat>, x: nat, n: nat) returns (left: seq<nat>, right: seq<nat>)
    requires x in multiset(b) && AllBelow(b, n)
    ensures b == left + [x] + right && AllBelow(left, n) && AllBelow(right, n)
  {
    var k :| 0 <= k < |b| && b[k] == x;
    left, right := b[..k], b[k + 1..];
  }

  lemma Cancel(a: multiset<nat>, b: multiset<nat>, x: nat)
    requires a + multiset{x} == b + multiset{x}
    ensures a == b
  {
    assert a == a + multiset{x} - multiset{x};
    assert b == b + multiset{x} - multiset{x};
  }

  lemma WithoutOne(left: seq<nat>, x: nat, right: seq<nat>)
    ensures multiset(left + [x] + right) == multiset(left + right) + multiset{x}
  {
  }

  /** Whatever the order of completion, the results are those of the serial path. */
  lemma {:induction false} AnyOrderSameResults<R>(run: string -> R, paths: seq<string>, a: seq<nat>, b: seq<nat>)
    requires AllBelow(a, |paths|) && AllBelow(b, |paths|) && multiset(a) == multiset(b)
    ensures multiset(Results(run, paths, a)) == multiset(Results(run, paths, b))
    decreases |a|
  {
    if a == [] {
      assert |multiset(b)| == 0;
    } else {
      var left, right := Around(b, a[0], |paths|);
      assert a == [] + [a[0]] + a[1..] && [] + a[1..] == a[1..];
      WithoutOne(left, a[0], right);
      WithoutOne([], a[0], a[1..]);
      Cancel(multiset(a[1..]), multiset(left + right), a[0]);
      AnyOrderSameResults(run, paths, a[1..], left + right);
      ResultsFromMiddle(run, paths, left, a[0], right);
      ResultsFromMiddle(run, paths, [], a[0], a[1..]);
    }
  }

  /** A duplicate-free list of the numbers below `n` is a reordering of them. */
  lemma ReorderingOfUpto(order: seq<nat>, n: nat)
    requires NoDup(order) && Elements(order) == Below(n)
    ensures multiset(order) == multiset(Upto(n))
  {
    forall i: nat ensures multiset(order)[i] == multiset(Upto(n))[i] {
      OccursOnce(order, i);
      OccursOnce(Upto(n), i);
      assert i in order <==> i in Elements(order);
      assert i < n ==> Upto(n)[i] == i;
    }
  }

  lemma {:induction false} OccursOnce(s: seq<nat>, x: nat)
    requires NoDup(s)
    ensures multiset(s)[x] == if x in s then 1 else 0
  {
    if s != [] {
      assert s == [s[0]] + s[1..];
      OccursOnce(s[1..], x);
    }
  }

  /** The pool yields the same results as the serial path, in some order. */
  lemma PoolEqualsSerial<R>(run: string -> R, paths: seq<string>, log: seq<Event>)
    requires NoDup(Yields(log)) && Elements(Yields(log)) == Below(|paths|) && AllBelow(Yields(log), |paths|)
    ensures multiset(Results(run, paths, Yields(log))) == multiset(Results(run, paths, Upto(|paths|)))
  {
    ReorderingOfUpto(Yields(log), |paths|);
    AnyOrderSameResults(run, paths, Yields(log), Upto(|paths|));
  }
}
