/**
  Crash-safe transfer of one file into a managed archive folder (benchmarking/download/download_data.py).

  A run is cut after any number of durable changes; a later run finds what it left. `Transfer` says
  what a run makes of the folder, `Archive.Download` does it change by change.
 */
module Transfer {
  import opened Common

  type Bytes = seq<int>

  datatype Receipt = Receipt(request: string, sha: string, counts: nat)

  /** Where a file belongs: its year directory and its name. */
  datatype Place = Place(year: string, name: string)

  datatype Files = Files(final: Option<Bytes>, receipt: Option<Receipt>, partial: Option<Bytes>)

  /** One variable directory. `descriptor` is the identity in `_collection.json`. */
  datatype Folder = Folder(descriptor: Option<string>, files: map<Place, Files>)

  const NO_FILES := Files(None, None, None)
  const NEW_FOLDER := Folder(None, map[])

  /** What follows from a request; requests are named by their fingerprint. `verify` is None when the
      verifier raises. Nothing is assumed of the four. */
  datatype Catalog = Catalog(
    place: string -> Place,
    identity: string -> string,
    verify: (string, Bytes) -> Option<nat>,
    sha: Bytes -> string)

  /** What the provider does to the partial file: what it may hold while being written, what it holds in
      the end (None: untouched), and whether the provider reported success. */
  datatype Provider = Provider(torn: Option<Bytes>, delivered: Option<Bytes>, ok: bool)

  datatype Refusal = OtherCollection | UnmanagedFolder | PeriodTaken | UnmanagedFile | ReceiptMismatch
  datatype Outcome =
    | Crashed | Refused(why: Refusal) | FetchFailed | Invalid
    | Existing(receipt: Receipt) | Downloaded(receipt: Receipt)

  function At(f: Folder, p: Place): Files {
    if p in f.files then f.files[p] else NO_FILES
  }

  function Put(f: Folder, p: Place, files: Files): Folder {
    f.(files := f.files[p := files])
  }

  // ---------------------------------------------------------------- names

  /** `name.rsplit("_", 1)[0]`. */
  function Prefix(name: string): (p: string)
    ensures p <= name
  {
    if '_' !in name then name
    else if name[|name| - 1] == '_' then name[..|name| - 1]
    else Prefix(name[..|name| - 1])
  }

  /** `name` matches the pattern `prefix_*.nc`. */
  predicate Matches(prefix: string, name: string) {
    prefix + "_" <= name && |name| >= |prefix| + 4 && name[|name| - 3..] == ".nc"
  }

  predicate Occupied(f: Folder, p: Place) {
    exists q :: q in f.files && q != p && q.year == p.year && f.files[q].final.Some? && Matches(Prefix(p.name), q.name)
  }

  predicate AnyFinal(f: Folder) {
    exists q :: q in f.files && f.files[q].final.Some?
  }

  // ---------------------------------------------------------------- one run, cut after `limit` changes

  /** The folder once the descriptor is there, and why the request is refused, if it is. */
  function Collection(c: Catalog, f: Folder, request: string): (Folder, Option<Refusal>) {
    var p := c.place(request);
    if f.descriptor.Some? then
      (f, if f.descriptor.value != c.identity(request) then Some(OtherCollection)
          else if Occupied(f, p) then Some(PeriodTaken) else None)
    else if AnyFinal(f) then (f, Some(UnmanagedFolder))
    else (f.(descriptor := Some(c.identity(request))), None)
  }

  function Check(c: Catalog, files: Files, request: string): Option<nat> {
    if files.partial.Some? then c.verify(request, files.partial.value) else None
  }

  /** The last two changes: the receipt, then the rename. */
  function Promote(c: Catalog, f: Folder, p: Place, request: string, counts: nat, limit: nat): (Folder, Outcome)
    requires At(f, p).partial.Some?
  {
    var partial := At(f, p).partial.value;
    var receipt := Receipt(request, c.sha(partial), counts);
    if limit == 0 then (f, Crashed)
    else if limit == 1 then (Put(f, p, At(f, p).(receipt := Some(receipt))), Crashed)
    else (Put(f, p, Files(Some(partial), Some(receipt), None)), Downloaded(receipt))
  }

  function Over(partial: Option<Bytes>, written: Option<Bytes>): Option<Bytes> {
    if written.Some? then written else partial
  }

  function Fetch(c: Catalog, f: Folder, p: Place, request: string, provider: Provider, limit: nat): (Folder, Outcome) {
    var torn := At(f, p).(partial := Over(At(f, p).partial, provider.torn));
    var whole := torn.(partial := Over(torn.partial, provider.delivered));
    if limit == 0 then (f, Crashed)
    else if limit == 1 then (Put(f, p, torn), Crashed)
    else if !provider.ok then (Put(f, p, whole), FetchFailed)
    else
      var counts := Check(c, whole, request);
      if counts.None? then (Put(f, p, whole), Invalid)
      else Promote(c, Put(f, p, whole), p, request, counts.value, limit - 2)
  }

  function Transfer(c: Catalog, f: Folder, request: string, provider: Provider, limit: nat): (Folder, Outcome) {
    var p := c.place(request);
    var (managed, refusal) := Collection(c, f, request);
    if managed != f && limit == 0 then (f, Crashed)
    else if refusal.Some? then (f, Refused(refusal.value))
    else
      var left := if managed != f then limit - 1 else limit;
      var files := At(managed, p);
      if files.final.Some? then
        if files.receipt.None? then (managed, Refused(UnmanagedFile))
        else if files.receipt.value.request != request || c.sha(files.final.value) != files.receipt.value.sha
        then (managed, Refused(ReceiptMismatch))
        else (managed, Existing(files.receipt.value))
      else
        var counts := Check(c, files, request);
        if counts.Some? then Promote(c, managed, p, request, counts.value, left)
        else Fetch(c, managed, p, request, provider, left)
  }

  // ---------------------------------------------------------------- the same, in place

  class Archive {
    const c: Catalog
    var descriptor: Option<string>
    var files: map<Place, Files>

    function Now(): Folder
      reads this
    {
      Folder(descriptor, files)
    }

    constructor (c: Catalog)
      ensures this.c == c && Now() == NEW_FOLDER
    {
      this.c := c;
      descriptor, files := None, map[];
    }

    method EnsureCollection(request: string, limit: nat) returns (refusal: Option<Refusal>, left: Option<nat>)
      modifies this
      ensures var (managed, why) := Collection(c, old(Now()), request);
        if managed != old(Now()) && limit == 0 then left.None? && Now() == old(Now())
        else
          && left == Some(if managed != old(Now()) then limit - 1 else limit)
          && refusal == why && Now() == managed
    {
      refusal, left := None, Some(limit);
      if descriptor.Some? {
        if descriptor.value != c.identity(request) {
          refusal := Some(OtherCollection);
        } else if Occupied(Now(), c.place(request)) {
          refusal := Some(PeriodTaken);
        }
      } else if AnyFinal(Now()) {
        refusal := Some(UnmanagedFolder);
      } else {
        if limit == 0 {
          left := None;
          return;
        }
        descriptor := Some(c.identity(request));
        left := Some(limit - 1);
      }
    }

    method Download(request: string, provider: Provider, limit: nat) returns (outcome: Outcome)
      modifies this
      ensures (Now(), outcome) == Transfer(c, old(Now()), request, provider, limit)
    {
      var refusal, left := EnsureCollection(request, limit);
      if left.None? {
        return Crashed;
      }
      if refusal.Some? {
        return Refused(refusal.value);
      }
      var p := c.place(request);
      var here := At(Now(), p);
      if here.final.Some? {
        if here.receipt.None? {
          return Refused(UnmanagedFile);
        }
        var saved := here.receipt.value;
        if saved.request != request || c.sha(here.final.value) != saved.sha {
          return Refused(ReceiptMismatch);
        }
        return Existing(saved);
      }
      ghost var managed := files;
      var remaining, counts := left.value, None;
      if here.partial.Some? {
        counts := c.verify(request, here.partial.value);
      }
      if counts.None? {
        if remaining == 0 {
          return Crashed;
        }
        here := here.(partial := Over(here.partial, provider.torn));
        files := files[p := here];
        if remaining == 1 {
          return Crashed;
        }
        here := here.(partial := Over(here.partial, provider.delivered));
        files := files[p := here];
        assert files == managed[p := here];
        remaining := remaining - 2;
        if !provider.ok {
          return FetchFailed;
        }
        if here.partial.None? {
          return Invalid;
        }
        counts := c.verify(request, here.partial.value);
        if counts.None? {
          return Invalid;
        }
      }
      var receipt := Receipt(request, c.sha(here.partial.value), counts.value);
      if remaining == 0 {
        return Crashed;
      }
      ghost var before := files;
      here := here.(receipt := Some(receipt));
      files := files[p := here];
      if remaining == 1 {
        return Crashed;
      }
      here := here.(final := here.partial, partial := None);
      files := files[p := here];
      assert files == before[p := here];
      return Downloaded(receipt);
    }
  }

  // ---------------------------------------------------------------- any schedule of runs and crashes

  datatype Job = Job(request: string, provider: Provider, limit: nat)

  function Runs(c: Catalog, f: Folder, jobs: seq<Job>): Folder
    decreases |jobs|
  {
    if jobs == [] then f else Runs(c, Transfer(c, f, jobs[0].request, jobs[0].provider, jobs[0].limit).0, jobs[1..])
  }

  /** A finished file is what its receipt says: named by the request that belongs here, with the
      hash of exactly this content, which that request's verifier accepted. */
  ghost predicate Certified(c: Catalog, f: Folder, p: Place) {
    var files := At(f, p);
    files.final.Some? ==>
      && files.receipt.Some?
      && c.place(files.receipt.value.request) == p
      && files.receipt.value.sha == c.sha(files.final.value)
      && c.verify(files.receipt.value.request, files.final.value) == Some(files.receipt.value.counts)
      && f.descriptor == Some(c.identity(files.receipt.value.request))
  }

  ghost predicate OnePerPeriod(f: Folder) {
    forall p, q :: p in f.files && q in f.files && p != q && p.year == q.year
      && f.files[p].final.Some? && f.files[q].final.Some? && NetCdf(p.name) && NetCdf(q.name)
      ==> Prefix(p.name) != Prefix(q.name)
  }

  /** The names of the archive: something, an underscore, a tag and the suffix. */
  predicate NetCdf(name: string) {
    |name| >= |Prefix(name)| + 4 && Prefix(name) + "_" <= name && name[|name| - 3..] == ".nc"
  }

  ghost predicate Inv(c: Catalog, f: Folder) {
    (forall p :: p in f.files ==> Certified(c, f, p)) && OnePerPeriod(f)
  }

  /** Finished files, their receipts and the descriptor stay as they are. */
  ghost predicate Preserved(f: Folder, f': Folder) {
    && (f.descriptor.Some? ==> f'.descriptor == f.descriptor)
    && forall p :: p in f.files && f.files[p].final.Some? ==>
         p in f'.files && f'.files[p].final == f.files[p].final && f'.files[p].receipt == f.files[p].receipt
  }

  /** A change at one place that finishes nothing. */
  lemma PutKeeps(c: Catalog, f: Folder, p: Place, files: Files)
    requires Inv(c, f) && At(f, p).final.None? && files.final.None?
    ensures Inv(c, Put(f, p, files)) && Preserved(f, Put(f, p, files))
  {
    var f' := Put(f, p, files);
    forall q | q in f'.files ensures Certified(c, f', q) {
      assert q != p ==> Certified(c, f, q);
    }
  }

  lemma FinishKeeps(c: Catalog, f: Folder, p: Place, partial: Bytes, receipt: Receipt)
    requires Inv(c, f) && At(f, p).final.None? && !Occupied(f, p)
    requires c.place(receipt.request) == p && f.descriptor == Some(c.identity(receipt.request))
    requires receipt.sha == c.sha(partial) && c.verify(receipt.request, partial) == Some(receipt.counts)
    ensures var f' := Put(f, p, Files(Some(partial), Some(receipt), None));
      Inv(c, f') && Preserved(f, f')
  {
    var f' := Put(f, p, Files(Some(partial), Some(receipt), None));
    forall q | q in f'.files ensures Certified(c, f', q) {
      assert q != p ==> Certified(c, f, q);
    }
    forall q | q in f.files && q != p && q.year == p.year && f.files[q].final.Some? && NetCdf(p.name) && NetCdf(q.name)
      ensures Prefix(p.name) != Prefix(q.name)
    {
      assert !Matches(Prefix(p.name), q.name);
    }
  }

  lemma PromoteKeeps(c: Catalog, f: Folder, request: string, counts: nat, limit: nat)
    requires Inv(c, f) && At(f, c.place(request)).final.None? && !Occupied(f, c.place(request))
    requires f.descriptor == Some(c.identity(request))
    requires At(f, c.place(request)).partial.Some?
    requires c.verify(request, At(f, c.place(request)).partial.value) == Some(counts)
    ensures var f' := Promote(c, f, c.place(request), request, counts, limit).0;
      Inv(c, f') && Preserved(f, f')
  {
    var p := c.place(request);
    var partial := At(f, p).partial.value;
    var receipt := Receipt(request, c.sha(partial), counts);
    PutKeeps(c, f, p, At(f, p).(receipt := Some(receipt)));
    FinishKeeps(c, f, p, partial, receipt);
  }

  lemma OccupiedElsewhere(f: Folder, p: Place, files: Files)
    ensures Occupied(Put(f, p, files), p) == Occupied(f, p)
  {
    var f' := Put(f, p, files);
    assert forall q :: q != p ==> (q in f'.files <==> q in f.files);
  }

  lemma DeliveryKeeps(c: Catalog, f: Folder, request: string, files: Files)
    requires Inv(c, f) && At(f, c.place(request)).final.None? && !Occupied(f, c.place(request))
    requires files == At(f, c.place(request)).(partial := files.partial)
    ensures var f' := Put(f, c.place(request), files);
      Inv(c, f') && Preserved(f, f') && !Occupied(f', c.place(request)) && At(f', c.place(request)) == files
  {
    PutKeeps(c, f, c.place(request), files);
    OccupiedElsewhere(f, c.place(request), files);
  }

  lemma PreservedTransitive(a: Folder, b: Folder, d: Folder)
    requires Preserved(a, b) && Preserved(b, d)
    ensures Preserved(a, d)
  {
  }

  lemma PromotedKeeps(c: Catalog, f: Folder, f1: Folder, request: string, counts: nat, limit: nat)
    requires Inv(c, f1) && Preserved(f, f1)
    requires At(f1, c.place(request)).final.None? && !Occupied(f1, c.place(request))
    requires f1.descriptor == Some(c.identity(request))
    requires At(f1, c.place(request)).partial.Some?
    requires c.verify(request, At(f1, c.place(request)).partial.value) == Some(counts)
    ensures var f' := Promote(c, f1, c.place(request), request, counts, limit).0;
      Inv(c, f') && Preserved(f, f')
  {
    PromoteKeeps(c, f1, request, counts, limit);
    PreservedTransitive(f, f1, Promote(c, f1, c.place(request), request, counts, limit).0);
  }

  lemma FetchKeeps(c: Catalog, f: Folder, request: string, provider: Provider, limit: nat)
    requires Inv(c, f) && At(f, c.place(request)).final.None? && !Occupied(f, c.place(request))
    requires f.descriptor == Some(c.identity(request))
    ensures var f' := Fetch(c, f, c.place(request), request, provider, limit).0;
      Inv(c, f') && Preserved(f, f')
  {
    var p := c.place(request);
    var torn := At(f, p).(partial := Over(At(f, p).partial, provider.torn));
    var whole := torn.(partial := Over(torn.partial, provider.delivered));
    if limit == 1 {
      DeliveryKeeps(c, f, request, torn);
    } else if limit >= 2 {
      DeliveryKeeps(c, f, request, whole);
      var counts := Check(c, whole, request);
      if provider.ok && counts.Some? {
        PromotedKeeps(c, f, Put(f, p, whole), request, counts.value, limit - 2);
      }
    }
  }

  lemma CollectionKeeps(c: Catalog, f: Folder, request: string)
    requires Inv(c, f)
    ensures var (managed, refusal) := Collection(c, f, request);
      && Inv(c, managed) && Preserved(f, managed)
      && (refusal.None? ==> managed.descriptor == Some(c.identity(request)) && !Occupied(managed, c.place(request)))
  {
    var (managed, refusal) := Collection(c, f, request);
    if managed != f {
      forall q | q in managed.files ensures Certified(c, managed, q) {
        assert Certified(c, f, q);
      }
    }
  }

  /** One run, wherever it is cut, keeps every finished file certified and untouched. */
  lemma TransferKeeps(c: Catalog, f: Folder, request: string, provider: Provider, limit: nat)
    requires Inv(c, f)
    ensures var f' := Transfer(c, f, request, provider, limit).0;
      Inv(c, f') && Preserved(f, f')
  {
    var p := c.place(request);
    CollectionKeeps(c, f, request);
    var (managed, refusal) := Collection(c, f, request);
    var left := if managed != f && limit > 0 then limit - 1 else limit;
    if refusal.None? && At(managed, p).final.None? {
      var counts := Check(c, At(managed, p), request);
      if counts.Some? {
        PromoteKeeps(c, managed, request, counts.value, left);
      } else {
        FetchKeeps(c, managed, request, provider, left);
      }
    }
  }

  /** Under any schedule of runs and crashes every finished file is certified, no period is taken twice,
      and what is finished is never changed again. */
  lemma {:induction false} AnySchedule(c: Catalog, f: Folder, jobs: seq<Job>)
    requires Inv(c, f)
    ensures Inv(c, Runs(c, f, jobs)) && Preserved(f, Runs(c, f, jobs))
    decreases |jobs|
  {
    if jobs != [] {
      var f' := Transfer(c, f, jobs[0].request, jobs[0].provider, jobs[0].limit).0;
      TransferKeeps(c, f, jobs[0].request, jobs[0].provider, jobs[0].limit);
      AnySchedule(c, f', jobs[1..]);
      PreservedTransitive(f, f', Runs(c, f, jobs));
    }
  }

  /** In an archive built by these runs a finished file is certified by the receipt beside it. */
  lemma FinishedMeansCertified(c: Catalog, jobs: seq<Job>, p: Place)
    ensures var files := At(Runs(c, NEW_FOLDER, jobs), p);
      files.final.Some? ==>
        && files.receipt.Some? && c.place(files.receipt.value.request) == p
        && files.receipt.value.sha == c.sha(files.final.value)
        && c.verify(files.receipt.value.request, files.final.value) == Some(files.receipt.value.counts)
  {
    AnySchedule(c, NEW_FOLDER, jobs);
    var f := Runs(c, NEW_FOLDER, jobs);
    assert p in f.files ==> Certified(c, f, p);
  }

  // ---------------------------------------------------------------- the names of the archive

  /** A product, a period and a tag, joined by underscores: only the period has a hyphen, and neither
      the period nor the tag has an underscore. */
  ghost predicate Named(name: string, product: string, period: string, tag: string) {
    && name == product + "_" + period + "_" + tag + ".nc"
    && '-' !in product && '-' in period && '_' !in period && '_' !in tag
  }

  ghost predicate WellNamed(name: string) {
    exists product, period, tag :: Named(name, product, period, tag)
  }

  /** The planners name every file this way. */
  ghost predicate Naming(c: Catalog) {
    forall request :: WellNamed(c.place(request).name)
  }

  lemma {:induction false} PrefixCuts(stem: string, tail: string)
    requires '_' !in tail
    ensures Prefix(stem + "_" + tail) == stem
    decreases |tail|
  {
    var name := stem + "_" + tail;
    assert name[|stem|] == '_';
    if tail == "" {
      assert name[..|name| - 1] == stem;
    } else {
      var rest := tail[..|tail| - 1];
      assert name[|name| - 1] == tail[|tail| - 1];
      assert name[..|name| - 1] == stem + "_" + rest;
      PrefixCuts(stem, rest);
    }
  }

  lemma NamedFacts(name: string, product: string, period: string, tag: string)
    requires Named(name, product, period, tag)
    ensures Prefix(name) == product + "_" + period && NetCdf(name)
  {
    var stem, tail := product + "_" + period, tag + ".nc";
    assert name == stem + "_" + tail;
    PrefixCuts(stem, tail);
    assert name[|name| - 3..] == ".nc";
  }

  /** A period around its first hyphen. */
  lemma FirstHyphen(period: string) returns (y: string, z: string)
    requires '-' in period
    ensures period == y + "-" + z && '-' !in y
    decreases |period|
  {
    if period[0] == '-' {
      y, z := "", period[1..];
    } else {
      y, z := FirstHyphen(period[1..]);
      y := [period[0]] + y;
    }
  }

  /** Two names of which one begins with the other's prefix and an underscore are of one product and period. */
  lemma SamePeriod(product: string, period: string, rest: string, product': string, period': string, tail': string)
    requires '-' !in product && '-' in period && '_' !in period
    requires '-' !in product' && '-' in period' && '_' !in period'
    requires product + "_" + period + "_" + rest == product' + "_" + period' + "_" + tail'
    ensures product == product' && period == period'
  {
    var y, z := FirstHyphen(period);
    var y', z' := FirstHyphen(period');
    var a, b := product + "_" + y, z + "_" + rest;
    var a', b' := product' + "_" + y', z' + "_" + tail';
    assert product + "_" + period + "_" + rest == a + "-" + b;
    assert product' + "_" + period' + "_" + tail' == a' + "-" + b';
    SeparatorsAreUnique(a, b, a', b', '-');
    assert forall x :: x in y ==> x in period;
    assert forall x :: x in y' ==> x in period';
    SeparatorsAreUnique(product, y, product', y', '_');
    assert forall x :: x in z ==> x in period;
    assert forall x :: x in z' ==> x in period';
    SeparatorsAreUnique(z, rest, z', tail', '_');
  }

  lemma AfterPrefix(stem: string, name: string) returns (rest: string)
    requires stem + "_" <= name
    ensures name == stem + "_" + rest
  {
    rest := name[|stem| + 1..];
  }

  lemma MatchOfNamed(product: string, period: string, other: string, product': string, period': string, tag': string)
    requires '-' !in product && '-' in period && '_' !in period && Named(other, product', period', tag')
    requires product + "_" + period + "_" <= other
    ensures product == product' && period == period'
  {
    var rest := AfterPrefix(product + "_" + period, other);
    assert product' + "_" + period' + "_" + tag' + ".nc" == product' + "_" + period' + "_" + (tag' + ".nc");
    SamePeriod(product, period, rest, product', period', tag' + ".nc");
  }

  lemma MatchMeansSamePrefix(name: string, other: string)
    requires WellNamed(name) && WellNamed(other) && Matches(Prefix(name), other)
    ensures Prefix(name) == Prefix(other) && NetCdf(name) && NetCdf(other)
  {
    var product, period, tag :| Named(name, product, period, tag);
    var product', period', tag' :| Named(other, product', period', tag');
    NamedFacts(name, product, period, tag);
    NamedFacts(other, product', period', tag');
    MatchOfNamed(product, period, other, product', period', tag');
  }

  /** So a finished file never stands in the way of its own request. */
  lemma NeverOccupied(c: Catalog, f: Folder, request: string)
    requires Naming(c) && Inv(c, f) && At(f, c.place(request)).final.Some?
    ensures !Occupied(f, c.place(request))
  {
    var p := c.place(request);
    if Occupied(f, p) {
      var q :| q in f.files && q != p && q.year == p.year && f.files[q].final.Some? && Matches(Prefix(p.name), q.name);
      assert Certified(c, f, q);
      assert WellNamed(c.place(f.files[q].receipt.value.request).name);
      MatchMeansSamePrefix(p.name, q.name);
    }
  }

  /** A run over a finished file reports it and changes nothing, whatever the provider and however it is cut. */
  lemma RerunReportsExisting(c: Catalog, f: Folder, request: string, provider: Provider, limit: nat)
    requires Naming(c) && Inv(c, f) && At(f, c.place(request)).final.Some?
    requires At(f, c.place(request)).receipt.Some? && At(f, c.place(request)).receipt.value.request == request
    ensures Transfer(c, f, request, provider, limit) == (f, Existing(At(f, c.place(request)).receipt.value))
  {
    NeverOccupied(c, f, request);
    assert Certified(c, f, c.place(request));
  }

  lemma DownloadedIsThere(c: Catalog, f: Folder, request: string, provider: Provider, limit: nat)
    requires Transfer(c, f, request, provider, limit).1.Downloaded?
    ensures var (f', outcome) := Transfer(c, f, request, provider, limit);
      At(f', c.place(request)).final.Some? && At(f', c.place(request)).receipt == Some(outcome.receipt)
      && outcome.receipt.request == request
  {
  }

  /** In an archive built by these runs, a file that was downloaded once is reported with the same receipt
      by every later run of its request, whatever happened in between. */
  lemma DownloadedForGood(c: Catalog, jobs: seq<Job>, request: string, provider: Provider, limit: nat,
                          more: seq<Job>, provider': Provider, limit': nat)
    requires Naming(c)
    requires Transfer(c, Runs(c, NEW_FOLDER, jobs), request, provider, limit).1.Downloaded?
    ensures var (f, outcome) := Transfer(c, Runs(c, NEW_FOLDER, jobs), request, provider, limit);
      Transfer(c, Runs(c, f, more), request, provider', limit') == (Runs(c, f, more), Existing(outcome.receipt))
  {
    var before := Runs(c, NEW_FOLDER, jobs);
    AnySchedule(c, NEW_FOLDER, jobs);
    TransferKeeps(c, before, request, provider, limit);
    DownloadedIsThere(c, before, request, provider, limit);
    var f := Transfer(c, before, request, provider, limit).0;
    AnySchedule(c, f, more);
    RerunReportsExisting(c, Runs(c, f, more), request, provider', limit');
  }

  /** A partial file that the verifier accepts is promoted without the provider: two or more changes
      finish it, and no provider makes a difference. */
  lemma VerifiedPartialIsKept(c: Catalog, f: Folder, request: string, a: Provider, b: Provider, limit: nat)
    requires f.descriptor == Some(c.identity(request)) && !Occupied(f, c.place(request))
    requires At(f, c.place(request)).final.None? && Check(c, At(f, c.place(request)), request).Some?
    ensures Transfer(c, f, request, a, limit) == Transfer(c, f, request, b, limit)
    ensures var (f', outcome) := Transfer(c, f, request, a, limit);
      if limit >= 2 then
        outcome.Downloaded? && At(f', c.place(request)).final == At(f, c.place(request)).partial
      else outcome == Crashed && At(f', c.place(request)).partial == At(f, c.place(request)).partial
  {
  }

  /** A run that is not cut, of a request the folder admits, finishes the file when the provider delivers
      one that the verifier accepts. */
  lemma GoodDeliveryFinishes(c: Catalog, f: Folder, request: string, provider: Provider, limit: nat)
    requires Collection(c, f, request).1.None? && At(f, c.place(request)).final.None? && limit >= 5
    requires provider.ok && provider.delivered.Some? && c.verify(request, provider.delivered.value).Some?
    ensures var (f', outcome) := Transfer(c, f, request, provider, limit);
      outcome.Downloaded? && At(f', c.place(request)).final.Some?
  {
  }
}
