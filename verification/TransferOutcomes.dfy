/** Which requests a folder admits and what an uncut run makes of them, told from folder and provider. */
module TransferOutcomes {
  import opened Common
  import opened T = Transfer

  // ---------------------------------------------------------------- admission

  /** What comes before the last underscore of a name, or the whole name without one. */
  ghost predicate StemOf(name: string, stem: string) {
    if '_' in name then exists tail :: '_' !in tail && name == stem + "_" + tail else stem == name
  }

  lemma {:induction false} PrefixIsStem(name: string)
    ensures StemOf(name, Prefix(name))
  {
    if '_' in name {
      var front, last := name[..|name| - 1], name[|name| - 1];
      assert name == front + [last];
      if last == '_' {
        assert name == front + "_" + "";
      } else {
        PrefixIsStem(front);
        var tail :| '_' !in tail && front == Prefix(front) + "_" + tail;
        assert name == Prefix(front) + "_" + (tail + [last]);
      }
    }
  }

  lemma StemIsUnique(name: string, a: string, b: string)
    requires StemOf(name, a) && StemOf(name, b)
    ensures a == b
  {
    if '_' in name {
      var s :| '_' !in s && name == a + "_" + s;
      var t :| '_' !in t && name == b + "_" + t;
      SeparatorsAreUnique(a, s, b, t, '_');
    }
  }

  /** A finished file of the same year whose name is the stem of this one, an underscore and more before `.nc`. */
  ghost predicate Rival(f: Folder, p: Place, q: Place, stem: string) {
    && q in f.files && q != p && q.year == p.year && f.files[q].final.Some? && StemOf(p.name, stem)
    && stem + "_" <= q.name && |q.name| >= |stem| + 4 && q.name[|q.name| - 3..] == ".nc"
  }

  ghost predicate HasRival(f: Folder, p: Place) {
    exists q, stem :: Rival(f, p, q, stem)
  }

  lemma OccupiedByRival(f: Folder, p: Place)
    ensures Occupied(f, p) <==> HasRival(f, p)
  {
    PrefixIsStem(p.name);
    if Occupied(f, p) {
      var q :| q in f.files && q != p && q.year == p.year && f.files[q].final.Some? && Matches(Prefix(p.name), q.name);
      assert Rival(f, p, q, Prefix(p.name));
    }
    if HasRival(f, p) {
      var q, stem :| Rival(f, p, q, stem);
      StemIsUnique(p.name, stem, Prefix(p.name));
      assert Matches(Prefix(p.name), q.name);
    }
  }

  ghost predicate Admitted(c: Catalog, f: Folder, request: string) {
    match f.descriptor
    case None => forall q :: q in f.files ==> f.files[q].final.None?
    case Some(identity) => identity == c.identity(request) && !HasRival(f, c.place(request))
  }

  /** A request is admitted exactly to a folder of its own collection without another file of its period, or
      to one without descriptor and finished file, which then becomes its collection's. */
  lemma AdmittedExactly(c: Catalog, f: Folder, request: string)
    ensures var (managed, refusal) := Collection(c, f, request);
      && (refusal.None? <==> Admitted(c, f, request))
      && managed == (if refusal.None? then f.(descriptor := Some(c.identity(request))) else f)
  {
    OccupiedByRival(f, c.place(request));
  }

  /** A request that is not admitted is refused, for its reason, and changes nothing. */
  lemma RefusedExactly(c: Catalog, f: Folder, request: string, provider: Provider, limit: nat)
    requires !Admitted(c, f, request)
    ensures T.Transfer(c, f, request, provider, limit)
         == (f, Refused(if f.descriptor.None? then UnmanagedFolder
                        else if f.descriptor.value != c.identity(request) then OtherCollection else PeriodTaken))
  {
    AdmittedExactly(c, f, request);
  }

  // ---------------------------------------------------------------- runs that are not cut

  ghost function Verified(c: Catalog, request: string, partial: Option<Bytes>): Option<nat> {
    match partial
    case Some(bytes) => c.verify(request, bytes)
    case None => None
  }

  /** The partial file after the provider wrote, if it did, a part and then the whole. */
  ghost function AfterProvider(partial: Option<Bytes>, provider: Provider): Option<Bytes> {
    match provider.delivered
    case Some(bytes) => Some(bytes)
    case None => if provider.torn.Some? then provider.torn else partial
  }

  /** An admitted request over a finished file: an existing one if its receipt names the request and has the
      hash of the content, and otherwise one that is not touched. */
  lemma FinishedExactly(c: Catalog, f: Folder, request: string, provider: Provider, limit: nat)
    requires Admitted(c, f, request) && At(f, c.place(request)).final.Some?
    ensures var files := At(f, c.place(request));
      var (f', outcome) := T.Transfer(c, f, request, provider, limit);
      && f' == f
      && outcome == match files.receipt
                    case None => Refused(UnmanagedFile)
                    case Some(receipt) =>
                      if receipt.request == request && receipt.sha == c.sha(files.final.value) then Existing(receipt)
                      else Refused(ReceiptMismatch)
  {
    AdmittedExactly(c, f, request);
    assert c.place(request) in f.files;
  }

  /** The folder afterwards: managed, with these files in the place of the request and all others as before. */
  ghost predicate Leaves(c: Catalog, f: Folder, f': Folder, request: string, files: Files) {
    f' == Folder(Some(c.identity(request)), f.files[c.place(request) := files])
  }

  /** An uncut run of an admitted request for a file that is not finished: a partial file that the verifier
      accepts is finished as it is; otherwise the provider writes, and the run fails if the provider or the
      verifier does, leaving what was written as partial file, and finishes what the verifier accepts. */
  lemma UncutExactly(c: Catalog, f: Folder, request: string, provider: Provider, limit: nat)
    requires Admitted(c, f, request) && At(f, c.place(request)).final.None? && limit >= 5
    ensures var files := At(f, c.place(request));
      var (f', outcome) := T.Transfer(c, f, request, provider, limit);
      var written := AfterProvider(files.partial, provider);
      if Verified(c, request, files.partial).Some? then
        var receipt := Receipt(request, c.sha(files.partial.value), Verified(c, request, files.partial).value);
        outcome == Downloaded(receipt) && Leaves(c, f, f', request, Files(files.partial, Some(receipt), None))
      else if !provider.ok then
        outcome == FetchFailed && Leaves(c, f, f', request, files.(partial := written))
      else if Verified(c, request, written).None? then
        outcome == Invalid && Leaves(c, f, f', request, files.(partial := written))
      else
        var receipt := Receipt(request, c.sha(written.value), Verified(c, request, written).value);
        outcome == Downloaded(receipt) && Leaves(c, f, f', request, Files(written, Some(receipt), None))
  {
    AdmittedExactly(c, f, request);
    var (managed, refusal) := Collection(c, f, request);
    var p := c.place(request);
    assert At(managed, p) == At(f, p);
  }
}
