/** The install function as it is written: it validates, writes a fresh edition and swaps the link, in place. */
module Install {
  import opened Options
  import opened Editions
  import opened Publisher
  import opened PublisherSafety

  datatype Report = Report(edition: string, documents: nat, files: nat, previous: Option<Path>)

  class Storage {
    var top: map<string, Node>
    var editions: map<string, Tree>

    function Now(): Volume
      reads this
    {
      Volume(top, editions)
    }

    constructor (v: Volume)
      ensures Now() == v
    {
      top, editions := v.top, v.editions;
    }

    /** `mkdir` below an edition, content with an existing directory. */
    method MakeDirectory(edition: string, path: Path) returns (ok: bool)
      requires edition in editions
      modifies this`editions
      ensures ok <==> (path in old(editions)[edition] ==> old(editions)[edition][path].Dir?)
      ensures editions == if ok then old(editions)[edition := old(editions)[edition][path := Dir]] else old(editions)
    {
      var tree := editions[edition];
      if path in tree && !tree[path].Dir? { return false; }
      editions := editions[edition := tree[path := Dir]];
      ok := true;
    }

    method WriteBytes(edition: string, path: Path, data: Bytes) returns (ok: bool)
      requires edition in editions
      modifies this`editions
      ensures ok <==> (path in old(editions)[edition] ==> old(editions)[edition][path].File?)
      ensures editions == if ok then old(editions)[edition := old(editions)[edition][path := File(data)]]
              else old(editions)
    {
      var tree := editions[edition];
      if path in tree && !tree[path].File? { return false; }
      editions := editions[edition := tree[path := File(data)]];
      ok := true;
    }

    /** Makes the parent directories of entry `k`. */
    method MakeParents(edition: string, entries: seq<Entry>, k: nat) returns (ok: bool)
      requires k < |entries| && entries[k].path != []
      requires edition in editions && BuiltTo(editions[edition], entries, k)
      modifies this`editions
      ensures edition in editions && editions == old(editions)[edition := editions[edition]]
      ensures ok ==> DirsMade(editions[edition], entries, k, |entries[k].path|)
      ensures Fits(entries) ==> ok
    {
      hide BuiltTo, DirsMade, Fits;
      var path := entries[k].path;
      DirsStart(editions[edition], entries, k);
      var d := 1;
      while d < |path|
        invariant 1 <= d <= |path|
        invariant edition in editions && editions == old(editions)[edition := editions[edition]]
        invariant DirsMade(editions[edition], entries, k, d)
      {
        ghost var tree := editions[edition];
        var made := MakeDirectory(edition, path[..d]);
        if !made {
          InTheWay(tree, entries, k, d);
          return false;
        }
        DirsGrow(tree, entries, k, d);
        d := d + 1;
      }
      ok := true;
    }

    /** Writes one file of the edition. */
    method WriteEntry(edition: string, entries: seq<Entry>, k: nat) returns (ok: bool)
      requires k < |entries| && entries[k].path != []
      requires edition in editions && BuiltTo(editions[edition], entries, k)
      modifies this`editions
      ensures edition in editions && editions == old(editions)[edition := editions[edition]]
      ensures ok ==> BuiltTo(editions[edition], entries, k + 1)
      ensures Fits(entries) ==> ok
    {
      hide BuiltTo, DirsMade;
      ok := MakeParents(edition, entries, k);
      if ok {
        ghost var tree := editions[edition];
        ok := WriteBytes(edition, entries[k].path, entries[k].data);
        assert entries[k].path[..|entries[k].path|] == entries[k].path;
        if ok { FileWritten(tree, entries, k); } else { InTheWay(tree, entries, k, |entries[k].path|); }
      }
    }

    /** Writes a fresh edition with all entries. */
    method WriteEdition(edition: string, entries: seq<Entry>) returns (ok: bool)
      requires forall k :: 0 <= k < |entries| ==> entries[k].path != []
      modifies this
      ensures edition in old(editions) ==> !ok && editions == old(editions)
      ensures editions == old(editions)
              || (edition in editions && editions == old(editions)[edition := editions[edition]])
      ensures top == old(top) || (top == old(top)[EDITIONS := Dir]
              && (EDITIONS in old(top) ==> old(top)[EDITIONS].Dir?))
      ensures ok ==> HasEditions(Now()) && edition in editions && BuiltTo(editions[edition], entries, |entries|)
      ensures Fits(entries) && edition !in old(editions) && (EDITIONS in old(top) ==> old(top)[EDITIONS].Dir?) ==> ok
    {
      hide BuiltTo, Fits;
      if EDITIONS in top && !top[EDITIONS].Dir? { return false; }
      top := top[EDITIONS := Dir];
      if edition in editions { return false; }
      editions := editions[edition := map[[] := Dir]];
      NothingBuilt(entries);
      var k := 0;
      while k < |entries|
        invariant 0 <= k <= |entries|
        invariant top == old(top)[EDITIONS := Dir]
        invariant edition in editions && editions == old(editions)[edition := editions[edition]]
        invariant BuiltTo(editions[edition], entries, k)
      {
        var written := WriteEntry(edition, entries, k);
        if !written { return false; }
        k := k + 1;
      }
      ok := true;
    }

    /** Points the link at an edition by renaming a temporary link over it. */
    method SwapLink(edition: string, hex: string) returns (r: Result<Option<Path>>)
      modifies this`top
      ensures r.Success? <==> (ACTIVE in old(top) ==> old(top)[ACTIVE].Link?) && Temporary(hex) !in old(top)
      ensures r.Failure? ==> top == old(top)
      ensures r.Success? ==> top == old(top)[ACTIVE := Link(["_showcase-editions", edition])]
      ensures r.Success? ==> r.value == if ACTIVE in old(top) then Some(old(top)[ACTIVE].target) else None
    {
      if ACTIVE in top && !top[ACTIVE].Link? { return Failure(UnmanagedShowcase); }
      var temporary := Temporary(hex);
      if temporary in top { return Failure(FileExists); }
      top := top[temporary := LinkTo(edition)];
      var previous := if ACTIVE in top && top[ACTIVE].Link? then Some(top[ACTIVE].target) else None;
      top := (top - {temporary})[ACTIVE := top[temporary]];
      return Success(previous);
    }

    /** Validates the bundle and, if it passes, publishes it as `edition`. */
    method Run(catalog: Catalog, bundle: nat -> map<Path, Bytes>, digest: Bytes -> string, edition: string, hex: string)
      returns (r: Result<Report>, ghost job: Job)
      modifies this
      // Everything else that was there is still found where it was, whatever happens.
      ensures Untouched(old(Now()), Now())
      ensures StillFound(old(Now()), Now())
      // After a run that fails a reader finds what was there before.
      ensures r.Failure? ==> SameLink(old(Now()), Now())
      ensures r.Failure? ==> StillSeen(old(Now()), Now())
      // After a run that succeeds a reader finds exactly the verified files and the catalogue, in a new edition.
      ensures r.Success? ==> job.catalog == catalog && IsVerified(catalog, job.verified, bundle, digest)
      ensures r.Success? ==> edition !in old(editions) && CompleteEdition(Now(), edition, job, digest)
      ensures r.Success? ==> Shows(Now(), EntriesFor(catalog, bundle))
      ensures r.Success? ==> r.value == Report(edition, |catalog.documents|, |catalog.files|, TargetOf(old(Now())))
      // And with an unchanging bundle every listed path reads back.
      ensures r.Success? && Unchanging(catalog, bundle) ==> AllReadBack(editions, edition, job, digest)
      // It succeeds whenever the bundle passes, the names are free, the link is managed and no path is in another's
      // way.
      ensures (Accepts(catalog, bundle, digest) && Ready(old(Now()), edition, hex)
               && Fits(EntriesFor(catalog, bundle)))
              ==> r.Success?
    {
      hide BuiltTo, IsVerified, AllPass, AllReadBack, Accepts, Unchanging, Fits, CompleteEdition, EntriesFor, Entries,
           Shows, StillFound, StillSeen;
      job := Job(catalog, []);
      var validated := Validate(catalog, bundle, digest);
      if validated.Failure? {
        UntouchedStays(old(Now()), Now());
        return Failure(validated.error), job;
      }
      job := Job(catalog, validated.value);
      var entries := Entries(validated.value, catalog.text);
      EntriesAgree(catalog, validated.value, bundle, digest);
      var written := WriteEdition(edition, entries);
      if !written {
        UntouchedStays(old(Now()), Now());
        return Failure(FileExists), job;
      }
      var swapped := SwapLink(edition, hex);
      UntouchedStays(old(Now()), Now());
      if swapped.Failure? { return Failure(swapped.error), job; }
      CompleteIsShown(Now(), edition, entries);
      ReadBack(catalog, validated.value, bundle, digest, editions, edition);
      return Success(Report(edition, |catalog.documents|, |catalog.files|, swapped.value)), job;
    }
  }

  lemma NothingBuilt(entries: seq<Entry>)
    ensures BuiltTo(map[[] := Dir], entries, 0)
  {
  }

  predicate Unchanging(catalog: Catalog, bundle: nat -> map<Path, Bytes>) {
    forall k :: 0 <= k < |catalog.files| ==> bundle(k) == bundle(0)
  }

  lemma EntriesAgree(catalog: Catalog, verified: seq<Verified>, bundle: nat -> map<Path, Bytes>,
      digest: Bytes -> string)
    requires IsVerified(catalog, verified, bundle, digest)
    ensures Entries(verified, catalog.text) == EntriesFor(catalog, bundle)
    ensures |Entries(verified, catalog.text)| == |verified| + 1
  {
  }

  lemma VerifiedIsSound(job: Job, bundle: nat -> map<Path, Bytes>, digest: Bytes -> string)
    requires IsVerified(job.catalog, job.verified, bundle, digest)
    ensures Sound(job, digest)
  {
  }

  /** A complete edition of a verified bundle, and what reading it back gives. */
  lemma ReadBack(catalog: Catalog, verified: seq<Verified>, bundle: nat -> map<Path, Bytes>, digest: Bytes -> string,
                 editions: map<string, Tree>, edition: string)
    requires IsVerified(catalog, verified, bundle, digest)
    requires edition in editions && BuiltTo(editions[edition], Entries(verified, catalog.text), |verified| + 1)
    ensures forall top :: CompleteEdition(Volume(top, editions), edition, Job(catalog, verified), digest)
    ensures Unchanging(catalog, bundle) ==> AllReadBack(editions, edition, Job(catalog, verified), digest)
  {
    hide BuiltTo, Entries, ListingsAgree, ReadsBack;
    var job := Job(catalog, verified);
    VerifiedIsSound(job, bundle, digest);
    if Unchanging(catalog, bundle) {
      UnchangingBundleAgrees(job, bundle, digest);
      CompleteReadsBackIff(editions[edition], job, digest);
    }
  }

  predicate AllReadBack(editions: map<string, Tree>, edition: string, job: Job, digest: Bytes -> string) {
    edition in editions && forall k :: 0 <= k < |job.catalog.files| ==> ReadsBack(editions[edition], job, k, digest)
  }

  /** The names are free and the current link, if any, is a managed one. */
  predicate Ready(v: Volume, edition: string, hex: string) {
    && (EDITIONS in v.top ==> v.top[EDITIONS].Dir?)
    && edition !in v.editions
    && Temporary(hex) !in v.top
    && (ACTIVE in v.top ==> v.top[ACTIVE].Link?)
  }

  /** The files an accepted bundle makes an edition of. */
  function EntriesFor(catalog: Catalog, bundle: nat -> map<Path, Bytes>): seq<Entry> {
    seq(|catalog.files|, k requires 0 <= k < |catalog.files| =>
      var path := Normal(catalog.files[k].path);
      Entry(["content"] + path, if path in bundle(k) then bundle(k)[path] else []))
    + [Entry(["catalog.json"], catalog.text)]
  }
}
