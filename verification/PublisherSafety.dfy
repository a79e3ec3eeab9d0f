/** What every run of the publisher guarantees, whatever stops where. */
module PublisherSafety {
  import opened Options
  import opened Editions
  import opened Publisher
  import Text

  predicate SoundStarts(actions: seq<Action>, digest: Bytes -> string) {
    forall k :: 0 <= k < |actions| && actions[k].Start? ==> Sound(actions[k].job, digest)
  }

  predicate SoundWorld(w: World, digest: Bytes -> string) {
    forall id :: id in w.installers ==> Sound(w.installers[id].job, digest)
  }

  lemma StepKeepsSound(w: World, a: Action, digest: Bytes -> string)
    requires SoundWorld(w, digest) && (a.Start? ==> Sound(a.job, digest))
    ensures SoundWorld(Step(w, a), digest)
  {
  }

  lemma {:induction false} JobsAreSound(v0: Volume, actions: seq<Action>, digest: Bytes -> string)
    requires SoundStarts(actions, digest)
    ensures SoundWorld(Run(World(v0, map[]), actions), digest)
  {
    if actions != [] {
      JobsAreSound(v0, actions[..|actions| - 1], digest);
      StepKeepsSound(Run(World(v0, map[]), actions[..|actions| - 1]), actions[|actions| - 1], digest);
    }
  }

  /** The edition is completely written and everything in it was verified. */
  ghost predicate CompleteEdition(v: Volume, edition: string, job: Job, digest: Bytes -> string) {
    && Sound(job, digest)
    && edition in v.editions
    && BuiltTo(v.editions[edition], Entries(job.verified, job.catalog.text), |job.verified| + 1)
  }

  // ---------------------------------------------------------------------------------------
  // What a reader finds
  // ---------------------------------------------------------------------------------------

  /** Following the link of an edition ends in that edition's tree. */
  lemma LinkLeadsToTree(v: Volume, edition: string, path: Path)
    requires ACTIVE in v.top && v.top[ACTIVE] == LinkTo(edition) && HasEditions(v) && edition in v.editions
    ensures Seen(v, path) == if path in v.editions[edition] then Some(v.editions[edition][path]) else None
  {
    assert ([EDITIONS, edition] + path)[2..] == path;
  }

  lemma CompleteIsShown(v: Volume, edition: string, entries: seq<Entry>)
    requires ACTIVE in v.top && v.top[ACTIVE] == LinkTo(edition) && HasEditions(v) && edition in v.editions
    requires BuiltTo(v.editions[edition], entries, |entries|)
    ensures Shows(v, entries)
  {
    hide IsEntry, IsParent, LastData, Seen;
    forall path ensures Seen(v, path) == NodeOf(entries, path) {
      LinkLeadsToTree(v, edition, path);
    }
  }

  /** Where nothing was touched, whatever stood anywhere but at the link still stands there. */
  lemma UntouchedIsFound(v0: Volume, v: Volume, path: Path)
    requires Untouched(v0, v) && Find(v0, path).Some? && (path == [] || path[0] != ACTIVE)
    ensures Find(v, path) == Find(v0, path)
  {
  }

  /** And with the prior link a reader finds what was there before. */
  lemma PriorIsSeen(v0: Volume, v: Volume, path: Path)
    requires Untouched(v0, v) && SameLink(v0, v) && Seen(v0, path).Some?
    ensures Seen(v, path) == Seen(v0, path)
  {
    var target := v0.top[ACTIVE].target + path;
    if target == [] || target[0] != ACTIVE { UntouchedIsFound(v0, v, target); }
  }

  /** Whatever stood anywhere but at the link still stands there. */
  ghost predicate StillFound(v0: Volume, v: Volume) {
    forall path :: Find(v0, path).Some? && (path == [] || path[0] != ACTIVE) ==> Find(v, path) == Find(v0, path)
  }

  /** A reader finds what was there before. */
  ghost predicate StillSeen(v0: Volume, v: Volume) {
    forall path :: Seen(v0, path).Some? ==> Seen(v, path) == Seen(v0, path)
  }

  lemma UntouchedStays(v0: Volume, v: Volume)
    requires Untouched(v0, v)
    ensures StillFound(v0, v) && (SameLink(v0, v) ==> StillSeen(v0, v))
  {
    hide Find, Seen, Untouched, SameLink;
    forall path | Find(v0, path).Some? && (path == [] || path[0] != ACTIVE) ensures Find(v, path) == Find(v0, path) {
      UntouchedIsFound(v0, v, path);
    }
    if SameLink(v0, v) {
      forall path | Seen(v0, path).Some? ensures Seen(v, path) == Seen(v0, path) { PriorIsSeen(v0, v, path); }
    }
  }

  /** Crash-safe publishing: after any steps of any number of installers a reader finds under the link what was there
      before, or exactly the verified files and the catalogue of one new edition; and everything that was there before,
      the prior target included, is still found where it was. */
  lemma LinkIsPriorOrComplete(v0: Volume, actions: seq<Action>, digest: Bytes -> string)
    requires SoundStarts(actions, digest)
    ensures var w := Run(World(v0, map[]), actions);
      && StillFound(v0, w.volume)
      && ((SameLink(v0, w.volume) && StillSeen(v0, w.volume))
          || exists id :: id in w.installers && w.installers[id].edition !in v0.editions
               && Sound(w.installers[id].job, digest) && Shows(w.volume, EntriesOf(w.installers[id])))
  {
    var w := Run(World(v0, map[]), actions);
    RunKeepsInv(v0, actions);
    JobsAreSound(v0, actions, digest);
    assert Untouched(v0, w.volume);
    hide Untouched, SameLink, Sound, Shows;
    UntouchedStays(v0, w.volume);
    if !SameLink(v0, w.volume) { PublishedIsShown(v0, w); }
  }

  lemma PublishedIsShown(v0: Volume, w: World)
    requires Inv(v0, w) && !SameLink(v0, w.volume)
    ensures exists id :: id in w.installers && w.installers[id].edition !in v0.editions
              && Shows(w.volume, EntriesOf(w.installers[id]))
  {
    var id :| id in w.installers && w.installers[id].pc.Published?
              && ACTIVE in w.volume.top && w.volume.top[ACTIVE] == LinkTo(w.installers[id].edition);
    assert InstallerOk(v0, w.volume, w.installers[id]);
    CompleteIsShown(w.volume, w.installers[id].edition, EntriesOf(w.installers[id]));
  }

  /** The installer has closed its last file. */
  predicate Written(p: Installer) {
    p.pc.CheckActive? || p.pc.MakeLink? || p.pc.ReadPrevious? || p.pc.Replace? || p.pc.Published?
  }

  /** Installer `id` has written `edition`, which holds `tree`. */
  predicate Frozen(w: World, id: nat, edition: string, tree: Tree) {
    && id in w.installers && w.installers[id].edition == edition && OwnsEdition(w.installers[id])
    && (Written(w.installers[id]) || w.installers[id].pc.Raised?)
    && edition in w.volume.editions && w.volume.editions[edition] == tree
  }

  lemma StepFreezes(v0: Volume, w: World, a: Action, id: nat, edition: string, tree: Tree)
    requires Inv(v0, w) && Frozen(w, id, edition, tree)
    ensures Frozen(Step(w, a), id, edition, tree)
  {
    var p := w.installers[id];
    assert InstallerOk(v0, w.volume, p);
    if a.Call? && a.id in w.installers && a.id != id {
      var q := w.installers[a.id];
      assert InstallerOk(v0, w.volume, q);
      AdvanceIsContained(v0, w.volume, q, a.chunk);
      assert Distinct(p, q);
    }
  }

  lemma {:induction false} RunFreezes(v0: Volume, w: World, actions: seq<Action>, id: nat, edition: string, tree: Tree)
    requires Inv(v0, w) && Frozen(w, id, edition, tree)
    ensures Inv(v0, Run(w, actions)) && Frozen(Run(w, actions), id, edition, tree)
  {
    if actions != [] {
      var most := actions[..|actions| - 1];
      RunFreezes(v0, w, most, id, edition, tree);
      StepKeepsInv(v0, Run(w, most), actions[|actions| - 1]);
      StepFreezes(v0, Run(w, most), actions[|actions| - 1], id, edition, tree);
    }
  }

  /** No edition is written again once its installer has closed the last file, published or not. */
  lemma WrittenEditionIsFrozen(v0: Volume, before: seq<Action>, after: seq<Action>, id: nat)
    requires var w := Run(World(v0, map[]), before); id in w.installers && Written(w.installers[id])
    ensures var w := Run(World(v0, map[]), before);
      var w' := Run(w, after);
      var edition := w.installers[id].edition;
      && edition in w.volume.editions && edition in w'.volume.editions
      && w'.volume.editions[edition] == w.volume.editions[edition]
  {
    RunKeepsInv(v0, before);
    var w := Run(World(v0, map[]), before);
    assert InstallerOk(v0, w.volume, w.installers[id]);
    RunFreezes(v0, w, after, id, w.installers[id].edition, w.installers[id].tree);
  }

  /** Only a system call that publishes moves the link: an installer that raises has left it as it was. */
  lemma OnlyPublishingMovesLink(v0: Volume, w: World, a: Action)
    requires Inv(v0, w) && !SameLink(w.volume, Step(w, a).volume)
    ensures a.Call? && a.id in w.installers
    ensures w.installers[a.id].pc.Replace? && Step(w, a).installers[a.id].pc.Published?
    ensures CompleteAt(Step(w, a), a.id) && Shows(Step(w, a).volume, EntriesOf(w.installers[a.id]))
  {
    PublishingShows(v0, w, a);
    hide Shows;
    var p := w.installers[a.id];
    assert InstallerOk(v0, w.volume, p);
    AdvanceIsContained(v0, w.volume, p, a.chunk);
    AdvanceProgresses(v0, w.volume, p, a.chunk);
    OwnEdition(v0, w.volume, p, a.chunk);
  }

  lemma PublishingShows(v0: Volume, w: World, a: Action)
    requires Inv(v0, w) && !SameLink(w.volume, Step(w, a).volume)
    ensures a.Call? && a.id in w.installers && Shows(Step(w, a).volume, EntriesOf(w.installers[a.id]))
  {
    hide Advance, Shows, Untouched, LinkOk, IsEntry, IsParent;
    var p := w.installers[a.id];
    var moved := Advance(w.volume, p, a.chunk);
    assert InstallerOk(v0, w.volume, p);
    AdvanceIsContained(v0, w.volume, p, a.chunk);
    CallerStaysOk(v0, w.volume, p, a.chunk);
    assert moved.installer.pc.Published? && Progress(moved.installer);
    CompleteIsShown(moved.volume, p.edition, EntriesOf(p));
  }

  ghost predicate CompleteAt(w: World, id: nat)
    requires id in w.installers
  {
    var p := w.installers[id];
    && p.edition in w.volume.editions
    && BuiltTo(w.volume.editions[p.edition], EntriesOf(p), |EntriesOf(p)|)
  }

  // ---------------------------------------------------------------------------------------
  // Reading an installed edition back
  // ---------------------------------------------------------------------------------------

  /** The path under which an edition keeps a listed file. */
  function ContentPath(path: string): Path {
    ["content"] + Normal(path)
  }

  /** The file listed at `k` reads back with exactly the listed size and digest. */
  predicate ReadsBack(tree: Tree, job: Job, k: nat, digest: Bytes -> string)
    requires k < |job.catalog.files|
  {
    var path := ContentPath(job.catalog.files[k].path);
    path in tree && tree[path].File? && Meets(tree[path].data, job.catalog.files[k].meta, digest)
  }

  predicate Aliases(job: Job, j: nat, k: nat)
    requires j < |job.catalog.files| && k < |job.catalog.files|
  {
    Normal(job.catalog.files[j].path) == Normal(job.catalog.files[k].path)
  }

  /** File `k` is the last one listed for the target of file `j`. */
  predicate IsLastAlias(job: Job, j: nat, k: int)
    requires |job.verified| == |job.catalog.files| && j < |job.verified|
  {
    && 0 <= k < |job.verified| && Aliases(job, j, k)
    && forall i :: k < i < |job.verified| ==> !Aliases(job, i, k)
  }

  /** Paths of the catalogue that name one target list one size and digest. */
  predicate ListingsAgree(catalog: Catalog) {
    forall j, k :: 0 <= j < |catalog.files| && 0 <= k < |catalog.files|
                   && Normal(catalog.files[j].path) == Normal(catalog.files[k].path)
      ==> catalog.files[j].meta == catalog.files[k].meta
  }

  lemma {:induction false} LastDataIs(entries: seq<Entry>, n: nat, path: Path) returns (k: nat)
    requires n <= |entries| && IsEntry(entries, n, path)
    ensures k < n && entries[k].path == path && LastData(entries, n, path) == entries[k].data
    ensures forall i :: k < i < n ==> entries[i].path != path
  {
    if entries[n - 1].path == path {
      k := n - 1;
    } else {
      assert IsEntry(entries, n - 1, path);
      k := LastDataIs(entries, n - 1, path);
    }
  }

  lemma SameContent(a: string, b: string)
    ensures ContentPath(a) == ContentPath(b) <==> Normal(a) == Normal(b)
  {
    assert ContentPath(a)[1..] == Normal(a) && ContentPath(b)[1..] == Normal(b);
  }

  /** The last file listed for the same target as file `j`. */
  lemma LastAlias(job: Job, j: nat) returns (k: nat)
    requires |job.verified| == |job.catalog.files| && j < |job.verified|
    requires forall i :: 0 <= i < |job.verified| ==> job.verified[i].path == job.catalog.files[i].path
    ensures IsLastAlias(job, j, k)
    ensures var entries := Entries(job.verified, job.catalog.text);
      var path := ContentPath(job.catalog.files[j].path);
      IsEntry(entries, |entries|, path) && LastData(entries, |entries|, path) == job.verified[k].data
  {
    var entries := Entries(job.verified, job.catalog.text);
    var path := ContentPath(job.catalog.files[j].path);
    assert entries[j].path == path;
    k := LastDataIs(entries, |entries|, path);
    assert entries[|job.verified|].path[0] == "catalog.json" && path[0] == "content";
    SameContent(job.verified[j].path, job.verified[k].path);
    forall i | k < i < |job.verified| ensures !Aliases(job, i, k) {
      assert entries[i].path != path;
      SameContent(job.verified[i].path, job.verified[k].path);
    }
  }

  lemma EntryIsKept(tree: Tree, entries: seq<Entry>, path: Path)
    requires BuiltTo(tree, entries, |entries|) && IsEntry(entries, |entries|, path)
    ensures path in tree && tree[path] == File(LastData(entries, |entries|, path))
  {
  }

  lemma SoundPaths(job: Job, digest: Bytes -> string)
    requires Sound(job, digest)
    ensures forall i :: 0 <= i < |job.verified| ==> job.verified[i].path == job.catalog.files[i].path
  {
  }

  /** A complete edition holds the data of the last alias. */
  lemma LastAliasIsKept(tree: Tree, job: Job, j: nat) returns (k: nat)
    requires |job.verified| == |job.catalog.files| && j < |job.verified|
    requires forall i :: 0 <= i < |job.verified| ==> job.verified[i].path == job.catalog.files[i].path
    requires BuiltTo(tree, Entries(job.verified, job.catalog.text), |job.verified| + 1)
    ensures IsLastAlias(job, j, k)
    ensures var path := ContentPath(job.catalog.files[j].path); path in tree && tree[path] == File(job.verified[k].data)
  {
    hide *;
    k := LastAlias(job, j);
    EntryIsKept(tree, Entries(job.verified, job.catalog.text), ContentPath(job.catalog.files[j].path));
  }

  /** File `j` reads back exactly when the last file listed for its target meets its listing. */
  lemma ReadsBackLast(tree: Tree, job: Job, digest: Bytes -> string, j: nat) returns (k: nat)
    requires Sound(job, digest) && j < |job.verified|
    requires BuiltTo(tree, Entries(job.verified, job.catalog.text), |job.verified| + 1)
    ensures IsLastAlias(job, j, k)
    ensures ReadsBack(tree, job, j, digest) <==> Meets(job.verified[k].data, job.catalog.files[j].meta, digest)
  {
    SoundPaths(job, digest);
    hide Entries, BuiltTo, Sound, IsLastAlias, Normal, Meets;
    k := LastAliasIsKept(tree, job, j);
  }

  lemma LastAliasIsUnique(job: Job, j: nat, k: int, l: int)
    requires |job.verified| == |job.catalog.files| && j < |job.verified|
    requires IsLastAlias(job, j, k) && IsLastAlias(job, j, l)
    ensures k == l
  {
    assert Aliases(job, l, k) && Aliases(job, k, l);
  }

  ghost predicate KeepsLast(tree: Tree, job: Job, digest: Bytes -> string)
    requires |job.verified| == |job.catalog.files|
  {
    forall j, k :: 0 <= j < |job.verified| && IsLastAlias(job, j, k)
      ==> (ReadsBack(tree, job, j, digest) <==> Meets(job.verified[k].data, job.catalog.files[j].meta, digest))
  }

  lemma CompleteKeepsLast(tree: Tree, job: Job, digest: Bytes -> string)
    requires Sound(job, digest) && BuiltTo(tree, Entries(job.verified, job.catalog.text), |job.verified| + 1)
    ensures KeepsLast(tree, job, digest)
  {
    forall j, k | 0 <= j < |job.verified| && IsLastAlias(job, j, k)
      ensures ReadsBack(tree, job, j, digest) <==> Meets(job.verified[k].data, job.catalog.files[j].meta, digest)
    {
      var last := ReadsBackLast(tree, job, digest, j);
      LastAliasIsUnique(job, j, k, last);
    }
  }

  /** What meets its own listing meets an alias's exactly if the listings are the same. */
  lemma MeetsAliasIff(job: Job, digest: Bytes -> string, j: nat, k: nat)
    requires Sound(job, digest) && j < |job.verified| && k < |job.verified|
    ensures Meets(job.verified[k].data, job.catalog.files[j].meta, digest)
            <==> job.catalog.files[j].meta == job.catalog.files[k].meta
  {
    assert Meets(job.verified[k].data, job.catalog.files[k].meta, digest);
  }

  lemma KeepsLastReadsBackIff(tree: Tree, job: Job, digest: Bytes -> string)
    requires Sound(job, digest) && KeepsLast(tree, job, digest)
    ensures (forall j :: 0 <= j < |job.verified| ==> ReadsBack(tree, job, j, digest)) <==> ListingsAgree(job.catalog)
  {
    SoundPaths(job, digest);
    hide Sound, ReadsBack, Meets, Normal;
    if ListingsAgree(job.catalog) {
      forall j | 0 <= j < |job.verified| ensures ReadsBack(tree, job, j, digest) {
        var k := LastAlias(job, j);
        MeetsAliasIff(job, digest, j, k);
      }
    }
    if forall j :: 0 <= j < |job.verified| ==> ReadsBack(tree, job, j, digest) {
      forall j, k | 0 <= j < |job.verified| && 0 <= k < |job.verified| && Aliases(job, j, k)
        ensures job.catalog.files[j].meta == job.catalog.files[k].meta
      {
        var l := LastAlias(job, j);
        assert IsLastAlias(job, k, l);
        MeetsAliasIff(job, digest, j, l);
        MeetsAliasIff(job, digest, k, l);
      }
    }
  }

  /** A complete edition reads back exactly what the catalogue lists, for every logical path, if and only if the paths
      of the catalogue that name one target list one size and digest. */
  lemma CompleteReadsBackIff(tree: Tree, job: Job, digest: Bytes -> string)
    requires Sound(job, digest) && BuiltTo(tree, Entries(job.verified, job.catalog.text), |job.verified| + 1)
    ensures (forall j :: 0 <= j < |job.verified| ==> ReadsBack(tree, job, j, digest)) <==> ListingsAgree(job.catalog)
  {
    CompleteKeepsLast(tree, job, digest);
    KeepsLastReadsBackIff(tree, job, digest);
  }

  /** A catalogue that an unchanging bundle meets agrees, so every installed file reads back. */
  lemma UnchangingBundleAgrees(job: Job, bundle: nat -> map<Path, Bytes>, digest: Bytes -> string)
    requires IsVerified(job.catalog, job.verified, bundle, digest)
    requires forall k :: 0 <= k < |job.verified| ==> bundle(k) == bundle(0)
    ensures Sound(job, digest) && ListingsAgree(job.catalog)
  {
  }

  /** A bundle whose file `a` changes between the reading of `a` and of `./a`. */
  function ChangingBundle(x: Bytes, y: Bytes): nat -> map<Path, Bytes> {
    k => map[["a"] := if k == 0 then x else y]
  }

  function TwoSpellingsListed(x: Bytes, y: Bytes, text: Bytes, digest: Bytes -> string): Catalog {
    Catalog(true, [Listed("a", Meta(|x|, digest(x))), Listed("./a", Meta(|y|, digest(y)))], [], text)
  }

  /** A changing bundle that is accepted, and whose edition, however it was completed, does not read back. */
  lemma ChangingBundleMisreads(x: Bytes, y: Bytes, text: Bytes, digest: Bytes -> string)
    requires |x| != |y|
    ensures var catalog, bundle := TwoSpellingsListed(x, y, text, digest), ChangingBundle(x, y);
            var job := Job(catalog, [Verified("a", x), Verified("./a", y)]);
            && Accepts(catalog, bundle, digest) && IsVerified(catalog, job.verified, bundle, digest)
            && Sound(job, digest)
            && forall tree :: BuiltTo(tree, Entries(job.verified, text), 3)
                 ==> exists j :: 0 <= j < 2 && !ReadsBack(tree, job, j, digest)
  {
    var catalog, bundle := TwoSpellingsListed(x, y, text, digest), ChangingBundle(x, y);
    var job := Job(catalog, [Verified("a", x), Verified("./a", y)]);
    TwoSpellings();
    ChangingBundleIsAccepted(x, y, text, digest);
    assert catalog.files[0].meta != catalog.files[1].meta;
    assert !ListingsAgree(catalog);
    hide Normal, Unsafe, ReadsBack, ListingsAgree, BuiltTo, Accepts, IsVerified, Sound;
    forall tree | BuiltTo(tree, Entries(job.verified, text), 3)
      ensures exists j :: 0 <= j < 2 && !ReadsBack(tree, job, j, digest)
    {
      CompleteReadsBackIff(tree, job, digest);
    }
  }

  lemma ChangingBundleIsAccepted(x: Bytes, y: Bytes, text: Bytes, digest: Bytes -> string)
    ensures var catalog, bundle := TwoSpellingsListed(x, y, text, digest), ChangingBundle(x, y);
            var job := Job(catalog, [Verified("a", x), Verified("./a", y)]);
            Accepts(catalog, bundle, digest) && IsVerified(catalog, job.verified, bundle, digest) && Sound(job, digest)
  {
    TwoSpellings();
    hide Normal, Unsafe;
  }

  /** Such an edition can be completed: the second spelling has overwritten the first. */
  lemma ChangingBundleIsWritten(x: Bytes, y: Bytes, text: Bytes)
    ensures BuiltTo(map[[] := Dir, ["content"] := Dir, ["content", "a"] := File(y), ["catalog.json"] := File(text)],
                    Entries([Verified("a", x), Verified("./a", y)], text), 3)
  {
    var entries := Entries([Verified("a", x), Verified("./a", y)], text);
    TwoSpellings();
    hide Normal;
    assert entries[0] == Entry(["content", "a"], x) && entries[1] == Entry(["content", "a"], y);
    var t0: Tree := map[[] := Dir];
    assert BuiltTo(t0, entries, 0);
    var t1 := t0[["content"] := Dir][["content", "a"] := File(x)];
    WrittenBelow(t0, entries, 0);
    assert t1[["content"] := Dir] == t1;
    WrittenBelow(t1, entries, 1);
    var t2 := t1[["content", "a"] := File(y)];
    DirsStart(t2, entries, 2);
    FileWritten(t2, entries, 2);
    assert t2[["catalog.json"] := File(text)]
           == map[[] := Dir, ["content"] := Dir, ["content", "a"] := File(y), ["catalog.json"] := File(text)];
  }

  /** Writing a file two levels down. */
  lemma WrittenBelow(tree: Tree, entries: seq<Entry>, n: nat)
    requires n < |entries| && |entries[n].path| == 2 && BuiltTo(tree, entries, n)
    requires entries[n].path[..1] in tree ==> tree[entries[n].path[..1]] == Dir
    requires entries[n].path in tree ==> tree[entries[n].path].File?
    ensures BuiltTo(tree[entries[n].path[..1] := Dir][entries[n].path := File(entries[n].data)], entries, n + 1)
  {
    DirsStart(tree, entries, n);
    hide BuiltTo, IsEntry, IsParent;
    DirsGrow(tree, entries, n, 1);
    FileWritten(tree[entries[n].path[..1] := Dir], entries, n);
  }

  /** `a` and `./a` are two spellings of one safe path. */
  lemma TwoSpellings()
    ensures Normal("a") == ["a"] && Normal("./a") == ["a"] && !Unsafe("a") && !Unsafe("./a")
  {
    assert Text.Split('/', "") == [""];
    assert "a"[1..] == "" && ['a'] + "" == "a" && Text.Split('/', "a") == ["a"];
    assert "./a"[1..] == "/a" && "/a"[1..] == "a" && Text.Split('/', "/a") == ["", "a"];
    assert ['.'] + "" == "." && Text.Split('/', "./a") == [".", "a"];
    assert Named([]) == [] && ["a"][1..] == [] && Named(["a"]) == ["a"];
    assert [".", "a"][1..] == ["a"] && Named([".", "a"]) == ["a"];
  }
}
