/** The research edition publisher: catalogue validation and the tree an edition is built into. */
module Editions {
  import opened Text

  newtype Byte = b: int | 0 <= b < 256

  type Bytes = seq<Byte>

  /** Path segments below the tenant root, or below a bundle's content directory. */
  type Path = seq<string>

  datatype Node = Dir | File(data: Bytes) | Link(target: Path)

  type Tree = map<Path, Node>

  datatype Meta = Meta(bytes: nat, sha256: string)

  datatype Listed = Listed(path: string, meta: Meta)

  /** A parsed catalogue: `files` in the order of the object, `documents` by their path field, and `text` the printed
      catalogue that the edition keeps. */
  datatype Catalog = Catalog(available: bool, files: seq<Listed>, documents: seq<string>, text: Bytes)

  datatype Error =
    | InvalidEdition
    | UnsafePath
    | OutsideBundle
    | ChecksumMismatch(path: string)
    | MissingDocument
    | FileExists
    | UnmanagedShowcase

  datatype Result<+T> = Success(value: T) | Failure(error: Error)

  /** A file that has passed the checks, under its logical path. */
  datatype Verified = Verified(path: string, data: Bytes)

  // ---------------------------------------------------------------------------------------
  // Logical paths
  // ---------------------------------------------------------------------------------------

  /** The segments that name something: empty ones and single dots are dropped. */
  function Named(parts: seq<string>): (path: Path)
    ensures forall k :: 0 <= k < |path| ==> path[k] != "" && path[k] != "." && path[k] in parts
  {
    if parts == [] then []
    else if parts[0] == "" || parts[0] == "." then Named(parts[1..])
    else [parts[0]] + Named(parts[1..])
  }

  function Normal(s: string): Path {
    Named(Split('/', s))
  }

  predicate Unsafe(s: string) {
    || (s != "" && s[0] == '/')
    || ".." in Normal(s)
    || '\\' in s
  }

  predicate Meets(data: Bytes, meta: Meta, digest: Bytes -> string) {
    |data| == meta.bytes && digest(data) == meta.sha256
  }

  // ---------------------------------------------------------------------------------------
  // Validation
  // ---------------------------------------------------------------------------------------

  /** The check of one listed file against the bundle as it is read at that moment. */
  function CheckFile(listed: Listed, bundle: map<Path, Bytes>, digest: Bytes -> string): Result<Verified> {
    if Unsafe(listed.path) then Failure(UnsafePath)
    else if Normal(listed.path) == [] || Normal(listed.path) !in bundle then Failure(OutsideBundle)
    else if !Meets(bundle[Normal(listed.path)], listed.meta, digest) then Failure(ChecksumMismatch(listed.path))
    else Success(Verified(listed.path, bundle[Normal(listed.path)]))
  }

  function Listing(files: seq<Listed>): set<string> {
    set k | 0 <= k < |files| :: files[k].path
  }

  predicate WellSized(catalog: Catalog) {
    catalog.available && 0 < |catalog.files| <= 500
  }

  /** The first `n` files pass. */
  predicate AllPass(catalog: Catalog, n: nat, bundle: nat -> map<Path, Bytes>, digest: Bytes -> string)
    requires n <= |catalog.files|
  {
    forall k :: 0 <= k < n ==> CheckFile(catalog.files[k], bundle(k), digest).Success?
  }

  /** `verified` holds, file by file, the safely named bytes that were read and that meet the catalogue. */
  predicate IsVerified(catalog: Catalog, verified: seq<Verified>, bundle: nat -> map<Path, Bytes>,
      digest: Bytes -> string) {
    && |verified| == |catalog.files|
    && forall k :: 0 <= k < |verified| ==>
         && verified[k].path == catalog.files[k].path
         && !Unsafe(verified[k].path) && Normal(verified[k].path) in bundle(k)
         && verified[k].data == bundle(k)[Normal(verified[k].path)]
         && Meets(verified[k].data, catalog.files[k].meta, digest)
  }

  /** The bundle passes when every file does, at the moment it is read, and every document is listed. */
  predicate Accepts(catalog: Catalog, bundle: nat -> map<Path, Bytes>, digest: Bytes -> string) {
    && WellSized(catalog)
    && AllPass(catalog, |catalog.files|, bundle, digest)
    && (forall d :: d in catalog.documents ==> d in Listing(catalog.files))
  }

  /** A file that fails after all before it have passed decides the error. */
  predicate RejectsAtFirst(catalog: Catalog, bundle: nat -> map<Path, Bytes>, digest: Bytes -> string,
      r: Result<seq<Verified>>) {
    forall k :: 0 <= k < |catalog.files| ==>
      var checked := CheckFile(catalog.files[k], bundle(k), digest);
      AllPass(catalog, k, bundle, digest) && checked.Failure? ==> r == Failure(checked.error)
  }

  /** Reads and checks every listed file.  Reading takes time: file `k` is read from `bundle(k)`. */
  method Validate(catalog: Catalog, bundle: nat -> map<Path, Bytes>, digest: Bytes -> string)
    returns (r: Result<seq<Verified>>)
    ensures r.Success? <==> Accepts(catalog, bundle, digest)
    ensures r.Success? ==> IsVerified(catalog, r.value, bundle, digest)
    ensures !WellSized(catalog) ==> r == Failure(InvalidEdition)
    ensures WellSized(catalog) ==> RejectsAtFirst(catalog, bundle, digest, r)
    ensures WellSized(catalog) && AllPass(catalog, |catalog.files|, bundle, digest) && r.Failure? ==>
              r.error == MissingDocument
  {
    hide Unsafe, Normal, Listing;
    if !catalog.available || |catalog.files| == 0 || |catalog.files| > 500 { return Failure(InvalidEdition); }
    var verified := [];
    for k := 0 to |catalog.files|
      invariant |verified| == k
      invariant forall j :: 0 <= j < k ==> CheckFile(catalog.files[j], bundle(j), digest) == Success(verified[j])
    {
      var listed := catalog.files[k];
      if Unsafe(listed.path) { return Failure(UnsafePath); }
      var path := Normal(listed.path);
      if path == [] || path !in bundle(k) { return Failure(OutsideBundle); }
      var data := bundle(k)[path];
      if |data| != listed.meta.bytes || digest(data) != listed.meta.sha256 {
        return Failure(ChecksumMismatch(listed.path));
      }
      verified := verified + [Verified(listed.path, data)];
    }
    for k := 0 to |catalog.documents|
      invariant forall j :: 0 <= j < k ==> catalog.documents[j] in Listing(catalog.files)
    {
      if catalog.documents[k] !in Listing(catalog.files) { return Failure(MissingDocument); }
    }
    return Success(verified);
  }

  /** A listed file passes exactly if it is safely named, is there when it is read, and has the listed size and
      digest. */
  predicate Passes(listed: Listed, bundle: map<Path, Bytes>, digest: Bytes -> string) {
    && !Unsafe(listed.path) && Normal(listed.path) != [] && Normal(listed.path) in bundle
    && |bundle[Normal(listed.path)]| == listed.meta.bytes
    && digest(bundle[Normal(listed.path)]) == listed.meta.sha256
  }

  /** An edition is accepted exactly if it is available, lists from 1 to 500 files that all pass, and every document is
      a listed file. */
  lemma AcceptsIff(catalog: Catalog, bundle: nat -> map<Path, Bytes>, digest: Bytes -> string)
    ensures Accepts(catalog, bundle, digest)
            <==> && catalog.available && 1 <= |catalog.files| <= 500
                 && (forall k :: 0 <= k < |catalog.files| ==> Passes(catalog.files[k], bundle(k), digest))
                 && forall d :: 0 <= d < |catalog.documents| ==> IsListed(catalog.files, catalog.documents[d])
  {
    hide Unsafe, Normal, Listing, IsListed;
    DocumentsIff(catalog);
    assert forall k :: 0 <= k < |catalog.files| ==>
      (CheckFile(catalog.files[k], bundle(k), digest).Success? <==> Passes(catalog.files[k], bundle(k), digest));
  }

  predicate IsListed(files: seq<Listed>, path: string) {
    exists k :: 0 <= k < |files| && files[k].path == path
  }

  lemma DocumentsIff(catalog: Catalog)
    ensures (forall d :: d in catalog.documents ==> d in Listing(catalog.files))
            <==> forall d :: 0 <= d < |catalog.documents| ==> IsListed(catalog.files, catalog.documents[d])
  {
    hide Listing, IsListed;
    forall path ensures path in Listing(catalog.files) <==> IsListed(catalog.files, path) {
      ListingIff(catalog.files, path);
    }
    if forall d :: d in catalog.documents ==> d in Listing(catalog.files) {
      forall d | 0 <= d < |catalog.documents| ensures IsListed(catalog.files, catalog.documents[d]) {
        assert catalog.documents[d] in catalog.documents;
      }
    }
  }

  lemma ListingIff(files: seq<Listed>, path: string)
    ensures path in Listing(files) <==> IsListed(files, path)
  {
  }

  // ---------------------------------------------------------------------------------------
  // The tree of an edition
  // ---------------------------------------------------------------------------------------

  /** One file to write, by its path below the edition. */
  datatype Entry = Entry(path: Path, data: Bytes)

  function Entries(verified: seq<Verified>, text: Bytes): (entries: seq<Entry>)
    ensures |entries| == |verified| + 1
    ensures forall k :: 0 <= k < |verified| ==>
      entries[k] == Entry(["content"] + Normal(verified[k].path), verified[k].data)
    ensures entries[|verified|] == Entry(["catalog.json"], text)
    ensures forall k :: 0 <= k < |entries| ==> entries[k].path != []
  {
    seq(|verified|, k requires 0 <= k < |verified| => Entry(["content"] + Normal(verified[k].path), verified[k].data))
    + [Entry(["catalog.json"], text)]
  }

  /** The data that the first `n` entries leave at `path`: the last one written there. */
  function LastData(entries: seq<Entry>, n: nat, path: Path): (data: Bytes)
    requires n <= |entries|
    requires IsEntry(entries, n, path)
  {
    if entries[n - 1].path == path then entries[n - 1].data
    else
      assert forall k :: 0 <= k < n && entries[k].path == path ==> k < n - 1;
      LastData(entries, n - 1, path)
  }

  predicate IsEntry(entries: seq<Entry>, n: nat, path: Path)
    requires n <= |entries|
  {
    exists k :: 0 <= k < n && entries[k].path == path
  }

  predicate IsParent(entries: seq<Entry>, n: nat, path: Path)
    requires n <= |entries|
  {
    exists k :: 0 <= k < n && path < entries[k].path
  }

  /** `tree` is exactly what the first `n` entries describe: each of their paths holds its last data, each proper prefix
      is a directory, and there is nothing else. */
  ghost predicate BuiltTo(tree: Tree, entries: seq<Entry>, n: nat)
    requires n <= |entries|
  {
    && [] in tree && tree[[]] == Dir
    && (forall p :: IsEntry(entries, n, p) ==> p in tree && tree[p] == File(LastData(entries, n, p)))
    && (forall p :: IsParent(entries, n, p) ==> p in tree && tree[p] == Dir)
    && (forall p :: p in tree ==> p == [] || IsEntry(entries, n, p) || IsParent(entries, n, p))
  }

  /** The directories on the way to entry `n` down to depth `d` have been made. */
  ghost predicate DirsMade(tree: Tree, entries: seq<Entry>, n: nat, d: nat)
    requires n < |entries| && d <= |entries[n].path|
  {
    && [] in tree && tree[[]] == Dir
    && (forall p :: IsEntry(entries, n, p) ==> p in tree && tree[p] == File(LastData(entries, n, p)))
    && (forall p :: IsParent(entries, n, p) ==> p in tree && tree[p] == Dir)
    && (forall j :: 0 <= j < d ==> entries[n].path[..j] in tree && tree[entries[n].path[..j]] == Dir)
    && (forall p :: p in tree ==> p == [] || IsEntry(entries, n, p) || IsParent(entries, n, p)
                                  || exists j :: 0 <= j < d && p == entries[n].path[..j])
  }

  lemma DirsStart(tree: Tree, entries: seq<Entry>, n: nat)
    requires n < |entries| && entries[n].path != [] && BuiltTo(tree, entries, n)
    ensures DirsMade(tree, entries, n, 1)
  {
  }

  lemma DirsGrow(tree: Tree, entries: seq<Entry>, n: nat, d: nat)
    requires n < |entries| && 0 < d < |entries[n].path| && DirsMade(tree, entries, n, d)
    requires entries[n].path[..d] in tree ==> tree[entries[n].path[..d]] == Dir
    ensures DirsMade(tree[entries[n].path[..d] := Dir], entries, n, d + 1)
  {
  }

  /** One more entry adds its own path and the directories above it. */
  lemma OneMoreEntry(entries: seq<Entry>, n: nat, p: Path)
    requires n < |entries|
    ensures IsEntry(entries, n + 1, p) <==> IsEntry(entries, n, p) || p == entries[n].path
    ensures IsParent(entries, n + 1, p) <==> IsParent(entries, n, p) || p < entries[n].path
    ensures IsEntry(entries, n + 1, p) ==>
              LastData(entries, n + 1, p) == if p == entries[n].path then entries[n].data else LastData(entries, n, p)
  {
  }

  /** Writing the entry's file once its directories exist completes it. */
  lemma FileWritten(tree: Tree, entries: seq<Entry>, n: nat)
    requires n < |entries| && entries[n].path != [] && DirsMade(tree, entries, n, |entries[n].path|)
    requires entries[n].path in tree ==> tree[entries[n].path].File?
    ensures BuiltTo(tree[entries[n].path := File(entries[n].data)], entries, n + 1)
  {
    hide IsEntry, IsParent, LastData;
    var t := tree[entries[n].path := File(entries[n].data)];
    var path := entries[n].path;
    forall p | IsEntry(entries, n + 1, p) ensures p in t && t[p] == File(LastData(entries, n + 1, p)) {
      OneMoreEntry(entries, n, p);
    }
    forall p | IsParent(entries, n + 1, p) ensures p in t && t[p] == Dir {
      OneMoreEntry(entries, n, p);
      if p < path { assert p == path[..|p|]; }
    }
    forall p | p in t ensures p == [] || IsEntry(entries, n + 1, p) || IsParent(entries, n + 1, p) {
      OneMoreEntry(entries, n, p);
      assert forall j :: 0 <= j < |path| ==> path[..j] < path;
    }
  }

  /** No file's path leads through another file's. */
  predicate Fits(entries: seq<Entry>) {
    forall j, k :: 0 <= j < |entries| && 0 <= k < |entries| ==> !(entries[j].path < entries[k].path)
  }

  /** What stops a directory or a file of entry `k` is an entry whose path leads through, or is led through by, it. */
  lemma InTheWay(tree: Tree, entries: seq<Entry>, k: nat, d: nat)
    requires k < |entries| && 0 < d <= |entries[k].path| && DirsMade(tree, entries, k, d)
    requires entries[k].path[..d] in tree
    requires if d < |entries[k].path| then !tree[entries[k].path[..d]].Dir? else !tree[entries[k].path[..d]].File?
    ensures !Fits(entries)
  {
  }
}
