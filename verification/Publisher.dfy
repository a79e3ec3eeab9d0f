/** Many installers publishing editions of one tenant, interleaved system call by system call.

    A run may end after any step, and an installer that is never scheduled again has stopped where it was, so the
    statements about every run are also about every crash. */
module Publisher {
  import opened Options
  import opened Editions

  const EDITIONS := "_showcase-editions"
  const ACTIVE := "_showcase"

  /** The tenant's part of the file system: the entries of its root directory, and below the editions directory the tree
      of every edition by name. */
  datatype Volume = Volume(top: map<string, Node>, editions: map<string, Tree>)

  /** What stands at a path below the tenant's root, no link followed. Only the editions directory has contents here. */
  function Find(v: Volume, path: Path): Option<Node> {
    if path == [] then Some(Dir)
    else if path[0] !in v.top then None
    else if |path| == 1 then Some(v.top[path[0]])
    else if path[0] != "_showcase-editions" || !v.top[path[0]].Dir? then None
    else if path[1] !in v.editions || path[2..] !in v.editions[path[1]] then None
    else Some(v.editions[path[1]][path[2..]])
  }

  /** What a reader finds at a path of the research repository: the link is followed, its target being relative to the
      tenant's root. */
  function Seen(v: Volume, path: Path): Option<Node> {
    if "_showcase" in v.top && v.top["_showcase"].Link? then Find(v, v.top["_showcase"].target + path) else None
  }

  function TargetOf(v: Volume): Option<Path> {
    if "_showcase" in v.top && v.top["_showcase"].Link? then Some(v.top["_showcase"].target) else None
  }

  /** A reader finds exactly the files of these entries, the last one written to each path, in the directories above
      them. */
  ghost predicate Shows(v: Volume, entries: seq<Entry>) {
    forall path :: Seen(v, path) == NodeOf(entries, path)
  }

  ghost function NodeOf(entries: seq<Entry>, path: Path): Option<Node> {
    if IsEntry(entries, |entries|, path) then Some(File(LastData(entries, |entries|, path)))
    else if path == [] || IsParent(entries, |entries|, path) then Some(Dir)
    else None
  }

  function Temporary(hex: string): (name: string)
    ensures name != EDITIONS && name != ACTIVE
  {
    var name := ".showcase-" + hex;
    assert name[0] != ACTIVE[0];
    name
  }

  /** The relative link that makes an edition the active one. */
  function LinkTo(edition: string): Node {
    Link([EDITIONS, edition])
  }

  /** What validation hands to the writing phase. */
  datatype Job = Job(catalog: Catalog, verified: seq<Verified>)

  predicate Sound(job: Job, digest: Bytes -> string) {
    && |job.verified| == |job.catalog.files|
    && forall k :: 0 <= k < |job.verified| ==>
         && job.verified[k].path == job.catalog.files[k].path
         && !Unsafe(job.verified[k].path)
         && Meets(job.verified[k].data, job.catalog.files[k].meta, digest)
  }

  /** The next system call of an installer. */
  datatype Pc =
    | MakeEditions
    | MakeEdition
    | MakeDir(entry: nat, depth: nat)
    | OpenFile(entry: nat)
    | WriteFile(entry: nat, written: nat)
    | CheckActive
    | MakeLink
    | ReadPrevious
    | Replace
    | Published
    | Raised

  /** An installer.  `tree` is bookkeeping: what it has built below its own edition directory so far. */
  datatype Installer = Installer(job: Job, edition: string, hex: string, pc: Pc, tree: Tree, previous: Option<Path>)

  function EntriesOf(p: Installer): seq<Entry> {
    Entries(p.job.verified, p.job.catalog.text)
  }

  function NextEntry(entries: seq<Entry>, k: nat): Pc {
    if k >= |entries| then CheckActive
    else if |entries[k].path| > 1 then MakeDir(k, 1)
    else OpenFile(k)
  }

  datatype Moved = Moved(volume: Volume, installer: Installer)

  function Raise(v: Volume, p: Installer): Moved {
    Moved(v, p.(pc := Raised))
  }

  /** Puts `node` at `path` below the installer's own edition. */
  function Put(v: Volume, p: Installer, path: Path, node: Node, pc: Pc): Moved
    requires p.edition in v.editions
  {
    var tree := v.editions[p.edition][path := node];
    Moved(v.(editions := v.editions[p.edition := tree]), p.(pc := pc, tree := p.tree[path := node]))
  }

  /** One system call.  `chunk` is how much a partial write transfers. */
  function Advance(v: Volume, p: Installer, chunk: nat): Moved {
    var entries := EntriesOf(p);
    match p.pc
    case MakeEditions =>
      if EDITIONS in v.top && !v.top[EDITIONS].Dir? then Raise(v, p)
      else Moved(v.(top := v.top[EDITIONS := Dir]), p.(pc := MakeEdition))
    case MakeEdition =>
      if p.edition in v.editions then Raise(v, p)
      else Moved(v.(editions := v.editions[p.edition := map[[] := Dir]]),
                 p.(pc := NextEntry(entries, 0), tree := map[[] := Dir]))
    case MakeDir(k, d) =>
      if p.edition !in v.editions || k >= |entries| || d >= |entries[k].path| then Raise(v, p)
      else
        var path := entries[k].path[..d];
        var tree := v.editions[p.edition];
        if path in tree && !tree[path].Dir? then Raise(v, p)
        else Put(v, p, path, Dir, if d + 1 < |entries[k].path| then MakeDir(k, d + 1) else OpenFile(k))
    case OpenFile(k) =>
      if p.edition !in v.editions || k >= |entries| then Raise(v, p)
      else
        var tree := v.editions[p.edition];
        if entries[k].path in tree && !tree[entries[k].path].File? then Raise(v, p)
        else Put(v, p, entries[k].path, File([]), WriteFile(k, 0))
    case WriteFile(k, n) =>
      if p.edition !in v.editions || k >= |entries| then Raise(v, p)
      else if n >= |entries[k].data| then Moved(v, p.(pc := NextEntry(entries, k + 1)))
      else
        var m := if n + 1 + chunk < |entries[k].data| then n + 1 + chunk else |entries[k].data|;
        Put(v, p, entries[k].path, File(entries[k].data[..m]), WriteFile(k, m))
    case CheckActive =>
      if ACTIVE in v.top && !v.top[ACTIVE].Link? then Raise(v, p) else Moved(v, p.(pc := MakeLink))
    case MakeLink =>
      if Temporary(p.hex) in v.top then Raise(v, p)
      else Moved(v.(top := v.top[Temporary(p.hex) := LinkTo(p.edition)]), p.(pc := ReadPrevious))
    case ReadPrevious =>
      Moved(v, p.(pc := Replace,
          previous := if ACTIVE in v.top && v.top[ACTIVE].Link? then Some(v.top[ACTIVE].target) else None))
    case Replace =>
      if Temporary(p.hex) !in v.top || (ACTIVE in v.top && v.top[ACTIVE].Dir?) then Raise(v, p)
      else Moved(v.(top := (v.top - {Temporary(p.hex)})[ACTIVE := v.top[Temporary(p.hex)]]), p.(pc := Published))
    case Published => Moved(v, p)
    case Raised => Moved(v, p)
  }

  datatype World = World(volume: Volume, installers: map<nat, Installer>)

  datatype Action =
    | Start(id: nat, job: Job, edition: string, hex: string)
    | Call(id: nat, chunk: nat)

  function Step(w: World, a: Action): World {
    match a
    case Start(id, job, edition, hex) =>
      if id in w.installers then w
      else w.(installers := w.installers[id := Installer(job, edition, hex, MakeEditions, map[], None)])
    case Call(id, chunk) =>
      if id !in w.installers then w
      else
        var moved := Advance(w.volume, w.installers[id], chunk);
        World(moved.volume, w.installers[id := moved.installer])
  }

  function Run(w: World, actions: seq<Action>): World {
    if actions == [] then w else Step(Run(w, actions[..|actions| - 1]), actions[|actions| - 1])
  }

  // ---------------------------------------------------------------------------------------
  // Invariant
  // ---------------------------------------------------------------------------------------

  predicate OwnsEdition(p: Installer) { [] in p.tree }

  predicate OwnsTemporary(p: Installer) { p.pc.ReadPrevious? || p.pc.Replace? }

  /** How far the installer's tree is, at each point of its program. */
  ghost predicate Progress(p: Installer) {
    var entries := EntriesOf(p);
    match p.pc
    case MakeEditions => p.tree == map[]
    case MakeEdition => p.tree == map[]
    case MakeDir(k, d) => k < |entries| && 0 < d < |entries[k].path| && DirsMade(p.tree, entries, k, d)
    case OpenFile(k) => k < |entries| && DirsMade(p.tree, entries, k, |entries[k].path|)
    case WriteFile(k, n) =>
      && k < |entries| && n <= |entries[k].data|
      && OwnsEdition(p)
      && entries[k].path in p.tree && p.tree[entries[k].path] == File(entries[k].data[..n])
      && BuiltTo(p.tree[entries[k].path := File(entries[k].data)], entries, k + 1)
    case Raised => true
    case _ => BuiltTo(p.tree, entries, |entries|)
  }

  /** The editions directory is there. */
  predicate HasEditions(v: Volume) { EDITIONS in v.top && v.top[EDITIONS].Dir? }

  /** Everything an installer relies on: nobody else changes its edition or its temporary link. */
  ghost predicate InstallerOk(v0: Volume, v: Volume, p: Installer) {
    && Progress(p)
    && (p.pc.MakeEdition? || OwnsEdition(p) ==> HasEditions(v))
    && (OwnsEdition(p) ==> p.edition in v.editions && v.editions[p.edition] == p.tree && p.edition !in v0.editions)
    && (OwnsTemporary(p) ==> Temporary(p.hex) in v.top && v.top[Temporary(p.hex)] == LinkTo(p.edition)
                             && Temporary(p.hex) !in v0.top)
  }

  predicate Distinct(p: Installer, q: Installer) {
    && (OwnsEdition(p) && OwnsEdition(q) ==> p.edition != q.edition)
    && (OwnsTemporary(p) && OwnsTemporary(q) ==> p.hex != q.hex)
  }

  /** Everything that existed before the run, except the link itself, is as it was. */
  predicate Untouched(v0: Volume, v: Volume) {
    && (forall e :: e in v0.editions ==> e in v.editions && v.editions[e] == v0.editions[e])
    && (forall n :: n in v0.top && n != ACTIVE ==> n in v.top && v.top[n] == v0.top[n])
  }

  predicate SameLink(v: Volume, v': Volume) {
    if ACTIVE in v.top then ACTIVE in v'.top && v'.top[ACTIVE] == v.top[ACTIVE] else ACTIVE !in v'.top
  }

  /** The link is the prior one or leads to the edition of an installer that has published. */
  predicate LinkOk(v0: Volume, w: World) {
    || SameLink(v0, w.volume)
    || exists id :: id in w.installers && w.installers[id].pc.Published?
                    && ACTIVE in w.volume.top && w.volume.top[ACTIVE] == LinkTo(w.installers[id].edition)
  }

  ghost predicate Inv(v0: Volume, w: World) {
    && Untouched(v0, w.volume)
    && LinkOk(v0, w)
    && (forall id :: id in w.installers ==> InstallerOk(v0, w.volume, w.installers[id]))
    && (forall i, j :: i in w.installers && j in w.installers && i != j ==> Distinct(w.installers[i], w.installers[j]))
  }

  // ---------------------------------------------------------------------------------------
  // The installer's own tree
  // ---------------------------------------------------------------------------------------

  lemma ReachNextEntry(p: Installer, k: nat)
    requires k <= |EntriesOf(p)| && BuiltTo(p.tree, EntriesOf(p), k) && p.pc == NextEntry(EntriesOf(p), k)
    ensures Progress(p)
  {
    if k < |EntriesOf(p)| { DirsStart(p.tree, EntriesOf(p), k); }
  }

  lemma DirStep(p: Installer)
    requires Progress(p) && p.pc.MakeDir?
    ensures var entries := EntriesOf(p);
      var k, d := p.pc.entry, p.pc.depth;
      var path := entries[k].path[..d];
      var pc := if d + 1 < |entries[k].path| then MakeDir(k, d + 1) else OpenFile(k);
      (path in p.tree ==> p.tree[path].Dir?) ==> Progress(p.(pc := pc, tree := p.tree[path := Dir]))
  {
    hide DirsMade, IsEntry, IsParent;
    var entries := EntriesOf(p);
    var path := entries[p.pc.entry].path[..p.pc.depth];
    if path in p.tree ==> p.tree[path].Dir? {
      DirsGrow(p.tree, entries, p.pc.entry, p.pc.depth);
    }
  }

  /** A file cut off at `m` is progress once the whole file would complete the entry. */
  lemma PartialFile(p: Installer, k: nat, m: nat)
    requires OwnsEdition(p) && k < |EntriesOf(p)| && m <= |EntriesOf(p)[k].data| && EntriesOf(p)[k].path != []
    requires BuiltTo(p.tree[EntriesOf(p)[k].path := File(EntriesOf(p)[k].data)], EntriesOf(p), k + 1)
    ensures var entry := EntriesOf(p)[k];
      Progress(p.(pc := WriteFile(k, m), tree := p.tree[entry.path := File(entry.data[..m])]))
  {
  }

  lemma FileStep(p: Installer)
    requires Progress(p) && p.pc.OpenFile?
    requires var entry := EntriesOf(p)[p.pc.entry]; entry.path in p.tree ==> p.tree[entry.path].File?
    ensures var entry := EntriesOf(p)[p.pc.entry];
      Progress(p.(pc := WriteFile(p.pc.entry, 0), tree := p.tree[entry.path := File([])]))
  {
    var k := p.pc.entry;
    assert OwnsEdition(p);
    assert BuiltTo(p.tree[EntriesOf(p)[k].path := File(EntriesOf(p)[k].data)], EntriesOf(p), k + 1) by {
      FileWritten(p.tree, EntriesOf(p), k);
    }
    PartialFile(p, k, 0);
    assert EntriesOf(p)[k].data[..0] == [];
  }

  lemma ChunkStep(p: Installer, m: nat)
    requires Progress(p) && p.pc.WriteFile? && m <= |EntriesOf(p)[p.pc.entry].data|
    ensures var entry := EntriesOf(p)[p.pc.entry];
      Progress(p.(pc := WriteFile(p.pc.entry, m), tree := p.tree[entry.path := File(entry.data[..m])]))
  {
  }

  lemma CloseStep(p: Installer)
    requires Progress(p) && p.pc.WriteFile? && p.pc.written >= |EntriesOf(p)[p.pc.entry].data|
    ensures Progress(p.(pc := NextEntry(EntriesOf(p), p.pc.entry + 1)))
  {
    var entry := EntriesOf(p)[p.pc.entry];
    assert entry.data[..p.pc.written] == entry.data;
    assert p.tree[entry.path := File(entry.data)] == p.tree;
    ReachNextEntry(p.(pc := NextEntry(EntriesOf(p), p.pc.entry + 1)), p.pc.entry + 1);
  }

  // ---------------------------------------------------------------------------------------
  // One system call
  // ---------------------------------------------------------------------------------------

  /** What a system call of `p` may change. */
  predicate Contained(v: Volume, p: Installer, moved: Moved) {
    var p' := moved.installer;
    && p'.edition == p.edition && p'.hex == p.hex && p'.job == p.job
    && (OwnsEdition(p') && !OwnsEdition(p) ==> p.edition !in v.editions)
    && (OwnsTemporary(p') && !OwnsTemporary(p) ==> Temporary(p.hex) !in v.top)
    && (forall e :: e in v.editions && !(OwnsEdition(p') && e == p.edition) ==>
          e in moved.volume.editions && moved.volume.editions[e] == v.editions[e])
    && (forall n :: n in v.top && n != ACTIVE && !(OwnsTemporary(p) && n == Temporary(p.hex)) ==>
          n in moved.volume.top && moved.volume.top[n] == v.top[n])
    && (forall e :: e in moved.volume.editions ==> e in v.editions || e == p.edition)
    && (forall n :: n in moved.volume.top ==>
          n in v.top || n == EDITIONS || n == ACTIVE || (OwnsTemporary(p') && n == Temporary(p.hex)))
    && (p.pc.Replace? && p'.pc.Published? ==> Temporary(p.hex) !in moved.volume.top)
    && (SameLink(v, moved.volume)
        || (p'.pc.Published? && ACTIVE in moved.volume.top && moved.volume.top[ACTIVE] == LinkTo(p.edition)))
    && (p.pc.Published? ==> moved == Moved(v, p))
  }

  lemma BuildersOwn(p: Installer)
    requires Progress(p) && (p.pc.MakeDir? || p.pc.OpenFile? || p.pc.WriteFile?)
    ensures OwnsEdition(p)
  {
  }

  lemma NextEntryBuilds(entries: seq<Entry>, k: nat)
    ensures var pc := NextEntry(entries, k); pc.CheckActive? || pc.MakeDir? || pc.OpenFile?
  {
  }

  lemma BuildingIsContained(v0: Volume, v: Volume, p: Installer, chunk: nat)
    requires InstallerOk(v0, v, p)
    requires p.pc.MakeEdition? || p.pc.MakeDir? || p.pc.OpenFile? || p.pc.WriteFile?
    ensures Contained(v, p, Advance(v, p, chunk))
  {
    hide Progress, EntriesOf, NextEntry;
    if !p.pc.MakeEdition? { BuildersOwn(p); }
    NextEntryBuilds(EntriesOf(p), 0);
    if p.pc.WriteFile? { NextEntryBuilds(EntriesOf(p), p.pc.entry + 1); }
    var moved := Advance(v, p, chunk);
    assert moved.volume.top == v.top && !OwnsTemporary(moved.installer);
  }

  lemma LinkingIsContained(v0: Volume, v: Volume, p: Installer, chunk: nat)
    requires InstallerOk(v0, v, p)
    requires !(p.pc.MakeEdition? || p.pc.MakeDir? || p.pc.OpenFile? || p.pc.WriteFile?)
    ensures Contained(v, p, Advance(v, p, chunk))
  {
    hide Progress, EntriesOf, NextEntry;
    var moved := Advance(v, p, chunk);
    assert moved.volume.editions == v.editions && moved.installer.tree == p.tree;
  }

  lemma AdvanceIsContained(v0: Volume, v: Volume, p: Installer, chunk: nat)
    requires InstallerOk(v0, v, p)
    ensures Contained(v, p, Advance(v, p, chunk))
  {
    if p.pc.MakeEdition? || p.pc.MakeDir? || p.pc.OpenFile? || p.pc.WriteFile? {
      BuildingIsContained(v0, v, p, chunk);
    } else {
      LinkingIsContained(v0, v, p, chunk);
    }
  }

  lemma MakeEditionProgresses(v0: Volume, v: Volume, p: Installer, chunk: nat)
    requires InstallerOk(v0, v, p) && p.pc.MakeEdition?
    ensures Progress(Advance(v, p, chunk).installer)
  {
  }

  lemma MakeDirProgresses(v0: Volume, v: Volume, p: Installer, chunk: nat)
    requires InstallerOk(v0, v, p) && p.pc.MakeDir?
    ensures Progress(Advance(v, p, chunk).installer)
  {
    DirStep(p);
    assert OwnsEdition(p);
  }

  lemma OpenFileProgresses(v0: Volume, v: Volume, p: Installer, chunk: nat)
    requires InstallerOk(v0, v, p) && p.pc.OpenFile?
    ensures Progress(Advance(v, p, chunk).installer)
  {
    if !Advance(v, p, chunk).installer.pc.Raised? { FileStep(p); }
  }

  lemma WriteFileProgresses(v0: Volume, v: Volume, p: Installer, chunk: nat)
    requires InstallerOk(v0, v, p) && p.pc.WriteFile?
    ensures Progress(Advance(v, p, chunk).installer)
  {
    var p' := Advance(v, p, chunk).installer;
    if p.pc.written >= |EntriesOf(p)[p.pc.entry].data| { CloseStep(p); } else { ChunkStep(p, p'.pc.written); }
  }

  lemma AdvanceProgresses(v0: Volume, v: Volume, p: Installer, chunk: nat)
    requires InstallerOk(v0, v, p)
    ensures Progress(Advance(v, p, chunk).installer)
  {
    match p.pc {
      case MakeEdition => MakeEditionProgresses(v0, v, p, chunk);
      case MakeDir(_, _) => MakeDirProgresses(v0, v, p, chunk);
      case OpenFile(_) => OpenFileProgresses(v0, v, p, chunk);
      case WriteFile(_, _) => WriteFileProgresses(v0, v, p, chunk);
      case _ =>
    }
  }

  lemma ContainedKeepsUntouched(v0: Volume, v: Volume, p: Installer, moved: Moved)
    requires Untouched(v0, v) && InstallerOk(v0, v, p) && Contained(v, p, moved)
    ensures Untouched(v0, moved.volume)
  {
  }

  /** After its own system call an installer owns the edition it claims. */
  lemma OwnEdition(v0: Volume, v: Volume, p: Installer, chunk: nat)
    requires Untouched(v0, v) && InstallerOk(v0, v, p)
    ensures var moved := Advance(v, p, chunk);
      OwnsEdition(moved.installer) ==>
        && p.edition in moved.volume.editions && moved.volume.editions[p.edition] == moved.installer.tree
        && p.edition !in v0.editions
  {
    if p.pc.MakeEdition? {
    } else {
      assert OwnsEdition(Advance(v, p, chunk).installer) ==> OwnsEdition(p);
    }
  }

  /** And the temporary link. */
  lemma OwnTemporary(v0: Volume, v: Volume, p: Installer, chunk: nat)
    requires Untouched(v0, v) && InstallerOk(v0, v, p)
    ensures var moved := Advance(v, p, chunk);
      OwnsTemporary(moved.installer) ==>
        && Temporary(p.hex) in moved.volume.top && moved.volume.top[Temporary(p.hex)] == LinkTo(p.edition)
        && Temporary(p.hex) !in v0.top
  {
  }

  /** Another installer's claims survive a contained system call. */
  lemma OtherSurvives(v0: Volume, v: Volume, p: Installer, moved: Moved, q: Installer)
    requires InstallerOk(v0, v, p) && InstallerOk(v0, v, q) && Distinct(p, q) && Contained(v, p, moved)
    ensures InstallerOk(v0, moved.volume, q) && Distinct(moved.installer, q) && Distinct(q, moved.installer)
  {
  }

  /** The installer that made the call keeps what it relies on. */
  lemma CallerStaysOk(v0: Volume, v: Volume, p: Installer, chunk: nat)
    requires Untouched(v0, v) && InstallerOk(v0, v, p)
    ensures InstallerOk(v0, Advance(v, p, chunk).volume, Advance(v, p, chunk).installer)
  {
    OwnEdition(v0, v, p, chunk);
    OwnTemporary(v0, v, p, chunk);
    AdvanceProgresses(v0, v, p, chunk);
    AdvanceIsContained(v0, v, p, chunk);
    hide Advance, Progress, OwnsEdition, OwnsTemporary;
  }

  lemma CallKeepsInv(v0: Volume, w: World, id: nat, chunk: nat)
    requires Inv(v0, w) && id in w.installers
    ensures Inv(v0, Step(w, Call(id, chunk)))
  {
    hide Advance, InstallerOk, Distinct, Untouched, LinkOk;
    var p := w.installers[id];
    var moved := Advance(w.volume, p, chunk);
    AdvanceIsContained(v0, w.volume, p, chunk);
    CallerStaysOk(v0, w.volume, p, chunk);
    ContainedKeepsUntouched(v0, w.volume, p, moved);
    forall j | j in w.installers && j != id
      ensures InstallerOk(v0, moved.volume, w.installers[j])
      ensures Distinct(moved.installer, w.installers[j]) && Distinct(w.installers[j], moved.installer)
    {
      OtherSurvives(v0, w.volume, p, moved, w.installers[j]);
    }
    LinkStaysOk(v0, w, id, moved);
  }

  lemma StartKeepsInv(v0: Volume, w: World, a: Action)
    requires Inv(v0, w) && a.Start?
    ensures Inv(v0, Step(w, a))
  {
    hide Untouched, SameLink;
    var w' := Step(w, a);
    if !SameLink(v0, w.volume) {
      var j :| j in w.installers && w.installers[j].pc.Published?
               && ACTIVE in w.volume.top && w.volume.top[ACTIVE] == LinkTo(w.installers[j].edition);
      assert w'.installers[j] == w.installers[j];
    }
  }

  lemma StepKeepsInv(v0: Volume, w: World, a: Action)
    requires Inv(v0, w)
    ensures Inv(v0, Step(w, a))
  {
    hide Inv, Advance;
    match a {
      case Start(_, _, _, _) => StartKeepsInv(v0, w, a);
      case Call(id, chunk) => if id in w.installers { CallKeepsInv(v0, w, id, chunk); }
    }
  }

  lemma LinkStaysOk(v0: Volume, w: World, id: nat, moved: Moved)
    requires LinkOk(v0, w) && id in w.installers && Contained(w.volume, w.installers[id], moved)
    ensures LinkOk(v0, World(moved.volume, w.installers[id := moved.installer]))
  {
    var w' := World(moved.volume, w.installers[id := moved.installer]);
    if SameLink(w.volume, moved.volume) {
      if !SameLink(v0, w.volume) {
        var j :| j in w.installers && w.installers[j].pc.Published?
                 && ACTIVE in w.volume.top && w.volume.top[ACTIVE] == LinkTo(w.installers[j].edition);
        assert w'.installers[j] == w.installers[j];
      }
    } else {
      assert w'.installers[id] == moved.installer;
    }
  }

  lemma {:induction false} RunKeepsInv(v0: Volume, actions: seq<Action>)
    ensures Inv(v0, Run(World(v0, map[]), actions))
  {
    if actions != [] {
      RunKeepsInv(v0, actions[..|actions| - 1]);
      StepKeepsInv(v0, Run(World(v0, map[]), actions[..|actions| - 1]), actions[|actions| - 1]);
    }
  }
}
