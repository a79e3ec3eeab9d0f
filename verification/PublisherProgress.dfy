/** When an installer stops: exactly when something is in its way, and otherwise it publishes. */
module PublisherProgress {
  import opened Options
  import opened Editions
  import opened Publisher

  /** What the next system call of an installer needs. */
  predicate Unobstructed(v: Volume, p: Installer) {
    match p.pc
    case MakeEditions => EDITIONS in v.top ==> v.top[EDITIONS].Dir?
    case MakeEdition => p.edition !in v.editions
    case CheckActive => ACTIVE in v.top ==> v.top[ACTIVE].Link?
    case MakeLink => Temporary(p.hex) !in v.top
    case Replace => ACTIVE in v.top ==> !v.top[ACTIVE].Dir?
    case _ => true
  }

  lemma BuildingRaisesIff(v0: Volume, v: Volume, p: Installer, chunk: nat)
    requires InstallerOk(v0, v, p) && Fits(EntriesOf(p)) && (p.pc.MakeDir? || p.pc.OpenFile? || p.pc.WriteFile?)
    ensures !Advance(v, p, chunk).installer.pc.Raised?
  {
    var entries := EntriesOf(p);
    hide Fits, DirsMade, BuiltTo;
    if p.pc.MakeDir? {
      MadeDirsOwn(p.tree, entries, p.pc.entry, p.pc.depth);
      var path := entries[p.pc.entry].path[..p.pc.depth];
      if path in p.tree && !p.tree[path].Dir? { InTheWay(p.tree, entries, p.pc.entry, p.pc.depth); }
    } else if p.pc.OpenFile? {
      var path := entries[p.pc.entry].path;
      MadeDirsOwn(p.tree, entries, p.pc.entry, |path|);
      assert path[..|path|] == path;
      if path in p.tree && !p.tree[path].File? { InTheWay(p.tree, entries, p.pc.entry, |path|); }
    }
  }

  lemma MadeDirsOwn(tree: Tree, entries: seq<Entry>, n: nat, d: nat)
    requires n < |entries| && d <= |entries[n].path| && DirsMade(tree, entries, n, d)
    ensures [] in tree
  {
  }

  /** Whatever other installers do in between, an installer whose files fit raises at a system call if and only if what
      the call needs is not there. */
  lemma RaisesIff(v0: Volume, v: Volume, p: Installer, chunk: nat)
    requires InstallerOk(v0, v, p) && Fits(EntriesOf(p)) && !p.pc.Raised?
    ensures Advance(v, p, chunk).installer.pc.Raised? <==> !Unobstructed(v, p)
  {
    if p.pc.MakeDir? || p.pc.OpenFile? || p.pc.WriteFile? { BuildingRaisesIff(v0, v, p, chunk); }
    hide Fits, Progress, EntriesOf;
  }

  // ---------------------------------------------------------------------------------------
  // Termination
  // ---------------------------------------------------------------------------------------

  function Work(entries: seq<Entry>, k: nat): nat
    decreases |entries| - k
  {
    if k >= |entries| then 0 else |entries[k].path| + |entries[k].data| + 2 + Work(entries, k + 1)
  }

  function Beyond(n: nat, m: nat): nat { if m < n then n - m else 0 }

  /** A bound on the system calls that are left. */
  function Remaining(p: Installer): nat {
    var entries := EntriesOf(p);
    match p.pc
    case MakeEditions => 7 + Work(entries, 0)
    case MakeEdition => 6 + Work(entries, 0)
    case MakeDir(k, d) =>
      if k >= |entries| then 0
      else 7 + Beyond(|entries[k].path|, d) + |entries[k].data| + Work(entries, k + 1)
    case OpenFile(k) => if k >= |entries| then 0 else 7 + |entries[k].data| + Work(entries, k + 1)
    case WriteFile(k, n) => if k >= |entries| then 0 else 6 + Beyond(|entries[k].data|, n) + Work(entries, k + 1)
    case CheckActive => 4
    case MakeLink => 3
    case ReadPrevious => 2
    case Replace => 1
    case _ => 0
  }

  lemma NextEntryRemains(p: Installer, k: nat)
    requires p.pc == NextEntry(EntriesOf(p), k)
    ensures Remaining(p) <= 5 + Work(EntriesOf(p), k)
  {
    assert k < |EntriesOf(p)| ==> |EntriesOf(p)[k].path| > 0;
  }

  /** Each system call that does not raise comes closer to publishing. */
  lemma CallsComeCloser(v0: Volume, v: Volume, p: Installer, chunk: nat)
    requires InstallerOk(v0, v, p) && !p.pc.Raised? && !p.pc.Published?
    ensures var p' := Advance(v, p, chunk).installer; p'.pc.Raised? || Remaining(p') < Remaining(p)
  {
    hide Advance, Remaining, Progress;
    match p.pc {
      case MakeDir(_, _) => FilesComeCloser(v0, v, p, chunk);
      case OpenFile(_) => FilesComeCloser(v0, v, p, chunk);
      case WriteFile(_, _) => FilesComeCloser(v0, v, p, chunk);
      case _ => OthersComeCloser(v, p, chunk);
    }
  }

  lemma FilesComeCloser(v0: Volume, v: Volume, p: Installer, chunk: nat)
    requires InstallerOk(v0, v, p) && (p.pc.MakeDir? || p.pc.OpenFile? || p.pc.WriteFile?)
    ensures var p' := Advance(v, p, chunk).installer; p'.pc.Raised? || Remaining(p') < Remaining(p)
  {
    hide Work, DirsMade, BuiltTo, Entries, OwnsTemporary, OwnsEdition;
    var p' := Advance(v, p, chunk).installer;
    if p.pc.WriteFile? && p.pc.written >= |EntriesOf(p)[p.pc.entry].data| { NextEntryRemains(p', p.pc.entry + 1); }
  }

  lemma OthersComeCloser(v: Volume, p: Installer, chunk: nat)
    requires !p.pc.MakeDir? && !p.pc.OpenFile? && !p.pc.WriteFile? && !p.pc.Raised? && !p.pc.Published?
    ensures var p' := Advance(v, p, chunk).installer; p'.pc.Raised? || Remaining(p') < Remaining(p)
  {
    hide Work, Entries, Temporary;
    var p' := Advance(v, p, chunk).installer;
    if p.pc.MakeEdition? && !p'.pc.Raised? { NextEntryRemains(p', 0); }
  }

  /** Nothing will be in the way of an installer that runs alone. */
  predicate ClearWay(v: Volume, p: Installer) {
    && !p.pc.Raised?
    && (EDITIONS in v.top ==> v.top[EDITIONS].Dir?)
    && (ACTIVE in v.top ==> v.top[ACTIVE].Link?)
    && (p.pc.MakeEditions? || p.pc.MakeEdition? ==> p.edition !in v.editions)
    && (OwnsTemporary(p) || p.pc.Published? || Temporary(p.hex) !in v.top)
  }

  lemma WayStaysClear(v0: Volume, v: Volume, p: Installer, chunk: nat)
    requires InstallerOk(v0, v, p) && Fits(EntriesOf(p)) && ClearWay(v, p)
    ensures ClearWay(Advance(v, p, chunk).volume, Advance(v, p, chunk).installer)
  {
    hide Fits, Progress, EntriesOf;
    RaisesIff(v0, v, p, chunk);
    WayStaysOpen(v, p, chunk);
  }

  lemma WayStaysOpen(v: Volume, p: Installer, chunk: nat)
    requires ClearWay(v, p) && !Advance(v, p, chunk).installer.pc.Raised?
    requires p.pc.Replace? && Temporary(p.hex) in v.top ==> v.top[Temporary(p.hex)].Link?
    ensures ClearWay(Advance(v, p, chunk).volume, Advance(v, p, chunk).installer)
  {
    hide EntriesOf, NextEntry;
    NextEntryBuilds(EntriesOf(p), 0);
    if p.pc.WriteFile? { NextEntryBuilds(EntriesOf(p), p.pc.entry + 1); }
  }

  /** From any reachable state an installer whose files fit and whose way is clear publishes by calls of its own,
      however much each of its writes transfers. */
  lemma SoloPublishes(v0: Volume, w: World, id: nat, chunks: nat -> nat) returns (calls: seq<Action>)
    requires Inv(v0, w) && id in w.installers
    requires Fits(EntriesOf(w.installers[id])) && ClearWay(w.volume, w.installers[id])
    ensures forall k :: 0 <= k < |calls| ==> calls[k] == Call(id, chunks(k))
    ensures |calls| <= Remaining(w.installers[id])
    ensures id in Run(w, calls).installers && Run(w, calls).installers[id].pc.Published?
    // It reports the target that the link had.
    ensures !w.installers[id].pc.Replace? && !w.installers[id].pc.Published? ==>
              Run(w, calls).installers[id].previous == TargetOf(w.volume)
  {
    hide Inv, Advance, Fits, ClearWay, Remaining, EntriesOf, SameLink;
    calls := [];
    var now := w;
    while !now.installers[id].pc.Published?
      invariant now == Run(w, calls) && Inv(v0, now) && id in now.installers
      invariant Fits(EntriesOf(now.installers[id])) && ClearWay(now.volume, now.installers[id])
      invariant forall k :: 0 <= k < |calls| ==> calls[k] == Call(id, chunks(k))
      invariant Reports(w, now, id)
      invariant |calls| + Remaining(now.installers[id]) <= Remaining(w.installers[id])
      decreases Remaining(now.installers[id])
    {
      var call := Call(id, chunks(|calls|));
      OwnCall(v0, now, id, chunks(|calls|));
      StillReports(w, now, id, chunks(|calls|));
      now := Step(now, call);
      assert (calls + [call])[..|calls|] == calls;
      calls := calls + [call];
    }
  }

  /** Until it is replaced the link is the one of the start, and then its target has been noted. */
  predicate Reports(w: World, now: World, id: nat) {
    id in w.installers && id in now.installers && !w.installers[id].pc.Replace? && !w.installers[id].pc.Published? ==>
      && (!now.installers[id].pc.Published? ==> TargetOf(now.volume) == TargetOf(w.volume))
      && (now.installers[id].pc.Replace? || now.installers[id].pc.Published? ==>
            now.installers[id].previous == TargetOf(w.volume))
  }

  lemma StillReports(w: World, now: World, id: nat, chunk: nat)
    requires Reports(w, now, id) && id in now.installers && !now.installers[id].pc.Published?
    requires var now' := Step(now, Call(id, chunk));
      now'.installers[id].pc.Published? || SameLink(now.volume, now'.volume)
    ensures Reports(w, Step(now, Call(id, chunk)), id)
  {
    hide EntriesOf, NextEntry;
    var p := now.installers[id];
    NextEntryBuilds(EntriesOf(p), 0);
    if p.pc.WriteFile? { NextEntryBuilds(EntriesOf(p), p.pc.entry + 1); }
  }

  lemma OwnCall(v0: Volume, w: World, id: nat, chunk: nat)
    requires Inv(v0, w) && id in w.installers && !w.installers[id].pc.Published?
    requires Fits(EntriesOf(w.installers[id])) && ClearWay(w.volume, w.installers[id])
    ensures var w' := Step(w, Call(id, chunk));
      && Inv(v0, w') && id in w'.installers && ClearWay(w'.volume, w'.installers[id])
      && EntriesOf(w'.installers[id]) == EntriesOf(w.installers[id])
      && Remaining(w'.installers[id]) < Remaining(w.installers[id])
      && (w'.installers[id].pc.Published? || SameLink(w.volume, w'.volume))
  {
    var p := w.installers[id];
    assert InstallerOk(v0, w.volume, p);
    hide Inv, InstallerOk, Advance, Fits, Remaining;
    StepKeepsInv(v0, w, Call(id, chunk));
    AdvanceIsContained(v0, w.volume, p, chunk);
    WayStaysClear(v0, w.volume, p, chunk);
    CallsComeCloser(v0, w.volume, p, chunk);
  }
}
