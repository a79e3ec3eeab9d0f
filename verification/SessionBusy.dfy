/** Who holds the busy flag. */
module SessionBusy {
  import opened Options
  import opened Session
  import opened SessionSafety

  /** The flag is set exactly when some operation in flight owns the current generations. */
  predicate BusyOwned(s: Sys) {
    s.refs.busy <==> exists id :: id in s.ops && HoldsBusy(s.refs, s.ops[id])
  }

  /** The only undisciplined action: "new conversation" from the history drawer while busy. */
  predicate Guarded(s: Sys, a: Action) {
    a.NewFromDrawer? ==> !s.refs.busy
  }

  predicate GuardedRun(s: Sys, actions: seq<Action>) {
    actions == [] ||
    (GuardedRun(s, actions[..|actions| - 1]) && Guarded(Run(s, actions[..|actions| - 1]), actions[|actions| - 1]))
  }

  lemma FreeFlagIsOwned(s: Sys)
    requires Inv(s) && !s.refs.busy
    ensures BusyOwned(s)
  {
  }

  /** A segment of another operation leaves the owner in place unless it takes over. */
  lemma OwnerSurvivesOthers(s: Sys, other: nat, reply: Reply, id: nat)
    requires Inv(s) && other in s.ops && other != id
    requires id in s.ops && HoldsBusy(s.refs, s.ops[id])
    ensures var s' := Settle(s, other, ResumeOp(s.refs, s.ops[other], reply));
      || (other in s'.ops && HoldsBusy(s'.refs, s'.ops[other]))
      || (id in s'.ops && s'.ops[id] == s.ops[id] && HoldsBusy(s'.refs, s'.ops[id]))
  {
    var op := s.ops[other];
    assert Apart(s.refs, s.ops[id], op);
    assert !Holds(s.refs, op);
    if Waiting(op) && reply.RestoreSettled? && MayStart(s.refs, op.identity) {
    } else {
      assert Settle(s, other, ResumeOp(s.refs, op, reply)).refs.streamGen == s.refs.streamGen;
    }
  }

  /** The owner's own segment either keeps the ownership or releases the flag. */
  lemma OwnerKeepsOrReleases(s: Sys, id: nat, reply: Reply)
    requires id in s.ops && HoldsBusy(s.refs, s.ops[id])
    ensures var s' := Settle(s, id, ResumeOp(s.refs, s.ops[id], reply));
      (id in s'.ops && HoldsBusy(s'.refs, s'.ops[id])) || !s'.refs.busy
  {
  }

  /** A segment after an await. */
  lemma ResumeKeepsBusyOwned(s: Sys, id: nat, reply: Reply)
    requires Inv(s) && BusyOwned(s) && id in s.ops
    requires Inv(Step(s, Resume(id, reply)))
    ensures BusyOwned(Step(s, Resume(id, reply)))
  {
    var s' := Step(s, Resume(id, reply));
    if !s'.refs.busy {
      FreeFlagIsOwned(s');
    } else if s.refs.busy {
      var owner :| owner in s.ops && HoldsBusy(s.refs, s.ops[owner]);
      hide Inv, ResumeOp, HoldsBusy;
      if id == owner { OwnerKeepsOrReleases(s, id, reply); } else { OwnerSurvivesOthers(s, id, reply, owner); }
    } else {
      TakesTheFlag(s.refs, s.ops[id], reply);
      hide Inv, ResumeOp, HoldsBusy;
      assert HoldsBusy(s'.refs, s'.ops[id]);
    }
  }

  /** A segment that sets a free flag leaves its operation holding it. */
  lemma TakesTheFlag(r: Refs, op: Op, reply: Reply)
    requires !r.busy
    ensures var resumed := ResumeOp(r, op, reply);
      !resumed.Unchanged? && resumed.refs.busy ==> resumed.Going? && HoldsBusy(resumed.refs, resumed.op)
  {
  }

  /** A first segment that leaves the flag set either leaves everything owned as it was or holds the flag itself. */
  lemma BeginKeepsOrTakes(r: Refs, a: Action)
    requires !a.Resume? && (a.NewFromDrawer? ==> !r.busy)
    ensures var began := Begin(r, a);
      began.refs.busy ==>
        if r.busy then began.op.None? && began.refs.streamGen == r.streamGen && began.refs.identityGen == r.identityGen
        else began.op.Some? && HoldsBusy(began.refs, began.op.value)
  {
  }

  lemma BeginKeepsBusyOwned(s: Sys, a: Action)
    requires Inv(s) && BusyOwned(s) && Guarded(s, a) && !a.Resume?
    requires Inv(Step(s, a))
    ensures BusyOwned(Step(s, a))
  {
    var s' := Step(s, a);
    BeginKeepsOrTakes(s.refs, a);
    hide Begin;
    if !s'.refs.busy {
      FreeFlagIsOwned(s');
    } else if s.refs.busy {
      var id :| id in s.ops && HoldsBusy(s.refs, s.ops[id]);
      hide Inv;
      assert s'.ops == s.ops && HoldsBusy(s'.refs, s'.ops[id]);
    } else {
      hide Inv;
      assert HoldsBusy(s'.refs, s'.ops[s.next]);
    }
  }

  lemma StepKeepsBusyOwned(s: Sys, a: Action)
    requires Inv(s) && BusyOwned(s) && Guarded(s, a)
    ensures BusyOwned(Step(s, a))
  {
    StepKeepsInv(s, a);
    hide Inv, BusyOwned, ResumeOp, Begin;
    if !a.Resume? {
      BeginKeepsBusyOwned(s, a);
    } else if a.id in s.ops {
      ResumeKeepsBusyOwned(s, a.id, a.reply);
    }
  }

  /** For every run that takes "new conversation" only when not busy, the flag is set exactly while one operation
      in flight owns it, and that operation is unique. */
  lemma {:induction false} BusyIsOwned(account: Account, storage: map<Account, Conversation>, actions: seq<Action>)
    requires GuardedRun(Init(account, storage), actions)
    ensures BusyOwned(Run(Init(account, storage), actions))
    ensures var s := Run(Init(account, storage), actions);
      forall i, j :: i in s.ops && j in s.ops && HoldsBusy(s.refs, s.ops[i]) && HoldsBusy(s.refs, s.ops[j]) ==> i == j
  {
    var s0 := Init(account, storage);
    RunKeepsInv(s0, actions);
    var s := Run(s0, actions);
    forall i, j | i in s.ops && j in s.ops && i != j
      ensures !(HoldsBusy(s.refs, s.ops[i]) && HoldsBusy(s.refs, s.ops[j]))
    {
      assert Apart(s.refs, s.ops[i], s.ops[j]);
    }
    if actions == [] {
      FreeFlagIsOwned(s0);
    } else {
      var before := actions[..|actions| - 1];
      BusyIsOwned(account, storage, before);
      RunKeepsInv(s0, before);
      StepKeepsBusyOwned(Run(s0, before), actions[|actions| - 1]);
    }
  }

  /** The guard is exact: after "new conversation" from the drawer the flag is owned if and only if it was free. */
  lemma DrawerBreaksOwnershipIffBusy(s: Sys)
    requires Inv(s)
    ensures BusyOwned(Step(s, NewFromDrawer)) <==> !s.refs.busy
  {
  }

  /** The flag is set, nobody owns it, and no ask or upload of this identity is waiting to take it over. */
  predicate Stranded(s: Sys) {
    && s.refs.busy
    && forall id :: id in s.ops ==> !HoldsBusy(s.refs, s.ops[id])
                                    && (Waiting(s.ops[id]) ==> s.ops[id].identity != s.refs.identityGen)
  }

  predicate Switches(a: Action) { a.IdentityHandler? || a.SwitchAccount? }

  lemma BusyRefusesWork(r: Refs, a: Action)
    requires r.busy && !a.Resume? && !Switches(a)
    ensures var began := Begin(r, a);
      && began.refs.busy && began.refs.identityGen == r.identityGen && began.refs.streamGen >= r.streamGen
      && (began.op.Some? ==> began.op.value.NewConversation?)
  {
  }

  lemma NonOwnerKeepsBusy(r: Refs, op: Op, reply: Reply)
    requires r.busy && !HoldsBusy(r, op) && (Waiting(op) ==> op.identity != r.identityGen)
    ensures var resumed := ResumeOp(r, op, reply);
      !resumed.Unchanged? ==>
      && resumed.refs.busy && resumed.refs.identityGen == r.identityGen && resumed.refs.streamGen == r.streamGen
      && (resumed.Going? ==>
            resumed.op.identity == op.identity && !Waiting(resumed.op) && StreamOf(resumed.op) == StreamOf(op)
            && !op.NewConversation?)
  {
  }

  lemma StepKeepsStranded(s: Sys, a: Action)
    requires Inv(s) && Stranded(s) && !Switches(a)
    ensures Stranded(Step(s, a))
  {
    var s' := Step(s, a);
    if a.Resume? && a.id in s.ops {
      NonOwnerKeepsBusy(s.refs, s.ops[a.id], a.reply);
    } else if !a.Resume? {
      BusyRefusesWork(s.refs, a);
    }
    forall id | id in s'.ops
      ensures !HoldsBusy(s'.refs, s'.ops[id]) && (Waiting(s'.ops[id]) ==> s'.ops[id].identity != s'.refs.identityGen)
    {
      if id in s.ops { assert OpBounded(s, id); }
    }
  }

  /** A stranded flag is never released: every later ask, upload, confirm, cancel, draft and history load is refused
      until the account changes. */
  lemma {:induction false} StrandedForever(s: Sys, actions: seq<Action>)
    requires Inv(s) && Stranded(s) && forall k :: 0 <= k < |actions| ==> !Switches(actions[k])
    ensures Stranded(Run(s, actions))
  {
    if actions != [] {
      var before := actions[..|actions| - 1];
      StrandedForever(s, before);
      RunKeepsInv(s, before);
      StepKeepsStranded(Run(s, before), actions[|actions| - 1]);
    }
  }

  lemma RunSnoc(s: Sys, actions: seq<Action>, a: Action)
    ensures Run(s, actions + [a]) == Step(Run(s, actions), a)
  {
  }

  /** Restore, then ask: the answer streams, and its operation holds the flag. */
  lemma Asks(account: Account) returns (actions: seq<Action>)
    ensures actions == [LoadHistory, Resume(0, Bootstrap(None, [], false)), AskBegin("q"), Resume(1, RestoreSettled)]
    ensures var s := Run(Init(account, map[]), actions);
      && s.refs.busy && s.next == 2 && s.ops.Keys == {1} && s.ops[1].Stream?
      && s.ops[1].stream == s.refs.streamGen && s.ops[1].identity == s.refs.identityGen
  {
    var s0 := Init(account, map[]);
    var a1 := [LoadHistory];
    var a2 := a1 + [Resume(0, Bootstrap(None, [], false))];
    var a3 := a2 + [AskBegin("q")];
    actions := a3 + [Resume(1, RestoreSettled)];
    RunSnoc(s0, [], LoadHistory);
    RunSnoc(s0, a1, Resume(0, Bootstrap(None, [], false)));
    var s2 := Run(s0, a2);
    assert s2.refs.restoreReady && !s2.refs.busy && s2.ops == map[] && s2.next == 1;
    RunSnoc(s0, a2, AskBegin("q"));
    RunSnoc(s0, a3, Resume(1, RestoreSettled));
  }

  /** The trace through the drawer: restore, ask, then "new conversation" while the answer streams. */
  lemma DrawerStrandsTheFlag(account: Account, c: nat)
    ensures var actions := [LoadHistory, Resume(0, Bootstrap(None, [], false)), AskBegin("q"),
            Resume(1, RestoreSettled),
                            NewFromDrawer, Resume(2, Created(c)), Resume(1, StreamEnd)];
      Stranded(Run(Init(account, map[]), actions))
  {
    var s0 := Init(account, map[]);
    var a4 := Asks(account);
    var s4 := Run(s0, a4);
    var a5 := a4 + [NewFromDrawer];
    var a6 := a5 + [Resume(2, Created(c))];
    var a7 := a6 + [Resume(1, StreamEnd)];
    RunSnoc(s0, a4, NewFromDrawer);
    RunSnoc(s0, a5, Resume(2, Created(c)));
    RunSnoc(s0, a6, Resume(1, StreamEnd));
    assert a7 == [LoadHistory, Resume(0, Bootstrap(None, [], false)), AskBegin("q"), Resume(1, RestoreSettled),
                  NewFromDrawer, Resume(2, Created(c)), Resume(1, StreamEnd)];
    hide Run, Init;
    assert Step(s4, NewFromDrawer).ops.Keys == {1, 2};
  }
}
