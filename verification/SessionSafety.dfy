/** What every interleaving of the session protocol keeps. */
module SessionSafety {
  import opened Options
  import opened Session
  import opened SessionLog

  function StreamOf(op: Op): Option<nat> {
    match op
    case NewConversation(_, stream, _) => Some(stream)
    case Recognise(_, stream, _, _) => Some(stream)
    case Stream(_, stream, _, _, _, _, _) => Some(stream)
    case Acting(_, stream, _) => Some(stream)
    case _ => None
  }

  predicate Waiting(op: Op) { op.AskWait? || op.UploadWait? }

  /** The operation owns the current identity and stream generations. */
  predicate Holds(r: Refs, op: Op) {
    StreamOf(op).Some? && IsCurrent(r, op.identity, StreamOf(op).value)
  }

  /** The operation owns them as an ask, upload, confirm, cancel or draft: it must hold the busy flag. */
  predicate HoldsBusy(r: Refs, op: Op) {
    Holds(r, op) && !op.NewConversation?
  }

  predicate Streams(op: Op) { op.Recognise? || op.Stream? }

  predicate PendingRestore(r: Refs, op: Op) {
    op.Restore? && IsCurrentRestore(r, op.identity, op.generation)
  }

  /** `slot` is the place of the last streaming item. */
  predicate OwnsLastStreaming(thread: seq<Item>, slot: nat) {
    && slot < |thread|
    && thread[slot].streaming
    && forall k :: slot < k < |thread| ==> !thread[k].streaming
  }

  predicate OpBounded(s: Sys, id: nat)
    requires id in s.ops
  {
    var op := s.ops[id];
    && id < s.next
    && op.identity <= s.refs.identityGen
    && (StreamOf(op).Some? ==> StreamOf(op).value <= s.refs.streamGen)
    && (op.Restore? ==> op.generation <= s.refs.restoreGen)
  }

  const RECOGNISING_ITEM := Item(Assistant, RECOGNISING, [], true)

  /** The placeholder of a run that has heard the events of its log. */
  function Folded(op: Op): Item
    requires op.Stream?
  {
    Item(Assistant, FoldContent(op.log, op.upload, op.first), FoldSteps(op.log), true)
  }

  predicate OpSafe(r: Refs, op: Op) {
    && (PendingRestore(r, op) ==> !r.restoreReady)
    && (Holds(r, op) && op.NewConversation? ==> !r.restoreReady)
    && (HoldsBusy(r, op) ==> r.busy)
    && (Holds(r, op) && Streams(op) ==>
        && OwnsLastStreaming(r.thread, op.slot)
        && r.thread[op.slot] == (if op.Stream? then Folded(op) else RECOGNISING_ITEM))
  }

  /** Two operations never share a stream or restore generation, and whoever owns the current stream
      as an ask, upload or new conversation excludes a pending restore. */
  predicate Apart(r: Refs, op: Op, other: Op) {
    && (StreamOf(op).Some? ==> StreamOf(op) != StreamOf(other))
    && (op.Restore? && other.Restore? ==> op.generation != other.generation)
    && (Holds(r, op) && !op.Acting? ==> !PendingRestore(r, other))
  }

  predicate Inv(s: Sys) {
    && (forall id :: id in s.ops ==> OpBounded(s, id) && OpSafe(s.refs, s.ops[id]))
    && (forall i, j :: i in s.ops && j in s.ops && i != j ==> Apart(s.refs, s.ops[i], s.ops[j]))
  }

  // ---------------------------------------------------------------------------------------
  // Preservation, one kind of segment at a time
  // ---------------------------------------------------------------------------------------

  /** What the invariant reads of the references. */
  predicate SameGuard(r: Refs, r': Refs) {
    && r'.restoreGen == r.restoreGen && r'.identityGen == r.identityGen && r'.streamGen == r.streamGen
    && r'.busy == r.busy && r'.restoreReady == r.restoreReady && r'.thread == r.thread
  }

  lemma FrameKeepsInv(s: Sys, r: Refs)
    requires Inv(s) && SameGuard(s.refs, r)
    ensures Inv(s.(refs := r))
  {
  }

  lemma RemoveKeepsInv(s: Sys, id: nat)
    requires Inv(s)
    ensures Inv(s.(ops := s.ops - {id}))
  {
  }

  /** Raising the stream generation supersedes every operation that waits for a reply. */
  lemma SupersededKeepsInv(s: Sys, r: Refs)
    requires Inv(s)
    requires r.restoreGen >= s.refs.restoreGen && r.identityGen >= s.refs.identityGen && r.streamGen > s.refs.streamGen
    requires r.restoreReady ==> s.refs.restoreReady
    ensures Inv(s.(refs := r))
    ensures forall i :: i in s.ops ==> !Holds(r, s.ops[i]) && StreamOf(s.ops[i]) != Some(r.streamGen)
    ensures r.restoreGen > s.refs.restoreGen ==>
              forall i :: i in s.ops ==> s.ops[i].Restore? ==> s.ops[i].generation < r.restoreGen
  {
  }

  /** Adding or replacing an operation keeps the invariant if it fits beside all the others. */
  lemma PutKeepsInv(s: Sys, id: nat, op: Op, next: nat)
    requires Inv(s) && id < next && s.next <= next
    requires op.identity <= s.refs.identityGen && (op.Restore? ==> op.generation <= s.refs.restoreGen)
    requires StreamOf(op).Some? ==> StreamOf(op).value <= s.refs.streamGen
    requires OpSafe(s.refs, op)
    requires forall i :: i in s.ops && i != id ==> Apart(s.refs, op, s.ops[i]) && Apart(s.refs, s.ops[i], op)
    ensures Inv(Sys(s.refs, s.ops[id := op], next))
  {
  }

  /** What a first segment leaves: nothing guarded has changed, or the operation at an await carries the newest
      generations. */
  predicate Launched(before: Refs, began: Began) {
    if began.op.None? then SameGuard(before, began.refs)
    else
      var r := began.refs;
      var op := began.op.value;
      && (Waiting(op) || op.Restore? || op.NewConversation? || op.Acting?)
      && op.identity == r.identityGen
      && (Waiting(op) ==> SameGuard(before, r))
      && (!Waiting(op) ==> r.streamGen > before.streamGen && r.identityGen >= before.identityGen)
      && (StreamOf(op).Some? ==> StreamOf(op).value == r.streamGen)
      && (op.Acting? ==> r.busy && r.restoreGen == before.restoreGen && r.restoreReady == before.restoreReady)
      && (op.Restore? || op.NewConversation? ==> r.restoreGen > before.restoreGen && !r.restoreReady)
      && (op.Restore? ==> op.generation == r.restoreGen)
  }

  lemma BeginLaunches(r: Refs, a: Action)
    requires !a.Resume?
    ensures var began := Begin(r, a);
      if (a.IdentityHandler? || a.SwitchAccount?) && !r.open
      then began.op.None? && began.refs.streamGen > r.streamGen && began.refs.restoreGen >= r.restoreGen
           && began.refs.identityGen >= r.identityGen && !began.refs.restoreReady
      else Launched(r, began)
  {
  }

  /** A launched operation that carries the newest generations fits beside everything it has superseded. */
  lemma LaunchKeepsInv(s: Sys, began: Began)
    requires Inv(s) && Launched(s.refs, began)
    ensures Inv(Launch(s, began))
  {
    var s0 := s.(refs := began.refs);
    if began.op.None? || Waiting(began.op.value) {
      FrameKeepsInv(s, began.refs);
    } else {
      SupersededKeepsInv(s, began.refs);
    }
    if began.op.Some? { PutKeepsInv(s0, s.next, began.op.value, s.next + 1); }
  }

  lemma BeginKeepsInv(s: Sys, a: Action)
    requires Inv(s) && !a.Resume?
    ensures Inv(Step(s, a))
  {
    var began := Begin(s.refs, a);
    BeginLaunches(s.refs, a);
    hide Inv, Begin, Launched;
    if (a.IdentityHandler? || a.SwitchAccount?) && !s.refs.open {
      SupersededKeepsInv(s, began.refs);
    } else {
      LaunchKeepsInv(s, began);
    }
  }

  lemma StepKeepsInv(s: Sys, a: Action)
    requires Inv(s)
    ensures Inv(Step(s, a))
  {
    if !a.Resume? {
      BeginKeepsInv(s, a);
    } else if a.id in s.ops {
      ResumeKeepsInv(s, a.id, a.reply);
    }
  }

  // Segments after an await

  lemma LastStreamingIs(thread: seq<Item>, slot: nat)
    requires OwnsLastStreaming(thread, slot)
    ensures LastStreaming(thread) == slot
  {
  }

  lemma FoldExtends(log: seq<RunEvent>, event: RunEvent)
    ensures FoldSteps(log + [event]) == ApplyEvent(FoldSteps(log), event)
    ensures forall upload, first ::
      FoldContent(log + [event], upload, first) == ApplyContent(FoldContent(log, upload, first), event, upload)
  {
  }

  /** The holder of the current generations may change busy flag, conversation and thread freely:
      nobody else depends on them. */
  lemma HolderKeepsInv(s: Sys, id: nat, r: Refs)
    requires Inv(s) && id in s.ops && Holds(s.refs, s.ops[id])
    requires r.restoreGen == s.refs.restoreGen && r.identityGen == s.refs.identityGen && r.streamGen == s.refs.streamGen
    requires r.restoreReady == s.refs.restoreReady || s.ops[id].NewConversation?
    ensures Inv(Settle(s, id, Ended(r)))
    ensures forall i :: i in s.ops && i != id ==> !Holds(r, s.ops[i])
  {
  }

  lemma HolderContinueKeepsInv(s: Sys, id: nat, r: Refs, op: Op)
    requires Inv(s) && id in s.ops && Holds(s.refs, s.ops[id]) && StreamOf(op) == StreamOf(s.ops[id])
    requires op.identity == s.ops[id].identity && OpSafe(r, op) && op.Acting? == s.ops[id].Acting?
    requires r.restoreGen == s.refs.restoreGen && r.identityGen == s.refs.identityGen && r.streamGen == s.refs.streamGen
    requires r.restoreReady == s.refs.restoreReady
    ensures Inv(Settle(s, id, Going(r, op)))
  {
  }

  lemma SupersededContinueKeepsInv(s: Sys, id: nat, op: Op)
    requires Inv(s) && id in s.ops && !Holds(s.refs, s.ops[id]) && StreamOf(op) == StreamOf(s.ops[id])
    requires op.identity == s.ops[id].identity && !op.Restore?
    ensures Inv(Settle(s, id, Going(s.refs, op)))
  {
  }

  lemma PendingRestoreKeepsInv(s: Sys, id: nat, r: Refs)
    requires Inv(s) && id in s.ops && PendingRestore(s.refs, s.ops[id])
    requires r.restoreGen == s.refs.restoreGen && r.identityGen == s.refs.identityGen && r.streamGen == s.refs.streamGen
    requires r.busy == s.refs.busy
    ensures Inv(Settle(s, id, Ended(r)))
  {
  }

  /** A waiting ask or upload that starts: it becomes the only holder. */
  lemma StartKeepsInv(s: Sys, id: nat, said: string, placeholder: string, op: Op)
    requires Inv(s) && id in s.ops && Waiting(s.ops[id]) && MayStart(s.refs, s.ops[id].identity)
    requires Streams(op) && op.identity == s.ops[id].identity
    requires if op.Stream? then op.log == [] && op.first == placeholder else placeholder == RECOGNISING
    requires StreamOf(op) == Some(s.refs.streamGen + 1) && op.slot == |s.refs.thread| + 1
    ensures Inv(Settle(s, id, Going(StreamBegin(s.refs, said, placeholder), op)))
  {
  }

  lemma RestoreResumeKeepsInv(s: Sys, id: nat, reply: Reply)
    requires Inv(s) && id in s.ops && s.ops[id].Restore?
    ensures Inv(Settle(s, id, ResumeOp(s.refs, s.ops[id], reply)))
  {
    if PendingRestore(s.refs, s.ops[id]) {
      if reply.Bootstrap? || reply.Failed? { PendingRestoreKeepsInv(s, id, ResumeOp(s.refs, s.ops[id], reply).refs); }
    } else {
      RemoveKeepsInv(s, id);
    }
  }

  /** An event of the holder changes its own placeholder and no other item. */
  lemma EventUpdatesOwnItem(r: Refs, identity: nat, stream: nat, event: RunEvent, account: Account, upload: bool,
      slot: nat)
    requires IsCurrent(r, identity, stream) && OwnsLastStreaming(r.thread, slot)
    ensures var r' := EventApplied(r, identity, stream, event, account, upload);
      && SameGuard(r.(thread := r'.thread), r')
      && OwnsLastStreaming(r'.thread, slot) && |r'.thread| == |r.thread|
      && ItemHears(r.thread[slot], event, upload, r'.thread[slot])
      && forall k :: 0 <= k < |r.thread| && k != slot ==> r'.thread[k] == r.thread[k]
  {
    LastStreamingIs(r.thread, slot);
    ApplyHears(r.thread[slot].steps, r.thread[slot].content, event, upload);
    hide LastStreaming, FinishStep, StartStep, OwnsLastStreaming, StepsHear;
    var r' := EventApplied(r, identity, stream, event, account, upload);
    assert r'.thread[slot].streaming && r'.thread == r.thread[slot := r'.thread[slot]];
    OwnItemReplaced(r.thread, slot, r'.thread[slot]);
  }

  lemma OwnItemReplaced(thread: seq<Item>, slot: nat, item: Item)
    requires OwnsLastStreaming(thread, slot) && item.streaming
    ensures OwnsLastStreaming(thread[slot := item], slot)
  {
  }

  lemma EventKeepsSafe(r: Refs, op: Op, event: RunEvent)
    requires op.Stream? && Holds(r, op) && OpSafe(r, op)
    ensures var r' := EventApplied(r, op.identity, op.stream, event, op.account, op.upload);
      OpSafe(r', op.(log := op.log + [event])) && SameGuard(r.(thread := r'.thread), r')
  {
    EventUpdatesOwnItem(r, op.identity, op.stream, event, op.account, op.upload, op.slot);
    FoldExtends(op.log, event);
    ApplyHears(FoldSteps(op.log), FoldContent(op.log, op.upload, op.first), event, op.upload);
    var r', op' := EventApplied(r, op.identity, op.stream, event, op.account, op.upload), op.(log := op.log + [event]);
    HearingIsUnique(Folded(op), event, op.upload, r'.thread[op.slot], Folded(op'));
    hide EventApplied, ItemHears, StepsHear, ContentHears, FoldSteps, FoldContent, ApplyEvent, ApplyContent;
  }

  lemma StreamEventKeepsInv(s: Sys, id: nat, event: RunEvent)
    requires Inv(s) && id in s.ops && s.ops[id].Stream?
    ensures Inv(Settle(s, id, ResumeOp(s.refs, s.ops[id], Event(event))))
  {
    var op := s.ops[id];
    var s' := Settle(s, id, ResumeOp(s.refs, op, Event(event)));
    if Holds(s.refs, op) {
      assert OpSafe(s.refs, op);
      EventKeepsSafe(s.refs, op, event);
      hide EventApplied, OpSafe;
      HolderContinueKeepsInv(s, id, s'.refs, s'.ops[id]);
    } else {
      assert s' == Settle(s, id, Going(s.refs, op));
      SupersededContinueKeepsInv(s, id, op);
    }
  }

  lemma RecogniseResumeKeepsInv(s: Sys, id: nat, reply: Reply)
    requires Inv(s) && id in s.ops && s.ops[id].Recognise?
    ensures Inv(Settle(s, id, ResumeOp(s.refs, s.ops[id], reply)))
  {
    var op := s.ops[id];
    var s' := Settle(s, id, ResumeOp(s.refs, op, reply));
    if !Holds(s.refs, op) {
      RemoveKeepsInv(s, id);
    } else if reply.Recognised? {
      assert OpSafe(s.refs, op);
      LastStreamingIs(s.refs.thread, op.slot);
      HolderContinueKeepsInv(s, id, s'.refs, s'.ops[id]);
    } else if reply.Failed? {
      HolderKeepsInv(s, id, s'.refs);
    }
  }

  lemma HolderResumeKeepsInv(s: Sys, id: nat, reply: Reply)
    requires Inv(s) && id in s.ops
             && (s.ops[id].NewConversation? || s.ops[id].Acting? || (s.ops[id].Stream? && !reply.Event?))
    ensures Inv(Settle(s, id, ResumeOp(s.refs, s.ops[id], reply)))
  {
    var op := s.ops[id];
    var s' := Settle(s, id, ResumeOp(s.refs, op, reply));
    if !Holds(s.refs, op) {
      RemoveKeepsInv(s, id);
    } else if id !in s'.ops {
      HolderKeepsInv(s, id, s'.refs);
    } else if s' != s {
      assert OpSafe(s.refs, op);
      HolderContinueKeepsInv(s, id, s.refs, s'.ops[id]);
    }
  }

  lemma ResumeKeepsInv(s: Sys, id: nat, reply: Reply)
    requires Inv(s) && id in s.ops
    ensures Inv(Settle(s, id, ResumeOp(s.refs, s.ops[id], reply)))
  {
    match s.ops[id] {
      case Restore(_, _, _) => RestoreResumeKeepsInv(s, id, reply);
      case Recognise(_, _, _, _) => RecogniseResumeKeepsInv(s, id, reply);
      case AskWait(identity, content) =>
        if MayStart(s.refs, identity) && reply.RestoreSettled? {
          StartKeepsInv(s, id, content, "", ResumeOp(s.refs, s.ops[id], reply).op);
        } else {
          RemoveKeepsInv(s, id);
        }
      case UploadWait(identity, name) =>
        if MayStart(s.refs, identity) && reply.RestoreSettled? {
          StartKeepsInv(s, id, name, RECOGNISING, ResumeOp(s.refs, s.ops[id], reply).op);
        } else {
          RemoveKeepsInv(s, id);
        }
      case Stream(_, _, _, _, _, _, _) =>
        if reply.Event? { StreamEventKeepsInv(s, id, reply.event); } else { HolderResumeKeepsInv(s, id, reply); }
      case _ => HolderResumeKeepsInv(s, id, reply);
    }
  }

  // ---------------------------------------------------------------------------------------
  // Whole runs
  // ---------------------------------------------------------------------------------------

  lemma {:induction false} RunKeepsInv(s: Sys, actions: seq<Action>)
    requires Inv(s)
    ensures Inv(Run(s, actions))
  {
    if actions != [] {
      RunKeepsInv(s, actions[..|actions| - 1]);
      StepKeepsInv(Run(s, actions[..|actions| - 1]), actions[|actions| - 1]);
    }
  }

  /** The item is the placeholder of this run, showing exactly what its own events so far say. */
  ghost predicate ShowsOwn(item: Item, op: Op)
    requires Streams(op)
  {
    if op.Stream? then ShowsRun(item, op.log, op.upload, op.first) else item == Item(Assistant, RECOGNISING, [], true)
  }

  lemma FoldedShowsOwn(op: Op)
    requires op.Stream?
    ensures ShowsOwn(Folded(op), op)
  {
    FoldShowsSteps(op.log);
    FoldShowsContent(op.log, op.upload, op.first);
  }

  /** An operation that owns the stream as an ask or upload excludes every pending restore and every other holder, the
      last streaming item is its own placeholder, and that item shows exactly what the run's own events say. */
  lemma HolderShowsOwnRun(s: Sys, id: nat)
    requires Inv(s) && id in s.ops && Streams(s.ops[id]) && Holds(s.refs, s.ops[id])
    ensures s.refs.busy
    ensures forall j :: j in s.ops ==> !PendingRestore(s.refs, s.ops[j])
    ensures forall j :: j in s.ops && j != id ==> !Holds(s.refs, s.ops[j])
    ensures OwnsLastStreaming(s.refs.thread, s.ops[id].slot)
    ensures ShowsOwn(s.refs.thread[s.ops[id].slot], s.ops[id])
  {
    assert OpSafe(s.refs, s.ops[id]);
    if s.ops[id].Stream? { FoldedShowsOwn(s.ops[id]); }
    hide ShowsOwn;
    forall j | j in s.ops ensures !PendingRestore(s.refs, s.ops[j]) && (j != id ==> !Holds(s.refs, s.ops[j])) {
      if j != id { assert Apart(s.refs, s.ops[id], s.ops[j]); }
    }
  }

  /** So it is in every reachable state. */
  lemma StreamShowsOwnRun(account: Account, storage: map<Account, Conversation>, actions: seq<Action>, id: nat)
    requires var s := Run(Init(account, storage), actions);
      id in s.ops && Streams(s.ops[id]) && Holds(s.refs, s.ops[id])
    ensures var s := Run(Init(account, storage), actions);
      && s.refs.busy
      && (forall j :: j in s.ops ==> !PendingRestore(s.refs, s.ops[j]))
      && (forall j :: j in s.ops && j != id ==> !Holds(s.refs, s.ops[j]))
      && OwnsLastStreaming(s.refs.thread, s.ops[id].slot)
      && ShowsOwn(s.refs.thread[s.ops[id].slot], s.ops[id])
  {
    RunKeepsInv(Init(account, storage), actions);
    HolderShowsOwnRun(Run(Init(account, storage), actions), id);
  }

  /** A first segment either leaves thread and generations alone or supersedes every stream. */
  lemma BeginLeavesThread(r: Refs, a: Action)
    requires !a.Resume?
    ensures var r' := Begin(r, a).refs;
      r'.identityGen >= r.identityGen && (r'.thread == r.thread || r'.identityGen > r.identityGen)
  {
  }

  /** A later segment of an operation that holds nothing leaves the thread alone or supersedes every stream. */
  lemma OthersLeaveThread(r: Refs, op: Op, reply: Reply)
    requires !Holds(r, op) && !PendingRestore(r, op)
    ensures var resumed := ResumeOp(r, op, reply);
      !resumed.Unchanged? ==> resumed.refs.thread == r.thread || resumed.refs.streamGen > r.streamGen
  {
  }

  /** While a run owns the current generations nobody resets or extends the thread under it: a step that leaves
      it the owner changes at most its own placeholder. */
  lemma ThreadIsStableUnderStream(s: Sys, a: Action, id: nat)
    requires Inv(s) && id in s.ops && Streams(s.ops[id]) && Holds(s.refs, s.ops[id])
    requires var s' := Step(s, a); id in s'.ops && Holds(s'.refs, s'.ops[id])
    ensures var s' := Step(s, a);
      && |s'.refs.thread| == |s.refs.thread|
      && s'.ops[id].slot == s.ops[id].slot
      && (forall k :: 0 <= k < |s.refs.thread| && k != s.ops[id].slot ==> s'.refs.thread[k] == s.refs.thread[k])
  {
    var op := s.ops[id];
    assert OpSafe(s.refs, op) && OpBounded(s, id);
    if !a.Resume? {
      BeginLeavesThread(s.refs, a);
    } else if a.id == id {
      if ResumeOp(s.refs, op, a.reply).Going? { OwnSegmentTouchesOwnItem(s.refs, op, a.reply); }
    } else if a.id in s.ops {
      assert Apart(s.refs, op, s.ops[a.id]);
      OthersLeaveThread(s.refs, s.ops[a.id], a.reply);
    }
  }

  lemma OwnSegmentTouchesOwnItem(r: Refs, op: Op, reply: Reply)
    requires Streams(op) && Holds(r, op) && OpSafe(r, op) && ResumeOp(r, op, reply).Going?
    ensures var resumed := ResumeOp(r, op, reply);
      && resumed.op.slot == op.slot && |resumed.refs.thread| == |r.thread|
      && forall k :: 0 <= k < |r.thread| && k != op.slot ==> resumed.refs.thread[k] == r.thread[k]
  {
  }
}
