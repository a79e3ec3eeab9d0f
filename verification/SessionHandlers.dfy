/** What each segment of the session protocol means for whoever calls or awaits it, in every state of the invariant. */
module SessionHandlers {
  import opened Options
  import opened Session
  import opened SessionBusy
  import opened SessionIsolation
  import opened SessionLog
  import opened SessionSafety

  // ---------------------------------------------------------------------------------------
  // First segments
  // ---------------------------------------------------------------------------------------

  /** None of these operations holds the stream any more. */
  predicate Overtaken(r: Refs, ops: map<nat, Op>) {
    forall i :: i in ops ==> !Holds(r, ops[i])
  }

  /** None of these restores may still complete. */
  predicate NoRestore(r: Refs, ops: map<nat, Op>) {
    forall i :: i in ops ==> !PendingRestore(r, ops[i])
  }

  /** What the user sees and what is stored has not changed. */
  predicate SameSession(r: Refs, r': Refs) {
    r'.thread == r.thread && r'.conversation == r.conversation && r'.storage == r.storage && r'.account == r.account
  }

  /** A new operation is in flight and has taken the stream from all others; what is shown and stored is as before. */
  predicate TakesOver(s: Sys, s': Sys) {
    && s'.next == s.next + 1 && s.next in s'.ops && s'.ops - {s.next} == s.ops
    && Overtaken(s'.refs, s.ops) && SameSession(s.refs, s'.refs)
  }

  /** A question or upload waits for the pending restore; no reference has changed. */
  predicate Waits(s: Sys, s': Sys, upload: bool, content: string) {
    && s'.refs == s.refs && s'.next == s.next + 1 && s.next in s'.ops && s'.ops - {s.next} == s.ops
    && (if upload then s'.ops[s.next].UploadWait? else s'.ops[s.next].AskWait?)
    && s'.ops[s.next].identity == s.refs.identityGen && s'.ops[s.next].content == content
  }

  lemma NextIsNew(s: Sys, op: Op)
    requires Inv(s)
    ensures s.next !in s.ops && s.ops[s.next := op] - {s.next} == s.ops
  {
    assert s.next in s.ops ==> OpBounded(s, s.next);
  }

  lemma LoadTakesOver(s: Sys)
    requires Inv(s) && !s.refs.busy
    ensures var s' := Step(s, LoadHistory);
      && TakesOver(s, s') && NoRestore(s'.refs, s.ops)
      && PendingRestore(s'.refs, s'.ops[s.next]) && !s'.refs.restoreReady && s'.refs.restoring
  {
    var s' := Step(s, LoadHistory);
    NextIsNew(s, s'.ops[s.next]);
    forall i | i in s.ops ensures !Holds(s'.refs, s.ops[i]) && !PendingRestore(s'.refs, s.ops[i]) {
      assert OpBounded(s, i);
    }
  }

  lemma NewTakesOver(s: Sys)
    requires Inv(s)
    ensures var s' := Step(s, NewFromDrawer);
      && TakesOver(s, s') && NoRestore(s'.refs, s.ops)
      && Holds(s'.refs, s'.ops[s.next]) && !s'.refs.restoreReady && s'.refs.restoring && s'.refs.busy == s.refs.busy
  {
    var s' := Step(s, NewFromDrawer);
    NextIsNew(s, s'.ops[s.next]);
    forall i | i in s.ops ensures !Holds(s'.refs, s.ops[i]) && !PendingRestore(s'.refs, s.ops[i]) {
      assert OpBounded(s, i);
    }
  }

  lemma ActTakesOver(s: Sys, kind: ActionKind)
    requires Inv(s) && !s.refs.busy && !kind.DraftConfirm?
    ensures var s' := Step(s, ActBegin(kind));
      TakesOver(s, s') && HoldsBusy(s'.refs, s'.ops[s.next]) && s'.refs.busy
  {
    var s' := Step(s, ActBegin(kind));
    NextIsNew(s, s'.ops[s.next]);
    forall i | i in s.ops ensures !Holds(s'.refs, s.ops[i]) { assert OpBounded(s, i); }
  }

  lemma AskWaits(s: Sys, content: string)
    requires Inv(s) && !s.refs.busy && content != ""
    ensures Waits(s, Step(s, AskBegin(content)), false, content)
  {
    NextIsNew(s, AskWait(s.refs.identityGen, content));
  }

  lemma UploadWaits(s: Sys, name: string)
    requires Inv(s) && !s.refs.busy
    ensures Waits(s, Step(s, UploadBegin(name)), true, name)
  {
    NextIsNew(s, UploadWait(s.refs.identityGen, name));
  }

  // ---------------------------------------------------------------------------------------
  // Later segments
  // ---------------------------------------------------------------------------------------

  /** The operation is over; all others are as they were. */
  predicate Over(s: Sys, s': Sys, id: nat) {
    s'.ops == s.ops - {id} && s'.next == s.next
  }

  /** No item of the thread but the one at `slot` has changed, nor any generation or what is stored. */
  predicate OwnItemOnly(r: Refs, r': Refs, slot: nat) {
    && slot < |r.thread| == |r'.thread|
    && (forall k :: 0 <= k < |r.thread| && k != slot ==> r'.thread[k] == r.thread[k])
    && r'.restoreGen == r.restoreGen && r'.identityGen == r.identityGen && r'.streamGen == r.streamGen
    && r'.restoreReady == r.restoreReady && r'.restoring == r.restoring && r'.account == r.account
  }

  /** A current restore has completed: the flag and generations stay, the conversation and the current account's key are
      the restored ones, nothing streams, and nobody else holds the stream as a run or a new conversation. */
  predicate RestoredTo(s: Sys, s': Sys, c: Option<Conversation>, ready: bool) {
    && SameGenerations(s.refs, s'.refs)
    && s'.refs.restoreReady == ready && !s'.refs.restoring && s'.refs.busy == s.refs.busy
    && s'.refs.conversation == c && s'.refs.storage == StoredAs(s.refs, c)
    && s'.refs.thread != [] && (forall k :: 0 <= k < |s'.refs.thread| ==> !s'.refs.thread[k].streaming)
    && (forall i :: i in s'.ops ==> !Streams(s'.ops[i]) || !Holds(s'.refs, s'.ops[i]))
  }

  predicate SameGenerations(r: Refs, r': Refs) {
    r'.restoreGen == r.restoreGen && r'.identityGen == r.identityGen && r'.streamGen == r.streamGen
        && r'.account == r.account
  }

  function StoredAs(r: Refs, c: Option<Conversation>): map<Account, Conversation> {
    if c.Some? then r.storage[r.account := c.value] else r.storage - {r.account}
  }

  /** A superseded restore, new conversation or run changes nothing and is over. */
  lemma SupersededEnds(s: Sys, id: nat, reply: Reply)
    requires id in s.ops && !Holds(s.refs, s.ops[id]) && !PendingRestore(s.refs, s.ops[id])
    requires !Waiting(s.ops[id]) && !s.ops[id].Acting? && !(s.ops[id].Stream? && reply.Event?)
    requires !ResumeOp(s.refs, s.ops[id], reply).Unchanged?
    ensures var s' := Step(s, Resume(id, reply)); s'.refs == s.refs && Over(s, s', id)
  {
  }

  lemma CurrentRestore(s: Sys, id: nat, reply: Reply)
    requires Inv(s) && id in s.ops && PendingRestore(s.refs, s.ops[id]) && (reply.Bootstrap? || reply.Failed?)
    ensures var s' := Step(s, Resume(id, reply));
      var c := if reply.Bootstrap? && reply.conversation.Some?
               then Some(Conversation(s.ops[id].account, reply.conversation.value)) else None;
      && Over(s, s', id) && RestoredTo(s, s', c, reply.Bootstrap?)
      && if reply.Bootstrap? then ShowsHistory(s'.refs.thread, reply.messages, reply.hasActions)
         else s'.refs.thread == [WELCOME]
  {
    var s' := Step(s, Resume(id, reply));
    if reply.Bootstrap? { RestoredShowsHistory(reply.messages, reply.hasActions); }
    hide Restored, ShowsHistory;
    forall i | i in s'.ops ensures !Streams(s'.ops[i]) || !Holds(s'.refs, s'.ops[i]) {
      assert Apart(s.refs, s.ops[i], s.ops[id]);
    }
    if reply.Bootstrap? { RestoredIsStill(reply.messages, reply.hasActions); }
  }

  lemma RestoredIsStill(messages: seq<Message>, hasActions: bool)
    ensures var thread := Restored(messages, hasActions);
      thread != [] && forall k :: 0 <= k < |thread| ==> !thread[k].streaming
  {
  }

  lemma CurrentNew(s: Sys, id: nat, reply: Reply)
    requires Inv(s) && id in s.ops && s.ops[id].NewConversation? && Holds(s.refs, s.ops[id])
             && (reply.Created? || reply.Failed?)
    ensures var s' := Step(s, Resume(id, reply));
      var c := if reply.Created? then Some(Conversation(s.ops[id].account, reply.created)) else None;
      Over(s, s', id) && RestoredTo(s, s', c, reply.Created?) && s'.refs.thread == [WELCOME]
  {
    var s' := Step(s, Resume(id, reply));
    assert OpSafe(s.refs, s.ops[id]);
    forall i | i in s'.ops ensures !Streams(s'.ops[i]) || !Holds(s'.refs, s'.ops[i]) {
      assert Apart(s.refs, s.ops[id], s.ops[i]);
    }
  }

  /** A run that has just started: it holds the stream alone, was sent by the current account and has heard nothing; the
      thread has grown by what the user said and by its placeholder, which is the last that streams. */
  ghost predicate Started(s: Sys, s': Sys, id: nat)
    requires id in s.ops && Waiting(s.ops[id])
  {
    && s'.next == s.next && id in s'.ops && s'.ops - {id} == s.ops - {id}
    && (if s.ops[id].UploadWait? then s'.ops[id].Recognise? else IsFreshStream(s'.ops[id], "", false))
    && Holds(s'.refs, s'.ops[id]) && s'.refs.busy && Overtaken(s'.refs, s'.ops - {id})
    && s'.ops[id].account == s'.refs.account == s.refs.account
    && s'.refs.conversation == s.refs.conversation && s'.refs.storage == s.refs.storage
    && |s'.refs.thread| == |s.refs.thread| + 2 && s.refs.thread <= s'.refs.thread
    && s'.refs.thread[|s.refs.thread|] == Item(User, s.ops[id].content, [], false)
    && s'.ops[id].slot == |s.refs.thread| + 1 && OwnsLastStreaming(s'.refs.thread, s'.ops[id].slot)
    && ShowsOwn(s'.refs.thread[s'.ops[id].slot], s'.ops[id])
  }

  predicate IsFreshStream(op: Op, first: string, upload: bool) {
    op.Stream? && op.log == [] && op.first == first && op.upload == upload
  }

  lemma WaitStarts(s: Sys, id: nat)
    requires Inv(s) && id in s.ops && Waiting(s.ops[id])
    ensures var s' := Step(s, Resume(id, RestoreSettled));
      if MayStart(s.refs, s.ops[id].identity) then Started(s, s', id) else s'.refs == s.refs && Over(s, s', id)
  {
    var s' := Step(s, Resume(id, RestoreSettled));
    if MayStart(s.refs, s.ops[id].identity) {
      forall i | i in s'.ops - {id} ensures !Holds(s'.refs, s'.ops[i]) { assert OpBounded(s, i); }
      if s'.ops[id].Stream? { FoldedShowsOwn(s'.ops[id]); }
      hide ShowsRun;
    }
  }

  /** The conversation that the start of a run names becomes current, and is stored for the current account if it is
      another one than before; nothing else changes the conversation or what is stored. */
  predicate ConversationHears(r: Refs, event: RunEvent, account: Account, r': Refs) {
    if event.RunStart? && event.conversation.Some? then
      var c := Conversation(account, event.conversation.value);
      && r'.conversation == Some(c)
      && r'.storage == if r.conversation == Some(c) then r.storage else r.storage[r.account := c]
    else r'.conversation == r.conversation && r'.storage == r.storage
  }

  /** An event of a current run: only its own item has changed, by what the event says; it streams on and shows the
      run's own events so far. */
  ghost predicate Heard(s: Sys, s': Sys, id: nat, event: RunEvent)
    requires id in s.ops && s.ops[id].Stream?
  {
    && s'.next == s.next && s'.ops == s.ops[id := s.ops[id].(log := s.ops[id].log + [event])]
    && OwnItemOnly(s.refs, s'.refs, s.ops[id].slot) && s'.refs.busy == s.refs.busy
    && OwnsLastStreaming(s'.refs.thread, s.ops[id].slot)
    && ItemHears(s.refs.thread[s.ops[id].slot], event, s.ops[id].upload, s'.refs.thread[s.ops[id].slot])
    && ShowsOwn(s'.refs.thread[s.ops[id].slot], s'.ops[id])
    && ConversationHears(s.refs, event, s.ops[id].account, s'.refs)
  }

  lemma EventIsHeard(s: Sys, id: nat, event: RunEvent)
    requires Inv(s) && id in s.ops && s.ops[id].Stream?
    ensures var s' := Step(s, Resume(id, Event(event)));
      if Holds(s.refs, s.ops[id]) then Heard(s, s', id, event) else s' == s
  {
    if Holds(s.refs, s.ops[id]) {
      EventIsHeardByHolder(s, id, event);
    } else {
      assert s.ops[id := s.ops[id]] == s.ops;
    }
  }

  lemma EventIsHeardByHolder(s: Sys, id: nat, event: RunEvent)
    requires Inv(s) && id in s.ops && s.ops[id].Stream? && Holds(s.refs, s.ops[id])
    ensures Heard(s, Step(s, Resume(id, Event(event))), id, event)
  {
    hide Inv, EventApplied, ShowsOwn, ItemHears, ConversationHears;
    var op := s.ops[id];
    var s' := Step(s, Resume(id, Event(event)));
    HolderShowsOwnRun(s, id);
    EventUpdatesOwnItem(s.refs, op.identity, op.stream, event, op.account, op.upload, op.slot);
    StreamEventKeepsInv(s, id, event);
    HolderShowsOwnRun(s', id);
    EventKeepsRest(s.refs, op, event);
  }

  lemma EventKeepsRest(r: Refs, op: Op, event: RunEvent)
    requires op.Stream?
    ensures var r' := EventApplied(r, op.identity, op.stream, event, op.account, op.upload);
      && r'.restoring == r.restoring && r'.account == r.account
      && (Holds(r, op) ==> ConversationHears(r, event, op.account, r'))
  {
    hide UpdateStreaming;
  }

  /** A current run has ended: the flag is free and only its own item has changed. */
  predicate RunOver(s: Sys, s': Sys, id: nat)
    requires id in s.ops && Streams(s.ops[id])
  {
    && Over(s, s', id) && !s'.refs.busy && OwnItemOnly(s.refs, s'.refs, s.ops[id].slot)
    && s'.refs.conversation == s.refs.conversation && s'.refs.storage == s.refs.storage
  }

  /** What becomes of the placeholder: the end of a run only stops its streaming, an abort leaves it as it is, and a
      failure is appended to what an upload says, or said by a question that has said nothing yet. */
  predicate ItemEnds(item: Item, reply: Reply, upload: bool, after: Item) {
    && after.role == item.role && after.steps == item.steps
    && after.streaming == (reply.Aborted? && item.streaming)
    && if !reply.Failed? then after.content == item.content
       else if upload then after.content == item.content + reply.text
       else if item.content != "" then after.content == item.content
       else after.content == reply.text
  }

  lemma StreamEnds(s: Sys, id: nat, reply: Reply)
    requires Inv(s) && id in s.ops && s.ops[id].Stream? && Holds(s.refs, s.ops[id])
    requires reply.StreamEnd? || reply.Failed? || reply.Aborted?
    ensures var s' := Step(s, Resume(id, reply));
      && RunOver(s, s', id) && Over(s, s', id) && s.ops[id].slot < |s'.refs.thread|
      && ShowsOwn(s.refs.thread[s.ops[id].slot], s.ops[id])
      && ItemEnds(s.refs.thread[s.ops[id].slot], reply, s.ops[id].upload, s'.refs.thread[s.ops[id].slot])
  {
    assert OpSafe(s.refs, s.ops[id]);
    LastStreamingIs(s.refs.thread, s.ops[id].slot);
    HolderShowsOwnRun(s, id);
    hide Inv, LastStreaming, ShowsOwn;
  }

  lemma ReceiptEnds(s: Sys, id: nat, text: string)
    requires Inv(s) && id in s.ops && s.ops[id].Recognise? && Holds(s.refs, s.ops[id])
    ensures var s' := Step(s, Resume(id, Failed(text)));
      && RunOver(s, s', id) && Over(s, s', id) && s.ops[id].slot < |s'.refs.thread|
      && s'.refs.thread[s.ops[id].slot] == Item(Assistant, text, [], false)
  {
    assert OpSafe(s.refs, s.ops[id]);
    LastStreamingIs(s.refs.thread, s.ops[id].slot);
    hide Inv, LastStreaming;
  }

  /** A recognised receipt: the run goes on with a stream in the same place, and only its own item has changed. */
  predicate GoesOn(s: Sys, s': Sys, id: nat, summary: string)
    requires id in s.ops && s.ops[id].Recognise?
  {
    && s'.next == s.next && id in s'.ops && s'.ops - {id} == s.ops - {id}
    && IsFreshStream(s'.ops[id], summary, true) && s'.ops[id].slot == s.ops[id].slot && Holds(s'.refs, s'.ops[id])
    && s'.ops[id].account == s.refs.account
    && OwnItemOnly(s.refs, s'.refs, s.ops[id].slot) && s'.refs.busy == s.refs.busy
    && s'.refs.conversation == s.refs.conversation && s'.refs.storage == s.refs.storage
    && OwnsLastStreaming(s'.refs.thread, s.ops[id].slot)
  }

  lemma ReceiptGoesOn(s: Sys, id: nat, summary: string)
    requires Inv(s) && id in s.ops && s.ops[id].Recognise? && Holds(s.refs, s.ops[id])
    ensures var s' := Step(s, Resume(id, Recognised(summary)));
      && GoesOn(s, s', id, summary) && id in s'.ops && s'.ops[id].Stream?
      && s'.ops[id].slot == s.ops[id].slot < |s'.refs.thread|
      && s'.refs.thread[s.ops[id].slot] == Item(Assistant, summary, [], true)
  {
    var op := s.ops[id];
    assert OpSafe(s.refs, op);
    LastStreamingIs(s.refs.thread, op.slot);
    hide Inv, LastStreaming;
    var s' := Step(s, Resume(id, Recognised(summary)));
    OwnItemReplaced(s.refs.thread, op.slot, s'.refs.thread[op.slot]);
    assert s'.ops - {id} == s.ops - {id};
  }

  /** A current confirm, cancel or draft has ended: the flag is free and the thread has at most grown by one item. */
  predicate ActOver(s: Sys, s': Sys, id: nat, said: Option<string>) {
    && Over(s, s', id) && !s'.refs.busy && SameGenerations(s.refs, s'.refs)
    && s'.refs.thread == s.refs.thread + (if said.Some? then [Item(Assistant, said.value, [], false)] else [])
    && s'.refs.conversation == s.refs.conversation && s'.refs.storage == s.refs.storage
  }

  /** What each reply makes a confirm, cancel or draft say. */
  predicate Answers(kind: ActionKind, reply: Reply, said: Option<string>) {
    match reply
    case Executed(text) => !kind.DraftEdit? && said == Some(text)
    case NotReady(text) => kind.DraftEdit? && said == Some(text)
    case Failed(text) => said == if kind.Cancel? then None else Some(text)
    case _ => false
  }

  lemma ActEnds(s: Sys, id: nat, reply: Reply, said: Option<string>)
    requires id in s.ops && s.ops[id].Acting? && Answers(s.ops[id].kind, reply, said)
    ensures var s' := Step(s, Resume(id, reply));
      if Holds(s.refs, s.ops[id]) then ActOver(s, s', id, said) else s'.refs == s.refs && Over(s, s', id)
  {
  }

  // ---------------------------------------------------------------------------------------
  // Steps unfolded
  // ---------------------------------------------------------------------------------------

  /** The references after the account-change handler, before an open panel restores again. */
  function Cleared(r: Refs): Refs {
    r.(restoreGen := r.restoreGen + 1, identityGen := r.identityGen + 1, streamGen := r.streamGen + 1,
       restoreReady := false, busy := false, conversation := None, thread := [WELCOME])
  }

  lemma SwitchUnfolds(s: Sys)
    ensures var s1 := s.(refs := Cleared(s.refs));
      Step(s, IdentityHandler) == if s.refs.open then Step(s1, LoadHistory) else s1
  {
  }

  lemma RestoreUnfolds(s: Sys, id: nat, reply: Reply)
    requires id in s.ops && s.ops[id].Restore? && (reply.Bootstrap? || reply.Failed?)
    ensures var op := s.ops[id];
      var c := if reply.Bootstrap? && reply.conversation.Some?
               then Some(Conversation(op.account, reply.conversation.value)) else None;
      var r := if reply.Bootstrap?
               then RestoreDone(s.refs, op.identity, op.generation, c, Restored(reply.messages, reply.hasActions))
               else RestoreFailed(s.refs, op.identity, op.generation);
      Step(s, Resume(id, reply)) == Sys(r, s.ops - {id}, s.next)
  {
  }

  lemma NewUnfolds(s: Sys, id: nat, reply: Reply)
    requires id in s.ops && s.ops[id].NewConversation? && (reply.Created? || reply.Failed?)
    ensures var op := s.ops[id];
      var r := if reply.Created? then NewDone(s.refs, op.identity, op.stream, Conversation(op.account, reply.created))
               else NewFailed(s.refs, op.identity, op.stream);
      Step(s, Resume(id, reply)) == Sys(r, s.ops - {id}, s.next)
  {
  }

  lemma EventUnfolds(s: Sys, id: nat, event: RunEvent)
    requires id in s.ops && s.ops[id].Stream?
    ensures var op := s.ops[id];
      Step(s, Resume(id, Event(event)))
      == Sys(EventApplied(s.refs, op.identity, op.stream, event, op.account, op.upload),
             s.ops[id := op.(log := if IsCurrent(s.refs, op.identity, op.stream) then op.log + [event] else op.log)],
                 s.next)
  {
  }

  lemma EndUnfolds(s: Sys, id: nat, reply: Reply)
    requires id in s.ops && s.ops[id].Stream? && (reply.StreamEnd? || reply.Failed? || reply.Aborted?)
    ensures var op := s.ops[id];
      var r := if reply.StreamEnd? then StreamDone(s.refs, op.identity, op.stream)
               else if reply.Failed? then StreamFailed(s.refs, op.identity, op.stream, reply.text, op.upload)
               else StreamAborted(s.refs, op.identity, op.stream);
      Step(s, Resume(id, reply)) == Sys(r, s.ops - {id}, s.next)
  {
  }

  /** What the answer to a restore does, current or superseded. */
  lemma RestoreAnswered(s: Sys, id: nat, reply: Reply)
    requires Inv(s) && id in s.ops && s.ops[id].Restore? && (reply.Bootstrap? || reply.Failed?)
    ensures var op, s' := s.ops[id], Step(s, Resume(id, reply));
      var c := if reply.Bootstrap? && reply.conversation.Some?
               then Some(Conversation(op.account, reply.conversation.value)) else None;
      var r := if reply.Bootstrap?
               then RestoreDone(s.refs, op.identity, op.generation, c, Restored(reply.messages, reply.hasActions))
               else RestoreFailed(s.refs, op.identity, op.generation);
      && s' == Sys(r, s.ops - {id}, s.next) && Over(s, s', id)
      && if !PendingRestore(s.refs, op) then s'.refs == s.refs
         else
           && RestoredTo(s, s', c, reply.Bootstrap?)
           && if reply.Bootstrap? then ShowsHistory(s'.refs.thread, reply.messages, reply.hasActions)
              else s'.refs.thread == [WELCOME]
  {
    RestoreUnfolds(s, id, reply);
    if PendingRestore(s.refs, s.ops[id]) { CurrentRestore(s, id, reply); } else { SupersededEnds(s, id, reply); }
  }

  /** What the answer to a new conversation does, current or superseded. */
  lemma NewAnswered(s: Sys, id: nat, reply: Reply)
    requires Inv(s) && id in s.ops && s.ops[id].NewConversation? && (reply.Created? || reply.Failed?)
    ensures var op, s' := s.ops[id], Step(s, Resume(id, reply));
      var c := if reply.Created? then Some(Conversation(op.account, reply.created)) else None;
      var r := if reply.Created? then NewDone(s.refs, op.identity, op.stream, Conversation(op.account, reply.created))
               else NewFailed(s.refs, op.identity, op.stream);
      && s' == Sys(r, s.ops - {id}, s.next) && Over(s, s', id)
      && if Holds(s.refs, op) then RestoredTo(s, s', c, reply.Created?) && s'.refs.thread == [WELCOME]
         else s'.refs == s.refs
  {
    NewUnfolds(s, id, reply);
    if Holds(s.refs, s.ops[id]) { CurrentNew(s, id, reply); } else { SupersededEnds(s, id, reply); }
  }
}
