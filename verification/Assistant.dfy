/** The assistant's handlers as they are written: methods that assign the shared references in place. The object also
    keeps the operations in flight, `Valid` is the invariant of the session protocol, and every handler is a step of
    it: it requires and keeps `Valid`, and its contract says what it means to whoever called or awaits it. */
module Assistant {
  import opened Options
  import opened Session
  import opened SessionBusy
  import opened SessionHandlers
  import opened SessionIsolation
  import opened SessionLog
  import opened SessionSafety

  class UnifiedAgentAssistant {
    var restoreGen: nat
    var identityGen: nat
    var streamGen: nat
    var busy: bool
    var restoring: bool
    var restoreReady: bool
    var open: bool
    var prompt: string
    var conversation: Option<Conversation>
    var account: Account
    var storage: map<Account, Conversation>
    var thread: seq<Item>
    ghost var ops: map<nat, Op>
    ghost var next: nat

    /** The references as one value. */
    ghost function Snapshot(): Refs
      reads this
    {
      Refs(restoreGen, identityGen, streamGen, busy, restoring, restoreReady, open, prompt, conversation, account,
           storage, thread)
    }

    ghost function Now(): Sys
      reads this
    {
      Sys(Snapshot(), ops, next)
    }

    ghost predicate Valid()
      reads this
    {
      Inv(Now())
    }

    /** The busy flag is set exactly while an operation in flight owns it. */
    ghost predicate Owned()
      reads this
    {
      BusyOwned(Now())
    }

    constructor (account: Account, storage: map<Account, Conversation>)
      ensures Valid() && Owned() && Now() == Init(account, storage)
    {
      restoreGen, identityGen, streamGen := 0, 0, 0;
      busy, restoring, restoreReady, open := false, false, false, false;
      prompt := "";
      conversation := if account in storage then Some(storage[account]) else None;
      this.account, this.storage := account, storage;
      thread := [WELCOME];
      ops, next := map[], 0;
    }

    /** Whatever handlers have run: a run that holds the stream shows its own events, alone. */
    lemma ShowsOwnRun(id: nat)
      requires Valid() && id in ops && ops[id].Stream? && Holds(Snapshot(), ops[id])
      ensures busy && OwnsLastStreaming(thread, ops[id].slot) && ShowsOwn(thread[ops[id].slot], ops[id])
      ensures NoRestore(Snapshot(), ops) && Overtaken(Snapshot(), ops - {id})
    {
      HolderShowsOwnRun(Now(), id);
    }

    // -------------------------------------------------------------------------------------
    // Pieces of handlers
    // -------------------------------------------------------------------------------------

    method ForgetConversation()
      modifies this`conversation, this`storage
      ensures conversation == None && storage == StoredAs(old(Snapshot()), None)
    {
      conversation := None;
      storage := storage - {account};
    }

    method StoreConversation(c: Conversation)
      modifies this`conversation, this`storage
      ensures conversation == Some(c) && storage == StoredAs(old(Snapshot()), Some(c))
    {
      conversation := Some(c);
      storage := storage[account := c];
    }

    /** Rewrites the last streaming item of the thread, searching from the end. */
    method UpdateStreamingAssistant(update: Item -> Item)
      modifies this`thread
      ensures UpdatesLast(old(thread), update, thread)
      ensures thread == UpdateStreaming(old(thread), update)
    {
      var i := |thread| - 1;
      while i >= 0
        invariant -1 <= i < |thread|
        invariant thread == old(thread)
        invariant forall k :: i < k < |thread| ==> !thread[k].streaming
      {
        if thread[i].streaming {
          LastStreamingIs(thread, i);
          thread := thread[i := update(thread[i])];
          return;
        }
        i := i - 1;
      }
    }

    /** What every step keeps. */
    lemma Keeps(a: Action)
      requires Valid()
      ensures Inv(Step(Now(), a))
      ensures Owned() && Guarded(Now(), a) ==> BusyOwned(Step(Now(), a))
    {
      StepKeepsInv(Now(), a);
      if Owned() && Guarded(Now(), a) { StepKeepsBusyOwned(Now(), a); }
    }

    // -------------------------------------------------------------------------------------
    // Restoring and starting conversations
    // -------------------------------------------------------------------------------------

    /** The synchronous part of `loadAgentConversation`. Refused while busy; otherwise a new restore is pending,
        nothing else in flight may write any more, and nothing shown or stored has changed. */
    method LoadConversation()
      requires Valid()
      modifies this
      ensures Valid() && (old(Owned()) ==> Owned())
      ensures old(busy) ==> Now() == old(Now())
      ensures !old(busy) ==>
                && TakesOver(old(Now()), Now()) && NoRestore(Snapshot(), old(ops))
                && PendingRestore(Snapshot(), ops[old(next)]) && !restoreReady && restoring
      ensures Now() == Step(old(Now()), LoadHistory)
    {
      hide Inv, BusyOwned, TakesOver, NoRestore;
      Keeps(LoadHistory);
      if busy { return; }
      LoadTakesOver(Now());
      restoreGen := restoreGen + 1;
      var generation := restoreGen;
      var identity := identityGen;
      streamGen := streamGen + 1;
      restoreReady := false;
      restoring := true;
      ops, next := ops[next := Restore(identity, generation, account)], next + 1;
    }

    method ShowRestored(items: seq<Item>, restored: Option<Conversation>)
      modifies this`thread, this`conversation, this`storage, this`restoreReady, this`restoring
      ensures thread == items && restoreReady && !restoring
      ensures conversation == restored && storage == StoredAs(old(Snapshot()), restored)
    {
      thread := items;
      if restored.Some? { StoreConversation(restored.value); } else { ForgetConversation(); }
      restoreReady := true;
      restoring := false;
    }

    /** The messages of an answer as items of the thread. */
    static method RestoredThread(messages: seq<Message>, hasActions: bool) returns (items: seq<Item>)
      ensures ShowsHistory(items, messages, hasActions)
      ensures items == Restored(messages, hasActions)
    {
      RestoredShowsHistory(messages, hasActions);
      items := [];
      for k := 0 to |messages|
        invariant |items| == k
        invariant forall j :: 0 <= j < k ==> items[j] == ItemOf(messages[j])
      {
        items := items + [ItemOf(messages[k])];
      }
      if hasActions { items := items + [RESTORED_CARD]; }
      if items == [] { items := [WELCOME]; }
    }

    /** The answer to a restore. A superseded one changes nothing; a current one shows the restored messages, none of
        them streaming, and stores the restored conversation or forgets the key. */
    method BootstrapArrived(ghost id: nat, identity: nat, generation: nat, sentBy: Account, restored: Option<nat>,
                            messages: seq<Message>, hasActions: bool)
      requires Valid() && id in ops && ops[id] == Restore(identity, generation, sentBy)
      modifies this
      ensures Valid() && (old(Owned()) ==> Owned()) && Over(old(Now()), Now(), id)
      ensures !PendingRestore(old(Snapshot()), old(ops)[id]) ==> Snapshot() == old(Snapshot())
      ensures PendingRestore(old(Snapshot()), old(ops)[id]) ==>
                && RestoredTo(old(Now()), Now(),
                    if restored.Some? then Some(Conversation(sentBy, restored.value)) else None, true)
                && ShowsHistory(thread, messages, hasActions)
      ensures Now() == Step(old(Now()), Resume(id, Bootstrap(restored, messages, hasActions)))
    {
      hide Inv, BusyOwned, RestoredTo, Over, Step, ResumeOp, Restored;
      ghost var reply := Bootstrap(restored, messages, hasActions);
      Keeps(Resume(id, reply));
      RestoreAnswered(Now(), id, reply);
      var restoredThread := RestoredThread(messages, hasActions);
      ops := ops - {id};
      if generation != restoreGen || identity != identityGen { return; }
      ShowRestored(restoredThread, if restored.Some? then Some(Conversation(sentBy, restored.value)) else None);
    }

    /** A failed restore. A superseded one changes nothing; a current one forgets the conversation. */
    method BootstrapFailed(ghost id: nat, identity: nat, generation: nat, ghost text: string)
      requires Valid() && id in ops && ops[id].Restore? && ops[id].identity == identity
               && ops[id].generation == generation
      modifies this
      ensures Valid() && (old(Owned()) ==> Owned()) && Over(old(Now()), Now(), id)
      ensures if PendingRestore(old(Snapshot()), old(ops)[id]) then RestoredTo(old(Now()), Now(), None, false)
              && thread == [WELCOME]
              else Snapshot() == old(Snapshot())
      ensures Now() == Step(old(Now()), Resume(id, Failed(text)))
    {
      hide Inv, BusyOwned, RestoredTo, Over, Step, ResumeOp;
      Keeps(Resume(id, Failed(text)));
      RestoreAnswered(Now(), id, Failed(text));
      ops := ops - {id};
      if generation != restoreGen || identity != identityGen { return; }
      ForgetConversation();
      thread := [WELCOME];
      restoreReady := false;
      restoring := false;
      assert Now() == Step(old(Now()), Resume(id, Failed(text)));
    }

    /** The listener that opens the panel with a prompt: it queues the prompt and restores only if the panel was closed
        and nothing is busy; nothing shown or stored has changed. */
    method OnOpenAgent(task: string)
      requires Valid()
      modifies this
      ensures Valid() && (old(Owned()) ==> Owned()) && SameSession(old(Snapshot()), Snapshot())
      ensures open && prompt == (if task == "" then old(prompt) else task)
      ensures old(open) || old(busy) ==> ops == old(ops) && SameGenerations(old(Snapshot()), Snapshot())
      ensures !old(open) && !old(busy) ==> old(next) in ops && PendingRestore(Snapshot(), ops[old(next)])
      ensures Now() == Step(old(Now()), OpenEvent(task))
    {
      hide Inv, BusyOwned, NoRestore;
      ghost var before := Now();
      Keeps(OpenEvent(task));
      var wasOpen := open;
      open := true;
      FrameKeepsInv(before, Snapshot());
      assert Now() == before.(refs := Snapshot());
      if !wasOpen && !busy { LoadConversation(); }
      if task != "" { prompt := task; }
    }

    /** The launcher and the close button touch nothing else. */
    method SetOpen(shown: bool)
      requires Valid()
      modifies this`open
      ensures Valid() && (old(Owned()) ==> Owned()) && open == shown
      ensures Now() == Step(old(Now()), if shown then OpenButton else ClosePanel)
    {
      hide Inv, BusyOwned;
      Keeps(if shown then OpenButton else ClosePanel);
      open := shown;
    }

    /** The synchronous part of `newAgentConversation`, which does not ask whether anything is busy: the new
        conversation holds the stream alone, and the flag keeps an owner only if it was free. */
    method NewConversationBegin()
      requires Valid()
      modifies this
      ensures Valid() && TakesOver(old(Now()), Now()) && NoRestore(Snapshot(), old(ops))
      ensures Holds(Snapshot(), ops[old(next)]) && busy == old(busy) && !restoreReady && restoring
      ensures Owned() <==> !old(busy)
      ensures Now() == Step(old(Now()), NewFromDrawer)
    {
      hide Inv, BusyOwned, TakesOver, NoRestore;
      Keeps(NewFromDrawer);
      NewTakesOver(Now());
      DrawerBreaksOwnershipIffBusy(Now());
      restoreGen := restoreGen + 1;
      streamGen := streamGen + 1;
      restoreReady := false;
      restoring := true;
      ops, next := ops[next := NewConversation(identityGen, streamGen, account)], next + 1;
    }

    /** The header's button is disabled while anything is busy or restoring, so there the flag
        always keeps its owner. */
    method NewFromHeaderButton()
      requires Valid()
      modifies this
      ensures Valid() && (old(Owned()) ==> Owned())
      ensures old(busy || restoring) ==> Now() == old(Now())
      ensures !old(busy || restoring) ==> TakesOver(old(Now()), Now()) && Holds(Snapshot(), ops[old(next)])
      ensures Now() == Step(old(Now()), NewFromHeader)
    {
      hide Inv, BusyOwned, TakesOver, NoRestore, Holds;
      if busy || restoring { return; }
      NewConversationBegin();
    }

    /** The created conversation. If superseded it changes nothing; otherwise it is the stored and current one of the
        account that asked for it and the thread starts anew. */
    method NewConversationCreated(ghost id: nat, identity: nat, stream: nat, sentBy: Account, created: nat)
      requires Valid() && id in ops && ops[id] == NewConversation(identity, stream, sentBy)
      modifies this
      ensures Valid() && (old(Owned()) ==> Owned()) && Over(old(Now()), Now(), id)
      ensures if Holds(old(Snapshot()), old(ops)[id])
              then RestoredTo(old(Now()), Now(), Some(Conversation(sentBy, created)), true) && thread == [WELCOME]
              else Snapshot() == old(Snapshot())
      ensures Now() == Step(old(Now()), Resume(id, Created(created)))
    {
      hide Inv, BusyOwned, RestoredTo, Over, Step, ResumeOp;
      Keeps(Resume(id, Created(created)));
      NewAnswered(Now(), id, Created(created));
      ops := ops - {id};
      if identity != identityGen || stream != streamGen { return; }
      StoreConversation(Conversation(sentBy, created));
      restoreReady := true;
      restoring := false;
      thread := [WELCOME];
      assert Now() == Step(old(Now()), Resume(id, Created(created)));
    }

    /** A failed creation. If superseded it changes nothing; otherwise no conversation is current or stored, and
        nothing may be asked before the next restore. */
    method NewConversationFailed(ghost id: nat, identity: nat, stream: nat, ghost text: string)
      requires Valid() && id in ops && ops[id].NewConversation? && ops[id].identity == identity
               && ops[id].stream == stream
      modifies this
      ensures Valid() && (old(Owned()) ==> Owned()) && Over(old(Now()), Now(), id)
      ensures if Holds(old(Snapshot()), old(ops)[id]) then RestoredTo(old(Now()), Now(), None, false)
              && thread == [WELCOME]
              else Snapshot() == old(Snapshot())
      ensures Now() == Step(old(Now()), Resume(id, Failed(text)))
    {
      hide Inv, BusyOwned, RestoredTo, Over, Step, ResumeOp;
      Keeps(Resume(id, Failed(text)));
      NewAnswered(Now(), id, Failed(text));
      ops := ops - {id};
      if identity != identityGen || stream != streamGen { return; }
      ForgetConversation();
      restoring := false;
      thread := [WELCOME];
    }

    /** The listener of account and company changes: everything in flight is stale, the flag is free, the session is
        empty, nothing stored has changed, and an open panel has a restore pending. */
    method OnUserChanged()
      requires Valid()
      modifies this
      ensures Valid() && Owned()
      ensures old(ops).Keys <= Stale(Now()) && storage == old(storage)
      ensures conversation == None && thread == [WELCOME] && !busy && !restoreReady
      ensures open ==> old(next) in ops && PendingRestore(Snapshot(), ops[old(next)])
      ensures Now() == Step(old(Now()), IdentityHandler)
    {
      hide Inv, BusyOwned, NoRestore, Step;
      ghost var before := Now();
      StepKeepsInv(before, IdentityHandler);
      HandlerMakesEverythingStale(before, IdentityHandler);
      SwitchUnfolds(before);
      restoreGen := restoreGen + 1;
      identityGen := identityGen + 1;
      streamGen := streamGen + 1;
      restoreReady := false;
      busy := false;
      conversation := None;
      thread := [WELCOME];
      SupersededKeepsInv(before, Snapshot());
      assert Now() == before.(refs := Snapshot());
      if open { LoadConversation(); }
      FreeFlagIsOwned(Now());
    }

    // -------------------------------------------------------------------------------------
    // Asking and uploading
    // -------------------------------------------------------------------------------------

    /** The first segment of `ask`: an empty question or a busy session is refused; otherwise the question waits for the
        pending restore, under the present identity, and no reference has changed. */
    method AskBegins(content: string)
      requires Valid()
      modifies this`ops, this`next
      ensures Valid() && (old(Owned()) ==> Owned())
      ensures if content == "" || busy then Now() == old(Now()) else Waits(old(Now()), Now(), false, content)
      ensures Now() == Step(old(Now()), AskBegin(content))
    {
      hide Inv, BusyOwned, Waits;
      Keeps(AskBegin(content));
      if content == "" || busy { return; }
      AskWaits(Now(), content);
      ops, next := ops[next := AskWait(identityGen, content)], next + 1;
    }

    /** The effect that asks a queued prompt once the panel is open, restored and idle: the prompt leaves the queue and
        waits like a question. */
    method AutoAsk()
      requires Valid()
      modifies this`prompt, this`ops, this`next
      ensures Valid() && (old(Owned()) ==> Owned())
      ensures if open && old(prompt) != "" && !busy && !restoring && restoreReady
              then prompt == "" && next == old(next) + 1 && old(next) in ops && ops - {old(next)} == old(ops)
                   && ops[old(next)] == AskWait(identityGen, old(prompt))
              else Now() == old(Now())
      ensures Now() == Step(old(Now()), AutoPrompt)
    {
      hide Inv, BusyOwned;
      ghost var before := Now();
      Keeps(AutoPrompt);
      if !open || prompt == "" || busy || restoring || !restoreReady { return; }
      var task := prompt;
      prompt := "";
      FrameKeepsInv(before, Snapshot());
      assert Now() == before.(refs := Snapshot());
      AskBegins(task);
    }

    /** The first segment of `uploadReceipt`. */
    method UploadBegins(name: string)
      requires Valid()
      modifies this`ops, this`next
      ensures Valid() && (old(Owned()) ==> Owned())
      ensures if busy then Now() == old(Now()) else Waits(old(Now()), Now(), true, name)
      ensures Now() == Step(old(Now()), UploadBegin(name))
    {
      hide Inv, BusyOwned, Waits;
      Keeps(UploadBegin(name));
      if busy { return; }
      UploadWaits(Now(), name);
      ops, next := ops[next := UploadWait(identityGen, name)], next + 1;
    }

    /** The segment of `ask` and `uploadReceipt` after the restore promise asks for readiness and identity again, but
        not for the flag. If it starts, it holds the stream alone and its placeholder is the last item. */
    method StartStream(ghost id: nat, identity: nat, said: string, upload: bool) returns (started: bool, stream: nat)
      requires Valid() && id in ops && ops[id] == if upload then UploadWait(identity, said) else AskWait(identity, said)
      modifies this
      ensures Valid() && (old(Owned()) ==> Owned())
      ensures started <==> old(restoreReady) && identity == identityGen
      ensures started ==> Started(old(Now()), Now(), id) && stream == streamGen
      ensures !started ==> Snapshot() == old(Snapshot()) && Over(old(Now()), Now(), id)
      ensures Now() == Step(old(Now()), Resume(id, RestoreSettled))
    {
      hide Inv, BusyOwned, Started, Over;
      Keeps(Resume(id, RestoreSettled));
      WaitStarts(Now(), id);
      stream := 0;
      if !restoreReady || identity != identityGen {
        ops := ops - {id};
        return false, stream;
      }
      streamGen := streamGen + 1;
      stream := streamGen;
      busy := true;
      thread := thread + [Said(User, said), Item(Assistant, if upload then RECOGNISING else "", [], true)];
      started := true;
      ghost var slot := |thread| - 1;
      ops := ops[id := if upload then Recognise(identity, stream, account, slot)
                       else Stream(identity, stream, account, slot, [], false, "")];
    }

    /** An event of a run. A superseded one changes nothing at all; a current one changes only the run's own item, which
        then shows the fold of exactly the events heard so far. */
    method OnEvent(ghost id: nat, identity: nat, stream: nat, event: RunEvent, sentBy: Account, upload: bool)
      requires Valid() && id in ops && ops[id].Stream? && ops[id].identity == identity && ops[id].stream == stream
      requires ops[id].account == sentBy && ops[id].upload == upload
      modifies this
      ensures Valid() && (old(Owned()) ==> Owned())
      ensures if Holds(old(Snapshot()), old(ops)[id]) then Heard(old(Now()), Now(), id, event) else Now() == old(Now())
      ensures Now() == Step(old(Now()), Resume(id, Event(event)))
    {
      hide Inv, BusyOwned, Heard, UpdateStreaming, Step, UpdatesLast;
      Keeps(Resume(id, Event(event)));
      EventUnfolds(Now(), id, event);
      EventIsHeard(Now(), id, event);
      if identity != identityGen || stream != streamGen { return; }
      ops := ops[id := ops[id].(log := ops[id].log + [event])];
      match event {
        case RunStart(started) =>
          if started.Some? {
            var c := Some(Conversation(sentBy, started.value));
            if c != conversation { storage := storage[account := c.value]; }
            conversation := c;
          }
        case StepStart(no, payload) =>
          UpdateStreamingAssistant((item: Item) => item.(steps := StartStep(item.steps, no, payload)));
        case StepDone(no, payload) =>
          UpdateStreamingAssistant((item: Item) => item.(steps := FinishStep(item.steps, no, payload)));
        case Final(message) =>
          UpdateStreamingAssistant((item: Item) =>
            item.(content := if upload then item.content + "\n\n" + message
                             else if message == "" then DONE else message));
        case OtherEvent =>
      }
    }

    /** The end of a run. A superseded one changes nothing; a current one frees the flag and ends the streaming of its
        own item, which shows the fold of all the run's events. */
    method OnStreamEnd(ghost id: nat, identity: nat, stream: nat)
      requires Valid() && id in ops && ops[id].Stream? && ops[id].identity == identity && ops[id].stream == stream
      modifies this
      ensures Valid() && (old(Owned()) ==> Owned()) && Over(old(Now()), Now(), id)
      ensures !Holds(old(Snapshot()), old(ops)[id]) ==> Snapshot() == old(Snapshot())
      ensures Holds(old(Snapshot()), old(ops)[id]) ==>
                var slot := old(ops)[id].slot;
                && RunOver(old(Now()), Now(), id)
                && ShowsOwn(old(thread)[slot], old(ops)[id])
                && ItemEnds(old(thread)[slot], StreamEnd, old(ops)[id].upload, thread[slot])
      ensures Now() == Step(old(Now()), Resume(id, StreamEnd))
    {
      hide Inv, BusyOwned, Over, RunOver, UpdateStreaming, ShowsOwn, ItemEnds, Step, UpdatesLast;
      Keeps(Resume(id, StreamEnd));
      EndUnfolds(Now(), id, StreamEnd);
      if identity != identityGen || stream != streamGen {
        SupersededEnds(Now(), id, StreamEnd);
        ops := ops - {id};
        return;
      }
      StreamEnds(Now(), id, StreamEnd);
      ops := ops - {id};
      UpdateStreamingAssistant((item: Item) => item.(streaming := false));
      busy := false;
    }

    /** A failed or aborted run. A superseded one changes nothing; a current one frees the flag and changes at most its
        own item, which an abort leaves streaming, and the steps shown are still those of the run's events. */
    method OnStreamFailure(ghost id: nat, identity: nat, stream: nat, aborted: bool, text: string, upload: bool)
      requires Valid() && id in ops && ops[id].Stream? && ops[id].identity == identity && ops[id].stream == stream
      requires ops[id].upload == upload
      modifies this
      ensures Valid() && (old(Owned()) ==> Owned()) && Over(old(Now()), Now(), id)
      ensures !Holds(old(Snapshot()), old(ops)[id]) ==> Snapshot() == old(Snapshot())
      ensures Holds(old(Snapshot()), old(ops)[id]) ==>
                var slot := old(ops)[id].slot;
                && RunOver(old(Now()), Now(), id)
                && ShowsOwn(old(thread)[slot], old(ops)[id])
                && ItemEnds(old(thread)[slot], if aborted then Aborted else Failed(text), upload, thread[slot])
      ensures Now() == Step(old(Now()), Resume(id, if aborted then Aborted else Failed(text)))
    {
      hide Inv, BusyOwned, Over, RunOver, UpdateStreaming, ShowsOwn, ItemEnds, Step, UpdatesLast;
      ghost var reply := if aborted then Aborted else Failed(text);
      Keeps(Resume(id, reply));
      EndUnfolds(Now(), id, reply);
      if identity != identityGen || stream != streamGen {
        SupersededEnds(Now(), id, reply);
        ops := ops - {id};
        return;
      }
      StreamEnds(Now(), id, reply);
      ops := ops - {id};
      if !aborted {
        UpdateStreamingAssistant((item: Item) =>
          item.(streaming := false,
                content := if upload then item.content + text else if item.content == "" then text else item.content));
      }
      busy := false;
    }

    /** A recognised receipt. If superseded it changes nothing and is over; otherwise the run goes on with a stream in
        the same place and only its own item has changed. */
    method ReceiptRecognised(ghost id: nat, identity: nat, stream: nat, summary: string)
      requires Valid() && id in ops && ops[id].Recognise? && ops[id].identity == identity && ops[id].stream == stream
      modifies this
      ensures Valid() && (old(Owned()) ==> Owned())
      ensures if Holds(old(Snapshot()), old(ops)[id])
              then GoesOn(old(Now()), Now(), id, summary) && thread[ops[id].slot] == Item(Assistant, summary, [], true)
              else Snapshot() == old(Snapshot()) && Over(old(Now()), Now(), id)
      ensures Now() == Step(old(Now()), Resume(id, Recognised(summary)))
    {
      hide Inv, BusyOwned, Over, GoesOn, UpdateStreaming, UpdatesLast;
      Keeps(Resume(id, Recognised(summary)));
      if identity != identityGen || stream != streamGen {
        SupersededEnds(Now(), id, Recognised(summary));
        ops := ops - {id};
        return;
      }
      ReceiptGoesOn(Now(), id, summary);
      UpdateStreamingAssistant((item: Item) => Item(Assistant, summary, [], true));
      ops := ops[id := Stream(identity, stream, account, ops[id].slot, [], true, summary)];
    }

    /** A failed recognition. A superseded one changes nothing; a current one frees the flag and ends its own item. */
    method ReceiptFailed(ghost id: nat, identity: nat, stream: nat, text: string)
      requires Valid() && id in ops && ops[id].Recognise? && ops[id].identity == identity && ops[id].stream == stream
      modifies this
      ensures Valid() && (old(Owned()) ==> Owned()) && Over(old(Now()), Now(), id)
      ensures !Holds(old(Snapshot()), old(ops)[id]) ==> Snapshot() == old(Snapshot())
      ensures Holds(old(Snapshot()), old(ops)[id]) ==>
                RunOver(old(Now()), Now(), id) && thread[old(ops)[id].slot] == Item(Assistant, text, [], false)
      ensures Now() == Step(old(Now()), Resume(id, Failed(text)))
    {
      hide Inv, BusyOwned, Over, RunOver, UpdateStreaming, UpdatesLast;
      Keeps(Resume(id, Failed(text)));
      if identity != identityGen || stream != streamGen {
        SupersededEnds(Now(), id, Failed(text));
        ops := ops - {id};
        return;
      }
      ReceiptEnds(Now(), id, text);
      ops := ops - {id};
      UpdateStreamingAssistant((item: Item) => Said(Assistant, text));
      busy := false;
    }

    // -------------------------------------------------------------------------------------
    // Confirming, cancelling and drafts
    // -------------------------------------------------------------------------------------

    /** The first segment of `confirmAction`, `cancelAction` and `sendDraft`: refused while busy; otherwise the action
        owns the flag, holds the stream alone, and nothing shown or stored has changed. */
    method ActionBegins(kind: ActionKind)
      requires Valid() && !kind.DraftConfirm?
      modifies this
      ensures Valid() && (old(Owned()) ==> Owned())
      ensures old(busy) ==> Now() == old(Now())
      ensures !old(busy) ==> TakesOver(old(Now()), Now()) && busy && HoldsBusy(Snapshot(), ops[old(next)])
      ensures Now() == Step(old(Now()), ActBegin(kind))
    {
      hide Inv, BusyOwned, TakesOver;
      Keeps(ActBegin(kind));
      if busy { return; }
      ActTakesOver(Now(), kind);
      streamGen := streamGen + 1;
      busy := true;
      ops, next := ops[next := Acting(identityGen, streamGen, kind)], next + 1;
    }

    /** Their last segment. If superseded it changes nothing; otherwise the flag is free and the thread has grown by
        what is said, if anything. */
    method ActionEnds(ghost id: nat, identity: nat, stream: nat, said: Option<string>, ghost reply: Reply)
      requires Valid() && id in ops && ops[id].Acting? && ops[id].identity == identity && ops[id].stream == stream
      requires Answers(ops[id].kind, reply, said)
      modifies this
      ensures Valid() && (old(Owned()) ==> Owned())
      ensures if Holds(old(Snapshot()), old(ops)[id]) then ActOver(old(Now()), Now(), id, said)
              else Snapshot() == old(Snapshot()) && Over(old(Now()), Now(), id)
      ensures Now() == Step(old(Now()), Resume(id, reply))
    {
      hide Inv, BusyOwned, Over, ActOver;
      Keeps(Resume(id, reply));
      ActEnds(Now(), id, reply, said);
      ops := ops - {id};
      if identity != identityGen || stream != streamGen { return; }
      if said.Some? { thread := thread + [Said(Assistant, said.value)]; }
      busy := false;
    }

    /** An edited draft that is ready goes on to its confirmation, still owning the flag; a superseded one is over. */
    method DraftEdited(ghost id: nat, identity: nat, stream: nat) returns (confirms: bool)
      requires Valid() && id in ops && ops[id] == Acting(identity, stream, DraftEdit)
      modifies this`ops
      ensures Valid() && (old(Owned()) ==> Owned())
      ensures confirms <==> Holds(Snapshot(), old(ops)[id])
      ensures confirms ==> id in ops && HoldsBusy(Snapshot(), ops[id]) && ops - {id} == old(ops) - {id}
      ensures !confirms ==> Over(old(Now()), Now(), id)
      ensures Now() == Step(old(Now()), Resume(id, Edited))
    {
      hide Inv, BusyOwned;
      Keeps(Resume(id, Edited));
      if identity != identityGen || stream != streamGen {
        ops := ops - {id};
        return false;
      }
      ops := ops[id := Acting(identity, stream, DraftConfirm)];
      return true;
    }
  }
}
