/** What an account change separates. */
module SessionIsolation {
  import opened Options
  import opened Session
  import opened SessionSafety

  /** The operations started under an earlier identity generation. */
  function Stale(s: Sys): set<nat> {
    set id | id in s.ops && s.ops[id].identity != s.refs.identityGen
  }

  /** The state without the operations in `dead`. */
  function Erase(s: Sys, dead: set<nat>): Sys {
    s.(ops := s.ops - dead)
  }

  /** The actions of a run that do not belong to the operations in `dead`. */
  function Others(actions: seq<Action>, dead: set<nat>): seq<Action> {
    if actions == [] then []
    else
      var a := actions[|actions| - 1];
      var rest := Others(actions[..|actions| - 1], dead);
      if a.Resume? && a.id in dead then rest else rest + [a]
  }

  predicate AllStale(s: Sys, dead: set<nat>) {
    && (forall id :: id in dead ==> id < s.next)
    && (forall id :: id in dead && id in s.ops ==> s.ops[id].identity != s.refs.identityGen)
  }

  /** A continuation started under an earlier identity generation changes none of the shared references:
      not the thread, the conversation, the stored keys, the busy flag or any generation. */
  lemma StaleContinuationIsSilent(s: Sys, id: nat, reply: Reply)
    requires id in s.ops && s.ops[id].identity != s.refs.identityGen
    ensures Step(s, Resume(id, reply)).refs == s.refs
    ensures Step(s, Resume(id, reply)).next == s.next
    ensures Step(s, Resume(id, reply)).ops - {id} == s.ops - {id}
    ensures id in Step(s, Resume(id, reply)).ops ==> Step(s, Resume(id, reply)).ops[id].identity == s.ops[id].identity
  {
  }

  lemma LiveStepCommutes(s: Sys, dead: set<nat>, a: Action)
    requires AllStale(s, dead) && (a.Resume? ==> a.id !in dead)
    ensures Erase(Step(s, a), dead) == Step(Erase(s, dead), a)
  {
  }

  /** A segment never changes the identity generation or the one its operation captured. */
  lemma ResumedIdentity(r: Refs, op: Op, reply: Reply)
    ensures var resumed := ResumeOp(r, op, reply);
      && (!resumed.Unchanged? ==> resumed.refs.identityGen == r.identityGen && resumed.refs.account == r.account)
      && (resumed.Going? ==> resumed.op.identity == op.identity)
  {
  }

  lemma StepKeepsStale(s: Sys, dead: set<nat>, a: Action)
    requires Inv(s) && AllStale(s, dead)
    ensures AllStale(Step(s, a), dead)
  {
    var s' := Step(s, a);
    if a.Resume? && a.id in s.ops { ResumedIdentity(s.refs, s.ops[a.id], a.reply); }
    forall id | id in dead && id in s'.ops ensures s'.ops[id].identity != s'.refs.identityGen {
      if id in s.ops { assert OpBounded(s, id); }
    }
  }

  lemma {:induction false} ErasureKeepsRun(s: Sys, dead: set<nat>, actions: seq<Action>)
    requires Inv(s) && AllStale(s, dead)
    ensures AllStale(Run(s, actions), dead)
    ensures Erase(Run(s, actions), dead) == Run(Erase(s, dead), Others(actions, dead))
  {
    if actions != [] {
      var before := actions[..|actions| - 1];
      var a := actions[|actions| - 1];
      ErasureKeepsRun(s, dead, before);
      RunKeepsInv(s, before);
      var m := Run(s, before);
      StepKeepsStale(m, dead, a);
      if a.Resume? && a.id in dead {
        if a.id in m.ops {
          StaleContinuationIsSilent(m, a.id, a.reply);
          assert Step(m, a).ops - dead == m.ops - dead;
        }
      } else {
        LiveStepCommutes(m, dead, a);
        var rest := Others(before, dead);
        assert (rest + [a])[..|rest|] == rest;
      }
    }
  }

  /** Identity isolation.  From any state of any run on, every later thread, conversation, stored key and flag is the
      same as if the operations started under earlier identities had never existed: deleting them and all their
      continuations from the rest of the run gives the same references. */
  lemma EarlierIdentitiesDoNotInterfere(account: Account, storage: map<Account, Conversation>,
                                        before: seq<Action>, after: seq<Action>)
    ensures var s := Run(Init(account, storage), before);
      Run(s, after).refs == Run(Erase(s, Stale(s)), Others(after, Stale(s))).refs
  {
    var s := Run(Init(account, storage), before);
    RunKeepsInv(Init(account, storage), before);
    forall id | id in Stale(s) ensures id < s.next { assert OpBounded(s, id); }
    ErasureKeepsRun(s, Stale(s), after);
  }

  /** Right after the handler everything that was in flight is stale: only a restore it started itself is live. */
  lemma HandlerMakesEverythingStale(s: Sys, a: Action)
    requires Inv(s) && (a.IdentityHandler? || a.SwitchAccount?)
    ensures var s' := Step(s, a);
      && s.ops.Keys <= Stale(s')
      && s'.refs.conversation == None && s'.refs.thread == [WELCOME] && !s'.refs.busy && !s'.refs.restoreReady
      && s'.refs.storage == s.refs.storage
      && (forall id :: id in s'.ops && id !in s.ops ==> s'.ops[id].Restore? && PendingRestore(s'.refs, s'.ops[id]))
  {
  }

  // ---------------------------------------------------------------------------------------
  // Whose conversation is stored under whose key
  // ---------------------------------------------------------------------------------------

  function SentBy(op: Op): Option<Account> {
    match op
    case Restore(_, _, account) => Some(account)
    case NewConversation(_, _, account) => Some(account)
    case Recognise(_, _, account, _) => Some(account)
    case Stream(_, _, account, _, _, _, _) => Some(account)
    case _ => None
  }

  predicate OwnKeys(storage: map<Account, Conversation>) {
    forall account :: account in storage ==> storage[account].owner == account
  }

  predicate FiledRefs(r: Refs) {
    OwnKeys(r.storage) && (r.conversation.Some? ==> r.conversation.value.owner == r.account)
  }

  predicate FiledOp(r: Refs, op: Op) {
    op.identity == r.identityGen && SentBy(op).Some? ==> SentBy(op).value == r.account
  }

  /** Every stored conversation and the current one were issued to a request of the account they are filed under. */
  predicate Filed(s: Sys) {
    FiledRefs(s.refs) && forall id :: id in s.ops ==> FiledOp(s.refs, s.ops[id])
  }

  /** The conversation that a continuation stores under the key of the current account: it is current, and the reply
      brings an id that is not the current one already. */
  function Brings(r: Refs, op: Op, reply: Reply): Option<Conversation> {
    match op
    case Restore(identity, generation, account) =>
      if IsCurrentRestore(r, identity, generation) && reply.Bootstrap? && reply.conversation.Some?
      then Some(Conversation(account, reply.conversation.value)) else None
    case NewConversation(identity, stream, account) =>
      if IsCurrent(r, identity, stream) && reply.Created? then Some(Conversation(account, reply.created)) else None
    case Stream(identity, stream, account, _, _, _, _) =>
      if IsCurrent(r, identity, stream) && reply.Event? && reply.event.RunStart? && reply.event.conversation.Some?
         && Some(Conversation(account, reply.event.conversation.value)) != r.conversation
      then Some(Conversation(account, reply.event.conversation.value)) else None
    case _ => None
  }

  /** What it would store was sent to another account than the one whose key it would be stored under. */
  predicate Misfiles(r: Refs, op: Op, reply: Reply) {
    Brings(r, op, reply).Some? && Brings(r, op, reply).value.owner != r.account
  }

  /** The stored keys after a segment: its conversation is stored, or the current key is
      forgotten, or nothing changes. */
  predicate StoresAtMost(storage: map<Account, Conversation>, r: Refs, brought: Option<Conversation>) {
    if brought.Some? then storage == r.storage[r.account := brought.value]
    else storage == r.storage || storage == r.storage - {r.account}
  }

  lemma RestoreStores(r: Refs, op: Op, reply: Reply)
    requires op.Restore? && !ResumeOp(r, op, reply).Unchanged?
    ensures StoresAtMost(ResumeOp(r, op, reply).refs.storage, r, Brings(r, op, reply))
  {
    hide Restored;
  }

  lemma NewStores(r: Refs, op: Op, reply: Reply)
    requires op.NewConversation? && !ResumeOp(r, op, reply).Unchanged?
    ensures StoresAtMost(ResumeOp(r, op, reply).refs.storage, r, Brings(r, op, reply))
  {
  }

  lemma EventStores(r: Refs, op: Op, event: RunEvent)
    requires op.Stream?
    ensures StoresAtMost(EventApplied(r, op.identity, op.stream, event, op.account, op.upload).storage, r,
                         Brings(r, op, Event(event)))
  {
    hide UpdateStreaming;
  }

  lemma StreamStores(r: Refs, op: Op, reply: Reply)
    requires op.Stream? && !ResumeOp(r, op, reply).Unchanged?
    ensures StoresAtMost(ResumeOp(r, op, reply).refs.storage, r, Brings(r, op, reply))
  {
    hide UpdateStreaming, EventApplied, StoresAtMost, Brings;
    match reply {
      case Event(event) => EventStores(r, op, event);
      case _ => EndStores(r, op, reply);
    }
  }

  lemma EndStores(r: Refs, op: Op, reply: Reply)
    requires op.Stream? && !reply.Event? && !ResumeOp(r, op, reply).Unchanged?
    ensures StoresAtMost(ResumeOp(r, op, reply).refs.storage, r, Brings(r, op, reply))
  {
    hide UpdateStreaming, EventApplied;
  }

  lemma OthersStore(r: Refs, op: Op, reply: Reply)
    requires !op.Restore? && !op.NewConversation? && !op.Stream? && !ResumeOp(r, op, reply).Unchanged?
    ensures StoresAtMost(ResumeOp(r, op, reply).refs.storage, r, Brings(r, op, reply))
  {
    hide UpdateStreaming;
  }

  lemma ResumeStores(r: Refs, op: Op, reply: Reply)
    requires !ResumeOp(r, op, reply).Unchanged?
    ensures StoresAtMost(ResumeOp(r, op, reply).refs.storage, r, Brings(r, op, reply))
  {
    match op {
      case Restore(_, _, _) => RestoreStores(r, op, reply);
      case NewConversation(_, _, _) => NewStores(r, op, reply);
      case Stream(_, _, _, _, _, _, _) => StreamStores(r, op, reply);
      case _ => OthersStore(r, op, reply);
    }
  }

  lemma StoreIsOwnIff(storage: map<Account, Conversation>, r: Refs, brought: Option<Conversation>)
    requires OwnKeys(r.storage) && StoresAtMost(storage, r, brought)
    ensures OwnKeys(storage) <==> !(brought.Some? && brought.value.owner != r.account)
  {
    if brought.Some? { assert storage[r.account] == brought.value; }
  }

  /** A reply that an operation cannot be waiting for brings nothing. */
  lemma UnchangedBringsNothing(r: Refs, op: Op, reply: Reply)
    requires ResumeOp(r, op, reply).Unchanged?
    ensures Brings(r, op, reply).None?
  {
  }

  /** The step that files a conversation under another account's key. */
  predicate MisfilesAt(s: Sys, a: Action) {
    a.Resume? && a.id in s.ops && Misfiles(s.refs, s.ops[a.id], a.reply)
  }

  lemma BeginStoresNothing(r: Refs, a: Action)
    requires !a.Resume?
    ensures Begin(r, a).refs.storage == r.storage
  {
  }

  /** A step keeps every conversation under its own account's key if and only if it is not a current continuation that
      brings a conversation which was sent to another account than the current one. */
  lemma StepFilesIff(s: Sys, a: Action)
    requires OwnKeys(s.refs.storage)
    ensures OwnKeys(Step(s, a).refs.storage) <==> !MisfilesAt(s, a)
  {
    hide OwnKeys, ResumeOp, Begin, Brings;
    if !a.Resume? {
      BeginStoresNothing(s.refs, a);
    } else if a.id in s.ops {
      var op := s.ops[a.id];
      if ResumeOp(s.refs, op, a.reply).Unchanged? {
        UnchangedBringsNothing(s.refs, op, a.reply);
      } else {
        ResumeStores(s.refs, op, a.reply);
        StoreIsOwnIff(ResumeOp(s.refs, op, a.reply).refs.storage, s.refs, Brings(s.refs, op, a.reply));
      }
    }
  }

  /** After each of the first `n` steps every stored conversation is under its own account's key. */
  predicate FiledUpTo(s: Sys, actions: seq<Action>, n: nat)
    requires n <= |actions|
  {
    forall k :: 0 <= k <= n ==> OwnKeys(Run(s, actions[..k]).refs.storage)
  }

  /** None of the first `n` steps misfiles. */
  predicate NoneMisfiles(s: Sys, actions: seq<Action>, n: nat)
    requires n <= |actions|
  {
    forall k :: 0 <= k < n ==> !MisfilesAt(Run(s, actions[..k]), actions[k])
  }

  lemma RunUnfolds(s: Sys, actions: seq<Action>, n: nat)
    requires n < |actions|
    ensures Run(s, actions[..n + 1]) == Step(Run(s, actions[..n]), actions[n])
  {
    assert actions[..n + 1][..n] == actions[..n];
  }

  lemma {:induction false} FirstStepsFileIff(s: Sys, actions: seq<Action>, n: nat)
    requires OwnKeys(s.refs.storage) && n <= |actions|
    ensures FiledUpTo(s, actions, n) <==> NoneMisfiles(s, actions, n)
  {
    assert Run(s, actions[..0]) == s;
    hide OwnKeys, MisfilesAt, Step, Run;
    if n > 0 {
      FirstStepsFileIff(s, actions, n - 1);
      RunUnfolds(s, actions, n - 1);
      if OwnKeys(Run(s, actions[..n - 1]).refs.storage) { StepFilesIff(Run(s, actions[..n - 1]), actions[n - 1]); }
    }
  }

  /** For every run, account changes at any point included: the stored keys are right all along if and only if no step
      of the run misfiles. */
  lemma RunFilesIff(s: Sys, actions: seq<Action>)
    requires OwnKeys(s.refs.storage)
    ensures (forall k :: 0 <= k <= |actions| ==> OwnKeys(Run(s, actions[..k]).refs.storage))
            <==> (forall k :: 0 <= k < |actions| ==> !MisfilesAt(Run(s, actions[..k]), actions[k]))
  {
    FirstStepsFileIff(s, actions, |actions|);
    hide OwnKeys, MisfilesAt, Run;
  }

  // ---------------------------------------------------------------------------------------
  // Handlers that come in time
  // ---------------------------------------------------------------------------------------

  /** The account has changed and the handler of the change has not run yet. */
  predicate Late(actions: seq<Action>) {
    actions != [] &&
    match actions[|actions| - 1]
    case AccountChanges(_) => true
    case IdentityHandler => false
    case SwitchAccount(_) => false
    case _ => Late(actions[..|actions| - 1])
  }

  /** No reply is handled between a change of the account and its handler. Anything else may happen there. */
  predicate HandlersInTime(actions: seq<Action>) {
    forall k :: 0 <= k < |actions| && Late(actions[..k]) ==> !actions[k].Resume?
  }

  lemma FiledOpDoesNotMisfile(r: Refs, op: Op, reply: Reply)
    requires FiledOp(r, op)
    ensures !Misfiles(r, op, reply)
  {
  }

  /** The conversation after a segment: none, the one before, or one that the operation's account was sent. */
  predicate ConversationFrom(c: Option<Conversation>, r: Refs, op: Op) {
    c.None? || c == r.conversation || (op.identity == r.identityGen && SentBy(op) == Some(c.value.owner))
  }

  lemma EventConversation(r: Refs, op: Op, event: RunEvent)
    requires op.Stream?
    ensures ConversationFrom(EventApplied(r, op.identity, op.stream, event, op.account, op.upload).conversation, r, op)
  {
    hide UpdateStreaming;
  }

  lemma ResumedConversation(r: Refs, op: Op, reply: Reply)
    requires !ResumeOp(r, op, reply).Unchanged?
    ensures ConversationFrom(ResumeOp(r, op, reply).refs.conversation, r, op)
  {
    hide UpdateStreaming, Restored, EventApplied;
    if op.Stream? && reply.Event? { EventConversation(r, op, reply.event); }
  }

  /** What waits after a segment was sent by the same account, or by the current one. */
  lemma ResumedSender(r: Refs, op: Op, reply: Reply)
    requires ResumeOp(r, op, reply).Going?
    ensures var resumed := ResumeOp(r, op, reply);
      SentBy(resumed.op) == SentBy(op) || SentBy(resumed.op) == Some(r.account)
  {
    hide UpdateStreaming, EventApplied;
  }

  /** Where every operation of the current identity was sent by the current account, a segment keeps that, and the
      current conversation is that account's. */
  lemma ResumeKeepsFiled(r: Refs, op: Op, reply: Reply)
    requires FiledRefs(r) && FiledOp(r, op) && !ResumeOp(r, op, reply).Unchanged?
    ensures var resumed := ResumeOp(r, op, reply);
      && (resumed.refs.conversation.Some? ==> resumed.refs.conversation.value.owner == r.account)
      && (resumed.Going? ==> FiledOp(resumed.refs, resumed.op))
  {
    ResumedIdentity(r, op, reply);
    ResumedConversation(r, op, reply);
    if ResumeOp(r, op, reply).Going? { ResumedSender(r, op, reply); }
    hide ResumeOp, SentBy, OwnKeys;
  }

  lemma BeginKeepsFiled(r: Refs, a: Action)
    requires FiledRefs(r) && !a.Resume? && !a.AccountChanges?
    ensures var began := Begin(r, a);
      && FiledRefs(began.refs) && (began.op.Some? ==> FiledOp(began.refs, began.op.value))
      && began.refs.identityGen >= r.identityGen
      && (began.refs.identityGen > r.identityGen || began.refs.account == r.account)
  {
    hide OwnKeys;
  }

  lemma StepKeepsFiled(s: Sys, a: Action)
    requires Inv(s) && Filed(s) && !a.AccountChanges?
    ensures Filed(Step(s, a))
  {
    var s' := Step(s, a);
    StepFilesIff(s, a);
    if a.Resume? && a.id in s.ops {
      ResumedIdentity(s.refs, s.ops[a.id], a.reply);
      FiledOpDoesNotMisfile(s.refs, s.ops[a.id], a.reply);
      if !ResumeOp(s.refs, s.ops[a.id], a.reply).Unchanged? { ResumeKeepsFiled(s.refs, s.ops[a.id], a.reply); }
    } else if !a.Resume? {
      BeginKeepsFiled(s.refs, a);
    }
    hide OwnKeys, ResumeOp, Begin;
    forall id | id in s'.ops ensures FiledOp(s'.refs, s'.ops[id]) {
      if id in s.ops { assert OpBounded(s, id) && FiledOp(s.refs, s.ops[id]); }
    }
  }

  /** The handler ends the window: whatever was in flight is stale. */
  lemma HandlerFiles(s: Sys, a: Action)
    requires Inv(s) && OwnKeys(s.refs.storage) && (a.IdentityHandler? || a.SwitchAccount?)
    ensures Filed(Step(s, a))
  {
    var s' := Step(s, a);
    HandlerMakesEverythingStale(s, a);
    forall id | id in s'.ops ensures FiledOp(s'.refs, s'.ops[id]) {
      if id in s.ops { assert id in Stale(s'); }
    }
  }

  /** When no reply is handled between a change of the account and its handler, every run keeps each conversation under
      its own account's key, and outside such windows the current conversation is the current account's too. */
  lemma {:induction false} InTimeStaysFiled(account: Account, storage: map<Account, Conversation>, actions: seq<Action>)
    requires OwnKeys(storage) && HandlersInTime(actions)
    ensures OwnKeys(Run(Init(account, storage), actions).refs.storage)
    ensures !Late(actions) ==> Filed(Run(Init(account, storage), actions))
  {
    if actions != [] {
      var n := |actions| - 1;
      var before, a := actions[..n], actions[n];
      var s := Run(Init(account, storage), before);
      assert forall k :: 0 <= k <= n ==> before[..k] == actions[..k];
      InTimeStaysFiled(account, storage, before);
      RunKeepsInv(Init(account, storage), before);
      hide OwnKeys, Step, Inv;
      if a.IdentityHandler? || a.SwitchAccount? {
        HandlerFiles(s, a);
        FiledIsOwn(Step(s, a));
      } else if Late(before) || a.AccountChanges? {
        StepFilesIff(s, a);
      } else {
        StepKeepsFiled(s, a);
        FiledIsOwn(Step(s, a));
      }
    }
  }

  lemma FiledIsOwn(s: Sys)
    requires Filed(s)
    ensures OwnKeys(s.refs.storage)
  {
  }

  lemma {:induction false} NeverLate(actions: seq<Action>)
    requires forall k :: 0 <= k < |actions| ==> !actions[k].AccountChanges?
    ensures !Late(actions)
  {
    if actions != [] { NeverLate(actions[..|actions| - 1]); }
  }

  /** In particular when every account change runs its handler at once. */
  lemma ConversationsStayFiled(account: Account, storage: map<Account, Conversation>, actions: seq<Action>)
    requires OwnKeys(storage)
    requires forall k :: 0 <= k < |actions| ==> !actions[k].AccountChanges?
    ensures Filed(Run(Init(account, storage), actions))
  {
    forall k | 0 <= k <= |actions| ensures !Late(actions[..k]) {
      NeverLate(actions[..k]);
    }
    assert actions[..|actions|] == actions;
    InTimeStaysFiled(account, storage, actions);
  }

  /** Between the change of the stored account and its handler the rule breaks: a pending restore of account `a` that
      completes in that window is stored under the key of account `b`. */
  lemma LateHandlerMisfiles(a: Account, b: Account, c: nat)
    requires a != b
    ensures var s := Run(Init(a, map[]), [LoadHistory, AccountChanges(b), Resume(0, Bootstrap(Some(c), [], false))]);
      b in s.refs.storage && s.refs.storage[b].owner == a
  {
    var s0 := Init(a, map[]);
    var actions := [LoadHistory, AccountChanges(b), Resume(0, Bootstrap(Some(c), [], false))];
    assert actions[..2][..1] == [LoadHistory] && actions[..2][1] == AccountChanges(b);
    assert Run(s0, [LoadHistory]) == Step(s0, LoadHistory) by { assert Run(s0, [LoadHistory][..0]) == s0; }
    assert Run(s0, actions[..2]) == Step(Run(s0, actions[..2][..1]), AccountChanges(b));
  }

  /** A queued prompt is not part of what the handler clears: it is asked in the next account's session. */
  lemma QueuedPromptSurvivesSwitch(s: Sys, account: Account)
    requires Inv(s) && s.refs.open && s.refs.prompt != ""
    ensures var s1 := Step(s, SwitchAccount(account));
      var s2 := Step(s1, Resume(s.next, Bootstrap(None, [], false)));
      var s3 := Step(s2, AutoPrompt);
      && s1.refs.prompt == s.refs.prompt
      && s3.next == s2.next + 1 && s2.next in s3.ops
      && s3.ops[s2.next] == AskWait(s3.refs.identityGen, s.refs.prompt) && s3.refs.account == account
  {
  }
}
