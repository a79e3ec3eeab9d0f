/** The session protocol of the company assistant.

    Every handler of the assistant is cut at its awaits.  A segment between two awaits is one
    atomic function on the shared references (`Refs`); the operations that are waiting at an
    await are kept in `Sys.ops`, each with the generations it captured.  A run is any sequence
    of actions, so every interleaving of user actions, replies, failures and account switches
    is a run. */
module Session {
  import opened Options

  /** The storage key of a conversation: one per company and user. */
  type Account = string

  /** A conversation id, with the account whose credentials the issuing request carried. */
  datatype Conversation = Conversation(owner: Account, id: nat)

  datatype AgentStep = AgentStep(no: int, payload: string, running: bool)

  datatype Role = User | Assistant

  datatype Item = Item(role: Role, content: string, steps: seq<AgentStep>, streaming: bool)

  /** A message of the bootstrap reply. */
  datatype Message = Message(role: Role, content: string, steps: seq<AgentStep>)

  /** The events of a run that the assistant reacts to. */
  datatype RunEvent =
    | RunStart(conversation: Option<nat>)
    | StepStart(no: int, payload: string)
    | StepDone(no: int, payload: string)
    | Final(message: string)
    | OtherEvent

  /** The references and React state shared by all handlers. */
  datatype Refs = Refs(
    restoreGen: nat,
    identityGen: nat,
    streamGen: nat,
    busy: bool,
    restoring: bool,
    restoreReady: bool,
    open: bool,
    prompt: string,
    conversation: Option<Conversation>,
    account: Account,
    storage: map<Account, Conversation>,
    thread: seq<Item>)

  datatype ActionKind = Confirm | Cancel | DraftEdit | DraftConfirm

  /** An operation waiting at an await.  `account`, `slot`, `first` and `log` are bookkeeping of the
      model: the account that sent the request, the place of the placeholder appended to the thread,
      what it said when the stream began, and the events applied since then. */
  datatype Op =
    | Restore(identity: nat, generation: nat, account: Account)
    | NewConversation(identity: nat, stream: nat, account: Account)
    | AskWait(identity: nat, content: string)
    | UploadWait(identity: nat, content: string)
    | Recognise(identity: nat, stream: nat, account: Account, slot: nat)
    | Stream(identity: nat, stream: nat, account: Account, slot: nat, log: seq<RunEvent>, upload: bool, first: string)
    | Acting(identity: nat, stream: nat, kind: ActionKind)

  /** What an await can deliver. */
  datatype Reply =
    | Bootstrap(conversation: Option<nat>, messages: seq<Message>, hasActions: bool)
    | Created(created: nat)
    | RestoreSettled
    | Recognised(summary: string)
    | Event(event: RunEvent)
    | StreamEnd
    | Executed(text: string)
    | NotReady(text: string)
    | Edited
    | Failed(text: string)
    | Aborted

  datatype Action =
    | AccountChanges(account: Account)
    | IdentityHandler
    | SwitchAccount(account: Account)
    | OpenEvent(prompt: string)
    | OpenButton
    | ClosePanel
    | LoadHistory
    | NewFromHeader
    | NewFromDrawer
    | AskBegin(content: string)
    | AutoPrompt
    | UploadBegin(name: string)
    | ActBegin(kind: ActionKind)
    | Resume(id: nat, reply: Reply)

  datatype Sys = Sys(refs: Refs, ops: map<nat, Op>, next: nat)

  // ---------------------------------------------------------------------------------------
  // Thread updates
  // ---------------------------------------------------------------------------------------

  const WELCOME := Item(Assistant, "welcome", [], false)
  const RESTORED_CARD := Item(Assistant, "restored confirmation cards", [], false)

  const RECOGNISING := "recognising"
  const DONE := "done"

  function Said(role: Role, content: string): Item {
    Item(role, content, [], false)
  }

  function ItemOf(m: Message): Item {
    Item(m.role, m.content, if m.role.User? then [] else m.steps, false)
  }

  function Restored(messages: seq<Message>, hasActions: bool): (thread: seq<Item>)
    ensures forall k :: 0 <= k < |thread| ==> !thread[k].streaming
  {
    var items := seq(|messages|, k requires 0 <= k < |messages| => ItemOf(messages[k]));
    var all := if hasActions then items + [RESTORED_CARD] else items;
    if all == [] then [WELCOME] else all
  }

  /** The index of the last streaming item, or -1. */
  function LastStreaming(thread: seq<Item>): (i: int)
    ensures -1 <= i < |thread|
    ensures i >= 0 ==> thread[i].streaming
    ensures forall k :: i < k < |thread| ==> !thread[k].streaming
  {
    if thread == [] then -1
    else if thread[|thread| - 1].streaming then |thread| - 1
    else LastStreaming(thread[..|thread| - 1])
  }

  function UpdateStreaming(thread: seq<Item>, update: Item -> Item): seq<Item> {
    var i := LastStreaming(thread);
    if i < 0 then thread else thread[i := update(thread[i])]
  }

  function StartStep(steps: seq<AgentStep>, no: int, payload: string): seq<AgentStep> {
    steps + [AgentStep(no, payload, true)]
  }

  function FinishStep(steps: seq<AgentStep>, no: int, payload: string): seq<AgentStep> {
    seq(|steps|, k requires 0 <= k < |steps| =>
      if steps[k].no == no && steps[k].running then AgentStep(no, payload, false) else steps[k])
  }

  function ApplyEvent(steps: seq<AgentStep>, event: RunEvent): seq<AgentStep> {
    match event
    case StepStart(no, payload) => StartStep(steps, no, payload)
    case StepDone(no, payload) => FinishStep(steps, no, payload)
    case _ => steps
  }

  function ApplyContent(content: string, event: RunEvent, upload: bool): string {
    match event
    case Final(message) => if upload then content + "\n\n" + message else if message == "" then DONE else message
    case _ => content
  }

  /** The text that a run's own events describe, on top of what the placeholder said first. */
  function FoldContent(log: seq<RunEvent>, upload: bool, first: string): string {
    if log == [] then first
    else ApplyContent(FoldContent(log[..|log| - 1], upload, first), log[|log| - 1], upload)
  }

  /** The step list that a run's own events describe. */
  function FoldSteps(log: seq<RunEvent>): seq<AgentStep> {
    if log == [] then [] else ApplyEvent(FoldSteps(log[..|log| - 1]), log[|log| - 1])
  }

  // ---------------------------------------------------------------------------------------
  // Segments: what one piece of a handler does to the shared references
  // ---------------------------------------------------------------------------------------

  predicate IsCurrent(r: Refs, identity: nat, stream: nat) {
    identity == r.identityGen && stream == r.streamGen
  }

  predicate IsCurrentRestore(r: Refs, identity: nat, generation: nat) {
    generation == r.restoreGen && identity == r.identityGen
  }

  /** Setting the conversation, together with the effect that stores a changed non-empty id. */
  function SetConversation(r: Refs, c: Option<Conversation>): Refs {
    if c.Some? && c != r.conversation
    then r.(conversation := c, storage := r.storage[r.account := c.value])
    else r.(conversation := c)
  }

  function Forget(r: Refs): Refs {
    r.(conversation := None, storage := r.storage - {r.account})
  }

  function Store(r: Refs, c: Conversation): Refs {
    r.(conversation := Some(c), storage := r.storage[r.account := c])
  }

  function RestoreBegin(r: Refs): Refs {
    if r.busy then r
    else r.(restoreGen := r.restoreGen + 1, streamGen := r.streamGen + 1, restoreReady := false, restoring := true)
  }

  function RestoreDone(r: Refs, identity: nat, generation: nat, conversation: Option<Conversation>,
                       thread: seq<Item>): Refs
  {
    if !IsCurrentRestore(r, identity, generation) then r
    else
      var stored := if conversation.Some? then Store(r, conversation.value) else Forget(r);
      stored.(thread := thread, restoreReady := true, restoring := false)
  }

  function RestoreFailed(r: Refs, identity: nat, generation: nat): Refs {
    if !IsCurrentRestore(r, identity, generation) then r
    else Forget(r).(thread := [WELCOME], restoreReady := false, restoring := false)
  }

  function NewBegin(r: Refs): Refs {
    r.(restoreGen := r.restoreGen + 1, streamGen := r.streamGen + 1, restoreReady := false, restoring := true)
  }

  function NewDone(r: Refs, identity: nat, stream: nat, conversation: Conversation): Refs {
    if !IsCurrent(r, identity, stream) then r
    else Store(r, conversation).(restoreReady := true, restoring := false, thread := [WELCOME])
  }

  function NewFailed(r: Refs, identity: nat, stream: nat): Refs {
    if !IsCurrent(r, identity, stream) then r
    else Forget(r).(restoring := false, thread := [WELCOME])
  }

  /** The handler of an account change: every generation moves on and the panel is cleared. */
  function SwitchHandler(r: Refs): Refs {
    var cleared := r.(restoreGen := r.restoreGen + 1, identityGen := r.identityGen + 1, streamGen := r.streamGen + 1,
                      restoreReady := false, busy := false, conversation := None, thread := [WELCOME]);
    if r.open then RestoreBegin(cleared) else cleared
  }

  /** The second segment of `ask` and `uploadReceipt`, after the pending restore has settled. */
  predicate MayStart(r: Refs, identity: nat) {
    r.restoreReady && identity == r.identityGen
  }

  function StreamBegin(r: Refs, said: string, placeholder: string): Refs {
    r.(streamGen := r.streamGen + 1, busy := true,
       thread := r.thread + [Said(User, said), Item(Assistant, placeholder, [], true)])
  }

  function EventApplied(r: Refs, identity: nat, stream: nat, event: RunEvent, account: Account, upload: bool): Refs {
    if !IsCurrent(r, identity, stream) then r
    else
      match event
      case RunStart(id) =>
        SetConversation(r, if id.Some? then Some(Conversation(account, id.value)) else r.conversation)
      case StepStart(no, payload) =>
        r.(thread := UpdateStreaming(r.thread, (item: Item) => item.(steps := StartStep(item.steps, no, payload))))
      case StepDone(no, payload) =>
        r.(thread := UpdateStreaming(r.thread, (item: Item) => item.(steps := FinishStep(item.steps, no, payload))))
      case Final(message) =>
        r.(thread := UpdateStreaming(r.thread, (item: Item) =>
          item.(content := if upload then item.content + "\n\n" + message
                           else if message == "" then DONE else message)))
      case OtherEvent => r
  }

  function StreamDone(r: Refs, identity: nat, stream: nat): Refs {
    if !IsCurrent(r, identity, stream) then r
    else r.(thread := UpdateStreaming(r.thread, (item: Item) => item.(streaming := false)), busy := false)
  }

  function StreamFailed(r: Refs, identity: nat, stream: nat, text: string, upload: bool): Refs {
    if !IsCurrent(r, identity, stream) then r
    else r.(thread := UpdateStreaming(r.thread, (item: Item) =>
              item.(streaming := false,
                    content := if upload then item.content + text
                               else if item.content == "" then text else item.content)),
            busy := false)
  }

  /** A current run that ends with an abort releases the flag and leaves its placeholder streaming. */
  function StreamAborted(r: Refs, identity: nat, stream: nat): Refs {
    if !IsCurrent(r, identity, stream) then r else r.(busy := false)
  }

  function RecogniseDone(r: Refs, identity: nat, stream: nat, summary: string): Refs {
    if !IsCurrent(r, identity, stream) then r
    else r.(thread := UpdateStreaming(r.thread, (item: Item) => Item(Assistant, summary, [], true)))
  }

  function RecogniseFailed(r: Refs, identity: nat, stream: nat, text: string): Refs {
    if !IsCurrent(r, identity, stream) then r
    else r.(thread := UpdateStreaming(r.thread, (item: Item) => Said(Assistant, text)), busy := false)
  }

  function ActBegun(r: Refs): Refs {
    if r.busy then r else r.(streamGen := r.streamGen + 1, busy := true)
  }

  /** The end of a confirm, cancel or draft: `said` is what it appends to the thread, if anything. */
  function ActEnded(r: Refs, identity: nat, stream: nat, said: Option<string>): Refs {
    if !IsCurrent(r, identity, stream) then r
    else r.(thread := if said.Some? then r.thread + [Said(Assistant, said.value)] else r.thread, busy := false)
  }

  // ---------------------------------------------------------------------------------------
  // The transition system
  // ---------------------------------------------------------------------------------------

  function Init(account: Account, storage: map<Account, Conversation>): Sys {
    Sys(Refs(0, 0, 0, false, false, false, false, "",
             if account in storage then Some(storage[account]) else None, account, storage, [WELCOME]),
        map[], 0)
  }

  /** What the first segment of a handler does: the references after it, and the operation it leaves at an await. */
  datatype Began = Began(refs: Refs, op: Option<Op>)

  function BeginRestore(r: Refs): Began {
    var r' := RestoreBegin(r);
    if r.busy then Began(r, None) else Began(r', Some(Restore(r'.identityGen, r'.restoreGen, r'.account)))
  }

  function BeginNew(r: Refs): Began {
    var r' := NewBegin(r);
    Began(r', Some(NewConversation(r'.identityGen, r'.streamGen, r'.account)))
  }

  function BeginAsk(r: Refs, content: string): Began {
    if content == "" || r.busy then Began(r, None) else Began(r, Some(AskWait(r.identityGen, content)))
  }

  function BeginSwitch(r: Refs): Began {
    var r' := SwitchHandler(r);
    Began(r', if r.open then Some(Restore(r'.identityGen, r'.restoreGen, r'.account)) else None)
  }

  function BeginAct(r: Refs, kind: ActionKind): Began {
    var r' := ActBegun(r);
    if r.busy || kind.DraftConfirm? then Began(r, None)
    else Began(r', Some(Acting(r'.identityGen, r'.streamGen, kind)))
  }

  function Begin(r: Refs, a: Action): Began
    requires !a.Resume?
  {
    match a
    case AccountChanges(account) => Began(r.(account := account), None)
    case IdentityHandler => BeginSwitch(r)
    case SwitchAccount(account) => BeginSwitch(r.(account := account))
    case OpenEvent(prompt) =>
      var shown := r.(open := true);
      var loaded := if r.open then Began(shown, None) else BeginRestore(shown);
      if prompt == "" then loaded else loaded.(refs := loaded.refs.(prompt := prompt))
    case OpenButton => Began(r.(open := true), None)
    case ClosePanel => Began(r.(open := false), None)
    case LoadHistory => BeginRestore(r)
    case NewFromHeader => if r.busy || r.restoring then Began(r, None) else BeginNew(r)
    case NewFromDrawer => BeginNew(r)
    case AskBegin(content) => BeginAsk(r, content)
    case AutoPrompt =>
      if !r.open || r.prompt == "" || r.busy || r.restoring || !r.restoreReady then Began(r, None)
      else BeginAsk(r.(prompt := ""), r.prompt)
    case UploadBegin(name) => if r.busy then Began(r, None) else Began(r, Some(UploadWait(r.identityGen, name)))
    case ActBegin(kind) => BeginAct(r, kind)
  }

  /** What a later segment does: nothing (the await cannot deliver this reply), end, or reach the next await. */
  datatype Resumed = Unchanged | Ended(refs: Refs) | Going(refs: Refs, op: Op)

  function ResumeRestore(r: Refs, op: Op, reply: Reply): Resumed
    requires op.Restore?
  {
    match reply
    case Bootstrap(id, messages, hasActions) =>
      var c := if id.Some? then Some(Conversation(op.account, id.value)) else None;
      Ended(RestoreDone(r, op.identity, op.generation, c, Restored(messages, hasActions)))
    case Failed(_) => Ended(RestoreFailed(r, op.identity, op.generation))
    case _ => Unchanged
  }

  function ResumeNew(r: Refs, op: Op, reply: Reply): Resumed
    requires op.NewConversation?
  {
    match reply
    case Created(id) => Ended(NewDone(r, op.identity, op.stream, Conversation(op.account, id)))
    case Failed(_) => Ended(NewFailed(r, op.identity, op.stream))
    case _ => Unchanged
  }

  function ResumeAsk(r: Refs, op: Op, reply: Reply): Resumed
    requires op.AskWait?
  {
    var r' := StreamBegin(r, op.content, "");
    if !reply.RestoreSettled? then Unchanged
    else if !MayStart(r, op.identity) then Ended(r)
    else Going(r', Stream(op.identity, r'.streamGen, r'.account, |r'.thread| - 1, [], false, ""))
  }

  function ResumeUpload(r: Refs, op: Op, reply: Reply): Resumed
    requires op.UploadWait?
  {
    var r' := StreamBegin(r, op.content, RECOGNISING);
    if !reply.RestoreSettled? then Unchanged
    else if !MayStart(r, op.identity) then Ended(r)
    else Going(r', Recognise(op.identity, r'.streamGen, r'.account, |r'.thread| - 1))
  }

  function ResumeRecognise(r: Refs, op: Op, reply: Reply): Resumed
    requires op.Recognise?
  {
    match reply
    case Recognised(summary) =>
      if !IsCurrent(r, op.identity, op.stream) then Ended(r)
      else Going(RecogniseDone(r, op.identity, op.stream, summary),
                 Stream(op.identity, op.stream, r.account, op.slot, [], true, summary))
    case Failed(text) => Ended(RecogniseFailed(r, op.identity, op.stream, text))
    case _ => Unchanged
  }

  function ResumeStream(r: Refs, op: Op, reply: Reply): Resumed
    requires op.Stream?
  {
    match reply
    case Event(event) =>
      Going(EventApplied(r, op.identity, op.stream, event, op.account, op.upload),
            op.(log := if IsCurrent(r, op.identity, op.stream) then op.log + [event] else op.log))
    case StreamEnd => Ended(StreamDone(r, op.identity, op.stream))
    case Failed(text) => Ended(StreamFailed(r, op.identity, op.stream, text, op.upload))
    case Aborted => Ended(StreamAborted(r, op.identity, op.stream))
    case _ => Unchanged
  }

  function ResumeActing(r: Refs, op: Op, reply: Reply): Resumed
    requires op.Acting?
  {
    match reply
    case Executed(text) =>
      if op.kind.DraftEdit? then Unchanged else Ended(ActEnded(r, op.identity, op.stream, Some(text)))
    case NotReady(text) =>
      if op.kind.DraftEdit? then Ended(ActEnded(r, op.identity, op.stream, Some(text))) else Unchanged
    case Edited =>
      if !op.kind.DraftEdit? then Unchanged
      else if !IsCurrent(r, op.identity, op.stream) then Ended(r)
      else Going(r, Acting(op.identity, op.stream, DraftConfirm))
    case Failed(text) =>
      Ended(ActEnded(r, op.identity, op.stream, if op.kind.Cancel? then None else Some(text)))
    case _ => Unchanged
  }

  function ResumeOp(r: Refs, op: Op, reply: Reply): Resumed {
    match op
    case Restore(_, _, _) => ResumeRestore(r, op, reply)
    case NewConversation(_, _, _) => ResumeNew(r, op, reply)
    case AskWait(_, _) => ResumeAsk(r, op, reply)
    case UploadWait(_, _) => ResumeUpload(r, op, reply)
    case Recognise(_, _, _, _) => ResumeRecognise(r, op, reply)
    case Stream(_, _, _, _, _, _, _) => ResumeStream(r, op, reply)
    case Acting(_, _, _) => ResumeActing(r, op, reply)
  }

  function Launch(s: Sys, began: Began): Sys {
    if began.op.Some? then Sys(began.refs, s.ops[s.next := began.op.value], s.next + 1)
    else s.(refs := began.refs)
  }

  function Settle(s: Sys, id: nat, resumed: Resumed): Sys {
    match resumed
    case Unchanged => s
    case Ended(r) => Sys(r, s.ops - {id}, s.next)
    case Going(r, op) => Sys(r, s.ops[id := op], s.next)
  }

  function Step(s: Sys, a: Action): Sys {
    if !a.Resume? then Launch(s, Begin(s.refs, a))
    else if a.id !in s.ops then s
    else Settle(s, a.id, ResumeOp(s.refs, s.ops[a.id], a.reply))
  }

  function Run(s: Sys, actions: seq<Action>): Sys {
    if actions == [] then s else Step(Run(s, actions[..|actions| - 1]), actions[|actions| - 1])
  }
}
