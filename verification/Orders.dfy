/** The idempotency-key protocol of inbound, outbound and repair orders: pending ids in session storage, forms that are
    opened, re-rendered, submitted, retried and abandoned, replies that are late or lost, and company switches. */
module Orders {
  import opened Keys

  type Id = string

  /** An order form and the two references it holds across renders.  `busy` is the request in flight, `done` the
      result view. */
  datatype Form = Form(kind: Kind, key: string, id: Id, mounted: bool, busy: bool, done: bool)

  /** A request that was sent: `header` is the company the fetch wrapper put on it.  `pending` until its form has seen
      an answer or a failure. */
  datatype Request = Request(form: nat, key: string, id: Id, header: string, pending: bool)

  datatype Order = Order(tenant: string, id: Id)

  /** `minted` (under which key an id was made) and `acked` (ids whose success a form has seen) are bookkeeping. */
  datatype State = State(
    tenant: string,
    session: map<string, Id>,
    forms: map<nat, Form>,
    requests: map<nat, Request>,
    created: seq<Order>,
    minted: map<Id, string>,
    acked: set<Id>)

  datatype Action =
    | SetTenant(slug: string)
    | Open(form: nat, kind: Kind, made: Id)
    | Render(form: nat, made: Id)
    | Reset(form: nat, made: Id)
    | Unmount(form: nat)
    | Submit(form: nat, request: nat)
    | Receive(request: nat)
    | ReplyOk(request: nat)
    | ReplyLost(request: nat)

  function Init(tenant: string): State {
    State(tenant, map[], map[], map[], [], map[], {})
  }

  /** The stored id under a key, or a new one that is stored at once. */
  datatype Taken = Taken(session: map<string, Id>, id: Id)

  function Take(session: map<string, Id>, key: string, made: Id): Taken {
    if key in session then Taken(session, session[key]) else Taken(session[key := made], made)
  }

  function Clear(session: map<string, Id>, key: string, id: Id): map<string, Id> {
    if key in session && session[key] == id then session - {key} else session
  }

  /** `Take` in a state: a new id is recorded as minted. */
  function TakeIn(s: State, key: string, made: Id): State {
    if key in s.session then s
    else s.(session := Take(s.session, key, made).session, minted := s.minted[made := key])
  }

  /** Fresh ids are new: an action that would reuse one does not happen. */
  predicate Fresh(s: State, id: Id) { id !in s.minted && id != "" }

  function Step(s: State, a: Action): State {
    match a
    case SetTenant(slug) => s.(tenant := slug)
    case Open(f, kind, made) =>
      if f in s.forms || !Fresh(s, made) then s
      else
        var key := PendingKey(kind, s.tenant);
        TakeIn(s, key, made).(forms := s.forms[f := Form(kind, key, Take(s.session, key, made).id, true, false, false)])
    case Render(f, made) =>
      if f !in s.forms || !s.forms[f].mounted || !Fresh(s, made) then s
      else TakeIn(s, s.forms[f].key, made)
    case Reset(f, made) =>
      if f !in s.forms || !s.forms[f].mounted || !s.forms[f].kind.Repair? || !s.forms[f].done || s.forms[f].busy
         || !Fresh(s, made) then s
      else
        var key := PendingKey(Repair, s.tenant);
        TakeIn(s, key, made).(forms := s.forms[f := s.forms[f].(key := key, id := Take(s.session, key, made).id,
            done := false)])
    case Unmount(f) =>
      if f !in s.forms then s else s.(forms := s.forms[f := s.forms[f].(mounted := false)])
    case Submit(f, r) =>
      if f !in s.forms || r in s.requests then s
      else
        var form := s.forms[f];
        if !form.mounted || form.busy || form.done || PendingKey(form.kind, s.tenant) != form.key then s
        else s.(requests := s.requests[r := Request(f, form.key, form.id, s.tenant, true)],
                forms := s.forms[f := form.(busy := true)])
    case Receive(r) =>
      if r !in s.requests then s
      else
        var order := Order(s.requests[r].header, s.requests[r].id);
        if order in s.created then s else s.(created := s.created + [order])
    case ReplyOk(r) =>
      if r !in s.requests || !s.requests[r].pending || s.requests[r].form !in s.forms
         || Order(s.requests[r].header, s.requests[r].id) !in s.created then s
      else
        var f := s.requests[r].form;
        var form := s.forms[f];
        s.(session := Clear(s.session, form.key, form.id),
           acked := s.acked + {form.id},
           requests := s.requests[r := s.requests[r].(pending := false)],
           forms := s.forms[f := form.(busy := false, done := true)])
    case ReplyLost(r) =>
      if r !in s.requests || !s.requests[r].pending || s.requests[r].form !in s.forms then s
      else
        var f := s.requests[r].form;
        s.(requests := s.requests[r := s.requests[r].(pending := false)],
           forms := s.forms[f := s.forms[f].(busy := false)])
  }

  function Run(s: State, actions: seq<Action>): State {
    if actions == [] then s else Step(Run(s, actions[..|actions| - 1]), actions[|actions| - 1])
  }

  // ---------------------------------------------------------------------------------------
  // Invariant
  // ---------------------------------------------------------------------------------------

  predicate MintedUnder(s: State, id: Id, key: string) {
    id in s.minted && s.minted[id] == key
  }

  /** The order is that of a request: the same company and the same id. */
  predicate Sent(s: State, order: Order) {
    exists r :: r in s.requests && s.requests[r].header == order.tenant && s.requests[r].id == order.id
  }

  predicate StoredOk(s: State) {
    forall key :: key in s.session ==> MintedUnder(s, s.session[key], key) && s.session[key] !in s.acked
  }

  /** An id that is minted and not acknowledged is the one stored under its key. */
  predicate NothingLost(s: State) {
    forall id :: id in s.minted && id !in s.acked ==> s.minted[id] in s.session && s.session[s.minted[id]] == id
  }

  predicate FormsOk(s: State) {
    forall f :: f in s.forms ==> MintedUnder(s, s.forms[f].id, s.forms[f].key)
  }

  /** A request carries an id minted for its form's kind and the company in its header, and while it is pending its form
      waits for it. */
  predicate RequestOk(s: State, r: nat)
    requires r in s.requests
  {
    var q := s.requests[r];
    && q.form in s.forms
    && MintedUnder(s, q.id, PendingKey(s.forms[q.form].kind, q.header))
    && (q.pending ==> s.forms[q.form].busy && s.forms[q.form].key == q.key && s.forms[q.form].id == q.id)
  }

  predicate RequestsOk(s: State) {
    && (forall r :: r in s.requests ==> RequestOk(s, r))
    && (forall r, q :: r in s.requests && q in s.requests && r != q && s.requests[r].pending && s.requests[q].pending
          ==> s.requests[r].form != s.requests[q].form)
  }

  predicate OrdersOk(s: State) {
    && (forall i :: 0 <= i < |s.created| ==> Sent(s, s.created[i]))
    && (forall i, j :: 0 <= i < j < |s.created| ==> s.created[i] != s.created[j])
  }

  predicate Inv(s: State) {
    && StoredOk(s) && NothingLost(s) && FormsOk(s) && RequestsOk(s) && OrdersOk(s)
    && AckedOk(s)
  }

  predicate AckedOk(s: State) {
    forall id :: id in s.acked ==> id in s.minted && HasOrder(s, id)
  }

  predicate HasOrder(s: State, id: Id) {
    exists i :: 0 <= i < |s.created| && s.created[i].id == id
  }

  lemma TakeKeepsStore(s: State, key: string, made: Id)
    requires Inv(s) && Fresh(s, made)
    ensures var s' := TakeIn(s, key, made);
      StoredOk(s') && NothingLost(s') && FormsOk(s') && MintedUnder(s', Take(s.session, key, made).id, key)
  {
    hide PendingKey, RequestsOk, OrdersOk;
  }

  lemma RequestsGrow(s: State, s': State)
    requires RequestsOk(s) && s'.requests == s.requests && s'.forms == s.forms
    requires forall id :: id in s.minted ==> id in s'.minted && s'.minted[id] == s.minted[id]
    ensures RequestsOk(s')
  {
  }

  lemma OrdersGrow(s: State, s': State)
    requires OrdersOk(s) && s'.created == s.created
    requires forall r :: r in s.requests ==>
               r in s'.requests && s'.requests[r].header == s.requests[r].header
                   && s'.requests[r].id == s.requests[r].id
    ensures OrdersOk(s')
  {
    forall i | 0 <= i < |s.created| ensures Sent(s', s'.created[i]) {
      assert Sent(s, s.created[i]);
    }
  }

  lemma TakeKeepsInv(s: State, key: string, made: Id)
    requires Inv(s) && Fresh(s, made)
    ensures Inv(TakeIn(s, key, made))
    ensures MintedUnder(TakeIn(s, key, made), Take(s.session, key, made).id, key)
  {
    TakeKeepsStore(s, key, made);
    var s' := TakeIn(s, key, made);
    RequestsGrow(s, s');
    OrdersGrow(s, s');
    hide StoredOk, NothingLost, FormsOk, RequestsOk, OrdersOk;
    forall id | id in s'.acked ensures id in s'.minted && HasOrder(s', id) { assert HasOrder(s, id); }
  }

  lemma ChangedForm(s: State, f: nat, form: Form)
    requires RequestsOk(s) && (f in s.forms ==> form.kind == s.forms[f].kind)
    requires f in s.forms && s.forms[f].busy ==> form.busy && form.key == s.forms[f].key && form.id == s.forms[f].id
    ensures RequestsOk(s.(forms := s.forms[f := form]))
  {
    hide PendingKey;
    var s' := s.(forms := s.forms[f := form]);
    forall r | r in s'.requests ensures RequestOk(s', r) { assert RequestOk(s, r); }
  }

  lemma FormChangeKeepsInv(s: State, f: nat, form: Form)
    requires Inv(s) && MintedUnder(s, form.id, form.key) && (f in s.forms ==> form.kind == s.forms[f].kind)
    requires f in s.forms && s.forms[f].busy ==> form.busy && form.key == s.forms[f].key && form.id == s.forms[f].id
    ensures Inv(s.(forms := s.forms[f := form]))
  {
    hide PendingKey, OrdersOk, StoredOk, NothingLost, AckedOk, Sent;
    var s' := s.(forms := s.forms[f := form]);
    ChangedForm(s, f, form);
    OrdersGrow(s, s');
    StoreFrame(s, s');
    hide RequestsOk;
  }

  /** The submitted request carries the form's id, and no other pending request belongs to the form. */
  lemma SubmittedRequests(s: State, f: nat, r: nat)
    requires RequestsOk(s) && FormsOk(s) && f in s.forms && r !in s.requests && !s.forms[f].busy
    requires PendingKey(s.forms[f].kind, s.tenant) == s.forms[f].key
    ensures var form := s.forms[f];
            RequestsOk(s.(requests := s.requests[r := Request(f, form.key, form.id, s.tenant, true)],
                forms := s.forms[f := form.(busy := true)]))
  {
  }

  lemma SubmitKeepsInv(s: State, f: nat, r: nat)
    requires Inv(s)
    ensures Inv(Step(s, Submit(f, r)))
  {
    hide PendingKey, RequestsOk, OrdersOk, StoredOk, NothingLost, AckedOk, Sent;
    var s' := Step(s, Submit(f, r));
    if s' != s {
      SubmittedRequests(s, f, r);
      OrdersGrow(s, s');
      StoreFrame(s, s');
    }
  }

  /** A new order of a request agrees with its company and differs from all before it. */
  lemma ReceivedOrders(s: State, r: nat)
    requires OrdersOk(s) && r in s.requests && Order(s.requests[r].header, s.requests[r].id) !in s.created
    ensures OrdersOk(s.(created := s.created + [Order(s.requests[r].header, s.requests[r].id)]))
  {
    var s' := s.(created := s.created + [Order(s.requests[r].header, s.requests[r].id)]);
    forall i | 0 <= i < |s'.created| ensures Sent(s', s'.created[i]) {
      if i < |s.created| { assert Sent(s, s.created[i]); }
    }
  }

  lemma StoreGrows(s: State, s': State)
    requires s'.session == s.session && s'.minted == s.minted && s'.acked == s.acked && StoredOk(s) && NothingLost(s)
    ensures StoredOk(s') && NothingLost(s')
  {
  }

  lemma ReceiveKeepsInv(s: State, r: nat)
    requires Inv(s)
    ensures Inv(Step(s, Receive(r)))
  {
    hide PendingKey, RequestsOk, OrdersOk, StoredOk, NothingLost, Sent;
    var s' := Step(s, Receive(r));
    if s' != s {
      ReceivedOrders(s, r);
      RequestsGrow(s, s');
      StoreGrows(s, s');
      forall id | id in s.acked ensures HasOrder(s', id) {
        assert HasOrder(s, id);
        var i :| 0 <= i < |s.created| && s.created[i].id == id;
        assert s'.created[i] == s.created[i];
      }
    }
  }

  /** An acknowledgement clears exactly the id it acknowledges, if that is still the stored one. */
  lemma AcknowledgeKeepsStore(s: State, key: string, id: Id)
    requires StoredOk(s) && NothingLost(s) && MintedUnder(s, id, key)
    ensures var s' := s.(session := Clear(s.session, key, id), acked := s.acked + {id}); StoredOk(s') && NothingLost(s')
  {
  }

  lemma AcknowledgeKeepsInv(s: State, key: string, id: Id)
    requires Inv(s) && MintedUnder(s, id, key) && HasOrder(s, id)
    ensures Inv(s.(session := Clear(s.session, key, id), acked := s.acked + {id}))
  {
    hide StoredOk, NothingLost, RequestsOk, OrdersOk, PendingKey, Clear, Sent;
    var s' := s.(session := Clear(s.session, key, id), acked := s.acked + {id});
    AcknowledgeKeepsStore(s, key, id);
    RequestsGrow(s, s');
    OrdersGrow(s, s');
    forall x | x in s'.acked ensures x in s'.minted && HasOrder(s', x) {
      assert HasOrder(s, x);
    }
  }

  lemma SettleKeepsInv(s: State, r: nat, form: Form)
    requires Inv(s) && r in s.requests && s.requests[r].pending && s.requests[r].form in s.forms
    requires MintedUnder(s, form.id, form.key) && form.kind == s.forms[s.requests[r].form].kind
    ensures Inv(s.(requests := s.requests[r := s.requests[r].(pending := false)],
            forms := s.forms[s.requests[r].form := form]))
  {
    hide RequestsOk, OrdersOk, StoredOk, NothingLost, AckedOk, PendingKey, Sent;
    var s' := s.(requests := s.requests[r := s.requests[r].(pending := false)],
        forms := s.forms[s.requests[r].form := form]);
    AnsweredRequests(s, s', r);
    OrdersGrow(s, s');
    StoreFrame(s, s');
  }

  lemma StoreFrame(s: State, s': State)
    requires s'.session == s.session && s'.minted == s.minted && s'.acked == s.acked && s'.created == s.created
    requires StoredOk(s) && NothingLost(s) && AckedOk(s)
    ensures StoredOk(s') && NothingLost(s') && AckedOk(s')
  {
  }

  /** What a pending request knows about its form. */
  lemma PendingForm(s: State, r: nat)
    requires Inv(s) && r in s.requests && s.requests[r].pending && s.requests[r].form in s.forms
    ensures var form := s.forms[s.requests[r].form];
            form.id == s.requests[r].id && MintedUnder(s, form.id, form.key)
  {
    assert RequestOk(s, r);
    hide StoredOk, NothingLost, OrdersOk, AckedOk;
  }

  lemma LostReplyKeepsInv(s: State, r: nat)
    requires Inv(s)
    ensures Inv(Step(s, ReplyLost(r)))
  {
    hide Inv, PendingKey, MintedUnder;
    if Step(s, ReplyLost(r)) != s {
      PendingForm(s, r);
      SettleKeepsInv(s, r, s.forms[s.requests[r].form].(busy := false));
    }
  }

  lemma ReplyKeepsInv(s: State, r: nat)
    requires Inv(s)
    ensures Inv(Step(s, ReplyOk(r)))
  {
    hide Inv, PendingKey, HasOrder, Clear;
    if Step(s, ReplyOk(r)) != s {
      var form := s.forms[s.requests[r].form];
      PendingForm(s, r);
      OrderOf(s, r);
      AcknowledgeKeepsInv(s, form.key, form.id);
      var s1 := s.(session := Clear(s.session, form.key, form.id), acked := s.acked + {form.id});
      SettleKeepsInv(s1, r, form.(busy := false, done := true));
    }
  }

  lemma AnsweredRequests(s: State, s': State, r: nat)
    requires RequestsOk(s) && r in s.requests && s.requests[r].pending && s.requests[r].form in s.forms
    requires s'.requests == s.requests[r := s.requests[r].(pending := false)] && s'.minted == s.minted
    requires s'.forms.Keys == s.forms.Keys && forall f :: f in s.forms ==> s'.forms[f].kind == s.forms[f].kind
    requires forall f :: f in s.forms && f != s.requests[r].form ==> s'.forms[f] == s.forms[f]
    ensures RequestsOk(s')
  {
  }

  lemma OrderOf(s: State, r: nat)
    requires r in s.requests && Order(s.requests[r].header, s.requests[r].id) in s.created
    ensures HasOrder(s, s.requests[r].id)
  {
  }

  lemma SwitchKeepsInv(s: State, slug: string)
    requires Inv(s)
    ensures Inv(s.(tenant := slug))
  {
    hide RequestsOk, OrdersOk, StoredOk, NothingLost, AckedOk, Sent, PendingKey;
    var s' := s.(tenant := slug);
    RequestsGrow(s, s');
    OrdersGrow(s, s');
    StoreFrame(s, s');
  }

  lemma StepKeepsInv(s: State, a: Action)
    requires Inv(s)
    ensures Inv(Step(s, a))
  {
    hide PendingKey;
    match a {
      case SetTenant(slug) => SwitchKeepsInv(s, slug);
      case Open(f, kind, made) =>
        if f !in s.forms && Fresh(s, made) {
          var key := PendingKey(kind, s.tenant);
          TakeKeepsInv(s, key, made);
          FormChangeKeepsInv(TakeIn(s, key, made), f,
              Form(kind, key, Take(s.session, key, made).id, true, false, false));
        }
      case Render(f, made) =>
        if f in s.forms && Fresh(s, made) { TakeKeepsInv(s, s.forms[f].key, made); }
      case Reset(f, made) =>
        if Step(s, a) != s {
          var key := PendingKey(Repair, s.tenant);
          TakeKeepsInv(s, key, made);
          FormChangeKeepsInv(TakeIn(s, key, made), f,
            s.forms[f].(key := key, id := Take(s.session, key, made).id, done := false));
        }
      case Unmount(f) =>
        if f in s.forms { FormChangeKeepsInv(s, f, s.forms[f].(mounted := false)); }
      case Submit(f, r) => SubmitKeepsInv(s, f, r);
      case Receive(r) => ReceiveKeepsInv(s, r);
      case ReplyOk(r) => ReplyKeepsInv(s, r);
      case ReplyLost(r) => LostReplyKeepsInv(s, r);
    }
  }

  lemma {:induction false} RunKeepsInv(tenant: string, actions: seq<Action>)
    ensures Inv(Run(Init(tenant), actions))
  {
    if actions != [] {
      RunKeepsInv(tenant, actions[..|actions| - 1]);
      StepKeepsInv(Run(Init(tenant), actions[..|actions| - 1]), actions[|actions| - 1]);
    }
  }
}
