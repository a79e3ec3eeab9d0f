/** The order forms as they are written: session storage updated in place, and forms that hold two references. Every
    method is a step of the protocol of `Orders` and keeps its invariant, for any number of forms of one browser. */
module OrderForm {
  import opened Keys
  import opened Orders
  import opened OrdersSafety

  // ---------------------------------------------------------------------------------------
  // What the invariant gives a caller
  // ---------------------------------------------------------------------------------------

  /** No stored id is replaced or dropped, except `id`. */
  predicate KeepsOthers(before: map<string, Id>, after: map<string, Id>, id: Id) {
    forall key :: key in before && before[key] != id ==> key in after && after[key] == before[key]
  }

  /** The id is pending: minted under the key, not acknowledged, and stored there. */
  predicate Pending(s: State, key: string, id: Id) {
    MintedUnder(s, id, key) && id !in s.acked && key in s.session && s.session[key] == id
  }

  lemma TakenIsPending(s: State, key: string, made: Id)
    requires Inv(s) && Fresh(s, made)
    ensures Pending(TakeIn(s, key, made), key, Take(s.session, key, made).id)
    ensures forall k :: k in s.session ==>
              k in TakeIn(s, key, made).session && TakeIn(s, key, made).session[k] == s.session[k]
  {
    TakeKeepsInv(s, key, made);
    hide PendingKey, RequestsOk, OrdersOk;
    assert made !in s.acked;
  }

  /** While the id of a form is pending, a render finds it and mints nothing. */
  lemma PendingIsFound(s: State, f: nat, made: Id)
    requires Inv(s) && f in s.forms && s.forms[f].id !in s.acked
    ensures Pending(s, s.forms[f].key, s.forms[f].id)
    ensures TakeIn(s, s.forms[f].key, made) == s
  {
    hide PendingKey, RequestsOk, OrdersOk, AckedOk;
  }

  /** An acknowledged id is stored nowhere. */
  lemma AcknowledgedIsGone(s: State, id: Id)
    requires Inv(s) && id in s.acked
    ensures forall key :: key in s.session ==> s.session[key] != id
  {
    hide PendingKey, RequestsOk, OrdersOk;
  }

  class Browser {
    var tenant: string
    var session: map<string, Id>
    ghost var forms: map<nat, Form>
    ghost var requests: map<nat, Request>
    ghost var created: seq<Order>
    ghost var minted: map<Id, string>
    ghost var acked: set<Id>

    ghost function Now(): State
      reads this
    {
      State(tenant, session, forms, requests, created, minted, acked)
    }

    ghost predicate Valid()
      reads this
    {
      Inv(Now())
    }

    constructor (tenant: string)
      ensures Valid() && Now() == Init(tenant)
    {
      this.tenant, session, forms, requests, created, minted, acked := tenant, map[], map[], map[], [], map[], {};
    }

    /** A switch of the company touches no form, no stored id and no request. */
    method SetCurrentTenant(slug: string)
      requires Valid()
      modifies this`tenant
      ensures Valid() && Now() == old(Now()).(tenant := slug)
    {
      tenant := slug;
      StepKeepsInv(old(Now()), SetTenant(slug));
    }

    /** The id returned is pending under the key afterwards, and no stored id has been replaced. */
    method PendingRequestId(key: string, made: Id) returns (id: Id)
      requires Valid() && Fresh(Now(), made)
      modifies this`session, this`minted
      ensures Valid() && Pending(Now(), key, id)
      ensures forall k :: k in old(session) ==> k in session && session[k] == old(session)[k]
      ensures Now() == TakeIn(old(Now()), key, made) && id == Take(old(session), key, made).id
    {
      hide Inv, Pending;
      TakeKeepsInv(Now(), key, made);
      TakenIsPending(Now(), key, made);
      if key in session { return session[key]; }
      session := session[key := made];
      minted := minted[made := key];
      return made;
    }

    /** The server's success for an id: it is acknowledged and stored nowhere, and every other stored id stays, a newer
        one under the same key included. */
    method ClearPendingRequestId(key: string, id: Id)
      requires Valid() && MintedUnder(Now(), id, key) && HasOrder(Now(), id)
      modifies this`session, this`acked
      ensures Valid() && acked == old(acked) + {id}
      ensures (forall k :: k in session ==> session[k] != id) && KeepsOthers(old(session), session, id)
      ensures session == Clear(old(session), key, id)
    {
      hide Inv;
      AcknowledgeKeepsInv(Now(), key, id);
      if key in session && session[key] == id { session := session - {key}; }
      acked := acked + {id};
      assert Now() == old(Now()).(session := Clear(old(session), key, id), acked := old(acked) + {id});
      AcknowledgedIsGone(Now(), id);
    }

    /** Whatever its forms have done: a browser whose requests were for unambiguous companies has no id with two
        orders. */
    lemma OrdersOnce(slugs: set<string>)
      requires Valid() && !Ambiguous(slugs) && forall r :: r in requests ==> requests[r].header in slugs
      ensures AtMostOnce(Now())
    {
      OneOrderPerId(Now(), slugs);
    }

    /** The server creates the order of a request unless it has it already. */
    ghost method ServerReceives(r: nat)
      requires Valid()
      modifies this`created
      ensures Valid() && Now() == Step(old(Now()), Receive(r))
    {
      hide Inv, Sent, HasOrder;
      StepKeepsInv(Now(), Receive(r));
      created := Step(Now(), Receive(r)).created;
    }
  }

  class OrderForm {
    const browser: Browser
    const kind: Kind
    ghost const number: nat
    var requestStorageKey: string
    var requestId: Id
    var mounted: bool
    var busy: bool
    var done: bool

    ghost function Now(): Form
      reads this
    {
      Form(kind, requestStorageKey, requestId, mounted, busy, done)
    }

    /** The browser's invariant holds and knows this form. */
    ghost predicate Valid()
      reads this, browser
    {
      browser.Valid() && number in browser.forms && browser.forms[number] == Now()
    }

    /** Mounting a form evaluates both reference arguments: it gets an id that is pending under the current company's
        key, the one left over if there is one. */
    constructor (browser: Browser, kind: Kind, made: Id, ghost number: nat)
      requires browser.Valid() && Fresh(browser.Now(), made) && number !in browser.forms
      modifies browser
      ensures this.browser == browser && this.kind == kind && this.number == number && Valid()
      ensures requestStorageKey == PendingKey(kind, browser.tenant)
              && Pending(browser.Now(), requestStorageKey, requestId)
      ensures mounted && !busy && !done
      ensures browser.Now() == Step(old(browser.Now()), Open(number, kind, made))
    {
      hide Inv, PendingKey;
      this.browser, this.kind, this.number := browser, kind, number;
      var key := PendingKey(kind, browser.tenant);
      requestStorageKey := key;
      mounted, busy, done := true, false, false;
      StepKeepsInv(browser.Now(), Open(number, kind, made));
      var id := browser.PendingRequestId(key, made);
      requestId := id;
      new;
      browser.forms := browser.forms[number := Now()];
    }

    /** A later render evaluates the arguments again. The form keeps its references; while its id is pending nothing is
        minted, and otherwise a new id may be stored. No stored id is replaced. */
    method Render(made: Id)
      requires Valid() && mounted && Fresh(browser.Now(), made)
      modifies browser`session, browser`minted
      ensures Valid() && Now() == old(Now())
      ensures forall k :: k in old(browser.session) ==>
                k in browser.session && browser.session[k] == old(browser.session)[k]
      ensures requestId !in browser.acked ==> browser.Now() == old(browser.Now())
      ensures browser.Now() == Step(old(browser.Now()), Action.Render(number, made))
    {
      hide Inv, PendingKey;
      if requestId !in browser.acked { PendingIsFound(browser.Now(), number, made); }
      var _ := browser.PendingRequestId(requestStorageKey, made);
    }

    /** The repair form's "another one" button: an id that is pending under the current company's key. */
    method Reset(made: Id)
      requires Valid() && kind.Repair? && mounted && done && !busy && Fresh(browser.Now(), made)
      modifies this, browser`session, browser`minted, browser`forms
      ensures Valid() && !done && Pending(browser.Now(), requestStorageKey, requestId)
      ensures requestStorageKey == PendingKey(Repair, browser.tenant)
      ensures browser.Now() == Step(old(browser.Now()), Action.Reset(number, made))
    {
      hide Inv, PendingKey;
      StepKeepsInv(browser.Now(), Action.Reset(number, made));
      requestStorageKey := PendingKey(Repair, browser.tenant);
      requestId := browser.PendingRequestId(requestStorageKey, made);
      done := false;
      browser.forms := browser.forms[number := Now()];
    }

    /** What goes out carries an id that was minted for a form of this kind and the company in the header; after a
        switch to a company with another key nothing goes out. */
    method Submit(ghost r: nat) returns (sent: bool, header: string, id: Id)
      requires Valid() && mounted && !busy && !done && r !in browser.requests
      modifies this`busy, browser`requests, browser`forms
      ensures Valid()
      ensures sent ==> header == browser.tenant && MintedUnder(browser.Now(), id, PendingKey(kind, header))
      ensures sent ==>
                r in browser.requests && browser.requests[r] == Request(number, requestStorageKey, id, header, true)
      ensures !sent <==> PendingKey(kind, browser.tenant) != requestStorageKey
      ensures !sent ==> Now() == old(Now()) && browser.Now() == old(browser.Now())
      ensures browser.Now() == Step(old(browser.Now()), Action.Submit(number, r))
    {
      hide Inv, PendingKey;
      StepKeepsInv(browser.Now(), Action.Submit(number, r));
      MintedForForm(browser.Now(), number);
      header, id := browser.tenant, requestId;
      sent := PendingKey(kind, browser.tenant) == requestStorageKey;
      if sent {
        busy := true;
        browser.requests := browser.requests[r := Request(number, requestStorageKey, id, header, true)];
        browser.forms := browser.forms[number := Now()];
      }
    }

    /** A successful answer, even when the form has been left meanwhile: the id of the request is acknowledged and
        stored nowhere, and every other stored id stays. */
    method OnSuccess(ghost r: nat)
      requires Valid() && r in browser.requests && browser.requests[r].pending && browser.requests[r].form == number
      requires Order(browser.requests[r].header, browser.requests[r].id) in browser.created
      modifies this, browser`session, browser`acked, browser`requests, browser`forms
      ensures Valid() && done && !busy
      ensures old(browser.requests)[r].id in browser.acked
              && KeepsOthers(old(browser.session), browser.session, requestId)
      ensures forall k :: k in browser.session ==> browser.session[k] != requestId
      ensures requestId == old(requestId) == old(browser.requests)[r].id
      ensures browser.Now() == Step(old(browser.Now()), ReplyOk(r))
    {
      hide Inv, PendingKey, Clear;
      StepKeepsInv(browser.Now(), ReplyOk(r));
      PendingForm(browser.Now(), r);
      OrderOf(browser.Now(), r);
      browser.ClearPendingRequestId(requestStorageKey, requestId);
      busy := false;
      done := true;
      browser.requests := browser.requests[r := browser.requests[r].(pending := false)];
      browser.forms := browser.forms[number := Now()];
    }

    /** A failed or lost answer: unless its id has been acknowledged through another form, the id is still pending under
        the form's key, so the retry sends the same one. */
    method OnFailure(ghost r: nat)
      requires Valid() && r in browser.requests && browser.requests[r].pending && browser.requests[r].form == number
      modifies this`busy, browser`requests, browser`forms
      ensures Valid() && !busy && browser.session == old(browser.session)
      ensures requestId !in browser.acked ==> Pending(browser.Now(), requestStorageKey, requestId)
      ensures browser.Now() == Step(old(browser.Now()), ReplyLost(r))
    {
      hide Inv, PendingKey, Pending;
      StepKeepsInv(browser.Now(), ReplyLost(r));
      busy := false;
      browser.requests := browser.requests[r := browser.requests[r].(pending := false)];
      browser.forms := browser.forms[number := Now()];
      if requestId !in browser.acked { PendingIsFound(browser.Now(), number, ""); }
    }

    /** Leaving the form. Its request, its references and the stored ids stay. */
    method Close()
      requires Valid()
      modifies this`mounted, browser`forms
      ensures Valid() && Now() == old(Now()).(mounted := false)
      ensures browser.Now() == Step(old(browser.Now()), Unmount(number))
    {
      hide Inv;
      StepKeepsInv(browser.Now(), Unmount(number));
      mounted := false;
      browser.forms := browser.forms[number := Now()];
    }
  }

  lemma MintedForForm(s: State, f: nat)
    requires Inv(s) && f in s.forms
    ensures MintedUnder(s, s.forms[f].id, s.forms[f].key)
  {
  }
}
