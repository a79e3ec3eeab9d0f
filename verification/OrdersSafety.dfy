/** What every run of the order protocol guarantees. */
module OrdersSafety {
  import opened Keys
  import opened Orders

  // ---------------------------------------------------------------------------------------
  // Pending ids
  // ---------------------------------------------------------------------------------------

  /** A minted id that no form has seen acknowledged is still the stored one under its key, in every run. */
  lemma PendingIdsAreNeverLost(tenant: string, actions: seq<Action>)
    ensures NothingLost(Run(Init(tenant), actions))
    ensures StoredOk(Run(Init(tenant), actions))
  {
    RunKeepsInv(tenant, actions);
  }

  /** What one step may do to the id stored under a key. */
  predicate MovesOneWay(s: State, a: Action, s': State, key: string) {
    if key in s.session then
      || (key in s'.session && s'.session[key] == s.session[key])
      || (key !in s'.session && a.ReplyOk? && a.request in s.requests
          && s.requests[a.request].id == s.session[key] && s.session[key] in s'.acked)
    else key in s'.session ==> s'.session[key] !in s.minted
  }

  lemma ReplyMovesOneWay(s: State, r: nat, key: string)
    requires Inv(s)
    ensures MovesOneWay(s, ReplyOk(r), Step(s, ReplyOk(r)), key)
  {
    hide Inv, PendingKey;
    if r in s.requests && s.requests[r].pending && s.requests[r].form in s.forms {
      PendingForm(s, r);
    }
  }

  lemma TakeMovesOneWay(s: State, under: string, made: Id, key: string)
    requires Fresh(s, made)
    ensures key in s.session ==>
              key in TakeIn(s, under, made).session && TakeIn(s, under, made).session[key] == s.session[key]
    ensures key !in s.session && key in TakeIn(s, under, made).session ==>
              TakeIn(s, under, made).session[key] !in s.minted
  {
  }

  /** A stored id only moves from absent to new, or from `x` to absent on an acknowledgement of `x`. */
  lemma StoredIdsMoveOneWay(s: State, a: Action, key: string)
    requires Inv(s)
    ensures MovesOneWay(s, a, Step(s, a), key)
  {
    hide Inv, PendingKey, TakeIn;
    match a {
      case Open(_, kind, made) => if Fresh(s, made) { TakeMovesOneWay(s, PendingKey(kind, s.tenant), made, key); }
      case Render(f, made) => if f in s.forms && Fresh(s, made) { TakeMovesOneWay(s, s.forms[f].key, made, key); }
      case Reset(_, made) => if Fresh(s, made) { TakeMovesOneWay(s, PendingKey(Repair, s.tenant), made, key); }
      case ReplyOk(r) => ReplyMovesOneWay(s, r, key);
      case _ =>
    }
  }

  // ---------------------------------------------------------------------------------------
  // Companies
  // ---------------------------------------------------------------------------------------

  /** Every request carries an id minted for its form's kind and the company in its header, and every order is that of
      such a request. */
  lemma IdsAgreeWithTheirTenant(tenant: string, actions: seq<Action>)
    ensures var s := Run(Init(tenant), actions);
      && (forall r :: r in s.requests ==>
            && s.requests[r].form in s.forms
            && MintedUnder(s, s.requests[r].id, PendingKey(s.forms[s.requests[r].form].kind, s.requests[r].header)))
      && (forall i :: 0 <= i < |s.created| ==> Sent(s, s.created[i]))
  {
    RunKeepsInv(tenant, actions);
    hide PendingKey, Sent;
    var s := Run(Init(tenant), actions);
    forall r | r in s.requests
      ensures s.requests[r].form in s.forms
      ensures MintedUnder(s, s.requests[r].id, PendingKey(s.forms[s.requests[r].form].kind, s.requests[r].header))
    {
      assert RequestOk(s, r);
    }
  }

  /** The run only uses companies of `slugs`. */
  predicate Uses(tenant: string, actions: seq<Action>, slugs: set<string>) {
    tenant in slugs && forall k :: 0 <= k < |actions| && actions[k].SetTenant? ==> actions[k].slug in slugs
  }

  predicate TenantsIn(s: State, slugs: set<string>) {
    && s.tenant in slugs
    && (forall r :: r in s.requests ==> s.requests[r].header in slugs)
  }

  lemma StepKeepsTenants(s: State, a: Action, slugs: set<string>)
    requires TenantsIn(s, slugs) && (a.SetTenant? ==> a.slug in slugs)
    ensures TenantsIn(Step(s, a), slugs)
  {
  }

  lemma {:induction false} RunKeepsTenants(tenant: string, actions: seq<Action>, slugs: set<string>)
    requires Uses(tenant, actions, slugs)
    ensures TenantsIn(Run(Init(tenant), actions), slugs)
  {
    if actions != [] {
      RunKeepsTenants(tenant, actions[..|actions| - 1], slugs);
      StepKeepsTenants(Run(Init(tenant), actions[..|actions| - 1]), actions[|actions| - 1], slugs);
    }
  }

  /** Orders with one id are for one company, up to the missing one and "no-tenant". */
  lemma OneTenantPerId(s: State, a: Order, b: Order)
    requires RequestsOk(s) && Sent(s, a) && Sent(s, b) && a.id == b.id
    ensures SameTenant(a.tenant, b.tenant)
  {
    var r :| r in s.requests && s.requests[r].header == a.tenant && s.requests[r].id == a.id;
    var q :| q in s.requests && s.requests[q].header == b.tenant && s.requests[q].id == b.id;
    assert RequestOk(s, r) && RequestOk(s, q);
    hide PendingKey;
    KeysAgreeIff(s.forms[s.requests[r].form].kind, s.forms[s.requests[q].form].kind, a.tenant, b.tenant);
  }

  /** No id has created two orders. */
  predicate AtMostOnce(s: State) {
    forall i, j :: 0 <= i < j < |s.created| ==> s.created[i].id != s.created[j].id
  }

  /** The missing company and one named "no-tenant" share their keys. */
  predicate Ambiguous(slugs: set<string>) {
    "" in slugs && NO_TENANT in slugs
  }

  lemma SentFor(s: State, order: Order, slugs: set<string>)
    requires Sent(s, order) && forall r :: r in s.requests ==> s.requests[r].header in slugs
    ensures order.tenant in slugs
  {
  }

  lemma SameOrderOfId(s: State, a: Order, b: Order, slugs: set<string>)
    requires RequestsOk(s) && Sent(s, a) && Sent(s, b) && a.id == b.id
    requires !Ambiguous(slugs) && forall r :: r in s.requests ==> s.requests[r].header in slugs
    ensures a == b
  {
    hide RequestsOk, Sent;
    OneTenantPerId(s, a, b);
    SentFor(s, a, slugs);
    SentFor(s, b, slugs);
  }

  /** In every state of the invariant whose requests are for unambiguous companies, no id has two orders. */
  lemma OneOrderPerId(s: State, slugs: set<string>)
    requires Inv(s) && !Ambiguous(slugs) && forall r :: r in s.requests ==> s.requests[r].header in slugs
    ensures AtMostOnce(s)
  {
    hide RequestsOk, Sent, StoredOk, NothingLost, FormsOk, AckedOk, Ambiguous;
    forall i, j | 0 <= i < j < |s.created| ensures s.created[i].id != s.created[j].id {
      if s.created[i].id == s.created[j].id {
        SameOrderOfId(s, s.created[i], s.created[j], slugs);
      }
    }
  }

  /** With the server's deduplication by company and id, every id creates at most one order. */
  lemma OrdersAtMostOnce(tenant: string, actions: seq<Action>, slugs: set<string>)
    requires Uses(tenant, actions, slugs) && !Ambiguous(slugs)
    ensures AtMostOnce(Run(Init(tenant), actions))
  {
    RunKeepsInv(tenant, actions);
    RunKeepsTenants(tenant, actions, slugs);
    OneOrderPerId(Run(Init(tenant), actions), slugs);
  }

  lemma RunSnoc(s: State, actions: seq<Action>, a: Action)
    ensures Run(s, actions + [a]) == Step(Run(s, actions), a)
  {
  }

  /** A form opened without a company, submitted, served, and answered by nothing. */
  lemma LostFirstOrder() returns (actions: seq<Action>)
    ensures forall k :: 0 <= k < |actions| ==> !actions[k].SetTenant?
    ensures var key := PendingKey(Inbound, "");
      var s := Run(Init(""), actions);
      && s.created == [Order("", "x")] && s.requests.Keys == {0}
      && s.forms == map[0 := Form(Inbound, key, "x", true, false, false)]
  {
    hide PendingKey;
    var key := PendingKey(Inbound, "");
    var a1 := [Open(0, Inbound, "x")];
    RunSnoc(Init(""), [], Open(0, Inbound, "x"));
    assert [] + a1 == a1;
    var a2 := a1 + [Submit(0, 0)];
    RunSnoc(Init(""), a1, Submit(0, 0));
    var a3 := a2 + [Receive(0)];
    RunSnoc(Init(""), a2, Receive(0));
    actions := a3 + [ReplyLost(0)];
    RunSnoc(Init(""), a3, ReplyLost(0));
    assert Run(Init(""), a1).forms == map[0 := Form(Inbound, key, "x", true, false, false)];
    assert Run(Init(""), a2).requests == map[0 := Request(0, key, "x", "", true)];
    assert Run(Init(""), a3).created == [Order("", "x")];
  }

  /** The run that orders twice: the reply to an order placed with no company is lost, and the form is submitted again
      after switching to a company named "no-tenant". */
  lemma Twice() returns (actions: seq<Action>)
    ensures !AtMostOnce(Run(Init(""), actions))
    ensures forall slugs: set<string> :: Ambiguous(slugs) ==> Uses("", actions, slugs)
  {
    KeysAgreeIff(Inbound, Inbound, "", NO_TENANT);
    hide PendingKey;
    var first := LostFirstOrder();
    var s := Run(Init(""), first);
    RunSnoc(Init(""), first, SetTenant(NO_TENANT));
    RunSnoc(Init(""), first + [SetTenant(NO_TENANT)], Submit(0, 1));
    RunSnoc(Init(""), first + [SetTenant(NO_TENANT)] + [Submit(0, 1)], Receive(1));
    actions := first + [SetTenant(NO_TENANT)] + [Submit(0, 1)] + [Receive(1)];
    var s1 := Step(s, SetTenant(NO_TENANT));
    var s2 := Step(s1, Submit(0, 1));
    assert 1 in s2.requests && s2.requests[1].header == NO_TENANT && s2.requests[1].id == "x";
    var s3 := Step(s2, Receive(1));
    assert s3.created == [Order("", "x"), Order(NO_TENANT, "x")];
    assert s3.created[0].id == s3.created[1].id;
  }

  /** Every run over a set of companies orders at most once per id if and only if the set does not hold both the missing
      company and one named "no-tenant". */
  lemma OrdersAtMostOnceIff(slugs: set<string>)
    ensures (forall tenant, actions :: Uses(tenant, actions, slugs) ==> AtMostOnce(Run(Init(tenant), actions)))
            <==> !Ambiguous(slugs)
  {
    if Ambiguous(slugs) {
      var actions := Twice();
      assert Uses("", actions, slugs);
    } else {
      forall tenant, actions | Uses(tenant, actions, slugs) ensures AtMostOnce(Run(Init(tenant), actions)) {
        OrdersAtMostOnce(tenant, actions, slugs);
      }
    }
  }

  // ---------------------------------------------------------------------------------------
  // How many orders
  // ---------------------------------------------------------------------------------------

  function AckedUnder(s: State, key: string): set<Id> {
    set id | id in s.acked && MintedUnder(s, id, key)
  }

  /** How many orders of the server's log carry an id minted under `key`. */
  function OrdersUnder(created: seq<Order>, minted: map<Id, string>, key: string): nat {
    if created == [] then 0
    else
      var last := created[|created| - 1];
      OrdersUnder(created[..|created| - 1], minted, key) + if last.id in minted && minted[last.id] == key then 1 else 0
  }

  /** Orders with distinct ids are no more than the ids they can carry. */
  lemma {:induction false} OrdersFit(created: seq<Order>, minted: map<Id, string>, key: string, ids: set<Id>)
    requires forall i, j :: 0 <= i < j < |created| ==> created[i].id != created[j].id
    requires forall i :: 0 <= i < |created| && created[i].id in minted && minted[created[i].id] == key ==>
               created[i].id in ids
    ensures OrdersUnder(created, minted, key) <= |ids|
  {
    if created != [] {
      var n := |created| - 1;
      var last := created[n];
      if last.id in minted && minted[last.id] == key {
        OrdersFit(created[..n], minted, key, ids - {last.id});
      } else {
        OrdersFit(created[..n], minted, key, ids);
      }
    }
  }

  /** Under each storage key there is at most one order more than there are acknowledged ids. */
  lemma OrdersWithinAcknowledged(tenant: string, actions: seq<Action>, slugs: set<string>, key: string)
    requires Uses(tenant, actions, slugs) && !Ambiguous(slugs)
    ensures var s := Run(Init(tenant), actions); OrdersUnder(s.created, s.minted, key) <= |AckedUnder(s, key)| + 1
  {
    OrdersAtMostOnce(tenant, actions, slugs);
    RunKeepsInv(tenant, actions);
    var s := Run(Init(tenant), actions);
    var ids := AckedUnder(s, key) + if key in s.session then {s.session[key]} else {};
    OrdersFit(s.created, s.minted, key, ids);
  }
}
