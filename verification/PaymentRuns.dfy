/** Safety of every run of sale, crash, expiry, recovery, reconciliation and deletion
    (src/services/membershipService.js:1735-2526). */
module PaymentRuns {
  import opened Payments

  ghost predicate Linked(s: State) {
    && (forall id :: id in s.intents ==>
          && s.intents[id].order in s.orders
          && s.intents[id].amount == s.orders[s.intents[id].order].amount
          && s.intents[id].currency == s.orders[s.intents[id].order].currency)
    && forall i, j :: i in s.intents && j in s.intents && s.intents[i].order == s.intents[j].order ==> i == j
  }

  predicate Unclaimed(state: IntentState) { state == Creado || state == LinkGenerado }

  /** A claim is for good, and the provider is called at most once per claim. */
  ghost predicate ChargedOnce(s: State) {
    && (forall id :: id in s.claimed ==> id in s.intents && !Unclaimed(s.intents[id].state))
    && (forall id :: id in s.charges ==> id in s.claimed && s.charges[id] <= 1)
  }

  predicate AwaitsProvider(ph: Phase) { ph.Claimed? || ph.InFlight? || ph.Returned? }

  ghost predicate HasEvidence(s: State, id: int) { exists k :: 0 <= k < |s.events| && s.events[k].intent == id }

  ghost predicate SaleOk(s: State, a: int)
    requires a in s.sales
  {
    var sale := s.sales[a];
    && sale.intent in s.claimed && sale.intent in s.intents
    && (sale.phase.Claimed? ==> sale.intent !in s.charges)
    && (AwaitsProvider(sale.phase) ==>
          !HasEvidence(s, sale.intent) && s.intents[sale.intent].state in {PendienteConfirmacion, Expirado})
    && (sale.phase.Returned? ==> Promised(sale.phase.outcome))
    && (sale.phase.Persisted? ==> HasEvidence(s, sale.intent) && sale.phase.uuid != 0 && sale.phase.transaction != 0)
  }

  ghost predicate SalesOk(s: State) {
    && (forall a :: a in s.sales ==> SaleOk(s, a))
    && forall a, b :: a in s.sales && b in s.sales && s.sales[a].intent == s.sales[b].intent ==> a == b
  }

  predicate EvidenceOk(s: State, e: Evidence) {
    && e.intent in s.claimed && e.intent in s.intents
    && e.order == s.intents[e.intent].order && EvidenceFits(e, s.intents[e.intent]) && e.at <= s.now
    && s.intents[e.intent].state in {PendienteConfirmacion, Confirmado, Expirado}
  }

  ghost predicate EventsOk(s: State) {
    && (forall k :: 0 <= k < |s.events| ==> EvidenceOk(s, s.events[k]))
    && forall i, k :: 0 <= i < k < |s.events| ==> s.events[i].intent != s.events[k].intent
  }

  /** A provider session is only known together with evidence, so nobody is ever queried. */
  ghost predicate SessionsOk(s: State) {
    && (forall id :: id in s.intents && s.intents[id].session.Some? ==> HasEvidence(s, id))
    && s.queries == {}
  }

  ghost predicate PaidOnce(s: State) {
    && (forall o :: o in s.orders ==>
          && ActivationsOf(s, o) == (if s.orders[o].state == Pagada then 1 else 0)
          && (s.orders[o].state == Pagada ==> s.orders[o].subscription.Some?))
    && (forall o :: o !in s.orders ==> ActivationsOf(s, o) == 0)
    && (forall id :: id in s.intents && s.intents[id].order in s.orders ==>
          (s.intents[id].state == Confirmado <==> s.orders[s.intents[id].order].state == Pagada))
    && (forall id :: id in s.intents && s.intents[id].state == Confirmado ==> HasEvidence(s, id))
  }

  ghost predicate OneLive(s: State) {
    && (forall k :: k in s.subs ==> k < s.nextSub)
    && forall j, k :: j in s.subs && k in s.subs && SameScope(s.subs[j], s.subs[k]) ==> j == k
  }

  /** Both live, for the same client and branch. */
  predicate SameScope(x: Subscription, y: Subscription) {
    Live(x) && Live(y) && x.client == y.client && x.branch == y.branch
  }

  ghost predicate OnePending(s: State) {
    forall i, j, c, b :: PendingInScope(s, i, c, b) && PendingInScope(s, j, c, b) ==> i == j
  }

  ghost predicate Inv(s: State) {
    && Linked(s) && ChargedOnce(s) && SalesOk(s) && EventsOk(s) && SessionsOk(s) && PaidOnce(s) && OneLive(s) && OnePending(s)
  }

  lemma InitInv()
    ensures Inv(Init())
  {
  }

  /** Claimed intents, the evidence and the charges are as before. */
  ghost predicate ClaimedSame(s: State, v: State) {
    && v.events == s.events && v.charges == s.charges && s.now <= v.now && s.claimed <= v.claimed
    && forall id :: id in s.claimed && id in s.intents ==> id in v.intents && v.intents[id] == s.intents[id]
  }

  lemma EvidenceFrame(s: State, v: State)
    requires v.events == s.events
    ensures forall id :: HasEvidence(v, id) == HasEvidence(s, id)
  {
    forall id ensures HasEvidence(v, id) == HasEvidence(s, id) {}
  }

  lemma ClaimedFrame(s: State, v: State)
    requires ChargedOnce(s) && SalesOk(s) && EventsOk(s) && ClaimedSame(s, v)
    ensures EventsOk(v)
    ensures v.sales == s.sales ==> SalesOk(v)
  {
    EvidenceFrame(s, v);
    forall k | 0 <= k < |v.events| ensures EvidenceOk(v, v.events[k]) { assert EvidenceOk(s, s.events[k]); }
    if v.sales == s.sales {
      forall a | a in v.sales ensures SaleOk(v, a) { assert SaleOk(s, a); }
    }
  }

  lemma NewOrderPaid(s: State, order: int, o: Order)
    requires Inv(s)
    ensures var v := Apply(s, NewOrder(order, o)); PaidOnce(v) && Linked(v)
  {
    EvidenceFrame(s, Apply(s, NewOrder(order, o)));
  }

  lemma NewOrderPending(s: State, order: int, o: Order)
    requires Linked(s) && OnePending(s)
    ensures OnePending(Apply(s, NewOrder(order, o)))
  {
    var v := Apply(s, NewOrder(order, o));
    forall i, c, b | PendingInScope(v, i, c, b) ensures PendingInScope(s, i, c, b) {
      assert s.intents[i].order in s.orders;
    }
  }

  lemma NewOrderKeeps(s: State, order: int, o: Order)
    requires Inv(s)
    ensures Inv(Apply(s, NewOrder(order, o)))
  {
    var v := Apply(s, NewOrder(order, o));
    NewOrderPaid(s, order, o);
    NewOrderPending(s, order, o);
    ClaimedFrame(s, v);
    EvidenceFrame(s, v);
  }

  function AddIntent(s: State, newId: int, order: int, expiry: int): State
    requires order in s.orders
  {
    s.(intents := s.intents[newId := Intent(order, s.orders[order].amount, s.orders[order].currency, LinkGenerado, None, expiry)])
  }

  lemma NewIntentAdds(s: State, order: int, client: int, newId: int) returns (expiry: int)
    ensures var v := Apply(s, NewIntent(order, client, newId));
      v == s || (&& newId !in s.intents && newId !in s.claimed && newId !in s.charges
                 && order in s.orders && s.orders[order].state == PendientePago
                 && (forall id :: id in s.intents ==> s.intents[id].order != order)
                 && v == AddIntent(s, newId, order, expiry))
  {
    expiry := if order in s.orders && s.orders[order].expiresAt.Some? then s.orders[order].expiresAt.value else s.now + 30;
  }

  /** The order can still be paid by that client. */
  predicate Payable(s: State, order: int, client: int) {
    && order in s.orders && s.orders[order].client == client && s.orders[order].state == PendientePago
    && s.orders[order].amount > 0 && (s.orders[order].expiresAt.Some? ==> s.now < s.orders[order].expiresAt.value)
  }

  /** A payable order gets an intent for exactly its amount and currency, with its expiry or half
      an hour, and only one: asked again it answers with the one it has. Anything else is refused. */
  lemma IntentCreatedIff(s: State, order: int, client: int, newId: int)
    requires Inv(s)
    ensures var r := CreateIntent(s, order, client, newId);
      && (r.reply.Done? <==> Payable(s, order, client) && forall id :: id in s.intents ==> s.intents[id].order != order)
      && (r.reply.Reused? <==> Payable(s, order, client) && exists id :: id in s.intents && s.intents[id].order == order)
      && (r.reply.Done? || r.reply.Reused? || r.reply.Denied?) && (!r.reply.Done? ==> r.state == s)
      && (r.reply.Done? ==> newId in r.state.intents && var i, o := r.state.intents[newId], s.orders[order];
            && i.order == order && i.amount == o.amount && i.currency == o.currency && i.state == LinkGenerado && i.session == None
            && i.expiresAt == (if o.expiresAt.Some? then o.expiresAt.value else s.now + 30)
            && r.state == s.(intents := s.intents[newId := i]))
  {
  }

  /** Only a refusal that is certain fails an intent, and only while it awaits confirmation. */
  lemma FailsIff(s: State, id: int, outcome: Outcome)
    requires id in s.intents && !outcome.Approved?
    ensures RecordFailure(s, id, outcome) ==
      if s.intents[id].state == PendienteConfirmacion && (outcome.Declined? || outcome.DefinitiveError?)
      then s.(intents := s.intents[id := s.intents[id].(state := Fallido)]) else s
  {
  }

  lemma AddIntentKeeps(s: State, newId: int, order: int, expiry: int)
    requires Inv(s) && newId !in s.intents && newId !in s.claimed && newId !in s.charges
    requires order in s.orders && s.orders[order].state == PendientePago
    requires forall id :: id in s.intents ==> s.intents[id].order != order
    ensures Inv(AddIntent(s, newId, order, expiry))
  {
    var v := AddIntent(s, newId, order, expiry);
    EvidenceFrame(s, v);
    ClaimedFrame(s, v);
    forall i, c, b | PendingInScope(v, i, c, b) ensures PendingInScope(s, i, c, b) {}
  }

  lemma NewIntentKeeps(s: State, order: int, client: int, newId: int)
    requires Inv(s)
    ensures Inv(Apply(s, NewIntent(order, client, newId)))
  {
    var expiry := NewIntentAdds(s, order, client, newId);
    if Apply(s, NewIntent(order, client, newId)) != s {
      AddIntentKeeps(s, newId, order, expiry);
    }
  }

  lemma EvidenceIsClaimed(s: State, id: int)
    requires EventsOk(s)
    ensures HasEvidence(s, id) ==> id in s.claimed
  {
    if HasEvidence(s, id) {
      var k :| 0 <= k < |s.events| && s.events[k].intent == id;
      assert EvidenceOk(s, s.events[k]);
    }
  }

  function ClaimedState(s: State, attempt: int, id: int): State
    requires id in s.intents
  {
    SetIntent(s, id, PendienteConfirmacion).(
      sales := s.sales[attempt := Sale(id, Claimed)], claimed := s.claimed + {id})
  }

  /** What a successful claim found: the link is unused and nothing else is pending in its scope. */
  ghost predicate Claimable(s: State, attempt: int, id: int) {
    && attempt !in s.sales && id in s.intents && s.intents[id].state == LinkGenerado && s.intents[id].order in s.orders
    && var o := s.orders[s.intents[id].order];
       forall j :: j in s.intents && j != id ==> !PendingInScope(s, j, o.client, o.branch)
  }

  lemma ClaimSucceeds(s: State, attempt: int, id: int, client: int, cardValid: bool)
    requires attempt !in s.sales && Claim(s, attempt, id, client, cardValid).reply.Done?
    ensures Claimable(s, attempt, id) && Claim(s, attempt, id, client, cardValid).state == ClaimedState(s, attempt, id)
  {
  }

  /** Before the expiry of the intent and of its order; an order without one is taken to have
      expired at zero. */
  predicate BeforeBothExpiries(s: State, id: int, at: int)
    requires id in s.intents && s.intents[id].order in s.orders
  {
    var o := s.orders[s.intents[id].order];
    at < s.intents[id].expiresAt && (if o.expiresAt.Some? then at < o.expiresAt.value else at < 0)
  }

  /** No other intent awaits confirmation for the same client and branch. */
  predicate AloneInScope(s: State, id: int) {
    forall j :: j in s.intents && j != id && SharesScope(s, id, j) ==> s.intents[j].state != PendienteConfirmacion
  }

  predicate MayBeClaimed(s: State, id: int, client: int, cardValid: bool) {
    && id in s.intents && s.intents[id].order in s.orders && s.orders[s.intents[id].order].client == client
    && s.intents[id].state == LinkGenerado && BeforeBothExpiries(s, id, s.now) && AloneInScope(s, id) && cardValid
  }

  /** A claim goes through exactly when the intent is the client's, still has its link, is before
      both expiries, is alone in its scope, and the card is valid; it then awaits confirmation. */
  lemma ClaimGoesThroughIff(s: State, attempt: int, id: int, client: int, cardValid: bool)
    ensures Claim(s, attempt, id, client, cardValid).reply.Done? <==> MayBeClaimed(s, id, client, cardValid)
    ensures var r := Claim(s, attempt, id, client, cardValid);
      if r.reply.Done? then
        && r.state.sales == s.sales[attempt := Sale(id, Claimed)]
        && r.state.intents == s.intents[id := s.intents[id].(state := PendienteConfirmacion)]
      else r.state == s
  {
    if id in s.intents && s.intents[id].order in s.orders && s.orders[s.intents[id].order].client == client {
      var o := s.orders[s.intents[id].order];
      forall j | j in s.intents && j != id
        ensures PendingInScope(s, j, client, o.branch) <==> SharesScope(s, id, j) && s.intents[j].state == PendienteConfirmacion {}
    }
  }

  /** The step claims intent `id` in time, for its owner, with a valid card. */
  predicate TimelyClaim(s: State, l: Label, id: int) {
    l.ClaimStep? && l.id == id && MayBeClaimed(s, id, l.client, l.cardValid)
  }

  ghost predicate ClaimedInTime(labels: seq<Label>, id: int) {
    exists k :: 0 <= k < |labels| && TimelyClaim(Run(Init(), labels[..k]), labels[k], id)
  }

  lemma ClaimedGrows(s: State, l: Label, id: int)
    requires Inv(s) && id in Apply(s, l).claimed && id !in s.claimed
    ensures TimelyClaim(s, l, id)
  {
    if l.ClaimStep? {
      ClaimGoesThroughIff(s, l.attempt, l.id, l.client, l.cardValid);
    } else if l.ReconcileStep? {
      NeverQueries(s, l.id, l.client, l.owner);
    }
  }

  lemma {:induction false} ClaimsAreTimely(labels: seq<Label>, id: int)
    requires id in Run(Init(), labels).claimed
    ensures ClaimedInTime(labels, id)
  {
    if labels != [] {
      var n := |labels| - 1;
      if id in Run(Init(), labels[..n]).claimed {
        ClaimsAreTimely(labels[..n], id);
        StillTimely(labels, id);
      } else {
        InitInv();
        RunKeeps(Init(), labels[..n]);
        ClaimedGrows(Run(Init(), labels[..n]), labels[n], id);
      }
    }
  }

  lemma StillTimely(labels: seq<Label>, id: int)
    requires |labels| > 0 && ClaimedInTime(labels[..|labels| - 1], id)
    ensures ClaimedInTime(labels, id)
  {
    var init := labels[..|labels| - 1];
    var k :| 0 <= k < |init| && TimelyClaim(Run(Init(), init[..k]), init[k], id);
    assert init[..k] == labels[..k] && init[k] == labels[k];
  }

  /** In every run the provider is only ever called for an intent that was claimed before both
      of its expiries, by its owner, with a valid card. */
  lemma ChargedWasTimely(labels: seq<Label>, id: int)
    requires ChargesOf(Run(Init(), labels), id) > 0
    ensures ClaimedInTime(labels, id)
  {
    InitInv();
    RunKeeps(Init(), labels);
    ClaimsAreTimely(labels, id);
  }

  /** A claim that goes through is the first of its intent, before any charge; and until the
      intent is resolved no other attempt can claim it or any intent of the same client and
      branch. */
  lemma ClaimExcludesOthers(s: State, attempt: int, id: int, client: int, cardValid: bool)
    requires Inv(s) && attempt !in s.sales && Claim(s, attempt, id, client, cardValid).reply.Done?
    ensures id !in s.claimed && ChargesOf(s, id) == 0 && !HasEvidence(s, id)
    ensures var v := Claim(s, attempt, id, client, cardValid).state;
      forall other, j, who, card :: SharesScope(v, id, j) ==> !Claim(v, other, j, who, card).reply.Done?
  {
    ClaimSucceeds(s, attempt, id, client, cardValid);
    EvidenceIsClaimed(s, id);
    var v := ClaimedState(s, attempt, id);
    forall other, j, who, card | SharesScope(v, id, j) ensures !Claim(v, other, j, who, card).reply.Done? {
      assert PendingInScope(v, id, v.orders[v.intents[id].order].client, v.orders[v.intents[id].order].branch);
    }
  }

  /** Both intents concern one client at one branch. */
  predicate SharesScope(s: State, i: int, j: int) {
    && i in s.intents && j in s.intents && s.intents[i].order in s.orders && s.intents[j].order in s.orders
    && s.orders[s.intents[i].order].client == s.orders[s.intents[j].order].client
    && s.orders[s.intents[i].order].branch == s.orders[s.intents[j].order].branch
  }

  lemma ClaimTables(s: State, attempt: int, id: int)
    requires Inv(s) && Claimable(s, attempt, id)
    ensures var v := ClaimedState(s, attempt, id);
      Linked(v) && PaidOnce(v) && ChargedOnce(v) && SessionsOk(v) && EventsOk(v) && OneLive(v)
  {
    var v := ClaimedState(s, attempt, id);
    assert id !in s.claimed;
    EvidenceFrame(s, v);
    ClaimedFrame(s, v);
  }

  lemma ClaimPending(s: State, attempt: int, id: int)
    requires Inv(s) && Claimable(s, attempt, id)
    ensures OnePending(ClaimedState(s, attempt, id))
  {
    var v := ClaimedState(s, attempt, id);
    forall i, c, b | PendingInScope(v, i, c, b) ensures i == id || PendingInScope(s, i, c, b) {}
  }

  lemma ClaimSales(s: State, attempt: int, id: int)
    requires Inv(s) && Claimable(s, attempt, id)
    ensures SalesOk(ClaimedState(s, attempt, id))
  {
    var v := ClaimedState(s, attempt, id);
    assert id !in s.claimed;
    EvidenceFrame(s, v);
    EvidenceIsClaimed(s, id);
    forall a | a in s.sales ensures SaleOk(v, a) && s.sales[a].intent != id { assert SaleOk(s, a); }
    assert SaleOk(v, attempt);
  }

  lemma ClaimKeeps(s: State, attempt: int, id: int, client: int, cardValid: bool)
    requires Inv(s)
    ensures Inv(Apply(s, ClaimStep(attempt, id, client, cardValid)))
  {
    if attempt !in s.sales && Claim(s, attempt, id, client, cardValid).reply.Done? {
      ClaimSucceeds(s, attempt, id, client, cardValid);
      ClaimTables(s, attempt, id);
      ClaimPending(s, attempt, id);
      ClaimSales(s, attempt, id);
    }
  }

  /** The parts of the invariant that do not read the sales in progress. */
  ghost predicate TablesOk(s: State) {
    Linked(s) && EventsOk(s) && SessionsOk(s) && PaidOnce(s) && OneLive(s) && OnePending(s)
  }

  ghost predicate SameTables(s: State, v: State) {
    && v.orders == s.orders && v.intents == s.intents && v.subs == s.subs && v.nextSub == s.nextSub && v.events == s.events
    && v.queries == s.queries && v.claimed == s.claimed && v.activations == s.activations && s.now <= v.now
  }

  lemma SameTablesOk(s: State, v: State)
    requires TablesOk(s) && SameTables(s, v)
    ensures TablesOk(v)
  {
    forall i, c, b | PendingInScope(v, i, c, b) ensures PendingInScope(s, i, c, b) {}
    forall id ensures HasEvidence(v, id) == HasEvidence(s, id) {}
  }

  /** Elsewhere than at intent `id` nothing moved that a sale depends on. */
  ghost predicate SameBut(s: State, v: State, id: int) {
    && v.claimed == s.claimed && v.intents.Keys == s.intents.Keys
    && forall j :: j != id ==>
         && (HasEvidence(v, j) <==> HasEvidence(s, j)) && (j in v.charges <==> j in s.charges)
         && (j in s.intents ==> v.intents[j] == s.intents[j])
  }

  lemma OneSaleMoves(s: State, v: State, attempt: int, ph: Phase)
    requires SalesOk(s) && attempt in s.sales && v.sales == s.sales[attempt := s.sales[attempt].(phase := ph)]
    requires SameBut(s, v, s.sales[attempt].intent) && SaleOk(v, attempt)
    ensures SalesOk(v)
  {
    forall a | a in v.sales && a != attempt ensures SaleOk(v, a) {
      assert SaleOk(s, a);
      assert s.sales[a].intent != s.sales[attempt].intent;
    }
  }

  lemma MovedKeeps(s: State, v: State, attempt: int, ph: Phase)
    requires Inv(s) && SameTables(s, v) && ChargedOnce(v)
    requires attempt in s.sales && v.sales == s.sales[attempt := s.sales[attempt].(phase := ph)]
    requires forall j :: j != s.sales[attempt].intent ==> (j in v.charges <==> j in s.charges)
    requires SaleOk(v, attempt)
    ensures Inv(v)
  {
    SameTablesOk(s, v);
    EvidenceFrame(s, v);
    OneSaleMoves(s, v, attempt, ph);
  }

  lemma IssueKeeps(s: State, attempt: int)
    requires Inv(s)
    ensures Inv(Apply(s, IssueCharge(attempt)))
  {
    var v := Apply(s, IssueCharge(attempt));
    if v != s {
      assert SaleOk(s, attempt);
      EvidenceFrame(s, v);
      MovedKeeps(s, v, attempt, InFlight);
    }
  }

  lemma ReturnKeeps(s: State, attempt: int, outcome: Outcome)
    requires Inv(s)
    ensures Inv(Apply(s, SaleReturns(attempt, outcome)))
  {
    var v := Apply(s, SaleReturns(attempt, outcome));
    if v != s {
      assert SaleOk(s, attempt);
      EvidenceFrame(s, v);
      MovedKeeps(s, v, attempt, Returned(outcome));
    }
  }

  lemma EndSaleKeeps(s: State, attempt: int)
    requires Inv(s)
    ensures Inv(EndSale(s, attempt))
  {
    var v := EndSale(s, attempt);
    SameTablesOk(s, v);
    forall a | a in v.sales ensures SaleOk(v, a) { assert SaleOk(s, a); }
  }

  lemma TickKeeps(s: State, minutes: nat)
    requires Inv(s)
    ensures Inv(Apply(s, Tick(minutes)))
  {
    var v := Apply(s, Tick(minutes));
    SameTablesOk(s, v);
    forall a | a in v.sales ensures SaleOk(v, a) { assert SaleOk(s, a); }
  }

  /** Without evidence, an intent may fail; its own sale is the only one that awaits an answer. */
  lemma FailIntentKeeps(s: State, attempt: int)
    requires Inv(s) && attempt in s.sales && AwaitsProvider(s.sales[attempt].phase)
    ensures s.sales[attempt].intent in s.intents
    ensures Inv(EndSale(SetIntent(s, s.sales[attempt].intent, Fallido), attempt))
  {
    assert SaleOk(s, attempt);
    var id := s.sales[attempt].intent;
    var v := EndSale(SetIntent(s, id, Fallido), attempt);
    forall i, c, b | PendingInScope(v, i, c, b) ensures PendingInScope(s, i, c, b) {}
    forall j ensures HasEvidence(v, j) == HasEvidence(s, j) {}
    forall a | a in v.sales ensures SaleOk(v, a) { assert SaleOk(s, a); }
    forall k | 0 <= k < |v.events| ensures EvidenceOk(v, v.events[k]) { assert EvidenceOk(s, s.events[k]); }
  }

  lemma FailKeeps(s: State, attempt: int)
    requires Inv(s)
    ensures Inv(Apply(s, FailSale(attempt)))
  {
    if InPhase(s, attempt) && s.sales[attempt].phase.Returned? && !s.sales[attempt].phase.outcome.Approved? {
      FailIntentKeeps(s, attempt);
      EndSaleKeeps(s, attempt);
    }
  }

  lemma PersistedEvidence(s: State, id: int, uuid: int, transaction: int)
    requires id in s.intents
    ensures forall j :: HasEvidence(PersistEvidence(s, id, uuid, transaction), j) <==> j == id || HasEvidence(s, j)
  {
    var v := PersistEvidence(s, id, uuid, transaction);
    assert v.events[|s.events|].intent == id;
    forall j ensures HasEvidence(v, j) <==> j == id || HasEvidence(s, j) {
      if HasEvidence(s, j) {
        var k :| 0 <= k < |s.events| && s.events[k].intent == j;
        assert v.events[k].intent == j;
      }
    }
  }

  lemma PersistTables(s: State, id: int, uuid: int, transaction: int)
    requires Inv(s) && id in s.claimed && uuid != 0 && transaction != 0
    requires !HasEvidence(s, id) && s.intents[id].state in {PendienteConfirmacion, Expirado}
    ensures TablesOk(PersistEvidence(s, id, uuid, transaction))
  {
    var v := PersistEvidence(s, id, uuid, transaction);
    PersistedEvidence(s, id, uuid, transaction);
    forall i, c, b | PendingInScope(v, i, c, b) ensures PendingInScope(s, i, c, b) {}
    forall k | 0 <= k < |v.events| ensures EvidenceOk(v, v.events[k]) {
      assert k < |s.events| ==> EvidenceOk(s, s.events[k]);
    }
  }

  lemma PersistedSale(s: State, attempt: int, uuid: int, transaction: int)
    requires Inv(s) && InPhase(s, attempt) && s.sales[attempt].phase.Returned? && uuid != 0 && transaction != 0
    ensures SalesOk(MoveSale(PersistEvidence(s, s.sales[attempt].intent, uuid, transaction), attempt, Persisted(uuid, transaction)))
  {
    assert SaleOk(s, attempt);
    var id := s.sales[attempt].intent;
    var u := PersistEvidence(s, id, uuid, transaction);
    var v := MoveSale(u, attempt, Persisted(uuid, transaction));
    PersistedEvidence(s, id, uuid, transaction);
    EvidenceFrame(u, v);
    OneSaleMoves(s, v, attempt, Persisted(uuid, transaction));
  }

  lemma PersistKeeps(s: State, attempt: int)
    requires Inv(s)
    ensures Inv(Apply(s, Persist(attempt)))
  {
    if InPhase(s, attempt) && s.sales[attempt].phase.Returned? && s.sales[attempt].phase.outcome.Approved? {
      assert SaleOk(s, attempt);
      var id, o := s.sales[attempt].intent, s.sales[attempt].phase.outcome;
      PersistTables(s, id, o.uuid, o.transaction);
      PersistedSale(s, attempt, o.uuid, o.transaction);
      SameTablesOk(PersistEvidence(s, id, o.uuid, o.transaction), Apply(s, Persist(attempt)));
    }
  }

  lemma ExpireTables(s: State, id: int)
    requires Inv(s)
    ensures var v := Apply(s, Expire(id)); Linked(v) && ChargedOnce(v) && SessionsOk(v) && PaidOnce(v) && OneLive(v) && OnePending(v)
  {
    var v := Apply(s, Expire(id));
    forall i, c, b | PendingInScope(v, i, c, b) ensures PendingInScope(s, i, c, b) {}
    EvidenceFrame(s, v);
  }

  lemma ExpireKeeps(s: State, id: int)
    requires Inv(s)
    ensures Inv(Apply(s, Expire(id)))
  {
    var v := Apply(s, Expire(id));
    ExpireTables(s, id);
    EvidenceFrame(s, v);
    forall a | a in v.sales ensures SaleOk(v, a) { assert SaleOk(s, a); }
    forall k | 0 <= k < |v.events| ensures EvidenceOk(v, v.events[k]) { assert EvidenceOk(s, s.events[k]); }
  }

  lemma ActivatePaysOnce(s: State, id: int, uuid: int)
    requires Inv(s) && id in s.intents && HasEvidence(s, id) && s.orders[s.intents[id].order].state != Pagada
    ensures PaidOnce(Activate(s, id, uuid))
  {
    var v := Activate(s, id, uuid);
    forall j ensures HasEvidence(v, j) == HasEvidence(s, j) {}
  }

  lemma ActivateOneLive(s: State, id: int, uuid: int)
    requires Inv(s) && id in s.intents
    ensures OneLive(Activate(s, id, uuid)) && Linked(Activate(s, id, uuid))
  {
  }

  lemma ActivateKeeps(s: State, id: int, uuid: int)
    requires Inv(s) && id in s.intents && id in s.claimed && HasEvidence(s, id)
    requires s.intents[id].state in {PendienteConfirmacion, Expirado}
    requires s.orders[s.intents[id].order].state != Pagada
    ensures Inv(Activate(s, id, uuid))
  {
    var v := Activate(s, id, uuid);
    ActivatePaysOnce(s, id, uuid);
    ActivateOneLive(s, id, uuid);
    forall i, c, b | PendingInScope(v, i, c, b) ensures PendingInScope(s, i, c, b) {}
    forall j ensures HasEvidence(v, j) == HasEvidence(s, j) {}
    forall a | a in v.sales ensures SaleOk(v, a) { assert SaleOk(s, a); }
    forall k | 0 <= k < |v.events| ensures EvidenceOk(v, v.events[k]) { assert EvidenceOk(s, s.events[k]); }
  }

  /** A confirmation by a sale or a recovery changes nothing or activates on stored evidence. */
  lemma ConfirmKeeps(s: State, id: int, client: int, owner: Owner, e: Evidence, allowExpired: bool)
    requires Inv(s) && HasEvidence(s, id)
    ensures Inv(Confirm(s, id, client, owner, e, allowExpired).state)
  {
    var r := Confirm(s, id, client, owner, e, allowExpired);
    if r.reply.Activated? {
      var k :| 0 <= k < |s.events| && s.events[k].intent == id;
      assert EvidenceOk(s, s.events[k]);
      ActivateKeeps(s, id, e.uuid);
    }
  }

  lemma {:induction false} NewestFound(events: seq<Evidence>, id: int)
    ensures Newest(events, id).Some? ==> exists k :: 0 <= k < |events| && events[k] == Newest(events, id).value && events[k].intent == id
    ensures Newest(events, id).None? ==> forall k :: 0 <= k < |events| ==> events[k].intent != id
  {
    if events != [] && events[|events| - 1].intent != id {
      NewestFound(events[..|events| - 1], id);
    }
  }

  lemma RecoverKeeps(s: State, id: int, client: int, owner: Owner)
    requires Inv(s)
    ensures Inv(Recover(s, id, client, owner).state)
  {
    NewestFound(s.events, id);
    if Newest(s.events, id).Some? {
      ConfirmKeeps(s, id, client, owner, Newest(s.events, id).value, true);
    }
  }

  /** With evidence only ever stored together with the session, reconciliation never gets as
      far as asking the provider. */
  lemma NeverQueries(s: State, id: int, client: int, owner: Owner)
    requires Inv(s)
    ensures Reconcile(s, id, client, owner).state == Recover(s, id, client, owner).state
    ensures Reconcile(s, id, client, owner).reply.Activated? <==> Recover(s, id, client, owner).reply.Activated?
  {
    NewestFound(s.events, id);
    if id in s.intents && s.intents[id].session.Some? {
      var k :| 0 <= k < |s.events| && s.events[k].intent == id;
      assert EvidenceOk(s, s.events[k]);
      var j :| 0 <= j < |s.events| && s.events[j] == Newest(s.events, id).value;
      assert EvidenceOk(s, s.events[j]);
    }
  }

  lemma ConfirmSaleKeeps(s: State, attempt: int, owner: Owner)
    requires Inv(s)
    ensures Inv(Apply(s, ConfirmSale(attempt, owner)))
  {
    if InPhase(s, attempt) && s.sales[attempt].phase.Persisted? {
      var id := s.sales[attempt].intent;
      assert SaleOk(s, attempt);
      var e := SaleEvidence(s, id, s.sales[attempt].phase.uuid, s.sales[attempt].phase.transaction);
      ConfirmKeeps(s, id, ClientOf(s, id), owner, e, false);
      EndSaleKeeps(Confirm(s, id, ClientOf(s, id), owner, e, false).state, attempt);
    }
  }

  lemma CancelKeeps(s: State, client: int)
    requires Inv(s)
    ensures Inv(CancelFor(s, client))
  {
    var v := CancelFor(s, client);
    forall i, c, b | PendingInScope(v, i, c, b) ensures PendingInScope(s, i, c, b) {}
    forall j ensures HasEvidence(v, j) == HasEvidence(s, j) {}
  }

  lemma RenewalKeeps(s: State, sub: int)
    requires Inv(s)
    ensures Inv(Apply(s, RenewalDue(sub)))
  {
    var v := Apply(s, RenewalDue(sub));
    forall i, c, b | PendingInScope(v, i, c, b) ensures PendingInScope(s, i, c, b) {}
    forall j ensures HasEvidence(v, j) == HasEvidence(s, j) {}
  }

  /** Steps of one sale. */
  predicate OfSale(l: Label) {
    l.ClaimStep? || l.IssueCharge? || l.SaleReturns? || l.FailSale? || l.Persist? || l.ConfirmSale? || l.CrashSale?
  }

  lemma SaleKeeps(s: State, l: Label)
    requires Inv(s) && OfSale(l)
    ensures Inv(Apply(s, l))
  {
    match l
    case ClaimStep(attempt, id, client, cardValid) => ClaimKeeps(s, attempt, id, client, cardValid);
    case IssueCharge(attempt) => IssueKeeps(s, attempt);
    case SaleReturns(attempt, outcome) => ReturnKeeps(s, attempt, outcome);
    case FailSale(attempt) => FailKeeps(s, attempt);
    case Persist(attempt) => PersistKeeps(s, attempt);
    case ConfirmSale(attempt, owner) => ConfirmSaleKeeps(s, attempt, owner);
    case CrashSale(attempt) => EndSaleKeeps(s, attempt);
  }

  lemma ReconcileKeeps(s: State, id: int, client: int, owner: Owner)
    requires Inv(s)
    ensures Inv(Reconcile(s, id, client, owner).state)
  {
    NeverQueries(s, id, client, owner);
    RecoverKeeps(s, id, client, owner);
  }

  lemma StepKeeps(s: State, l: Label)
    requires Inv(s)
    ensures Inv(Apply(s, l))
  {
    if OfSale(l) {
      SaleKeeps(s, l);
    } else if l.NewOrder? {
      NewOrderKeeps(s, l.order, l.o);
    } else if l.NewIntent? {
      NewIntentKeeps(s, l.order, l.client, l.newId);
    } else if l.RecoverStep? {
      RecoverKeeps(s, l.id, l.client, l.owner);
    } else if l.ReconcileStep? {
      ReconcileKeeps(s, l.id, l.client, l.owner);
    } else if l.Expire? {
      ExpireKeeps(s, l.id);
    } else if l.RenewalDue? {
      RenewalKeeps(s, l.sub);
    } else if l.DeletionProcesses? {
      CancelKeeps(s, l.client);
    } else if l.Tick? {
      TickKeeps(s, l.minutes);
    }
  }

  lemma {:induction false} RunKeeps(s: State, labels: seq<Label>)
    requires Inv(s)
    ensures Inv(Run(s, labels))
  {
    if labels != [] {
      RunKeeps(s, labels[..|labels| - 1]);
      StepKeeps(Run(s, labels[..|labels| - 1]), labels[|labels| - 1]);
    }
  }

  // ------------------------------------------------------------ main results

  /** In every run the provider is called at most once per intent, an order is activated at
      most once and only with evidence that fits its intent, and a client has at most one
      live membership per branch and at most one pending payment per branch. */
  lemma PaymentSafety(labels: seq<Label>)
    ensures var s := Run(Init(), labels);
      && (forall id :: ChargesOf(s, id) <= 1)
      && (forall o :: ActivationsOf(s, o) <= 1)
      && (forall id :: id in s.intents && s.intents[id].state == Confirmado ==> VerifiedFor(s, id))
      && (forall j, k :: LiveTogether(s, j, k) ==> j == k)
      && (forall i, j :: PendingTogether(s, i, j) ==> i == j)
      && s.queries == {}
  {
    InitInv();
    RunKeeps(Init(), labels);
    var s := Run(Init(), labels);
    forall o ensures ActivationsOf(s, o) <= 1 {
      assert o in s.orders || o !in s.orders;
    }
    forall j, k | LiveTogether(s, j, k) ensures j == k {
      assert SameScope(s.subs[j], s.subs[k]);
    }
    forall i, j | PendingTogether(s, i, j) ensures i == j {
      var o := s.orders[s.intents[i].order];
      assert PendingInScope(s, i, o.client, o.branch) && PendingInScope(s, j, o.client, o.branch);
    }
    forall id | id in s.intents && s.intents[id].state == Confirmado ensures VerifiedFor(s, id) {
      assert HasEvidence(s, id);
      var k :| 0 <= k < |s.events| && s.events[k].intent == id;
      assert EvidenceOk(s, s.events[k]);
    }
  }

  ghost predicate VerifiedFor(s: State, id: int)
    requires id in s.intents
  {
    exists k :: 0 <= k < |s.events| && s.events[k].intent == id && s.events[k].hashValid && s.events[k].amountMatches
      && s.events[k].amount == s.intents[id].amount && s.events[k].currency == s.intents[id].currency
      && s.events[k].uuid != 0 && s.events[k].transaction != 0
  }

  /** Two memberships of one client at one branch, neither ended. */
  predicate LiveTogether(s: State, j: int, k: int) {
    && j in s.subs && k in s.subs && s.subs[j].state != Terminada && s.subs[k].state != Terminada
    && s.subs[j].client == s.subs[k].client && s.subs[j].branch == s.subs[k].branch
  }

  /** Two intents that await confirmation for one client at one branch. */
  predicate PendingTogether(s: State, i: int, j: int) {
    && SharesScope(s, i, j) && s.intents[i].state == PendienteConfirmacion && s.intents[j].state == PendienteConfirmacion
  }

  /** Evidence is only ever added, and an intent that has it never becomes `fallido`. */
  lemma EvidenceStays(s: State, l: Label, k: nat)
    requires Inv(s) && k < |s.events|
    ensures var v := Apply(s, l);
      && k < |v.events| && v.events[k] == s.events[k]
      && s.events[k].intent in v.intents && v.intents[s.events[k].intent].state != Fallido
  {
    StepKeeps(s, l);
    var v := Apply(s, l);
    EventsGrow(s, l);
    assert EvidenceOk(v, v.events[k]);
  }

  lemma EventsGrow(s: State, l: Label)
    requires Inv(s)
    ensures s.events <= Apply(s, l).events
  {
    if l.ReconcileStep? {
      NeverQueries(s, l.id, l.client, l.owner);
      RecoverKeepsEvents(s, l.id, l.client, l.owner);
    } else if l.RecoverStep? {
      RecoverKeepsEvents(s, l.id, l.client, l.owner);
    }
  }

  lemma RecoverKeepsEvents(s: State, id: int, client: int, owner: Owner)
    ensures Recover(s, id, client, owner).state.events == s.events
  {
  }

  /** Not after the expiry of the intent nor of its order. */
  predicate InTime(s: State, id: int, at: int)
    requires id in s.intents && s.intents[id].order in s.orders
  {
    var o := s.orders[s.intents[id].order];
    at <= s.intents[id].expiresAt && (if o.expiresAt.Some? then at <= o.expiresAt.value else at <= 0)
  }

  /** Stored evidence of an intent, received before both expiries. */
  ghost predicate Timely(s: State, id: int, k: nat) {
    && k < |s.events| && id in s.intents && s.intents[id].order in s.orders
    && s.events[k].intent == id && InTime(s, id, s.events[k].at)
  }

  /** The account can receive the membership and the provider's id is not someone else's. */
  predicate CanReceive(s: State, id: int, owner: Owner, uuid: int)
    requires id in s.intents && s.intents[id].order in s.orders
  {
    var o := s.orders[s.intents[id].order];
    && !owner.locked && owner.active && !owner.deleting && o.snapshotOk && o.state != Cancelada
    && (uuid in s.payments ==> s.payments[uuid] == id)
  }

  /** Stored evidence of an unconfirmed intent is recovered, once, exactly when it came in time
      and the account can receive the membership; later evidence never is. */
  lemma RecoversIff(s: State, id: int, client: int, owner: Owner, k: nat)
    requires Inv(s) && k < |s.events| && s.events[k].intent == id && id in s.intents
    requires s.orders[s.intents[id].order].client == client && s.intents[id].state != Confirmado
    ensures Recover(s, id, client, owner).reply.Activated? <==> InTime(s, id, s.events[k].at) && CanReceive(s, id, owner, s.events[k].uuid)
    ensures Recover(s, id, client, owner).reply.Activated? ==>
              var v := Recover(s, id, client, owner).state;
              v.intents[id].state == Confirmado && Recover(v, id, client, owner).reply == Duplicate
  {
    NewestFound(s.events, id);
    assert EvidenceOk(s, s.events[k]);
    var j :| 0 <= j < |s.events| && s.events[j] == Newest(s.events, id).value && s.events[j].intent == id;
    assert j == k;
  }

  /** Without stored evidence nothing is recovered. */
  lemma NothingToRecover(s: State, id: int, client: int, owner: Owner)
    requires Inv(s) && !HasEvidence(s, id)
    ensures !Recover(s, id, client, owner).reply.Activated? && Recover(s, id, client, owner).state == s
  {
    NewestIsEvidence(s.events, id);
  }

  lemma {:induction false} NewestIsEvidence(events: seq<Evidence>, id: int)
    ensures Newest(events, id).Some? ==> exists k :: 0 <= k < |events| && events[k].intent == id
  {
    if events != [] && events[|events| - 1].intent != id {
      var init := events[..|events| - 1];
      NewestIsEvidence(init, id);
      if k :| 0 <= k < |init| && init[k].intent == id { assert events[k].intent == id; }
    }
  }

  /** A confirmation goes through exactly on these terms, and then the order is paid with a
      new active membership. */
  lemma ConfirmsIff(s: State, id: int, client: int, owner: Owner, e: Evidence, allowExpired: bool)
    requires Inv(s) && id in s.intents && s.orders[s.intents[id].order].client == client
    ensures var i := s.intents[id];
      Confirm(s, id, client, owner, e, allowExpired).reply.Activated? <==>
        && i.state != Confirmado && i.state != Fallido && (i.state == Expirado ==> allowExpired)
        && e.hashValid && e.amountMatches && e.amount == i.amount && e.currency == i.currency && e.uuid != 0 && e.transaction != 0
        && CanReceive(s, id, owner, e.uuid)
    ensures var r, o := Confirm(s, id, client, owner, e, allowExpired), s.intents[id].order;
      if r.reply.Activated? then
        && r.reply.subscription in r.state.subs && r.reply.subscription !in s.subs
        && r.state.subs[r.reply.subscription] == Subscription(client, s.orders[o].branch, o, Activa)
        && r.state.orders[o].state == Pagada && r.state.orders[o].subscription == Some(r.reply.subscription)
        && r.state.intents[id].state == Confirmado
      else r.state == s
  {
  }

  /** What an intent and its order promised when they were made does not change. */
  ghost predicate SameTerms(s: State, v: State, id: int)
    requires id in s.intents && s.intents[id].order in s.orders
  {
    && id in v.intents && v.intents[id].order == s.intents[id].order && v.intents[id].expiresAt == s.intents[id].expiresAt
    && s.intents[id].order in v.orders
    && v.orders[s.intents[id].order].expiresAt == s.orders[s.intents[id].order].expiresAt
    && v.orders[s.intents[id].order].client == s.orders[s.intents[id].order].client
    && v.orders[s.intents[id].order].snapshotOk == s.orders[s.intents[id].order].snapshotOk
  }

  lemma ConfirmTerms(s: State, id: int, j: int, client: int, owner: Owner, e: Evidence, allowExpired: bool)
    requires id in s.intents && s.intents[id].order in s.orders
    ensures SameTerms(s, Confirm(s, j, client, owner, e, allowExpired).state, id)
  {
  }

  lemma RecoverTerms(s: State, id: int, j: int, client: int, owner: Owner)
    requires id in s.intents && s.intents[id].order in s.orders
    ensures SameTerms(s, Recover(s, j, client, owner).state, id)
  {
    if Newest(s.events, j).Some? {
      ConfirmTerms(s, id, j, client, owner, Newest(s.events, j).value, true);
    }
  }

  predicate Confirms(l: Label) { l.ConfirmSale? || l.RecoverStep? || l.ReconcileStep? || l.StatusPays? || l.StatusRejects? }

  lemma ConfirmingTerms(s: State, l: Label, id: int)
    requires Inv(s) && id in s.intents && Confirms(l)
    ensures SameTerms(s, Apply(s, l), id)
  {
    if l.ConfirmSale? {
      if InPhase(s, l.attempt) && s.sales[l.attempt].phase.Persisted? {
        var j := s.sales[l.attempt].intent;
        var ph := s.sales[l.attempt].phase;
        ConfirmTerms(s, id, j, ClientOf(s, j), l.owner, SaleEvidence(s, j, ph.uuid, ph.transaction), false);
      }
    } else if l.RecoverStep? {
      RecoverTerms(s, id, l.id, l.client, l.owner);
    } else if l.ReconcileStep? {
      NeverQueries(s, l.id, l.client, l.owner);
      RecoverTerms(s, id, l.id, l.client, l.owner);
    }
  }

  lemma NewIntentTerms(s: State, order: int, client: int, newId: int, id: int)
    requires id in s.intents && s.intents[id].order in s.orders
    ensures SameTerms(s, Apply(s, NewIntent(order, client, newId)), id)
  {
    var expiry := NewIntentAdds(s, order, client, newId);
  }

  lemma ClaimTerms(s: State, attempt: int, j: int, client: int, cardValid: bool, id: int)
    requires id in s.intents && s.intents[id].order in s.orders
    ensures SameTerms(s, Claim(s, attempt, j, client, cardValid).state, id)
  {
    var r := Claim(s, attempt, j, client, cardValid);
    assert r.state == s || (j in s.intents && r.state.orders == s.orders
                            && r.state.intents == s.intents[j := s.intents[j].(state := PendienteConfirmacion)]);
  }

  lemma OrderTerms(s: State, l: Label, id: int)
    requires id in s.intents && s.intents[id].order in s.orders && (l.NewOrder? || l.DeletionProcesses?)
    ensures SameTerms(s, Apply(s, l), id)
  {
  }

  lemma PlainTerms(s: State, l: Label, id: int)
    requires id in s.intents && s.intents[id].order in s.orders && !Confirms(l) && !l.NewIntent? && !l.ClaimStep? && !l.NewOrder? && !l.DeletionProcesses?
    ensures SameTerms(s, Apply(s, l), id)
  {
    assert Apply(s, l).orders == s.orders;
  }

  lemma StepTerms(s: State, l: Label, id: int)
    requires Inv(s) && id in s.intents
    ensures SameTerms(s, Apply(s, l), id)
  {
    if Confirms(l) {
      ConfirmingTerms(s, l, id);
    } else if l.NewIntent? {
      NewIntentTerms(s, l.order, l.client, l.newId, id);
    } else if l.ClaimStep? {
      ClaimTerms(s, l.attempt, l.id, l.client, l.cardValid, id);
    } else if l.NewOrder? || l.DeletionProcesses? {
      OrderTerms(s, l, id);
    } else {
      PlainTerms(s, l, id);
    }
  }

  /** Timely evidence stays timely, and its intent never fails, in every later state. */
  lemma {:induction false} StaysTimely(s: State, labels: seq<Label>, id: int, k: nat)
    requires Inv(s) && Timely(s, id, k)
    ensures var v := Run(s, labels);
      && Inv(v) && Timely(v, id, k) && v.events[k] == s.events[k] && v.intents[id].state != Fallido
      && v.orders[v.intents[id].order].client == s.orders[s.intents[id].order].client
  {
    if labels == [] {
      assert EvidenceOk(s, s.events[k]);
    } else {
      var u := Run(s, labels[..|labels| - 1]);
      var l := labels[|labels| - 1];
      StaysTimely(s, labels[..|labels| - 1], id, k);
      StepKeeps(u, l);
      StepTerms(u, l, id);
      EvidenceStays(u, l, k);
    }
  }

  /** In every later state the paid membership is either active or recovered on request
      exactly when the account can receive it. */
  lemma StaysRecoverable(s: State, labels: seq<Label>, id: int, k: nat, owner: Owner)
    requires Inv(s) && Timely(s, id, k)
    ensures var v := Run(s, labels);
      var client := s.orders[s.intents[id].order].client;
      && id in v.intents && v.intents[id].order in v.orders
      && (v.intents[id].state == Confirmado
          || (Recover(v, id, client, owner).reply.Activated? <==> CanReceive(v, id, owner, s.events[k].uuid)))
  {
    StaysTimely(s, labels, id, k);
    var v := Run(s, labels);
    if v.intents[id].state != Confirmado {
      RecoversIff(v, id, s.orders[s.intents[id].order].client, owner, k);
    }
  }
}
