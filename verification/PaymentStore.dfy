/** Membership payments as the service performs them: each transaction row by row, and a whole
    sale around the provider's call (src/services/membershipService.js:1586-2069, 2275-2526). */
module PaymentStore {
  import opened Payments
  import opened PaymentRuns

  datatype SaleReply = Processed(subscription: int) | AlreadyConfirmed | StillPending | Rejected | Refused(status: int, code: Code)

  /** The steps a sale takes when nothing interrupts it. */
  function SaleRun(s: State, attempt: int, id: int, client: int, cardValid: bool, outcome: Outcome, owner: Owner): State {
    if attempt in s.sales || !Claim(s, attempt, id, client, cardValid).reply.Done? then s
    else
      var returned := Apply(Apply(Apply(s, ClaimStep(attempt, id, client, cardValid)), IssueCharge(attempt)), SaleReturns(attempt, outcome));
      if outcome.Approved? then Apply(Apply(returned, Persist(attempt)), ConfirmSale(attempt, owner))
      else Apply(returned, FailSale(attempt))
  }

  /** A live membership of the client at the branch. */
  predicate LiveAt(x: Subscription, client: int, branch: int) { Live(x) && x.client == client && x.branch == branch }

  lemma CallKeeps(s: State, attempt: int, outcome: Outcome)
    requires Inv(s) && attempt in s.sales && s.sales[attempt].phase == Claimed && Promised(outcome)
    ensures var v := Apply(Apply(s, IssueCharge(attempt)), SaleReturns(attempt, outcome));
      var id := s.sales[attempt].intent;
      Inv(v) && v == s.(charges := s.charges[id := ChargesOf(s, id) + 1], sales := s.sales[attempt := Sale(id, Returned(outcome))])
  {
    assert SaleOk(s, attempt);
    var u := Apply(s, IssueCharge(attempt));
    StepKeeps(s, IssueCharge(attempt));
    StepKeeps(u, SaleReturns(attempt, outcome));
    var id := s.sales[attempt].intent;
    assert u.sales == s.sales[attempt := Sale(id, InFlight)];
    assert u.sales[attempt := Sale(id, Returned(outcome))] == s.sales[attempt := Sale(id, Returned(outcome))];
  }

  class MembershipStore {
    var now: int
    var orders: map<int, Order>
    var intents: map<int, Intent>
    var subs: map<int, Subscription>
    var nextSub: int
    var events: seq<Evidence>
    var payments: map<int, int>
    ghost var sales: map<int, Sale>
    ghost var queries: set<int>
    ghost var claimed: set<int>
    ghost var charges: map<int, nat>
    ghost var activations: map<int, nat>

    ghost function Value(): State
      reads this
    {
      State(now, orders, intents, subs, nextSub, events, payments, sales, queries, claimed, charges, activations)
    }

    method SetIntentState(id: int, state: IntentState)
      requires id in intents
      modifies this`intents
      ensures Value() == SetIntent(old(Value()), id, state)
    {
      intents := intents[id := intents[id].(state := state)];
    }

    /** Ends every live membership of the client at the branch: none is left there, an ended
        one keeps its owner, branch and order, and every other row is as it was. */
    method CancelActiveSubscriptionForSameBranch(client: int, branch: int)
      modifies this`subs
      ensures subs == EndSubs(old(subs), client, branch)
      ensures forall k :: k in subs ==> !LiveAt(subs[k], client, branch)
      ensures forall k :: k in subs <==> k in old(subs)
      ensures forall k :: k in old(subs) && !LiveAt(old(subs)[k], client, branch) ==> subs[k] == old(subs)[k]
      ensures forall k :: k in old(subs) && LiveAt(old(subs)[k], client, branch) ==>
        subs[k] == Subscription(client, branch, old(subs)[k].order, Terminada)
    {
      subs := map k | k in subs ::
        if Live(subs[k]) && subs[k].client == client && subs[k].branch == branch then subs[k].(state := Terminada) else subs[k];
    }

    method Confirm(id: int, client: int, owner: Owner, e: Evidence, allowExpired: bool) returns (reply: Reply)
      modifies this
      ensures Result(Value(), reply) == Payments.Confirm(old(Value()), id, client, owner, e, allowExpired)
    {
      if owner.locked {
        return Denied(409, AccountUnavailable);
      }
      if id !in intents || intents[id].order !in orders {
        return Denied(404, IntentNotFound);
      }
      var i := intents[id];
      var o := orders[i.order];
      if o.client != client {
        return Denied(403, Forbidden);
      }
      if i.state == Confirmado || o.state == Pagada {
        return Denied(409, AlreadyProcessed);
      }
      if !Confirmable(i.state, allowExpired) {
        return Denied(409, IntentStateInvalid);
      }
      if !EvidenceFits(e, i) {
        return Denied(409, EvidenceInvalid);
      }
      if !o.snapshotOk {
        return Denied(409, SnapshotInvalid);
      }
      if !owner.active || owner.deleting || o.state == Cancelada {
        return Denied(409, AccountUnavailable);
      }
      reply := ActivateOrder(id, e.uuid);
    }

    /** Order paid, earlier memberships of the branch ended, the new one created, intent confirmed. */
    method WriteActivation(id: int) returns (created: int)
      requires id in intents && intents[id].order in orders
      modifies this`orders, this`subs, this`nextSub, this`intents
      ensures created == old(nextSub) && nextSub == created + 1
      ensures var o := old(orders)[old(intents)[id].order];
        && orders == old(orders)[old(intents)[id].order := o.(state := Pagada, subscription := Some(created))]
        && subs == EndSubs(old(subs), o.client, o.branch)[created := Subscription(o.client, o.branch, old(intents)[id].order, Activa)]
      ensures intents == old(intents)[id := old(intents)[id].(state := Confirmado)]
    {
      var order := intents[id].order;
      var o := orders[order];
      orders := orders[order := o.(state := Pagada)];
      CancelActiveSubscriptionForSameBranch(o.client, o.branch);
      created := nextSub;
      subs := subs[created := Subscription(o.client, o.branch, order, Activa)];
      nextSub := nextSub + 1;
      orders := orders[order := orders[order].(subscription := Some(created))];
      SetIntentState(id, Confirmado);
    }

    /** The writes of a confirmation, undone when the provider's id belongs to another payment. */
    method ActivateOrder(id: int, uuid: int) returns (reply: Reply)
      requires id in intents && intents[id].order in orders
      modifies this
      ensures Result(Value(), reply) ==
        if uuid in old(payments) && old(payments)[uuid] != id then Deny(old(Value()), 409, ProviderTxConflict)
        else Result(Activate(old(Value()), id, uuid), Activated(old(nextSub)))
    {
      var order := intents[id].order;
      var savedOrders, savedSubs, savedNext, savedIntents := orders, subs, nextSub, intents;
      var created := WriteActivation(id);
      if uuid in payments && payments[uuid] != id {
        orders, subs, nextSub, intents := savedOrders, savedSubs, savedNext, savedIntents;
        return Denied(409, ProviderTxConflict);
      }
      payments := payments[uuid := id];
      activations := activations[order := (if order in activations then activations[order] else 0) + 1];
      return Activated(created);
    }

    /** The newest stored evidence, looked for from the end. */
    method NewestEvidence(id: int) returns (found: Option<Evidence>)
      ensures found == Newest(events, id)
    {
      var n := |events|;
      assert events[..n] == events;
      while n > 0
        invariant 0 <= n <= |events| && Newest(events, id) == Newest(events[..n], id)
      {
        assert events[..n][..n - 1] == events[..n - 1];
        if events[n - 1].intent == id {
          return Some(events[n - 1]);
        }
        n := n - 1;
      }
      assert events[..0] == [];
      return None;
    }

    method Recover(id: int, client: int, owner: Owner) returns (reply: Reply)
      modifies this
      ensures Result(Value(), reply) == Payments.Recover(old(Value()), id, client, owner)
    {
      if owner.locked {
        return Denied(409, AccountUnavailable);
      }
      if id !in intents || intents[id].order !in orders {
        return Denied(409, RecoveryEvidenceInvalid);
      }
      var i := intents[id];
      var o := orders[i.order];
      var found := NewestEvidence(id);
      if i.state !in {PendienteConfirmacion, Confirmado, Expirado} || found.None? {
        return Denied(409, RecoveryEvidenceInvalid);
      }
      if o.client != client {
        return Denied(403, Forbidden);
      }
      var e := found.value;
      if e.order != i.order || !EvidenceFits(e, i) {
        return Denied(409, RecoveryEvidenceInvalid);
      }
      var deadline := OrderDeadline(o);
      if i.expiresAt < deadline {
        deadline := i.expiresAt;
      }
      if e.at > deadline {
        return Denied(409, VerifiedAfterExpiry);
      }
      if i.state == Confirmado && o.state == Pagada && o.subscription.Some? {
        return Duplicate;
      }
      reply := Confirm(id, client, owner, e, true);
    }

    method ClaimIntent(attempt: int, id: int, client: int, cardValid: bool) returns (reply: Reply)
      requires attempt !in sales
      modifies this
      ensures Result(Value(), reply) == Claim(old(Value()), attempt, id, client, cardValid)
    {
      if id !in intents || intents[id].order !in orders {
        return Denied(404, IntentNotFound);
      }
      var i := intents[id];
      var o := orders[i.order];
      if o.client != client {
        return Denied(403, Forbidden);
      }
      if i.state == Confirmado {
        return Duplicate;
      }
      if exists j :: j in intents && j != id && intents[j].state == PendienteConfirmacion && intents[j].order in orders
                     && orders[intents[j].order].client == client && orders[intents[j].order].branch == o.branch {
        return Denied(409, PendingScopeConflict);
      }
      if i.state != LinkGenerado {
        return Denied(409, SaleInProgress);
      }
      if i.expiresAt <= now || OrderDeadline(o) <= now {
        return Denied(409, IntentExpired);
      }
      if !cardValid {
        return Denied(400, CardExpired);
      }
      SetIntentState(id, PendienteConfirmacion);
      sales, claimed := sales[attempt := Sale(id, Claimed)], claimed + {id};
      return Done;
    }

    /** Evidence and session in one transaction: afterwards the newest evidence of the intent
        is this one, it fits the intent when its ids are not empty, the session is known if
        the intent was pending, and neither states nor the evidence of other intents moved. */
    method PersistVerifiedEvidence(id: int, uuid: int, transaction: int)
      requires id in intents
      modifies this`intents, this`events
      ensures Value() == PersistEvidence(old(Value()), id, uuid, transaction)
      ensures old(events) <= events && Newest(events, id).Some? && Newest(events, id).value.at == now
      ensures uuid != 0 && transaction != 0 ==> EvidenceFits(Newest(events, id).value, intents[id])
      ensures forall j :: j != id ==> Newest(events, j) == Newest(old(events), j)
      ensures forall j :: j in intents <==> j in old(intents)
      ensures forall j :: j in intents ==> intents[j] == old(intents)[j].(session := intents[j].session)
      ensures old(intents)[id].state == PendienteConfirmacion ==> intents[id].session == Some(uuid)
      ensures forall j :: j in intents && (j != id || old(intents)[id].state != PendienteConfirmacion) ==> intents[j] == old(intents)[j]
    {
      var i := intents[id];
      if i.state == PendienteConfirmacion {
        intents := intents[id := i.(session := Some(uuid))];
      }
      ghost var before := events;
      events := events + [Evidence(id, i.order, i.amount, i.currency, uuid, transaction, true, true, now)];
      assert events[..|events| - 1] == before;
    }

    method RecordOutcome(id: int, outcome: Outcome) returns (failed: bool)
      requires id in intents
      modifies this`intents
      ensures Value() == RecordFailure(old(Value()), id, outcome)
      ensures failed <==> !outcome.Uncertain? && !outcome.UncertainError?
    {
      failed := !outcome.Uncertain? && !outcome.UncertainError?;
      if failed && intents[id].state == PendienteConfirmacion {
        intents := intents[id := intents[id].(state := Fallido)];
      }
    }

    /** The provider's call: it is made once and comes back with an outcome. */
    ghost method CallProvider(attempt: int, id: int, outcome: Outcome)
      requires Inv(Value()) && attempt in sales && sales[attempt] == Sale(id, Claimed) && Promised(outcome)
      modifies this`charges, this`sales
      ensures Value() == Apply(Apply(old(Value()), IssueCharge(attempt)), SaleReturns(attempt, outcome)) && Inv(Value())
      ensures sales == old(sales)[attempt := Sale(id, Returned(outcome))]
    {
      CallKeeps(Value(), attempt, outcome);
      charges := charges[id := ChargesOf(Value(), id) + 1];
      sales := sales[attempt := Sale(id, Returned(outcome))];
    }

    method BeginSale(attempt: int, id: int, client: int, cardValid: bool) returns (claim: Reply)
      requires Inv(Value()) && attempt !in sales
      modifies this
      ensures Value() == Apply(old(Value()), ClaimStep(attempt, id, client, cardValid)) && Inv(Value())
      ensures claim == Claim(old(Value()), attempt, id, client, cardValid).reply
      ensures claim.Done? || claim.Duplicate? || claim.Denied?
      ensures !claim.Done? ==> Value() == old(Value())
      ensures claim.Done? ==>
        && attempt in sales && sales[attempt] == Sale(id, Claimed)
        && id in intents && intents[id].order in orders && orders[intents[id].order].client == client
        && intents[id].state == PendienteConfirmacion
      ensures claim.Done? <==> MayBeClaimed(old(Value()), id, client, cardValid)
      ensures orders == old(orders) && payments == old(payments) && intents.Keys == old(intents).Keys
      ensures old(id in intents) ==> id in intents && intents[id].order == old(intents[id].order)
    {
      ghost var before := Value();
      ClaimGoesThroughIff(before, attempt, id, client, cardValid);
      StepKeeps(before, ClaimStep(attempt, id, client, cardValid));
      if Claim(before, attempt, id, client, cardValid).reply.Done? {
        ClaimSucceeds(before, attempt, id, client, cardValid);
      }
      claim := ClaimIntent(attempt, id, client, cardValid);
    }

    method EndUnapproved(attempt: int, id: int, outcome: Outcome) returns (r: SaleReply)
      requires Inv(Value()) && attempt in sales && sales[attempt] == Sale(id, Returned(outcome)) && !outcome.Approved?
      modifies this
      ensures Value() == Apply(old(Value()), FailSale(attempt)) && Inv(Value())
      ensures if outcome.Declined? || outcome.DefinitiveError? then r.Rejected? else r.StillPending?
      ensures r.Rejected? ==> id in intents && intents[id].state in {Fallido, Expirado}
      ensures r.StillPending? ==> id in intents && intents[id].state in {PendienteConfirmacion, Expirado}
    {
      assert SaleOk(Value(), attempt);
      StepKeeps(Value(), FailSale(attempt));
      var failed := RecordOutcome(id, outcome);
      sales := sales - {attempt};
      return if failed then Rejected else StillPending;
    }

    method StoreApproval(attempt: int, id: int, outcome: Outcome)
      requires Inv(Value()) && attempt in sales && sales[attempt] == Sale(id, Returned(outcome)) && outcome.Approved?
      modifies this
      ensures Value() == Apply(old(Value()), Persist(attempt)) && Inv(Value())
      ensures attempt in sales && sales[attempt] == Sale(id, Persisted(outcome.uuid, outcome.transaction))
      ensures old(id in intents) ==>
        id in intents && intents[id].order == old(intents[id].order) && intents[id].state == old(intents[id].state)
      ensures orders == old(orders) && payments == old(payments)
    {
      assert SaleOk(Value(), attempt);
      StepKeeps(Value(), Persist(attempt));
      PersistVerifiedEvidence(id, outcome.uuid, outcome.transaction);
      sales := sales[attempt := Sale(id, Persisted(outcome.uuid, outcome.transaction))];
    }

    method ConfirmApproval(attempt: int, id: int, client: int, outcome: Outcome, owner: Owner) returns (r: SaleReply)
      requires Inv(Value()) && attempt in sales && outcome.Approved?
      requires sales[attempt] == Sale(id, Persisted(outcome.uuid, outcome.transaction))
      requires id in intents && intents[id].order in orders && orders[intents[id].order].client == client
      requires intents[id].state == PendienteConfirmacion && outcome.uuid != 0 && outcome.transaction != 0
      modifies this
      ensures Value() == Apply(old(Value()), ConfirmSale(attempt, owner)) && Inv(Value())
      ensures r.Processed? || r.Refused?
      ensures r.Processed? <==> CanReceive(old(Value()), id, owner, outcome.uuid)
      ensures r.Processed? ==> r.subscription in subs && subs[r.subscription].state == Activa && subs[r.subscription].client == client
      ensures r.Processed? ==> id in intents && intents[id].state == Confirmado
    {
      StepKeeps(Value(), ConfirmSale(attempt, owner));
      var e := Evidence(id, intents[id].order, intents[id].amount, intents[id].currency, outcome.uuid, outcome.transaction, true, true, now);
      ConfirmsIff(Value(), id, client, owner, e, false);
      var reply := Confirm(id, client, owner, e, false);
      sales := sales - {attempt};
      return if reply.Activated? then Processed(reply.subscription) else Refused(reply.status, reply.code);
    }

    /** A whole sale. What it stores is what the steps of the sale leave behind; it answers
        "processed", with the membership active, exactly when the intent may be claimed, the
        provider approves and the account can receive the membership. */
    method ProcessSale(attempt: int, id: int, client: int, cardValid: bool, outcome: Outcome, owner: Owner) returns (r: SaleReply)
      requires Inv(Value()) && attempt !in sales && Promised(outcome)
      modifies this
      ensures Value() == SaleRun(old(Value()), attempt, id, client, cardValid, outcome, owner) && Inv(Value())
      ensures r.Processed? <==>
        MayBeClaimed(old(Value()), id, client, cardValid) && outcome.Approved? && CanReceive(old(Value()), id, owner, outcome.uuid)
      ensures r.Processed? ==> r.subscription in subs && subs[r.subscription].state == Activa && subs[r.subscription].client == client
      ensures r.Processed? ==> id in intents && intents[id].state == Confirmado
      ensures r.Rejected? <==> MayBeClaimed(old(Value()), id, client, cardValid) && (outcome.Declined? || outcome.DefinitiveError?)
      ensures r.StillPending? <==> MayBeClaimed(old(Value()), id, client, cardValid) && (outcome.Uncertain? || outcome.UncertainError?)
      ensures r.Rejected? ==> id in intents && intents[id].state in {Fallido, Expirado}
      ensures r.StillPending? ==> id in intents && intents[id].state in {PendienteConfirmacion, Expirado}
    {
      var claim := BeginSale(attempt, id, client, cardValid);
      if claim.Duplicate? {
        return AlreadyConfirmed;
      }
      if claim.Denied? {
        return Refused(claim.status, claim.code);
      }
      CallProvider(attempt, id, outcome);
      if !outcome.Approved? {
        r := EndUnapproved(attempt, id, outcome);
      } else {
        StoreApproval(attempt, id, outcome);
        r := ConfirmApproval(attempt, id, client, outcome, owner);
      }
    }
  }
}
