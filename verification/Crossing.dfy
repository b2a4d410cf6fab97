/** Account deletion and membership payments side by side: every interleaving of their
    transactions (src/services/accountDeletionService.js:1966-1996,
    src/services/membershipService.js:1749-1754, 1847-1900). */
module Crossing {
  import A = ClientAccount
  import C = ClientSaga
  import P = Payments
  import R = PaymentRuns

  /** One saga per client beside the shared payment tables; the membership count inside a
      saga's account is not used, the tables are read instead. */
  datatype World = World(pay: P.State, sagas: map<int, C.World>)

  datatype Label = Payment(p: P.Label) | Deletion(client: int, d: C.Label)

  function LiveOf(s: P.State, client: int): set<int> {
    set k | k in s.subs && s.subs[k].state != P.Terminada && s.subs[k].client == client
  }

  /** A client's saga with the memberships the tables hold. */
  function View(w: World, client: int): C.World
    requires client in w.sagas
  {
    var g := w.sagas[client];
    g.(a := g.a.(memberships := |LiveOf(w.pay, client)|))
  }

  /** What a confirmation finds out about the client: the identity lock, the account, and
      whether a deletion is under way. */
  function OwnerOf(w: World, client: int): P.Owner {
    if client !in w.sagas then P.Owner(true, false, false)
    else
      var g := w.sagas[client];
      P.Owner(!g.runner.Idle?,
              A.ContextFound(g.a) && g.a.user.active && g.a.user.access && !g.a.user.deleted,
              C.Rank(g.a.request.estado) >= 1)
  }

  function SaleClient(s: P.State, attempt: int): int { if P.InPhase(s, attempt) then P.ClientOf(s, s.sales[attempt].intent) else 0 }

  /** Payment steps see the owner as it is; deletion is a step of its own. */
  function Seen(w: World, p: P.Label): P.Label {
    match p
    case ConfirmSale(attempt, _) => P.ConfirmSale(attempt, OwnerOf(w, SaleClient(w.pay, attempt)))
    case RecoverStep(id, client, _) => P.RecoverStep(id, client, OwnerOf(w, client))
    case ReconcileStep(id, client, _) => P.ReconcileStep(id, client, OwnerOf(w, client))
    case StatusPays(id, client, _, transaction) => P.StatusPays(id, client, OwnerOf(w, client), transaction)
    case DeletionProcesses(_) => P.Tick(0)
    case _ => p
  }

  /** A preview is blocked by the client's active payment intents. */
  function Previewed(w: World, client: int, d: C.Label): C.Label {
    match d
    case ExecuteStep(recent, blocked, after) => C.ExecuteStep(recent, blocked || P.HasActiveIntents(w.pay, client), after)
    case ConfirmStep(blocked) => C.ConfirmStep(blocked || P.HasActiveIntents(w.pay, client))
    case _ => d
  }

  function Apply(w: World, l: Label): World {
    match l
    case Payment(p) => w.(pay := P.Apply(w.pay, Seen(w, p)))
    case Deletion(client, d) =>
      if client !in w.sagas then w
      else
        var v := C.Apply(View(w, client), Previewed(w, client, d));
        var processed := C.Rank(w.sagas[client].a.request.estado) == 0 && C.Rank(v.a.request.estado) >= 1;
        World(if processed then P.CancelFor(w.pay, client) else w.pay, w.sagas[client := v])
  }

  function Run(w: World, labels: seq<Label>): World {
    if labels == [] then w else Apply(Run(w, labels[..|labels| - 1]), labels[|labels| - 1])
  }

  // ------------------------------------------------------------ the invariant

  ghost predicate Inv(w: World) {
    R.Inv(w.pay) && forall c :: c in w.sagas ==> C.Inv(View(w, c))
  }

  ghost predicate Begins(w: World) {
    w.pay == P.Init() && forall c :: c in w.sagas ==> C.Begins(w.sagas[c])
  }

  lemma LeavingIsExecution(g: C.World, d: C.Label)
    requires C.Inv(g) && C.Rank(g.a.request.estado) == 0 && C.Rank(C.Apply(g, d).a.request.estado) >= 1
    ensures d.ExecuteStep? && !d.blocked && C.Apply(g, d) == g.(a := A.Processed(g.a))
  {
  }

  lemma CancelEndsAll(s: P.State, client: int)
    ensures LiveOf(P.CancelFor(s, client), client) == {}
    ensures forall c :: c != client ==> LiveOf(P.CancelFor(s, client), c) == LiveOf(s, c)
  {
    assert forall k :: k !in LiveOf(P.CancelFor(s, client), client);
    forall c | c != client ensures LiveOf(P.CancelFor(s, client), c) == LiveOf(s, c) {}
  }

  /** The only step that starts processing a client is an execution for that client, taken
      while no payment intent of the client is active; it ends the client's memberships and
      no other client's. */
  lemma ProcessingIsExecution(w: World, l: Label, client: int)
    requires Inv(w) && client in w.sagas && C.Rank(w.sagas[client].a.request.estado) == 0
    requires client in Apply(w, l).sagas && C.Rank(Apply(w, l).sagas[client].a.request.estado) >= 1
    ensures l.Deletion? && l.client == client && l.d.ExecuteStep?
    ensures forall id :: id in w.pay.intents && OwedBy(w.pay, w.pay.intents[id].order, client) ==>
      w.pay.intents[id].state in {P.Confirmado, P.Fallido, P.Expirado}
    ensures var v := Apply(w, l).pay;
      && (forall o :: o in w.pay.orders <==> o in v.orders)
      && forall o :: o in v.orders ==>
           v.orders[o] == (if OwedBy(w.pay, o, client) && w.pay.orders[o].state == P.PendientePago
                           then w.pay.orders[o].(state := P.Cancelada) else w.pay.orders[o])
    ensures LiveOf(Apply(w, l).pay, client) == {}
    ensures forall c :: c != client ==> LiveOf(Apply(w, l).pay, c) == LiveOf(w.pay, c)
  {
    LeavingIsExecution(View(w, client), Previewed(w, client, l.d));
    CancelEndsAll(w.pay, client);
    forall id | id in w.pay.intents && OwedBy(w.pay, w.pay.intents[id].order, client)
      ensures w.pay.intents[id].state in {P.Confirmado, P.Fallido, P.Expirado}
    {
      assert !P.ActiveIntent(w.pay, id, client);
    }
  }

  predicate OwedBy(s: P.State, order: int, client: int) { order in s.orders && s.orders[order].client == client }

  lemma DeletionKeeps(w: World, client: int, d: C.Label)
    requires Inv(w)
    ensures Inv(Apply(w, Deletion(client, d)))
  {
    if client in w.sagas {
      var g := View(w, client);
      var l := Previewed(w, client, d);
      var v := Apply(w, Deletion(client, d));
      C.StepKeeps(g, l);
      if C.Rank(g.a.request.estado) == 0 && C.Rank(C.Apply(g, l).a.request.estado) >= 1 {
        LeavingIsExecution(g, l);
        R.CancelKeeps(w.pay, client);
        CancelEndsAll(w.pay, client);
      }
      forall c | c in v.sagas ensures C.Inv(View(v, c)) {
        if c == client {
          CountStands(w, client, l);
        } else {
          assert View(v, c) == View(w, c);
        }
      }
    }
  }

  /** The count a deletion step leaves in the account is the tables' count wherever it matters. */
  lemma CountStands(w: World, client: int, l: C.Label)
    requires Inv(w) && client in w.sagas
    requires C.Inv(C.Apply(View(w, client), l))
    ensures var g := C.Apply(View(w, client), l);
      var s := if C.Rank(w.sagas[client].a.request.estado) == 0 && C.Rank(g.a.request.estado) >= 1
               then P.CancelFor(w.pay, client) else w.pay;
      C.Inv(g.(a := g.a.(memberships := |LiveOf(s, client)|)))
  {
    CancelEndsAll(w.pay, client);
    var view := View(w, client);
    var g := C.Apply(view, l);
    if C.Rank(g.a.request.estado) >= 1 && C.Rank(view.a.request.estado) >= 1 {
      C.StepAdvances(view, l);
      assert |LiveOf(w.pay, client)| == 0;
    }
    CountKeepsInv(g, if C.Rank(view.a.request.estado) == 0 && C.Rank(g.a.request.estado) >= 1
                     then 0 else |LiveOf(w.pay, client)|);
  }

  lemma CountKeepsInv(g: C.World, n: nat)
    requires C.Inv(g) && (C.Rank(g.a.request.estado) >= 1 ==> n == 0)
    ensures C.Inv(g.(a := g.a.(memberships := n)))
  {
    var h := g.(a := g.a.(memberships := n));
    assert C.SnapshotHeld(g.a) == C.SnapshotHeld(h.a) && C.SnapshotCleared(g.a) == C.SnapshotCleared(h.a);
  }

  /** The label confirms nothing for a client whose deletion is under way. */
  predicate Spares(s: P.State, l: P.Label, client: int) {
    match l
    case ConfirmSale(attempt, owner) => SaleClient(s, attempt) == client ==> owner.deleting
    case RecoverStep(_, c, owner) => c == client ==> owner.deleting
    case ReconcileStep(_, c, owner) => c == client ==> owner.deleting
    case _ => true
  }

  lemma ConfirmAddsFor(s: P.State, id: int, c: int, owner: P.Owner, e: P.Evidence, allowExpired: bool, client: int)
    requires c == client ==> owner.deleting
    ensures LiveOf(P.Confirm(s, id, c, owner, e, allowExpired).state, client) <= LiveOf(s, client)
  {
  }

  lemma RecoverAddsFor(s: P.State, id: int, c: int, owner: P.Owner, client: int)
    requires c == client ==> owner.deleting
    ensures LiveOf(P.Recover(s, id, c, owner).state, client) <= LiveOf(s, client)
  {
    if P.Newest(s.events, id).Some? {
      ConfirmAddsFor(s, id, c, owner, P.Newest(s.events, id).value, true, client);
    }
  }

  lemma PaymentAddsNone(s: P.State, l: P.Label, client: int)
    requires R.Inv(s) && Spares(s, l, client) && !l.DeletionProcesses?
    ensures LiveOf(P.Apply(s, l), client) <= LiveOf(s, client)
  {
    if l.ConfirmSale? {
      if P.InPhase(s, l.attempt) && s.sales[l.attempt].phase.Persisted? {
        var id := s.sales[l.attempt].intent;
        var ph := s.sales[l.attempt].phase;
        ConfirmAddsFor(s, id, P.ClientOf(s, id), l.owner, P.SaleEvidence(s, id, ph.uuid, ph.transaction), false, client);
      }
    } else if l.RecoverStep? {
      RecoverAddsFor(s, l.id, l.client, l.owner, client);
    } else if l.ReconcileStep? {
      R.NeverQueries(s, l.id, l.client, l.owner);
      RecoverAddsFor(s, l.id, l.client, l.owner, client);
    } else if l.NewIntent? {
      var expiry := R.NewIntentAdds(s, l.order, l.client, l.newId);
    } else if !l.RenewalDue? {
      SubsUntouched(s, l);
    }
  }

  lemma SubsUntouched(s: P.State, l: P.Label)
    requires s.queries == {}
    requires !l.ConfirmSale? && !l.RecoverStep? && !l.ReconcileStep? && !l.NewIntent? && !l.RenewalDue? && !l.DeletionProcesses?
    ensures P.Apply(s, l).subs == s.subs
  {
  }

  lemma PaymentKeeps(w: World, p: P.Label)
    requires Inv(w)
    ensures Inv(Apply(w, Payment(p)))
  {
    var l := Seen(w, p);
    var v := Apply(w, Payment(p));
    R.StepKeeps(w.pay, l);
    forall c | c in v.sagas ensures C.Inv(View(v, c)) {
      var g := View(w, c);
      assert C.Inv(g);
      if C.Rank(g.a.request.estado) >= 1 {
        assert |LiveOf(w.pay, c)| == 0;
        PaymentAddsNone(w.pay, l, c);
      }
      CountKeepsInv(g, |LiveOf(v.pay, c)|);
    }
  }

  lemma StepKeeps(w: World, l: Label)
    requires Inv(w)
    ensures Inv(Apply(w, l)) && Apply(w, l).sagas.Keys == w.sagas.Keys
  {
    match l
    case Payment(p) => PaymentKeeps(w, p);
    case Deletion(client, d) => DeletionKeeps(w, client, d);
  }

  lemma {:induction false} RunKeeps(w: World, labels: seq<Label>)
    requires Inv(w)
    ensures Inv(Run(w, labels)) && Run(w, labels).sagas.Keys == w.sagas.Keys
  {
    if labels != [] {
      RunKeeps(w, labels[..|labels| - 1]);
      StepKeeps(Run(w, labels[..|labels| - 1]), labels[|labels| - 1]);
    }
  }

  lemma BeginsInv(w: World)
    requires Begins(w)
    ensures Inv(w)
  {
    R.InitInv();
    forall c | c in w.sagas ensures C.Inv(View(w, c)) {
      assert C.Begins(w.sagas[c]);
    }
  }

  /** In every interleaving of payments and deletions, a client whose deletion request is in
      `procesando` or later has no live membership. */
  lemma NoMembershipUnderDeletion(w: World, labels: seq<Label>, client: int)
    requires Begins(w) && client in w.sagas
    ensures var v := Run(w, labels);
      client in v.sagas && (C.Rank(v.sagas[client].a.request.estado) >= 1 ==> LiveOf(v.pay, client) == {})
  {
    BeginsInv(w);
    RunKeeps(w, labels);
    var v := Run(w, labels);
    assert C.Inv(View(v, client));
  }

  /** The client's account is in use and no deletion has begun or holds it. */
  predicate InUse(w: World, client: int) {
    && client in w.sagas && w.sagas[client].runner.Idle?
    && w.sagas[client].a.client == A.Client(true, false, false)
    && w.sagas[client].a.user.active && w.sagas[client].a.user.access && !w.sagas[client].a.user.deleted
    && w.sagas[client].a.request.estado !in {A.Procesando, A.StoragePendiente, A.AuthPendiente, A.Completada}
  }

  /** Beside deletions, stored evidence of an unconfirmed intent is recovered exactly when it came
      in time, the order can still be served and its client's account is in use. */
  lemma RecoversBesideIff(w: World, id: int, client: int, seen: P.Owner, k: nat)
    requires Inv(w) && k < |w.pay.events| && w.pay.events[k].intent == id && id in w.pay.intents
    requires w.pay.orders[w.pay.intents[id].order].client == client && w.pay.intents[id].state != P.Confirmado
    ensures var v, o, e := Apply(w, Payment(P.RecoverStep(id, client, seen))), w.pay.orders[w.pay.intents[id].order], w.pay.events[k];
      && id in v.pay.intents
      && (v.pay.intents[id].state == P.Confirmado <==>
            && R.InTime(w.pay, id, e.at) && InUse(w, client) && o.snapshotOk && o.state != P.Cancelada
            && (e.uuid in w.pay.payments ==> w.pay.payments[e.uuid] == id))
  {
    var owner := OwnerOf(w, client);
    R.RecoversIff(w.pay, id, client, owner, k);
    RecoveredOrSame(w.pay, id, client, owner);
    assert R.EvidenceOk(w.pay, w.pay.events[k]);
  }

  lemma RecoveredOrSame(s: P.State, id: int, client: int, owner: P.Owner)
    ensures !P.Recover(s, id, client, owner).reply.Activated? ==> P.Recover(s, id, client, owner).state == s
  {
  }

  lemma StepAdvances(w: World, l: Label, client: int)
    requires Inv(w) && client in w.sagas && C.Rank(w.sagas[client].a.request.estado) >= 1
    ensures client in Apply(w, l).sagas
    ensures C.Rank(w.sagas[client].a.request.estado) <= C.Rank(Apply(w, l).sagas[client].a.request.estado)
  {
    if l.Deletion? && l.client == client {
      assert C.Inv(View(w, client));
      C.StepAdvances(View(w, client), Previewed(w, client, l.d));
    }
  }

  lemma {:induction false} RunAdvances(w: World, labels: seq<Label>, client: int)
    requires Inv(w) && client in w.sagas && C.Rank(w.sagas[client].a.request.estado) >= 1
    ensures client in Run(w, labels).sagas
    ensures C.Rank(w.sagas[client].a.request.estado) <= C.Rank(Run(w, labels).sagas[client].a.request.estado)
  {
    if labels != [] {
      RunAdvances(w, labels[..|labels| - 1], client);
      RunKeeps(w, labels[..|labels| - 1]);
      StepAdvances(Run(w, labels[..|labels| - 1]), labels[|labels| - 1], client);
    }
  }

  /** And it never gains one: from then on the request stays there and every later state is
      without a live membership. */
  lemma NeverGainsOne(w: World, labels: seq<Label>, client: int)
    requires Inv(w) && client in w.sagas && C.Rank(w.sagas[client].a.request.estado) >= 1
    ensures var v := Run(w, labels);
      && client in v.sagas && C.Rank(w.sagas[client].a.request.estado) <= C.Rank(v.sagas[client].a.request.estado)
      && LiveOf(v.pay, client) == {}
  {
    RunKeeps(w, labels);
    RunAdvances(w, labels, client);
    assert C.Inv(View(Run(w, labels), client));
  }
}
