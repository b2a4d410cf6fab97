/** Membership payments: the tables, each transaction, and the steps of a sale
    (src/services/membershipService.js:1362-2526). */
module Payments {

  datatype Option<T> = None | Some(value: T)

  datatype IntentState = Creado | LinkGenerado | PendienteConfirmacion | Confirmado | Fallido | Expirado

  datatype Intent = Intent(order: int, amount: int, currency: int, state: IntentState, session: Option<int>, expiresAt: int)

  datatype OrderState = PendientePago | Pagada | Cancelada

  /** `snapshotOk`: the plan snapshot has its benefits and its period. */
  datatype Order = Order(
    client: int, branch: int, amount: int, currency: int, state: OrderState, expiresAt: Option<int>, snapshotOk: bool,
    subscription: Option<int>)

  datatype SubState = Activa | PendienteRenovacion | Terminada

  datatype Subscription = Subscription(client: int, branch: int, order: int, state: SubState)

  /** A stored `approved_verified` event; ids are 0 when empty. */
  datatype Evidence = Evidence(
    intent: int, order: int, amount: int, currency: int, uuid: int, transaction: int, hashValid: bool, amountMatches: bool,
    at: int)

  /** What the confirmation reads of the client who owns the order. */
  datatype Owner = Owner(locked: bool, active: bool, deleting: bool)

  /** What the provider's sale call comes back with. */
  datatype Outcome = Approved(uuid: int, transaction: int) | Declined | Uncertain | DefinitiveError | UncertainError

  datatype Phase = Claimed | InFlight | Returned(outcome: Outcome) | Persisted(uuid: int, transaction: int)

  datatype Sale = Sale(intent: int, phase: Phase)

  /** `claimed`, `charges` and `activations` log what happened: intents ever claimed, sale
      calls issued per intent, activations per order. */
  datatype State = State(
    now: int, orders: map<int, Order>, intents: map<int, Intent>, subs: map<int, Subscription>, nextSub: int,
    events: seq<Evidence>, payments: map<int, int>, sales: map<int, Sale>, queries: set<int>,
    claimed: set<int>, charges: map<int, nat>, activations: map<int, nat>)

  datatype Code =
    | AccountUnavailable | IntentNotFound | Forbidden | AlreadyProcessed | IntentStateInvalid | EvidenceInvalid
    | SnapshotInvalid | ProviderTxConflict | RecoveryEvidenceInvalid | VerifiedAfterExpiry
    | PendingScopeConflict | SaleInProgress | IntentExpired | CardExpired
    | OrderNotFound | OrderStateInvalid | OrderExpired | AmountInvalid | IntentConflict

  datatype Reply = Activated(subscription: int) | Duplicate | Done | Reused | Denied(status: int, code: Code)

  datatype Result = Result(state: State, reply: Reply)

  function Deny(s: State, status: int, code: Code): Result { Result(s, Denied(status, code)) }

  // --------------------------------------------------------------- creation

  function CreateIntent(s: State, order: int, client: int, newId: int): Result {
    if order !in s.orders then Deny(s, 404, OrderNotFound)
    else
      var o := s.orders[order];
      if o.client != client then Deny(s, 403, Forbidden)
      else if o.state != PendientePago then Deny(s, 409, OrderStateInvalid)
      else if o.expiresAt.Some? && o.expiresAt.value <= s.now then Deny(s, 410, OrderExpired)
      else if o.amount <= 0 then Deny(s, 409, AmountInvalid)
      else if exists id :: id in s.intents && s.intents[id].order == order then
        if exists id :: id in s.intents && s.intents[id].order == order
             && (s.intents[id].amount != o.amount || s.intents[id].currency != o.currency)
        then Deny(s, 409, IntentConflict) else Result(s, Reused)
      else
        var expiry := if o.expiresAt.Some? then o.expiresAt.value else s.now + 30;
        Result(s.(intents := s.intents[newId := Intent(order, o.amount, o.currency, LinkGenerado, None, expiry)]), Done)
  }

  // ------------------------------------------------------------------- sale

  function OrderDeadline(o: Order): int { if o.expiresAt.Some? then o.expiresAt.value else 0 }

  function Deadline(s: State, id: int): int
    requires id in s.intents && s.intents[id].order in s.orders
  {
    var e := OrderDeadline(s.orders[s.intents[id].order]);
    if s.intents[id].expiresAt < e then s.intents[id].expiresAt else e
  }

  /** Intent `id` is pending for the same client and branch. */
  predicate PendingInScope(s: State, id: int, client: int, branch: int) {
    && id in s.intents && s.intents[id].state == PendienteConfirmacion && s.intents[id].order in s.orders
    && s.orders[s.intents[id].order].client == client && s.orders[s.intents[id].order].branch == branch
  }

  function SetIntent(s: State, id: int, state: IntentState): State
    requires id in s.intents
  {
    s.(intents := s.intents[id := s.intents[id].(state := state)])
  }

  function Claim(s: State, attempt: int, id: int, client: int, cardValid: bool): Result {
    if id !in s.intents || s.intents[id].order !in s.orders then Deny(s, 404, IntentNotFound)
    else
      var o := s.orders[s.intents[id].order];
      if o.client != client then Deny(s, 403, Forbidden)
      else if s.intents[id].state == Confirmado then Result(s, Duplicate)
      else if exists j :: j in s.intents && j != id && PendingInScope(s, j, client, o.branch) then
        Deny(s, 409, PendingScopeConflict)
      else if s.intents[id].state != LinkGenerado then Deny(s, 409, SaleInProgress)
      else if Deadline(s, id) <= s.now then Deny(s, 409, IntentExpired)
      else if !cardValid then Deny(s, 400, CardExpired)
      else
        Result(SetIntent(s, id, PendienteConfirmacion).(
                 sales := s.sales[attempt := Sale(id, Claimed)], claimed := s.claimed + {id}), Done)
  }

  function ChargesOf(s: State, id: int): nat { if id in s.charges then s.charges[id] else 0 }

  function ActivationsOf(s: State, order: int): nat { if order in s.activations then s.activations[order] else 0 }

  function MoveSale(s: State, attempt: int, phase: Phase): State
    requires attempt in s.sales
  {
    s.(sales := s.sales[attempt := s.sales[attempt].(phase := phase)])
  }

  function EndSale(s: State, attempt: int): State { s.(sales := s.sales - {attempt}) }

  /** A sale that was not approved: an uncertain one stays pending, any other has failed. */
  function RecordFailure(s: State, id: int, outcome: Outcome): State {
    if id in s.intents && s.intents[id].state == PendienteConfirmacion && !outcome.Uncertain? && !outcome.UncertainError?
    then SetIntent(s, id, Fallido) else s
  }

  /** The durable evidence; the session is only written while the intent is pending. */
  function PersistEvidence(s: State, id: int, uuid: int, transaction: int): State
    requires id in s.intents
  {
    var i := s.intents[id];
    s.(intents := if i.state == PendienteConfirmacion then s.intents[id := i.(session := Some(uuid))] else s.intents,
       events := s.events + [Evidence(id, i.order, i.amount, i.currency, uuid, transaction, true, true, s.now)])
  }

  // ----------------------------------------------------------- confirmation

  predicate Live(x: Subscription) { x.state == Activa || x.state == PendienteRenovacion }

  function EndSubs(subs: map<int, Subscription>, client: int, branch: int): map<int, Subscription> {
    map k | k in subs ::
      if Live(subs[k]) && subs[k].client == client && subs[k].branch == branch then subs[k].(state := Terminada) else subs[k]
  }

  predicate EvidenceFits(e: Evidence, i: Intent) {
    && e.hashValid && e.amountMatches && e.amount == i.amount && e.currency == i.currency && e.uuid != 0 && e.transaction != 0
  }

  predicate Confirmable(state: IntentState, allowExpired: bool) {
    state == Creado || state == LinkGenerado || state == PendienteConfirmacion || (allowExpired && state == Expirado)
  }

  function Activate(s: State, id: int, uuid: int): State
    requires id in s.intents && s.intents[id].order in s.orders
  {
    var order := s.intents[id].order;
    var o := s.orders[order];
    SetIntent(s, id, Confirmado).(
      orders := s.orders[order := o.(state := Pagada, subscription := Some(s.nextSub))],
      subs := EndSubs(s.subs, o.client, o.branch)[s.nextSub := Subscription(o.client, o.branch, order, Activa)],
      nextSub := s.nextSub + 1,
      payments := s.payments[uuid := id],
      activations := s.activations[order := ActivationsOf(s, order) + 1])
  }

  function Confirm(s: State, id: int, client: int, owner: Owner, e: Evidence, allowExpired: bool): Result {
    if owner.locked then Deny(s, 409, AccountUnavailable)
    else if id !in s.intents || s.intents[id].order !in s.orders then Deny(s, 404, IntentNotFound)
    else
      var i := s.intents[id];
      var o := s.orders[i.order];
      if o.client != client then Deny(s, 403, Forbidden)
      else if i.state == Confirmado || o.state == Pagada then Deny(s, 409, AlreadyProcessed)
      else if !Confirmable(i.state, allowExpired) then Deny(s, 409, IntentStateInvalid)
      else if !EvidenceFits(e, i) then Deny(s, 409, EvidenceInvalid)
      else if !o.snapshotOk then Deny(s, 409, SnapshotInvalid)
      else if !owner.active || owner.deleting || o.state == Cancelada then Deny(s, 409, AccountUnavailable)
      else if e.uuid in s.payments && s.payments[e.uuid] != id then Deny(s, 409, ProviderTxConflict)
      else Result(Activate(s, id, e.uuid), Activated(s.nextSub))
  }

  /** The newest stored evidence of an intent. */
  function Newest(events: seq<Evidence>, id: int): Option<Evidence> {
    if events == [] then None
    else
      var e := events[|events| - 1];
      if e.intent == id then Some(e) else Newest(events[..|events| - 1], id)
  }

  function Recover(s: State, id: int, client: int, owner: Owner): Result {
    if owner.locked then Deny(s, 409, AccountUnavailable)
    else if id !in s.intents || s.intents[id].order !in s.orders then Deny(s, 409, RecoveryEvidenceInvalid)
    else
      var i := s.intents[id];
      var o := s.orders[i.order];
      var found := Newest(s.events, id);
      if i.state !in {PendienteConfirmacion, Confirmado, Expirado} || found.None? then Deny(s, 409, RecoveryEvidenceInvalid)
      else if o.client != client then Deny(s, 403, Forbidden)
      else if found.value.order != i.order || !EvidenceFits(found.value, i) then Deny(s, 409, RecoveryEvidenceInvalid)
      else if found.value.at > Deadline(s, id) then Deny(s, 409, VerifiedAfterExpiry)
      else if i.state == Confirmado && o.state == Pagada && o.subscription.Some? then Result(s, Duplicate)
      else Confirm(s, id, client, owner, found.value, true)
  }

  /** Reconciliation first recovers; only without usable evidence and with a known session
      does it go on to ask the provider, which `queries` records. */
  function Reconcile(s: State, id: int, client: int, owner: Owner): Result {
    var r := Recover(s, id, client, owner);
    if r.reply != Denied(409, RecoveryEvidenceInvalid) then r
    else if id !in s.intents || s.intents[id].order !in s.orders then Deny(s, 404, IntentNotFound)
    else
      var i := s.intents[id];
      var o := s.orders[i.order];
      if o.client != client then Deny(s, 403, Forbidden)
      else if i.state == Confirmado || o.state == Pagada || i.state == Fallido || i.session.None? then Result(s, Done)
      else Result(s.(queries := s.queries + {id}), Done)
  }

  function StatusRejected(s: State, id: int): State {
    if id in s.intents && (s.intents[id].state == PendienteConfirmacion || s.intents[id].state == Expirado)
    then SetIntent(s, id, Fallido) else s
  }

  function StatusPaid(s: State, id: int, client: int, owner: Owner, transaction: int): State {
    if id !in s.intents || s.intents[id].order !in s.orders || s.intents[id].session.None? || transaction == 0
       || s.now > Deadline(s, id) then s
    else
      var i := s.intents[id];
      var stored := s.(events := s.events + [Evidence(id, i.order, i.amount, i.currency, i.session.value, transaction, true, true, s.now)]);
      var r := Recover(stored, id, client, owner);
      if r.reply.Denied? then s else r.state
  }

  // ---------------------------------------------------------------- deletion

  predicate ActiveIntent(s: State, id: int, client: int) {
    && id in s.intents && s.intents[id].order in s.orders && s.orders[s.intents[id].order].client == client
    && s.intents[id].state in {Creado, LinkGenerado, PendienteConfirmacion}
  }

  predicate HasActiveIntents(s: State, client: int) { exists id :: id in s.intents && ActiveIntent(s, id, client) }

  /** What processing an account deletion does here. */
  function CancelFor(s: State, client: int): State {
    s.(subs := map k | k in s.subs ::
         if Live(s.subs[k]) && s.subs[k].client == client then s.subs[k].(state := Terminada) else s.subs[k],
       orders := map k | k in s.orders ::
         if s.orders[k].client == client && s.orders[k].state == PendientePago then s.orders[k].(state := Cancelada) else s.orders[k])
  }

  // --------------------------------------------------------------- the steps

  datatype Label =
    | Tick(minutes: nat)
    | NewOrder(order: int, o: Order)
    | NewIntent(order: int, client: int, newId: int)
    | ClaimStep(attempt: int, id: int, client: int, cardValid: bool)
    | IssueCharge(attempt: int)
    | SaleReturns(attempt: int, outcome: Outcome)
    | FailSale(attempt: int)
    | Persist(attempt: int)
    | ConfirmSale(attempt: int, owner: Owner)
    | CrashSale(attempt: int)
    | RecoverStep(id: int, client: int, owner: Owner)
    | ReconcileStep(id: int, client: int, owner: Owner)
    | StatusRejects(id: int)
    | StatusPays(id: int, client: int, owner: Owner, transaction: int)
    | Expire(id: int)
    | RenewalDue(sub: int)
    | DeletionProcesses(client: int)

  /** The one promise of the provider: an approval comes with its ids. */
  predicate Promised(outcome: Outcome) { outcome.Approved? ==> outcome.uuid != 0 && outcome.transaction != 0 }

  function SaleEvidence(s: State, id: int, uuid: int, transaction: int): Evidence
    requires id in s.intents
  {
    Evidence(id, s.intents[id].order, s.intents[id].amount, s.intents[id].currency, uuid, transaction, true, true, s.now)
  }

  /** The client a sale was claimed for: the owner of the order. */
  function ClientOf(s: State, id: int): int
    requires id in s.intents
  {
    if s.intents[id].order in s.orders then s.orders[s.intents[id].order].client else 0
  }

  predicate InPhase(s: State, attempt: int) { attempt in s.sales && s.sales[attempt].intent in s.intents }

  function Apply(s: State, l: Label): State {
    match l
    case Tick(minutes) => s.(now := s.now + minutes)
    case NewOrder(order, o) =>
      if order in s.orders then s else s.(orders := s.orders[order := o.(state := PendientePago, subscription := None)])
    case NewIntent(order, client, newId) =>
      if newId in s.intents || newId in s.claimed || newId in s.charges then s else CreateIntent(s, order, client, newId).state
    case ClaimStep(attempt, id, client, cardValid) =>
      if attempt in s.sales then s else Claim(s, attempt, id, client, cardValid).state
    case IssueCharge(attempt) =>
      if InPhase(s, attempt) && s.sales[attempt].phase == Claimed then
        var id := s.sales[attempt].intent;
        MoveSale(s, attempt, InFlight).(charges := s.charges[id := ChargesOf(s, id) + 1])
      else s
    case SaleReturns(attempt, outcome) =>
      if InPhase(s, attempt) && s.sales[attempt].phase == InFlight && Promised(outcome)
      then MoveSale(s, attempt, Returned(outcome)) else s
    case FailSale(attempt) =>
      if InPhase(s, attempt) && s.sales[attempt].phase.Returned? && !s.sales[attempt].phase.outcome.Approved?
      then EndSale(RecordFailure(s, s.sales[attempt].intent, s.sales[attempt].phase.outcome), attempt) else s
    case Persist(attempt) =>
      if InPhase(s, attempt) && s.sales[attempt].phase.Returned? && s.sales[attempt].phase.outcome.Approved? then
        var o := s.sales[attempt].phase.outcome;
        MoveSale(PersistEvidence(s, s.sales[attempt].intent, o.uuid, o.transaction), attempt, Persisted(o.uuid, o.transaction))
      else s
    case ConfirmSale(attempt, owner) =>
      if InPhase(s, attempt) && s.sales[attempt].phase.Persisted? then
        var id := s.sales[attempt].intent;
        EndSale(Confirm(s, id, ClientOf(s, id), owner, SaleEvidence(s, id, s.sales[attempt].phase.uuid, s.sales[attempt].phase.transaction), false).state,
                attempt)
      else s
    case CrashSale(attempt) => EndSale(s, attempt)
    case RecoverStep(id, client, owner) => Recover(s, id, client, owner).state
    case ReconcileStep(id, client, owner) => Reconcile(s, id, client, owner).state
    case StatusRejects(id) => if id in s.queries then StatusRejected(s, id) else s
    case StatusPays(id, client, owner, transaction) => if id in s.queries then StatusPaid(s, id, client, owner, transaction) else s
    case Expire(id) =>
      if id in s.intents && s.intents[id].state in {Creado, LinkGenerado, PendienteConfirmacion} && s.intents[id].expiresAt <= s.now
      then SetIntent(s, id, Expirado) else s
    case RenewalDue(sub) =>
      if sub in s.subs && s.subs[sub].state == Activa
      then s.(subs := s.subs[sub := s.subs[sub].(state := PendienteRenovacion)]) else s
    case DeletionProcesses(client) => if HasActiveIntents(s, client) then s else CancelFor(s, client)
  }

  function Run(s: State, labels: seq<Label>): State {
    if labels == [] then s else Apply(Run(s, labels[..|labels| - 1]), labels[|labels| - 1])
  }

  function Init(): State { State(0, map[], map[], map[], 0, [], map[], map[], {}, {}, map[], map[]) }
}
