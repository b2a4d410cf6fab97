/** The rows one client's account deletion reads and writes, and each of its transactions
    (src/services/accountDeletionService.js:1048-4434). */
module ClientAccount {

  datatype Option<T> = None | Some(value: T)

  datatype Estado =
    | PendienteConfirmacion | Bloqueada | Evaluada | Procesando | StoragePendiente | AuthPendiente
    | Completada | Rechazada | Cancelada

  datatype Request = Request(
    estado: Estado, reauthenticated: bool, processedAt: bool, completedAt: bool, authPending: bool,
    assetIds: Option<set<int>>, storagePending: nat)

  datatype User = User(active: bool, access: bool, hasPassword: bool, deleted: bool)

  datatype Client = Client(active: bool, deleted: bool, anonymized: bool)

  /** `photo` is the referenced asset, `strayPhoto` a photo path that names no single location. */
  datatype Person = Person(
    redacted: bool, deleted: bool, emailsTombstoned: bool, emailShared: bool, photo: Option<int>, strayPhoto: bool)

  datatype AssetStatus = Temporal | Activo | Reemplazado | Fallido | Eliminado

  datatype Path = Original | Tombstone

  datatype Receipt = NoReceipt | DeletedBy(request: int) | FailedAttempt

  /** Whom a row names as owner and entity: the client as both, the client or its person or user
      somewhere but not as both, only others, or nobody. */
  datatype Link = OfClient | Contradictory | OfOthers | Unlinked

  /** `certified`: scope, entity, bucket, visibility and path are those of a client profile
      and nobody else refers to the object. */
  datatype Asset = Asset(
    status: AssetStatus, deleted: bool, link: Link, certified: bool, path: Path,
    quarantine: Option<int>, receipt: Receipt)

  /** `objects` are the assets whose stored object exists; `id` is the deletion request's. */
  datatype Account = Account(
    id: int, request: Request, user: User, client: Client, person: Person, rolesActive: bool, protectedUser: bool,
    memberships: nat, points: int, assets: map<int, Asset>, objects: set<int>, authExists: bool)

  datatype Code =
    | RequestNotFound | RequestStateInvalid | ReauthExpired | ContextNotFound | PointsNotClosed
    | AnonymizationStateInvalid | InternalPrecondition | OwnershipInvalid | VerificationFailed
    | StorageStateInvalid | StoragePrecondition | StorageReferencesInvalid | StorageAssetNotFound
    | AuthStateInvalid | AuthPrecondition | AuthTemporaryFailure | AuthVerificationFailed
    | ConfirmationStateInvalid | ExecutionStateInvalid | DeletionBlocked | ReauthRequired

  datatype Reply = Done | Replayed | BlockedNow | Partial(failed: nat) | Denied(status: int, code: Code)

  datatype Result = Result(account: Account, reply: Reply)

  function Deny(a: Account, status: int, code: Code): Result { Result(a, Denied(status, code)) }

  // ------------------------------------------------------------ confirmation

  function ContextFound(a: Account): bool { a.client.active && !a.client.deleted && !a.client.anonymized }

  /** `blocked` is what the preview finds beside the protection of the account. */
  function Confirm(a: Account, blocked: bool): Result {
    var r := a.request;
    if r.estado == Evaluada && r.reauthenticated then Result(a, Replayed)
    else if r.estado != PendienteConfirmacion && r.estado != Bloqueada then Deny(a, 409, ConfirmationStateInvalid)
    else if !ContextFound(a) then Deny(a, 404, ContextNotFound)
    else if blocked || a.protectedUser then
      Result(a.(request := r.(estado := Bloqueada, reauthenticated := false)), BlockedNow)
    else Result(a.(request := r.(estado := Evaluada, reauthenticated := true)), Done)
  }

  // --------------------------------------------------------------- execution

  /** The balance the final check reads: a positive one is first forfeited. */
  function ClosingBalance(points: int, afterForfeit: int): int { if points > 0 then afterForfeit else points }

  function Processed(a: Account): Account {
    a.(request := a.request.(estado := Procesando, processedAt := true, authPending := true),
       memberships := 0, points := 0, rolesActive := false,
       user := User(false, false, false, true),
       client := a.client.(active := false, deleted := true))
  }

  function Execute(a: Account, recent: bool, blocked: bool, afterForfeit: int): Result {
    var r := a.request;
    if r.estado == Procesando then Result(a, Replayed)
    else if r.estado != Evaluada || !r.reauthenticated then Deny(a, 409, RequestStateInvalid)
    else if !recent then Deny(a, 401, ReauthExpired)
    else if !ContextFound(a) then Deny(a, 404, ContextNotFound)
    else if blocked || a.protectedUser then
      Result(a.(request := r.(estado := Bloqueada, reauthenticated := false, processedAt := false, authPending := false)),
             BlockedNow)
    else if ClosingBalance(a.points, afterForfeit) != 0 then Deny(a, 500, PointsNotClosed)
    else Result(Processed(a), Done)
  }

  // ------------------------------------------------------------ anonymization

  predicate UserOff(u: User) { !u.active && !u.access && !u.hasPassword && u.deleted }

  predicate ReadyToAnonymize(a: Account) {
    && UserOff(a.user) && !a.client.active && a.client.deleted && !a.client.anonymized
    && !a.rolesActive && a.memberships == 0 && a.points <= 0
  }

  /** The client's live assets, by ownership or by the photo reference. */
  function SelectedAssets(a: Account): set<int> {
    set id | id in a.assets && !a.assets[id].deleted && a.assets[id].status != Eliminado
             && (a.assets[id].link == OfClient || a.assets[id].link == Contradictory || a.person.photo == Some(id))
  }

  predicate UnresolvedPhoto(a: Account) {
    (a.person.photo.Some? && a.person.photo.value !in a.assets) || (a.person.photo.None? && a.person.strayPhoto)
  }

  /** Ownership of one asset, checked for a request or, before there is a snapshot, for none. */
  predicate Belongs(x: Asset, request: Option<int>) {
    && x.certified
    && if x.status == Eliminado && x.deleted
       then request.Some? && x.receipt == DeletedBy(request.value) && x.link == Unlinked && x.path == Tombstone
       else !x.deleted && x.link == OfClient && x.status != Eliminado && x.path == Original
            && (x.quarantine.Some? ==> x.quarantine == request)
  }

  predicate AllBelong(a: Account, ids: set<int>, request: Option<int>) {
    forall id :: id in ids ==> id in a.assets && Belongs(a.assets[id], request)
  }

  function Anonymized(a: Account): Account {
    var ids := SelectedAssets(a);
    a.(request := a.request.(estado := if ids == {} then AuthPendiente else StoragePendiente,
                             assetIds := Some(ids), storagePending := |ids|, authPending := true),
       user := User(false, false, false, true),
       client := Client(false, true, true),
       person := Person(true, true, true, a.person.emailShared, None, false))
  }

  /** `redacts`: the redaction of copied data and its check succeed. */
  function Anonymize(a: Account, redacts: bool): Result {
    var r := a.request;
    if !r.authPending then Deny(a, 404, RequestNotFound)
    else if (r.estado == StoragePendiente || r.estado == AuthPendiente) && a.client.anonymized then Result(a, Replayed)
    else if r.estado != Procesando || !r.processedAt then Deny(a, 409, AnonymizationStateInvalid)
    else if !ReadyToAnonymize(a) then Deny(a, 409, InternalPrecondition)
    else if UnresolvedPhoto(a) || !AllBelong(a, SelectedAssets(a), None) then Deny(a, 409, OwnershipInvalid)
    else if !redacts || a.person.emailShared then Deny(a, 500, VerificationFailed)
    else Result(Anonymized(a), Done)
  }

  // ----------------------------------------------------------------- storage

  predicate ReadyForStorage(a: Account) {
    && !a.client.active && a.client.deleted && a.client.anonymized
    && !a.user.active && !a.user.access && a.user.deleted
  }

  function QuarantinedRow(x: Asset, request: int): Asset {
    if x.status != Eliminado then x.(status := Fallido, quarantine := Some(request)) else x
  }

  function Quarantined(a: Account, ids: set<int>): Account {
    a.(assets := map id | id in a.assets :: if id in ids then QuarantinedRow(a.assets[id], a.id) else a.assets[id])
  }

  function PrepareStorage(a: Account): Result {
    var r := a.request;
    if !r.authPending then Deny(a, 404, RequestNotFound)
    else if r.estado == AuthPendiente && a.client.anonymized then Result(a, Replayed)
    else if r.estado != StoragePendiente || !r.processedAt then Deny(a, 409, StorageStateInvalid)
    else if !ReadyForStorage(a) then Deny(a, 409, StoragePrecondition)
    else if r.assetIds.None? then Deny(a, 500, StorageReferencesInvalid)
    else if !(r.assetIds.value <= a.assets.Keys) then Deny(a, 500, StorageAssetNotFound)
    else if !AllBelong(a, r.assetIds.value, Some(a.id)) then Deny(a, 409, OwnershipInvalid)
    else if UnresolvedPhoto(a) || !AllBelong(a, SelectedAssets(a), Some(a.id)) then Deny(a, 409, OwnershipInvalid)
    else if !(SelectedAssets(a) <= r.assetIds.value) then Deny(a, 409, OwnershipInvalid)
    else Result(Quarantined(a, r.assetIds.value), Done)
  }

  datatype AssetResult = AlreadyDeleted | Removed | Failed

  function TombstoneOf(x: Asset, request: int): Asset {
    x.(status := Eliminado, deleted := true, link := Unlinked, path := Tombstone, quarantine := None,
       receipt := DeletedBy(request))
  }

  function FailureOf(x: Asset): Asset { x.(status := Fallido, receipt := FailedAttempt) }

  function Settled(x: Asset, r: AssetResult, request: int): Asset {
    match r
    case AlreadyDeleted => x
    case Removed => TombstoneOf(x, request)
    case Failed => FailureOf(x)
  }

  function FailedIds(results: map<int, AssetResult>): set<int> { set id | id in results && results[id] == Failed }

  function Applied(a: Account, ids: set<int>, results: map<int, AssetResult>): map<int, Asset> {
    map id | id in a.assets :: if id in ids && id in results then Settled(a.assets[id], results[id], a.id) else a.assets[id]
  }

  function FinalizeStorage(a: Account, results: map<int, AssetResult>): Result {
    var r := a.request;
    if !r.authPending then Deny(a, 404, RequestNotFound)
    else if r.estado != StoragePendiente || !r.processedAt then Deny(a, 409, StorageStateInvalid)
    else if r.assetIds.None? then Deny(a, 500, StorageReferencesInvalid)
    else if !(r.assetIds.value <= a.assets.Keys) then Deny(a, 500, StorageAssetNotFound)
    else if !AllBelong(a, r.assetIds.value, Some(a.id)) then Deny(a, 409, OwnershipInvalid)
    else
      var failed := FailedIds(results);
      Result(a.(assets := Applied(a, r.assetIds.value, results),
                request := r.(estado := if failed == {} then AuthPendiente else StoragePendiente,
                              storagePending := |failed|, authPending := true)),
             if failed == {} then Done else Partial(|failed|))
  }

  /** The shortcut for an empty snapshot; it does not look at the state of the request. */
  function MarkNoAssets(a: Account): Result {
    if !a.request.authPending then Deny(a, 404, RequestNotFound)
    else Result(a.(request := a.request.(estado := AuthPendiente, storagePending := 0)), Done)
  }

  // -------------------------------------------------------------------- Auth

  predicate GoneFor(a: Account, ids: set<int>) {
    forall id :: id in ids ==>
      id in a.assets && a.assets[id].status == Eliminado && a.assets[id].deleted && a.assets[id].link == Unlinked
  }

  predicate ReadyForAuth(a: Account) {
    && a.request.assetIds.Some? && a.request.storagePending == 0
    && UserOff(a.user) && a.client == Client(false, true, true)
    && a.person.redacted && a.person.deleted && a.person.emailsTombstoned
    && !a.rolesActive && !a.protectedUser && a.memberships == 0 && a.points <= 0
    && GoneFor(a, a.request.assetIds.value)
  }

  function PrepareAuth(a: Account): Result {
    var r := a.request;
    if r.estado == Completada && r.completedAt && !r.authPending then Result(a, Replayed)
    else if r.estado != AuthPendiente || !r.processedAt || r.completedAt || !r.authPending then
      Deny(a, 409, AuthStateInvalid)
    else if !ReadyForAuth(a) then Deny(a, 409, AuthPrecondition)
    else Result(a, Done)
  }

  function FinalizeAuth(a: Account): Result {
    var p := PrepareAuth(a);
    if !p.reply.Done? then p
    else Result(a.(request := a.request.(estado := Completada, completedAt := true, authPending := false,
                                         storagePending := 0)), Done)
  }

  // ------------------------------------------------------- one run of a stage

  /** Whether the object of an asset is gone after the attempt to remove it. */
  function Attempt(a: Account, id: int, gone: int -> bool): AssetResult
    requires id in a.assets
  {
    if a.assets[id].status == Eliminado && a.assets[id].deleted then AlreadyDeleted
    else if id !in a.objects || gone(id) then Removed
    else Failed
  }

  function Attempts(a: Account, ids: set<int>, gone: int -> bool): map<int, AssetResult>
    requires ids <= a.assets.Keys
  {
    map id | id in ids :: Attempt(a, id, gone)
  }

  function AfterRemovals(a: Account, results: map<int, AssetResult>): Account {
    a.(objects := set id | id in a.objects && (id !in results || results[id] != Removed))
  }

  function StorageStage(a: Account, gone: int -> bool): Result {
    var p := PrepareStorage(a);
    if !p.reply.Done? || p.account.request.assetIds.None? || !(p.account.request.assetIds.value <= p.account.assets.Keys)
    then p
    else
      var ids := p.account.request.assetIds.value;
      if ids == {} then MarkNoAssets(p.account)
      else
        var results := Attempts(p.account, ids, gone);
        FinalizeStorage(AfterRemovals(p.account, results), results)
  }

  /** What the Auth provider does during one run: which lookups answer, whether the delete
      takes effect, and whether its answer says so. */
  datatype AuthCalls = AuthCalls(
    lookupAnswers: bool, deleteWorks: bool, deleteConfirmed: bool, firstCheckAnswers: bool, secondCheckAnswers: bool)

  function AuthStage(a: Account, calls: AuthCalls): Result {
    var p := PrepareAuth(a);
    if !p.reply.Done? then p
    else if !calls.lookupAnswers then Deny(a, 503, AuthTemporaryFailure)
    else if !a.authExists then FinalizeAuth(a)
    else
      var b := if calls.deleteWorks then a.(authExists := false) else a;
      if !calls.deleteConfirmed && (!calls.firstCheckAnswers || b.authExists) then Deny(b, 503, AuthTemporaryFailure)
      else if !calls.secondCheckAnswers then Deny(b, 503, AuthTemporaryFailure)
      else if b.authExists then Deny(b, 503, AuthVerificationFailed)
      else FinalizeAuth(b)
  }
}
