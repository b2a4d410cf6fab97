/** Deletion of an approved staff account: transactions, runs with crashes and lost commits,
    and the orchestrator (src/services/accountDeletionService.js:5515-6452). */
module StaffDeletion {

  datatype Option<T> = None | Some(value: T)

  datatype Estado =
    | PendienteAprobacion | Aprobada | Procesando | StoragePendiente | AuthPendiente | Completada | Rechazada | Cancelada

  /** `certified`: a public portrait of one of the person's employments, at its own location
      and referred to by nobody else; `ambiguous`: a portrait without entity, known only by
      its uploader; `marked`: recorded as deleted. */
  datatype Asset = Asset(certified: bool, linked: bool, ambiguous: bool, marked: bool, quarantined: bool)

  datatype Account = Account(
    estado: Estado, approved: bool, processedAt: bool, completedAt: bool, authPending: bool,
    assetIds: Option<set<int>>, storageProcessed: bool,
    userActive: bool, userAccess: bool, userDeleted: bool, hasPassword: bool, rolesActive: bool, protectedRole: bool,
    protectedUser: bool, sessionsActive: bool, employeesActive: bool, sharedIdentity: bool,
    redacted: bool, emailsTombstoned: bool, photo: Option<int>, strayPhoto: bool,
    assets: map<int, Asset>, objects: set<int>, authExists: bool)

  datatype Code =
    | ApprovalRequired | StateInvalid | ProtectedAccount | DependenciesReappeared | OwnershipAmbiguous
    | AssetNotFound | StorageStateInvalid | AuthPreconditionFailed | AuthTemporaryFailure | StorageTemporaryFailure
    | DecisionAlreadyTaken | RetryStateInvalid

  datatype Reply = Done | Replayed | Incomplete | Denied(status: int, code: Code)

  datatype Result = Result(account: Account, reply: Reply)

  function Deny(a: Account, status: int, code: Code): Result { Result(a, Denied(status, code)) }

  // ------------------------------------------------------------ transactions

  function Approve(a: Account, blockers: bool): Result {
    if a.estado != PendienteAprobacion || a.approved then Deny(a, 409, DecisionAlreadyTaken)
    else if blockers || a.sharedIdentity then Deny(a, 409, DependenciesReappeared)
    else Result(a.(estado := Aprobada, approved := true), Done)
  }

  function SelectedAssets(a: Account): set<int> {
    set id | id in a.assets && (a.assets[id].linked || a.photo == Some(id) || (a.assets[id].ambiguous && !a.assets[id].marked))
  }

  predicate UnresolvedPhoto(a: Account) {
    (a.photo.Some? && a.photo.value !in a.assets) || (a.photo.None? && a.strayPhoto)
  }

  predicate Valid(x: Asset) { x.certified && x.linked && !x.ambiguous }

  predicate AllValid(a: Account, ids: set<int>) { forall id :: id in ids ==> id in a.assets && Valid(a.assets[id]) }

  function Processed(a: Account): Account {
    a.(estado := Procesando, processedAt := true, authPending := true, assetIds := Some(SelectedAssets(a)),
       userActive := false, userAccess := false, userDeleted := true, hasPassword := false,
       rolesActive := false, protectedRole := false, sessionsActive := false, employeesActive := false)
  }

  function Execute(a: Account, blockers: bool): Result {
    if !a.approved then Deny(a, 409, ApprovalRequired)
    else if a.estado != Aprobada then Deny(a, 409, StateInvalid)
    else if a.protectedRole || a.protectedUser then Deny(a, 403, ProtectedAccount)
    else if blockers || a.sharedIdentity then Deny(a, 409, DependenciesReappeared)
    else if UnresolvedPhoto(a) || !AllValid(a, SelectedAssets(a)) then Deny(a, 409, OwnershipAmbiguous)
    else Result(Processed(a), Done)
  }

  function Anonymize(a: Account): Result {
    if !a.approved then Deny(a, 409, ApprovalRequired)
    else if a.estado != Procesando then Deny(a, 409, StateInvalid)
    else Result(a.(estado := StoragePendiente, authPending := true, redacted := true, emailsTombstoned := true,
                   photo := None, strayPhoto := false), Done)
  }

  /** The snapshot is usable, its assets are still the person's, and no live one is missing. */
  predicate SnapshotStands(a: Account) {
    && a.assetIds.Some? && AllValid(a, a.assetIds.value)
    && !UnresolvedPhoto(a) && AllValid(a, SelectedAssets(a)) && SelectedAssets(a) <= a.assetIds.value
  }

  function Quarantined(a: Account, ids: set<int>): Account {
    a.(assets := map id | id in a.assets ::
         if id in ids && !a.assets[id].marked then a.assets[id].(quarantined := true) else a.assets[id])
  }

  function PrepareStorage(a: Account): Result {
    if !a.approved then Deny(a, 409, ApprovalRequired)
    else if a.assetIds.None? then Deny(a, 409, OwnershipAmbiguous)
    else if a.estado == AuthPendiente || a.estado == Completada then Result(a, Replayed)
    else if a.estado != StoragePendiente || a.userActive || a.userAccess || !a.userDeleted then Deny(a, 409, OwnershipAmbiguous)
    else if !SnapshotStands(a) then Deny(a, 409, OwnershipAmbiguous)
    else Result(Quarantined(a, a.assetIds.value), Done)
  }

  function AbsentIds(a: Account, ids: set<int>): set<int> { set id | id in ids && id !in a.objects }

  function Marked(a: Account, ids: set<int>): map<int, Asset> {
    map id | id in a.assets :: if id in ids then a.assets[id].(marked := true) else a.assets[id]
  }

  /** Absence is read again inside the transaction; only assets whose object is absent are
      marked, and only all of them together advance the request. */
  function FinalizeStorage(a: Account): Result {
    if !a.approved then Deny(a, 409, ApprovalRequired)
    else if a.assetIds.None? then Deny(a, 409, OwnershipAmbiguous)
    else if a.estado != StoragePendiente then Deny(a, 409, StorageStateInvalid)
    else if !SnapshotStands(a) then Deny(a, 409, OwnershipAmbiguous)
    else
      var ids := a.assetIds.value;
      var absent := AbsentIds(a, ids);
      Result(a.(assets := Marked(a, absent), storageProcessed := absent == ids,
                estado := if absent == ids then AuthPendiente else StoragePendiente),
             if absent == ids then Done else Incomplete)
  }

  predicate ReadyForAuth(a: Account) {
    && !a.userActive && !a.userAccess && a.userDeleted && !a.rolesActive && !a.sessionsActive && !a.employeesActive
    && !a.sharedIdentity && !a.protectedUser
  }

  function PrepareAuth(a: Account): Result {
    if !a.approved then Deny(a, 409, ApprovalRequired)
    else if a.estado == Completada then Result(a, Replayed)
    else if a.estado != AuthPendiente then Deny(a, 409, StateInvalid)
    else if !ReadyForAuth(a) then Deny(a, 409, AuthPreconditionFailed)
    else Result(a, Done)
  }

  function FinalizeAuth(a: Account): Result {
    if !a.approved then Deny(a, 409, ApprovalRequired)
    else if a.estado != AuthPendiente then Deny(a, 409, StateInvalid)
    else Result(a.(estado := Completada, completedAt := true, authPending := false), Done)
  }

  // --------------------------------------------------------------- the layers

  function Rank(e: Estado): nat {
    match e
    case Procesando => 1
    case StoragePendiente => 2
    case AuthPendiente => 3
    case Completada => 4
    case _ => 0
  }

  predicate Disabled(a: Account) {
    && a.approved && a.processedAt && ReadyForAuth(a) && !a.hasPassword
    && a.assetIds.Some? && AllValid(a, a.assetIds.value)
  }

  predicate Cleared(a: Account) {
    && a.storageProcessed && a.assetIds.Some?
    && forall id :: id in a.assetIds.value ==> id in a.assets && a.assets[id].marked && id !in a.objects
  }

  predicate Layers(a: Account) {
    var n := Rank(a.estado);
    && (n >= 1 ==> Disabled(a))
    && (n >= 2 ==> a.redacted && a.emailsTombstoned && a.photo.None? && !a.strayPhoto)
    && (n >= 3 ==> Cleared(a))
    && (1 <= n <= 3 ==> a.authPending)
    && (a.completedAt <==> n == 4)
    && (n == 4 ==> !a.authPending && !a.authExists)
  }

  // ---------------------------------------------------------------- the runs

  datatype AuthPhase = ToLookup | ToDelete | Deleting | ToCheck | ToFinalize

  datatype Runner = Idle | StorageRun | AuthRun(phase: AuthPhase)

  datatype World = World(a: Account, runner: Runner, removing: set<int>, deleting: bool)

  datatype Label =
    | Outside(b: Account) | Upload(id: int, asset: Asset)
    | ApproveStep(blockers: bool) | RejectStep | ExecuteStep(blockers: bool) | AnonymizeStep
    | BeginStorage | IssueRemove(id: int) | RemoveTakesEffect(id: int) | CommitStorage
    | BeginAuth | Lookup(answers: bool) | IssueDelete | DeleteTakesEffect | DeleteReturns | Check(answers: bool) | CommitAuth
    | Crash

  /** Before processing, the rest of the system may change anything but the request. */
  function Elsewhere(a: Account, b: Account): Account {
    b.(estado := a.estado, approved := a.approved, processedAt := a.processedAt, completedAt := a.completedAt,
       authPending := a.authPending, assetIds := a.assetIds, storageProcessed := a.storageProcessed)
  }

  function Apply(w: World, l: Label): World {
    match l
    case Outside(b) => if Rank(w.a.estado) == 0 then w.(a := Elsewhere(w.a, b)) else w
    case Upload(id, asset) =>
      if id !in w.a.assets && id !in w.removing
      then w.(a := w.a.(assets := w.a.assets[id := asset], objects := w.a.objects + {id})) else w
    case ApproveStep(blockers) => if w.runner.Idle? then w.(a := Approve(w.a, blockers).account) else w
    case RejectStep =>
      if w.runner.Idle? && w.a.estado == PendienteAprobacion && !w.a.approved then w.(a := w.a.(estado := Rechazada)) else w
    case ExecuteStep(blockers) => if w.runner.Idle? then w.(a := Execute(w.a, blockers).account) else w
    case AnonymizeStep => w.(a := Anonymize(w.a).account)
    case BeginStorage =>
      var p := PrepareStorage(w.a);
      if w.runner.Idle? && p.reply.Done? then w.(a := p.account, runner := StorageRun) else w
    case IssueRemove(id) =>
      if w.runner.StorageRun? && w.a.assetIds.Some? && id in w.a.assetIds.value && id in w.a.assets && Valid(w.a.assets[id])
      then w.(removing := w.removing + {id}) else w
    case RemoveTakesEffect(id) => if id in w.removing then w.(a := w.a.(objects := w.a.objects - {id})) else w
    case CommitStorage =>
      if w.runner.StorageRun? then w.(a := FinalizeStorage(w.a).account, runner := Idle) else w
    case BeginAuth => if w.runner.Idle? && PrepareAuth(w.a).reply.Done? then w.(runner := AuthRun(ToLookup)) else w
    case Lookup(answers) =>
      if w.runner != AuthRun(ToLookup) then w
      else w.(runner := if !answers then Idle else if w.a.authExists then AuthRun(ToDelete) else AuthRun(ToFinalize))
    case IssueDelete => if w.runner == AuthRun(ToDelete) then w.(runner := AuthRun(Deleting), deleting := true) else w
    case DeleteTakesEffect => if w.deleting then w.(a := w.a.(authExists := false)) else w
    case DeleteReturns => if w.runner == AuthRun(Deleting) then w.(runner := AuthRun(ToCheck)) else w
    case Check(answers) =>
      if w.runner != AuthRun(ToCheck) then w
      else w.(runner := if answers && !w.a.authExists then AuthRun(ToFinalize) else Idle)
    case CommitAuth =>
      if w.runner == AuthRun(ToFinalize) then w.(a := FinalizeAuth(w.a).account, runner := Idle) else w
    case Crash => w.(runner := Idle)
  }

  function Run(w: World, labels: seq<Label>): World {
    if labels == [] then w else Apply(Run(w, labels[..|labels| - 1]), labels[|labels| - 1])
  }

  predicate RunnerOk(w: World) {
    match w.runner
    case Idle => true
    case StorageRun => w.a.estado == StoragePendiente
    case AuthRun(phase) => w.a.estado == AuthPendiente && (phase == ToFinalize ==> !w.a.authExists)
  }

  predicate EffectsOk(w: World) {
    && (w.removing != {} ==> Rank(w.a.estado) >= 2 && w.a.assetIds.Some? && w.removing <= w.a.assetIds.value)
    && (w.deleting ==> Rank(w.a.estado) >= 3)
  }

  predicate Inv(w: World) { Layers(w.a) && RunnerOk(w) && EffectsOk(w) }

  predicate Begins(w: World) {
    w.a.estado == PendienteAprobacion && !w.a.approved && !w.a.completedAt && w.runner.Idle? && w.removing == {} && !w.deleting
  }

  lemma FinalizeStorageLayers(a: Account)
    requires Layers(a)
    ensures var f := FinalizeStorage(a);
      && Layers(f.account) && Rank(a.estado) <= Rank(f.account.estado)
      && (f.reply.Done? ==> f.account.estado == AuthPendiente)
      && f.account.assetIds == a.assetIds && f.account.objects == a.objects && f.account.authExists == a.authExists
  {
    if a.assetIds.Some? {
      var ids := a.assetIds.value;
      assert AbsentIds(a, ids) == ids ==> forall id :: id in ids ==> id !in a.objects by {
        forall id | id in ids && AbsentIds(a, ids) == ids ensures id !in a.objects {
          assert id in AbsentIds(a, ids);
        }
      }
    }
  }

  predicate Transaction(l: Label) {
    l.ApproveStep? || l.RejectStep? || l.ExecuteStep? || l.AnonymizeStep? || l.BeginStorage? || l.CommitStorage? || l.CommitAuth?
  }

  lemma TransactionKeeps(w: World, l: Label)
    requires Inv(w) && Transaction(l)
    ensures Inv(Apply(w, l))
    ensures Rank(w.a.estado) >= 1 ==> Rank(w.a.estado) <= Rank(Apply(w, l).a.estado)
  {
    if l.CommitStorage? {
      FinalizeStorageLayers(w.a);
    }
  }

  lemma ExternalKeeps(w: World, l: Label)
    requires Inv(w) && !Transaction(l)
    ensures Inv(Apply(w, l))
    ensures Rank(w.a.estado) >= 1 ==> Apply(w, l).a.estado == w.a.estado
  {
  }

  lemma StepKeeps(w: World, l: Label)
    requires Inv(w)
    ensures Inv(Apply(w, l))
    ensures Rank(w.a.estado) >= 1 ==> Rank(w.a.estado) <= Rank(Apply(w, l).a.estado)
  {
    if Transaction(l) {
      TransactionKeeps(w, l);
    } else {
      ExternalKeeps(w, l);
    }
  }

  /** Over every run the layers hold; only an approved request is ever processed. */
  lemma {:induction false} LayersHold(w: World, labels: seq<Label>)
    requires Begins(w)
    ensures Inv(Run(w, labels))
    ensures Rank(Run(w, labels).a.estado) >= 1 ==> Run(w, labels).a.approved
  {
    if labels != [] {
      LayersHold(w, labels[..|labels| - 1]);
      StepKeeps(Run(w, labels[..|labels| - 1]), labels[|labels| - 1]);
    }
  }

  /** Once in `procesando` no run moves the request backward. */
  lemma {:induction false} NeverBackward(w: World, labels: seq<Label>)
    requires Inv(w) && Rank(w.a.estado) >= 1
    ensures Inv(Run(w, labels)) && Rank(w.a.estado) <= Rank(Run(w, labels).a.estado)
  {
    if labels != [] {
      NeverBackward(w, labels[..|labels| - 1]);
      StepKeeps(Run(w, labels[..|labels| - 1]), labels[|labels| - 1]);
    }
  }

  lemma TransactionsTouchNoObject(w: World, l: Label)
    requires Inv(w) && Transaction(l)
    ensures Apply(w, l).a.objects == w.a.objects && Apply(w, l).a.authExists == w.a.authExists
  {
    if l.CommitStorage? {
      FinalizeStorageLayers(w.a);
    }
  }

  lemma OnlyEffectsRemove(w: World, l: Label)
    requires !Transaction(l) && !l.Outside?
    ensures l.RemoveTakesEffect? || Apply(w, l).a.objects >= w.a.objects
    ensures l.DeleteTakesEffect? || Apply(w, l).a.authExists == w.a.authExists
  {
  }

  /** An object disappears only when it is a processed person's certified portrait. */
  lemma ObjectsInOrder(w: World, l: Label, id: int)
    requires Inv(w) && !l.Outside? && id in w.a.objects && id !in Apply(w, l).a.objects
    ensures w.a.redacted && w.a.assetIds.Some? && id in w.a.assetIds.value && id in w.a.assets && Valid(w.a.assets[id])
  {
    if Transaction(l) {
      TransactionsTouchNoObject(w, l);
    } else {
      OnlyEffectsRemove(w, l);
      RemovedIsOwn(w, id);
    }
  }

  /** The identity disappears only after every snapshot object is gone. */
  lemma IdentityInOrder(w: World, l: Label)
    requires Inv(w) && !l.Outside? && w.a.authExists && !Apply(w, l).a.authExists
    ensures Cleared(w.a) && Disabled(w.a)
  {
    if Transaction(l) {
      TransactionsTouchNoObject(w, l);
    } else {
      OnlyEffectsRemove(w, l);
    }
  }

  lemma RemovedIsOwn(w: World, id: int)
    requires Inv(w)
    ensures id in w.removing ==>
              w.a.redacted && w.a.assetIds.Some? && id in w.a.assetIds.value && id in w.a.assets && Valid(w.a.assets[id])
  {
  }

  // ------------------------------------------------------------ resumability

  /** No live or ambiguous asset of the person appeared beside the snapshot. */
  predicate NoStrangers(a: Account) {
    a.assetIds.Some? &&
    forall id :: id in a.assets && (a.assets[id].linked || (a.assets[id].ambiguous && !a.assets[id].marked)) ==> id in a.assetIds.value
  }

  /** A row the deletion has to take along: linked to the person, the profile photo, or a
      portrait of unknown owner not yet deleted. */
  predicate HasToGo(a: Account, id: int) {
    id in a.assets && (a.assets[id].linked || a.photo == Some(id) || (a.assets[id].ambiguous && !a.assets[id].marked))
  }

  /** An execution is accepted exactly for an approved, unprotected account nobody else depends
      on whose rows to take along are all its own certified portraits and include its photo. */
  lemma ExecutesIff(a: Account, blockers: bool)
    ensures Execute(a, blockers).reply.Done? <==>
      && a.approved && a.estado == Aprobada && !a.protectedRole && !a.protectedUser && !blockers && !a.sharedIdentity
      && (if a.photo.Some? then a.photo.value in a.assets else !a.strayPhoto)
      && forall id :: HasToGo(a, id) ==> a.assets[id].certified && a.assets[id].linked && !a.assets[id].ambiguous
  {
    forall id ensures HasToGo(a, id) <==> id in SelectedAssets(a) {}
    if Execute(a, blockers).reply.Done? {
      forall id | HasToGo(a, id) ensures a.assets[id].certified && a.assets[id].linked && !a.assets[id].ambiguous {
        assert id in SelectedAssets(a);
      }
    }
  }

  /** An execution either refuses and changes nothing, or leaves the account disabled everywhere,
      with a snapshot of exactly the rows to take along and no object touched yet. */
  lemma ExecutionDisables(a: Account, blockers: bool)
    ensures var e := Execute(a, blockers);
      && (e.reply.Done? || (e.reply.Denied? && e.account == a))
      && (e.reply.Done? ==> var b := e.account;
            && b.estado == Procesando && b.processedAt && b.authPending
            && !b.userActive && !b.userAccess && b.userDeleted && !b.hasPassword
            && !b.rolesActive && !b.sessionsActive && !b.employeesActive && Disabled(b)
            && b.assetIds.Some? && (forall id :: id in b.assetIds.value <==> HasToGo(a, id)) && NoStrangers(b)
            && b.objects == a.objects && b.assets == a.assets && b.authExists == a.authExists)
      && (Layers(a) ==> Layers(e.account))
  {
    forall id ensures HasToGo(a, id) <==> id in SelectedAssets(a) {}
    if Execute(a, blockers).reply.Done? {
      var b := Processed(a);
      forall id | id in b.assets && (b.assets[id].linked || (b.assets[id].ambiguous && !b.assets[id].marked))
        ensures id in b.assetIds.value
      {
        assert HasToGo(a, id);
      }
    }
  }

  /** The snapshot lists every row to take along and only certified portraits of the person, whose
      photo is known. */
  predicate SnapshotRight(a: Account) {
    && a.assetIds.Some? && (if a.photo.Some? then a.photo.value in a.assets else !a.strayPhoto)
    && (forall id :: id in a.assetIds.value ==>
          id in a.assets && a.assets[id].certified && a.assets[id].linked && !a.assets[id].ambiguous)
    && forall id :: id in a.assets && HasToGo(a, id) ==> id in a.assetIds.value
  }

  lemma StandsMeans(a: Account)
    ensures SnapshotStands(a) <==> SnapshotRight(a)
  {
    if SnapshotStands(a) {
      forall id | id in a.assets && HasToGo(a, id) ensures id in a.assetIds.value { assert id in SelectedAssets(a); }
    }
    if SnapshotRight(a) {
      forall id | id in SelectedAssets(a) ensures id in a.assetIds.value && Valid(a.assets[id]) { assert HasToGo(a, id); }
    }
  }

  /** Each stage after the execution begins exactly for an approved request in its own state, for
      storage with a right snapshot, for Auth with everything disabled. */
  lemma StagesBeginIff(a: Account)
    ensures Anonymize(a).reply.Done? <==> a.approved && a.estado == Procesando
    ensures PrepareStorage(a).reply.Done? <==>
      a.approved && a.estado == StoragePendiente && !a.userActive && !a.userAccess && a.userDeleted && SnapshotRight(a)
    ensures PrepareAuth(a).reply.Done? <==>
      && a.approved && a.estado == AuthPendiente && !a.userActive && !a.userAccess && a.userDeleted
      && !a.rolesActive && !a.sessionsActive && !a.employeesActive && !a.sharedIdentity && !a.protectedUser
  {
    StandsMeans(a);
  }

  /** Preparing storage only quarantines rows of the snapshot not yet marked. */
  lemma QuarantineExact(a: Account, ids: set<int>)
    ensures var b := Quarantined(a, ids);
      && b.objects == a.objects && b.assetIds == a.assetIds && b.estado == a.estado && b.assets.Keys == a.assets.Keys
      && forall id :: id in a.assets ==>
           b.assets[id] == (if id in ids && !a.assets[id].marked then a.assets[id].(quarantined := true) else a.assets[id])
  {
  }

  lemma AllAbsentIff(a: Account, ids: set<int>)
    ensures AbsentIds(a, ids) == ids <==> forall id :: id in ids ==> id !in a.objects
  {
    var absent := AbsentIds(a, ids);
    if forall id :: id in ids ==> id !in a.objects {
      forall id ensures id in absent <==> id in ids {}
      assert absent == ids;
    } else {
      var id :| id in ids && id in a.objects;
      assert id !in absent;
    }
  }

  /** A storage commit goes through exactly for an approved request with a right snapshot, reads
      the objects again, and goes on to Auth exactly when every object of the snapshot is absent. */
  lemma CommitsIff(a: Account)
    ensures var f := FinalizeStorage(a);
      && (!f.reply.Denied? <==> a.approved && a.estado == StoragePendiente && SnapshotRight(a))
      && (f.reply.Denied? ==> f.account == a)
      && (f.reply.Done? <==> !f.reply.Denied? && forall id :: id in a.assetIds.value ==> id !in a.objects)
      && (!f.reply.Denied? ==> f.account.estado == (if f.reply.Done? then AuthPendiente else StoragePendiente))
  {
    StandsMeans(a);
    if a.assetIds.Some? { AllAbsentIff(a, a.assetIds.value); }
  }

  /** It marks exactly the rows of the snapshot whose object is absent and removes no object. */
  lemma CommitMarksAbsent(a: Account)
    requires !FinalizeStorage(a).reply.Denied?
    ensures var b := FinalizeStorage(a).account;
      && a.assetIds.Some? && b.objects == a.objects && b.assets.Keys == a.assets.Keys
      && forall id :: id in a.assets ==>
           b.assets[id] == (if id in a.assetIds.value && id !in a.objects then a.assets[id].(marked := true) else a.assets[id])
  {
  }

  lemma StepKeepsSnapshot(w: World, l: Label)
    requires Inv(w) && Rank(w.a.estado) >= 1
    ensures Apply(w, l).a.assetIds == w.a.assetIds
  {
    if l.CommitStorage? { FinalizeStorageLayers(w.a); }
  }

  lemma {:induction false} RunKeepsSnapshot(w: World, labels: seq<Label>)
    requires Inv(w) && Rank(w.a.estado) >= 1
    ensures Run(w, labels).a.assetIds == w.a.assetIds
  {
    if labels != [] {
      RunKeepsSnapshot(w, labels[..|labels| - 1]);
      NeverBackward(w, labels[..|labels| - 1]);
      StepKeepsSnapshot(Run(w, labels[..|labels| - 1]), labels[|labels| - 1]);
    }
  }

  /** Once the deletion is completed, every row that had to go when the account was executed is
      marked as deleted and has no object, whatever happened before and after. */
  lemma ExecutedMeansGone(w: World, before: seq<Label>, blockers: bool, after: seq<Label>)
    requires Begins(w)
    requires var u := Run(w, before); u.runner.Idle? && Execute(u.a, blockers).reply.Done?
    requires Run(Apply(Run(w, before), ExecuteStep(blockers)), after).a.estado == Completada
    ensures var u, v := Run(w, before), Run(Apply(Run(w, before), ExecuteStep(blockers)), after);
      && !v.a.authExists
      && forall id :: HasToGo(u.a, id) ==> id in v.a.assets && v.a.assets[id].marked && id !in v.a.objects
  {
    var u := Run(w, before);
    LayersHold(w, before);
    ExecutionDisables(u.a, blockers);
    TransactionKeeps(u, ExecuteStep(blockers));
    var x := Apply(u, ExecuteStep(blockers));
    assert x.a == Execute(u.a, blockers).account;
    NeverBackward(x, after);
    RunKeepsSnapshot(x, after);
  }

  lemma ApprovesIff(a: Account, blockers: bool)
    ensures Approve(a, blockers).reply.Done? <==>
      a.estado == PendienteAprobacion && !a.approved && !blockers && !a.sharedIdentity
    ensures var b := Approve(a, blockers);
      b.account == if b.reply.Done? then a.(estado := Aprobada, approved := true) else a
  {
  }

  /** Run up to but not including label `i`. */
  function Until(w: World, labels: seq<Label>, i: nat): World
    requires i <= |labels|
  {
    Run(w, labels[..i])
  }

  /** The step at `i` approved the request while nothing spoke against it. */
  predicate ApprovedAt(w: World, labels: seq<Label>, i: nat) {
    && i < |labels| && labels[i] == ApproveStep(false)
    && var a := Until(w, labels, i).a; a.estado == PendienteAprobacion && !a.approved && !a.sharedIdentity
  }

  /** The step at `j` executed the approved request while nothing spoke against it. */
  predicate ExecutedAt(w: World, labels: seq<Label>, j: nat) {
    && j < |labels| && labels[j] == ExecuteStep(false)
    && var a := Until(w, labels, j).a;
      a.approved && a.estado == Aprobada && !a.protectedRole && !a.protectedUser && !a.sharedIdentity
  }

  lemma UntilPrefix(w: World, labels: seq<Label>, n: nat, i: nat)
    requires i <= n <= |labels|
    ensures Until(w, labels[..n], i) == Until(w, labels, i)
  {
    assert labels[..n][..i] == labels[..i];
  }

  /** Only an approval sets `approved` and only an execution starts the processing. */
  lemma DecisiveSteps(w: World, l: Label)
    requires Inv(w)
    ensures !w.a.approved && Apply(w, l).a.approved ==> l == ApproveStep(false) && w.a.estado == PendienteAprobacion && !w.a.sharedIdentity
    ensures Rank(w.a.estado) == 0 && Rank(Apply(w, l).a.estado) >= 1 ==>
      && l == ExecuteStep(false) && w.a.approved && w.a.estado == Aprobada
      && !w.a.protectedRole && !w.a.protectedUser && !w.a.sharedIdentity
  {
    if l.CommitStorage? { FinalizeStorageLayers(w.a); }
  }

  lemma {:induction false} ApprovedBefore(w: World, labels: seq<Label>) returns (i: nat)
    requires Begins(w) && Run(w, labels).a.approved
    ensures ApprovedAt(w, labels, i)
  {
    var n := |labels| - 1;
    LayersHold(w, labels[..n]);
    DecisiveSteps(Run(w, labels[..n]), labels[n]);
    if Run(w, labels[..n]).a.approved {
      i := ApprovedBefore(w, labels[..n]);
      UntilPrefix(w, labels, n, i);
    } else {
      i := n;
    }
  }

  /** In every run a processed request was first approved and later executed, each time with no
      dependency in the way and no protection in force. */
  lemma {:induction false} ProcessedWasClear(w: World, labels: seq<Label>) returns (i: nat, j: nat)
    requires Begins(w) && Rank(Run(w, labels).a.estado) >= 1
    ensures i < j && ApprovedAt(w, labels, i) && ExecutedAt(w, labels, j)
  {
    var n := |labels| - 1;
    LayersHold(w, labels[..n]);
    DecisiveSteps(Run(w, labels[..n]), labels[n]);
    if Rank(Run(w, labels[..n]).a.estado) >= 1 {
      i, j := ProcessedWasClear(w, labels[..n]);
      UntilPrefix(w, labels, n, j);
    } else {
      i := ApprovedBefore(w, labels[..n]);
      j := n;
    }
    UntilPrefix(w, labels, n, i);
  }

  lemma StandsIff(a: Account)
    requires Layers(a) && Rank(a.estado) >= 2
    ensures SnapshotStands(a) <==> NoStrangers(a)
  {
    if NoStrangers(a) {
      forall id | id in SelectedAssets(a) ensures id in a.assetIds.value && Valid(a.assets[id]) {
        assert id in a.assets;
      }
    }
    if SnapshotStands(a) {
      forall id | id in a.assets && (a.assets[id].linked || (a.assets[id].ambiguous && !a.assets[id].marked))
        ensures id in a.assetIds.value
      {
        assert id in SelectedAssets(a);
      }
    }
  }

  /** One storage run in which each object goes or stays. */
  function StorageStage(a: Account, gone: int -> bool): Result {
    var p := PrepareStorage(a);
    if !p.reply.Done? || p.account.assetIds.None? then p
    else
      FinalizeStorage(p.account.(objects := set id | id in p.account.objects && !(id in p.account.assetIds.value && gone(id))))
  }

  lemma PrepareStorageLayers(a: Account)
    requires Layers(a)
    ensures var p := PrepareStorage(a);
      && Layers(p.account) && p.account.estado == a.estado && p.account.assetIds == a.assetIds && p.account.objects == a.objects
      && (p.reply.Done? ==> a.estado == StoragePendiente && NoStrangers(p.account))
      && (a.estado == StoragePendiente ==> (p.reply.Done? <==> NoStrangers(a)))
  {
    if a.estado == StoragePendiente {
      StandsIff(a);
    }
  }

  lemma RemovalsKeepLayers(a: Account, gone: set<int>)
    requires Layers(a)
    ensures Layers(a.(objects := a.objects - gone)) && (NoStrangers(a) ==> NoStrangers(a.(objects := a.objects - gone)))
  {
  }

  /** A storage run advances exactly when no stranger appeared and every snapshot object is
      absent at its end. */
  lemma StorageStageAdvancesIff(a: Account, gone: int -> bool)
    requires Layers(a) && a.estado == StoragePendiente
    ensures var s := StorageStage(a, gone);
      && Layers(s.account)
      && (s.account.estado == AuthPendiente <==> s.reply.Done?)
      && (s.reply.Done? <==> NoStrangers(a) && forall id :: id in a.assetIds.value && id in a.objects ==> gone(id))
      && (!s.reply.Done? ==> s.account.estado == StoragePendiente)
  {
    PrepareStorageLayers(a);
    var p := PrepareStorage(a);
    if p.reply.Done? {
      var ids := a.assetIds.value;
      var lost := set id | id in ids && gone(id);
      var left := set id | id in p.account.objects && !(id in ids && gone(id));
      assert left == p.account.objects - lost;
      var b := p.account.(objects := left);
      RemovalsKeepLayers(p.account, lost);
      StandsIff(b);
      FinalizeStorageLayers(b);
      AbsentIff(b, a, ids, gone);
    }
  }

  lemma AbsentIff(b: Account, a: Account, ids: set<int>, gone: int -> bool)
    requires b.objects == set id | id in a.objects && !(id in ids && gone(id))
    ensures AbsentIds(b, ids) == ids <==> forall id :: id in ids && id in a.objects ==> gone(id)
  {
    if AbsentIds(b, ids) == ids {
      forall id | id in ids && id in a.objects ensures gone(id) {
        assert id in AbsentIds(b, ids);
      }
    }
    if forall id :: id in ids && id in a.objects ==> gone(id) {
      assert forall id :: id in ids ==> id in AbsentIds(b, ids);
      assert AbsentIds(b, ids) == ids;
    }
  }

  datatype AuthCalls = AuthCalls(lookupAnswers: bool, deleteWorks: bool, checkAnswers: bool)

  /** One Auth run; the provider's answer to the delete is not used. */
  function AuthStage(a: Account, calls: AuthCalls): Result {
    var p := PrepareAuth(a);
    if !p.reply.Done? then p
    else if !calls.lookupAnswers then Deny(a, 503, AuthTemporaryFailure)
    else if !a.authExists then FinalizeAuth(a)
    else
      var b := if calls.deleteWorks then a.(authExists := false) else a;
      if !calls.checkAnswers || b.authExists then Deny(b, 503, AuthTemporaryFailure) else FinalizeAuth(b)
  }

  lemma AuthStageCompletesIff(a: Account, calls: AuthCalls)
    requires Layers(a) && a.estado == AuthPendiente
    ensures var s := AuthStage(a, calls);
      && Layers(s.account)
      && (s.reply.Done? <==> s.account.estado == Completada)
      && (s.reply.Done? <==> calls.lookupAnswers && (a.authExists ==> calls.deleteWorks && calls.checkAnswers))
      && (!s.reply.Done? ==> s.reply == Denied(503, AuthTemporaryFailure))
  {
  }

  predicate EverythingGoes(id: int) { true }

  /** The stage of the current state, with the providers answering. */
  function Advance(a: Account): Account {
    match a.estado
    case Procesando => Anonymize(a).account
    case StoragePendiente => StorageStage(a, EverythingGoes).account
    case AuthPendiente => AuthStage(a, AuthCalls(true, true, true)).account
    case _ => a
  }

  lemma AdvanceFromStorage(a: Account)
    requires Layers(a) && a.estado == StoragePendiente
    ensures !NoStrangers(a) ==> Advance(a) == a
    ensures NoStrangers(a) ==> Layers(Advance(a)) && Advance(a).estado == AuthPendiente
  {
    PrepareStorageLayers(a);
    StorageStageAdvancesIff(a, EverythingGoes);
  }

  /** From every state a crash can leave behind once processing began, three stages with the
      providers answering complete the deletion exactly when no live asset of the person
      appeared that the snapshot does not list. */
  lemma ResumesToTheEndIff(a: Account)
    requires Layers(a) && Rank(a.estado) >= 1
    ensures Advance(Advance(Advance(a))).estado == Completada <==> (Rank(a.estado) <= 2 ==> NoStrangers(a))
  {
    if a.estado == Procesando {
      var b := Advance(a);
      AdvanceFromProcesando(a);
      AdvanceFromStorage(b);
      if NoStrangers(a) { AdvanceFromAuth(Advance(b)); }
    } else if a.estado == StoragePendiente {
      AdvanceFromStorage(a);
      if NoStrangers(a) { AdvanceFromAuth(Advance(a)); }
    } else if a.estado == AuthPendiente {
      AdvanceFromAuth(a);
    }
  }

  lemma AdvanceFromProcesando(a: Account)
    requires Layers(a) && a.estado == Procesando
    ensures Layers(Advance(a)) && Advance(a).estado == StoragePendiente && NoStrangers(Advance(a)) == NoStrangers(a)
  {
  }

  lemma AdvanceFromAuth(a: Account)
    requires Layers(a) && a.estado == AuthPendiente
    ensures Advance(a).estado == Completada
  {
    AuthStageCompletesIff(a, AuthCalls(true, true, true));
  }
}
