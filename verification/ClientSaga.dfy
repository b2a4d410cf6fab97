/** Every run of a client's account deletion: stages, external calls, crashes and retries
    (src/services/accountDeletionService.js:1903-4568). */
module ClientSaga {
  import opened ClientAccount

  // --------------------------------------------------------------- the layers

  function Rank(e: Estado): nat {
    match e
    case Procesando => 1
    case StoragePendiente => 2
    case AuthPendiente => 3
    case Completada => 4
    case _ => 0
  }

  predicate Deleted(x: Asset) { x.status == Eliminado && x.deleted }

  predicate Disabled(a: Account) {
    && a.request.processedAt && UserOff(a.user) && !a.rolesActive && !a.protectedUser
    && !a.client.active && a.client.deleted && a.memberships == 0 && a.points <= 0
  }

  predicate Redacted(a: Account) {
    && a.client.anonymized && a.person.redacted && a.person.deleted && a.person.emailsTombstoned
    && a.person.photo.None? && !a.person.strayPhoto && a.request.assetIds.Some?
  }

  /** Snapshot assets are still this request's, and a deleted one has no stored object. */
  predicate SnapshotHeld(a: Account) {
    a.request.assetIds.Some? &&
    forall id :: id in a.request.assetIds.value ==>
      id in a.assets && Belongs(a.assets[id], Some(a.id)) && (Deleted(a.assets[id]) ==> id !in a.objects)
  }

  predicate SnapshotCleared(a: Account) {
    && a.request.storagePending == 0 && a.request.assetIds.Some?
    && forall id :: id in a.request.assetIds.value ==> id in a.assets && Deleted(a.assets[id]) && id !in a.objects
  }

  /** Each stage implies what all earlier ones did. */
  predicate Layers(a: Account) {
    var n := Rank(a.request.estado);
    && (n >= 1 ==> Disabled(a))
    && (n == 1 ==> !a.client.anonymized)
    && (n >= 2 ==> Redacted(a) && SnapshotHeld(a))
    && (n == 2 ==> a.request.assetIds.value != {})
    && (n >= 3 ==> SnapshotCleared(a))
    && (1 <= n <= 3 ==> a.request.authPending)
    && (a.request.completedAt <==> n == 4)
    && (n == 4 ==> !a.request.authPending && !a.authExists)
  }

  // ---------------------------------------------------------------- the runs

  datatype AuthPhase = ToLookup | ToDelete | Deleting | ToFirstCheck | ToSecondCheck | ToFinalize

  /** The one session that holds the identity's lock outside a transaction. */
  datatype Runner =
    | Idle
    | StorageRun(todo: set<int>, issued: set<int>, results: map<int, AssetResult>)
    | AuthRun(phase: AuthPhase)

  /** `removing` and `deleting` are calls issued at some time that may still take effect. */
  datatype World = World(a: Account, runner: Runner, removing: set<int>, deleting: bool)

  datatype Label =
    | Outside(b: Account)
    | Upload(id: int, asset: Asset)
    | ConfirmStep(blocked: bool)
    | ExecuteStep(recent: bool, blocked: bool, afterForfeit: int)
    | AnonymizeStep(redacts: bool)
    | BeginStorage
    | IssueRemove(id: int)
    | RemoveTakesEffect(id: int)
    | CheckAsset(id: int)
    | CommitStorage
    | BeginAuth
    | Lookup(answers: bool)
    | IssueDelete
    | DeleteTakesEffect
    | DeleteAnswers(confirmed: bool)
    | FirstCheck(answers: bool)
    | SecondCheck(answers: bool)
    | CommitAuth
    | Crash

  /** What the rest of the system may change before processing: anything but the request. */
  function Elsewhere(a: Account, b: Account): Account { b.(id := a.id, request := a.request) }

  function Checked(a: Account, id: int): AssetResult
    requires id in a.assets
  {
    if Deleted(a.assets[id]) then AlreadyDeleted else if id !in a.objects then Removed else Failed
  }

  function Apply(w: World, l: Label): World {
    match l
    case Outside(b) => if Rank(w.a.request.estado) == 0 && w.runner.Idle? then w.(a := Elsewhere(w.a, b)) else w
    case Upload(id, asset) =>
      if id !in w.a.assets && id !in w.removing
      then w.(a := w.a.(assets := w.a.assets[id := asset], objects := w.a.objects + {id})) else w
    case ConfirmStep(blocked) => if w.runner.Idle? then w.(a := Confirm(w.a, blocked).account) else w
    case ExecuteStep(recent, blocked, afterForfeit) =>
      if w.runner.Idle? then w.(a := Execute(w.a, recent, blocked, afterForfeit).account) else w
    case AnonymizeStep(redacts) => if w.runner.Idle? then w.(a := Anonymize(w.a, redacts).account) else w
    case BeginStorage =>
      var p := PrepareStorage(w.a);
      if w.runner.Idle? && p.reply.Done? && p.account.request.assetIds.Some?
      then w.(a := p.account, runner := StorageRun(p.account.request.assetIds.value, {}, map[])) else w
    case IssueRemove(id) =>
      if w.runner.StorageRun? && id in w.runner.todo && id in w.a.assets && !Deleted(w.a.assets[id]) && id in w.a.objects
      then w.(runner := w.runner.(issued := w.runner.issued + {id}), removing := w.removing + {id}) else w
    case RemoveTakesEffect(id) => if id in w.removing then w.(a := w.a.(objects := w.a.objects - {id})) else w
    case CheckAsset(id) =>
      if w.runner.StorageRun? && id in w.runner.todo && id in w.a.assets && (Checked(w.a, id) != Failed || id in w.runner.issued)
      then w.(runner := w.runner.(todo := w.runner.todo - {id}, results := w.runner.results[id := Checked(w.a, id)])) else w
    case CommitStorage =>
      if w.runner.StorageRun? && w.runner.todo == {}
      then w.(a := FinalizeStorage(w.a, w.runner.results).account, runner := Idle) else w
    case BeginAuth => if w.runner.Idle? && PrepareAuth(w.a).reply.Done? then w.(runner := AuthRun(ToLookup)) else w
    case Lookup(answers) =>
      if w.runner != AuthRun(ToLookup) then w
      else w.(runner := if !answers then Idle else if w.a.authExists then AuthRun(ToDelete) else AuthRun(ToFinalize))
    case IssueDelete => if w.runner == AuthRun(ToDelete) then w.(runner := AuthRun(Deleting), deleting := true) else w
    case DeleteTakesEffect => if w.deleting then w.(a := w.a.(authExists := false)) else w
    case DeleteAnswers(confirmed) =>
      if w.runner == AuthRun(Deleting) then w.(runner := AuthRun(if confirmed then ToSecondCheck else ToFirstCheck)) else w
    case FirstCheck(answers) =>
      if w.runner != AuthRun(ToFirstCheck) then w
      else w.(runner := if answers && !w.a.authExists then AuthRun(ToSecondCheck) else Idle)
    case SecondCheck(answers) =>
      if w.runner != AuthRun(ToSecondCheck) then w
      else w.(runner := if answers && !w.a.authExists then AuthRun(ToFinalize) else Idle)
    case CommitAuth =>
      if w.runner == AuthRun(ToFinalize) then w.(a := FinalizeAuth(w.a).account, runner := Idle) else w
    case Crash => w.(runner := Idle)
  }

  function Run(w: World, labels: seq<Label>): World {
    if labels == [] then w else Apply(Run(w, labels[..|labels| - 1]), labels[|labels| - 1])
  }

  // ------------------------------------------------------------ the invariant

  predicate RunnerOk(w: World) {
    match w.runner
    case Idle => true
    case StorageRun(todo, issued, results) =>
      && w.a.request.estado == StoragePendiente && w.a.request.assetIds.Some?
      && todo + results.Keys == w.a.request.assetIds.value
      && forall id :: id in results && id in w.a.assets ==>
           && (results[id] == AlreadyDeleted <==> Deleted(w.a.assets[id]))
           && (results[id] == Removed ==> id !in w.a.objects)
    case AuthRun(phase) => w.a.request.estado == AuthPendiente && (phase == ToFinalize ==> !w.a.authExists)
  }

  /** Calls that may still take effect concern snapshot assets and an Auth stage reached. */
  predicate EffectsOk(w: World) {
    && (w.removing != {} ==> Rank(w.a.request.estado) >= 2 && w.a.request.assetIds.Some? && w.removing <= w.a.request.assetIds.value)
    && (w.deleting ==> Rank(w.a.request.estado) >= 3)
  }

  ghost predicate Inv(w: World) { Layers(w.a) && RunnerOk(w) && EffectsOk(w) }

  /** A request as it is created. */
  predicate Created(a: Account) {
    (a.request.estado == PendienteConfirmacion || a.request.estado == Bloqueada) && !a.request.completedAt
  }

  predicate Begins(w: World) { Created(w.a) && w.runner.Idle? && w.removing == {} && !w.deleting }

  lemma ConfirmLayers(a: Account, blocked: bool)
    requires Layers(a)
    ensures Layers(Confirm(a, blocked).account)
    ensures Rank(a.request.estado) >= 1 ==> Confirm(a, blocked).account == a
  {
  }

  lemma ExecuteLayers(a: Account, recent: bool, blocked: bool, afterForfeit: int)
    requires Layers(a)
    ensures Layers(Execute(a, recent, blocked, afterForfeit).account)
    ensures Rank(a.request.estado) >= 1 ==> Execute(a, recent, blocked, afterForfeit).account == a
  {
  }

  lemma AnonymizeLayers(a: Account, redacts: bool)
    requires Layers(a)
    ensures Layers(Anonymize(a, redacts).account)
    ensures Rank(a.request.estado) <= Rank(Anonymize(a, redacts).account.request.estado)
    ensures Rank(a.request.estado) >= 2 ==> Anonymize(a, redacts).account == a
  {
    if Anonymize(a, redacts).reply.Done? {
      var b := Anonymized(a);
      assert b.request.assetIds == Some(SelectedAssets(a));
      if SelectedAssets(a) == {} {
        assert |SelectedAssets(a)| == 0;
      }
    }
  }

  lemma PrepareLayers(a: Account)
    requires Layers(a)
    ensures Layers(PrepareStorage(a).account)
    ensures PrepareStorage(a).account.request == a.request
    ensures PrepareStorage(a).reply.Done? ==> a.request.estado == StoragePendiente && a.request.assetIds.Some?
  {
  }

  lemma SnapshotUsable(a: Account)
    requires SnapshotHeld(a)
    ensures a.request.assetIds.value <= a.assets.Keys && AllBelong(a, a.request.assetIds.value, Some(a.id))
  {
    forall id | id in a.request.assetIds.value ensures id in a.assets.Keys {
      assert id in a.assets;
    }
  }

  lemma AssetSettles(w: World, id: int)
    requires Inv(w) && w.runner.StorageRun? && w.runner.todo == {} && id in w.a.request.assetIds.value
    ensures id in w.runner.results && id in w.a.assets
    ensures var x := Settled(w.a.assets[id], w.runner.results[id], w.a.id);
      && Belongs(x, Some(w.a.id)) && (Deleted(x) ==> id !in w.a.objects)
      && (Deleted(x) <==> id !in FailedIds(w.runner.results))
  {
  }

  /** The commit of a storage run is never refused, and advances exactly when nothing failed. */
  lemma CommitStorageAdvances(w: World)
    requires Inv(w) && w.runner.StorageRun? && w.runner.todo == {}
    ensures var f := FinalizeStorage(w.a, w.runner.results);
      && Layers(f.account) && (f.reply.Done? || f.reply.Partial?)
      && (f.reply.Done? <==> FailedIds(w.runner.results) == {})
      && f.account.request.estado == (if f.reply.Done? then AuthPendiente else StoragePendiente)
  {
    var ids := w.a.request.assetIds.value;
    var f := FinalizeStorage(w.a, w.runner.results);
    SnapshotUsable(w.a);
    assert f.account.assets == Applied(w.a, ids, w.runner.results);
    forall id | id in ids
      ensures id in w.a.assets && id in w.runner.results
      ensures f.account.assets[id] == Settled(w.a.assets[id], w.runner.results[id], w.a.id)
      ensures Belongs(f.account.assets[id], Some(w.a.id)) && (Deleted(f.account.assets[id]) ==> id !in w.a.objects)
      ensures id !in FailedIds(w.runner.results) ==> Deleted(f.account.assets[id])
    {
      AssetSettles(w, id);
    }
  }

  lemma CommitAuthCompletes(w: World)
    requires Inv(w) && w.runner == AuthRun(ToFinalize)
    ensures var f := FinalizeAuth(w.a); f.reply.Done? && Layers(f.account) && f.account.request.estado == Completada
  {
    assert GoneFor(w.a, w.a.request.assetIds.value);
  }

  predicate Transaction(l: Label) {
    l.ConfirmStep? || l.ExecuteStep? || l.AnonymizeStep? || l.BeginStorage? || l.CommitStorage? || l.CommitAuth?
  }

  /** A transaction before any stage has begun, or one the stage leaves alone. */
  lemma RequestStepKeeps(w: World, b: Account)
    requires Inv(w) && w.runner.Idle? && Layers(b) && b.objects == w.a.objects
    requires Rank(w.a.request.estado) >= 2 ==> b == w.a
    ensures Inv(w.(a := b))
  {
  }

  lemma BeginStorageKeeps(w: World)
    requires Inv(w)
    ensures Inv(Apply(w, BeginStorage))
  {
    PrepareLayers(w.a);
  }

  lemma CommitKeeps(w: World, l: Label)
    requires Inv(w) && (l.CommitStorage? || l.CommitAuth?)
    ensures Inv(Apply(w, l))
  {
    if l.CommitStorage? {
      if w.runner.StorageRun? && w.runner.todo == {} { CommitStorageAdvances(w); }
    } else if w.runner == AuthRun(ToFinalize) {
      CommitAuthCompletes(w);
    }
  }

  lemma TransactionKeeps(w: World, l: Label)
    requires Inv(w) && Transaction(l)
    ensures Inv(Apply(w, l))
  {
    if l.BeginStorage? {
      BeginStorageKeeps(w);
    } else if l.CommitStorage? || l.CommitAuth? {
      CommitKeeps(w, l);
    } else if w.runner.Idle? {
      if l.ConfirmStep? {
        ConfirmLayers(w.a, l.blocked);
        RequestStepKeeps(w, Confirm(w.a, l.blocked).account);
      } else if l.ExecuteStep? {
        ExecuteLayers(w.a, l.recent, l.blocked, l.afterForfeit);
        RequestStepKeeps(w, Execute(w.a, l.recent, l.blocked, l.afterForfeit).account);
      } else {
        AnonymizeLayers(w.a, l.redacts);
        RequestStepKeeps(w, Anonymize(w.a, l.redacts).account);
      }
    }
  }

  predicate StorageStep(l: Label) { l.IssueRemove? || l.RemoveTakesEffect? || l.CheckAsset? || l.Upload? || l.Outside? }

  lemma StorageStepKeeps(w: World, l: Label)
    requires Inv(w) && StorageStep(l)
    ensures Inv(Apply(w, l))
  {
  }

  lemma AuthStepKeeps(w: World, l: Label)
    requires Inv(w) && !Transaction(l) && !StorageStep(l)
    ensures Inv(Apply(w, l))
  {
  }

  lemma StepKeeps(w: World, l: Label)
    requires Inv(w)
    ensures Inv(Apply(w, l))
  {
    if Transaction(l) {
      TransactionKeeps(w, l);
    } else if StorageStep(l) {
      StorageStepKeeps(w, l);
    } else {
      AuthStepKeeps(w, l);
    }
  }

  lemma {:induction false} RunKeeps(w: World, labels: seq<Label>)
    requires Inv(w)
    ensures Inv(Run(w, labels))
  {
    if labels != [] {
      RunKeeps(w, labels[..|labels| - 1]);
      StepKeeps(Run(w, labels[..|labels| - 1]), labels[|labels| - 1]);
    }
  }

  /** Over every run with crashes, lost and late responses and retries, the layers hold. */
  lemma LayersHold(w: World, labels: seq<Label>)
    requires Begins(w)
    ensures Layers(Run(w, labels).a) && Inv(Run(w, labels))
  {
    RunKeeps(w, labels);
  }

  // ------------------------------------------------------------- confirmation

  /** A confirmation that went through is answered as a replay from then on, whatever the
      preview finds, and leaves an account that an execution accepts exactly when the
      reauthentication is recent, nothing blocks it and the points balance closes. */
  lemma ConfirmedThenExecutes(a: Account, blocked: bool, later: bool, recent: bool, afterForfeit: int)
    requires Confirm(a, blocked).reply.Done?
    ensures var b := Confirm(a, blocked).account;
      && Confirm(b, later) == Result(b, Replayed)
      && (Execute(b, recent, later, afterForfeit).reply.Done? <==> recent && !later && ClosingBalance(a.points, afterForfeit) == 0)
      && (Execute(b, recent, later, afterForfeit).reply.Done? ==> Confirm(Execute(b, recent, later, afterForfeit).account, later).reply.Denied?)
  {
  }

  /** The client's own rows are active. */
  predicate ActiveClient(a: Account) { a.client == Client(true, false, false) }

  /** A confirmation goes through exactly for a created or blocked request of an active client
      that nothing blocks; a block is recorded and any refusal changes nothing. */
  lemma ConfirmsIff(a: Account, blocked: bool)
    ensures var c, r := Confirm(a, blocked), a.request;
      && (c.reply.Done? <==> r.estado in {PendienteConfirmacion, Bloqueada} && ActiveClient(a) && !blocked && !a.protectedUser)
      && (c.reply.Done? ==> c.account == a.(request := r.(estado := Evaluada, reauthenticated := true)))
      && (c.reply.BlockedNow? ==> c.account == a.(request := r.(estado := Bloqueada, reauthenticated := false)))
      && (c.reply.Replayed? || c.reply.Denied? ==> c.account == a)
      && (c.reply.Replayed? <==> r.estado == Evaluada && r.reauthenticated)
      && (c.reply.BlockedNow? <==> r.estado in {PendienteConfirmacion, Bloqueada} && ActiveClient(a) && (blocked || a.protectedUser))
  {
  }

  /** An execution goes through exactly for a confirmed request of an active client with a recent
      reauthentication, nothing in the way and a balance that closes at zero; it then disables
      the account on every table and ends its memberships and points. */
  lemma ExecutesIff(a: Account, recent: bool, blocked: bool, afterForfeit: int)
    ensures var e, r := Execute(a, recent, blocked, afterForfeit), a.request;
      && (e.reply.Done? <==>
            && r.estado == Evaluada && r.reauthenticated && recent && ActiveClient(a) && !blocked && !a.protectedUser
            && (a.points == 0 || (a.points > 0 && afterForfeit == 0)))
      && (e.reply.Done? ==> var b := e.account;
            && b.request == r.(estado := Procesando, processedAt := true, authPending := true)
            && b.user == User(false, false, false, true) && b.client == Client(false, true, false)
            && b.memberships == 0 && b.points == 0 && !b.rolesActive
            && b.person == a.person && b.assets == a.assets && b.objects == a.objects && b.authExists == a.authExists)
      && (e.reply.BlockedNow? ==> e.account.request.estado == Bloqueada && !e.account.request.reauthenticated)
      && (e.reply.Denied? || e.reply.Replayed? ==> e.account == a)
  {
  }

  /** Run up to but not including label `i`. */
  function Until(w: World, labels: seq<Label>, i: nat): World
    requires i <= |labels|
  {
    Run(w, labels[..i])
  }

  /** The step at `i` confirmed the request while nothing blocked it. */
  predicate ConfirmedAt(w: World, labels: seq<Label>, i: nat) {
    && i < |labels| && labels[i] == ConfirmStep(false)
    && ActiveClient(Until(w, labels, i).a) && !Until(w, labels, i).a.protectedUser
  }

  /** The step at `j` executed the confirmed request, recently reauthenticated and unblocked. */
  predicate ExecutedAt(w: World, labels: seq<Label>, j: nat) {
    && j < |labels| && labels[j].ExecuteStep? && labels[j].recent && !labels[j].blocked
    && var a := Until(w, labels, j).a;
       && a.request.estado == Evaluada && a.request.reauthenticated && ActiveClient(a) && !a.protectedUser
       && (a.points == 0 || (a.points > 0 && labels[j].afterForfeit == 0))
  }

  lemma UntilPrefix(w: World, labels: seq<Label>, n: nat, i: nat)
    requires i <= n <= |labels|
    ensures Until(w, labels[..n], i) == Until(w, labels, i)
  {
    assert labels[..n][..i] == labels[..i];
  }

  /** Only a confirmation makes a request `evaluada` and only an execution processes it. */
  lemma DecisiveSteps(w: World, l: Label)
    requires Inv(w)
    ensures w.a.request.estado != Evaluada && Apply(w, l).a.request.estado == Evaluada ==>
      l == ConfirmStep(false) && ActiveClient(w.a) && !w.a.protectedUser
    ensures Rank(w.a.request.estado) == 0 && Rank(Apply(w, l).a.request.estado) >= 1 ==>
      && l.ExecuteStep? && l.recent && !l.blocked && w.a.request.estado == Evaluada && w.a.request.reauthenticated
      && ActiveClient(w.a) && !w.a.protectedUser && (w.a.points == 0 || (w.a.points > 0 && l.afterForfeit == 0))
  {
    if l.ConfirmStep? {
      ConfirmsIff(w.a, l.blocked);
    } else if l.ExecuteStep? {
      ExecutesIff(w.a, l.recent, l.blocked, l.afterForfeit);
    } else if l.CommitStorage? {
      if w.runner.StorageRun? && w.runner.todo == {} { CommitStorageAdvances(w); }
    }
  }

  lemma {:induction false} ConfirmedBefore(w: World, labels: seq<Label>) returns (i: nat)
    requires Begins(w) && Run(w, labels).a.request.estado == Evaluada
    ensures ConfirmedAt(w, labels, i)
  {
    var n := |labels| - 1;
    LayersHold(w, labels[..n]);
    DecisiveSteps(Run(w, labels[..n]), labels[n]);
    if Run(w, labels[..n]).a.request.estado == Evaluada {
      i := ConfirmedBefore(w, labels[..n]);
      UntilPrefix(w, labels, n, i);
    } else {
      i := n;
    }
  }

  /** In every run a processed request was first confirmed and later executed, each time by an
      active client, unprotected and unblocked, and executed only with a recent reauthentication
      and no points left. */
  lemma {:induction false} ProcessedWasConfirmed(w: World, labels: seq<Label>) returns (i: nat, j: nat)
    requires Begins(w) && Rank(Run(w, labels).a.request.estado) >= 1
    ensures i < j && ConfirmedAt(w, labels, i) && ExecutedAt(w, labels, j)
  {
    var n := |labels| - 1;
    LayersHold(w, labels[..n]);
    DecisiveSteps(Run(w, labels[..n]), labels[n]);
    if Rank(Run(w, labels[..n]).a.request.estado) >= 1 {
      i, j := ProcessedWasConfirmed(w, labels[..n]);
      UntilPrefix(w, labels, n, j);
    } else {
      i := ConfirmedBefore(w, labels[..n]);
      j := n;
    }
    UntilPrefix(w, labels, n, i);
  }

  // ---------------------------------------------------------- never backward

  lemma StepAdvances(w: World, l: Label)
    requires Inv(w) && Rank(w.a.request.estado) >= 1
    ensures Rank(w.a.request.estado) <= Rank(Apply(w, l).a.request.estado)
  {
    match l
    case ConfirmStep(blocked) => ConfirmLayers(w.a, blocked);
    case ExecuteStep(recent, blocked, afterForfeit) => ExecuteLayers(w.a, recent, blocked, afterForfeit);
    case AnonymizeStep(redacts) => AnonymizeLayers(w.a, redacts);
    case BeginStorage => PrepareLayers(w.a);
    case CommitStorage => if w.runner.StorageRun? && w.runner.todo == {} { CommitStorageAdvances(w); }
    case CommitAuth => if w.runner == AuthRun(ToFinalize) { CommitAuthCompletes(w); }
    case _ =>
  }

  /** Once in `procesando` no run moves the request backward. */
  lemma {:induction false} NeverBackward(w: World, labels: seq<Label>)
    requires Inv(w) && Rank(w.a.request.estado) >= 1
    ensures Inv(Run(w, labels)) && Rank(w.a.request.estado) <= Rank(Run(w, labels).a.request.estado)
  {
    if labels != [] {
      NeverBackward(w, labels[..|labels| - 1]);
      StepKeeps(Run(w, labels[..|labels| - 1]), labels[|labels| - 1]);
      StepAdvances(Run(w, labels[..|labels| - 1]), labels[|labels| - 1]);
    }
  }

  /** A completed deletion: disabled, anonymized, every snapshot asset tombstoned with its
      object absent, and the Auth identity gone. */
  lemma CompletedMeansGone(w: World, labels: seq<Label>)
    requires Begins(w) && Run(w, labels).a.request.estado == Completada
    ensures var a := Run(w, labels).a;
      && Disabled(a) && Redacted(a) && !a.authExists && !a.request.authPending
      && forall id :: id in a.request.assetIds.value ==> id in a.assets && Deleted(a.assets[id]) && id !in a.objects
  {
    LayersHold(w, labels);
  }

  /** A row the deletion has to take along: not deleted, in any status but `eliminado`, and
      naming the client, its person or its user, or referenced as the person's photo. */
  predicate HasToGo(a: Account, id: int) {
    && id in a.assets && !a.assets[id].deleted
    && (a.assets[id].status == Temporal || a.assets[id].status == Activo || a.assets[id].status == Reemplazado || a.assets[id].status == Fallido)
    && (a.assets[id].link == OfClient || a.assets[id].link == Contradictory || a.person.photo == Some(id))
  }

  /** A live row certified as the client's, at its own path and in no other quarantine. */
  predicate LiveOwn(x: Asset, request: Option<int>) {
    !x.deleted && x.status != Eliminado && x.certified && x.link == OfClient && x.path == Original && (x.quarantine == None || x.quarantine == request)
  }

  /** A row this request deleted before. */
  predicate OwnTombstone(x: Asset, request: int) {
    x.deleted && x.status == Eliminado && x.certified && x.link == Unlinked && x.path == Tombstone && x.receipt == DeletedBy(request)
  }

  lemma BelongsMeans(x: Asset, request: int)
    ensures Belongs(x, Some(request)) <==> LiveOwn(x, Some(request)) || OwnTombstone(x, request)
    ensures Belongs(x, None) <==> LiveOwn(x, None)
  {
  }

  /** The photo names an asset the client has, or there is none. */
  predicate PhotoResolves(a: Account) { if a.person.photo.Some? then a.person.photo.value in a.assets else !a.person.strayPhoto }

  /** Every row that has to go is certified as the client's own and in no quarantine. */
  predicate Certifiable(a: Account) {
    PhotoResolves(a) && forall id :: id in a.assets && HasToGo(a, id) ==> LiveOwn(a.assets[id], None)
  }

  /** No row has to go that the snapshot does not list. */
  predicate SnapshotCovers(a: Account) {
    a.request.assetIds.Some? && forall id :: id in a.assets && HasToGo(a, id) ==> id in a.request.assetIds.value
  }

  lemma SelectedMeans(a: Account)
    ensures forall id :: id in SelectedAssets(a) <==> HasToGo(a, id)
    ensures PhotoResolves(a) <==> !UnresolvedPhoto(a)
    ensures AllBelong(a, SelectedAssets(a), None) <==> forall id :: id in a.assets && HasToGo(a, id) ==> LiveOwn(a.assets[id], None)
    ensures a.request.assetIds.Some? ==> (SelectedAssets(a) <= a.request.assetIds.value <==> SnapshotCovers(a))
  {
    forall id ensures id in SelectedAssets(a) <==> HasToGo(a, id) {}
    if AllBelong(a, SelectedAssets(a), None) {
      forall id | id in a.assets && HasToGo(a, id) ensures LiveOwn(a.assets[id], None) {
        assert id in SelectedAssets(a);
      }
    } else {
      var id :| id in SelectedAssets(a) && !(id in a.assets && Belongs(a.assets[id], None));
      assert HasToGo(a, id) && !LiveOwn(a.assets[id], None);
    }
    if SnapshotCovers(a) {
      forall id | id in SelectedAssets(a) ensures id in a.request.assetIds.value { assert HasToGo(a, id); }
    } else if a.request.assetIds.Some? {
      var id :| id in a.assets && HasToGo(a, id) && id !in a.request.assetIds.value;
      assert id in SelectedAssets(a);
    }
  }

  /** An anonymization goes through exactly for a processed, disabled account whose rows to go
      can be certified, whose addresses nobody else uses and whose redaction succeeds; it then
      leaves nothing of the person but the redacted rows. */
  lemma AnonymizesIff(a: Account, redacts: bool)
    ensures Anonymize(a, redacts).reply.Done? <==>
      && a.request.authPending && a.request.estado == Procesando && a.request.processedAt
      && a.user == User(false, false, false, true) && a.client == Client(false, true, false)
      && !a.rolesActive && a.memberships == 0 && a.points <= 0
      && Certifiable(a) && !a.person.emailShared && redacts
    ensures var b := Anonymize(a, redacts);
      if b.reply.Done? then
        && b.account.person == Person(true, true, true, false, None, false) && b.account.client == Client(false, true, true)
        && b.account.user == User(false, false, false, true) && b.account.request.authPending
      else b.account == a
  {
    SelectedMeans(a);
  }

  /** An accepted anonymization snapshots exactly the rows that have to go, and waits for
      storage exactly when there are any. */
  lemma SnapshotExact(a: Account, redacts: bool)
    requires Anonymize(a, redacts).reply.Done?
    ensures var b := Anonymize(a, redacts).account;
      && b.request.assetIds.Some? && (forall id :: id in b.request.assetIds.value <==> HasToGo(a, id))
      && b.request.estado == (if exists id :: HasToGo(a, id) then StoragePendiente else AuthPendiente)
      && b.request.storagePending == |b.request.assetIds.value| && b.assets == a.assets && b.objects == a.objects
  {
    var ids := SelectedAssets(a);
    forall id ensures id in ids <==> HasToGo(a, id) {}
    if !(exists id :: HasToGo(a, id)) {
      forall id ensures id !in ids { assert !HasToGo(a, id); }
      EmptyWhen(ids);
    }
  }

  lemma EmptyWhen<T(!new)>(s: set<T>)
    requires forall x :: x !in s
    ensures s == {}
  {
  }

  lemma SnapshotMeans(a: Account, ids: set<int>)
    ensures AllBelong(a, ids, Some(a.id)) <==>
      forall id :: id in ids ==> id in a.assets && (LiveOwn(a.assets[id], Some(a.id)) || OwnTombstone(a.assets[id], a.id))
    ensures AllBelong(a, ids, Some(a.id)) ==> ids <= a.assets.Keys
  {
    forall id | id in a.assets
      ensures Belongs(a.assets[id], Some(a.id)) <==> LiveOwn(a.assets[id], Some(a.id)) || OwnTombstone(a.assets[id], a.id)
    {
      BelongsMeans(a.assets[id], a.id);
    }
    if AllBelong(a, ids, Some(a.id)) {
      forall id | id in ids ensures id in a.assets.Keys { assert id in a.assets; }
    }
  }

  /** A storage preparation goes through exactly for an anonymized account whose snapshot holds
      only live rows of its own and tombstones of this request, and lists every row that has to
      go; its live rows are then in quarantine and nothing else has changed. */
  lemma PreparesIff(a: Account)
    ensures PrepareStorage(a).reply.Done? <==>
      && a.request.authPending && a.request.estado == StoragePendiente && a.request.processedAt
      && a.client == Client(false, true, true) && !a.user.active && !a.user.access && a.user.deleted
      && SnapshotCovers(a) && PhotoResolves(a)
      && forall id :: id in a.request.assetIds.value ==>
           id in a.assets && (LiveOwn(a.assets[id], Some(a.id)) || OwnTombstone(a.assets[id], a.id))
    ensures var p := PrepareStorage(a);
      if p.reply.Done? then
        && p.account == a.(assets := p.account.assets) && p.account.assets.Keys == a.assets.Keys
        && forall id :: id in a.assets ==>
             p.account.assets[id] == (if id in a.request.assetIds.value && a.assets[id].status != Eliminado
                                      then a.assets[id].(status := Fallido, quarantine := Some(a.id)) else a.assets[id])
      else p.account == a
  {
    SelectedMeans(a);
    if a.request.assetIds.Some? {
      SnapshotMeans(a, a.request.assetIds.value);
      if SnapshotCovers(a) && AllBelong(a, a.request.assetIds.value, Some(a.id)) {
        assert AllBelong(a, SelectedAssets(a), Some(a.id));
      }
    }
  }

  /** What an accepted storage commit makes of each row of the snapshot: a removed object leaves a
      tombstone with this request's receipt, a failure a mark, anything else stays; and it counts
      the failures. */
  lemma FinalizedRows(a: Account, results: map<int, AssetResult>)
    requires !FinalizeStorage(a, results).reply.Denied?
    ensures var b := FinalizeStorage(a, results).account;
      && b.assets.Keys == a.assets.Keys && b.objects == a.objects && a.request.assetIds.Some?
      && (forall id :: id in a.assets ==>
            var x, y := a.assets[id], b.assets[id];
            if id in a.request.assetIds.value && id in results && results[id] == Removed then
              OwnTombstone(y.(certified := true), a.id) && y.quarantine == None && y.certified == x.certified
            else if id in a.request.assetIds.value && id in results && results[id] == Failed then
              y == x.(status := Fallido, receipt := FailedAttempt)
            else y == x)
      && b.request.storagePending == |set id | id in results && results[id] == Failed|
  {
    var failed := set id | id in results && results[id] == Failed;
    assert failed == FailedIds(results);
  }

  /** An Auth run begins exactly when every earlier stage has left its mark on every table. */
  lemma AuthBeginsIff(a: Account)
    ensures PrepareAuth(a).reply.Done? <==>
      && a.request.estado == AuthPendiente && a.request.processedAt && !a.request.completedAt && a.request.authPending
      && a.request.assetIds.Some? && a.request.storagePending == 0
      && a.user == User(false, false, false, true) && a.client == Client(false, true, true)
      && a.person.redacted && a.person.deleted && a.person.emailsTombstoned
      && !a.rolesActive && !a.protectedUser && a.memberships == 0 && a.points <= 0
      && forall id :: id in a.request.assetIds.value ==>
           id in a.assets && a.assets[id].status == Eliminado && a.assets[id].deleted && a.assets[id].link == Unlinked
    ensures PrepareAuth(a).account == a
  {
  }

  lemma StepKeepsSnapshot(w: World, l: Label)
    requires Inv(w) && Rank(w.a.request.estado) >= 2
    ensures Apply(w, l).a.request.assetIds == w.a.request.assetIds
  {
    match l
    case ConfirmStep(blocked) => ConfirmLayers(w.a, blocked);
    case ExecuteStep(recent, blocked, afterForfeit) => ExecuteLayers(w.a, recent, blocked, afterForfeit);
    case AnonymizeStep(redacts) => AnonymizeLayers(w.a, redacts);
    case BeginStorage => PrepareLayers(w.a);
    case _ =>
  }

  lemma {:induction false} RunKeepsSnapshot(w: World, labels: seq<Label>)
    requires Inv(w) && Rank(w.a.request.estado) >= 2
    ensures Run(w, labels).a.request.assetIds == w.a.request.assetIds
  {
    if labels != [] {
      RunKeepsSnapshot(w, labels[..|labels| - 1]);
      NeverBackward(w, labels[..|labels| - 1]);
      StepKeepsSnapshot(Run(w, labels[..|labels| - 1]), labels[|labels| - 1]);
    }
  }

  /** Whatever happened before the anonymization and happens after it: once the deletion is
      completed, every row that had to go when the account was anonymized is a tombstone
      without an object. */
  lemma AnonymizedMeansGone(w: World, before: seq<Label>, redacts: bool, after: seq<Label>)
    requires Begins(w)
    requires var u := Run(w, before); u.runner.Idle? && Anonymize(u.a, redacts).reply.Done?
    requires Run(Apply(Run(w, before), AnonymizeStep(redacts)), after).a.request.estado == Completada
    ensures var u, v := Run(w, before), Run(Apply(Run(w, before), AnonymizeStep(redacts)), after);
      forall id :: HasToGo(u.a, id) ==>
        && id in v.a.assets && v.a.assets[id].status == Eliminado && v.a.assets[id].deleted && id !in v.a.objects
  {
    var u := Run(w, before);
    LayersHold(w, before);
    SnapshotExact(u.a, redacts);
    TransactionKeeps(u, AnonymizeStep(redacts));
    var x := Apply(u, AnonymizeStep(redacts));
    assert x.a == Anonymize(u.a, redacts).account;
    RunKeeps(x, after);
    RunKeepsSnapshot(x, after);
  }

  /** Only objects of the request's own certified assets ever disappear, and only after the
      account was anonymized; the identity only after all of them are gone. */
  lemma ExternalEffectsInOrder(w: World, l: Label)
    requires Inv(w) && !l.Outside?
    ensures forall id :: id in w.a.objects && id !in Apply(w, l).a.objects ==>
              && Redacted(w.a) && id in w.a.request.assetIds.value && id in w.a.assets
              && w.a.assets[id].certified && (w.a.assets[id].link == OfClient || w.a.assets[id].receipt == DeletedBy(w.a.id))
              && (w.a.assets[id].quarantine.None? || w.a.assets[id].quarantine == Some(w.a.id) || w.a.assets[id].deleted)
    ensures w.a.authExists && !Apply(w, l).a.authExists ==> Redacted(w.a) && SnapshotCleared(w.a)
  {
    if Transaction(l) { TransactionsTouchNothing(w, l); }
  }

  lemma TransactionsTouchNothing(w: World, l: Label)
    requires Transaction(l)
    ensures Apply(w, l).a.objects == w.a.objects && Apply(w, l).a.authExists == w.a.authExists
  {
  }

  // ------------------------------------------------------------ resumability

  /** A processed account is anonymized exactly when its assets can be certified, nobody
      else uses its addresses and the redaction succeeds. */
  lemma ProcesandoContinuesIff(a: Account, redacts: bool)
    requires Layers(a) && a.request.estado == Procesando
    ensures Anonymize(a, redacts).reply.Done? <==> Certifiable(a) && !a.person.emailShared && redacts
    ensures Anonymize(a, redacts).reply.Done? ==> Rank(Anonymize(a, redacts).account.request.estado) > 1
  {
    SelectedMeans(a);
  }

  /** An account waiting for storage can always go on, unless a live asset of the client
      appeared that the snapshot does not list. */
  lemma StorageContinuesIff(a: Account)
    requires Layers(a) && a.request.estado == StoragePendiente
    ensures PrepareStorage(a).reply.Done? <==> SnapshotCovers(a)
  {
    var ids := a.request.assetIds.value;
    SnapshotUsable(a);
    SelectedMeans(a);
    if SnapshotCovers(a) {
      assert AllBelong(a, SelectedAssets(a), Some(a.id));
    }
  }

  lemma AuthContinues(a: Account)
    requires Layers(a) && a.request.estado == AuthPendiente
    ensures PrepareAuth(a).reply.Done?
    ensures FinalizeAuth(a).reply.Done? && FinalizeAuth(a).account.request.estado == Completada
  {
    assert GoneFor(a, a.request.assetIds.value);
  }

  /** The shortcut for an empty snapshot is never taken. */
  lemma NoAssetsUnreachable(a: Account)
    requires Layers(a) && PrepareStorage(a).reply.Done?
    ensures PrepareStorage(a).account.request.assetIds.Some? && PrepareStorage(a).account.request.assetIds.value != {}
  {
  }

  // ----------------------------------------------------- one stage at a time

  lemma PreparedRun(a: Account, gone: int -> bool)
    requires Layers(a) && PrepareStorage(a).reply.Done?
    ensures var b := PrepareStorage(a).account;
      && b.request.assetIds.Some? && b.request.assetIds.value <= b.assets.Keys && b.request.assetIds.value != {}
      && var results := Attempts(b, b.request.assetIds.value, gone);
         Inv(World(AfterRemovals(b, results), StorageRun({}, {}, results), {}, false))
         && StorageStage(a, gone) == FinalizeStorage(AfterRemovals(b, results), results)
  {
    PrepareLayers(a);
    NoAssetsUnreachable(a);
    var b := PrepareStorage(a).account;
    var ids := b.request.assetIds.value;
    var results := Attempts(b, ids, gone);
    var c := AfterRemovals(b, results);
    assert results.Keys == ids;
    assert Layers(c) by {
      forall id | id in ids ensures id in c.assets && Belongs(c.assets[id], Some(c.id)) && (Deleted(c.assets[id]) ==> id !in c.objects) {
        assert id in b.assets;
      }
    }
  }

  /** A storage stage advances to Auth exactly when no live asset appeared beside the snapshot
      and every object of the snapshot still stored goes; with such an asset it is refused and
      nothing changes, otherwise it stays and reports how many are left. */
  lemma StorageStageAdvancesIff(a: Account, gone: int -> bool)
    requires Layers(a) && a.request.estado == StoragePendiente
    ensures var s, ids := StorageStage(a, gone), a.request.assetIds.value;
      && Layers(s.account)
      && s.account.request.estado == (if s.reply.Done? then AuthPendiente else StoragePendiente)
      && (s.reply.Done? <==> SnapshotCovers(a) && forall id :: id in ids && id in a.objects ==> gone(id))
      && (s.reply.Denied? <==> !SnapshotCovers(a)) && (s.reply.Denied? ==> s.account == a)
      && (s.reply.Done? || s.reply.Partial? || s.reply.Denied?)
  {
    StorageContinuesIff(a);
    if SnapshotCovers(a) {
      PreparedRun(a, gone);
      var b := PrepareStorage(a).account;
      var results := Attempts(b, b.request.assetIds.value, gone);
      CommitStorageAdvances(World(AfterRemovals(b, results), StorageRun({}, {}, results), {}, false));
      NoneFailsIff(a, gone);
    }
  }

  lemma NoneFailsIff(a: Account, gone: int -> bool)
    requires Layers(a) && a.request.estado == StoragePendiente && PrepareStorage(a).reply.Done?
    ensures var b := PrepareStorage(a).account;
      && b.request.assetIds.Some? && b.request.assetIds.value <= b.assets.Keys
      && (FailedIds(Attempts(b, b.request.assetIds.value, gone)) == {} <==>
            forall id :: id in a.request.assetIds.value && id in a.objects ==> gone(id))
  {
    PrepareLayers(a);
    SnapshotUsable(a);
    var b := PrepareStorage(a).account;
    var ids := b.request.assetIds.value;
    var results := Attempts(b, ids, gone);
    forall id | id in ids ensures id in FailedIds(results) <==> id in a.objects && !gone(id) {
      assert id in results && id in b.assets;
      assert Deleted(b.assets[id]) ==> id !in a.objects by {
        assert Deleted(b.assets[id]) <==> Deleted(a.assets[id]);
      }
    }
    if FailedIds(results) == {} {
      forall id | id in ids && id in a.objects ensures gone(id) { assert id !in FailedIds(results); }
    } else {
      assert exists id :: id in FailedIds(results);
    }
  }

  /** An Auth stage completes exactly when the identity is absent at the end and every lookup
      it needed answered; otherwise it asks for a retry. */
  lemma AuthStageCompletesIff(a: Account, calls: AuthCalls)
    requires Layers(a) && a.request.estado == AuthPendiente
    ensures var s := AuthStage(a, calls);
      && Layers(s.account)
      && (s.reply.Done? || (s.reply.Denied? && s.reply.status == 503))
      && (s.reply.Done? <==> s.account.request.estado == Completada)
      && (s.reply.Done? <==>
            && calls.lookupAnswers
            && (a.authExists ==>
                 calls.deleteWorks && calls.secondCheckAnswers && (calls.deleteConfirmed || calls.firstCheckAnswers)))
  {
    AuthContinues(a);
    AuthContinues(a.(authExists := false));
  }

  predicate EverythingGoes(id: int) { true }

  const ALL_ANSWER := AuthCalls(true, true, true, true, true)

  /** The stage of the current state, with the providers answering. */
  function Advance(a: Account): Account {
    match a.request.estado
    case Procesando => Anonymize(a, true).account
    case StoragePendiente => StorageStage(a, EverythingGoes).account
    case AuthPendiente => AuthStage(a, ALL_ANSWER).account
    case _ => a
  }

  predicate Resumable(a: Account) {
    && (a.request.estado == Procesando ==> Certifiable(a) && !a.person.emailShared)
    && (a.request.estado == StoragePendiente && a.request.assetIds.Some? ==> SnapshotCovers(a))
  }

  lemma AdvanceFromStorage(a: Account)
    requires Layers(a) && a.request.estado == StoragePendiente
    ensures Advance(a) == (if Resumable(a) then StorageStage(a, EverythingGoes).account else a)
    ensures Resumable(a) ==> Layers(Advance(a)) && Advance(a).request.estado == AuthPendiente
  {
    StorageContinuesIff(a);
    if Resumable(a) {
      StorageStageAdvancesIff(a, EverythingGoes);
    }
  }

  lemma AdvanceFromAuth(a: Account)
    requires Layers(a) && a.request.estado == AuthPendiente
    ensures Advance(a).request.estado == Completada
  {
    AuthStageCompletesIff(a, ALL_ANSWER);
  }

  lemma AdvanceFromProcesando(a: Account)
    requires Layers(a) && a.request.estado == Procesando
    ensures !Resumable(a) ==> Advance(a) == a
    ensures Resumable(a) ==> Layers(Advance(a)) && Resumable(Advance(a)) && Rank(Advance(a).request.estado) in {2, 3}
  {
    AnonymizeLayers(a, true);
    ProcesandoContinuesIff(a, true);
  }

  /** From every state a crash can leave behind once processing began, three stages with the
      providers answering complete the deletion exactly when the assets still to be
      snapshotted can be certified, the addresses are the client's alone, and no live asset
      appeared beside the snapshot. */
  lemma ResumesToTheEndIff(a: Account)
    requires Layers(a) && Rank(a.request.estado) >= 1
    ensures Advance(Advance(Advance(a))).request.estado == Completada <==> Resumable(a)
  {
    if a.request.estado == Procesando {
      AdvanceFromProcesando(a);
      if Resumable(a) {
        var b := Advance(a);
        if b.request.estado == StoragePendiente {
          AdvanceFromStorage(b);
          AdvanceFromAuth(Advance(b));
        } else {
          AdvanceFromAuth(b);
        }
      }
    } else if a.request.estado == StoragePendiente {
      AdvanceFromStorage(a);
      if Resumable(a) {
        AdvanceFromAuth(Advance(a));
      }
    } else if a.request.estado == AuthPendiente {
      AdvanceFromAuth(a);
    }
  }

  lemma StepKeepsId(w: World, l: Label)
    ensures Apply(w, l).a.id == w.a.id
  {
  }

  lemma {:induction false} RunKeepsId(w: World, labels: seq<Label>)
    ensures Run(w, labels).a.id == w.a.id
  {
    if labels != [] {
      RunKeepsId(w, labels[..|labels| - 1]);
      StepKeepsId(Run(w, labels[..|labels| - 1]), labels[|labels| - 1]);
    }
  }

  /** Whatever other sessions do between two reads keeps the layers, the request and, once
      processing began, the progress. */
  lemma OtherSessions(a: Account, labels: seq<Label>)
    requires Layers(a)
    ensures var w := Run(World(a, Idle, {}, false), labels);
      && Inv(w) && w.a.id == a.id
      && (Rank(a.request.estado) >= 1 ==> Rank(a.request.estado) <= Rank(w.a.request.estado))
  {
    RunKeeps(World(a, Idle, {}, false), labels);
    RunKeepsId(World(a, Idle, {}, false), labels);
    if Rank(a.request.estado) >= 1 {
      NeverBackward(World(a, Idle, {}, false), labels);
    }
  }
}
