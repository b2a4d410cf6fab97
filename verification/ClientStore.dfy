/** The client deletion as the service performs it: transactions that update row after row,
    stage runners around external calls, and the orchestrator
    (src/services/accountDeletionService.js:1903-2126, 2652-3183, 3498-3964, 4154-4568, 4709-4829). */
module ClientStore {
  import opened ClientAccount
  import opened ClientSaga

  /** What the orchestrator answers. */
  datatype Final =
    | Completed(replay: bool) | Retryable(estado: Estado) | Refused(status: int, code: Code) | LimitReached

  /** What each pass of the orchestrator meets: clocks, previews, providers, and what other
      sessions do before and after its stage. */
  datatype Pass = Pass(
    recent: bool, blocked: bool, afterForfeit: int, redacts: bool, gone: int -> bool, calls: AuthCalls,
    meanwhile: Account -> Account, afterwards: Account -> Account)

  /** Other sessions only ever take steps the saga allows. */
  ghost predicate Concurrent(f: Account -> Account) {
    forall a :: Layers(a) ==>
      f(a).id == a.id && Layers(f(a)) && (Rank(a.request.estado) >= 1 ==> Rank(a.request.estado) <= Rank(f(a).request.estado))
  }

  ghost predicate FairPass(p: Pass) { Concurrent(p.meanwhile) && Concurrent(p.afterwards) }

  /** Nobody interferes and the checks pass; the providers may fail. */
  ghost predicate QuietPass(p: Pass) {
    && p.recent && !p.blocked && p.afterForfeit == 0 && p.redacts
    && forall a :: p.meanwhile(a) == a && p.afterwards(a) == a
  }

  /** The providers answer too. */
  ghost predicate SmoothPass(p: Pass) { QuietPass(p) && (forall id :: p.gone(id)) && p.calls == ALL_ANSWER }

  /** Nothing but the providers can keep the deletion from finishing. */
  predicate Ready(a: Account) {
    if a.request.estado == Evaluada
    then Execute(a, true, false, 0).reply.Done? && Certifiable(a) && !a.person.emailShared
    else Rank(a.request.estado) >= 1 && Resumable(a)
  }

  /** Without interference a ready account goes on from stage to stage, unless a provider fails. */
  lemma ReadyAdvances(a: Account, gone: int -> bool, calls: AuthCalls)
    requires Layers(a) && Ready(a)
    ensures a.request.estado == Evaluada ==>
      Execute(a, true, false, 0).reply.Done? && Ready(Execute(a, true, false, 0).account)
    ensures a.request.estado == Procesando ==> Anonymize(a, true).reply.Done? && Ready(Anonymize(a, true).account)
    ensures a.request.estado == StoragePendiente ==>
      if StorageStage(a, gone).reply.Done? then Ready(StorageStage(a, gone).account) else StorageStage(a, gone).reply.Partial?
    ensures a.request.estado == StoragePendiente && (forall id :: gone(id)) ==> StorageStage(a, gone).reply.Done?
    ensures a.request.estado == AuthPendiente ==>
      if AuthStage(a, calls).reply.Done? then Ready(AuthStage(a, calls).account) else AuthStage(a, calls).reply == Denied(503, AuthTemporaryFailure) || AuthStage(a, calls).reply == Denied(503, AuthVerificationFailed)
    ensures a.request.estado == AuthPendiente && calls == ALL_ANSWER ==> AuthStage(a, calls).reply.Done?
  {
    if a.request.estado == Evaluada {
      var b := Processed(a);
      assert forall id :: HasToGo(b, id) <==> HasToGo(a, id);
    } else if a.request.estado == Procesando {
      AdvanceFromProcesando(a);
    } else if a.request.estado == StoragePendiente {
      StorageStageAdvancesIff(a, gone);
    } else if a.request.estado == AuthPendiente {
      AuthStageCompletesIff(a, calls);
    }
  }

  class AccountStore {
    const id: int
    var request: Request
    var user: User
    var client: Client
    var person: Person
    var rolesActive: bool
    var protectedUser: bool
    var memberships: nat
    var points: int
    var assets: map<int, Asset>
    var objects: set<int>
    var authExists: bool

    constructor (a: Account)
      ensures Value() == a
    {
      id, request, user, client, person := a.id, a.request, a.user, a.client, a.person;
      rolesActive, protectedUser, memberships, points := a.rolesActive, a.protectedUser, a.memberships, a.points;
      assets, objects, authExists := a.assets, a.objects, a.authExists;
    }

    function Value(): Account
      reads this
    {
      Account(id, request, user, client, person, rolesActive, protectedUser, memberships, points, assets, objects, authExists)
    }

    method Set(a: Account)
      requires a.id == id
      modifies this
      ensures Value() == a
    {
      request, user, client, person := a.request, a.user, a.client, a.person;
      rolesActive, protectedUser, memberships, points := a.rolesActive, a.protectedUser, a.memberships, a.points;
      assets, objects, authExists := a.assets, a.objects, a.authExists;
    }

    method Confirm(blocked: bool) returns (reply: Reply)
      modifies this`request
      ensures Result(Value(), reply) == ClientAccount.Confirm(old(Value()), blocked)
      ensures reply.Done? || reply.Replayed? <==> request.estado == Evaluada && request.reauthenticated && !reply.Denied?
      ensures reply.Done? ==> !blocked && !protectedUser
      ensures reply.Denied? || reply.Replayed? ==> request == old(request)
    {
      if request.estado == Evaluada && request.reauthenticated {
        return Replayed;
      }
      if request.estado != PendienteConfirmacion && request.estado != Bloqueada {
        return Denied(409, ConfirmationStateInvalid);
      }
      if !client.active || client.deleted || client.anonymized {
        return Denied(404, ContextNotFound);
      }
      var shouldBlock := blocked || protectedUser;
      request := request.(estado := if shouldBlock then Bloqueada else Evaluada, reauthenticated := !shouldBlock);
      return if shouldBlock then BlockedNow else Done;
    }

    method ExecuteInternal(recent: bool, blocked: bool, afterForfeit: int) returns (reply: Reply)
      modifies this
      ensures Result(Value(), reply) == Execute(old(Value()), recent, blocked, afterForfeit)
    {
      if request.estado == Procesando {
        return Replayed;
      }
      if request.estado != Evaluada || !request.reauthenticated {
        return Denied(409, RequestStateInvalid);
      }
      if !recent {
        return Denied(401, ReauthExpired);
      }
      if !client.active || client.deleted || client.anonymized {
        return Denied(404, ContextNotFound);
      }
      if blocked || protectedUser {
        request := request.(estado := Bloqueada, reauthenticated := false, processedAt := false, authPending := false);
        return BlockedNow;
      }
      var savepoint := Value();
      request := request.(estado := Procesando, processedAt := true, authPending := true);
      memberships := 0;
      if points > 0 {
        points := afterForfeit;
      }
      if points != 0 {
        Set(savepoint);
        return Denied(500, PointsNotClosed);
      }
      rolesActive := false;
      user := User(false, false, false, true);
      client := client.(active := false, deleted := true);
      return Done;
    }

    /** Goes through a list of assets and stops at the first that cannot be certified. */
    method ValidateAssets(ids: set<int>, forRequest: Option<int>) returns (ok: bool)
      requires ids <= assets.Keys
      ensures ok <==> AllBelong(Value(), ids, forRequest)
    {
      var rest := ids;
      while exists x :: x in rest
        invariant rest <= ids
        invariant forall x :: x in ids - rest ==> Belongs(assets[x], forRequest)
        decreases |rest|
      {
        var x :| x in rest;
        if !Belongs(assets[x], forRequest) {
          return false;
        }
        rest := rest - {x};
      }
      return true;
    }

    method AnonymizeInternal(redacts: bool) returns (reply: Reply)
      modifies this
      ensures Result(Value(), reply) == Anonymize(old(Value()), redacts)
      ensures !reply.Done? ==> Value() == old(Value())
      ensures reply.Done? ==> request.assetIds.Some? && forall x :: x in request.assetIds.value <==> HasToGo(old(Value()), x)
    {
      if Anonymize(Value(), redacts).reply.Done? { SnapshotExact(Value(), redacts); }
      if !request.authPending {
        return Denied(404, RequestNotFound);
      }
      if request.estado == StoragePendiente || request.estado == AuthPendiente {
        if client.anonymized {
          return Replayed;
        }
      }
      if request.estado != Procesando || !request.processedAt {
        return Denied(409, AnonymizationStateInvalid);
      }
      if !ReadyToAnonymize(Value()) {
        return Denied(409, InternalPrecondition);
      }
      var own := SelectedAssets(Value());
      if UnresolvedPhoto(Value()) {
        return Denied(409, OwnershipInvalid);
      }
      var certified := ValidateAssets(own, None);
      if !certified {
        return Denied(409, OwnershipInvalid);
      }
      var savepoint := Value();
      person := person.(redacted := true, deleted := true, photo := None, strayPhoto := false);
      client := Client(false, true, true);
      user := User(false, false, false, true);
      person := person.(emailsTombstoned := true);
      if !redacts || person.emailShared {
        Set(savepoint);
        return Denied(500, VerificationFailed);
      }
      request := request.(estado := if |own| > 0 then StoragePendiente else AuthPendiente,
                          assetIds := Some(own), storagePending := |own|, authPending := true);
      return Done;
    }

    method PrepareStorage() returns (reply: Reply)
      modifies this`assets
      ensures Result(Value(), reply) == ClientAccount.PrepareStorage(old(Value()))
      ensures !reply.Done? ==> assets == old(assets)
      ensures reply.Done? ==> request.assetIds.Some? && HeldForRequest(Value(), old(assets), request.assetIds.value)
    {
      if ClientAccount.PrepareStorage(Value()).reply.Done? { PreparedIsHeld(Value()); }
      if !request.authPending {
        return Denied(404, RequestNotFound);
      }
      if request.estado == AuthPendiente && client.anonymized {
        return Replayed;
      }
      if request.estado != StoragePendiente || !request.processedAt {
        return Denied(409, StorageStateInvalid);
      }
      if !ReadyForStorage(Value()) {
        return Denied(409, StoragePrecondition);
      }
      if request.assetIds.None? {
        return Denied(500, StorageReferencesInvalid);
      }
      var ids := request.assetIds.value;
      if !(ids <= assets.Keys) {
        return Denied(500, StorageAssetNotFound);
      }
      var valid := ValidateAssets(ids, Some(id));
      if !valid {
        return Denied(409, OwnershipInvalid);
      }
      var current := SelectedAssets(Value());
      if UnresolvedPhoto(Value()) {
        return Denied(409, OwnershipInvalid);
      }
      valid := ValidateAssets(current, Some(id));
      if !valid || !(current <= ids) {
        return Denied(409, OwnershipInvalid);
      }
      Quarantine(ids);
      return Done;
    }

    /** Puts every row of the list that still exists under this request's quarantine. */
    method Quarantine(ids: set<int>)
      requires ids <= assets.Keys
      modifies this`assets
      ensures Value() == Quarantined(old(Value()), ids)
    {
      var rest := ids;
      while exists x :: x in rest
        invariant rest <= ids && assets.Keys == old(assets).Keys
        invariant RowsTo(old(assets), assets, ids - rest, row => QuarantinedRow(row, id))
        decreases |rest|
      {
        var x :| x in rest;
        if assets[x].status != Eliminado {
          assets := assets[x := assets[x].(status := Fallido)];
          assets := assets[x := assets[x].(quarantine := Some(id))];
        }
        rest := rest - {x};
      }
      ghost var whole := Quarantined(old(Value()), ids).assets;
      forall x | x in assets ensures x in whole && assets[x] == whole[x] {}
      SameRows(assets, whole);
    }

    /** One asset against the object store: nothing to do, already absent, or an attempt. */
    method ProcessAsset(x: int, gone: int -> bool) returns (r: AssetResult)
      requires x in assets
      modifies this`objects
      ensures r == Attempt(old(Value()), x, gone)
      ensures objects == if r == Removed then old(objects) - {x} else old(objects)
    {
      if assets[x].status == Eliminado && assets[x].deleted {
        return AlreadyDeleted;
      }
      if x !in objects {
        return Removed;
      }
      if gone(x) {
        objects := objects - {x};
      }
      return if x !in objects then Removed else AssetResult.Failed;
    }

    method ProcessAssets(ids: set<int>, gone: int -> bool) returns (results: map<int, AssetResult>)
      requires ids <= assets.Keys
      modifies this`objects
      ensures results == Attempts(old(Value()), ids, gone)
      ensures Value() == AfterRemovals(old(Value()), results)
    {
      results := map[];
      var rest := ids;
      while exists x :: x in rest
        invariant rest <= ids && results.Keys == ids - rest
        invariant forall x :: x in results ==> results[x] == Attempt(old(Value()), x, gone)
        invariant forall x :: x in objects <==> x in old(objects) && (x !in results || results[x] != Removed)
        decreases |rest|
      {
        var x :| x in rest;
        var r := ProcessAsset(x, gone);
        results := results[x := r];
        rest := rest - {x};
      }
      ghost var kept := AfterRemovals(old(Value()), results).objects;
      assert forall x :: x in kept <==> x in objects;
      assert objects == kept;
    }

    method FinalizeStorage(results: map<int, AssetResult>) returns (reply: Reply)
      modifies this
      ensures Result(Value(), reply) == ClientAccount.FinalizeStorage(old(Value()), results)
      ensures reply.Denied? ==> Value() == old(Value())
    {
      if !request.authPending {
        return Denied(404, RequestNotFound);
      }
      if request.estado != StoragePendiente || !request.processedAt {
        return Denied(409, StorageStateInvalid);
      }
      if request.assetIds.None? {
        return Denied(500, StorageReferencesInvalid);
      }
      var ids := request.assetIds.value;
      if !(ids <= assets.Keys) {
        return Denied(500, StorageAssetNotFound);
      }
      var valid := ValidateAssets(ids, Some(id));
      if !valid {
        return Denied(409, OwnershipInvalid);
      }
      TombstoneDeleted(ids, results);
      ghost var between := assets;
      var failed := MarkFailed(ids, results);
      MarkedIsApplied(old(Value()), between, assets, ids, results);
      request := request.(estado := if failed == 0 then AuthPendiente else StoragePendiente,
                          storagePending := failed, authPending := true);
      return if failed == 0 then Done else Partial(failed);
    }

    /** The loop over the results that removed an object. */
    method TombstoneDeleted(ids: set<int>, results: map<int, AssetResult>)
      requires ids <= assets.Keys
      modifies this`assets
      ensures RowsTo(old(assets), assets, ids * WithResult(results, Removed), row => TombstoneOf(row, id))
    {
      var rest := results.Keys;
      while exists x :: x in rest
        invariant rest <= results.Keys
        invariant RowsTo(old(assets), assets, ids * (WithResult(results, Removed) - rest), row => TombstoneOf(row, id))
        decreases |rest|
      {
        var x :| x in rest;
        if results[x] == Removed && x in ids {
          assets := assets[x := TombstoneOf(assets[x], id)];
        }
        rest := rest - {x};
      }
    }

    /** The loop over the results that failed; `failed` counts them all. */
    method MarkFailed(ids: set<int>, results: map<int, AssetResult>) returns (failed: nat)
      requires ids <= assets.Keys
      modifies this`assets
      ensures failed == |FailedIds(results)|
      ensures RowsTo(old(assets), assets, ids * FailedIds(results), FailureOf)
    {
      var rest := results.Keys;
      failed := 0;
      ghost var counted: set<int> := {};
      while exists x :: x in rest
        invariant rest <= results.Keys
        invariant counted == FailedIds(results) - rest && failed == |counted|
        invariant RowsTo(old(assets), assets, ids * (FailedIds(results) - rest), FailureOf)
        decreases |rest|
      {
        var x :| x in rest;
        if results[x] == AssetResult.Failed {
          failed, counted := failed + 1, counted + {x};
          if x in ids {
            assets := assets[x := FailureOf(assets[x])];
          }
        }
        rest := rest - {x};
      }
      assert counted == FailedIds(results);
    }

    method MarkNoAssets() returns (reply: Reply)
      modifies this`request
      ensures Result(Value(), reply) == ClientAccount.MarkNoAssets(old(Value()))
    {
      if !request.authPending {
        return Denied(404, RequestNotFound);
      }
      request := request.(estado := AuthPendiente, storagePending := 0);
      return Done;
    }

    method RunStorageCleanup(gone: int -> bool) returns (reply: Reply)
      modifies this
      ensures Result(Value(), reply) == StorageStage(old(Value()), gone)
    {
      reply := PrepareStorage();
      if reply.Done? {
        var ids := request.assetIds.value;
        if ids == {} {
          reply := MarkNoAssets();
        } else {
          var results := ProcessAssets(ids, gone);
          reply := FinalizeStorage(results);
        }
      }
    }

    method PrepareAuth() returns (reply: Reply)
      ensures Result(Value(), reply) == ClientAccount.PrepareAuth(Value())
    {
      if request.estado == Completada && request.completedAt && !request.authPending {
        return Replayed;
      }
      if request.estado != AuthPendiente || !request.processedAt || request.completedAt || !request.authPending {
        return Denied(409, AuthStateInvalid);
      }
      return if ReadyForAuth(Value()) then Done else Denied(409, ClientAccount.AuthPrecondition);
    }

    method FinalizeAuth() returns (reply: Reply)
      modifies this`request
      ensures Result(Value(), reply) == ClientAccount.FinalizeAuth(old(Value()))
    {
      reply := PrepareAuth();
      if reply.Done? {
        request := request.(estado := Completada, completedAt := true, authPending := false, storagePending := 0);
      }
    }

    method RunAuthCleanup(calls: AuthCalls) returns (reply: Reply)
      modifies this
      ensures Result(Value(), reply) == AuthStage(old(Value()), calls)
    {
      reply := PrepareAuth();
      if !reply.Done? {
        return;
      }
      if !calls.lookupAnswers {
        return Denied(503, AuthTemporaryFailure);
      }
      if authExists {
        if calls.deleteWorks {
          authExists := false;
        }
        if !calls.deleteConfirmed {
          if !calls.firstCheckAnswers || authExists {
            return Denied(503, AuthTemporaryFailure);
          }
        }
        if !calls.secondCheckAnswers {
          return Denied(503, AuthTemporaryFailure);
        }
        if authExists {
          return Denied(503, AuthVerificationFailed);
        }
      }
      reply := FinalizeAuth();
    }

    /** The stages that only touch tables: execution and anonymization. */
    method RunTableStage(read: Estado, p: Pass) returns (f: Option<Final>)
      requires Layers(Value()) && (read == Evaluada || read == Procesando)
      requires Rank(read) <= Rank(request.estado)
      modifies this
      ensures Layers(Value())
      ensures if f.None? then Rank(read) < Rank(request.estado) else f.value.Refused?
      ensures read == old(Value()).request.estado && Ready(old(Value())) && QuietPass(p) ==> f.None? && Ready(Value())
    {
      if read == request.estado && Ready(Value()) {
        ReadyAdvances(Value(), p.gone, p.calls);
      }
      ghost var before := Value();
      var reply: Reply;
      if read == Evaluada {
        ExecuteLayers(before, p.recent, p.blocked, p.afterForfeit);
        reply := ExecuteInternal(p.recent, p.blocked, p.afterForfeit);
        if reply.BlockedNow? {
          return Some(Refused(409, DeletionBlocked));
        }
        if reply == Denied(401, ReauthExpired) {
          return Some(Refused(401, ReauthRequired));
        }
      } else {
        AnonymizeLayers(before, p.redacts);
        reply := AnonymizeInternal(p.redacts);
      }
      return if reply.Denied? then Some(Refused(reply.status, reply.code)) else None;
    }

    /** The stages around the providers: storage and Auth. A retry is asked for in the state the
        request is in. */
    method RunCleanupStage(read: Estado, p: Pass) returns (f: Option<Final>)
      requires Layers(Value()) && (read == StoragePendiente || read == AuthPendiente)
      requires Rank(read) <= Rank(request.estado)
      modifies this
      ensures Layers(Value())
      ensures f.None? ==> Rank(read) < Rank(request.estado)
      ensures f.Some? ==> f.value.Refused? || (f.value.Retryable? && f.value.estado == read == request.estado)
      ensures read == old(Value()).request.estado && Ready(old(Value())) && QuietPass(p) ==>
        if f.None? then Ready(Value()) else f.value.Retryable?
      ensures read == old(Value()).request.estado && Ready(old(Value())) && SmoothPass(p) ==> f.None?
    {
      if read == request.estado && Ready(Value()) {
        ReadyAdvances(Value(), p.gone, p.calls);
      }
      ghost var before := Value();
      var reply: Reply;
      if read == StoragePendiente {
        StorageStageKeeps(before, p.gone);
        PartialStays(before, p.gone);
        reply := RunStorageCleanup(p.gone);
        if reply.Partial? {
          return Some(Retryable(read));
        }
      } else {
        AuthStageKeeps(before, p.calls);
        reply := RunAuthCleanup(p.calls);
        if reply.Denied? && reply.status == 503 {
          return Some(Retryable(read));
        }
      }
      return if reply.Denied? then Some(Refused(reply.status, reply.code)) else None;
    }

    /** One stage, chosen by the state read; `None` means that the loop goes on. */
    method RunStage(read: Estado, p: Pass) returns (f: Option<Final>)
      requires Layers(Value()) && Rank(read) <= 3 && (Rank(read) >= 1 || read == Evaluada)
      requires Rank(read) >= 1 ==> Rank(read) <= Rank(request.estado)
      modifies this
      ensures Layers(Value())
      ensures f.None? ==> Rank(read) < Rank(request.estado)
      ensures f.Some? ==> f.value.Refused? || (f.value.Retryable? && f.value.estado == read == request.estado && Rank(read) >= 2)
      ensures read == old(Value()).request.estado && Ready(old(Value())) && QuietPass(p) ==>
        if f.None? then Ready(Value()) else f.value.Retryable?
      ensures read == old(Value()).request.estado && Ready(old(Value())) && SmoothPass(p) ==> f.None?
    {
      if read == Evaluada || read == Procesando {
        f := RunTableStage(read, p);
      } else {
        f := RunCleanupStage(read, p);
      }
    }

    /** Other sessions take their steps. */
    method Interfere(f: Account -> Account)
      requires Layers(Value()) && Concurrent(f)
      modifies this
      ensures Value() == f(old(Value())) && Layers(Value())
      ensures Rank(old(request.estado)) >= 1 ==> Rank(old(request.estado)) <= Rank(request.estado)
      ensures (forall a :: f(a) == a) ==> Value() == old(Value())
    {
      Set(f(Value()));
    }

    /** What happens between one read and the next: other sessions, the stage, other sessions. */
    method OnePass(read: Estado, p: Pass) returns (f: Option<Final>)
      requires Layers(Value()) && FairPass(p) && read == request.estado && Rank(read) <= 3 && (Rank(read) >= 1 || read == Evaluada)
      modifies this
      ensures Layers(Value())
      ensures f.None? ==> Rank(read) < Rank(request.estado)
      ensures f.Some? ==>
        f.value.Refused? || (f.value.Retryable? && f.value.estado == request.estado && request.estado in {StoragePendiente, AuthPendiente})
      ensures Ready(old(Value())) && QuietPass(p) ==> if f.None? then Ready(Value()) else f.value.Retryable?
      ensures Ready(old(Value())) && SmoothPass(p) ==> f.None?
    {
      Interfere(p.meanwhile);
      f := RunStage(read, p);
      if f.None? {
        Interfere(p.afterwards);
      }
    }

    /** The orchestrator: read the state, run its stage, read again. It never needs a sixth
        read, whatever other sessions do, reports completion only when it is one, and asks for a
        retry naming the state the request is in. When nothing but the providers stands in the
        way it completes or asks for a retry, and it completes when they answer. */
    method Orchestrate(passes: nat -> Pass) returns (f: Final, readings: nat)
      requires Layers(Value()) && forall n :: FairPass(passes(n))
      modifies this
      ensures Layers(Value()) && readings <= 5 && !f.LimitReached?
      ensures f.Completed? ==> request.estado == Completada && (f.replay <==> readings == 1)
      ensures old(request.estado) == Completada ==> f.Completed? && f.replay && Value() == old(Value())
      ensures f.Retryable? ==> f.estado == request.estado && request.estado in {StoragePendiente, AuthPendiente}
      ensures Ready(old(Value())) && (forall n :: QuietPass(passes(n))) ==> f.Completed? || f.Retryable?
      ensures Ready(old(Value())) && (forall n :: SmoothPass(passes(n))) ==> f.Completed?
    {
      var initial := request.estado;
      readings := 0;
      while readings < 6
        invariant Layers(Value())
        invariant readings <= Rank(request.estado)
        invariant readings == 0 ==> Value() == old(Value())
        invariant readings > 0 ==> initial != Completada
        invariant Ready(old(Value())) && (forall n :: QuietPass(passes(n))) ==> Ready(Value())
        decreases 6 - readings
      {
        assert Rank(request.estado) <= 4;
        var read := request.estado;
        var p := passes(readings);
        readings := readings + 1;
        if Rank(read) == 0 && read != Evaluada {
          return Refused(409, ExecutionStateInvalid), readings;
        }
        if read == Completada {
          return Completed(initial == Completada), readings;
        }
        assert FairPass(p);
        var stage := OnePass(read, p);
        if stage.Some? {
          return stage.value, readings;
        }
      }
      assert false;
      f := LimitReached;
    }
  }

  function WithResult(results: map<int, AssetResult>, r: AssetResult): set<int> { set x | x in results && results[x] == r }

  /** The rows in `hit` became what `f` makes of them; no other row changed. */
  ghost predicate RowsTo(before: map<int, Asset>, after: map<int, Asset>, hit: set<int>, f: Asset -> Asset) {
    && after.Keys == before.Keys && (forall x :: x in after <==> x in before)
    && forall x :: x in before ==> after[x] == (if x in hit then f(before[x]) else before[x])
  }

  lemma SameRows<K, V>(a: map<K, V>, b: map<K, V>)
    requires (forall x :: x in a <==> x in b) && forall x :: x in a ==> a[x] == b[x]
    ensures a == b
  {
  }

  /** After an accepted preparation every live asset of the client is in the snapshot, the
      snapshot is this request's and its rows are in its quarantine; other rows are as before. */
  ghost predicate HeldForRequest(a: Account, before: map<int, Asset>, ids: set<int>) {
    && (forall id :: HasToGo(a, id) ==> id in ids) && AllBelong(a, ids, Some(a.id)) && (forall x :: x in before <==> x in a.assets)
    && (forall x :: x in before && x !in ids ==> a.assets[x] == before[x])
    && (forall x :: x in before && x in ids && before[x].status != Eliminado ==>
          a.assets[x].status == Fallido && a.assets[x].quarantine == Some(a.id))
  }

  lemma PreparedIsHeld(a: Account)
    requires PrepareStorage(a).reply.Done?
    ensures a.request.assetIds.Some? && HeldForRequest(PrepareStorage(a).account, a.assets, a.request.assetIds.value)
  {
    var b := PrepareStorage(a).account;
    PreparesIff(a);
    forall x | HasToGo(b, x) ensures HasToGo(a, x) {
      assert b.assets[x] == a.assets[x] || b.assets[x] == QuarantinedRow(a.assets[x], a.id);
    }
  }

  /** Tombstones and failure marks, one row after another, are what the results say. */
  lemma MarkedIsApplied(
    before: Account, between: map<int, Asset>, after: map<int, Asset>, ids: set<int>, results: map<int, AssetResult>)
    requires RowsTo(before.assets, between, ids * WithResult(results, Removed), row => TombstoneOf(row, before.id))
    requires RowsTo(between, after, ids * FailedIds(results), FailureOf)
    ensures after == Applied(before, ids, results)
  {
    var whole := Applied(before, ids, results);
    forall x | x in after ensures x in whole && after[x] == whole[x] {
      assert x in between && x in before.assets;
    }
    SameRows(after, whole);
  }

  lemma PartialStays(a: Account, gone: int -> bool)
    ensures StorageStage(a, gone).reply.Partial? ==> StorageStage(a, gone).account.request.estado == StoragePendiente
  {
  }

  lemma StorageStageKeeps(a: Account, gone: int -> bool)
    requires Layers(a)
    ensures var s := StorageStage(a, gone);
      Layers(s.account) && (s.reply.Done? || s.reply.Replayed? ==> Rank(s.account.request.estado) > 2)
    ensures !StorageStage(a, gone).reply.BlockedNow?
  {
    if PrepareStorage(a).reply.Done? {
      PrepareLayers(a);
      StorageContinuesIff(a);
      StorageStageAdvancesIff(a, gone);
    }
  }

  lemma AuthStageKeeps(a: Account, calls: AuthCalls)
    requires Layers(a)
    ensures var s := AuthStage(a, calls);
      Layers(s.account) && (s.reply.Done? || s.reply.Replayed? ==> Rank(s.account.request.estado) == 4)
    ensures AuthStage(a, calls).reply.Done? || AuthStage(a, calls).reply.Replayed? || AuthStage(a, calls).reply.Denied?
  {
    if PrepareAuth(a).reply.Done? {
      AuthStageCompletesIff(a, calls);
    }
  }
}
