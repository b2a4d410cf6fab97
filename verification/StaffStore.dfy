/** The staff deletion as the service performs it, with commits whose answer may be lost
    (src/services/accountDeletionService.js:5692-6452). */
module StaffStore {
  import opened StaffDeletion

  /** What happens to a COMMIT: confirmed, applied with the answer lost, or lost before it. */
  datatype Fate = Confirmed | LostApplied | LostUndone

  datatype Final = Completed(replay: bool) | Pending(estado: Estado) | Refused(status: int, code: Code) | LimitReached

  datatype Pass = Pass(
    blockers: bool, gone: int -> bool, calls: AuthCalls, prepareFate: Fate, commitFate: Fate,
    meanwhile: Account -> Account, afterwards: Account -> Account)

  /** Other sessions only ever take steps the saga allows. */
  ghost predicate Concurrent(f: Account -> Account) {
    forall a :: Layers(a) ==> Layers(f(a)) && (Rank(a.estado) >= 1 ==> Rank(a.estado) <= Rank(f(a).estado))
  }

  ghost predicate FairPass(p: Pass) { Concurrent(p.meanwhile) && Concurrent(p.afterwards) }

  /** Nobody interferes, no dependency reappears and commits are confirmed; the providers may fail. */
  ghost predicate QuietPass(p: Pass) {
    && !p.blockers && p.prepareFate == Confirmed && p.commitFate == Confirmed
    && forall a :: p.meanwhile(a) == a && p.afterwards(a) == a
  }

  /** The providers answer too. */
  ghost predicate SmoothPass(p: Pass) { QuietPass(p) && (forall id :: p.gone(id)) && p.calls == AuthCalls(true, true, true) }

  /** Nothing but the providers can keep the deletion from finishing. */
  predicate Ready(a: Account) {
    if a.estado == Aprobada then Execute(a, false).reply.Done?
    else Rank(a.estado) >= 1 && (Rank(a.estado) <= 2 ==> NoStrangers(a))
  }

  lemma ExecutedIsReady(a: Account)
    requires Layers(a) && a.estado == Aprobada && Execute(a, false).reply.Done?
    ensures Ready(Execute(a, false).account) && Layers(Execute(a, false).account)
  {
    ExecutionDisables(a, false);
  }

  /** Without interference a ready account goes on from stage to stage, unless a provider fails. */
  lemma ReadyAdvances(a: Account, gone: int -> bool, calls: AuthCalls)
    requires Layers(a) && Ready(a)
    ensures a.estado == Aprobada ==> Execute(a, false).reply.Done? && Ready(Execute(a, false).account)
    ensures a.estado == Procesando ==> Anonymize(a).reply.Done? && Ready(Anonymize(a).account)
    ensures a.estado == StoragePendiente ==>
      var s := StorageStage(a, gone); (s.reply.Done? && Ready(s.account)) || s.reply.Incomplete?
    ensures a.estado == StoragePendiente && (forall id :: gone(id)) ==> StorageStage(a, gone).reply.Done?
    ensures a.estado == AuthPendiente ==>
      var s := AuthStage(a, calls); (s.reply.Done? && Ready(s.account)) || s.reply == Denied(503, AuthTemporaryFailure)
    ensures a.estado == AuthPendiente && calls == AuthCalls(true, true, true) ==> AuthStage(a, calls).reply.Done?
  {
    if a.estado == Aprobada {
      ExecutedIsReady(a);
    } else if a.estado == StoragePendiente {
      StorageStageAdvancesIff(a, gone);
      ReadyIsIncomplete(a, gone);
    } else if a.estado == AuthPendiente {
      AuthStageCompletesIff(a, calls);
    }
  }

  lemma ReadyIsIncomplete(a: Account, gone: int -> bool)
    requires Layers(a) && a.estado == StoragePendiente && NoStrangers(a)
    ensures StorageStage(a, gone).reply.Done? || StorageStage(a, gone).reply.Incomplete?
  {
    PrepareStorageLayers(a);
    var b := PrepareStorage(a).account;
    var ids := b.assetIds.value;
    var left := set id | id in b.objects && !(id in ids && gone(id));
    var lost := set id | id in ids && gone(id);
    assert left == b.objects - lost;
    RemovalsKeepLayers(b, lost);
    StandsIff(b.(objects := left));
  }

  class StaffRecord {
    var a: Account

    constructor (a: Account)
      ensures this.a == a
    {
      this.a := a;
    }

    method ValidateAssets(ids: set<int>) returns (ok: bool)
      requires ids <= a.assets.Keys
      ensures ok <==> AllValid(a, ids)
    {
      var rest := ids;
      while exists x :: x in rest
        invariant rest <= ids
        invariant forall x :: x in ids - rest ==> Valid(a.assets[x])
        decreases |rest|
      {
        var x :| x in rest;
        if !Valid(a.assets[x]) {
          return false;
        }
        rest := rest - {x};
      }
      return true;
    }

    method ExecuteInternal(blockers: bool) returns (reply: Reply)
      modifies this
      ensures Result(a, reply) == Execute(old(a), blockers)
    {
      if !a.approved {
        return Denied(409, ApprovalRequired);
      }
      if a.estado != Aprobada {
        return Denied(409, StateInvalid);
      }
      if a.protectedRole || a.protectedUser {
        return Denied(403, ProtectedAccount);
      }
      if blockers || a.sharedIdentity {
        return Denied(409, DependenciesReappeared);
      }
      var own := SelectedAssets(a);
      if UnresolvedPhoto(a) {
        return Denied(409, OwnershipAmbiguous);
      }
      var valid := ValidateAssets(own);
      if !valid {
        return Denied(409, OwnershipAmbiguous);
      }
      a := a.(employeesActive := false);
      a := a.(rolesActive := false, protectedRole := false);
      a := a.(sessionsActive := false);
      a := a.(userActive := false, userAccess := false, hasPassword := false, userDeleted := true);
      a := a.(estado := Procesando, processedAt := true, authPending := true, assetIds := Some(own));
      return Done;
    }

    method AnonymizeInternal() returns (reply: Reply)
      modifies this
      ensures Result(a, reply) == Anonymize(old(a))
    {
      if !a.approved {
        return Denied(409, ApprovalRequired);
      }
      if a.estado != Procesando {
        return Denied(409, StateInvalid);
      }
      a := a.(emailsTombstoned := true);
      a := a.(redacted := true, photo := None, strayPhoto := false);
      a := a.(estado := StoragePendiente, authPending := true);
      return Done;
    }

    /** Runs a transaction's outcome through its commit; true when the answer arrived. */
    method Commit(next: Account, fate: Fate) returns (confirmed: bool)
      modifies this
      ensures a == if fate == LostUndone then old(a) else next
      ensures confirmed <==> fate == Confirmed
    {
      if fate != LostUndone {
        a := next;
      }
      return fate == Confirmed;
    }

    /** After an error: believe the stored state, and only note the failure while storage is
        still pending. */
    method Reconcile(commitPending: bool) returns (processed: bool)
      modifies this
      ensures a == if old(a).estado == StoragePendiente then old(a).(storageProcessed := false) else old(a)
      ensures processed <==> commitPending && (a.estado == AuthPendiente || a.estado == Completada) && old(a).storageProcessed
    {
      if commitPending && (a.estado == AuthPendiente || a.estado == Completada) && a.storageProcessed {
        return true;
      }
      if a.estado == StoragePendiente {
        a := a.(storageProcessed := false);
      }
      return false;
    }

    method RemoveObjects(ids: set<int>, gone: int -> bool)
      modifies this
      ensures a == old(a).(objects := set id | id in old(a).objects && !(id in ids && gone(id)))
    {
      var rest := ids;
      while exists x :: x in rest
        invariant rest <= ids && a == old(a).(objects := a.objects)
        invariant forall id :: id in a.objects <==> id in old(a).objects && !(id in ids - rest && gone(id))
        decreases |rest|
      {
        var x :| x in rest;
        if x in a.objects && gone(x) {
          a := a.(objects := a.objects - {x});
        }
        rest := rest - {x};
      }
      ghost var left := set id | id in old(a).objects && !(id in ids && gone(id));
      assert forall id :: id in a.objects <==> id in left;
      assert a.objects == left;
    }

    /** The removals and the commit of a storage run that has been prepared. */
    method RemoveAndCommit(gone: int -> bool, commitFate: Fate) returns (processed: bool)
      requires Layers(a) && a.estado == StoragePendiente && a.assetIds.Some?
      modifies this
      ensures Layers(a) && Rank(a.estado) >= 2 && (processed <==> Rank(a.estado) >= 3)
      ensures var ids := old(a).assetIds.value;
        var f := FinalizeStorage(old(a).(objects := set id | id in old(a).objects && !(id in ids && gone(id))));
        commitFate == Confirmed && !f.reply.Denied? ==> a == f.account && (processed <==> !f.reply.Incomplete?)
    {
      ghost var quarantined := a;
      RemoveObjects(a.assetIds.value, gone);
      assert a.objects == quarantined.objects - (quarantined.objects - a.objects);
      RemovalsKeepLayers(quarantined, quarantined.objects - a.objects);
      FinalizeStorageLayers(a);
      var f := FinalizeStorage(a);
      if f.reply.Denied? {
        processed := Reconcile(false);
        return;
      }
      var confirmed := Commit(f.account, commitFate);
      if !confirmed {
        processed := Reconcile(true);
        return;
      }
      return f.reply.Done?;
    }

    /** The storage run answers "processed" exactly when the stored request has passed the
        storage stage, also when the answer to a commit was lost. */
    method RunStorageCleanup(gone: int -> bool, prepareFate: Fate, commitFate: Fate) returns (processed: bool)
      requires Layers(a)
      modifies this
      ensures Layers(a) && Rank(old(a).estado) <= Rank(a.estado)
      ensures Rank(old(a).estado) >= 1 ==> (processed <==> Rank(a.estado) >= 3)
      ensures processed ==> Rank(a.estado) >= 3
      ensures var s := StorageStage(old(a), gone);
        prepareFate == Confirmed && commitFate == Confirmed && !s.reply.Denied? ==>
          a == s.account && (processed <==> !s.reply.Incomplete?)
    {
      PrepareStorageLayers(a);
      var p := PrepareStorage(a);
      if p.reply.Denied? {
        processed := Reconcile(false);
        return;
      }
      var confirmed := Commit(p.account, prepareFate);
      if !confirmed {
        processed := Reconcile(true);
        return;
      }
      if p.reply.Replayed? {
        return true;
      }
      processed := RemoveAndCommit(gone, commitFate);
    }

    /** The Auth run reports completion exactly when the stored request is completed. */
    method RunAuthCleanup(calls: AuthCalls, commitFate: Fate) returns (reply: Reply)
      requires Layers(a)
      modifies this
      ensures Layers(a) && Rank(old(a).estado) <= Rank(a.estado)
      ensures reply.Done? || reply.Replayed? <==> a.estado == Completada
      ensures reply.Done? || reply.Replayed? || reply.Denied?
      ensures old(a).estado == AuthPendiente && reply.Denied? ==> reply.status == 503
      ensures commitFate != LostUndone ==> a == AuthStage(old(a), calls).account
      ensures commitFate == Confirmed ==> reply == AuthStage(old(a), calls).reply
    {
      var p := PrepareAuth(a);
      if !p.reply.Done? {
        return p.reply;
      }
      if !calls.lookupAnswers {
        return Denied(503, AuthTemporaryFailure);
      }
      if a.authExists {
        if calls.deleteWorks {
          a := a.(authExists := false);
        }
        if !calls.checkAnswers || a.authExists {
          return Denied(503, AuthTemporaryFailure);
        }
      }
      var f := FinalizeAuth(a);
      var confirmed := Commit(f.account, commitFate);
      if confirmed {
        return Done;
      }
      return if a.estado == Completada then Replayed else Denied(503, AuthTemporaryFailure);
    }

    /** One stage, chosen by the state read; `None` means that the loop goes on. */
    method RunStage(read: Estado, p: Pass) returns (f: Option<Final>)
      requires Layers(a) && Rank(read) <= 3 && (Rank(read) >= 1 || read == Aprobada)
      requires Rank(read) >= 1 ==> Rank(read) <= Rank(a.estado)
      modifies this
      ensures Layers(a)
      ensures f.None? ==> Rank(read) < Rank(a.estado)
      ensures f.Some? ==> !f.value.Completed? && !f.value.LimitReached?
      ensures f.Some? && f.value.Pending? ==> Rank(read) >= 2 && f.value.estado == read == a.estado
      ensures read == old(a).estado && Ready(old(a)) && QuietPass(p) ==> if f.None? then Ready(a) else f.value.Pending?
      ensures read == old(a).estado && Ready(old(a)) && SmoothPass(p) ==> f.None?
    {
      if read == a.estado && Ready(a) {
        ReadyAdvances(a, p.gone, p.calls);
      }
      if read == StoragePendiente {
        var processed := RunStorageCleanup(p.gone, p.prepareFate, p.commitFate);
        return if processed then None else Some(Pending(read));
      }
      var reply: Reply;
      if read == Aprobada {
        reply := ExecuteInternal(p.blockers);
      } else if read == Procesando {
        reply := AnonymizeInternal();
      } else {
        reply := RunAuthCleanup(p.calls, p.commitFate);
        if reply.Denied? && reply.status == 503 {
          return Some(Pending(read));
        }
      }
      return if reply.Denied? then Some(Refused(reply.status, reply.code)) else None;
    }

    /** The orchestrator never needs a sixth reading, whatever other sessions do, reports
        completion only when the deletion is complete, and a pending state only as it is stored.
        When nothing but the providers stands in the way the answer is one of these two. */
    method Orchestrate(passes: nat -> Pass) returns (f: Final, readings: nat)
      requires Layers(a) && forall n :: FairPass(passes(n))
      modifies this
      ensures Layers(a) && readings <= 5 && !f.LimitReached?
      ensures f.Completed? ==> a.estado == Completada && (f.replay <==> readings == 1)
      ensures old(a.estado) == Completada ==> f.Completed? && f.replay && a == old(a)
      ensures f.Pending? ==> f.estado == a.estado && a.estado in {StoragePendiente, AuthPendiente}
      ensures Ready(old(a)) && (forall n :: QuietPass(passes(n))) ==> f.Completed? || f.Pending?
      ensures Ready(old(a)) && (forall n :: SmoothPass(passes(n))) ==> f.Completed?
    {
      var initial := a.estado;
      readings := 0;
      while readings < 6
        invariant Layers(a)
        invariant readings <= Rank(a.estado)
        invariant readings == 0 ==> a == old(a)
        invariant readings > 0 ==> initial != Completada
        invariant Ready(old(a)) && (forall n :: QuietPass(passes(n))) ==> Ready(a)
        decreases 6 - readings
      {
        assert Rank(a.estado) <= 4;
        var read := a.estado;
        var p := passes(readings);
        readings := readings + 1;
        if read == Completada {
          return Completed(initial == Completada), readings;
        }
        if Rank(read) == 0 && read != Aprobada {
          return Refused(409, RetryStateInvalid), readings;
        }
        assert FairPass(p);
        a := p.meanwhile(a);
        var stage := RunStage(read, p);
        if stage.Some? {
          return stage.value, readings;
        }
        a := p.afterwards(a);
      }
      assert false;
      f := LimitReached;
    }
  }

  /** Whatever other sessions do between two readings is such a step. */
  lemma {:induction false} OtherSessions(a: Account, labels: seq<Label>)
    requires Layers(a)
    ensures var w := Run(World(a, Idle, {}, false), labels);
      Inv(w) && (Rank(a.estado) >= 1 ==> Rank(a.estado) <= Rank(w.a.estado))
  {
    if labels != [] {
      OtherSessions(a, labels[..|labels| - 1]);
      StepKeeps(Run(World(a, Idle, {}, false), labels[..|labels| - 1]), labels[|labels| - 1]);
    }
  }
}
