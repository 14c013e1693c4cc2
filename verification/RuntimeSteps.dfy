/** The steps that change what more than one operation can see, publication, saving,
    rebuilding, closing, initialization, each shown to keep the invariant. */
module RuntimeSteps {
  import opened Common
  import opened Coordinator
  import opened RuntimeBlocks
  import opened RuntimeSystem
  import opened RuntimeInvariant
  import opened RuntimeMoves

  // ---- Publication of a replacement ---------------------------------------------

  /** The step after the checks that may still refuse it. */
  predicate Publishing(s: System, t: nat) {
    && t in s.ops && s.ops[t].Replacing? && s.ops[t].consistent && s.ops[t].candidate.Some?
    && Publish(s.rt, s.ops[t].staged, s.ops[t].prior, s.ops[t].candidate.value).Some?
  }

  lemma SwapOwners(s: System, s': System, t: nat, prior: nat, e: nat)
    requires OwnersMatch(s) && t in s.ops && Owns(s.ops[t]) == Some(e) && s.rt.active == Some(prior)
    requires t in s'.ops && s'.ops == s.ops[t := s'.ops[t]] && s'.ops[t].Retiring? && s'.ops[t].prior == prior
    requires s'.owner == s.owner[prior := ByOperation(t)][e := ByRuntime] && s'.published == s.published + {e}
    requires s'.engines == s.engines && s'.closes == s.closes && s'.init == s.init && s'.rt.active == Some(e)
    ensures OwnersMatch(s')
  {
    assert EngineOwned(s, prior);
    assert EngineOwned(s, e);
    forall x | x in s'.owner ensures EngineOwned(s', x) { assert EngineOwned(s, x); }
  }

  lemma PublishOwners(s: System, t: nat)
    requires OwnersMatch(s) && OperationsOk(s) && Publishing(s, t)
    ensures OwnersMatch(PublishCandidate(s, t))
  {
    hide Commit, StagedOk, OwnersMatch;
    assert OperationOk(s.rt, s.engines, t, s.ops[t]);
    SwapOwners(s, PublishCandidate(s, t), t, s.ops[t].prior, s.ops[t].candidate.value);
  }

  lemma PublishLeases(s: System, t: nat)
    requires LeasesMatch(s) && Publishing(s, t)
    ensures LeasesMatch(PublishCandidate(s, t))
  {
    HoldLeases(s, t, PublishCandidate(s, t).ops[t]);
  }

  lemma PublishAgreement(s: System, t: nat)
    requires Agreement(s) && OperationsOk(s) && Publishing(s, t) && LifecycleOk(s.rt)
    ensures Agreement(PublishCandidate(s, t)) && LifecycleOk(PublishCandidate(s, t).rt)
  {
    assert OperationOk(s.rt, s.engines, t, s.ops[t]);
  }

  lemma PublishOperations(s: System, t: nat)
    requires OperationsOk(s) && Publishing(s, t)
    requires forall u | u in s.ops && u != t :: Passive(s.ops[u])
    ensures OperationsOk(PublishCandidate(s, t))
  {
    var s' := PublishCandidate(s, t);
    forall u | u in s'.ops ensures OperationOk(s'.rt, s'.engines, u, s'.ops[u]) {
      if u != t {
        assert OperationOk(s.rt, s.engines, u, s.ops[u]);
        PassiveOk(s.rt, s.engines, s'.rt, s'.engines, u, s.ops[u]);
      }
    }
  }

  lemma PublishReservation(s: System, t: nat)
    requires ReservationOk(s) && CleanupOk(s) && CapturesOk(s) && Publishing(s, t)
    requires forall u | u in s.ops && u != t :: Passive(s.ops[u])
    ensures var s' := PublishCandidate(s, t); ReservationOk(s') && CleanupOk(s') && CapturesOk(s')
  {
  }

  lemma PublishLog(s: System, t: nat)
    requires Fresh(s) && PublicationsOk(s) && OperationsOk(s) && Publishing(s, t)
    ensures PublicationsOk(PublishCandidate(s, t))
  {
    assert OperationOk(s.rt, s.engines, t, s.ops[t]);
    assert MayPublish(s.ops[t]);
  }

  lemma PublishKeeps(s: System, t: nat)
    requires Inv(s)
    ensures Publishing(s, t) ==> Inv(PublishCandidate(s, t))
  {
    hide LeasesMatch, OwnersMatch, OperationsOk, ReservationOk, CleanupOk, CapturesOk, PublicationsOk;
    hide Agreement, LifecycleOk;
    if Publishing(s, t) {
      Alone(s, t);
      PublishOwners(s, t);
      PublishLeases(s, t);
      PublishAgreement(s, t);
      PublishOperations(s, t);
      PublishReservation(s, t);
      PublishLog(s, t);
    }
  }

  // ---- Work under an exclusive lease on the repository -----------------------------

  /** Under `t`'s exclusive lease the repository may be saved, and a new epoch announced. */
  predicate SavedBy(a: Runtime, b: Runtime) {
    && a.repo.Some? && b.repo.Some?
    && (b.repo == a.repo || b.repo == Some(Saved(a.repo.value)))
    && b.active == a.active && b.leases == a.leases && b.lifecycle == a.lifecycle && b.mode == a.mode
    && b.reserved == a.reserved && b.liveJobs == a.liveJobs && b.cleanup == a.cleanup && b.task == a.task
    && ((b.epoch == a.epoch && b.search == a.search && b.admission == a.admission)
        || (b.epoch > a.epoch && b.search == Some(KeyOf(b.repo.value, b.epoch))
            && b.admission == AdmissionOf(b.repo.value)))
  }

  lemma SavedOperations(s: System, t: nat, rt: Runtime)
    requires OperationsOk(s) && t in s.ops && SavedBy(s.rt, rt)
    requires forall u | u in s.ops && u != t :: Passive(s.ops[u])
    requires OperationOk(rt, s.engines, t, s.ops[t])
    ensures OperationsOk(s.(rt := rt))
  {
    var s' := s.(rt := rt);
    forall u | u in s'.ops ensures OperationOk(s'.rt, s'.engines, u, s'.ops[u]) {
      if u != t {
        assert OperationOk(s.rt, s.engines, u, s.ops[u]);
        PassiveOk(s.rt, s.engines, s'.rt, s'.engines, u, s.ops[u]);
      }
    }
  }

  lemma SavedRest(s: System, rt: Runtime)
    requires CapturesOk(s) && PublicationsOk(s) && Agreement(s) && SavedBy(s.rt, rt)
    ensures var s' := s.(rt := rt); CapturesOk(s') && PublicationsOk(s') && Agreement(s')
  {
  }

  lemma SavedReservation(s: System, t: nat, rt: Runtime)
    requires ReservationOk(s) && SavedBy(s.rt, rt) && t in s.ops
    requires forall u | u in s.ops && u != t :: Passive(s.ops[u])
    requires s.ops[t].Shutting? ==> ShuttingOk(rt, t, s.ops[t].policy, s.ops[t].phase)
    ensures ReservationOk(s.(rt := rt))
  {
  }

  lemma SavedKeeps(s: System, t: nat, rt: Runtime)
    requires Inv(s) && t in s.ops && Holds(s.ops[t]) == Some(ProjectExclusive) && SavedBy(s.rt, rt)
    requires LifecycleOk(rt) && OperationOk(rt, s.engines, t, s.ops[t])
    requires s.ops[t].Shutting? ==> ShuttingOk(rt, t, s.ops[t].policy, s.ops[t].phase)
    ensures Inv(s.(rt := rt))
  {
    Alone(s, t);
    SavedOperations(s, t, rt);
    SavedRest(s, rt);
    SavedReservation(s, t, rt);
    RtOwners(s, rt);
  }

  lemma WriteSaveKeeps(s: System, t: nat)
    requires Inv(s)
    ensures Inv(WriteSave(s, t))
  {
    hide Inv;
    if t in s.ops && s.ops[t] == Saving(None) && s.rt.repo.Some? {
      Facts(s, t);
      var saved := Saved(s.rt.repo.value);
      var rt := s.rt.(repo := Some(saved));
      SavedKeeps(s, t, rt);
      PutKeeps(s.(rt := rt), t, Saving(Some(saved)));
    }
  }

  lemma AnnounceSaveKeeps(s: System, t: nat)
    requires Inv(s)
    ensures Inv(AnnounceSave(s, t))
  {
    hide Inv;
    if t in s.ops && s.ops[t].Saving? && s.ops[t].written.Some? {
      Facts(s, t);
      var rt := SaveBlock(s.rt, s.ops[t].written.value);
      SavedKeeps(s, t, rt);
      PutKeeps(s.(rt := rt), t, Releasing(ProjectExclusive));
    }
  }

  /** A rebuild that failed: READY again, with everything announced anew. */
  lemma RestoreKeeps(s: System, t: nat)
    requires Inv(s) && t in s.ops && s.ops[t].Unwinding?
    ensures Inv(s.(rt := Restore(s.rt)))
  {
    hide PublicationsOk, CapturesOk, ReservationOk, OwnersMatch, PrimaryInUse, Coherent, LeaseOf;
    Alone(s, t);
    var rt := Restore(s.rt);
    RtOwners(s, rt);
    var s' := s.(rt := rt);
    forall u | u in s'.ops ensures OperationOk(s'.rt, s'.engines, u, s'.ops[u]) {
      assert OperationOk(s.rt, s.engines, u, s.ops[u]);
    }
    RtReservation(s, rt);
    RtCaptures(s, rt);
    RtPublications(s, rt);
  }

  const REBUILD := Request(ProjectExclusive, "project-rebuild")

  function Reloading(rt: Runtime): Runtime {
    rt.(lifecycle := RELOADING, epoch := rt.epoch + 1, search := None)
  }

  lemma ReloadingKeeps(s: System, t: nat)
    requires Inv(s)
    ensures t in s.ops && s.ops[t].Staging? && s.rt.lifecycle == READY && s.rt.repo.Some? ==>
              Inv(s.(rt := Reloading(s.rt)))
  {
    if t in s.ops && s.ops[t].Staging? && s.rt.lifecycle == READY && s.rt.repo.Some? {
      Alone(s, t);
      var rt := Reloading(s.rt);
      var s' := s.(rt := rt);
      RtOwners(s, rt);
      RtReservation(s, rt);
      RtCaptures(s, rt);
      RtPublications(s, rt);
      forall u | u in s'.ops ensures OperationOk(s'.rt, s'.engines, u, s'.ops[u]) {
        if u != t {
          assert OperationOk(s.rt, s.engines, u, s.ops[u]);
          PassiveOk(s.rt, s.engines, s'.rt, s'.engines, u, s.ops[u]);
        }
      }
    }
  }

  lemma BeginRebuildShape(s: System)
    requires Admit(s.rt, s.next, REBUILD).Some?
    ensures var entered := Enter(s, REBUILD, Staging);
            && entered.rt.lifecycle == READY && entered.rt.repo.Some? && s.next in entered.ops
            && entered.ops[s.next] == Staging
            && BeginRebuild(s) == entered.(rt := Reloading(entered.rt))
  {
  }

  lemma BeginRebuildKeeps(s: System)
    requires Inv(s)
    ensures Inv(BeginRebuild(s))
  {
    if Admit(s.rt, s.next, REBUILD).Some? {
      var entered := Enter(s, REBUILD, Staging);
      assert Inv(entered) by { EnterKeeps(s, REBUILD, Staging); }
      BeginRebuildShape(s);
      ReloadingKeeps(entered, s.next);
    }
  }

  // ---- Close and fatal errors -----------------------------------------------------

  /** No hierarchy verification overlaps a user of the primary engine. */
  lemma NoVerifierBesidePrimary(s: System)
    requires LeasesMatch(s) && PrimaryInUse(s.rt.leases)
    ensures forall t | t in s.ops :: !s.ops[t].Verifying?
  {
    var id :| id in s.rt.leases && UsesPrimary(s.rt.leases[id].request.category);
    forall t | t in s.ops ensures !s.ops[t].Verifying? {
      assert LeaseOf(s.rt.leases, t, s.ops[t]);
      if t in s.rt.leases && t != id { assert MayOverlap(s.rt.leases[t], s.rt.leases[id]); }
    }
  }

  /** Either the engine was taken away, or everything operations look at is the same. */
  predicate WentDown(a: Runtime, b: Runtime) {
    && LifecycleOk(b) && b.liveJobs == a.liveJobs
    && (b.lifecycle == FAILED || b.lifecycle == SHUTTING_DOWN || (b.lifecycle == STOPPED && a.lifecycle == STOPPED))
    && (a.task == RUNNING ==> b.task == RUNNING)
    && (if Detachable(a).Some? then DetachedFrom(a, b) && !PrimaryInUse(a.leases)
        else SameWorld(a, b.(search := a.search)))
  }

  /** Going down without taking the engine: it is in use, or already gone. */
  lemma DownKeeps(s: System, rt: Runtime)
    requires Inv(s) && WentDown(s.rt, rt) && Detachable(s.rt) == None
    requires rt.task == RUNNING || s.init.engine == None
    ensures Inv(s.(rt := rt))
  {
    if PrimaryInUse(s.rt.leases) {
      NoVerifierBesidePrimary(s);
    } else {
      forall t | t in s.ops && s.ops[t].Verifying? ensures OperationOk(rt, s.engines, t, s.ops[t]) {
        assert OperationOk(s.rt, s.engines, t, s.ops[t]);
        assert LeaseOf(s.rt.leases, t, s.ops[t]);
      }
    }
    LifecycleKeeps(s, rt);
  }

  lemma FatalShape(s: System, e: nat)
    requires Detachable(s.rt) == Some(e)
    ensures var spawned := Spawn(s, Closing);
            && s.next in spawned.ops && spawned.ops[s.next] == Closing && spawned.rt == s.rt
            && ReportFatal(s) == HandOver(spawned.(rt := FatalBlock(s.rt)), e, s.next)
  {
    assert s.ops[s.next := Closing][s.next := Cleaning(e)] == s.ops[s.next := Cleaning(e)];
  }

  lemma DetachFacts(a: Runtime, rt: Runtime)
    requires LifecycleOk(a) && a.lifecycle != STOPPED && rt == a.(lifecycle := rt.lifecycle, search := rt.search)
    requires rt.lifecycle == FAILED || rt.lifecycle == SHUTTING_DOWN
    ensures WentDown(a, Detach(StopAll(rt)))
  {
    hide PrimaryInUse;
  }

  lemma StoppedFacts(rt: Runtime)
    requires LifecycleOk(rt) && rt.lifecycle == STOPPED
    ensures WentDown(rt, Detach(StopAll(rt)))
  {
    hide PrimaryInUse;
  }

  lemma FatalFacts(rt: Runtime)
    requires LifecycleOk(rt)
    ensures WentDown(rt, FatalBlock(rt))
  {
    hide WentDown, Detach, StopAll, LifecycleOk;
    if rt.lifecycle == STOPPED {
      StoppedFacts(rt);
    } else {
      DetachFacts(rt, if rt.lifecycle == SHUTTING_DOWN then rt else rt.(lifecycle := FAILED, search := None));
    }
  }

  lemma CloseFacts(rt: Runtime)
    requires LifecycleOk(rt) && rt.lifecycle != STOPPED
    ensures WentDown(rt, CloseBlock(rt))
  {
    hide PrimaryInUse;
  }

  lemma ReportFatalKeeps(s: System)
    requires Inv(s)
    ensures Inv(ReportFatal(s))
  {
    hide Inv, FatalBlock, LifecycleOk, PrimaryInUse;
    LoadFacts(s);
    var rt := FatalBlock(s.rt);
    FatalFacts(s.rt);
    var detached := Detachable(s.rt);
    if detached.None? {
      DownKeeps(s, rt);
    } else {
      var spawned := Spawn(s, Closing);
      assert Inv(spawned) by { SpawnKeeps(s, Closing); }
      FatalShape(s, detached.value);
      DetachKeeps(spawned, rt, detached.value, s.next);
    }
  }

  lemma ClosingFace()
    ensures SameFace(Closing, Finishing)
  {
  }

  lemma CloseIdleKeeps(s: System, t: nat, rt: Runtime)
    requires Inv(s) && t in s.ops && s.ops[t] == Closing
    requires Detachable(s.rt) == None && WentDown(s.rt, rt)
    ensures Inv(Put(s.(rt := rt), t, Finishing))
  {
    hide Inv, SameFace;
    var finishing := Put(s, t, Finishing);
    ClosingFace();
    PutKeeps(s, t, Finishing);
    LoadFacts(finishing);
    DownKeeps(finishing, rt);
  }

  lemma CloseStepKeeps(s: System, t: nat)
    requires Inv(s)
    ensures Inv(CloseStep(s, t))
  {
    hide Inv, LifecycleOk, PrimaryInUse, CloseBlock;
    LoadFacts(s);
    if t in s.ops && s.ops[t].Closing? {
      var detached := Detachable(s.rt);
      if s.rt.lifecycle == STOPPED {
        EndKeeps(s, t);
      } else if detached.None? {
        CloseFacts(s.rt);
        CloseIdleKeeps(s, t, CloseBlock(s.rt));
      } else {
        CloseFacts(s.rt);
        DetachKeeps(s, CloseBlock(s.rt), detached.value, t);
      }
    }
  }

  lemma FinishCleanupKeeps(s: System, t: nat)
    requires Inv(s)
    ensures Inv(FinishCleanup(s, t))
  {
    if t in s.ops && s.ops[t].Cleaned? && s.rt.cleanup > 0 {
      CleanedKeeps(s, t);
      FinishKeeps(Uncounted(s, t));
    }
  }

  function Uncounted(s: System, t: nat): System
    requires s.rt.cleanup > 0
  {
    End(s.(rt := s.rt.(cleanup := s.rt.cleanup - 1), cleaners := s.cleaners - {t}), t)
  }

  lemma UncountedCleanup(s: System, t: nat)
    requires CleanupOk(s) && t in s.ops && s.ops[t].Cleaned? && s.rt.cleanup > 0
    ensures CleanupOk(Uncounted(s, t))
  {
    assert t in s.cleaners;
    assert |s.cleaners - {t}| == |s.cleaners| - 1;
  }

  lemma UncountedOwners(s: System, t: nat)
    requires OwnersMatch(s) && LeasesMatch(s) && t in s.ops && s.ops[t].Cleaned? && s.rt.cleanup > 0
    ensures OwnersMatch(Uncounted(s, t)) && LeasesMatch(Uncounted(s, t))
  {
    EndLeases(s, t);
    EndOwners(s, t);
    var s' := Uncounted(s, t);
    forall e | e in s'.owner ensures EngineOwned(s', e) { assert EngineOwned(s, e); }
  }

  lemma UncountedRest(s: System, t: nat)
    requires OperationsOk(s) && ReservationOk(s) && t in s.ops && s.ops[t].Cleaned? && s.rt.cleanup > 0
    ensures var s' := Uncounted(s, t); OperationsOk(s') && ReservationOk(s')
  {
    var s' := Uncounted(s, t);
    forall u | u in s'.ops ensures OperationOk(s'.rt, s'.engines, u, s'.ops[u]) {
      assert OperationOk(s.rt, s.engines, u, s.ops[u]);
    }
  }

  lemma UncountedWorld(s: System, t: nat)
    requires Fresh(s) && LifecycleOk(s.rt) && Agreement(s) && CapturesOk(s) && PublicationsOk(s) && s.rt.cleanup > 0
    ensures var s' := Uncounted(s, t);
            Fresh(s') && LifecycleOk(s'.rt) && Agreement(s') && CapturesOk(s') && PublicationsOk(s')
  {
  }

  lemma CleanedKeeps(s: System, t: nat)
    requires Inv(s) && t in s.ops && s.ops[t].Cleaned? && s.rt.cleanup > 0
    ensures Inv(Uncounted(s, t))
  {
    hide LeasesMatch, OwnersMatch, OperationsOk, ReservationOk, CleanupOk, CapturesOk, PublicationsOk;
    hide Agreement, LifecycleOk, Fresh;
    UncountedCleanup(s, t);
    UncountedOwners(s, t);
    UncountedRest(s, t);
    UncountedWorld(s, t);
  }

  // ---- Initialization ---------------------------------------------------------------

  lemma CreateInitialOwners(s: System, repo: Option<Repo>)
    requires Fresh(s) && OwnersMatch(s) && !s.init.created && s.init.engine == None
    ensures OwnersMatch(Create(s, InitialArgs(repo, s.rt.mode), ByInitializer, None).(
                          init := Initializer(Some(s.next), repo, true)))
  {
    var s' := Create(s, InitialArgs(repo, s.rt.mode), ByInitializer, None).(
                init := Initializer(Some(s.next), repo, true));
    assert s.next !in s.engines;
    forall e | e in s'.owner ensures EngineOwned(s', e) {
      if e != s.next { assert EngineOwned(s, e); }
    }
  }

  lemma CreateInitialKeeps(s: System, repo: Option<Repo>)
    requires Inv(s)
    ensures Inv(CreateInitial(s, repo))
  {
    if s.rt.task == RUNNING && !s.init.created {
      var s' := CreateInitial(s, repo);
      assert s.next !in s.engines;
      CreateInitialOwners(s, repo);
      GrowOperations(s, s.next, s'.engines[s.next]);
      assert OperationsOk(s');
      assert PublicationsOk(s');
      hide OwnersMatch, OperationsOk, PublicationsOk;
    }
  }

  lemma PublishLoadedKeeps(s: System)
    requires Inv(s)
    ensures Inv(PublishLoaded(s))
  {
    if s.rt.task == RUNNING && FirstLoaded(s) && s.rt.lifecycle == LOADING {
      PublishLoadedOwners(s);
      PublishLoadedRest(s);
    }
  }

  lemma PublishLoadedOwners(s: System)
    requires OwnersMatch(s) && s.rt.active == None
    requires s.rt.task == RUNNING && FirstLoaded(s) && s.rt.lifecycle == LOADING
    ensures OwnersMatch(PublishLoaded(s))
  {
    var s' := PublishLoaded(s);
    assert EngineOwned(s, s.init.engine.value);
    forall e | e in s'.owner ensures EngineOwned(s', e) { assert EngineOwned(s, e); }
  }

  lemma PublishLoadedRest(s: System)
    requires Inv(s)
    requires s.rt.task == RUNNING && FirstLoaded(s) && s.rt.lifecycle == LOADING
    ensures var s' := PublishLoaded(s);
            && Fresh(s') && LeasesMatch(s') && LifecycleOk(s'.rt) && Agreement(s') && OperationsOk(s')
            && ReservationOk(s') && CleanupOk(s') && CapturesOk(s') && PublicationsOk(s')
  {
    var s' := PublishLoaded(s);
    forall t | t in s'.ops ensures OperationOk(s'.rt, s'.engines, t, s'.ops[t]) {
      assert OperationOk(s.rt, s.engines, t, s.ops[t]);
      assert LeaseOf(s.rt.leases, t, s.ops[t]);
    }
  }

  lemma DiscardInitialKeeps(s: System)
    requires Inv(s)
    ensures Inv(DiscardInitial(s))
  {
    if s.rt.task == RUNNING && s.init.engine.Some? {
      var s' := DiscardInitial(s);
      var e := s.init.engine.value;
      assert EngineOwned(s, e);
      forall x | x in s'.owner ensures EngineOwned(s', x) { assert EngineOwned(s, x); }
      assert OperationsOk(s');
      assert ReservationOk(s');
      assert PublicationsOk(s');
    }
  }

  lemma FailLoadingKeeps(s: System)
    requires Inv(s)
    ensures Inv(FailLoading(s))
  {
    hide Inv;
    LoadFacts(s);
    if s.rt.task == RUNNING && s.rt.lifecycle == LOADING {
      NobodyHolds(s);
      LifecycleKeeps(s, FailInitial(s.rt));
    }
  }

  lemma StartFacts(rt: Runtime, accepted: bool)
    requires LifecycleOk(rt)
    ensures var started := StartInitialization(rt, accepted);
            && LifecycleOk(started) && SameWorld(rt, started) && started.liveJobs == rt.liveJobs
            && (started.lifecycle == rt.lifecycle
                || (rt.lifecycle == LOADING && started.lifecycle == FAILED && rt.leases == map[]))
            && (rt.task == RUNNING ==> started.task == RUNNING)
  {
  }

  lemma NobodyHolds(s: System)
    requires Inv(s) && s.rt.leases == map[]
    ensures forall t | t in s.ops :: !s.ops[t].Verifying?
  {
    forall t | t in s.ops ensures !s.ops[t].Verifying? {
      assert LeaseOf(s.rt.leases, t, s.ops[t]);
    }
  }

  lemma StartInitializationKeeps(s: System, accepted: bool)
    requires Inv(s)
    ensures Inv(s.(rt := StartInitialization(s.rt, accepted)))
  {
    hide Inv, StartInitialization;
    LoadFacts(s);
    StartFacts(s.rt, accepted);
    var rt := StartInitialization(s.rt, accepted);
    if rt.lifecycle == s.rt.lifecycle {
      QuietKeeps(s, rt);
    } else {
      NobodyHolds(s);
      LifecycleKeeps(s, rt);
    }
  }

  lemma FinishInitialKeeps(s: System)
    requires Inv(s)
    ensures Inv(FinishInitial(s))
  {
    hide Inv;
    LoadFacts(s);
    if s.rt.task == RUNNING && s.init.engine.None? {
      var rt := s.rt.(task := FINISHED);
      assert Inv(s.(rt := rt)) by { QuietKeeps(s, rt); }
      FinishKeeps(s.(rt := rt));
    }
  }

  // ---- Reads ---------------------------------------------------------------------------

  lemma UseReadWorld(s: System, t: nat)
    requires CapturesOk(s) && OperationsOk(s) && Agreement(s)
    requires t in s.ops && s.ops[t].Reading? && s.ops[t].engine.Some? && s.rt.repo.Some?
    ensures CapturesOk(UseRead(s, t)) && Agreement(UseRead(s, t)) && OperationsOk(UseRead(s, t))
  {
    assert OperationOk(s.rt, s.engines, t, s.ops[t]);
  }

  lemma UseReadOwners(s: System, t: nat)
    requires OwnersMatch(s)
    ensures OwnersMatch(UseRead(s, t))
  {
    var s' := UseRead(s, t);
    forall e | e in s'.owner ensures EngineOwned(s', e) { assert EngineOwned(s, e); }
  }

  lemma UseReadKeeps(s: System, t: nat)
    requires Inv(s)
    ensures Inv(UseRead(s, t))
  {
    if t in s.ops && s.ops[t].Reading? && s.ops[t].engine.Some? && s.rt.repo.Some? {
      UseReadWorld(s, t);
      UseReadOwners(s, t);
      assert ReservationOk(UseRead(s, t));
    }
  }
}
