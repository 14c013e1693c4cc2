/** The fields of ProjectRuntime.java and its `synchronized (lifecycleLock)` blocks, updated
    in place.  Each method is proved to do to the whole shared state what the function of
    the same block in `RuntimeBlocks` says, so the theorems about runs are about it too,
    and to keep the object consistent. */
module ProjectRuntime {
  import opened Common
  import opened Coordinator
  import opened RuntimeBlocks
  import opened RuntimeSystem
  import opened RuntimeInvariant
  import RuntimeSafety

  // ---- Consistency of the shared state -----------------------------------------------

  /** The announced identities are those of the repository. */
  predicate Announced(r: Runtime) {
    r.repo.Some? ==>
      && r.admission == AdmissionOf(r.repo.value)
      && (r.lifecycle == READY ==> r.search == Some(KeyOf(r.repo.value, r.epoch)))
  }

  ghost predicate Consistent(r: Runtime) {
    LifecycleOk(r) && Coherent(r.leases) && Announced(r)
  }

  /** What an object of the class is proved to keep holds in every state of every execution. */
  lemma ReachableIsConsistent(run: Execution, at: nat)
    requires run.Valid() && at < |run.states|
    ensures Consistent(run.states[at].rt)
  {
    RuntimeSafety.ExecutionIsGood(run, at);
    assert LeasesMatch(run.states[at]) && LifecycleOk(run.states[at].rt) && Agreement(run.states[at]);
    hide Inv;
  }

  lemma AdmitKeeps(r: Runtime, id: nat, request: Request)
    requires Consistent(r) && id !in r.leases
    ensures Admit(r, id, request).Some? ==> Consistent(Admit(r, id, request).value)
  {
    if Admit(r, id, request).Some? { AdmissionIsCoherent(r.leases, id, request, r.admission); }
    hide Coherent, Compatible;
  }

  lemma ReloadingKeeps(r: Runtime, id: nat)
    requires Consistent(r) && id !in r.leases
    ensures AdmitReloading(r, id).Some? ==> Consistent(AdmitReloading(r, id).value)
  {
    AdmitKeeps(r, id, Request(ProjectExclusive, "project-rebuild"));
    hide Coherent, Compatible, PrimaryInUse;
  }

  lemma ReleaseKeeps(r: Runtime, id: nat)
    requires Consistent(r)
    ensures Consistent(ReleaseLease(r, id))
  {
    assert (r.leases - {id}).Keys <= r.leases.Keys;
    if r.leases != map[] { assert r.repo.Some?; } else { assert r.leases - {id} == map[]; }
  }

  lemma PublishKeeps(r: Runtime, staged: Staged, prior: nat, candidate: nat)
    requires Consistent(r) && (r.repo.Some? ==> Commit(r.repo.value, staged).revision == staged.revision)
    ensures Publish(r, staged, prior, candidate).Some? ==> Consistent(Publish(r, staged, prior, candidate).value)
  {
    hide Coherent, PrimaryInUse;
  }

  lemma DetachKeeps(r: Runtime)
    requires Consistent(r) && r.lifecycle != LOADING && r.lifecycle != READY && r.lifecycle != RELOADING
    ensures Consistent(Detach(StopAll(r)))
  {
    hide Coherent, PrimaryInUse;
  }

  /** The state on its way down: FAILED or SHUTTING_DOWN, without a search identity. */
  lemma DownKeeps(r: Runtime, lifecycle: Lifecycle)
    requires Consistent(r) && (lifecycle == FAILED || lifecycle == SHUTTING_DOWN)
    ensures Consistent(r.(lifecycle := lifecycle, search := None))
  {
    hide Coherent, PrimaryInUse;
  }

  /** What a fatal error and a close leave of the runtime: both gates stopped, and the
      engine taken, and counted as a cleanup, unless somebody uses it. */
  predicate TakenDown(r: Runtime, after: Runtime) {
    && after.stopped && after.jobsStopped && after.repo == r.repo && after.epoch == r.epoch
    && after.leases == r.leases && after.liveJobs == r.liveJobs && after.reserved == r.reserved
    && (if PrimaryInUse(r.leases) || r.active == None then after.active == r.active && after.cleanup == r.cleanup
        else after.active == None && after.cleanup == r.cleanup + 1)
  }

  lemma FatalTakesDown(r: Runtime)
    ensures TakenDown(r, FatalBlock(r)) && FatalBlock(r).task == r.task
    ensures FatalBlock(r).lifecycle
            == if r.lifecycle == SHUTTING_DOWN || r.lifecycle == STOPPED then r.lifecycle else FAILED
    ensures r.lifecycle != SHUTTING_DOWN && r.lifecycle != STOPPED ==> FatalBlock(r).search == None
  {
    hide PrimaryInUse;
  }

  lemma CloseTakesDown(r: Runtime)
    ensures r.lifecycle == STOPPED ==> CloseBlock(r) == r
    ensures r.lifecycle != STOPPED ==>
              && TakenDown(r, CloseBlock(r)) && CloseBlock(r).lifecycle == SHUTTING_DOWN
              && CloseBlock(r).task == (if r.task == QUEUED then FINISHED else r.task)
              && CloseBlock(r).search == if r.lifecycle == SHUTTING_DOWN then r.search else None
  {
    hide PrimaryInUse;
  }

  lemma FatalKeeps(r: Runtime)
    requires Consistent(r)
    ensures Consistent(FatalBlock(r))
  {
    var failed := if r.lifecycle == SHUTTING_DOWN || r.lifecycle == STOPPED then r
                  else r.(lifecycle := FAILED, search := None);
    DownKeeps(r, FAILED);
    DetachKeeps(failed);
    hide Consistent, Detach, StopAll;
  }

  lemma CloseKeeps(r: Runtime)
    requires Consistent(r)
    ensures Consistent(CloseBlock(r))
  {
    if r.lifecycle != STOPPED {
      var down := if r.lifecycle == SHUTTING_DOWN then r else r.(lifecycle := SHUTTING_DOWN, search := None);
      DownKeeps(r, SHUTTING_DOWN);
      DetachKeeps(down);
      TaskKeeps(Detach(StopAll(down)));
    }
    hide Consistent, Detach, StopAll;
  }

  lemma TaskKeeps(r: Runtime)
    requires Consistent(r)
    ensures r.started || r.task == QUEUED ==> Consistent(r.(task := FINISHED))
  {
    hide Coherent, PrimaryInUse;
  }

  lemma FinishKeeps(r: Runtime)
    requires Consistent(r)
    ensures Consistent(FinishIfQuiescent(r))
  {
    assert r.leases == map[] ==> !PrimaryInUse(r.leases);
    hide Coherent, PrimaryInUse;
  }

  lemma CleanupKeeps(r: Runtime)
    requires Consistent(r) && r.cleanup > 0
    ensures Consistent(CleanupDone(r))
  {
    FinishKeeps(r.(cleanup := r.cleanup - 1));
    hide Coherent, PrimaryInUse, FinishIfQuiescent;
  }

  lemma LoadingKeeps(r: Runtime, accepted: bool, engine: nat, loaded: Option<Repo>)
    requires Consistent(r)
    ensures Consistent(StartInitialization(r, accepted)) && Consistent(FailInitial(r))
    ensures PublishInitial(r, engine, loaded).Some? ==> Consistent(PublishInitial(r, engine, loaded).value)
  {
    assert r.lifecycle == LOADING ==> !PrimaryInUse(r.leases);
    hide Coherent, PrimaryInUse;
  }

  lemma RestoreKeeps(r: Runtime)
    requires Consistent(r)
    ensures Consistent(Restore(r))
  {
    hide Coherent, PrimaryInUse;
  }

  lemma SaveKeeps(r: Runtime, saved: Repo)
    requires Consistent(r) && r.lifecycle != LOADING && r.repo.Some? && SameContent(saved, r.repo.value)
    ensures Consistent(SaveBlock(r, saved)) && Consistent(SaveBlock(r, saved).(repo := Some(saved)))
  {
    hide Coherent, PrimaryInUse;
  }

  lemma ReserveKeeps(r: Runtime, policy: Policy, id: nat)
    requires Consistent(r) && id !in r.leases
    ensures match Reserve(r, policy, id)
            case NotReady => true
            case Refused(refused, registry) => registry && Consistent(refused)
            case Reserved(claimed) => Consistent(claimed)
  {
    AdmissionIsCoherent(r.leases, id, SHUTDOWN_SAVE, r.admission);
    assert r.leases == map[] ==> Compatible(r.leases, SHUTDOWN_SAVE, r.admission);
    hide Coherent, Compatible, PrimaryInUse;
  }

  lemma ShutdownKeeps(r: Runtime)
    requires Consistent(r)
    ensures BeginShutdown(r).Some? ==> Consistent(BeginShutdown(r).value)
    ensures Consistent(ReleaseReservation(r, true))
    ensures SubmitJob(r).Some? ==> Consistent(SubmitJob(r).value)
  {
    hide Coherent, PrimaryInUse;
  }

  // ---- The objects --------------------------------------------------------------------

  /** The part of the job registry that the lifecycle lock guards. */
  class JobRegistry {
    var stopped: bool
    var reserved: bool
    var live: nat

    constructor ()
      ensures !stopped && !reserved && live == 0
    {
      stopped, reserved, live := false, false, 0;
    }

    /** `full` tells that the queue or the records have reached their limit. */
    method Submit(full: bool) returns (ok: bool)
      modifies this
      ensures ok == (!old(stopped) && !old(reserved) && !full)
      ensures live == old(live) + (if ok then 1 else 0)
      ensures stopped == old(stopped) && reserved == old(reserved)
    {
      if stopped || reserved || full {
        return false;
      }
      live := live + 1;
      return true;
    }

    method ReserveSubmissions() returns (ok: bool)
      modifies this`reserved
      ensures ok == (!stopped && !old(reserved))
      ensures reserved == (old(reserved) || ok)
    {
      if stopped || reserved {
        return false;
      }
      reserved := true;
      return true;
    }

    method ReleaseReservation()
      modifies this`reserved
      ensures !reserved
    {
      reserved := false;
    }

    method StopSubmissions()
      modifies this`stopped
      ensures stopped
    {
      stopped := true;
    }
  }

  class ProjectRuntime {
    var lifecycle: Lifecycle
    var activeEngine: Option<nat>
    var repository: Option<Repo>
    var publicationEpoch: nat
    var publishedAdmission: Admission
    var publishedSearchIdentity: Option<SearchKey>
    var initializationStarted: bool
    var initializationTask: TaskState
    var cleanupInProgress: nat
    var shutdownReserved: bool
    const coordinator: OperationCoordinator
    const jobs: JobRegistry
    const effectiveMode: int

    /** The whole shared state as one value. */
    function State(): Runtime
      reads this, coordinator, jobs
    {
      Runtime(lifecycle, activeEngine, repository, publicationEpoch, publishedAdmission, publishedSearchIdentity,
              initializationStarted, initializationTask, cleanupInProgress, shutdownReserved,
              coordinator.active, coordinator.stopped, jobs.stopped, jobs.reserved, jobs.live, effectiveMode)
    }

    ghost predicate Valid()
      reads this, coordinator, jobs
    {
      Consistent(State())
    }

    constructor (mode: int)
      ensures State() == Runtime(LOADING, None, None, 0, Admission("initializing", 0), None, false, NoTask, 0, false,
                                 map[], false, false, false, 0, mode)
      ensures Valid() && fresh(coordinator) && fresh(jobs)
    {
      lifecycle, activeEngine, repository, publicationEpoch := LOADING, None, None, 0;
      publishedAdmission, publishedSearchIdentity := Admission("initializing", 0), None;
      initializationStarted, initializationTask, cleanupInProgress, shutdownReserved := false, NoTask, 0, false;
      coordinator := new OperationCoordinator();
      jobs := new JobRegistry();
      effectiveMode := mode;
    }

    /** `requireReady`; false stands for its two exceptions. */
    method IsReady() returns (ready: bool)
      ensures ready == RequireReady(State())
    {
      if shutdownReserved {
        return false;
      }
      ready := lifecycle == READY && repository.Some?;
    }

    /** `publishedAdmission = admission(snapshot)`. */
    method AnnounceSnapshot(snapshot: Repo)
      modifies this`publishedAdmission, this`publishedSearchIdentity
      ensures State() == Announce(old(State()), snapshot)
    {
      publishedSearchIdentity := Some(SearchKey(snapshot.session, snapshot.revision, publicationEpoch));
      publishedAdmission := Admission(snapshot.session, snapshot.revision);
    }

    method AdmitRequest(id: nat, request: Request) returns (ok: bool)
      requires Valid()
      requires id !in coordinator.active
      modifies coordinator
      ensures ok == Admit(old(State()), id, request).Some?
      ensures State() == if ok then Admit(old(State()), id, request).value else old(State())
      ensures Valid()
      ensures ok == (lifecycle == READY && repository.Some? && !shutdownReserved && !old(coordinator.stopped)
                     && Compatible(old(coordinator.active), request, publishedAdmission))
      ensures coordinator.active == if ok then old(coordinator.active)[id := NewLease(request, publishedAdmission)]
                                    else old(coordinator.active)
    {
      AdmitKeeps(State(), id, request);
      var ready := IsReady();
      if !ready {
        return false;
      }
      var outcome := coordinator.TryAdmit(id, request, publishedAdmission);
      ok := outcome == Admitted;
    }

    /** `admitJob`: only at the revision the job was submitted for. */
    method AdmitJob(id: nat, request: Request, expected: Admission) returns (ok: bool)
      requires Valid()
      requires id !in coordinator.active
      modifies coordinator
      ensures ok == (old(publishedAdmission) == expected && Admit(old(State()), id, request).Some?)
      ensures State() == if ok then Admit(old(State()), id, request).value else old(State())
      ensures Valid()
      ensures ok == (lifecycle == READY && repository.Some? && !shutdownReserved && !old(coordinator.stopped)
                     && publishedAdmission == expected
                     && Compatible(old(coordinator.active), request, publishedAdmission))
    {
      AdmitKeeps(State(), id, request);
      var ready := IsReady();
      if !ready || publishedAdmission != expected {
        return false;
      }
      var outcome := coordinator.TryAdmit(id, request, publishedAdmission);
      ok := outcome == Admitted;
    }

    method BeginReloading(id: nat) returns (ok: bool)
      requires Valid()
      requires id !in coordinator.active
      modifies this, coordinator
      ensures ok == AdmitReloading(old(State()), id).Some?
      ensures State() == if ok then AdmitReloading(old(State()), id).value else old(State())
      ensures Valid()
      ensures ok == (old(lifecycle) == READY && old(repository).Some? && !old(shutdownReserved)
                     && !old(coordinator.stopped)
                     && Compatible(old(coordinator.active), Request(ProjectExclusive, "project-rebuild"),
                                   publishedAdmission))
      ensures ok ==>
                && lifecycle == RELOADING && publicationEpoch == old(publicationEpoch) + 1
                && publishedSearchIdentity == None && publishedAdmission == old(publishedAdmission)
                && repository == old(repository) && activeEngine == old(activeEngine)
    {
      ReloadingKeeps(State(), id);
      ok := AdmitRequest(id, Request(ProjectExclusive, "project-rebuild"));
      if ok {
        lifecycle := RELOADING;
        publicationEpoch := publicationEpoch + 1;
        publishedSearchIdentity := None;
      }
    }

    method Submit(full: bool) returns (ok: bool)
      requires Valid()
      modifies jobs
      ensures ok == (SubmitJob(old(State())).Some? && !full)
      ensures State() == if ok then SubmitJob(old(State())).value else old(State())
      ensures Valid()
      ensures ok == (lifecycle == READY && repository.Some? && !shutdownReserved
                     && !old(jobs.stopped) && !old(jobs.reserved) && !full)
      ensures jobs.live == old(jobs.live) + if ok then 1 else 0
    {
      ShutdownKeeps(State());
      var ready := IsReady();
      if !ready {
        return false;
      }
      ok := jobs.Submit(full);
    }

    method CloseLease(id: nat)
      requires Valid()
      modifies coordinator
      ensures State() == ReleaseLease(old(State()), id)
      ensures Valid()
    {
      ReleaseKeeps(State(), id);
      coordinator.Close(id);
    }

    /** The block of `publishReplacement` that holds both monitors. */
    method PublishReplacement(staged: Staged, prior: nat, candidate: nat) returns (published: bool)
      requires Valid()
      modifies this
      ensures published == Publish(old(State()), staged, prior, candidate).Some?
      ensures State() == if published then Publish(old(State()), staged, prior, candidate).value else old(State())
      ensures old(repository).Some? && published ==>
                (Commit(old(repository).value, staged).revision == staged.revision ==> Valid())
      ensures !published ==> Valid()
      ensures published == (old(activeEngine) == Some(prior) && old(repository).Some?
                            && old(lifecycle) == if staged.kind == CommitCode then READY else RELOADING)
      ensures published ==>
                && lifecycle == READY && activeEngine == Some(candidate)
                && publicationEpoch == old(publicationEpoch) + 1 && repository.Some?
                && publishedAdmission == Admission(repository.value.session, staged.revision)
                && publishedSearchIdentity
                   == Some(SearchKey(repository.value.session, staged.revision, publicationEpoch))
                && var was, now := old(repository).value, repository.value;
                   && now.session == was.session && now.hasPath == was.hasPath
                   && now.code == (if staged.kind == CommitMapping then was.code else staged.args.code)
                   && now.mapping == (if staged.kind == CommitCode then was.mapping else staged.args.mapping)
                   && now.savedCode == (if staged.kind == CommitReload then now.code else was.savedCode)
                   && now.savedMapping == (if staged.kind == CommitReload then now.mapping else was.savedMapping)
                   && now.revision == was.revision
                                      + if staged.kind == CommitMapping && now.mapping == was.mapping then 0 else 1
      ensures !published ==> State() == old(State())
    {
      ghost var was := State();
      if lifecycle != ExpectedLifecycle(staged.kind) || activeEngine != Some(prior) || repository == None {
        return false;
      }
      var nextAdmission := Admission(repository.value.session, staged.revision);
      var nextSearchIdentity := SearchKey(nextAdmission.session, staged.revision, publicationEpoch + 1);
      repository := Some(Commit(repository.value, staged));
      activeEngine := Some(candidate);
      publicationEpoch := publicationEpoch + 1;
      publishedAdmission := nextAdmission;
      publishedSearchIdentity := Some(nextSearchIdentity);
      lifecycle := READY;
      return true;
    }

    /** `rebuild` after an exception. */
    method RestoreReady()
      requires Valid()
      requires repository.Some?
      modifies this
      ensures State() == Restore(old(State()))
      ensures Valid()
      ensures repository == old(repository) && publicationEpoch == old(publicationEpoch)
      ensures if old(lifecycle) == RELOADING then
                var repo := repository.value;
                && lifecycle == READY && publishedAdmission == Admission(repo.session, repo.revision)
                && publishedSearchIdentity == Some(SearchKey(repo.session, repo.revision, publicationEpoch))
              else State() == old(State())
    {
      RestoreKeeps(State());
      if lifecycle == RELOADING {
        lifecycle := READY;
        AnnounceSnapshot(repository.value);
      }
    }

    method AnnounceSave(saved: Repo)
      requires Valid()
      modifies this
      ensures State() == SaveBlock(old(State()), saved)
      ensures old(lifecycle) != LOADING && repository.Some? && SameContent(saved, repository.value) ==> Valid()
      ensures publicationEpoch == old(publicationEpoch) + 1 && lifecycle == old(lifecycle)
      ensures repository == old(repository) && activeEngine == old(activeEngine)
      ensures publishedAdmission == Admission(saved.session, saved.revision)
      ensures publishedSearchIdentity == Some(SearchKey(saved.session, saved.revision, publicationEpoch))
    {
      ghost var was := State();
      publicationEpoch := publicationEpoch + 1;
      AnnounceSnapshot(saved);
    }

    method InitializeAsync(accepted: bool)
      requires Valid()
      modifies this
      ensures State() == StartInitialization(old(State()), accepted)
      ensures Valid()
      ensures initializationStarted
      ensures if old(initializationStarted) || old(lifecycle) != LOADING then
                lifecycle == old(lifecycle) && initializationTask == old(initializationTask)
              else if accepted then lifecycle == LOADING && initializationTask == QUEUED
              else lifecycle == FAILED && initializationTask == FINISHED
    {
      LoadingKeeps(State(), accepted, 0, None);
      if initializationStarted {
        return;
      }
      initializationStarted := true;
      if lifecycle != LOADING {
        return;
      }
      initializationTask := QUEUED;
      if !accepted {
        initializationTask := FINISHED;
        lifecycle := FAILED;
      }
    }

    method PublishLoadedProject(engine: nat, loaded: Option<Repo>) returns (published: bool)
      requires Valid()
      modifies this
      ensures published == PublishInitial(old(State()), engine, loaded).Some?
      ensures State() == if published then PublishInitial(old(State()), engine, loaded).value else old(State())
      ensures Valid()
      ensures published == (old(lifecycle) == LOADING)
      ensures published ==>
                && lifecycle == READY && activeEngine == Some(engine) && repository == loaded
                && (loaded.Some? ==>
                      && publishedAdmission == Admission(loaded.value.session, loaded.value.revision)
                      && publishedSearchIdentity
                         == Some(SearchKey(loaded.value.session, loaded.value.revision, publicationEpoch)))
    {
      LoadingKeeps(State(), false, engine, loaded);
      if lifecycle != LOADING {
        return false;
      }
      activeEngine := Some(engine);
      repository := loaded;
      if loaded.Some? {
        AnnounceSnapshot(loaded.value);
      }
      lifecycle := READY;
      return true;
    }

    method FailLoading()
      requires Valid()
      modifies this
      ensures State() == FailInitial(old(State()))
      ensures Valid()
      ensures lifecycle == if old(lifecycle) == LOADING then FAILED else old(lifecycle)
      ensures repository == old(repository) && activeEngine == old(activeEngine)
    {
      LoadingKeeps(State(), false, 0, None);
      if lifecycle == LOADING {
        lifecycle := FAILED;
      }
    }

    /** Both callers stop admissions and submissions, then take the engine unless it is in use. */
    method StopAndDetach() returns (detached: Option<nat>)
      modifies this, coordinator, jobs
      ensures detached == Detachable(old(State()))
      ensures State() == Detach(StopAll(old(State())))
    {
      coordinator.StopAdmissions();
      jobs.StopSubmissions();
      var inUse := coordinator.PrimaryEngineInUse();
      detached := if inUse then None else activeEngine;
      if detached.Some? {
        activeEngine := None;
        cleanupInProgress := cleanupInProgress + 1;
      }
    }

    method ReportFatal() returns (detached: Option<nat>)
      requires Valid()
      modifies this, coordinator, jobs
      ensures detached == Detachable(old(State()))
      ensures State() == FatalBlock(old(State()))
      ensures Valid()
    {
      FatalKeeps(State());
      if lifecycle != SHUTTING_DOWN && lifecycle != STOPPED {
        lifecycle := FAILED;
        publishedSearchIdentity := None;
      }
      detached := StopAndDetach();
    }

    /** The first block of `closeInternal`. */
    method BeginClose() returns (detached: Option<nat>)
      requires Valid()
      modifies this, coordinator, jobs
      ensures detached == if old(lifecycle) == STOPPED then None else Detachable(old(State()))
      ensures State() == CloseBlock(old(State()))
      ensures Valid()
    {
      CloseKeeps(State());
      if lifecycle == STOPPED {
        return None;
      }
      if lifecycle != SHUTTING_DOWN {
        lifecycle := SHUTTING_DOWN;
        publishedSearchIdentity := None;
      }
      detached := StopAndDetach();
      if initializationTask == QUEUED {
        initializationTask := FINISHED;
      }
    }

    method FinishShutdownIfQuiescent()
      modifies this
      ensures State() == FinishIfQuiescent(old(State()))
      ensures old(Valid()) ==> Valid()
      ensures lifecycle == if old(lifecycle) == SHUTTING_DOWN && cleanupInProgress == 0 && activeEngine == None
                              && (initializationTask == NoTask || initializationTask == FINISHED)
                              && coordinator.active == map[]
                           then STOPPED else old(lifecycle)
    {
      if Valid() { FinishKeeps(State()); }
      if lifecycle == SHUTTING_DOWN && (initializationTask == NoTask || initializationTask == FINISHED)
         && cleanupInProgress == 0 && activeEngine == None && coordinator.active == map[] {
        lifecycle := STOPPED;
      }
    }

    method CleanupFinished()
      requires Valid()
      requires cleanupInProgress > 0
      modifies this
      ensures State() == CleanupDone(old(State()))
      ensures Valid()
      ensures cleanupInProgress == old(cleanupInProgress) - 1
    {
      CleanupKeeps(State());
      cleanupInProgress := cleanupInProgress - 1;
      FinishShutdownIfQuiescent();
    }

    method TaskFinished()
      modifies this
      ensures State() == FinishTask(old(State()))
      ensures old(Valid()) && initializationStarted ==> Valid()
      ensures initializationTask == FINISHED
    {
      if Valid() { TaskKeeps(State()); }
      initializationTask := FINISHED;
      FinishShutdownIfQuiescent();
    }

    /** The first block of `requestShutdown`. */
    method ReserveShutdown(policy: Policy, id: nat) returns (reservation: Reservation)
      requires Valid()
      requires id !in coordinator.active
      modifies this, coordinator, jobs
      ensures reservation == Reserve(old(State()), policy, id)
      ensures State() == match reservation
                         case NotReady => old(State())
                         case Refused(r, _) => r
                         case Reserved(r) => r
      ensures Valid() && (reservation.Refused? ==> reservation.registry)
      ensures reservation.NotReady? <==>
                old(shutdownReserved) || old(lifecycle) != READY || old(repository) == None
      ensures !reservation.NotReady? ==>
                && shutdownReserved
                && (reservation.Reserved? <==> old(coordinator.active) == map[] && old(jobs.live) == 0)
      ensures reservation.Reserved? ==>
                && jobs.reserved
                && coordinator.active.Keys == if policy == Save then {id} else {}
    {
      ReserveKeeps(State(), policy, id);
      var ready := IsReady();
      if !ready {
        return NotReady;
      }
      shutdownReserved := true;
      var registry := jobs.ReserveSubmissions();
      if !registry {
        return Refused(State(), false);
      }
      if coordinator.active != map[] || jobs.live != 0 {
        return Refused(State(), true);
      }
      if policy == Save {
        var outcome := coordinator.TryAdmit(id, SHUTDOWN_SAVE, publishedAdmission);
        if outcome != Admitted {
          return Refused(State(), true);
        }
      }
      return Reserved(State());
    }

    /** The last block of `requestShutdown`. */
    method CommitShutdown() returns (accepted: bool)
      requires Valid()
      modifies this, coordinator, jobs
      ensures accepted == BeginShutdown(old(State())).Some?
      ensures State() == if accepted then BeginShutdown(old(State())).value else old(State())
      ensures Valid()
      ensures accepted == (old(lifecycle) == READY)
      ensures accepted ==>
                && lifecycle == SHUTTING_DOWN && publishedSearchIdentity == None && coordinator.stopped && jobs.stopped
                && !shutdownReserved && !jobs.reserved
    {
      ShutdownKeeps(State());
      if lifecycle != READY {
        return false;
      }
      lifecycle := SHUTTING_DOWN;
      publishedSearchIdentity := None;
      coordinator.StopAdmissions();
      jobs.StopSubmissions();
      shutdownReserved := false;
      jobs.ReleaseReservation();
      return true;
    }

    method ReleaseShutdown(registry: bool)
      requires Valid()
      modifies this, jobs
      ensures State() == ReleaseReservation(old(State()), registry)
      ensures registry || !old(jobs.reserved) ==> Valid()
      ensures !shutdownReserved && lifecycle == old(lifecycle)
      ensures jobs.reserved == if registry then false else old(jobs.reserved)
    {
      ShutdownKeeps(State());
      shutdownReserved := false;
      if registry {
        jobs.ReleaseReservation();
      }
    }

    /** `requestShutdown` when nobody else takes the lock in between; `saves` tells whether
        the native save succeeds.  It is accepted exactly for an idle, ready project that
        the policy lets go, and a refused request leaves everything as it was. */
    method RequestShutdown(policy: Policy, id: nat, saves: bool) returns (accepted: bool)
      requires Valid() && id !in coordinator.active
      modifies this, coordinator, jobs
      ensures Valid()
      ensures accepted == (old(lifecycle) == READY && old(repository).Some? && !old(shutdownReserved)
                           && old(coordinator.active) == map[] && old(jobs.live) == 0
                           && var repo := old(repository).value;
                              match policy
                              case Discard => true
                              case RefuseIfDirty => repo.code == repo.savedCode && repo.mapping == repo.savedMapping
                              case Save => repo.hasPath && saves)
      ensures !accepted ==> State() == old(State())
      ensures accepted ==>
                && lifecycle == SHUTTING_DOWN && coordinator.stopped && jobs.stopped && coordinator.active == map[]
                && !shutdownReserved && !jobs.reserved && activeEngine == old(activeEngine)
                && repository.Some?
                && var was, now := old(repository).value, repository.value;
                   && now.session == was.session && now.revision == was.revision
                   && now.code == was.code && now.mapping == was.mapping
                   && (policy != Discard ==> now.savedCode == now.code && now.savedMapping == now.mapping)
    {
      var reservation := ReserveShutdown(policy, id);
      match reservation
      case NotReady => return false;
      case Refused(_, registry) =>
        ReleaseShutdown(registry);
        return false;
      case Reserved(_) =>
        var snapshot := repository.value;
        if (policy == RefuseIfDirty && Dirty(snapshot)) || (policy == Save && (!snapshot.hasPath || !saves)) {
          if policy == Save { CloseLease(id); }
          ReleaseShutdown(true);
          return false;
        }
        if policy == Save {
          SaveKeeps(State(), Saved(snapshot));
          repository := Some(Saved(snapshot));
          AnnounceSave(Saved(snapshot));
          CloseLease(id);
        }
        accepted := CommitShutdown();
    }
  }
}
