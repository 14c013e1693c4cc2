/** What each `synchronized (lifecycleLock)` block of ProjectRuntime.java does to the
    shared state, as a function of that state.

    Class `ProjectRuntime` is proved to refine these functions field by field, and
    `RuntimeSystem` interleaves them with the unlocked work of every operation. */
module RuntimeBlocks {
  import opened Common
  import opened Coordinator

  datatype Lifecycle = LOADING | READY | RELOADING | FAILED | SHUTTING_DOWN | STOPPED

  datatype TaskState = NoTask | QUEUED | RUNNING | FINISHED

  datatype Policy = Discard | Save | RefuseIfDirty

  /** The arguments an engine is loaded from.  Code data, mapping path and decompilation
      mode are only ever compared, so an integer names each value; the inputs are fixed. */
  datatype Args = Args(code: int, mapping: int, mode: int)

  /** NativeProjectRepository: committed values, and those last saved. */
  datatype Repo = Repo(session: string, revision: nat, code: int, mapping: int,
                       savedCode: int, savedMapping: int, hasPath: bool)

  predicate Dirty(repo: Repo) {
    repo.code != repo.savedCode || repo.mapping != repo.savedMapping
  }

  function Saved(repo: Repo): Repo {
    repo.(savedCode := repo.code, savedMapping := repo.mapping, hasPath := true)
  }

  /** The same project state, whether or not it has been saved. */
  predicate SameContent(a: Repo, b: Repo) {
    a.session == b.session && a.revision == b.revision && a.code == b.code && a.mapping == b.mapping
  }

  function RepoArgs(repo: Repo, mode: int): Args {
    Args(repo.code, repo.mapping, mode)
  }

  function AdmissionOf(repo: Repo): Admission {
    Admission(repo.session, repo.revision)
  }

  /** Identity of one published engine; the settings fingerprint never changes. */
  datatype SearchKey = SearchKey(session: string, revision: nat, epoch: nat)

  function KeyOf(repo: Repo, epoch: nat): SearchKey {
    SearchKey(repo.session, repo.revision, epoch)
  }

  /** The three ways to stage a replacement: an edit, a reload, a new mapping path. */
  datatype CommitKind = CommitCode | CommitReload | CommitMapping

  /** StagedRebuild, with the lifecycle its publication insists on. */
  datatype Staged = Staged(kind: CommitKind, args: Args, before: nat, revision: nat)

  function ExpectedLifecycle(kind: CommitKind): Lifecycle {
    if kind == CommitCode then READY else RELOADING
  }

  /** The repository commit that `staged.commit()` performs. */
  function Commit(repo: Repo, staged: Staged): Repo {
    match staged.kind
    case CommitCode =>
      repo.(code := staged.args.code, revision := repo.revision + 1)
    case CommitReload =>
      repo.(code := staged.args.code, mapping := staged.args.mapping, savedCode := staged.args.code,
            savedMapping := staged.args.mapping, revision := repo.revision + 1)
    case CommitMapping =>
      if repo.mapping != staged.args.mapping
      then repo.(mapping := staged.args.mapping, revision := repo.revision + 1)
      else repo
  }

  datatype Runtime = Runtime(
    lifecycle: Lifecycle,
    active: Option<nat>,          // activeEngine
    repo: Option<Repo>,           // repository
    epoch: nat,                   // publicationEpoch
    admission: Admission,         // publishedAdmission
    search: Option<SearchKey>,    // publishedSearchIdentity
    started: bool,                // initializationStarted
    task: TaskState,              // initializationTask
    cleanup: nat,                 // cleanupInProgress
    reserved: bool,               // shutdownReserved
    leases: map<nat, Lease>,      // coordinator.active
    stopped: bool,                // coordinator.stopped
    jobsStopped: bool,
    jobsReserved: bool,
    liveJobs: nat,                // jobs that are not terminal
    mode: int)                    // effectiveConfig

  predicate RequireReady(r: Runtime) {
    !r.reserved && r.lifecycle == READY && r.repo.Some?
  }

  /** `admission(snapshot)`: publishes both the admission and the search identity. */
  function Announce(r: Runtime, repo: Repo): Runtime {
    r.(admission := AdmissionOf(repo), search := Some(KeyOf(repo, r.epoch)))
  }

  // ---- Admission -------------------------------------------------------------

  function Admit(r: Runtime, id: nat, request: Request): Option<Runtime> {
    if RequireReady(r) && !r.stopped && Compatible(r.leases, request, r.admission)
    then Some(r.(leases := r.leases[id := NewLease(request, r.admission)]))
    else None
  }

  function AdmitReloading(r: Runtime, id: nat): Option<Runtime> {
    match Admit(r, id, Request(ProjectExclusive, "project-rebuild"))
    case None => None
    case Some(a) => Some(a.(lifecycle := RELOADING, epoch := a.epoch + 1, search := None))
  }

  function ReleaseLease(r: Runtime, id: nat): Runtime {
    r.(leases := r.leases - {id})
  }

  function FinishCapture(r: Runtime, id: nat): Runtime
    requires id in r.leases
  {
    r.(leases := r.leases[id := r.leases[id].(capturing := false)])
  }

  function SubmitJob(r: Runtime): Option<Runtime> {
    if RequireReady(r) && !r.jobsStopped && !r.jobsReserved
    then Some(r.(liveJobs := r.liveJobs + 1)) else None
  }

  // ---- Publication -----------------------------------------------------------

  /** The block that swaps engines and commits the repository, or refuses to. */
  function Publish(r: Runtime, staged: Staged, prior: nat, candidate: nat): Option<Runtime> {
    if r.lifecycle != ExpectedLifecycle(staged.kind) || r.active != Some(prior) || r.repo.None? then None
    else
      var repo := r.repo.value;
      Some(r.(
        repo := Some(Commit(repo, staged)),
        active := Some(candidate),
        epoch := r.epoch + 1,
        admission := Admission(repo.session, staged.revision),
        search := Some(SearchKey(repo.session, staged.revision, r.epoch + 1)),
        lifecycle := READY))
  }

  /** A rebuild that failed goes back to READY, unless something else moved on. */
  function Restore(r: Runtime): Runtime {
    if r.lifecycle == RELOADING && r.repo.Some?
    then Announce(r.(lifecycle := READY), r.repo.value) else r
  }

  /** After a native save: a new epoch announced for the saved snapshot. */
  function SaveBlock(r: Runtime, saved: Repo): Runtime {
    Announce(r.(epoch := r.epoch + 1), saved)
  }

  // ---- Initialization --------------------------------------------------------

  function StartInitialization(r: Runtime, accepted: bool): Runtime {
    if r.started then r
    else if r.lifecycle != LOADING then r.(started := true)
    else if accepted then r.(started := true, task := QUEUED)
    else r.(started := true, task := FINISHED, lifecycle := FAILED)
  }

  function PublishInitial(r: Runtime, engine: nat, repo: Option<Repo>): Option<Runtime> {
    if r.lifecycle != LOADING then None
    else
      var base := r.(active := Some(engine), repo := repo, lifecycle := READY);
      Some(if repo.Some? then Announce(base, repo.value) else base)
  }

  function FailInitial(r: Runtime): Runtime {
    if r.lifecycle == LOADING then r.(lifecycle := FAILED) else r
  }

  // ---- Fatal errors, close, shutdown -----------------------------------------

  function StopAll(r: Runtime): Runtime {
    r.(stopped := true, jobsStopped := true)
  }

  function Detachable(r: Runtime): Option<nat> {
    if PrimaryInUse(r.leases) then None else r.active
  }

  /** Takes the engine away from the runtime when nothing admitted works on it. */
  function Detach(r: Runtime): Runtime {
    if Detachable(r).Some? then r.(active := None, cleanup := r.cleanup + 1) else r
  }

  function FatalBlock(r: Runtime): Runtime {
    var failed := if r.lifecycle == SHUTTING_DOWN || r.lifecycle == STOPPED then r
                  else r.(lifecycle := FAILED, search := None);
    Detach(StopAll(failed))
  }

  function CloseBlock(r: Runtime): Runtime {
    if r.lifecycle == STOPPED then r
    else
      var down := if r.lifecycle == SHUTTING_DOWN then r
                  else r.(lifecycle := SHUTTING_DOWN, search := None);
      var detached := Detach(StopAll(down));
      if detached.task == QUEUED then detached.(task := FINISHED) else detached
  }

  predicate Quiescent(r: Runtime) {
    && r.lifecycle == SHUTTING_DOWN
    && (r.task == NoTask || r.task == FINISHED)
    && r.cleanup == 0 && r.active == None && r.leases == map[]
  }

  function FinishIfQuiescent(r: Runtime): Runtime {
    if Quiescent(r) then r.(lifecycle := STOPPED) else r
  }

  function CleanupDone(r: Runtime): Runtime
    requires r.cleanup > 0
  {
    FinishIfQuiescent(r.(cleanup := r.cleanup - 1))
  }

  function FinishTask(r: Runtime): Runtime {
    FinishIfQuiescent(r.(task := FINISHED))
  }

  /** `registry` tells whether the job registry was reserved as well. */
  datatype Reservation = NotReady | Refused(r: Runtime, registry: bool) | Reserved(r: Runtime)

  const SHUTDOWN_SAVE := Request(ProjectExclusive, "shutdown-save")

  /** The first block of `requestShutdown`: reserve, look for active work, and admit
      the save lease when the policy asks for one. */
  function Reserve(r: Runtime, policy: Policy, id: nat): Reservation {
    if !RequireReady(r) then NotReady
    else if r.jobsStopped || r.jobsReserved then Refused(r.(reserved := true), false)
    else
      var claimed := r.(reserved := true, jobsReserved := true);
      if r.leases != map[] || r.liveJobs != 0 then Refused(claimed, true)
      else if policy != Save then Reserved(claimed)
      else if r.stopped then Refused(claimed, true)
      else Reserved(claimed.(leases := claimed.leases[id := NewLease(SHUTDOWN_SAVE, claimed.admission)]))
  }

  /** The last block of `requestShutdown`. */
  function BeginShutdown(r: Runtime): Option<Runtime> {
    if r.lifecycle != READY then None
    else Some(StopAll(r).(lifecycle := SHUTTING_DOWN, search := None, reserved := false, jobsReserved := false))
  }

  function ReleaseReservation(r: Runtime, registry: bool): Runtime {
    r.(reserved := false, jobsReserved := if registry then false else r.jobsReserved)
  }
}
