/** The inductive invariant of the runtime system: what every reachable state satisfies. */
module RuntimeInvariant {
  import opened Common
  import opened Coordinator
  import opened RuntimeBlocks
  import opened RuntimeSystem

  // ---- The invariant, part by part -------------------------------------------

  ghost predicate Fresh(s: System) {
    && (forall t | t in s.ops :: t < s.next)
    && (forall e | e in s.engines :: e < s.next)
  }

  predicate LeaseOf(leases: map<nat, Lease>, t: nat, op: Operation) {
    match Holds(op)
    case None => t !in leases
    case Some(c) =>
      && t in leases
      && leases[t].request.category == c
      && (op.Capturing? ==> leases[t].capturing)
      && (op.Isolated? ==> !leases[t].capturing)
  }

  /** Held leases are coherent and are exactly those the operations believe they hold. */
  ghost predicate LeasesMatch(s: System) {
    && Coherent(s.rt.leases)
    && s.rt.leases.Keys <= s.ops.Keys
    && (forall t | t in s.ops :: LeaseOf(s.rt.leases, t, s.ops[t]))
  }

  ghost predicate EngineOwned(s: System, e: nat)
    requires e in s.owner && e in s.closes && e in s.engines
  {
    && s.closes[e] == (if s.owner[e] == Closed then 1 else 0)
    && match s.owner[e]
       case ByRuntime => s.rt.active == Some(e) && e in s.published
       case ByInitializer => s.init.engine == Some(e) && e !in s.published && s.engines[e].maker == None
       case ByOperation(t) =>
         && t in s.ops && Owns(s.ops[t]) == Some(e)
         && (e in s.published <==> s.ops[t].Cleaning? || s.ops[t].Retiring?)
         && (e !in s.published ==> s.engines[e].maker == Some(t))
       case Closed => true
  }

  /** Every engine has exactly one owner, and has been closed once if the owner is
      `Closed` and never otherwise. */
  ghost predicate OwnersMatch(s: System) {
    && s.owner.Keys == s.engines.Keys
    && s.closes.Keys == s.engines.Keys
    && s.published <= s.engines.Keys
    && (forall e | e in s.owner :: EngineOwned(s, e))
    && (s.rt.active.Some? ==> s.rt.active.value in s.owner && s.owner[s.rt.active.value] == ByRuntime)
    && (s.init.engine.Some? ==> s.init.engine.value in s.owner && s.owner[s.init.engine.value] == ByInitializer)
    && (forall t | t in s.ops && Owns(s.ops[t]).Some? ::
          Owns(s.ops[t]).value in s.owner && s.owner[Owns(s.ops[t]).value] == ByOperation(t))
  }

  predicate LifecycleOk(rt: Runtime) {
    && (rt.lifecycle == LOADING ==>
          && rt.active == None && rt.repo == None && rt.leases == map[] && rt.epoch == 0 && !rt.reserved
          && !rt.stopped && !rt.jobsStopped)
    && (rt.lifecycle == READY || rt.lifecycle == RELOADING ==>
          rt.active.Some? && !rt.stopped && !rt.jobsStopped)
    && (rt.lifecycle == STOPPED ==>
          && rt.active == None && rt.leases == map[] && rt.cleanup == 0
          && (rt.task == NoTask || rt.task == FINISHED))
    && (rt.lifecycle == RELOADING ==> rt.repo.Some?)
    && (rt.leases != map[] ==> rt.repo.Some?)
    && (PrimaryInUse(rt.leases) ==> rt.active.Some?)
    && rt.jobsReserved == rt.reserved
    && (rt.task == NoTask || rt.task == QUEUED || rt.task == RUNNING || rt.task == FINISHED)
    && (!rt.started ==> rt.task == NoTask)
  }

  /** The published engine, the repository and the announced identities agree. */
  ghost predicate Agreement(s: System) {
    && (s.rt.repo.Some? ==> s.rt.admission == AdmissionOf(s.rt.repo.value))
    && (s.rt.repo.Some? && s.rt.lifecycle == READY ==>
          s.rt.search == Some(KeyOf(s.rt.repo.value, s.rt.epoch)))
    && (s.rt.active.Some? ==>
          var e := s.rt.active.value;
          && e in s.engines
          && s.engines[e].args == InitialArgs(s.rt.repo, s.rt.mode)
          && (s.initial != Some(e) ==> s.engines[e].loaded == Some(s.engines[e].args)))
    && (s.init.engine.Some? ==>
          && s.init.engine.value in s.engines
          && s.engines[s.init.engine.value].args == InitialArgs(s.init.repo, s.rt.mode)
          && s.rt.task == RUNNING && s.initial == None)
    && (s.rt.lifecycle == LOADING || !s.init.created ==> s.initial == None)
    && (!s.init.created ==> s.init.engine == None)
    && (s.initial.Some? ==> s.initial.value in s.published)
    && (s.initial == None ==>
          && s.rt.active == None && s.rt.repo == None && s.rt.epoch == 0 && s.rt.leases == map[]
          && s.rt.lifecycle != READY && s.rt.lifecycle != RELOADING
          && s.published == {} && s.captures == [] && s.publications == [])
  }

  predicate StagedOk(staged: Staged, repo: Repo, mode: int) {
    && staged.before == repo.revision
    && staged.args.mode == mode
    && match staged.kind
       case CommitCode => staged.args.mapping == repo.mapping && staged.revision == staged.before + 1
       case CommitReload => staged.revision == staged.before + 1
       case CommitMapping =>
         && staged.args.code == repo.code
         && staged.revision == staged.before + (if staged.args.mapping == repo.mapping then 0 else 1)
  }

  /** What an operation may rely on about the shared state while it is in progress. */
  predicate OperationOk(rt: Runtime, engines: map<nat, Engine>, t: nat, op: Operation) {
    match op
    case Saving(written) => written.Some? ==> rt.repo == written
    case Editing(engine, before, committed) =>
      engine.Some? && !committed ==> rt.active == engine && rt.repo.Some? && rt.repo.value.revision == before
    case Replacing(staged, prior, candidate, consistent) =>
      && rt.active == Some(prior) && rt.repo.Some? && StagedOk(staged, rt.repo.value, rt.mode)
      && (candidate.Some? ==> candidate.value in engines && engines[candidate.value].args == staged.args)
      && (consistent ==> candidate.Some? && engines[candidate.value].loaded == Some(staged.args))
    case Reading(engine, epoch) => engine.Some? ==> rt.active == engine && rt.epoch == epoch
    case Verifying(engine) =>
      engine.Some? ==>
        || (rt.lifecycle == READY && rt.active == engine)
        || ((rt.lifecycle == FAILED || rt.lifecycle == SHUTTING_DOWN) && rt.active == None)
    case Capturing(revision, args, epoch) =>
      && rt.repo.Some?
      && (revision.Some? ==> revision.value == rt.repo.value.revision)
      && (args.Some? ==> args.value == RepoArgs(rt.repo.value, rt.mode))
      && (epoch.Some? ==> epoch.value == rt.epoch)
    case Peeking(epoch, peeked) =>
      && epoch <= rt.epoch
      && (peeked.Some? && epoch == rt.epoch ==> rt.repo.Some? && SameContent(rt.repo.value, peeked.value))
    case _ => true
  }

  ghost predicate OperationsOk(s: System) {
    forall t | t in s.ops :: OperationOk(s.rt, s.engines, t, s.ops[t])
  }

  /** While the reservation stands, nothing else is admitted, and the checks made
      under it stay true. */
  predicate ShuttingOk(rt: Runtime, t: nat, policy: Policy, phase: Phase) {
    if phase.Rejected? then phase.registry
    else
      && rt.leases.Keys <= {t} && rt.liveJobs == 0 && rt.repo.Some?
      && (phase == Inspected || phase.Written? || phase == Announced ==> policy == Save)
      && (phase.Written? ==> rt.repo == Some(phase.saved))
      && (phase.Written? || phase == Announced || (phase == Cleared && policy != Discard) ==>
            !Dirty(rt.repo.value))
  }

  /** Phases in which the save lease is certainly held. */
  predicate NeedsLease(policy: Policy, phase: Phase) {
    || (phase == Claimed && policy == Save)
    || phase == Inspected || phase.Written? || phase == Announced
  }

  ghost predicate ReservationOk(s: System) {
    && s.rt.reserved == s.reserver.Some?
    && (s.reserver.Some? ==> s.reserver.value in s.ops && s.ops[s.reserver.value].Shutting?)
    && (forall t | t in s.ops && s.ops[t].Shutting? ::
          && s.reserver == Some(t)
          && (s.ops[t].held ==> s.ops[t].policy == Save)
          && ShuttingOk(s.rt, t, s.ops[t].policy, s.ops[t].phase)
          && (NeedsLease(s.ops[t].policy, s.ops[t].phase) ==> s.ops[t].held))
  }

  ghost predicate CleanupOk(s: System) {
    && s.cleaners <= s.ops.Keys
    && (forall t | t in s.ops :: t in s.cleaners <==> IsCleanup(s.ops[t]))
    && s.rt.cleanup == |s.cleaners|
  }

  /** All symbol reads at one epoch saw one engine at one revision. */
  ghost predicate CapturesOk(s: System) {
    && (forall i | 0 <= i < |s.captures| ::
          && s.captures[i].epoch <= s.rt.epoch
          && (s.captures[i].epoch == s.rt.epoch && s.rt.active.Some? ==>
                s.rt.active == Some(s.captures[i].engine) && s.rt.repo.Some?
                && s.captures[i].revision == s.rt.repo.value.revision
                && s.captures[i].session == s.rt.repo.value.session))
    && (forall i, j | 0 <= i < j < |s.captures| && s.captures[i].epoch == s.captures[j].epoch ::
          s.captures[i] == s.captures[j])
  }

  /** An operation that may still publish. */
  predicate MayPublish(op: Operation) {
    op.Staging? || op.Replacing? || (op.Editing? && !op.committed)
  }

  ghost predicate PublicationsOk(s: System) {
    && (forall i | 0 <= i < |s.publications| ::
          var t := s.publications[i].op;
          t < s.next && (t in s.ops ==> !MayPublish(s.ops[t])))
    && (forall i, j | 0 <= i < j < |s.publications| :: s.publications[i].op != s.publications[j].op)
    && (|s.publications| > 0 ==>
          && s.rt.repo.Some?
          && s.rt.repo.value.revision == s.publications[|s.publications| - 1].after)
    && (forall i | 0 < i < |s.publications| :: s.publications[i].before == s.publications[i - 1].after)
  }

  ghost predicate Inv(s: System) {
    && Fresh(s) && LeasesMatch(s) && OwnersMatch(s) && LifecycleOk(s.rt) && Agreement(s)
    && OperationsOk(s) && ReservationOk(s) && CleanupOk(s) && CapturesOk(s) && PublicationsOk(s)
  }

  lemma StartIsGood(mode: int)
    ensures Inv(Start(mode))
  {
  }
}
