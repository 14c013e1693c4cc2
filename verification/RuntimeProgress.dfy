/** Nothing gets stuck on the way: a rebuild that has taken the project out of READY brings
    it back or takes it down, and a shutdown that waits for nothing is finished. */
module RuntimeProgress {
  import opened Common
  import opened Coordinator
  import opened RuntimeBlocks
  import opened RuntimeSystem
  import opened RuntimeInvariant
  import opened RuntimeMoves
  import opened RuntimeSafety
  import opened RuntimeTheorems

  // ---- A rebuild in progress ------------------------------------------------------------

  /** An operation inside `rebuild`. */
  predicate Rebuilding(op: Operation) {
    || op.Staging? || (op.Replacing? && op.staged.kind != CommitCode) || (op.Unwinding? && op.rebuild)
  }

  /** The project is RELOADING only while some rebuild is in progress. */
  ghost predicate ReloadsInProgress(s: System) {
    s.rt.lifecycle == RELOADING ==> exists t | t in s.ops :: Rebuilding(s.ops[t])
  }

  /** The rebuild t goes on, or the project is not RELOADING any more. */
  predicate GoesOn(s: System, t: nat) {
    s.rt.lifecycle == RELOADING ==> t in s.ops && Rebuilding(s.ops[t])
  }

  lemma FatalEnds(s: System)
    ensures ReportFatal(s).rt.lifecycle != RELOADING
  {
    hide Detachable;
  }

  lemma InitializeGoesOn(s: System, step: InitializeStep, t: nat)
    requires t in s.ops && Rebuilding(s.ops[t])
    ensures GoesOn(DoInitialize(s, step), t)
  {
    hide StartInitialization, PublishInitial, FailInitial, FinishTask;
  }

  lemma UnwindGoesOn(s: System, mid: System, t: nat)
    requires t in mid.ops && Rebuilding(mid.ops[t])
    ensures GoesOn(mid, t) && GoesOn(ReportFatal(mid), t)
  {
    FatalEnds(mid);
    hide ReportFatal;
  }

  lemma PublishGoesOn(s: System, u: nat, t: nat)
    requires t in s.ops && Rebuilding(s.ops[t])
    ensures GoesOn(PublishCandidate(s, u), t)
  {
  }

  /** The last step of a rebuild that failed ends RELOADING. */
  lemma FinishGoesOn(s: System, u: nat, t: nat)
    requires t in s.ops && Rebuilding(s.ops[t]) && (s.rt.lifecycle == RELOADING ==> s.rt.repo.Some?)
    ensures GoesOn(FinishUnwinding(s, u), t)
  {
    if u in s.ops { FatalEnds(Put(s, u, Releasing(ProjectExclusive))); }
    hide ReportFatal;
  }

  lemma ReplaceGoesOn(s: System, u: nat, step: ReplaceStep, t: nat)
    requires t in s.ops && Rebuilding(s.ops[t]) && (s.rt.lifecycle == RELOADING ==> s.rt.repo.Some?)
    ensures GoesOn(DoReplace(s, u, step), t)
  {
    hide ReportFatal, PublishCandidate, FinishUnwinding;
    match step
    case PublishIt => PublishGoesOn(s, u, t);
    case FinishIt => FinishGoesOn(s, u, t);
    case FailIt(fatal) =>
      if u in s.ops && s.ops[u].Replacing? {
        var op := s.ops[u];
        UnwindGoesOn(s, Put(s, u, Unwinding(op.staged.kind != CommitCode, op.candidate, fatal)), t);
      }
    case CloseIt(fatal) =>
      if u in s.ops && s.ops[u].Unwinding? && s.ops[u].candidate.Some? && s.ops[u].candidate.value in s.closes {
        var op := s.ops[u];
        UnwindGoesOn(s, Put(CloseEngine(s, op.candidate.value), u, Unwinding(op.rebuild, None, op.fatal || fatal)), t);
      }
    case RetireOld(fatal) =>
      if u in s.ops && s.ops[u].Retiring? && s.ops[u].prior in s.closes {
        var op := s.ops[u];
        UnwindGoesOn(s, Put(CloseEngine(s, op.prior), u, Unwinding(op.rebuild, None, true)), t);
      }
    case _ =>
  }

  lemma ReadGoesOn(s: System, u: nat, step: ReadStep, t: nat)
    requires t in s.ops && t < s.next && Rebuilding(s.ops[t])
    ensures GoesOn(DoRead(s, u, step), t)
  {
    hide FinishCapture, RequireReady;
  }

  lemma CloseGoesOn(s: System, u: nat, step: CloseStepKind, t: nat)
    requires t in s.ops && Rebuilding(s.ops[t])
    ensures GoesOn(DoClose(s, u, step), t)
  {
    hide CloseBlock, FinishIfQuiescent, CleanupDone, ReleaseLease, Detachable;
  }

  lemma ShutdownGoesOn(s: System, u: nat, step: ShutdownStep, t: nat)
    requires t in s.ops && t < s.next && Rebuilding(s.ops[t])
    ensures GoesOn(DoShutdown(s, u, step), t)
  {
    hide ReleaseLease, SaveBlock, BeginShutdown, ReleaseReservation;
  }

  lemma RebuildMoves(rt: Runtime, engines: map<nat, Engine>, op: Operation, move: Move)
    requires Rebuilding(op)
    ensures Moved(rt, engines, op, move).Some? ==> Rebuilding(Moved(rt, engines, op, move).value)
  {
    hide RequireReady;
  }

  lemma MoveGoesOn(s: System, u: nat, move: Move, t: nat)
    requires t in s.ops && Rebuilding(s.ops[t])
    ensures GoesOn(DoMove(s, u, move), t)
  {
    hide Moved, Rebuilding;
    RebuildMoves(s.rt, s.engines, s.ops[t], move);
  }

  lemma OwnSavesGoOn(op: Operation)
    requires Rebuilding(op)
    ensures !op.Saving?
  {
  }

  lemma EntryGoesOn(s: System, entry: Entry, t: nat)
    requires t in s.ops && t < s.next && Rebuilding(s.ops[t])
    ensures GoesOn(DoEnter(s, entry), t)
  {
    hide Admit, EntryRequest, EntryOperation;
  }

  lemma BeginGoesOn(s: System, t: nat)
    requires t in s.ops && t < s.next && Rebuilding(s.ops[t])
    ensures GoesOn(BeginRebuild(s), t)
  {
    hide AdmitReloading;
  }

  lemma SingleGoesOn(s: System, step: Step, t: nat)
    requires t in s.ops && t < s.next && Rebuilding(s.ops[t]) && Single(step)
    ensures GoesOn(Do(s, step), t)
  {
    hide DoInitialize, DoReplace, DoRead, DoClose, DoShutdown, ReportFatal, DoEnter, DoMove, BeginRebuild;
    hide Reserve, SubmitJob, RequireReady, Rebuilding;
    if step.SMove? { MoveGoesOn(s, step.t, step.move, t); }
    BeginGoesOn(s, t);
    OwnSavesGoOn(s.ops[t]);
  }

  lemma StepGoesOn(s: System, step: Step, t: nat)
    requires t in s.ops && t < s.next && Rebuilding(s.ops[t]) && (s.rt.lifecycle == RELOADING ==> s.rt.repo.Some?)
    ensures GoesOn(Do(s, step), t)
  {
    hide DoInitialize, DoReplace, DoRead, DoClose, DoShutdown, ReportFatal, DoEnter, Rebuilding;
    match step
    case SInitialize(first) => InitializeGoesOn(s, first, t);
    case SReplace(u, replace) => ReplaceGoesOn(s, u, replace, t);
    case SRead(u, read) => ReadGoesOn(s, u, read, t);
    case SClose(u, close) => CloseGoesOn(s, u, close, t);
    case SShutdown(u, shutdown) => ShutdownGoesOn(s, u, shutdown, t);
    case SReportFatal => FatalEnds(s);
    case SEnter(entry) => EntryGoesOn(s, entry, t);
    case SEnterJob(key, expected) => EntryGoesOn(s, EnterClassRead(key), t);
    case _ => SingleGoesOn(s, step, t);
  }

  /** Only a rebuild makes the project RELOADING. */
  predicate NeverReloads(s: System, s': System) {
    s'.rt.lifecycle == RELOADING ==> s.rt.lifecycle == RELOADING
  }

  lemma InitializeNeverReloads(s: System, step: InitializeStep)
    ensures NeverReloads(s, DoInitialize(s, step))
  {
  }

  lemma FatalAlwaysEnds()
    ensures forall s: System :: ReportFatal(s).rt.lifecycle != RELOADING
  {
    forall s: System ensures ReportFatal(s).rt.lifecycle != RELOADING { FatalEnds(s); }
    hide ReportFatal;
  }

  lemma PublishNeverReloads(s: System, u: nat)
    ensures NeverReloads(s, PublishCandidate(s, u))
  {
  }

  lemma RestoreNeverReloads(rt: Runtime)
    ensures Restore(rt).lifecycle == RELOADING ==> rt.lifecycle == RELOADING
  {
  }

  lemma CloseNotReloading(rt: Runtime)
    ensures CloseBlock(rt).lifecycle != RELOADING
  {
    hide Detachable;
  }

  lemma WindUpNotReloading(rt: Runtime)
    ensures FinishIfQuiescent(rt).lifecycle == RELOADING ==> rt.lifecycle == RELOADING
    ensures rt.cleanup > 0 && CleanupDone(rt).lifecycle == RELOADING ==> rt.lifecycle == RELOADING
  {
  }

  lemma ReplaceNeverReloads(s: System, u: nat, step: ReplaceStep)
    ensures NeverReloads(s, DoReplace(s, u, step))
  {
    hide ReportFatal, PublishCandidate, Restore;
    FatalAlwaysEnds();
    PublishNeverReloads(s, u);
    RestoreNeverReloads(s.rt);
  }

  lemma ReadNeverReloads(s: System, u: nat, step: ReadStep)
    ensures NeverReloads(s, DoRead(s, u, step))
  {
    hide RequireReady;
  }

  lemma CloseNeverReloads(s: System, u: nat, step: CloseStepKind)
    ensures NeverReloads(s, DoClose(s, u, step))
  {
    hide Detachable, CloseBlock, FinishIfQuiescent, CleanupDone;
    CloseNotReloading(s.rt);
    WindUpNotReloading(s.rt);
  }

  lemma ShutdownNeverReloads(s: System, u: nat, step: ShutdownStep)
    ensures NeverReloads(s, DoShutdown(s, u, step))
  {
  }

  lemma EntryNeverReloads(s: System, entry: Entry)
    ensures NeverReloads(s, DoEnter(s, entry))
  {
    hide RequireReady, Compatible, EntryRequest, EntryOperation;
  }

  lemma SingleNeverReloads(s: System, step: Step)
    requires Single(step) && !step.SBeginRebuild?
    ensures NeverReloads(s, Do(s, step))
  {
    hide DoInitialize, DoReplace, DoRead, DoClose, DoShutdown, ReportFatal, DoEnter, Moved, RequireReady;
  }

  lemma StepNeverReloads(s: System, step: Step)
    requires !step.SBeginRebuild?
    ensures NeverReloads(s, Do(s, step))
  {
    hide DoInitialize, DoReplace, DoRead, DoClose, DoShutdown, ReportFatal, DoEnter;
    match step
    case SInitialize(first) => InitializeNeverReloads(s, first);
    case SReplace(u, replace) => ReplaceNeverReloads(s, u, replace);
    case SRead(u, read) => ReadNeverReloads(s, u, read);
    case SClose(u, close) => CloseNeverReloads(s, u, close);
    case SShutdown(u, shutdown) => ShutdownNeverReloads(s, u, shutdown);
    case SReportFatal => FatalEnds(s);
    case SEnter(entry) => EntryNeverReloads(s, entry);
    case SEnterJob(key, expected) => EntryNeverReloads(s, EnterClassRead(key));
    case _ => SingleNeverReloads(s, step);
  }

  lemma BeginReloads(s: System)
    requires s.rt.lifecycle != RELOADING
    ensures ReloadsInProgress(BeginRebuild(s))
  {
    hide Admit;
    var s' := BeginRebuild(s);
    if s'.rt.lifecycle == RELOADING { assert s.next in s'.ops && Rebuilding(s'.ops[s.next]); }
  }

  lemma ReloadingFacts(run: Execution, at: nat)
    requires run.Valid() && at < |run.states|
    ensures var s := run.states[at];
            (forall t | t in s.ops :: t < s.next) && (s.rt.lifecycle == RELOADING ==> s.rt.repo.Some?)
  {
    ExecutionIsGood(run, at);
    assert Fresh(run.states[at]) && LifecycleOk(run.states[at].rt);
    hide Inv;
  }

  lemma DoBegins(s: System)
    ensures Do(s, SBeginRebuild) == BeginRebuild(s)
  {
  }

  lemma ReloadStep(s: System, step: Step)
    requires ReloadsInProgress(s) && (forall t | t in s.ops :: t < s.next)
    requires s.rt.lifecycle == RELOADING ==> s.rt.repo.Some?
    ensures ReloadsInProgress(Do(s, step))
  {
    hide Do, Rebuilding, BeginRebuild;
    if s.rt.lifecycle == RELOADING {
      var t :| t in s.ops && Rebuilding(s.ops[t]);
      StepGoesOn(s, step, t);
    } else if step.SBeginRebuild? {
      BeginReloads(s);
      assert Do(s, step) == BeginRebuild(s) by { DoBegins(s); }
    } else {
      StepNeverReloads(s, step);
    }
  }

  /** In every reachable state, RELOADING means that some rebuild is in progress. */
  lemma {:induction false} ReloadingIsInProgress(run: Execution, at: nat)
    requires run.Valid() && at < |run.states|
    ensures ReloadsInProgress(run.states[at])
  {
    hide Do;
    if at > 0 {
      assert run.Follows(at - 1);
      ReloadingIsInProgress(run, at - 1);
      ReloadingFacts(run, at - 1);
      hide ReloadsInProgress;
      ReloadStep(run.states[at - 1], run.steps[at - 1]);
    }
  }

  lemma RestoreReadies(rt: Runtime)
    requires rt.lifecycle == RELOADING && rt.repo.Some?
    ensures Restore(rt).lifecycle == READY && Restore(rt).repo == rt.repo && Restore(rt).active == rt.active
    ensures Restore(rt).epoch == rt.epoch
    ensures var repo := rt.repo.value;
            && Restore(rt).admission == Admission(repo.session, repo.revision)
            && Restore(rt).search == Some(SearchKey(repo.session, repo.revision, rt.epoch))
  {
  }

  lemma FatalTakesDown(s: System)
    ensures ReportFatal(s).rt.lifecycle in {FAILED, SHUTTING_DOWN, STOPPED}
  {
    hide Detachable;
  }

  /** The last step of a rebuild that failed.  After an exception the project is READY
      again, with the identities of its repository announced; after an error it is FAILED
      or on its way down. */
  lemma FailedRebuildRestores(run: Execution, at: nat, t: nat)
    requires run.Valid() && at < |run.states|
    ensures var s := run.states[at]; var s' := FinishUnwinding(s, t);
            t in s.ops && s.ops[t] == Unwinding(true, None, false) && s.rt.lifecycle == RELOADING ==>
              && s.rt.repo.Some? && s'.rt.lifecycle == READY && s'.rt.repo == s.rt.repo && s'.rt.active == s.rt.active
              && s'.rt.epoch == s.rt.epoch
              && var repo := s.rt.repo.value;
                 && s'.rt.admission == Admission(repo.session, repo.revision)
                 && s'.rt.search == Some(SearchKey(repo.session, repo.revision, s.rt.epoch))
    ensures var s := run.states[at]; var s' := FinishUnwinding(s, t);
            t in s.ops && s.ops[t] == Unwinding(true, None, true) ==>
              s'.rt.lifecycle == FAILED || s'.rt.lifecycle == SHUTTING_DOWN || s'.rt.lifecycle == STOPPED
  {
    hide Restore, ReportFatal;
    var s := run.states[at];
    ReloadingFacts(run, at);
    if s.rt.lifecycle == RELOADING { RestoreReadies(s.rt); }
    FatalTakesDown(Put(s, t, Releasing(ProjectExclusive)));
  }

  // ---- A shutdown that waits for nothing -------------------------------------------------

  /** Going down, with no load, no cleanup, no engine and no lease left. */
  predicate NothingLeft(rt: Runtime) {
    && rt.lifecycle == SHUTTING_DOWN && (rt.task == NoTask || rt.task == FINISHED)
    && rt.cleanup == 0 && rt.active == None && rt.leases == map[]
  }

  /** An operation whose next steps look for the end of the shutdown. */
  predicate Finisher(op: Operation) {
    op.Closing? || op.Finishing? || op.Callback?
  }

  ghost predicate SomeoneFinishes(s: System) {
    NothingLeft(s.rt) ==> exists t | t in s.ops :: Finisher(s.ops[t])
  }

  /** If nothing is left, t is a finisher. */
  predicate Finishes(s: System, t: nat) {
    NothingLeft(s.rt) ==> t in s.ops && t < s.next && Finisher(s.ops[t])
  }

  lemma FatalLeavesWork(rt: Runtime)
    ensures NothingLeft(FatalBlock(rt)) ==> NothingLeft(rt)
  {
    hide PrimaryInUse;
  }

  lemma FatalFinishes(s: System, t: nat)
    requires Finishes(s, t)
    ensures Finishes(ReportFatal(s), t)
  {
    hide FatalBlock, Detachable;
    FatalLeavesWork(s.rt);
  }

  /** The end of a load, a cleanup or a close finishes what waits for nothing. */
  lemma WindUpFinishes(rt: Runtime)
    ensures !NothingLeft(FinishIfQuiescent(rt)) && !NothingLeft(FinishTask(rt))
    ensures rt.cleanup > 0 ==> !NothingLeft(CleanupDone(rt))
  {
  }

  lemma LoadBlocksFinish(rt: Runtime, accepted: bool, engine: nat, repo: Option<Repo>)
    ensures NothingLeft(StartInitialization(rt, accepted)) ==> NothingLeft(rt)
    ensures NothingLeft(FailInitial(rt)) ==> NothingLeft(rt)
    ensures PublishInitial(rt, engine, repo).Some? ==> !NothingLeft(PublishInitial(rt, engine, repo).value)
  {
  }

  lemma InitializeFinishes(s: System, step: InitializeStep, t: nat)
    requires Finishes(s, t)
    ensures Finishes(DoInitialize(s, step), t)
  {
    hide FinishIfQuiescent, FinishTask, StartInitialization, FailInitial, PublishInitial;
    WindUpFinishes(s.rt);
    LoadBlocksFinish(s.rt, if step.StartTask? then step.accepted else true,
                     if s.init.engine.Some? then s.init.engine.value else 0, s.init.repo);
  }

  lemma PublishFinishes(s: System, u: nat, t: nat)
    requires Finishes(s, t)
    ensures Finishes(PublishCandidate(s, u), t)
  {
  }

  lemma FatalRuntime(s: System)
    ensures ReportFatal(s).rt == FatalBlock(s.rt)
  {
    hide FatalBlock, Detachable;
  }

  lemma MidFinishes(s: System, u: nat, op: Operation, t: nat)
    requires Finishes(s, t) && (u in s.ops ==> !Finisher(s.ops[u]))
    ensures Finishes(Put(s, u, op), t) && Finishes(ReportFatal(Put(s, u, op)), t)
  {
    hide ReportFatal;
    if u != t { FatalFinishes(Put(s, u, op), t); }
    if u == t { FatalLeavesWork(s.rt); FatalRuntime(Put(s, u, op)); }
  }

  lemma RestoreLeavesWork(rt: Runtime)
    ensures NothingLeft(Restore(rt)) <==> NothingLeft(rt)
  {
  }

  lemma ReplaceFinishes(s: System, u: nat, step: ReplaceStep, t: nat)
    requires Finishes(s, t)
    ensures Finishes(DoReplace(s, u, step), t)
  {
    hide ReportFatal, PublishCandidate, Restore;
    PublishFinishes(s, u, t);
    RestoreLeavesWork(s.rt);
    if u in s.ops {
      var op := s.ops[u];
      match step
      case FailIt(fatal) =>
        if op.Replacing? { MidFinishes(s, u, Unwinding(op.staged.kind != CommitCode, op.candidate, fatal), t); }
      case CloseIt(fatal) =>
        if op.Unwinding? && op.candidate.Some? && op.candidate.value in s.closes {
          MidFinishes(CloseEngine(s, op.candidate.value), u, Unwinding(op.rebuild, None, op.fatal || fatal), t);
        }
      case RetireOld(fatal) =>
        if op.Retiring? && op.prior in s.closes {
          MidFinishes(CloseEngine(s, op.prior), u, Unwinding(op.rebuild, None, true), t);
        }
      case FinishIt => if op.Unwinding? { MidFinishes(s, u, Releasing(ProjectExclusive), t); }
      case _ =>
    }
  }

  lemma ReadFinishes(s: System, u: nat, step: ReadStep, t: nat)
    requires Finishes(s, t)
    ensures Finishes(DoRead(s, u, step), t)
  {
    hide RequireReady;
  }

  /** Giving a lease back makes the operation run the completion callback. */
  lemma ReleaseFinishes(s: System, u: nat, t: nat)
    requires Finishes(s, t)
    ensures u in s.ops && s.ops[u].Releasing? && u < s.next ==> Finishes(Release(s, u), u)
    ensures u !in s.ops || !s.ops[u].Releasing? ==> Release(s, u) == s
  {
  }

  lemma CallbackFinishes(s: System, u: nat, t: nat)
    requires Finishes(s, t)
    ensures Finishes(RunCallback(s, u), t)
  {
    hide FinishIfQuiescent;
    WindUpFinishes(s.rt);
  }

  lemma CloseBlockWork(rt: Runtime)
    ensures NothingLeft(CloseBlock(rt)) ==> Detachable(rt) == None && rt.lifecycle != STOPPED
  {
    hide PrimaryInUse;
  }

  lemma CloseStepFinishes(s: System, u: nat, t: nat)
    requires Finishes(s, t)
    ensures u in s.ops && s.ops[u].Closing? && u < s.next ==> Finishes(CloseStep(s, u), u)
    ensures u !in s.ops || !s.ops[u].Closing? ==> CloseStep(s, u) == s
  {
    hide CloseBlock, Detachable;
    CloseBlockWork(s.rt);
  }

  lemma EndFinishes(s: System, u: nat, t: nat)
    requires Finishes(s, t)
    ensures Finishes(FinishClose(s, u), t) && Finishes(CloseDetached(s, u), t) && Finishes(FinishCleanup(s, u), t)
  {
    hide FinishIfQuiescent, CleanupDone;
    WindUpFinishes(s.rt);
  }

  lemma CloseFinishes(s: System, u: nat, step: CloseStepKind, t: nat)
    requires Finishes(s, t) && (u in s.ops ==> u < s.next)
    ensures SomeoneFinishes(DoClose(s, u, step))
  {
    hide Release, RunCallback, CloseStep, FinishClose, CloseDetached, FinishCleanup, NothingLeft, Finisher;
    ReleaseFinishes(s, u, t);
    CallbackFinishes(s, u, t);
    CloseStepFinishes(s, u, t);
    EndFinishes(s, u, t);
  }

  lemma AcceptFinishes(s: System, u: nat, t: nat)
    requires Finishes(s, t) && (s.rt.lifecycle == READY ==> s.rt.active.Some?)
    ensures Finishes(AcceptShutdown(s, u), t)
  {
  }

  lemma NothingDropped(s: System, u: nat)
    ensures !Droppable(s, u) ==> DropSaveLease(s, u) == s
  {
  }

  /** Closing the save lease runs the completion callback as well. */
  lemma DropFinishes(s: System, u: nat, t: nat)
    requires Finishes(s, t)
    ensures Droppable(s, u) ==> Finishes(DropSaveLease(s, u), s.next)
  {
  }

  lemma PhaseFinishes(s: System, u: nat, step: ShutdownStep, t: nat)
    requires Finishes(s, t) && (s.rt.lifecycle == READY ==> s.rt.active.Some?) && step != DropLease
    ensures Finishes(DoShutdown(s, u, step), t)
  {
    hide AcceptShutdown;
    AcceptFinishes(s, u, t);
  }

  lemma ShutdownFinishes(s: System, u: nat, step: ShutdownStep, t: nat)
    requires Finishes(s, t) && (s.rt.lifecycle == READY ==> s.rt.active.Some?)
    ensures SomeoneFinishes(DoShutdown(s, u, step))
  {
    hide DropSaveLease, Droppable, NothingLeft, Finisher;
    if step == DropLease {
      DropFinishes(s, u, t);
      NothingDropped(s, u);
    } else {
      PhaseFinishes(s, u, step, t);
      hide DoShutdown;
    }
  }

  lemma FinisherMakesNoMove(rt: Runtime, engines: map<nat, Engine>, op: Operation, move: Move)
    requires Finisher(op)
    ensures Moved(rt, engines, op, move) == None
  {
    hide RequireReady;
  }

  lemma MoveFinishes(s: System, u: nat, move: Move, t: nat)
    requires Finishes(s, t)
    ensures Finishes(DoMove(s, u, move), t)
  {
    hide Moved;
    if t in s.ops && Finisher(s.ops[t]) { FinisherMakesNoMove(s.rt, s.engines, s.ops[t], move); }
  }

  lemma EntryFinishes(s: System, entry: Entry, t: nat)
    requires Finishes(s, t)
    ensures Finishes(DoEnter(s, entry), t)
  {
    hide Compatible, EntryRequest, EntryOperation;
  }

  lemma SingleFinishes(s: System, step: Step, t: nat)
    requires Finishes(s, t) && Single(step)
    ensures Finishes(Do(s, step), t)
  {
    hide DoInitialize, DoReplace, DoRead, DoClose, DoShutdown, ReportFatal, DoEnter, DoMove, Compatible;
    if step.SMove? { MoveFinishes(s, step.t, step.move, t); }
  }

  lemma FinishStep(s: System, step: Step, t: nat)
    requires Finishes(s, t) && (forall u | u in s.ops :: u < s.next)
    requires s.rt.lifecycle == READY ==> s.rt.active.Some?
    ensures SomeoneFinishes(Do(s, step))
  {
    hide DoInitialize, DoReplace, DoRead, DoClose, DoShutdown, ReportFatal, DoEnter, NothingLeft, Finisher;
    match step
    case SInitialize(first) => InitializeFinishes(s, first, t);
    case SReplace(u, replace) => ReplaceFinishes(s, u, replace, t);
    case SRead(u, read) => ReadFinishes(s, u, read, t);
    case SClose(u, close) => CloseFinishes(s, u, close, t);
    case SShutdown(u, shutdown) => ShutdownFinishes(s, u, shutdown, t);
    case SReportFatal => FatalFinishes(s, t);
    case SEnter(entry) => EntryFinishes(s, entry, t);
    case SEnterJob(key, expected) => EntryFinishes(s, EnterClassRead(key), t);
    case _ => SingleFinishes(s, step, t);
  }

  lemma FinishFacts(run: Execution, at: nat)
    requires run.Valid() && at < |run.states|
    ensures var s := run.states[at];
            (forall t | t in s.ops :: t < s.next) && (s.rt.lifecycle == READY ==> s.rt.active.Some?)
  {
    ExecutionIsGood(run, at);
    assert Fresh(run.states[at]) && LifecycleOk(run.states[at].rt);
    hide Inv;
  }

  lemma StartHasWork(mode: int)
    ensures !NothingLeft(Start(mode).rt)
  {
  }

  /** A shutdown never hangs: in every reachable state in which the project is going down
      and no load, cleanup, engine or lease is left, some operation is still about to look
      for the end of the shutdown. */
  lemma {:induction false} ShutdownNeverHangs(run: Execution, at: nat)
    requires run.Valid() && at < |run.states|
    ensures SomeoneFinishes(run.states[at])
  {
    hide Do, NothingLeft, Finisher;
    if at > 0 {
      var s := run.states[at - 1];
      assert run.Follows(at - 1);
      ShutdownNeverHangs(run, at - 1);
      FinishFacts(run, at - 1);
      var t: nat := 0;
      if NothingLeft(s.rt) { t :| t in s.ops && Finisher(s.ops[t]); }
      FinishStep(s, run.steps[at - 1], t);
    } else {
      StartHasWork(run.mode);
    }
  }

  /** And the last steps of such an operation do end it: the callback becomes a close, the
      close takes nothing away any more, and its last step stops the project. */
  lemma FinisherStops(s: System, t: nat)
    requires NothingLeft(s.rt) && t in s.ops && Finisher(s.ops[t])
    ensures s.ops[t].Callback? ==> RunCallback(s, t) == Put(s, t, Closing)
    ensures s.ops[t].Closing? ==>
              NothingLeft(CloseStep(s, t).rt) && t in CloseStep(s, t).ops && CloseStep(s, t).ops[t].Finishing?
    ensures s.ops[t].Finishing? ==> FinishClose(s, t).rt.lifecycle == STOPPED
  {
  }

  // ---- Errors ------------------------------------------------------------------------------

  /** A replacement meets an error that is not an exception: while it is made, while its
      candidate or the old engine is closed, or again when a rebuild ends after one. */
  predicate MeetsError(op: Operation, step: ReplaceStep) {
    || (op.Replacing? && step == FailIt(true))
    || (op.Unwinding? && op.candidate.Some? && step == CloseIt(true))
    || (op.Retiring? && step == RetireOld(true))
    || (op.Unwinding? && op.candidate.None? && op.rebuild && op.fatal && step == FinishIt)
  }

  predicate DownForGood(rt: Runtime) {
    && rt.stopped && rt.jobsStopped
    && (rt.lifecycle == FAILED || rt.lifecycle == SHUTTING_DOWN || rt.lifecycle == STOPPED)
    && (rt.lifecycle == FAILED ==> rt.search == None)
  }

  lemma FatalIsDown(rt: Runtime)
    ensures DownForGood(FatalBlock(rt))
  {
    hide PrimaryInUse;
  }

  lemma ErrorIsReported(s: System, t: nat, step: ReplaceStep)
    requires t in s.ops && MeetsError(s.ops[t], step)
    requires Owns(s.ops[t]).Some? ==> Owns(s.ops[t]).value in s.closes
    ensures DownForGood(DoReplace(s, t, step).rt)
  {
    hide FatalBlock, Detachable, DownForGood;
    FatalIsDown(s.rt);
  }

  /** Every such error takes the project down: both gates are stopped and it fails, unless
      it was going down already. */
  lemma ErrorsTakeTheProjectDown(run: Execution, at: nat, t: nat, step: ReplaceStep)
    requires run.Valid() && at < |run.steps| && run.steps[at] == SReplace(t, step)
    ensures t in run.states[at].ops && MeetsError(run.states[at].ops[t], step) ==> DownForGood(run.states[at + 1].rt)
  {
    hide DoReplace, DownForGood, MeetsError, LifecycleOk;
    var s := run.states[at];
    assert run.Follows(at);
    ExecutionIsGood(run, at);
    assert OwnersMatch(s);
    if t in s.ops && MeetsError(s.ops[t], step) { ErrorIsReported(s, t, step); }
  }
}
