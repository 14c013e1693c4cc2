/** Requested shutdown, the remaining steps, and the main lemma: every step keeps the
    invariant, so every reachable state of every interleaving satisfies it. */
module RuntimeSafety {
  import opened Common
  import opened Coordinator
  import opened RuntimeBlocks
  import opened RuntimeSystem
  import opened RuntimeInvariant
  import opened RuntimeMoves
  import opened RuntimeSteps

  // ---- Requested shutdown ----------------------------------------------------------

  predicate NextPhase(rt: Runtime, t: nat, op: Operation, next: Operation) {
    && op.Shutting? && next.Shutting? && next.held == op.held && next.policy == op.policy
    && ShuttingOk(rt, t, next.policy, next.phase)
    && (NeedsLease(next.policy, next.phase) ==> next.held)
  }

  lemma PhaseLeases(s: System, t: nat, next: Operation)
    requires LeasesMatch(s) && t in s.ops && NextPhase(s.rt, t, s.ops[t], next)
    ensures LeasesMatch(Put(s, t, next))
  {
    assert LeaseOf(s.rt.leases, t, s.ops[t]);
  }

  lemma PhaseReservation(s: System, t: nat, next: Operation)
    requires ReservationOk(s) && t in s.ops && NextPhase(s.rt, t, s.ops[t], next)
    ensures ReservationOk(Put(s, t, next))
  {
  }

  lemma PhaseKeeps(s: System, t: nat, next: Operation)
    requires Inv(s) && t in s.ops && NextPhase(s.rt, t, s.ops[t], next)
    ensures Inv(Put(s, t, next))
  {
    hide LeasesMatch, OwnersMatch, OperationsOk, ReservationOk, CleanupOk, PublicationsOk;
    PhaseLeases(s, t, next);
    PhaseReservation(s, t, next);
    BareOwners(s, t, next);
    PutCleanup(s, t, next);
    PutPublications(s, t, next);
    PutOperations(s, t, next);
  }

  lemma InspectKeeps(s: System, t: nat)
    requires Inv(s)
    ensures Inv(Inspect(s, t))
  {
    hide Inv;
    if t in s.ops && s.ops[t].Shutting? && s.ops[t].phase == Claimed && s.rt.repo.Some? {
      Facts(s, t);
      PhaseKeeps(s, t, Inspect(s, t).ops[t]);
    }
  }

  lemma WriteShutdownSaveKeeps(s: System, t: nat)
    requires Inv(s)
    ensures Inv(WriteShutdownSave(s, t))
  {
    hide Inv;
    if t in s.ops && s.ops[t].Shutting? && s.ops[t].phase == Inspected && s.rt.repo.Some? {
      Facts(s, t);
      var saved := Saved(s.rt.repo.value);
      var rt := s.rt.(repo := Some(saved));
      SavedKeeps(s, t, rt);
      PhaseKeeps(s.(rt := rt), t, s.ops[t].(phase := Written(saved)));
    }
  }

  lemma AnnounceShutdownSaveKeeps(s: System, t: nat)
    requires Inv(s)
    ensures Inv(AnnounceShutdownSave(s, t))
  {
    hide Inv;
    if t in s.ops && s.ops[t].Shutting? && s.ops[t].phase.Written? {
      Facts(s, t);
      var rt := SaveBlock(s.rt, s.ops[t].phase.saved);
      SavedKeeps(s, t, rt);
      PhaseKeeps(s.(rt := rt), t, s.ops[t].(phase := Announced));
    }
  }

  lemma DroppedOwners(s: System, t: nat)
    requires OwnersMatch(s) && Droppable(s, t)
    ensures OwnersMatch(Dropped(s, t))
  {
    RtOwners(s, ReleaseLease(s.rt, t));
    BareOwners(s.(rt := ReleaseLease(s.rt, t)), t, Dropped(s, t).ops[t]);
  }

  lemma DroppedRest(s: System, t: nat)
    requires ReservationOk(s) && OperationsOk(s) && Droppable(s, t)
    ensures ReservationOk(Dropped(s, t)) && OperationsOk(Dropped(s, t))
  {
    LeaseOperations(s, s.rt.leases - {t});
    var s' := Dropped(s, t);
    forall u | u in s'.ops ensures OperationOk(s'.rt, s'.engines, u, s'.ops[u]) {
      if u != t { assert OperationOk(s.rt, s.engines, u, s.ops[u]); }
    }
  }

  lemma DroppedLog(s: System, t: nat)
    requires CleanupOk(s) && CapturesOk(s) && PublicationsOk(s) && Droppable(s, t)
    ensures var s' := Dropped(s, t); CleanupOk(s') && CapturesOk(s') && PublicationsOk(s')
  {
  }

  lemma DroppedWorld(s: System, t: nat)
    requires Fresh(s) && LifecycleOk(s.rt) && Agreement(s) && Droppable(s, t)
    ensures var s' := Dropped(s, t); Fresh(s') && LifecycleOk(s'.rt) && Agreement(s')
  {
  }

  lemma DroppedKeeps(s: System, t: nat)
    requires Inv(s) && Droppable(s, t)
    ensures Inv(Dropped(s, t))
  {
    hide LeasesMatch, OwnersMatch, OperationsOk, ReservationOk, CleanupOk, CapturesOk, PublicationsOk;
    hide Agreement, LifecycleOk, Fresh;
    ReleaseLeases(s, t, Dropped(s, t).ops[t]);
    DroppedOwners(s, t);
    DroppedRest(s, t);
    DroppedLog(s, t);
    DroppedWorld(s, t);
  }

  lemma SpawnBare(s: System)
    requires Inv(s)
    ensures Inv(Spawn(s, Callback)) && Inv(Spawn(s, Closing))
  {
    SpawnKeeps(s, Callback);
    SpawnKeeps(s, Closing);
  }

  lemma DropSaveLeaseKeeps(s: System, t: nat)
    requires Inv(s)
    ensures Inv(DropSaveLease(s, t))
  {
    hide Inv;
    if Droppable(s, t) {
      DroppedKeeps(s, t);
      SpawnBare(Dropped(s, t));
    }
  }

  /** The shutdown operation is gone and its reservation with it. */
  function Unreserved(s: System, t: nat, rt: Runtime): System {
    End(s.(rt := rt, reserver := None), t)
  }

  predicate GivesBack(s: System, t: nat, rt: Runtime) {
    && t in s.ops && s.ops[t].Shutting? && !s.ops[t].held
    && !rt.reserved && !rt.jobsReserved && LifecycleOk(rt)
    && rt.active == s.rt.active && rt.repo == s.rt.repo && rt.epoch == s.rt.epoch && rt.leases == s.rt.leases
    && rt.admission == s.rt.admission && rt.mode == s.rt.mode && rt.cleanup == s.rt.cleanup
    && rt.task == s.rt.task
    && ((rt.lifecycle == s.rt.lifecycle && rt.search == s.rt.search)
        || (rt.lifecycle == SHUTTING_DOWN && rt.leases == map[]))
  }

  lemma UnreservedOwners(s: System, t: nat, rt: Runtime)
    requires OwnersMatch(s) && LeasesMatch(s) && GivesBack(s, t, rt)
    ensures OwnersMatch(Unreserved(s, t, rt)) && LeasesMatch(Unreserved(s, t, rt))
  {
    EndLeases(s, t);
    EndOwners(s, t);
    var s' := Unreserved(s, t, rt);
    forall e | e in s'.owner ensures EngineOwned(s', e) { assert EngineOwned(s, e); }
  }

  lemma UnreservedRest(s: System, t: nat, rt: Runtime)
    requires ReservationOk(s) && OperationsOk(s) && LeasesMatch(s) && GivesBack(s, t, rt)
    ensures ReservationOk(Unreserved(s, t, rt)) && OperationsOk(Unreserved(s, t, rt))
  {
    var s' := Unreserved(s, t, rt);
    forall u | u in s'.ops ensures OperationOk(s'.rt, s'.engines, u, s'.ops[u]) {
      assert OperationOk(s.rt, s.engines, u, s.ops[u]);
      assert LeaseOf(s.rt.leases, u, s.ops[u]);
    }
  }

  lemma UnreservedWorld(s: System, t: nat, rt: Runtime)
    requires Fresh(s) && Agreement(s) && CleanupOk(s) && CapturesOk(s) && PublicationsOk(s) && GivesBack(s, t, rt)
    ensures var s' := Unreserved(s, t, rt);
            Fresh(s') && Agreement(s') && CleanupOk(s') && CapturesOk(s') && PublicationsOk(s')
  {
  }

  lemma UnreservedKeeps(s: System, t: nat, rt: Runtime)
    requires Inv(s) && GivesBack(s, t, rt)
    ensures Inv(Unreserved(s, t, rt))
  {
    hide LeasesMatch, OwnersMatch, OperationsOk, ReservationOk, CleanupOk, CapturesOk, PublicationsOk, Agreement, Fresh;
    UnreservedOwners(s, t, rt);
    UnreservedRest(s, t, rt);
    UnreservedWorld(s, t, rt);
  }

  lemma AcceptShutdownKeeps(s: System, t: nat)
    requires Inv(s)
    ensures Inv(AcceptShutdown(s, t))
  {
    hide Inv;
    if t in s.ops && s.ops[t].Shutting? && s.ops[t].phase == Cleared && !s.ops[t].held {
      Facts(s, t);
      if s.rt.lifecycle != READY {
        PhaseKeeps(s, t, s.ops[t].(phase := Rejected(true)));
      } else {
        assert s.rt.leases.Keys <= {t};
        assert s.rt.leases == map[];
        UnreservedKeeps(s, t, BeginShutdown(s.rt).value);
      }
    }
  }

  lemma GiveBackKeeps(s: System, t: nat)
    requires Inv(s)
    ensures Inv(GiveBackReservation(s, t))
  {
    hide Inv;
    if t in s.ops && s.ops[t].Shutting? && s.ops[t].phase.Rejected? && !s.ops[t].held {
      Facts(s, t);
      UnreservedKeeps(s, t, ReleaseReservation(s.rt, s.ops[t].phase.registry));
    }
  }

  // ---- Taking the reservation ----------------------------------------------------------

  /** What `Reserve` leaves behind when the runtime is ready. */
  predicate Claims(a: Runtime, b: Runtime, t: nat, op: Operation) {
    && RequireReady(a) && LifecycleOk(b) && b.reserved && b.jobsReserved && op.Shutting?
    && b == a.(reserved := true, jobsReserved := true, leases := b.leases)
    && b.leases == (if op.held then map[t := NewLease(SHUTDOWN_SAVE, a.admission)] else a.leases)
    && (op.held ==> a.leases == map[] && op.policy == Save)
    && ShuttingOk(b, t, op.policy, op.phase)
    && (op.phase == Claimed || op.phase == Rejected(true))
    && (NeedsLease(op.policy, op.phase) ==> op.held)
  }

  lemma ReserveClaims(rt: Runtime, policy: Policy, t: nat)
    requires LifecycleOk(rt)
    ensures match Reserve(rt, policy, t)
            case NotReady => true
            case Refused(b, registry) => registry && Claims(rt, b, t, Shutting(policy, Rejected(true), false))
            case Reserved(b) => Claims(rt, b, t, Shutting(policy, Claimed, policy == Save))
  {
  }

  function Reserving(s: System, rt: Runtime, op: Operation): System {
    Spawn(s.(rt := rt, reserver := Some(s.next)), op)
  }

  lemma ReservingOwners(s: System, rt: Runtime, op: Operation)
    requires Fresh(s) && OwnersMatch(s) && Claims(s.rt, rt, s.next, op)
    ensures OwnersMatch(Reserving(s, rt, op))
  {
    SpawnOwners(s, op);
    var spawned := Spawn(s, op);
    var s' := Reserving(s, rt, op);
    forall e | e in s'.owner ensures EngineOwned(s', e) { assert EngineOwned(spawned, e); }
  }

  lemma ReservingLeases(s: System, rt: Runtime, op: Operation)
    requires Fresh(s) && LeasesMatch(s) && Claims(s.rt, rt, s.next, op)
    ensures LeasesMatch(Reserving(s, rt, op))
  {
    var s' := Reserving(s, rt, op);
    assert s.next !in s.ops;
    forall u | u in s'.ops ensures LeaseOf(s'.rt.leases, u, s'.ops[u]) {
      if u != s.next { assert LeaseOf(s.rt.leases, u, s.ops[u]); }
    }
  }

  lemma ReservingRest(s: System, rt: Runtime, op: Operation)
    requires Fresh(s) && ReservationOk(s) && OperationsOk(s) && Claims(s.rt, rt, s.next, op)
    ensures ReservationOk(Reserving(s, rt, op)) && OperationsOk(Reserving(s, rt, op))
  {
    var s' := Reserving(s, rt, op);
    forall u | u in s'.ops ensures OperationOk(s'.rt, s'.engines, u, s'.ops[u]) {
      if u != s.next { assert OperationOk(s.rt, s.engines, u, s.ops[u]); }
    }
  }

  lemma ReservingWorld(s: System, rt: Runtime, op: Operation)
    requires Fresh(s) && Agreement(s) && CapturesOk(s) && PublicationsOk(s) && Claims(s.rt, rt, s.next, op)
    ensures var s' := Reserving(s, rt, op); Fresh(s') && Agreement(s') && CapturesOk(s') && PublicationsOk(s')
  {
    SpawnPublications(s, op);
  }

  lemma ReservingKeeps(s: System, rt: Runtime, op: Operation)
    requires Inv(s) && Claims(s.rt, rt, s.next, op)
    ensures Inv(Reserving(s, rt, op))
  {
    hide LeasesMatch, OwnersMatch, OperationsOk, ReservationOk, CapturesOk, PublicationsOk, Agreement, Fresh;
    ReservingOwners(s, rt, op);
    ReservingLeases(s, rt, op);
    ReservingRest(s, rt, op);
    ReservingWorld(s, rt, op);
    SpawnCleanup(s, op);
  }

  lemma BeginShuttingKeeps(s: System, policy: Policy)
    requires Inv(s)
    ensures Inv(BeginShutting(s, policy))
  {
    ReserveClaims(s.rt, policy, s.next);
    match Reserve(s.rt, policy, s.next)
    case NotReady =>
    case Refused(rt, registry) => ReservingKeeps(s, rt, Shutting(policy, Rejected(registry), false));
    case Reserved(rt) => ReservingKeeps(s, rt, Shutting(policy, Claimed, policy == Save));
  }

  // ---- Operations that only move on ------------------------------------------------------

  /** A move keeps what the operation holds and owns ... */
  lemma MovedFace(rt: Runtime, engines: map<nat, Engine>, op: Operation, move: Move)
    requires Moved(rt, engines, op, move).Some?
    ensures SameFace(op, Moved(rt, engines, op, move).value)
  {
  }

  /** ... and what it may rely on holds after the move. */
  lemma MovedOk(rt: Runtime, engines: map<nat, Engine>, t: nat, op: Operation, move: Move)
    requires OperationOk(rt, engines, t, op) && Moved(rt, engines, op, move).Some?
    ensures OperationOk(rt, engines, t, Moved(rt, engines, op, move).value)
  {
  }

  lemma MoveKeeps(s: System, t: nat, move: Move)
    requires Inv(s)
    ensures Inv(DoMove(s, t, move))
  {
    hide Inv;
    if t in s.ops && Moved(s.rt, s.engines, s.ops[t], move).Some? {
      Facts(s, t);
      MovedFace(s.rt, s.engines, s.ops[t], move);
      MovedOk(s.rt, s.engines, t, s.ops[t], move);
      PutKeeps(s, t, Moved(s.rt, s.engines, s.ops[t], move).value);
    }
  }

  lemma EntryOk(rt: Runtime, engines: map<nat, Engine>, t: nat, entry: Entry)
    requires rt.repo.Some?
    ensures Entrant(EntryOperation(rt, entry), EntryRequest(entry).category)
    ensures OperationOk(rt, engines, t, EntryOperation(rt, entry))
  {
  }

  lemma EntryKeeps(s: System, entry: Entry)
    requires Inv(s)
    ensures Inv(DoEnter(s, entry))
  {
    if Admit(s.rt, s.next, EntryRequest(entry)).Some? {
      EntryOk(s.rt, s.engines, s.next, entry);
      EnterKeeps(s, EntryRequest(entry), EntryOperation(s.rt, entry));
    }
  }

  lemma BeginPeekKeeps(s: System)
    requires Inv(s)
    ensures Inv(BeginPeek(s))
  {
    hide Inv;
    if RequireReady(s.rt) { SpawnKeeps(s, Peeking(s.rt.epoch, None)); }
  }

  lemma FinishPeekKeeps(s: System, t: nat)
    requires Inv(s)
    ensures Inv(FinishPeek(s, t))
  {
    hide Inv;
    if t in s.ops && s.ops[t].Peeking? { EndKeeps(s, t); }
  }

  lemma CallbackKeeps(s: System, t: nat)
    requires Inv(s)
    ensures Inv(RunCallback(s, t))
  {
    hide Inv;
    if t in s.ops && s.ops[t] == Callback {
      if s.rt.lifecycle == SHUTTING_DOWN {
        PutKeeps(s, t, Closing);
      } else {
        var ended := End(s, t);
        assert Inv(ended) by { EndKeeps(s, t); }
        FinishKeeps(ended);
      }
    }
  }

  lemma FinishCloseKeeps(s: System, t: nat)
    requires Inv(s)
    ensures Inv(FinishClose(s, t))
  {
    hide Inv;
    if t in s.ops && s.ops[t].Finishing? {
      var ended := End(s, t);
      assert Inv(ended) by { EndKeeps(s, t); }
      FinishKeeps(ended);
    }
  }

  // ---- Candidates ---------------------------------------------------------------------------

  lemma CreateCandidateKeeps(s: System, t: nat)
    requires Inv(s)
    ensures Inv(CreateCandidate(s, t))
  {
    hide Inv;
    if t in s.ops && s.ops[t].Replacing? && s.ops[t].candidate.None? {
      var op := s.ops[t];
      Facts(s, t);
      CreateKeeps(s, t, op.staged.args, Replacing(op.staged, op.prior, Some(s.next), false));
    }
  }

  lemma CreateIsolatedKeeps(s: System, t: nat, args: Args)
    requires Inv(s)
    ensures Inv(CreateIsolated(s, t, args))
  {
    hide Inv;
    if t in s.ops && s.ops[t] == Isolated(None) {
      CreateKeeps(s, t, args, Isolated(Some(s.next)));
    }
  }

  lemma LoadCandidateKeeps(s: System, t: nat, loaded: Args)
    requires Inv(s)
    ensures Inv(LoadCandidate(s, t, loaded))
  {
    if t in s.ops && s.ops[t].Replacing? && s.ops[t].candidate.Some? && !s.ops[t].consistent
       && s.ops[t].candidate.value in s.engines {
      var e := s.ops[t].candidate.value;
      assert EngineOwned(s, e);
      LoadKeeps(s, e, loaded);
    }
  }

  lemma LoadInitialKeeps(s: System, loaded: Args)
    requires Inv(s)
    ensures Inv(LoadInitial(s, loaded))
  {
    if s.rt.task == RUNNING && s.init.engine.Some? {
      assert EngineOwned(s, s.init.engine.value);
      LoadKeeps(s, s.init.engine.value, loaded);
    }
  }

  lemma FailCandidateKeeps(s: System, t: nat, fatal: bool)
    requires Inv(s)
    ensures Inv(FailCandidate(s, t, fatal))
  {
    hide Inv;
    if t in s.ops && s.ops[t].Replacing? {
      var op := s.ops[t];
      var unwinding := Put(s, t, Unwinding(op.staged.kind != CommitCode, op.candidate, fatal));
      assert Inv(unwinding) by { PutKeeps(s, t, Unwinding(op.staged.kind != CommitCode, op.candidate, fatal)); }
      ReportFatalKeeps(unwinding);
    }
  }

  lemma CloseCandidateKeeps(s: System, t: nat, fatal: bool)
    requires Inv(s)
    ensures Inv(CloseCandidate(s, t, fatal))
  {
    hide Inv;
    if t in s.ops && s.ops[t].Unwinding? && s.ops[t].candidate.Some? {
      Facts(s, t);
      var op := s.ops[t];
      var next := Unwinding(op.rebuild, None, op.fatal || fatal);
      var closed := Put(CloseEngine(s, op.candidate.value), t, next);
      assert Inv(closed) by { CloseKeeps(s, t, op.candidate.value, next); }
      ReportFatalKeeps(closed);
    }
  }

  lemma RetirePriorKeeps(s: System, t: nat, fatal: bool)
    requires Inv(s)
    ensures Inv(RetirePrior(s, t, fatal))
  {
    hide Inv;
    if t in s.ops && s.ops[t].Retiring? {
      Facts(s, t);
      var op := s.ops[t];
      var next := if fatal then Unwinding(op.rebuild, None, true)
                  else if op.rebuild then Releasing(ProjectExclusive) else Editing(None, 0, true);
      var closed := Put(CloseEngine(s, op.prior), t, next);
      assert Inv(closed) by { CloseKeeps(s, t, op.prior, next); }
      ReportFatalKeeps(closed);
    }
  }

  lemma FinishUnwindingKeeps(s: System, t: nat)
    requires Inv(s)
    ensures Inv(FinishUnwinding(s, t))
  {
    hide Inv;
    if t in s.ops && s.ops[t].Unwinding? && s.ops[t].candidate.None? {
      var op := s.ops[t];
      var next := if op.rebuild then Releasing(ProjectExclusive) else Editing(None, 0, true);
      var moved := Put(s, t, next);
      assert Inv(moved) by { PutKeeps(s, t, next); }
      if op.rebuild && op.fatal {
        ReportFatalKeeps(moved);
      } else if op.rebuild {
        var restored := s.(rt := Restore(s.rt));
        assert Inv(restored) by { RestoreKeeps(s, t); }
        PutKeeps(restored, t, next);
      }
    }
  }

  lemma PublishCandidateKeeps(s: System, t: nat)
    requires Inv(s)
    ensures Inv(PublishCandidate(s, t))
  {
    hide Inv;
    if Publishing(s, t) {
      PublishKeeps(s, t);
    } else if t in s.ops && s.ops[t].Replacing? {
      var op := s.ops[t];
      PutKeeps(s, t, Unwinding(op.staged.kind != CommitCode, op.candidate, false));
    }
  }

  lemma CloseIsolatedKeeps(s: System, t: nat)
    requires Inv(s)
    ensures Inv(CloseIsolated(s, t))
  {
    hide Inv;
    if t in s.ops && s.ops[t].Isolated? && s.ops[t].own.Some? && s.ops[t].own.value in s.closes {
      CloseKeeps(s, t, s.ops[t].own.value, Releasing(TemporaryAnalysis));
    }
  }

  lemma CloseDetachedKeeps(s: System, t: nat)
    requires Inv(s)
    ensures Inv(CloseDetached(s, t))
  {
    hide Inv;
    if t in s.ops && s.ops[t].Cleaning? {
      Facts(s, t);
      CloseKeeps(s, t, s.ops[t].detached, Cleaned);
    }
  }

  // ---- Every step, every run --------------------------------------------------------------

  lemma InitializeKeeps(s: System, step: InitializeStep)
    requires Inv(s)
    ensures Inv(DoInitialize(s, step))
  {
    hide Inv;
    match step
    case StartTask(accepted) => StartInitializationKeeps(s, accepted);
    case RunTask => RunTaskKeeps(s);
    case OpenAndCreate(repo) => CreateInitialKeeps(s, repo);
    case LoadFirst(loaded) => LoadInitialKeeps(s, loaded);
    case PublishFirst => PublishLoadedKeeps(s);
    case FailFirst => FailLoadingKeeps(s);
    case DiscardFirst => DiscardInitialKeeps(s);
    case FinishFirst => FinishInitialKeeps(s);
  }

  lemma RunTaskKeeps(s: System)
    requires Inv(s)
    ensures Inv(DoInitialize(s, RunTask))
  {
    if s.rt.task == QUEUED { QuietKeeps(s, s.rt.(task := RUNNING)); }
  }

  lemma ReplaceKeeps(s: System, t: nat, step: ReplaceStep)
    requires Inv(s)
    ensures Inv(DoReplace(s, t, step))
  {
    hide Inv;
    match step
    case CreateIt => CreateCandidateKeeps(s, t);
    case LoadIt(loaded) => LoadCandidateKeeps(s, t, loaded);
    case PublishIt => PublishCandidateKeeps(s, t);
    case FailIt(fatal) => FailCandidateKeeps(s, t, fatal);
    case CloseIt(fatal) => CloseCandidateKeeps(s, t, fatal);
    case RetireOld(fatal) => RetirePriorKeeps(s, t, fatal);
    case FinishIt => FinishUnwindingKeeps(s, t);
  }

  lemma ReadKeeps(s: System, t: nat, step: ReadStep)
    requires Inv(s)
    ensures Inv(DoRead(s, t, step))
  {
    hide Inv;
    match step
    case UseIt => UseReadKeeps(s, t);
    case EndCapture => NarrowKeeps(s, t);
    case CreateTemporary(args) => CreateIsolatedKeeps(s, t, args);
    case CloseTemporary => CloseIsolatedKeeps(s, t);
    case EndPeek => FinishPeekKeeps(s, t);
  }

  lemma ReleaseItKeeps(s: System, t: nat)
    requires Inv(s)
    ensures Inv(Release(s, t))
  {
    hide Inv;
    if t in s.ops && s.ops[t].Releasing? { ReleaseKeeps(s, t); }
  }

  lemma CloseFamilyKeeps(s: System, t: nat, step: CloseStepKind)
    requires Inv(s)
    ensures Inv(DoClose(s, t, step))
  {
    hide Inv;
    match step
    case ReleaseIt => ReleaseItKeeps(s, t);
    case RunIts => CallbackKeeps(s, t);
    case CloseNow => CloseStepKeeps(s, t);
    case FinishNow => FinishCloseKeeps(s, t);
    case CloseEngineNow => CloseDetachedKeeps(s, t);
    case CountDown => FinishCleanupKeeps(s, t);
  }

  lemma FailNativeKeeps(s: System, t: nat)
    requires Inv(s)
    ensures Inv(FailShutdownSave(s, t))
  {
    hide Inv;
    if t in s.ops && s.ops[t].Shutting? {
      Facts(s, t);
      PhaseKeeps(s, t, s.ops[t].(phase := Rejected(true)));
    }
  }

  lemma ShutdownKeeps(s: System, t: nat, step: ShutdownStep)
    requires Inv(s)
    ensures Inv(DoShutdown(s, t, step))
  {
    hide Inv;
    match step
    case InspectProject => InspectKeeps(s, t);
    case WriteNative => WriteShutdownSaveKeeps(s, t);
    case FailNative => FailNativeKeeps(s, t);
    case AnnounceNative => AnnounceShutdownSaveKeeps(s, t);
    case DropLease => DropSaveLeaseKeeps(s, t);
    case Accept => AcceptShutdownKeeps(s, t);
    case GiveBack => GiveBackKeeps(s, t);
  }

  lemma SubmitJobKeeps(s: System)
    requires Inv(s)
    ensures Inv(Do(s, SSubmitJob))
  {
    hide Inv;
    LoadFacts(s);
    QuietKeeps(s, Do(s, SSubmitJob).rt);
  }

  lemma FinishJobKeeps(s: System)
    requires Inv(s)
    ensures Inv(Do(s, SFinishJob))
  {
    hide Inv;
    LoadFacts(s);
    QuietKeeps(s, Do(s, SFinishJob).rt);
  }

  lemma StepKeeps(s: System, step: Step)
    requires Inv(s)
    ensures Inv(Do(s, step))
  {
    hide Inv;
    match step
    case SInitialize(first) => InitializeKeeps(s, first);
    case SSubmitJob => SubmitJobKeeps(s);
    case SFinishJob => FinishJobKeeps(s);
    case SEnter(entry) => EntryKeeps(s, entry);
    case SEnterJob(key, expected) => EntryKeeps(s, EnterClassRead(key));
    case SBeginRebuild => BeginRebuildKeeps(s);
    case SBeginPeek => BeginPeekKeeps(s);
    case SMove(t, move) => MoveKeeps(s, t, move);
    case SWriteSave(t) => WriteSaveKeeps(s, t);
    case SAnnounceSave(t) => AnnounceSaveKeeps(s, t);
    case SReplace(t, replace) => ReplaceKeeps(s, t, replace);
    case SRead(t, read) => ReadKeeps(s, t, read);
    case SBeginClose => SpawnBare(s);
    case SReportFatal => ReportFatalKeeps(s);
    case SClose(t, close) => CloseFamilyKeeps(s, t, close);
    case SBeginShutdown(policy) => BeginShuttingKeeps(s, policy);
    case SShutdown(t, shutdown) => ShutdownKeeps(s, t, shutdown);
  }

  /** Every state of every execution satisfies the invariant. */
  lemma {:induction false} ExecutionIsGood(run: Execution, at: nat)
    requires run.Valid() && at < |run.states|
    ensures Inv(run.states[at])
  {
    hide Do, Inv;
    if at == 0 {
      StartIsGood(run.mode);
    } else {
      ExecutionIsGood(run, at - 1);
      assert run.Follows(at - 1);
      StepKeeps(run.states[at - 1], run.steps[at - 1]);
    }
  }

  lemma ExecutionLog(run: Execution, at: nat)
    requires run.Valid() && at < |run.states|
    ensures CapturesOk(run.states[at]) && PublicationsOk(run.states[at])
  {
    ExecutionIsGood(run, at);
    hide CapturesOk, PublicationsOk;
  }
}
