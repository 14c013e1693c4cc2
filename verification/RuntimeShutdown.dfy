/** The shutdown reservation, and the one reader that a shutdown does not wait for. */
module RuntimeShutdown {
  import opened Common
  import opened Coordinator
  import opened RuntimeBlocks
  import opened RuntimeSystem
  import opened RuntimeInvariant
  import opened RuntimeMoves
  import opened RuntimeSteps
  import opened RuntimeSafety
  import opened RuntimeTheorems

  // ---- Check-then-act is atomic -----------------------------------------------------

  /** While the reservation stands nothing new is admitted or submitted. */
  predicate NothingNew(s: System, s': System) {
    && s'.rt.reserved && s'.reserver == s.reserver
    && s'.rt.leases.Keys <= s.rt.leases.Keys && s'.rt.liveJobs <= s.rt.liveJobs
  }

  lemma ReservedPublishFirst(s: System)
    requires s.rt.reserved
    ensures NothingNew(s, PublishLoaded(s))
  {
  }

  lemma ReservedInitialize(s: System, step: InitializeStep)
    requires s.rt.reserved
    ensures NothingNew(s, DoInitialize(s, step))
  {
    if step == PublishFirst {
      ReservedPublishFirst(s);
      hide PublishLoaded;
    } else if step.OpenAndCreate? || step.LoadFirst? || step.DiscardFirst? {
      LoadWorkShape(s, step);
      hide DoInitialize;
    } else {
      TaskShape(s, step);
      hide DoInitialize;
    }
  }

  lemma ReservedFatal(s: System, mid: System)
    requires s.rt.reserved && mid.rt == s.rt && mid.reserver == s.reserver
    ensures NothingNew(s, mid) && NothingNew(s, ReportFatal(mid))
  {
    FatalIsQuiet(s.rt);
    hide FatalBlock;
  }

  lemma ReservedPublish(s: System, t: nat)
    requires s.rt.reserved
    ensures NothingNew(s, PublishCandidate(s, t))
  {
  }

  lemma ReservedRestore(s: System)
    requires s.rt.reserved
    ensures NothingNew(s, s.(rt := Restore(s.rt)))
  {
  }

  lemma ReservedReplace(s: System, t: nat, step: ReplaceStep)
    requires s.rt.reserved
    ensures NothingNew(s, DoReplace(s, t, step))
  {
    if t in s.ops {
      var op := s.ops[t];
      ReservedPublish(s, t);
      ReservedRestore(s);
      match step
      case FailIt(fatal) =>
        if op.Replacing? { ReservedFatal(s, Put(s, t, Unwinding(op.staged.kind != CommitCode, op.candidate, fatal))); }
      case CloseIt(fatal) =>
        if op.Unwinding? && op.candidate.Some? && op.candidate.value in s.closes {
          ReservedFatal(s, Put(CloseEngine(s, op.candidate.value), t, Unwinding(op.rebuild, None, op.fatal || fatal)));
        }
      case RetireOld(fatal) =>
        if op.Retiring? && op.prior in s.closes {
          ReservedFatal(s, Put(CloseEngine(s, op.prior), t, Unwinding(op.rebuild, None, true)));
        }
      case FinishIt => ReservedFatal(s, Put(s, t, Releasing(ProjectExclusive)));
      case _ =>
    }
    hide ReportFatal, PublishCandidate, Restore;
  }

  lemma ReservedRead(s: System, t: nat, step: ReadStep)
    requires s.rt.reserved
    ensures NothingNew(s, DoRead(s, t, step))
  {
  }

  lemma ReservedClose(s: System, t: nat, step: CloseStepKind)
    requires s.rt.reserved
    ensures NothingNew(s, DoClose(s, t, step))
  {
    CloseIsQuiet(s.rt);
    WindUpIsQuiet(s.rt);
    hide CloseBlock, FatalBlock, FinishIfQuiescent, CleanupDone;
  }

  lemma SameGates(s: System, s': System)
    requires s.rt.reserved && s'.rt.reserved && s'.reserver == s.reserver
    requires s'.rt.leases == s.rt.leases && s'.rt.liveJobs == s.rt.liveJobs
    ensures NothingNew(s, s')
  {
  }

  lemma ReservedDrop(s: System, t: nat)
    requires s.rt.reserved
    ensures NothingNew(s, DropSaveLease(s, t))
  {
    assert (s.rt.leases - {t}).Keys <= s.rt.leases.Keys;
  }

  lemma ReservedSave(s: System, t: nat, step: ShutdownStep)
    requires s.rt.reserved && step != Accept && step != GiveBack
    ensures NothingNew(s, DoShutdown(s, t, step))
  {
    hide NothingNew;
    match step
    case InspectProject => SameGates(s, Inspect(s, t));
    case WriteNative => SameGates(s, WriteShutdownSave(s, t));
    case FailNative => SameGates(s, FailShutdownSave(s, t));
    case AnnounceNative => SameGates(s, AnnounceShutdownSave(s, t));
    case DropLease =>
      ReservedDrop(s, t);
      hide DropSaveLease;
  }

  lemma ReservedEnd(s: System, t: nat, step: ShutdownStep)
    requires s.rt.reserved && (step == Accept || step == GiveBack)
    requires t in s.ops && s.ops[t].Shutting? ==> s.reserver == Some(t)
    ensures var s' := DoShutdown(s, t, step); NothingNew(s, s') || (s.reserver == Some(t) && !s'.rt.reserved)
  {
  }

  lemma ReservedShutdown(s: System, t: nat, step: ShutdownStep)
    requires s.rt.reserved && (t in s.ops && s.ops[t].Shutting? ==> s.reserver == Some(t))
    ensures var s' := DoShutdown(s, t, step);
            || NothingNew(s, s')
            || ((step == Accept || step == GiveBack) && s.reserver == Some(t) && !s'.rt.reserved)
  {
    hide DoShutdown, NothingNew;
    if step == Accept || step == GiveBack {
      ReservedEnd(s, t, step);
    } else {
      ReservedSave(s, t, step);
    }
  }

  lemma ReservedSingle(s: System, step: Step)
    requires s.rt.reserved && (Single(step) || step.SEnter? || step.SEnterJob?)
    ensures NothingNew(s, Do(s, step))
  {
    hide DoInitialize, DoReplace, DoRead, DoClose, DoShutdown, ReportFatal, Moved, EntryOperation, EntryRequest;
    hide Compatible;
  }

  lemma ReservedStep(s: System, step: Step)
    requires s.rt.reserved
    requires step.SShutdown? && step.t in s.ops && s.ops[step.t].Shutting? ==> s.reserver == Some(step.t)
    ensures var s' := Do(s, step);
            || NothingNew(s, s')
            || (step.SShutdown? && (step.shutdown == Accept || step.shutdown == GiveBack)
                && s.reserver == Some(step.t) && !s'.rt.reserved)
  {
    hide DoInitialize, DoReplace, DoRead, DoClose, DoShutdown, ReportFatal, NothingNew;
    match step
    case SInitialize(first) => ReservedInitialize(s, first);
    case SReplace(t, replace) => ReservedReplace(s, t, replace);
    case SRead(t, read) => ReservedRead(s, t, read);
    case SClose(t, close) => ReservedClose(s, t, close);
    case SShutdown(t, shutdown) => ReservedShutdown(s, t, shutdown);
    case SReportFatal => ReservedFatal(s, s);
    case _ => ReservedSingle(s, step);
  }

  /** From a reachable state with the reservation taken, every step by anybody admits and
      submits nothing, except that the shutdown that reserved may accept or give it back. */
  lemma ReservationExcludesOthers(run: Execution, at: nat)
    requires run.Valid() && at < |run.steps|
    ensures var s, step, s' := run.states[at], run.steps[at], run.states[at + 1];
            s.rt.reserved ==>
              || NothingNew(s, s')
              || (step.SShutdown? && (step.shutdown == Accept || step.shutdown == GiveBack)
                  && s.reserver == Some(step.t) && !s'.rt.reserved)
  {
    var s, step := run.states[at], run.steps[at];
    assert run.Follows(at);
    ExecutionIsGood(run, at);
    assert ReservationOk(s);
    hide Inv, Do;
    if s.rt.reserved { ReservedStep(s, step); }
  }

  lemma AcceptsSafely(s: System, t: nat)
    requires t in s.ops && s.ops[t].Shutting? && s.ops[t].phase == Cleared && !s.ops[t].held
    requires ShuttingOk(s.rt, t, s.ops[t].policy, Cleared) && t !in s.rt.leases
    ensures var s' := AcceptShutdown(s, t);
            s'.rt.lifecycle != s.rt.lifecycle ==>
              && s.rt.lifecycle == READY && s'.rt.lifecycle == SHUTTING_DOWN
              && s.rt.leases == map[] && s.rt.liveJobs == 0 && s.rt.repo.Some?
              && (s.ops[t].policy != Discard ==>
                    && s.rt.repo.value.code == s.rt.repo.value.savedCode
                    && s.rt.repo.value.mapping == s.rt.repo.value.savedMapping)
              && s'.rt.stopped && s'.rt.jobsStopped && !s'.rt.reserved && s'.reserver == None
  {
    hide PrimaryInUse;
  }

  /** When a requested shutdown is accepted there is no operation in flight and no live
      job, and under a saving or refusing policy nothing unsaved, at that very step. */
  lemma AcceptedShutdownIsSafe(run: Execution, at: nat, t: nat)
    requires run.Valid() && at < |run.states|
    ensures var s := run.states[at]; var s' := AcceptShutdown(s, t);
            s'.rt.lifecycle != s.rt.lifecycle ==>
              && s.rt.lifecycle == READY && s'.rt.lifecycle == SHUTTING_DOWN
              && s.reserver == Some(t) && s.rt.leases == map[] && s.rt.liveJobs == 0
              && t in s.ops && s.ops[t].Shutting? && s.rt.repo.Some?
              && (s.ops[t].policy != Discard ==>
                    && s.rt.repo.value.code == s.rt.repo.value.savedCode
                    && s.rt.repo.value.mapping == s.rt.repo.value.savedMapping)
              && s'.rt.stopped && s'.rt.jobsStopped && !s'.rt.reserved && s'.reserver == None
  {
    var s := run.states[at];
    ExecutionIsGood(run, at);
    if t in s.ops && s.ops[t].Shutting? && s.ops[t].phase == Cleared && !s.ops[t].held {
      Facts(s, t);
      assert ReservationOk(s) && s.reserver == Some(t);
      hide Inv, ShuttingOk, LifecycleOk;
      AcceptsSafely(s, t);
    }
  }

  /** Giving the reservation back restores admissions and changes nothing else. */
  lemma RejectionRestoresAdmissions(run: Execution, at: nat, t: nat)
    requires run.Valid() && at < |run.states|
    ensures var s := run.states[at]; var s' := GiveBackReservation(s, t);
            t in s.ops && s.ops[t].Shutting? && s.ops[t].phase.Rejected? && !s.ops[t].held ==>
              && s'.rt == s.rt.(reserved := false, jobsReserved := false)
              && s'.reserver == None && t !in s'.ops
              && (RequireReady(s'.rt) <==> s.rt.lifecycle == READY && s.rt.repo.Some?)
  {
    var s := run.states[at];
    ExecutionIsGood(run, at);
    if t in s.ops && s.ops[t].Shutting? { Facts(s, t); }
    hide Inv;
  }

  /** A refused shutdown, which still has to close its save lease, if it holds one, and to
      give the reservation back. */
  predicate Refusal(op: Operation) {
    op.Shutting? && op.phase.Rejected?
  }

  predicate Stays(s: System, s': System, t: nat)
    requires t in s.ops
  {
    t in s'.ops && s'.ops[t] == s.ops[t]
  }

  lemma FatalLeaves(s: System, t: nat)
    requires t in s.ops && t < s.next
    ensures Stays(s, ReportFatal(s), t)
  {
    hide FatalBlock, Detachable;
  }

  lemma InitializeLeaves(s: System, step: InitializeStep, t: nat)
    requires t in s.ops
    ensures Stays(s, DoInitialize(s, step), t)
  {
    hide StartInitialization, PublishInitial, FailInitial, FinishTask;
  }

  lemma UnwindLeaves(s: System, u: nat, op: Operation, t: nat)
    requires t in s.ops && t < s.next && u != t
    ensures Stays(s, Put(s, u, op), t) && Stays(s, ReportFatal(Put(s, u, op)), t)
  {
    FatalLeaves(Put(s, u, op), t);
    hide ReportFatal;
  }

  lemma ReplaceLeaves(s: System, u: nat, step: ReplaceStep, t: nat)
    requires t in s.ops && t < s.next && Refusal(s.ops[t])
    ensures Stays(s, DoReplace(s, u, step), t)
  {
    hide ReportFatal, Publish, Restore;
    if u in s.ops && u != t {
      var op := s.ops[u];
      match step
      case FailIt(fatal) =>
        if op.Replacing? { UnwindLeaves(s, u, Unwinding(op.staged.kind != CommitCode, op.candidate, fatal), t); }
      case CloseIt(fatal) =>
        if op.Unwinding? && op.candidate.Some? && op.candidate.value in s.closes {
          UnwindLeaves(CloseEngine(s, op.candidate.value), u, Unwinding(op.rebuild, None, op.fatal || fatal), t);
        }
      case RetireOld(fatal) =>
        if op.Retiring? && op.prior in s.closes {
          UnwindLeaves(CloseEngine(s, op.prior), u, Unwinding(op.rebuild, None, true), t);
        }
      case FinishIt => UnwindLeaves(s, u, Releasing(ProjectExclusive), t);
      case _ =>
    }
  }

  lemma ReadLeaves(s: System, u: nat, step: ReadStep, t: nat)
    requires t in s.ops && t < s.next && Refusal(s.ops[t])
    ensures Stays(s, DoRead(s, u, step), t)
  {
    hide FinishCapture, RequireReady;
  }

  lemma CloseLeaves(s: System, u: nat, step: CloseStepKind, t: nat)
    requires t in s.ops && Refusal(s.ops[t])
    ensures Stays(s, DoClose(s, u, step), t)
  {
    hide CloseBlock, FinishIfQuiescent, CleanupDone, ReleaseLease, Detachable;
  }

  lemma ShutdownLeaves(s: System, u: nat, step: ShutdownStep, t: nat)
    requires t in s.ops && t < s.next && Refusal(s.ops[t]) && (u == t ==> step != GiveBack)
    ensures var s' := DoShutdown(s, u, step);
            t in s'.ops && Refusal(s'.ops[t]) && (s'.ops[t].held ==> s.ops[t].held)
    ensures u == t && step == Accept ==> DoShutdown(s, u, step) == s
  {
    hide ReleaseLease, SaveBlock, BeginShutdown, ReleaseReservation;
  }

  lemma RefusalMakesNoMove(rt: Runtime, engines: map<nat, Engine>, op: Operation, move: Move)
    requires Refusal(op)
    ensures Moved(rt, engines, op, move) == None
  {
    hide RequireReady;
  }

  lemma EntryLeaves(s: System, entry: Entry, t: nat)
    requires t in s.ops && t < s.next
    ensures Stays(s, DoEnter(s, entry), t)
  {
    hide Admit, EntryRequest, EntryOperation;
  }

  lemma SingleLeaves(s: System, step: Step, t: nat)
    requires t in s.ops && t < s.next && Refusal(s.ops[t]) && Single(step)
    ensures Stays(s, Do(s, step), t)
  {
    if step.SMove? { RefusalMakesNoMove(s.rt, s.engines, s.ops[t], step.move); }
    hide DoInitialize, DoReplace, DoRead, DoClose, DoShutdown, ReportFatal, DoEnter, Moved;
    hide AdmitReloading, Reserve, SaveBlock, SubmitJob, RequireReady;
  }

  /** Only giving the reservation back moves a refused shutdown on. */
  lemma RefusalStays(s: System, step: Step, t: nat)
    requires t in s.ops && t < s.next && Refusal(s.ops[t]) && step != SShutdown(t, GiveBack)
    ensures var s' := Do(s, step); t in s'.ops && Refusal(s'.ops[t]) && (s'.ops[t].held ==> s.ops[t].held)
    ensures step == SShutdown(t, Accept) ==> Do(s, step) == s
  {
    hide DoInitialize, DoReplace, DoRead, DoClose, DoShutdown, ReportFatal, DoEnter, Refusal;
    match step
    case SInitialize(first) => InitializeLeaves(s, first, t);
    case SReplace(u, replace) => ReplaceLeaves(s, u, replace, t);
    case SRead(u, read) => ReadLeaves(s, u, read, t);
    case SClose(u, close) => CloseLeaves(s, u, close, t);
    case SShutdown(u, shutdown) => ShutdownLeaves(s, u, shutdown, t);
    case SReportFatal => FatalLeaves(s, t);
    case SEnter(entry) => EntryLeaves(s, entry, t);
    case SEnterJob(key, expected) => EntryLeaves(s, EnterClassRead(key), t);
    case _ => SingleLeaves(s, step, t);
  }

  /** Since the shutdown t took the reservation at `s`, t still has it and nothing was
      admitted or submitted. */
  predicate StandsSince(s: System, s': System, t: nat) {
    && s'.rt.reserved && s'.reserver == Some(t)
    && s'.rt.leases.Keys <= s.rt.leases.Keys && s'.rt.liveJobs <= s.rt.liveJobs
  }

  lemma RefusalBegins(s: System, policy: Policy)
    requires RequireReady(s.rt) && (s.rt.leases != map[] || s.rt.liveJobs != 0)
    ensures var s' := BeginShutting(s, policy);
            && s.next in s'.ops && Refusal(s'.ops[s.next]) && !s'.ops[s.next].held && StandsSince(s, s', s.next)
  {
  }

  lemma RefusalStands(run: Execution, at: nat, s: System, t: nat)
    requires run.Valid() && at < |run.steps| && run.steps[at] != SShutdown(t, GiveBack)
    requires t in run.states[at].ops && Refusal(run.states[at].ops[t]) && StandsSince(s, run.states[at], t)
    ensures var s' := run.states[at + 1];
            && t in s'.ops && Refusal(s'.ops[t]) && StandsSince(s, s', t)
            && (s'.ops[t].held ==> run.states[at].ops[t].held)
  {
    assert run.Follows(at);
    ExecutionIsGood(run, at);
    assert Fresh(run.states[at]);
    ReservationExcludesOthers(run, at);
    RefusalStays(run.states[at], run.steps[at], t);
    hide Inv, Do, Refusal, Fresh;
  }

  /** The refused shutdown has the reservation. */
  lemma RefusalReserves(run: Execution, at: nat, t: nat)
    requires run.Valid() && at < |run.states| && t in run.states[at].ops && Refusal(run.states[at].ops[t])
    ensures StandsSince(run.states[at], run.states[at], t)
  {
    ExecutionIsGood(run, at);
    assert ReservationOk(run.states[at]);
    hide Inv, ShuttingOk, NeedsLease;
  }

  /** Giving the reservation back, once the save lease has been closed, clears the two
      reservation flags and nothing else. */
  predicate GivesBackOnly(s: System, t: nat)
    requires t in s.ops && Refusal(s.ops[t])
  {
    !s.ops[t].held ==> GiveBackReservation(s, t).rt == s.rt.(reserved := false, jobsReserved := false)
  }

  /** From any state in which a shutdown has been refused, for active work, unsaved edits,
      a missing path or a failed save, it keeps everybody else out, whatever the others do,
      until it gives the reservation back, which changes only the two flags. */
  lemma {:induction false} RefusedShutdownStands(run: Execution, from: nat, at: nat, t: nat)
    requires run.Valid() && from <= at < |run.states|
    requires t in run.states[from].ops && Refusal(run.states[from].ops[t])
    requires forall i | from <= i < at :: run.steps[i] != SShutdown(t, GiveBack)
    ensures var s, s' := run.states[from], run.states[at];
            && t in s'.ops && Refusal(s'.ops[t]) && StandsSince(s, s', t)
            && (s'.ops[t].held ==> s.ops[t].held) && GivesBackOnly(s', t)
  {
    if at == from {
      RefusalReserves(run, at, t);
    } else {
      RefusedShutdownStands(run, from, at - 1, t);
      RefusalStands(run, at - 1, run.states[from], t);
    }
    RejectionRestoresAdmissions(run, at, t);
    hide GiveBackReservation, StandsSince;
  }

  lemma RefusalUndone(run: Execution, at: nat, policy: Policy)
    requires run.Valid() && at < |run.states|
    requires var s := run.states[at]; RequireReady(s.rt) && (s.rt.leases != map[] || s.rt.liveJobs != 0)
    ensures var s := run.states[at]; GiveBackReservation(BeginShutting(s, policy), s.next).rt == s.rt
  {
    ExecutionIsGood(run, at);
    assert LifecycleOk(run.states[at].rt);
    hide Inv;
  }

  /** A shutdown refused because of active work: nothing is admitted or submitted from its
      request on, and when nothing happened in between, the runtime is as it was found. */
  lemma RefusedShutdownChangesNothing(run: Execution, from: nat, at: nat, policy: Policy)
    requires run.Valid() && from < at < |run.states| && run.steps[from] == SBeginShutdown(policy)
    requires var s := run.states[from]; RequireReady(s.rt) && (s.rt.leases != map[] || s.rt.liveJobs != 0)
    requires forall i | from < i < at :: run.steps[i] != SShutdown(run.states[from].next, GiveBack)
    ensures var s, t, s' := run.states[from], run.states[from].next, run.states[at];
            && t in s'.ops && Refusal(s'.ops[t]) && !s'.ops[t].held && StandsSince(s, s', t)
            && GiveBackReservation(s', t).rt == s'.rt.(reserved := false, jobsReserved := false)
            && (at == from + 1 ==> GiveBackReservation(s', t).rt == s.rt)
  {
    var s, t := run.states[from], run.states[from].next;
    assert run.Follows(from);
    RefusalBegins(s, policy);
    RefusedShutdownStands(run, from + 1, at, t);
    if at == from + 1 { RefusalUndone(run, from, policy); }
    hide BeginShutting, GiveBackReservation, RequireReady;
  }

  // ---- The reader nobody waits for ------------------------------------------------------

  /** Some operation still uses an engine that has been taken from the runtime. */
  ghost predicate Stranded(s: System) {
    exists t | t in s.ops :: Borrows(s.ops[t]).Some? && s.rt.active != Borrows(s.ops[t])
  }

  /** A hierarchy verification is at work on the primary engine. */
  ghost predicate VerifierAtWork(s: System) {
    exists t | t in s.ops :: s.ops[t].Verifying? && s.ops[t].engine.Some?
  }

  lemma VerifierIsDetachable(s: System, t: nat)
    requires LeasesMatch(s) && t in s.ops && s.ops[t].Verifying?
    ensures !PrimaryInUse(s.rt.leases)
  {
    if PrimaryInUse(s.rt.leases) { NoVerifierBesidePrimary(s); }
  }

  lemma PrimaryBorrower(s: System, t: nat)
    requires LeasesMatch(s) && t in s.ops && Borrows(s.ops[t]).Some? && !s.ops[t].Verifying?
    ensures PrimaryInUse(s.rt.leases)
  {
    assert LeaseOf(s.rt.leases, t, s.ops[t]);
    assert UsesPrimary(s.rt.leases[t].request.category);
  }

  /** Taking the engine away strands a borrower exactly when a verification is at work. */
  lemma DetachStrands(s: System, s': System, u: nat)
    requires LeasesMatch(s) && !Stranded(s)
    requires u !in s.ops || Borrows(s.ops[u]) == None
    requires s'.ops.Keys == s.ops.Keys + {u} && Borrows(s'.ops[u]) == None
    requires forall t | t in s.ops && t != u :: s'.ops[t] == s.ops[t]
    requires s'.rt.active == if Detachable(s.rt).Some? then None else s.rt.active
    ensures Stranded(s') <==> VerifierAtWork(s)
  {
    if VerifierAtWork(s) {
      var t :| t in s.ops && s.ops[t].Verifying? && s.ops[t].engine.Some?;
      VerifierIsDetachable(s, t);
      assert s.rt.active == Borrows(s.ops[t]);
      assert Borrows(s'.ops[t]).Some? && s'.rt.active == None;
    }
    if Stranded(s') {
      var t :| t in s'.ops && Borrows(s'.ops[t]).Some? && s'.rt.active != Borrows(s'.ops[t]);
      assert t in s.ops && s.rt.active == Borrows(s.ops[t]);
      if !s.ops[t].Verifying? { PrimaryBorrower(s, t); }
    }
  }

  lemma FatalTakes(s: System)
    ensures var s' := ReportFatal(s);
            && s'.rt == FatalBlock(s.rt) && s'.closes == s.closes
            && s'.rt.active == (if Detachable(s.rt).Some? then None else s.rt.active)
            && (Detachable(s.rt).Some? ==>
                  s'.ops == s.ops[s.next := Cleaning(Detachable(s.rt).value)])
            && (Detachable(s.rt).None? ==> s' == s.(rt := FatalBlock(s.rt)))
  {
  }

  lemma StrandedWithout(s: System, rt: Runtime)
    requires s.next !in s.ops
    ensures Stranded(Spawn(s, Closing).(rt := rt)) <==> Stranded(s.(rt := rt))
  {
    var a, b := Spawn(s, Closing).(rt := rt), s.(rt := rt);
    if Stranded(a) {
      var t :| t in a.ops && Borrows(a.ops[t]).Some? && rt.active != Borrows(a.ops[t]);
      assert t in b.ops && Borrows(b.ops[t]).Some?;
    }
    if Stranded(b) {
      var t :| t in b.ops && Borrows(b.ops[t]).Some? && rt.active != Borrows(b.ops[t]);
      assert t in a.ops && Borrows(a.ops[t]).Some?;
    }
  }

  lemma FatalStrands(s: System)
    requires Fresh(s) && LeasesMatch(s) && !Stranded(s)
    ensures Stranded(ReportFatal(s)) <==> VerifierAtWork(s)
  {
    assert s.next !in s.ops;
    FatalTakes(s);
    if Detachable(s.rt).Some? {
      DetachStrands(s, ReportFatal(s), s.next);
    } else {
      var spawned := Spawn(s, Closing).(rt := FatalBlock(s.rt));
      DetachStrands(s, spawned, s.next);
      StrandedWithout(s, FatalBlock(s.rt));
    }
  }

  /** A fatal error leaves a borrower with a detached engine if and only if a hierarchy
      verification is at work: its QUERY_READ lease does not count as primary use. */
  lemma FatalStrandsExactlyVerifiers(run: Execution, at: nat)
    requires run.Valid() && at < |run.states|
    ensures var s := run.states[at];
            !Stranded(s) ==> (Stranded(ReportFatal(s)) <==> VerifierAtWork(s))
  {
    var s := run.states[at];
    ExecutionIsGood(run, at);
    if !Stranded(s) { FatalStrands(s); }
    hide ReportFatal;
  }

  lemma CloseBlockTakes(rt: Runtime)
    requires rt.lifecycle != STOPPED
    ensures CloseBlock(rt).active == if Detachable(rt).Some? then None else rt.active
  {
    hide PrimaryInUse;
  }

  lemma CloseTakes(s: System, t: nat)
    requires t in s.ops && s.ops[t] == Closing && s.rt.lifecycle != STOPPED
    ensures var s' := CloseStep(s, t);
            && s'.rt.active == (if Detachable(s.rt).Some? then None else s.rt.active)
            && t in s'.ops && Borrows(s'.ops[t]) == None && s'.ops == s.ops[t := s'.ops[t]]
  {
    CloseBlockTakes(s.rt);
    hide CloseBlock, Detachable;
  }

  /** The same condition decides it for close. */
  lemma CloseStrandsExactlyVerifiers(run: Execution, at: nat, t: nat)
    requires run.Valid() && at < |run.states|
    ensures var s := run.states[at];
            !Stranded(s) && s.rt.lifecycle != STOPPED && t in s.ops && s.ops[t] == Closing ==>
              (Stranded(CloseStep(s, t)) <==> VerifierAtWork(s))
  {
    var s := run.states[at];
    ExecutionIsGood(run, at);
    if !Stranded(s) && s.rt.lifecycle != STOPPED && t in s.ops && s.ops[t] == Closing {
      CloseTakes(s, t);
      DetachStrands(s, CloseStep(s, t), t);
    }
    hide CloseStep;
  }

  /** In every reachable state a verification's engine is the active one exactly while
      the project is ready. */
  lemma VerifierKeepsEngineWhileReady(run: Execution, at: nat, t: nat)
    requires run.Valid() && at < |run.states|
    ensures var s := run.states[at];
            t in s.ops && s.ops[t].Verifying? && s.ops[t].engine.Some? ==>
              (s.rt.active == s.ops[t].engine <==> s.rt.lifecycle == READY)
  {
    var s := run.states[at];
    ExecutionIsGood(run, at);
    if t in s.ops && s.ops[t].Verifying? { assert OperationOk(s.rt, s.engines, t, s.ops[t]); }
  }

  lemma RunSnoc(mode: int, steps: seq<Step>, step: Step)
    ensures Run(mode, steps + [step]) == Do(Run(mode, steps), step)
  {
    assert (steps + [step])[..|steps|] == steps;
  }

  const FIRST_REPO := Repo("session", 0, 0, 0, 0, 0, true)

  /** A project comes up, a hierarchy verification starts, a fatal error is reported. */
  function LoadedProject(loaded: Args): seq<Step> {
    [SInitialize(StartTask(true))] + [SInitialize(RunTask)] + [SInitialize(OpenAndCreate(Some(FIRST_REPO)))]
    + [SInitialize(LoadFirst(loaded))] + [SInitialize(PublishFirst)]
  }

  predicate Ready(s: System) {
    && RequireReady(s.rt) && s.rt.active == Some(0) && s.rt.leases == map[] && !s.rt.stopped
    && s.ops == map[] && s.next == 1 && s.closes == map[0 := 0] && s.rt.repo == Some(FIRST_REPO) && s.rt.mode == 0
  }

  lemma Loads(loaded: Args)
    ensures var a := Do(Do(Start(0), SInitialize(StartTask(true))), SInitialize(RunTask));
            var s := Do(Do(Do(a, SInitialize(OpenAndCreate(Some(FIRST_REPO)))), SInitialize(LoadFirst(loaded))),
                        SInitialize(PublishFirst));
            Ready(s) && s.engines == map[0 := Engine(Args(0, 0, 0), Some(loaded), None)]
  {
    var a := Do(Do(Start(0), SInitialize(StartTask(true))), SInitialize(RunTask));
    assert a == Start(0).(rt := Start(0).rt.(started := true, task := RUNNING));
    var b := Do(a, SInitialize(OpenAndCreate(Some(FIRST_REPO))));
    assert b.engines == map[0 := Engine(Args(0, 0, 0), None, None)] && b.init.engine == Some(0) && b.rt == a.rt;
    var c := Do(b, SInitialize(LoadFirst(loaded)));
    assert c.engines == map[0 := Engine(Args(0, 0, 0), Some(loaded), None)] && c.rt == a.rt;
  }

  lemma LoadedProjectState(loaded: Args)
    ensures var s := Run(0, LoadedProject(loaded));
            Ready(s) && s.engines == map[0 := Engine(Args(0, 0, 0), Some(loaded), None)]
  {
    var a := [SInitialize(StartTask(true))];
    RunSnoc(0, [], SInitialize(StartTask(true)));
    assert [] + [SInitialize(StartTask(true))] == a;
    var b := a + [SInitialize(RunTask)];
    RunSnoc(0, a, SInitialize(RunTask));
    var c := b + [SInitialize(OpenAndCreate(Some(FIRST_REPO)))];
    RunSnoc(0, b, SInitialize(OpenAndCreate(Some(FIRST_REPO))));
    var d := c + [SInitialize(LoadFirst(loaded))];
    RunSnoc(0, c, SInitialize(LoadFirst(loaded)));
    RunSnoc(0, d, SInitialize(PublishFirst));
    Loads(loaded);
    hide Do, Start;
    assert Run(0, []) == Start(0);
  }

  /** A verification is at work on the first engine. */
  predicate AtWork(s: System) {
    && s.rt.lifecycle == READY && s.rt.active == Some(0) && s.next == 2 && s.closes == map[0 := 0]
    && s.ops == map[1 := Verifying(Some(0))] && !PrimaryInUse(s.rt.leases)
  }

  lemma VerifierEnters(s: System)
    requires Ready(s)
    ensures var b := Do(s, SEnter(EnterVerify));
            && RequireReady(b.rt) && b.rt.active == Some(0) && b.closes == s.closes && b.next == 2
            && b.ops == map[1 := Verifying(None)] && !PrimaryInUse(b.rt.leases)
  {
    var request := EntryRequest(EnterVerify);
    assert Admit(s.rt, 1, request) == Some(s.rt.(leases := map[1 := NewLease(request, s.rt.admission)]));
    hide Admit;
  }

  lemma VerifierStarts(s: System)
    requires Ready(s)
    ensures AtWork(Do(Do(s, SEnter(EnterVerify)), SMove(1, CaptureVerify)))
  {
    VerifierEnters(s);
    var b := Do(s, SEnter(EnterVerify));
    assert b.rt.lifecycle == READY;
    hide PrimaryInUse, DoEnter, RequireReady;
    assert Moved(b.rt, b.engines, Verifying(None), CaptureVerify) == Some(Verifying(Some(0)));
  }

  lemma VerifierLoses(s: System)
    requires AtWork(s)
    ensures var c := Do(Do(s, SReportFatal), SClose(2, CloseEngineNow));
            1 in c.ops && c.ops[1] == Verifying(Some(0)) && 0 in c.closes && c.closes[0] == 1
  {
    FatalTakes(s);
    hide ReportFatal, FatalBlock;
  }

  function VerifierRun(): seq<Step> {
    LoadedProject(Args(0, 0, 0)) + [SEnter(EnterVerify)] + [SMove(1, CaptureVerify)]
    + [SReportFatal] + [SClose(2, CloseEngineNow)]
  }

  lemma VerifierRunState()
    ensures var s := Run(0, VerifierRun());
            1 in s.ops && s.ops[1] == Verifying(Some(0)) && 0 in s.closes && s.closes[0] == 1
  {
    var a := LoadedProject(Args(0, 0, 0));
    LoadedProjectState(Args(0, 0, 0));
    var b := a + [SEnter(EnterVerify)];
    RunSnoc(0, a, SEnter(EnterVerify));
    var c := b + [SMove(1, CaptureVerify)];
    RunSnoc(0, b, SMove(1, CaptureVerify));
    var d := c + [SReportFatal];
    RunSnoc(0, c, SReportFatal);
    RunSnoc(0, d, SClose(2, CloseEngineNow));
    VerifierStarts(Run(0, a));
    VerifierLoses(Run(0, c));
    hide Do, LoadedProject, Run, Ready, AtWork;
  }

  /** "An engine is never closed while a lease borrows it" fails for a hierarchy
      verification: this execution closes the engine that one is using. */
  lemma VerifierEngineCanBeClosed() returns (run: Execution, t: nat, e: nat)
    ensures run.Valid()
    ensures var s := run.states[|run.steps|];
            t in s.ops && s.ops[t] == Verifying(Some(e)) && e in s.closes && s.closes[e] == 1
  {
    VerifierRunState();
    RunsAreExecutions(0, VerifierRun());
    run, t, e := Execution(0, VerifierRun(), Trace(0, VerifierRun())), 1, 0;
    hide Run, Do, LoadedProject;
  }

  /** The active engine reports the arguments the repository has committed. */
  predicate ReportsCommitted(s: System) {
    && s.rt.active.Some? && s.rt.repo.Some? && s.rt.active.value in s.engines
    && s.engines[s.rt.active.value].loaded == Some(RepoArgs(s.rt.repo.value, s.rt.mode))
  }

  /** The first publication establishes that exactly when loading left the arguments of the
      load thread's engine as it was created, a check made only for replacements. */
  lemma FirstPublicationReportsExactly(run: Execution, at: nat)
    requires run.Valid() && at < |run.states|
    ensures var s := run.states[at];
            s.rt.lifecycle == LOADING && FirstLoaded(s) && s.init.repo.Some? ==>
              (ReportsCommitted(PublishLoaded(s)) <==>
                 s.engines[s.init.engine.value].loaded == Some(s.engines[s.init.engine.value].args))
  {
    ExecutionIsGood(run, at);
    assert Agreement(run.states[at]);
    hide Inv;
  }

  /** Nothing stops the first engine from being published with other arguments. */
  lemma FirstEngineIsNotCompared() returns (run: Execution)
    ensures run.Valid()
    ensures var s := run.states[|run.steps|]; s.rt.lifecycle == READY && s.rt.repo.Some? && !ReportsCommitted(s)
  {
    var steps := LoadedProject(Args(1, 0, 0));
    LoadedProjectState(Args(1, 0, 0));
    RunsAreExecutions(0, steps);
    run := Execution(0, steps, Trace(0, steps));
  }
}
