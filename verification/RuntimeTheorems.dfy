/** What holds in every reachable state of the project runtime, and over every run. */
module RuntimeTheorems {
  import opened Common
  import opened Coordinator
  import opened RuntimeBlocks
  import opened RuntimeSystem
  import opened RuntimeInvariant
  import opened RuntimeMoves
  import opened RuntimeSteps
  import opened RuntimeSafety

  // ---- Engine ownership ----------------------------------------------------------

  /** Somebody is still responsible for closing this engine. */
  ghost predicate Owned(s: System, e: nat) {
    || s.rt.active == Some(e)
    || s.init.engine == Some(e)
    || (exists t | t in s.ops :: Owns(s.ops[t]) == Some(e))
  }

  /** No engine is closed twice, and one is left open only while exactly the runtime,
      the initializer or some operation still owns it: nothing leaks. */
  lemma OpenExactlyWhileOwned(run: Execution, at: nat)
    requires run.Valid() && at < |run.states|
    ensures var s := run.states[at];
            && s.closes.Keys == s.engines.Keys
            && (forall e | e in s.closes :: s.closes[e] <= 1 && (s.closes[e] == 0 <==> Owned(s, e)))
  {
    var s := run.states[at];
    ExecutionIsGood(run, at);
    forall e | e in s.closes ensures s.closes[e] <= 1 && (s.closes[e] == 0 <==> Owned(s, e)) {
      assert EngineOwned(s, e);
    }
  }

  /** Ownership is exclusive. */
  lemma OneOwner(run: Execution, at: nat, t: nat, u: nat)
    requires run.Valid() && at < |run.states|
    ensures var s := run.states[at];
            t in s.ops && Owns(s.ops[t]).Some? ==>
              && s.rt.active != Owns(s.ops[t]) && s.init.engine != Owns(s.ops[t])
              && (u in s.ops && u != t ==> Owns(s.ops[u]) != Owns(s.ops[t]))
  {
    ExecutionIsGood(run, at);
  }

  /** An engine borrowed under a class-read or project-exclusive lease is the active one
      and has not been closed. */
  lemma BorrowedEngineIsOpen(run: Execution, at: nat, t: nat)
    requires run.Valid() && at < |run.states|
    ensures var s := run.states[at];
            t in s.ops && Borrows(s.ops[t]).Some? && Holds(s.ops[t]) != Some(QueryRead) ==>
              var e := Borrows(s.ops[t]).value;
              s.rt.active == Some(e) && e in s.closes && s.closes[e] == 0
  {
    var s := run.states[at];
    ExecutionIsGood(run, at);
    if t in s.ops && Borrows(s.ops[t]).Some? && Holds(s.ops[t]) != Some(QueryRead) {
      assert OperationOk(s.rt, s.engines, t, s.ops[t]);
      assert EngineOwned(s, Borrows(s.ops[t]).value);
    }
  }

  /** An engine that was made for a replacement or a temporary read and never published
      stays with the operation that made it until it is closed. */
  lemma UnpublishedStaysWithMaker(run: Execution, at: nat, e: nat)
    requires run.Valid() && at < |run.states|
    ensures var s := run.states[at];
            e in s.engines && e in s.closes && s.engines[e].maker.Some? && e !in s.published && s.closes[e] == 0 ==>
              var m := s.engines[e].maker.value;
              m in s.ops && Owns(s.ops[m]) == Some(e)
  {
    var s := run.states[at];
    ExecutionIsGood(run, at);
    if e in s.engines { assert EngineOwned(s, e); }
  }

  /** STOPPED means stopped: every engine ever created is closed, no lease is held and
      no load or cleanup is under way. */
  lemma StoppedMeansClosed(run: Execution, at: nat)
    requires run.Valid() && at < |run.states|
    ensures var s := run.states[at];
            s.rt.lifecycle == STOPPED ==>
              && (forall e | e in s.engines :: e in s.closes && s.closes[e] == 1)
              && s.rt.leases == map[] && s.rt.cleanup == 0 && s.rt.task != QUEUED && s.rt.task != RUNNING
  {
    var s := run.states[at];
    ExecutionIsGood(run, at);
    if s.rt.lifecycle == STOPPED {
      assert s.cleaners == {};
      forall t | t in s.ops ensures Owns(s.ops[t]) == None {
        assert LeaseOf(s.rt.leases, t, s.ops[t]);
        assert !IsCleanup(s.ops[t]);
      }
      forall e | e in s.engines ensures e in s.closes && s.closes[e] == 1 {
        assert EngineOwned(s, e);
      }
    }
  }

  // ---- Agreement -------------------------------------------------------------------

  /** While the project is ready the published engine, the repository and both announced
      identities describe the same code data, mapping, mode, revision and epoch.  The
      engine's own report of its arguments is known to match for every engine that was
      published as a replacement. */
  lemma ReadyAgrees(run: Execution, at: nat)
    requires run.Valid() && at < |run.states|
    ensures var s := run.states[at];
            s.rt.lifecycle == READY && s.rt.repo.Some? ==>
              && s.rt.active.Some? && s.rt.active.value in s.engines
              && var repo := s.rt.repo.value; var args := Args(repo.code, repo.mapping, s.rt.mode);
                 && s.engines[s.rt.active.value].args == args
                 && s.rt.admission == Admission(repo.session, repo.revision)
                 && s.rt.search == Some(SearchKey(repo.session, repo.revision, s.rt.epoch))
                 && (s.rt.active != s.initial ==> s.engines[s.rt.active.value].loaded == Some(args))
  {
    ExecutionIsGood(run, at);
  }

  /** A lease held at any time was admitted coherently with all others: an exclusive
      lease is alone but for temporary readers that have finished capturing. */
  lemma ExclusiveHolderIsAlone(run: Execution, at: nat, t: nat, u: nat)
    requires run.Valid() && at < |run.states|
    ensures var s := run.states[at];
            t in s.ops && u in s.ops && t != u && Holds(s.ops[t]) == Some(ProjectExclusive) ==>
              || Holds(s.ops[u]) == None || s.ops[u].Isolated? || s.ops[u] == Releasing(TemporaryAnalysis)
  {
    var s := run.states[at];
    ExecutionIsGood(run, at);
    if t in s.ops && u in s.ops && t != u && Holds(s.ops[t]) == Some(ProjectExclusive) {
      Alone(s, t);
    }
  }

  // ---- Reads -------------------------------------------------------------------------

  /** What `readPublished` returns is one state of the project, not a mixture: the session,
      revision, code data and mapping it read are those published at the moment it returns,
      and those the active engine was made from. */
  lemma NoTornRead(run: Execution, at: nat, t: nat)
    requires run.Valid() && at < |run.states|
    ensures var s := run.states[at];
            PeekReturns(s, t) ==>
              var read := s.ops[t].peeked.value;
              && SameContent(read, s.rt.repo.value) && read.revision == s.rt.admission.revision
              && s.rt.search.Some? && s.rt.search.value.revision == read.revision
              && s.rt.active.Some? && s.rt.active.value in s.engines
              && s.engines[s.rt.active.value].args == RepoArgs(read, s.rt.mode)
  {
    var s := run.states[at];
    ExecutionIsGood(run, at);
    if PeekReturns(s, t) { assert OperationOk(s.rt, s.engines, t, s.ops[t]); }
  }

  /** What a temporary read captured one value at a time is one published state. */
  lemma TemporaryCaptureIsCoherent(run: Execution, at: nat, t: nat)
    requires run.Valid() && at < |run.states|
    ensures var s := run.states[at];
            t in s.ops && s.ops[t].Capturing? ==>
              && s.rt.repo.Some?
              && (s.ops[t].seenRevision.Some? ==> s.ops[t].seenRevision.value == s.rt.repo.value.revision)
              && (s.ops[t].seenArgs.Some? ==> s.ops[t].seenArgs.value == RepoArgs(s.rt.repo.value, s.rt.mode))
              && (s.ops[t].seenEpoch.Some? ==> s.ops[t].seenEpoch.value == s.rt.epoch)
  {
    var s := run.states[at];
    ExecutionIsGood(run, at);
    if t in s.ops { assert OperationOk(s.rt, s.engines, t, s.ops[t]); }
  }

  /** No (session, revision, epoch) ever names two engines: symbol reads at one epoch,
      however far apart in the run, saw the same engine at the same revision. */
  lemma EpochNamesOneEngine(run: Execution, at: nat, i: nat, j: nat)
    requires run.Valid() && at < |run.states|
    ensures var s := run.states[at];
            i < |s.captures| && j < |s.captures| && s.captures[i].epoch == s.captures[j].epoch ==>
              s.captures[i] == s.captures[j]
  {
    hide PublicationsOk;
    ExecutionLog(run, at);
  }

  // ---- Publication --------------------------------------------------------------------

  /** The repository is as it was, and so is the engine, unless it has been detached. */
  predicate SameProject(a: Runtime, b: Runtime) {
    b.repo == a.repo && (b.active == a.active || b.active == None) && a.epoch <= b.epoch
  }

  /** The repository was saved: what is committed is now what is saved, and it has a path. */
  predicate RepositorySaved(a: Runtime, b: Runtime) {
    && a.repo.Some? && b.repo.Some? && b.active == a.active && b.epoch == a.epoch
    && var was, now := a.repo.value, b.repo.value;
       && now.session == was.session && now.revision == was.revision
       && now.code == was.code && now.mapping == was.mapping
       && now.savedCode == was.code && now.savedMapping == was.mapping && now.hasPath
  }

  /** What a publication makes of the repository.  An edit and a new mapping path are not
      saved; a reload takes what is on disk.  Only a mapping path that was set already
      leaves the revision as it was. */
  predicate Committed(was: Repo, now: Repo, staged: Staged) {
    && now.session == was.session && now.hasPath == was.hasPath
    && now.code == staged.args.code && now.mapping == staged.args.mapping
    && (staged.kind == CommitCode ==> now.mapping == was.mapping)
    && (staged.kind == CommitMapping ==> now.code == was.code)
    && now.revision == was.revision + (if staged.kind == CommitMapping && now.mapping == was.mapping then 0 else 1)
    && (staged.kind == CommitReload ==> now.savedCode == now.code && now.savedMapping == now.mapping)
    && (staged.kind != CommitReload ==> now.savedCode == was.savedCode && now.savedMapping == was.savedMapping)
  }

  /** Operation `t` replaced the engine and committed the repository together. */
  predicate PublishedBy(s: System, s': System, t: nat) {
    && t in s.ops && s.ops[t].Replacing? && s.ops[t].consistent && s.ops[t].candidate.Some?
    && s.rt.repo.Some? && s.rt.active == Some(s.ops[t].prior)
    && s.rt.lifecycle == (if s.ops[t].staged.kind == CommitCode then READY else RELOADING)
    && s'.rt.repo.Some? && Committed(s.rt.repo.value, s'.rt.repo.value, s.ops[t].staged)
    && s'.rt.repo.value.revision == s.ops[t].staged.revision
    && s'.rt.mode == s.rt.mode == s.ops[t].staged.args.mode
    && s.rt.repo.value.revision == s.ops[t].staged.before
    && s'.rt.active == s.ops[t].candidate
    && s'.rt.epoch == s.rt.epoch + 1 && s'.rt.lifecycle == READY
    && s'.publications ==
       s.publications + [Publication(t, s.ops[t].staged.before, s.ops[t].staged.revision, s.ops[t].candidate.value)]
  }

  predicate FirstPublished(s: System, s': System) {
    && s.rt.lifecycle == LOADING && s.init.engine.Some?
    && s'.rt.active == s.init.engine && s'.rt.repo == s.init.repo && s'.publications == s.publications
  }

  predicate Quietly(s: System, s': System) {
    SameProject(s.rt, s'.rt) && s'.publications == s.publications
  }

  /** The two steps that write the project file. */
  predicate WritesFile(step: Step) {
    step.SWriteSave? || (step.SShutdown? && step.shutdown == WriteNative)
  }

  predicate FileWritten(s: System, step: Step, s': System) {
    WritesFile(step) && RepositorySaved(s.rt, s'.rt) && s'.publications == s.publications
  }

  /** What the blocks that take the runtime down, or wind it up, leave alone. */
  predicate Frame(a: Runtime, b: Runtime) {
    && b.repo == a.repo && b.epoch == a.epoch && b.admission == a.admission && b.leases == a.leases
    && b.liveJobs == a.liveJobs && b.reserved == a.reserved && (b.active == a.active || b.active == None)
  }

  lemma DetachIsQuiet(rt: Runtime)
    ensures Frame(rt, Detach(StopAll(rt)))
  {
  }

  lemma FatalIsQuiet(rt: Runtime)
    ensures Frame(rt, FatalBlock(rt))
  {
    DetachIsQuiet(rt);
    DetachIsQuiet(rt.(lifecycle := FAILED, search := None));
    hide Detach, StopAll;
  }

  lemma CloseIsQuiet(rt: Runtime)
    ensures Frame(rt, CloseBlock(rt))
  {
    DetachIsQuiet(rt);
    DetachIsQuiet(rt.(lifecycle := SHUTTING_DOWN, search := None));
    hide Detach, StopAll;
  }

  lemma WindUpIsQuiet(rt: Runtime)
    ensures Frame(rt, FinishIfQuiescent(rt)) && Frame(rt, FinishTask(rt))
    ensures rt.cleanup > 0 ==> Frame(rt, CleanupDone(rt))
  {
  }

  lemma LoadIsQuiet(rt: Runtime, accepted: bool)
    ensures Frame(rt, StartInitialization(rt, accepted)) && Frame(rt, FailInitial(rt))
  {
  }

  lemma RestoreIsQuiet(rt: Runtime)
    ensures SameProject(rt, Restore(rt))
  {
  }

  lemma PublishFirstShape(s: System)
    requires s.rt.lifecycle == LOADING ==> s.rt.epoch == 0
    ensures Quietly(s, PublishLoaded(s)) || FirstPublished(s, PublishLoaded(s))
  {
  }

  lemma LoadWorkShape(s: System, step: InitializeStep)
    requires step.OpenAndCreate? || step.LoadFirst? || step.DiscardFirst?
    ensures var s' := DoInitialize(s, step);
            s'.rt == s.rt && s'.publications == s.publications && s'.reserver == s.reserver
  {
  }

  lemma TaskShape(s: System, step: InitializeStep)
    requires step.StartTask? || step.RunTask? || step.FailFirst? || step.FinishFirst?
    ensures var s' := DoInitialize(s, step);
            Frame(s.rt, s'.rt) && s'.publications == s.publications && s'.reserver == s.reserver
  {
    WindUpIsQuiet(s.rt);
    hide CreateInitial, LoadInitial, DiscardInitial, PublishLoaded;
    hide FinishIfQuiescent, FinishTask, StartInitialization, FailInitial;
    LoadIsQuiet(s.rt, if step.StartTask? then step.accepted else true);
    assert Frame(s.rt, s.rt.(task := RUNNING));
    hide Frame;
  }

  lemma InitializeShape(s: System, step: InitializeStep)
    requires s.rt.lifecycle == LOADING ==> s.rt.epoch == 0
    ensures Quietly(s, DoInitialize(s, step)) || (step == PublishFirst && FirstPublished(s, DoInitialize(s, step)))
  {
    if step == PublishFirst {
      PublishFirstShape(s);
    } else if step.OpenAndCreate? || step.LoadFirst? || step.DiscardFirst? {
      LoadWorkShape(s, step);
      hide DoInitialize;
    } else {
      TaskShape(s, step);
    }
  }

  lemma FatalShape(s: System)
    ensures Quietly(s, ReportFatal(s))
  {
    FatalIsQuiet(s.rt);
    hide FatalBlock;
    assert ReportFatal(s).rt == FatalBlock(s.rt);
  }

  lemma UnwindShape(s: System, mid: System)
    requires mid.rt == s.rt && mid.publications == s.publications
    ensures Quietly(s, mid) && Quietly(s, ReportFatal(mid))
  {
    FatalShape(mid);
    hide ReportFatal;
  }

  lemma FinishShape(s: System, t: nat)
    ensures Quietly(s, FinishUnwinding(s, t))
  {
    UnwindShape(s, Put(s, t, Releasing(ProjectExclusive)));
    RestoreIsQuiet(s.rt);
    hide ReportFatal, Restore;
  }

  lemma PublishShape(s: System, t: nat)
    requires t in s.ops && OperationOk(s.rt, s.engines, t, s.ops[t])
    ensures Quietly(s, PublishCandidate(s, t)) || PublishedBy(s, PublishCandidate(s, t), t)
  {
    if !Publishing(s, t) { assert PublishCandidate(s, t).rt == s.rt; }
  }

  lemma {:induction false} ReplaceShape(s: System, t: nat, step: ReplaceStep)
    requires t in s.ops ==> OperationOk(s.rt, s.engines, t, s.ops[t])
    ensures Quietly(s, DoReplace(s, t, step)) || (step == PublishIt && PublishedBy(s, DoReplace(s, t, step), t))
  {
    if t in s.ops {
      var op := s.ops[t];
      match step
      case PublishIt => PublishShape(s, t);
      case FailIt(fatal) =>
        if op.Replacing? { UnwindShape(s, Put(s, t, Unwinding(op.staged.kind != CommitCode, op.candidate, fatal))); }
      case CloseIt(fatal) =>
        if op.Unwinding? && op.candidate.Some? && op.candidate.value in s.closes {
          UnwindShape(s, Put(CloseEngine(s, op.candidate.value), t, Unwinding(op.rebuild, None, op.fatal || fatal)));
        }
      case RetireOld(fatal) =>
        if op.Retiring? && op.prior in s.closes {
          UnwindShape(s, Put(CloseEngine(s, op.prior), t, Unwinding(op.rebuild, None, true)));
        }
      case FinishIt => FinishShape(s, t);
      case _ =>
    }
  }

  lemma ReadShape(s: System, t: nat, step: ReadStep)
    ensures Quietly(s, DoRead(s, t, step))
  {
  }

  lemma CloseShape(s: System, t: nat, step: CloseStepKind)
    ensures Quietly(s, DoClose(s, t, step))
  {
    CloseIsQuiet(s.rt);
    WindUpIsQuiet(s.rt);
    hide CloseBlock, FatalBlock, FinishIfQuiescent, CleanupDone;
  }

  lemma ShutdownShape(s: System, t: nat, step: ShutdownStep)
    ensures || Quietly(s, DoShutdown(s, t, step))
            || FileWritten(s, SShutdown(t, step), DoShutdown(s, t, step))
  {
  }

  lemma EntryShape(s: System, entry: Entry)
    ensures Quietly(s, DoEnter(s, entry))
  {
  }

  /** The steps that are not part of a family. */
  predicate Single(step: Step) {
    step.SSubmitJob? || step.SFinishJob? || step.SBeginRebuild? || step.SBeginPeek? || step.SMove?
    || step.SWriteSave? || step.SAnnounceSave? || step.SBeginClose? || step.SBeginShutdown?
  }

  lemma SingleShape(s: System, step: Step)
    requires Single(step)
    ensures Quietly(s, Do(s, step)) || FileWritten(s, step, Do(s, step))
  {
    hide DoInitialize, DoReplace, DoRead, DoClose, DoShutdown, ReportFatal, DoEnter, Moved;
  }

  lemma JobShape(s: System, key: string, expected: Admission)
    ensures Quietly(s, EnterJob(s, key, expected))
  {
    EntryShape(s, EnterClassRead(key));
    hide DoEnter;
  }

  lemma StepShape(s: System, step: Step)
    requires s.rt.lifecycle == LOADING ==> s.rt.epoch == 0
    requires step.SReplace? && step.t in s.ops ==> OperationOk(s.rt, s.engines, step.t, s.ops[step.t])
    ensures var s' := Do(s, step);
            || Quietly(s, s') || FileWritten(s, step, s')
            || (step == SInitialize(PublishFirst) && FirstPublished(s, s'))
            || (step.SReplace? && step.replace == PublishIt && PublishedBy(s, s', step.t))
  {
    hide OperationOk, DoInitialize, DoReplace, DoRead, DoClose, DoShutdown, ReportFatal, DoEnter, PublishedBy, Quietly;
    hide FirstPublished, FileWritten, BeginRebuild, BeginPeek, DoMove, WriteSave, AnnounceSave;
    hide BeginShutting, SubmitJob;
    if Single(step) {
      SingleShape(s, step);
    } else {
      match step
      case SInitialize(first) => InitializeShape(s, first);
      case SReplace(t, replace) => ReplaceShape(s, t, replace);
      case SRead(t, read) => ReadShape(s, t, read);
      case SClose(t, close) => CloseShape(s, t, close);
      case SShutdown(t, shutdown) => ShutdownShape(s, t, shutdown);
      case SEnter(entry) => EntryShape(s, entry);
      case SEnterJob(key, expected) => JobShape(s, key, expected);
      case SReportFatal => FatalShape(s);
    }
  }

  /** Publication is all or nothing.  From any reachable state any step either leaves the
      repository and the engine alone (an engine may be detached, the epoch may grow), or
      saves the repository, or is the first publication, or publishes exactly what was
      staged: the checked candidate, the staged contents and the staged revision together,
      with the saved values as the kind of publication calls for. */
  lemma PublicationIsAllOrNothing(run: Execution, at: nat)
    requires run.Valid() && at < |run.steps|
    ensures var s, step, s' := run.states[at], run.steps[at], run.states[at + 1];
            || Quietly(s, s') || FileWritten(s, step, s')
            || (step == SInitialize(PublishFirst) && FirstPublished(s, s'))
            || (step.SReplace? && step.replace == PublishIt && PublishedBy(s, s', step.t)
                && s.ops[step.t].candidate.value in s.engines
                && s.engines[s.ops[step.t].candidate.value].loaded == Some(s.ops[step.t].staged.args))
  {
    var s, step := run.states[at], run.steps[at];
    assert run.Follows(at);
    ExecutionIsGood(run, at);
    if step.SReplace? && step.t in s.ops { Facts(s, step.t); }
    assert s.rt.lifecycle == LOADING ==> s.rt.epoch == 0;
    StepShape(s, step);
  }

  /** Each operation publishes at most once, and the published revisions form one chain
      that ends at the repository's revision. */
  lemma PublicationsFormAChain(run: Execution, at: nat)
    requires run.Valid() && at < |run.states|
    ensures var p := run.states[at].publications;
            && (forall i, j | 0 <= i < j < |p| :: p[i].op != p[j].op)
            && (forall i | 0 < i < |p| :: p[i].before == p[i - 1].after)
            && (|p| > 0 ==> run.states[at].rt.repo.Some?
                            && run.states[at].rt.repo.value.revision == p[|p| - 1].after)
  {
    ExecutionLog(run, at);
  }

  // ---- What an operation was asked for ----------------------------------------------------

  lemma JobCapture(s: System, t: nat, expected: SearchKey)
    requires t in s.ops && s.ops[t] == Reading(None, 0) && LifecycleOk(s.rt) && Agreement(s)
    ensures var s' := DoMove(s, t, CaptureJobRead(expected));
            && t in s'.ops
            && if s.rt.lifecycle == READY && !s.rt.reserved && s.rt.repo.Some?
                  && s.rt.repo.value.session == expected.session && s.rt.repo.value.revision == expected.revision
                  && s.rt.epoch == expected.epoch
               then s.rt.active.Some? && s'.ops[t] == Reading(s.rt.active, expected.epoch)
               else s'.ops[t] == Releasing(ClassRead)
  {
    hide PrimaryInUse;
  }

  /** A job reads the engine of exactly the session, revision and epoch it was submitted
      for, and otherwise gives its lease back without reading. */
  lemma JobReadsWhatItWasSubmittedFor(run: Execution, at: nat, t: nat, expected: SearchKey)
    requires run.Valid() && at < |run.steps| && run.steps[at] == SMove(t, CaptureJobRead(expected))
    ensures var s, s' := run.states[at], run.states[at + 1];
            t in s.ops && s.ops[t] == Reading(None, 0) ==>
              && t in s'.ops
              && if s.rt.lifecycle == READY && !s.rt.reserved && s.rt.repo.Some?
                    && s.rt.repo.value.session == expected.session && s.rt.repo.value.revision == expected.revision
                    && s.rt.epoch == expected.epoch
                 then s.rt.active.Some? && s'.ops[t] == Reading(s.rt.active, expected.epoch)
                 else s'.ops[t] == Releasing(ClassRead)
  {
    hide DoMove, LifecycleOk, Agreement;
    var s := run.states[at];
    assert run.Follows(at);
    ExecutionIsGood(run, at);
    if t in s.ops && s.ops[t] == Reading(None, 0) { JobCapture(s, t, expected); }
  }

  /** It is admitted only at the revision it was submitted for. */
  lemma JobEntersAtItsRevision(run: Execution, at: nat, key: string, expected: Admission)
    requires run.Valid() && at < |run.steps| && run.steps[at] == SEnterJob(key, expected)
    ensures var s := run.states[at];
            run.states[at + 1] != s ==>
              && s.rt.lifecycle == READY && !s.rt.reserved && !s.rt.stopped && s.rt.repo.Some?
              && expected == Admission(s.rt.repo.value.session, s.rt.repo.value.revision)
  {
    assert run.Follows(at);
    ExecutionIsGood(run, at);
    assert Agreement(run.states[at]);
    hide Inv, Compatible;
  }

  lemma EditStages(s: System, t: nat, code: int)
    requires t in s.ops && OperationOk(s.rt, s.engines, t, s.ops[t])
    requires s.ops[t].Editing? && !s.ops[t].committed && s.ops[t].engine.Some?
    ensures var op, s' := s.ops[t], DoMove(s, t, CommitEdit(code));
            && s'.rt == s.rt && s.rt.repo.Some? && s.rt.active == op.engine && t in s'.ops
            && var repo := s.rt.repo.value;
               s'.ops[t] == if code == repo.code then Editing(op.engine, op.before, true)
                            else Replacing(Staged(CommitCode, Args(code, repo.mapping, s.rt.mode), repo.revision,
                                                  repo.revision + 1), op.engine.value, None, false)
  {
  }

  /** A committing edit stages its code data on what is published, at the next revision;
      data that changes nothing stages nothing. */
  lemma EditStagesExactly(run: Execution, at: nat, t: nat, code: int)
    requires run.Valid() && at < |run.steps| && run.steps[at] == SMove(t, CommitEdit(code))
    ensures var s, s' := run.states[at], run.states[at + 1];
            t in s.ops && s.ops[t].Editing? && !s.ops[t].committed && s.ops[t].engine.Some? ==>
              && s'.rt == s.rt && s.rt.repo.Some? && s.rt.active == s.ops[t].engine && t in s'.ops
              && var op, repo := s.ops[t], s.rt.repo.value;
                 s'.ops[t] == if code == repo.code then Editing(op.engine, op.before, true)
                              else Replacing(Staged(CommitCode, Args(code, repo.mapping, s.rt.mode), repo.revision,
                                                    repo.revision + 1), op.engine.value, None, false)
  {
    hide DoMove, Inv, OperationOk, LifecycleOk, LeaseOf;
    var s := run.states[at];
    assert run.Follows(at);
    ExecutionIsGood(run, at);
    if t in s.ops && s.ops[t].Editing? && !s.ops[t].committed && s.ops[t].engine.Some? {
      Facts(s, t);
      EditStages(s, t, code);
    }
  }
}
