/** The project runtime as a concurrent system.

    `RuntimeBlocks` says what each locked block does to the shared state.  Here every
    operation (save, edit, rebuild, reads, temporary analysis, close, shutdown, ...)
    is a small state machine whose steps are those blocks and the unlocked work
    between them.  A run is any sequence of steps in any order: a step that is not
    enabled leaves the state alone, so every sequence of steps is a run and every
    interleaving of the operations is some sequence.

    The fields below `init` are not program state.  They record who owns each engine,
    how often it was closed, what was published and what was read, so that the
    theorems can speak about whole runs. */
module RuntimeSystem {
  import opened Common
  import opened Coordinator
  import opened RuntimeBlocks

  datatype Phase =
    | Claimed                     // reservation taken
    | Inspected                   // save policy: checked, native save to come
    | Written(saved: Repo)        // saved, epoch not announced yet
    | Announced                   // save announced, lease still held
    | Cleared                     // nothing left but the final block
    | Rejected(registry: bool)    // must give the reservation back

  datatype Operation =
    | Saving(written: Option<Repo>)
    | Editing(engine: Option<nat>, before: nat, committed: bool)
    | Staging
    | Replacing(staged: Staged, prior: nat, candidate: Option<nat>, consistent: bool)
    | Retiring(rebuild: bool, prior: nat)
    | Unwinding(rebuild: bool, candidate: Option<nat>, fatal: bool)
    | Reading(engine: Option<nat>, epoch: nat)
    | Verifying(engine: Option<nat>)
    | Capturing(seenRevision: Option<nat>, seenArgs: Option<Args>, seenEpoch: Option<nat>)
    | Isolated(own: Option<nat>)
    | Releasing(category: Category)
    | Callback
    | Closing
    | Finishing
    | Cleaning(detached: nat)
    | Cleaned
    | Peeking(epoch: nat, peeked: Option<Repo>)
    | Shutting(policy: Policy, phase: Phase, held: bool)

  /** The load thread's local engine and repository. */
  datatype Initializer = Initializer(engine: Option<nat>, repo: Option<Repo>, created: bool)

  /** What an engine was created from, what its arguments were after loading, and by whom. */
  datatype Engine = Engine(args: Args, loaded: Option<Args>, maker: Option<nat>)

  datatype Owner = ByRuntime | ByInitializer | ByOperation(id: nat) | Closed

  /** One leased symbol read: what `PrimarySymbolRead` handed out. */
  datatype Capture = Capture(session: string, revision: nat, epoch: nat, engine: nat)

  datatype Publication = Publication(op: nat, before: nat, after: nat, engine: nat)

  datatype System = System(
    rt: Runtime,
    ops: map<nat, Operation>,
    next: nat,
    init: Initializer,
    engines: map<nat, Engine>,
    closes: map<nat, nat>,
    owner: map<nat, Owner>,
    initial: Option<nat>,
    published: set<nat>,
    cleaners: set<nat>,
    reserver: Option<nat>,
    captures: seq<Capture>,
    publications: seq<Publication>)

  function Start(mode: int): System {
    System(Runtime(LOADING, None, None, 0, Admission("initializing", 0), None, false, NoTask, 0, false,
                   map[], false, false, false, 0, mode),
           map[], 0, Initializer(None, None, false), map[], map[], map[], None, {}, {}, None, [], [])
  }

  // ---- Vocabulary ------------------------------------------------------------

  /** The category of lease an operation holds. */
  function Holds(op: Operation): Option<Category> {
    match op
    case Saving(_) => Some(ProjectExclusive)
    case Editing(_, _, _) => Some(ProjectExclusive)
    case Staging => Some(ProjectExclusive)
    case Replacing(_, _, _, _) => Some(ProjectExclusive)
    case Retiring(_, _) => Some(ProjectExclusive)
    case Unwinding(_, _, _) => Some(ProjectExclusive)
    case Reading(_, _) => Some(ClassRead)
    case Verifying(_) => Some(QueryRead)
    case Capturing(_, _, _) => Some(TemporaryAnalysis)
    case Isolated(_) => Some(TemporaryAnalysis)
    case Releasing(c) => Some(c)
    case Shutting(_, _, held) => if held then Some(ProjectExclusive) else None
    case _ => None
  }

  /** The engine an operation must close itself. */
  function Owns(op: Operation): Option<nat> {
    match op
    case Replacing(_, _, candidate, _) => candidate
    case Retiring(_, prior) => Some(prior)
    case Unwinding(_, candidate, _) => candidate
    case Isolated(own) => own
    case Cleaning(engine) => Some(engine)
    case _ => None
  }

  /** The primary engine an operation uses without owning it. */
  function Borrows(op: Operation): Option<nat> {
    match op
    case Editing(engine, _, committed) => if committed then None else engine
    case Replacing(_, prior, _, _) => Some(prior)
    case Reading(engine, _) => engine
    case Verifying(engine) => engine
    case _ => None
  }

  predicate IsCleanup(op: Operation) { op.Cleaning? || op.Cleaned? }

  function Put(s: System, t: nat, op: Operation): System {
    s.(ops := s.ops[t := op])
  }

  function End(s: System, t: nat): System {
    s.(ops := s.ops - {t})
  }

  function Spawn(s: System, op: Operation): System {
    s.(ops := s.ops[s.next := op], next := s.next + 1)
  }

  /** `engineFactory.create(args)`, on behalf of `owner`. */
  function Create(s: System, args: Args, owner: Owner, maker: Option<nat>): System {
    s.(engines := s.engines[s.next := Engine(args, None, maker)],
       closes := s.closes[s.next := 0],
       owner := s.owner[s.next := owner],
       next := s.next + 1)
  }

  /** `closeOwned(engine)`. */
  function CloseEngine(s: System, e: nat): System
    requires e in s.closes
  {
    s.(closes := s.closes[e := s.closes[e] + 1], owner := s.owner[e := Closed])
  }

  /** A detached engine is handed to a cleanup operation. */
  function HandOver(s: System, e: nat, t: nat): System {
    s.(owner := s.owner[e := ByOperation(t)], ops := s.ops[t := Cleaning(e)], cleaners := s.cleaners + {t})
  }

  // ---- Initialization --------------------------------------------------------

  function InitialArgs(repo: Option<Repo>, mode: int): Args {
    if repo.Some? then RepoArgs(repo.value, mode) else Args(0, 0, mode)
  }

  function CreateInitial(s: System, repo: Option<Repo>): System {
    if s.rt.task == RUNNING && !s.init.created then
      Create(s, InitialArgs(repo, s.rt.mode), ByInitializer, None).(
        init := Initializer(Some(s.next), repo, true))
    else s
  }

  function LoadInitial(s: System, loaded: Args): System {
    if s.rt.task == RUNNING && s.init.engine.Some? && s.init.engine.value in s.engines then
      var e := s.init.engine.value;
      s.(engines := s.engines[e := s.engines[e].(loaded := Some(loaded))])
    else s
  }

  /** The load thread's engine has been loaded. */
  predicate FirstLoaded(s: System) {
    && s.init.engine.Some? && s.init.engine.value in s.engines
    && s.engines[s.init.engine.value].loaded.Some?
  }

  function PublishLoaded(s: System): System {
    if s.rt.task == RUNNING && FirstLoaded(s) then
      var e := s.init.engine.value;
      match PublishInitial(s.rt, e, s.init.repo)
      case None => s
      case Some(rt) =>
        s.(rt := rt, owner := s.owner[e := ByRuntime], init := s.init.(engine := None),
           initial := Some(e), published := s.published + {e})
    else s
  }

  function FailLoading(s: System): System {
    if s.rt.task == RUNNING then s.(rt := FailInitial(s.rt)) else s
  }

  function DiscardInitial(s: System): System {
    if s.rt.task == RUNNING && s.init.engine.Some? && s.init.engine.value in s.closes then
      CloseEngine(s, s.init.engine.value).(init := s.init.(engine := None))
    else s
  }

  function FinishInitial(s: System): System {
    if s.rt.task == RUNNING && s.init.engine.None? then s.(rt := FinishTask(s.rt)) else s
  }

  // ---- Admission ---------------------------------------------------------------

  function Enter(s: System, request: Request, op: Operation): System {
    match Admit(s.rt, s.next, request)
    case None => s
    case Some(rt) => Spawn(s.(rt := rt), op)
  }

  /** The operations that start with an admission. */
  datatype Entry =
    | EnterSave                    // saveProject
    | EnterEdit                    // withExclusiveEdit
    | EnterSymbolRead(key: string) // withPrimarySymbolRead: admission and capture in one block
    | EnterClassRead(key: string)  // withPrimaryClassRead, or a CLASS_READ job: captured later
    | EnterVerify                  // withHierarchyVerifier
    | EnterTemporary(key: string)  // withTemporarySourceRead

  function EntryRequest(entry: Entry): Request {
    match entry
    case EnterSave => Request(ProjectExclusive, "native-save")
    case EnterEdit => Request(ProjectExclusive, "native-edit-batch")
    case EnterSymbolRead(key) => Request(ClassRead, key)
    case EnterClassRead(key) => Request(ClassRead, key)
    case EnterVerify => Request(QueryRead, "hierarchy-verification")
    case EnterTemporary(key) => Request(TemporaryAnalysis, key)
  }

  function EntryOperation(rt: Runtime, entry: Entry): Operation {
    match entry
    case EnterSave => Saving(None)
    case EnterEdit => Editing(None, 0, false)
    case EnterSymbolRead(_) => Reading(rt.active, rt.epoch)
    case EnterClassRead(_) => Reading(None, 0)
    case EnterVerify => Verifying(None)
    case EnterTemporary(_) => Capturing(None, None, None)
  }

  function DoEnter(s: System, entry: Entry): System {
    Enter(s, EntryRequest(entry), EntryOperation(s.rt, entry))
  }

  /** A job is admitted only at the revision it was submitted for. */
  function EnterJob(s: System, key: string, expected: Admission): System {
    if s.rt.admission == expected then DoEnter(s, EnterClassRead(key)) else s
  }

  // ---- Work that only the operation itself can see -------------------------------

  datatype Move =
    | AbandonSave
    | CaptureEdit | CommitEdit(code: int) | EndEdit
    | StageReload(code: int, mapping: int) | StageMapping(mapping: int) | FailStaging(fatal: bool)
    | CheckCandidate
    | CaptureClassRead | CaptureJobRead(expected: SearchKey) | EndRead
    | CaptureVerify | EndVerify
    | CaptureRevision | CaptureArgs | CaptureEpoch | EndTemporary
    | ReadPeek | RetryPeek

  /** What an operation becomes; None when it cannot make this move now. */
  function Moved(rt: Runtime, engines: map<nat, Engine>, op: Operation, move: Move): Option<Operation> {
    match move
    case AbandonSave => if op == Saving(None) then Some(Releasing(ProjectExclusive)) else None
    case CaptureEdit =>
      if op == Editing(None, 0, false) && rt.repo.Some?
      then Some(Editing(rt.active, rt.repo.value.revision, false)) else None
    // `EditContext.commit`: refused once the context has committed; ineffective data
    // leaves everything as it was.
    case CommitEdit(code) =>
      if op.Editing? && !op.committed && op.engine.Some? && rt.repo.Some? then
        var repo := rt.repo.value;
        if code == repo.code then Some(Editing(op.engine, op.before, true))
        else Some(Replacing(Staged(CommitCode, Args(code, repo.mapping, rt.mode), op.before, op.before + 1),
                            op.engine.value, None, false))
      else None
    case EndEdit => if op.Editing? then Some(Releasing(ProjectExclusive)) else None
    case StageReload(code, mapping) =>
      if op.Staging? && rt.repo.Some? && rt.active.Some? then
        var revision := rt.repo.value.revision;
        Some(Replacing(Staged(CommitReload, Args(code, mapping, rt.mode), revision, revision + 1),
                       rt.active.value, None, false))
      else None
    case StageMapping(mapping) =>
      if op.Staging? && rt.repo.Some? && rt.active.Some? then
        var repo := rt.repo.value;
        var bump := if repo.mapping == mapping then 0 else 1;
        Some(Replacing(Staged(CommitMapping, Args(repo.code, mapping, rt.mode), repo.revision, repo.revision + bump),
                       rt.active.value, None, false))
      else None
    case FailStaging(fatal) => if op.Staging? then Some(Unwinding(true, None, fatal)) else None
    // The comparison of the loaded arguments with the staged ones.
    case CheckCandidate =>
      if op.Replacing? && op.candidate.Some? && op.candidate.value in engines
         && engines[op.candidate.value].loaded == Some(op.staged.args)
      then Some(Replacing(op.staged, op.prior, op.candidate, true)) else None
    case CaptureClassRead => if op == Reading(None, 0) then Some(Reading(rt.active, rt.epoch)) else None
    case CaptureJobRead(expected) =>
      if op != Reading(None, 0) then None
      else if RequireReady(rt) && rt.search == Some(expected) then Some(Reading(rt.active, rt.epoch))
      else Some(Releasing(ClassRead))
    case EndRead => if op.Reading? then Some(Releasing(ClassRead)) else None
    case CaptureVerify =>
      if op != Verifying(None) then None
      else if RequireReady(rt) then Some(Verifying(rt.active)) else Some(Releasing(QueryRead))
    case EndVerify => if op.Verifying? then Some(Releasing(QueryRead)) else None
    case CaptureRevision =>
      if op.Capturing? && rt.repo.Some?
      then Some(Capturing(Some(rt.repo.value.revision), op.seenArgs, op.seenEpoch)) else None
    case CaptureArgs =>
      if op.Capturing? && rt.repo.Some?
      then Some(Capturing(op.seenRevision, Some(RepoArgs(rt.repo.value, rt.mode)), op.seenEpoch)) else None
    case CaptureEpoch =>
      if op.Capturing? then Some(Capturing(op.seenRevision, op.seenArgs, Some(rt.epoch))) else None
    case EndTemporary =>
      if op.Capturing? || op == Isolated(None) then Some(Releasing(TemporaryAnalysis)) else None
    // `readPublished`: read at any time; start over when the epoch has moved.
    case ReadPeek =>
      if op.Peeking? && rt.repo.Some? then Some(Peeking(op.epoch, rt.repo)) else None
    case RetryPeek =>
      if op.Peeking? && RequireReady(rt) && op.epoch != rt.epoch then Some(Peeking(rt.epoch, None)) else None
  }

  function DoMove(s: System, t: nat, move: Move): System {
    if t !in s.ops then s
    else
      match Moved(s.rt, s.engines, s.ops[t], move)
      case None => s
      case Some(op) => Put(s, t, op)
  }

  // ---- Save ------------------------------------------------------------------


  function WriteSave(s: System, t: nat): System {
    if t in s.ops && s.ops[t] == Saving(None) && s.rt.repo.Some? then
      var saved := Saved(s.rt.repo.value);
      Put(s.(rt := s.rt.(repo := Some(saved))), t, Saving(Some(saved)))
    else s
  }

  function AnnounceSave(s: System, t: nat): System {
    if t in s.ops && s.ops[t].Saving? && s.ops[t].written.Some? then
      Put(s.(rt := SaveBlock(s.rt, s.ops[t].written.value)), t, Releasing(ProjectExclusive))
    else s
  }

  // ---- Edit and rebuild ------------------------------------------------------

  function BeginRebuild(s: System): System {
    match AdmitReloading(s.rt, s.next)
    case None => s
    case Some(rt) => Spawn(s.(rt := rt), Staging)
  }

  /** `reportFatalRebuild`. */
  function ReportFatal(s: System): System {
    var t := s.(rt := FatalBlock(s.rt));
    match Detachable(s.rt)
    case None => t
    case Some(e) => HandOver(t.(next := s.next + 1), e, s.next)
  }

  function ReportIf(s: System, fatal: bool): System {
    if fatal then ReportFatal(s) else s
  }

  function CreateCandidate(s: System, t: nat): System {
    if t in s.ops && s.ops[t].Replacing? && s.ops[t].candidate.None? then
      var op := s.ops[t];
      Put(Create(s, op.staged.args, ByOperation(t), Some(t)), t,
          Replacing(op.staged, op.prior, Some(s.next), false))
    else s
  }

  function LoadCandidate(s: System, t: nat, loaded: Args): System {
    if t in s.ops && s.ops[t].Replacing? && s.ops[t].candidate.Some? && !s.ops[t].consistent
       && s.ops[t].candidate.value in s.engines then
      var e := s.ops[t].candidate.value;
      s.(engines := s.engines[e := s.engines[e].(loaded := Some(loaded))])
    else s
  }

  function PublishCandidate(s: System, t: nat): System {
    if t in s.ops && s.ops[t].Replacing? && s.ops[t].consistent && s.ops[t].candidate.Some? then
      var op := s.ops[t];
      var e := op.candidate.value;
      match Publish(s.rt, op.staged, op.prior, e)
      case None => Put(s, t, Unwinding(op.staged.kind != CommitCode, op.candidate, false))
      case Some(rt) =>
        Put(s.(rt := rt,
               owner := s.owner[op.prior := ByOperation(t)][e := ByRuntime],
               published := s.published + {e},
               publications := s.publications + [Publication(t, op.staged.before, op.staged.revision, e)]),
            t, Retiring(op.staged.kind != CommitCode, op.prior))
    else s
  }

  /** Any exception or error before the publication, the commit's own included. */
  function FailCandidate(s: System, t: nat, fatal: bool): System {
    if t in s.ops && s.ops[t].Replacing? then
      var op := s.ops[t];
      ReportIf(Put(s, t, Unwinding(op.staged.kind != CommitCode, op.candidate, fatal)), fatal)
    else s
  }

  function CloseCandidate(s: System, t: nat, fatal: bool): System {
    if t in s.ops && s.ops[t].Unwinding? && s.ops[t].candidate.Some? && s.ops[t].candidate.value in s.closes then
      var op := s.ops[t];
      ReportIf(Put(CloseEngine(s, op.candidate.value), t,
                   Unwinding(op.rebuild, None, op.fatal || fatal)), fatal)
    else s
  }

  function RetirePrior(s: System, t: nat, fatal: bool): System {
    if t in s.ops && s.ops[t].Retiring? && s.ops[t].prior in s.closes then
      var op := s.ops[t];
      var closed := CloseEngine(s, op.prior);
      if fatal then ReportFatal(Put(closed, t, Unwinding(op.rebuild, None, true)))
      else Put(closed, t, if op.rebuild then Releasing(ProjectExclusive) else Editing(None, 0, true))
    else s
  }

  /** Back in the edit callback, or out of `rebuild`, which restores READY after an
      exception and reports again after an error. */
  function FinishUnwinding(s: System, t: nat): System {
    if t in s.ops && s.ops[t].Unwinding? && s.ops[t].candidate.None? then
      var op := s.ops[t];
      if !op.rebuild then Put(s, t, Editing(None, 0, true))
      else if op.fatal then ReportFatal(Put(s, t, Releasing(ProjectExclusive)))
      else Put(s.(rt := Restore(s.rt)), t, Releasing(ProjectExclusive))
    else s
  }

  // ---- Reads -----------------------------------------------------------------

  /** The revision is read from the repository after the locked capture. */
  function UseRead(s: System, t: nat): System {
    if t in s.ops && s.ops[t].Reading? && s.ops[t].engine.Some? && s.rt.repo.Some? then
      var repo := s.rt.repo.value;
      s.(captures := s.captures + [Capture(repo.session, repo.revision, s.ops[t].epoch, s.ops[t].engine.value)])
    else s
  }

  function FinishCapturing(s: System, t: nat): System {
    if t in s.ops && s.ops[t].Capturing? && t in s.rt.leases then
      Put(s.(rt := FinishCapture(s.rt, t)), t, Isolated(None))
    else s
  }

  function CreateIsolated(s: System, t: nat, args: Args): System {
    if t in s.ops && s.ops[t] == Isolated(None) then
      Put(Create(s, args, ByOperation(t), Some(t)), t, Isolated(Some(s.next)))
    else s
  }

  function CloseIsolated(s: System, t: nat): System {
    if t in s.ops && s.ops[t].Isolated? && s.ops[t].own.Some? && s.ops[t].own.value in s.closes then
      Put(CloseEngine(s, s.ops[t].own.value), t, Releasing(TemporaryAnalysis))
    else s
  }

  /** `readPublished`: capture the epoch, read, and return only at the same epoch. */
  function BeginPeek(s: System): System {
    if RequireReady(s.rt) then Spawn(s, Peeking(s.rt.epoch, None)) else s
  }

  predicate PeekReturns(s: System, t: nat) {
    t in s.ops && s.ops[t].Peeking? && s.ops[t].peeked.Some? && RequireReady(s.rt) && s.ops[t].epoch == s.rt.epoch
  }

  /** Returns the value read, or fails when the runtime is no longer ready. */
  function FinishPeek(s: System, t: nat): System {
    if t in s.ops && s.ops[t].Peeking? && (PeekReturns(s, t) || !RequireReady(s.rt)) then End(s, t) else s
  }

  // ---- Release, close, fatal errors ------------------------------------------

  function Release(s: System, t: nat): System {
    if t in s.ops && s.ops[t].Releasing? then Put(s.(rt := ReleaseLease(s.rt, t)), t, Callback) else s
  }

  /** `operationCompleted`, after the lease is gone. */
  function RunCallback(s: System, t: nat): System {
    if t in s.ops && s.ops[t].Callback? then
      if s.rt.lifecycle == SHUTTING_DOWN then Put(s, t, Closing)
      else End(s.(rt := FinishIfQuiescent(s.rt)), t)
    else s
  }

  function CloseStep(s: System, t: nat): System {
    if t in s.ops && s.ops[t].Closing? then
      if s.rt.lifecycle == STOPPED then End(s, t)
      else
        var closed := s.(rt := CloseBlock(s.rt));
        match Detachable(s.rt)
        case None => Put(closed, t, Finishing)
        case Some(e) => HandOver(closed, e, t)
    else s
  }

  function FinishClose(s: System, t: nat): System {
    if t in s.ops && s.ops[t].Finishing? then End(s.(rt := FinishIfQuiescent(s.rt)), t) else s
  }

  function CloseDetached(s: System, t: nat): System {
    if t in s.ops && s.ops[t].Cleaning? && s.ops[t].detached in s.closes then
      Put(CloseEngine(s, s.ops[t].detached), t, Cleaned)
    else s
  }

  function FinishCleanup(s: System, t: nat): System {
    if t in s.ops && s.ops[t].Cleaned? && s.rt.cleanup > 0 then
      End(s.(rt := CleanupDone(s.rt), cleaners := s.cleaners - {t}), t)
    else s
  }

  // ---- Requested shutdown ----------------------------------------------------

  function BeginShutting(s: System, policy: Policy): System {
    match Reserve(s.rt, policy, s.next)
    case NotReady => s
    case Refused(rt, registry) =>
      Spawn(s.(rt := rt, reserver := Some(s.next)), Shutting(policy, Rejected(registry), false))
    case Reserved(rt) =>
      Spawn(s.(rt := rt, reserver := Some(s.next)), Shutting(policy, Claimed, policy == Save))
  }

  function Inspect(s: System, t: nat): System {
    if t in s.ops && s.ops[t].Shutting? && s.ops[t].phase == Claimed && s.rt.repo.Some? then
      var op := s.ops[t];
      var repo := s.rt.repo.value;
      if (op.policy == RefuseIfDirty && Dirty(repo)) || (op.policy == Save && !repo.hasPath)
      then Put(s, t, op.(phase := Rejected(true)))
      else Put(s, t, op.(phase := if op.policy == Save then Inspected else Cleared))
    else s
  }

  function WriteShutdownSave(s: System, t: nat): System {
    if t in s.ops && s.ops[t].Shutting? && s.ops[t].phase == Inspected && s.rt.repo.Some? then
      var saved := Saved(s.rt.repo.value);
      Put(s.(rt := s.rt.(repo := Some(saved))), t, s.ops[t].(phase := Written(saved)))
    else s
  }

  function FailShutdownSave(s: System, t: nat): System {
    if t in s.ops && s.ops[t].Shutting? && s.ops[t].phase == Inspected then
      Put(s, t, s.ops[t].(phase := Rejected(true)))
    else s
  }

  function AnnounceShutdownSave(s: System, t: nat): System {
    if t in s.ops && s.ops[t].Shutting? && s.ops[t].phase.Written? then
      Put(s.(rt := SaveBlock(s.rt, s.ops[t].phase.saved)), t, s.ops[t].(phase := Announced))
    else s
  }

  /** The shutdown operation with its save lease given up. */
  function Dropped(s: System, t: nat): System
    requires t in s.ops && s.ops[t].Shutting?
  {
    var op := s.ops[t];
    Put(s.(rt := ReleaseLease(s.rt, t)), t,
        Shutting(op.policy, if op.phase == Announced then Cleared else op.phase, false))
  }

  predicate Droppable(s: System, t: nat) {
    && t in s.ops && s.ops[t].Shutting? && s.ops[t].held
    && (s.ops[t].phase == Announced || s.ops[t].phase.Rejected?)
  }

  /** Closing the save lease runs the completion callback. */
  function DropSaveLease(s: System, t: nat): System {
    if Droppable(s, t) then Spawn(Dropped(s, t), Callback) else s
  }

  function AcceptShutdown(s: System, t: nat): System {
    if t in s.ops && s.ops[t].Shutting? && s.ops[t].phase == Cleared && !s.ops[t].held then
      match BeginShutdown(s.rt)
      case None => Put(s, t, s.ops[t].(phase := Rejected(true)))
      case Some(rt) => End(s.(rt := rt, reserver := None), t)
    else s
  }

  function GiveBackReservation(s: System, t: nat): System {
    if t in s.ops && s.ops[t].Shutting? && s.ops[t].phase.Rejected? && !s.ops[t].held then
      End(s.(rt := ReleaseReservation(s.rt, s.ops[t].phase.registry), reserver := None), t)
    else s
  }

  // ---- Runs ------------------------------------------------------------------

  datatype InitializeStep =
    | StartTask(accepted: bool) | RunTask | OpenAndCreate(repo: Option<Repo>) | LoadFirst(loaded: Args)
    | PublishFirst | FailFirst | DiscardFirst | FinishFirst

  function DoInitialize(s: System, step: InitializeStep): System {
    match step
    case StartTask(accepted) => s.(rt := StartInitialization(s.rt, accepted))
    case RunTask => if s.rt.task == QUEUED then s.(rt := s.rt.(task := RUNNING)) else s
    case OpenAndCreate(repo) => CreateInitial(s, repo)
    case LoadFirst(loaded) => LoadInitial(s, loaded)
    case PublishFirst => PublishLoaded(s)
    case FailFirst => FailLoading(s)
    case DiscardFirst => DiscardInitial(s)
    case FinishFirst => FinishInitial(s)
  }

  datatype ReplaceStep =
    | CreateIt | LoadIt(loaded: Args) | PublishIt | FailIt(fatal: bool) | CloseIt(fatal: bool)
    | RetireOld(fatal: bool) | FinishIt

  function DoReplace(s: System, t: nat, step: ReplaceStep): System {
    match step
    case CreateIt => CreateCandidate(s, t)
    case LoadIt(loaded) => LoadCandidate(s, t, loaded)
    case PublishIt => PublishCandidate(s, t)
    case FailIt(fatal) => FailCandidate(s, t, fatal)
    case CloseIt(fatal) => CloseCandidate(s, t, fatal)
    case RetireOld(fatal) => RetirePrior(s, t, fatal)
    case FinishIt => FinishUnwinding(s, t)
  }

  datatype ReadStep = UseIt | EndCapture | CreateTemporary(args: Args) | CloseTemporary | EndPeek

  function DoRead(s: System, t: nat, step: ReadStep): System {
    match step
    case UseIt => UseRead(s, t)
    case EndCapture => FinishCapturing(s, t)
    case CreateTemporary(args) => CreateIsolated(s, t, args)
    case CloseTemporary => CloseIsolated(s, t)
    case EndPeek => FinishPeek(s, t)
  }

  datatype CloseStepKind = ReleaseIt | RunIts | CloseNow | FinishNow | CloseEngineNow | CountDown

  function DoClose(s: System, t: nat, step: CloseStepKind): System {
    match step
    case ReleaseIt => Release(s, t)
    case RunIts => RunCallback(s, t)
    case CloseNow => CloseStep(s, t)
    case FinishNow => FinishClose(s, t)
    case CloseEngineNow => CloseDetached(s, t)
    case CountDown => FinishCleanup(s, t)
  }

  datatype ShutdownStep =
    | InspectProject | WriteNative | FailNative | AnnounceNative | DropLease | Accept | GiveBack

  function DoShutdown(s: System, t: nat, step: ShutdownStep): System {
    match step
    case InspectProject => Inspect(s, t)
    case WriteNative => WriteShutdownSave(s, t)
    case FailNative => FailShutdownSave(s, t)
    case AnnounceNative => AnnounceShutdownSave(s, t)
    case DropLease => DropSaveLease(s, t)
    case Accept => AcceptShutdown(s, t)
    case GiveBack => GiveBackReservation(s, t)
  }

  datatype Step =
    | SInitialize(first: InitializeStep)
    | SSubmitJob | SFinishJob
    | SEnter(entry: Entry) | SEnterJob(key: string, expected: Admission) | SBeginRebuild | SBeginPeek
    | SMove(t: nat, move: Move) | SWriteSave(t: nat) | SAnnounceSave(t: nat)
    | SReplace(t: nat, replace: ReplaceStep)
    | SRead(t: nat, read: ReadStep)
    | SBeginClose | SReportFatal | SClose(t: nat, close: CloseStepKind)
    | SBeginShutdown(policy: Policy) | SShutdown(t: nat, shutdown: ShutdownStep)

  function Do(s: System, step: Step): System {
    match step
    case SInitialize(first) => DoInitialize(s, first)
    case SSubmitJob => s.(rt := if SubmitJob(s.rt).Some? then SubmitJob(s.rt).value else s.rt)
    case SFinishJob => s.(rt := s.rt.(liveJobs := if s.rt.liveJobs > 0 then s.rt.liveJobs - 1 else 0))
    case SEnter(entry) => DoEnter(s, entry)
    case SEnterJob(key, expected) => EnterJob(s, key, expected)
    case SBeginRebuild => BeginRebuild(s)
    case SBeginPeek => BeginPeek(s)
    case SMove(t, move) => DoMove(s, t, move)
    case SWriteSave(t) => WriteSave(s, t)
    case SAnnounceSave(t) => AnnounceSave(s, t)
    case SReplace(t, replace) => DoReplace(s, t, replace)
    case SRead(t, read) => DoRead(s, t, read)
    case SBeginClose => Spawn(s, Closing)
    case SReportFatal => ReportFatal(s)
    case SClose(t, close) => DoClose(s, t, close)
    case SBeginShutdown(policy) => BeginShutting(s, policy)
    case SShutdown(t, shutdown) => DoShutdown(s, t, shutdown)
  }

  /** The state after a run. */
  function Run(mode: int, steps: seq<Step>): System {
    if steps == [] then Start(mode) else Do(Run(mode, steps[..|steps| - 1]), steps[|steps| - 1])
  }

  /** A run with every state it passes through. */
  datatype Execution = Execution(mode: int, steps: seq<Step>, states: seq<System>) {
    /** Step i leads from state i to the next. */
    ghost predicate Follows(i: nat)
      requires |states| == |steps| + 1 && i < |steps|
    {
      states[i + 1] == Do(states[i], steps[i])
    }

    ghost predicate Valid() {
      && |states| == |steps| + 1 && states[0] == Start(mode)
      && forall i | 0 <= i < |steps| :: Follows(i)
    }
  }

  function Trace(mode: int, steps: seq<Step>): (states: seq<System>)
    ensures |states| == |steps| + 1 && states[|steps|] == Run(mode, steps)
  {
    if steps == [] then [Start(mode)] else Trace(mode, steps[..|steps| - 1]) + [Run(mode, steps)]
  }

  /** Every list of steps is an execution, which ends in its `Run`. */
  lemma {:induction false} RunsAreExecutions(mode: int, steps: seq<Step>)
    ensures Execution(mode, steps, Trace(mode, steps)).Valid()
  {
    hide Do;
    if steps != [] {
      var front := steps[..|steps| - 1];
      RunsAreExecutions(mode, front);
      var run := Execution(mode, steps, Trace(mode, steps));
      var before := Trace(mode, front);
      forall i | 0 <= i < |steps| ensures run.Follows(i) {
        if i < |front| { assert front[i] == steps[i] && Execution(mode, front, before).Follows(i); }
      }
    }
  }

}
