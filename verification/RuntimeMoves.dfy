/** The moves that the steps of the runtime are made of, each shown to keep the
    invariant.  A lemma about one part of the invariant assumes only what that part
    needs; the `...Keeps` lemmas put the parts together. */
module RuntimeMoves {
  import opened Common
  import opened Coordinator
  import opened RuntimeBlocks
  import opened RuntimeSystem
  import opened RuntimeInvariant

  /** What the invariant says about one operation. */
  lemma Facts(s: System, t: nat)
    requires Inv(s) && t in s.ops
    ensures t < s.next && LifecycleOk(s.rt)
    ensures OperationOk(s.rt, s.engines, t, s.ops[t]) && LeaseOf(s.rt.leases, t, s.ops[t])
    ensures Owns(s.ops[t]).Some? ==> Owns(s.ops[t]).value in s.closes && Owns(s.ops[t]).value in s.engines
    ensures s.ops[t].Shutting? ==>
              && ShuttingOk(s.rt, t, s.ops[t].policy, s.ops[t].phase)
              && (NeedsLease(s.ops[t].policy, s.ops[t].phase) ==> s.ops[t].held)
  {
  }

  /** What the invariant says about the load thread. */
  lemma LoadFacts(s: System)
    requires Inv(s)
    ensures LifecycleOk(s.rt) && (s.init.engine.Some? ==> s.rt.task == RUNNING)
  {
  }

  // ---- An operation moves on, holding and owning what it did ------------------

  predicate SameFace(a: Operation, b: Operation) {
    && Holds(a) == Holds(b) && Owns(a) == Owns(b) && IsCleanup(a) == IsCleanup(b)
    && a.Retiring? == b.Retiring? && a.Cleaning? == b.Cleaning?
    && (b.Capturing? ==> a.Capturing?) && (b.Isolated? ==> a.Isolated?)
    && !a.Shutting? && !b.Shutting?
    && (MayPublish(b) ==> MayPublish(a))
  }

  lemma PutLeases(s: System, t: nat, op: Operation)
    requires LeasesMatch(s) && t in s.ops && SameFace(s.ops[t], op)
    ensures LeasesMatch(Put(s, t, op))
  {
  }

  lemma PutOwners(s: System, t: nat, op: Operation)
    requires OwnersMatch(s) && t in s.ops && SameFace(s.ops[t], op)
    ensures OwnersMatch(Put(s, t, op))
  {
  }

  lemma OtherReservation(s: System, t: nat, op: Operation)
    requires ReservationOk(s) && t in s.ops && !s.ops[t].Shutting? && !op.Shutting?
    ensures ReservationOk(Put(s, t, op))
  {
  }

  lemma PutCleanup(s: System, t: nat, op: Operation)
    requires CleanupOk(s) && t in s.ops && IsCleanup(s.ops[t]) == IsCleanup(op)
    ensures CleanupOk(Put(s, t, op))
  {
  }

  lemma PutPublications(s: System, t: nat, op: Operation)
    requires PublicationsOk(s) && t in s.ops && (MayPublish(op) ==> MayPublish(s.ops[t]))
    ensures PublicationsOk(Put(s, t, op))
  {
  }

  lemma PutOperations(s: System, t: nat, op: Operation)
    requires OperationsOk(s) && t in s.ops && OperationOk(s.rt, s.engines, t, op)
    ensures OperationsOk(Put(s, t, op))
  {
  }

  lemma PutKeeps(s: System, t: nat, op: Operation)
    requires Inv(s) && t in s.ops && SameFace(s.ops[t], op)
    requires OperationOk(s.rt, s.engines, t, op)
    ensures Inv(Put(s, t, op))
  {
    hide LeasesMatch, OwnersMatch, OperationsOk, ReservationOk, CleanupOk, PublicationsOk;
    PutLeases(s, t, op);
    PutOwners(s, t, op);
    OtherReservation(s, t, op);
    PutCleanup(s, t, op);
    PutPublications(s, t, op);
    PutOperations(s, t, op);
  }

  // ---- An operation that holds and owns nothing comes or goes -----------------

  predicate Bare(op: Operation) {
    Holds(op) == None && Owns(op) == None && !IsCleanup(op) && !op.Shutting? && !MayPublish(op)
  }

  lemma EndLeases(s: System, t: nat)
    requires LeasesMatch(s) && t in s.ops && Holds(s.ops[t]) == None
    ensures LeasesMatch(End(s, t))
  {
    assert LeaseOf(s.rt.leases, t, s.ops[t]);
  }

  lemma EndOwners(s: System, t: nat)
    requires OwnersMatch(s) && t in s.ops && Owns(s.ops[t]) == None
    ensures OwnersMatch(End(s, t))
  {
  }

  lemma EndKeeps(s: System, t: nat)
    requires Inv(s) && t in s.ops && Bare(s.ops[t])
    ensures Inv(End(s, t))
  {
    hide LeasesMatch, OwnersMatch;
    EndLeases(s, t);
    EndOwners(s, t);
    assert OperationsOk(End(s, t));
  }

  lemma SpawnLeases(s: System, op: Operation)
    requires Fresh(s) && LeasesMatch(s) && Holds(op) == None
    ensures LeasesMatch(Spawn(s, op))
  {
    assert s.next !in s.ops;
  }

  lemma SpawnOwners(s: System, op: Operation)
    requires Fresh(s) && OwnersMatch(s) && Owns(op) == None
    ensures OwnersMatch(Spawn(s, op))
  {
    assert s.next !in s.ops;
  }

  lemma SpawnCleanup(s: System, op: Operation)
    requires Fresh(s) && CleanupOk(s) && !IsCleanup(op)
    ensures CleanupOk(Spawn(s, op))
  {
    assert s.next !in s.ops;
  }

  lemma SpawnPublications(s: System, op: Operation)
    requires Fresh(s) && PublicationsOk(s)
    ensures PublicationsOk(Spawn(s, op))
  {
  }

  lemma SpawnOperations(s: System, op: Operation)
    requires OperationsOk(s) && OperationOk(s.rt, s.engines, s.next, op)
    ensures OperationsOk(Spawn(s, op))
  {
  }

  lemma SpawnReservation(s: System, op: Operation)
    requires Fresh(s) && ReservationOk(s) && !op.Shutting?
    ensures ReservationOk(Spawn(s, op))
  {
    assert s.next !in s.ops;
  }

  lemma SpawnKeeps(s: System, op: Operation)
    requires Inv(s) && Bare(op) && OperationOk(s.rt, s.engines, s.next, op)
    ensures Inv(Spawn(s, op))
  {
    hide LeasesMatch, OwnersMatch, OperationsOk, ReservationOk, CleanupOk, PublicationsOk;
    SpawnLeases(s, op);
    SpawnOwners(s, op);
    SpawnCleanup(s, op);
    SpawnPublications(s, op);
    SpawnOperations(s, op);
    SpawnReservation(s, op);
  }

  // ---- Admission --------------------------------------------------------------

  predicate Entrant(op: Operation, c: Category) {
    && Holds(op) == Some(c) && Owns(op) == None && !IsCleanup(op) && !op.Shutting?
    && !op.Isolated? && (op.Capturing? ==> c == TemporaryAnalysis)
  }

  lemma EnterLeases(s: System, request: Request, op: Operation)
    requires Fresh(s) && LeasesMatch(s) && Entrant(op, request.category)
    requires Admit(s.rt, s.next, request).Some?
    ensures LeasesMatch(Enter(s, request, op))
  {
    assert s.next !in s.ops;
    AdmissionIsCoherent(s.rt.leases, s.next, request, s.rt.admission);
    var s' := Enter(s, request, op);
    forall t | t in s'.ops ensures LeaseOf(s'.rt.leases, t, s'.ops[t]) {
      if t != s.next { assert LeaseOf(s.rt.leases, t, s.ops[t]); }
    }
  }

  lemma EnterOperations(s: System, request: Request, op: Operation)
    requires OperationsOk(s) && OperationOk(s.rt, s.engines, s.next, op)
    requires Admit(s.rt, s.next, request).Some?
    ensures OperationsOk(Enter(s, request, op))
  {
    var s' := Enter(s, request, op);
    forall t | t in s'.ops ensures OperationOk(s'.rt, s'.engines, t, s'.ops[t]) {
      if t != s.next { assert OperationOk(s.rt, s.engines, t, s.ops[t]); }
    }
  }

  lemma EnterOwners(s: System, request: Request, op: Operation)
    requires Fresh(s) && OwnersMatch(s) && Entrant(op, request.category)
    requires Admit(s.rt, s.next, request).Some?
    ensures OwnersMatch(Enter(s, request, op))
  {
    var entered := s.(rt := Admit(s.rt, s.next, request).value);
    RtOwners(s, entered.rt);
    SpawnOwners(entered, op);
  }

  lemma EnterRest(s: System, request: Request, op: Operation)
    requires Fresh(s) && CleanupOk(s) && PublicationsOk(s) && CapturesOk(s) && Entrant(op, request.category)
    requires Admit(s.rt, s.next, request).Some?
    ensures var s' := Enter(s, request, op); CleanupOk(s') && PublicationsOk(s') && CapturesOk(s')
  {
    var entered := s.(rt := Admit(s.rt, s.next, request).value);
    SpawnCleanup(entered, op);
    SpawnPublications(entered, op);
  }

  lemma EnterReservation(s: System, request: Request, op: Operation)
    requires Fresh(s) && ReservationOk(s) && Entrant(op, request.category)
    requires Admit(s.rt, s.next, request).Some?
    ensures ReservationOk(Enter(s, request, op))
  {
    SpawnReservation(s, op);
  }

  lemma EnterWorld(s: System, request: Request, op: Operation)
    requires Fresh(s) && LifecycleOk(s.rt) && Agreement(s)
    requires Admit(s.rt, s.next, request).Some?
    ensures var s' := Enter(s, request, op); Fresh(s') && LifecycleOk(s'.rt) && Agreement(s')
  {
  }

  lemma EnterKeeps(s: System, request: Request, op: Operation)
    requires Inv(s) && Entrant(op, request.category) && OperationOk(s.rt, s.engines, s.next, op)
    ensures Inv(Enter(s, request, op))
  {
    hide LeasesMatch, OwnersMatch, OperationsOk, ReservationOk, CleanupOk, CapturesOk, PublicationsOk, Agreement, Fresh;
    hide LifecycleOk;
    if Admit(s.rt, s.next, request).Some? {
      EnterLeases(s, request, op);
      EnterOwners(s, request, op);
      EnterOperations(s, request, op);
      EnterReservation(s, request, op);
      EnterRest(s, request, op);
      EnterWorld(s, request, op);
    }
  }

  // ---- The shared state changes under the operations ----------------------------

  lemma RtOwners(s: System, rt: Runtime)
    requires OwnersMatch(s) && rt.active == s.rt.active
    ensures OwnersMatch(s.(rt := rt))
  {
    var s' := s.(rt := rt);
    forall e | e in s'.owner ensures EngineOwned(s', e) { assert EngineOwned(s, e); }
  }

  predicate SameWorld(a: Runtime, b: Runtime) {
    && a.active == b.active && a.repo == b.repo && a.epoch == b.epoch && a.leases == b.leases
    && a.admission == b.admission && a.search == b.search && a.mode == b.mode
    && a.reserved == b.reserved && a.cleanup == b.cleanup
  }

  lemma RtReservation(s: System, rt: Runtime)
    requires ReservationOk(s) && rt.reserved == s.rt.reserved && rt.repo == s.rt.repo
    requires rt.leases.Keys <= s.rt.leases.Keys && (rt.liveJobs <= s.rt.liveJobs || !s.rt.reserved)
    ensures ReservationOk(s.(rt := rt))
  {
  }

  lemma RtCaptures(s: System, rt: Runtime)
    requires CapturesOk(s) && rt.repo == s.rt.repo
    requires rt.epoch > s.rt.epoch || (rt.epoch == s.rt.epoch && (rt.active == s.rt.active || rt.active == None))
    ensures CapturesOk(s.(rt := rt))
  {
  }

  lemma RtPublications(s: System, rt: Runtime)
    requires PublicationsOk(s)
    requires rt.repo.Some? == s.rt.repo.Some? && (rt.repo.Some? ==> rt.repo.value.revision == s.rt.repo.value.revision)
    ensures PublicationsOk(s.(rt := rt))
  {
  }

  /** Bookkeeping that no operation looks at. */
  lemma QuietKeeps(s: System, rt: Runtime)
    requires Inv(s) && SameWorld(s.rt, rt) && rt.lifecycle == s.rt.lifecycle && LifecycleOk(rt)
    requires rt.liveJobs <= s.rt.liveJobs || !s.rt.reserved
    requires rt.task == RUNNING || s.init.engine == None
    ensures Inv(s.(rt := rt))
  {
    hide OwnersMatch, ReservationOk, CapturesOk, PublicationsOk;
    RtOwners(s, rt);
    RtReservation(s, rt);
    RtCaptures(s, rt);
    RtPublications(s, rt);
    var s' := s.(rt := rt);
    forall t | t in s'.ops ensures OperationOk(s'.rt, s'.engines, t, s'.ops[t]) {
      assert OperationOk(s.rt, s.engines, t, s.ops[t]);
    }
  }

  /** A lifecycle change away from READY that no hierarchy verification is upset by. */
  lemma LifecycleKeeps(s: System, rt: Runtime)
    requires Inv(s) && SameWorld(s.rt, rt.(search := s.rt.search)) && LifecycleOk(rt)
    requires rt.liveJobs == s.rt.liveJobs
    requires rt.lifecycle != READY && (rt.task == RUNNING || s.init.engine == None)
    requires rt.lifecycle == LOADING ==> s.rt.lifecycle == LOADING
    requires rt.lifecycle == RELOADING ==> s.rt.lifecycle == RELOADING
    requires forall t | t in s.ops && s.ops[t].Verifying? :: OperationOk(rt, s.engines, t, s.ops[t])
    ensures Inv(s.(rt := rt))
  {
    RtOwners(s, rt);
    RtReservation(s, rt);
    RtCaptures(s, rt);
    RtPublications(s, rt);
    var s' := s.(rt := rt);
    forall t | t in s'.ops ensures OperationOk(s'.rt, s'.engines, t, s'.ops[t]) {
      assert OperationOk(s.rt, s.engines, t, s.ops[t]);
    }
  }

  lemma FinishKeeps(s: System)
    requires Inv(s)
    ensures Inv(s.(rt := FinishIfQuiescent(s.rt)))
  {
    if Quiescent(s.rt) {
      forall t | t in s.ops ensures !s.ops[t].Verifying? {
        assert LeaseOf(s.rt.leases, t, s.ops[t]);
      }
      LifecycleKeeps(s, FinishIfQuiescent(s.rt));
    }
  }

  // ---- What an exclusive lease keeps out ------------------------------------------

  predicate Passive(op: Operation) {
    || (Holds(op) == None && !(op.Shutting? && !op.phase.Rejected?))
    || op.Isolated?
    || op == Releasing(TemporaryAnalysis)
  }

  lemma Alone(s: System, t: nat)
    requires Inv(s) && t in s.ops && Holds(s.ops[t]) == Some(ProjectExclusive)
    ensures forall u | u in s.ops && u != t :: Passive(s.ops[u])
  {
    assert LeaseOf(s.rt.leases, t, s.ops[t]);
    ExclusiveIsAlone(s.rt.leases, t);
    forall u | u in s.ops && u != t ensures Passive(s.ops[u]) {
      assert LeaseOf(s.rt.leases, u, s.ops[u]);
    }
  }

  lemma PassiveOk(rt: Runtime, engines: map<nat, Engine>, rt': Runtime, engines': map<nat, Engine>,
                  t: nat, op: Operation)
    requires OperationOk(rt, engines, t, op) && Passive(op)
    requires rt'.epoch > rt.epoch || (rt'.epoch == rt.epoch && rt.repo.Some? && rt'.repo.Some?
                                      && SameContent(rt'.repo.value, rt.repo.value))
    ensures OperationOk(rt', engines', t, op)
  {
  }

  // ---- Engines come and go ---------------------------------------------------------

  predicate SameHold(a: Operation, b: Operation) {
    && Holds(a) == Holds(b) && IsCleanup(a) == IsCleanup(b) && !a.Shutting? && !b.Shutting?
    && (b.Capturing? ==> a.Capturing?) && (b.Isolated? ==> a.Isolated?)
    && (MayPublish(b) ==> MayPublish(a))
  }

  lemma HoldLeases(s: System, t: nat, op: Operation)
    requires LeasesMatch(s) && t in s.ops && SameHold(s.ops[t], op)
    ensures LeasesMatch(Put(s, t, op))
  {
  }

  lemma CreateOwners(s: System, t: nat, args: Args, op: Operation)
    requires Fresh(s) && OwnersMatch(s) && t in s.ops && Owns(s.ops[t]) == None
    requires Owns(op) == Some(s.next) && !op.Cleaning? && !op.Retiring?
    ensures OwnersMatch(Put(Create(s, args, ByOperation(t), Some(t)), t, op))
  {
    assert s.next !in s.engines;
    var s' := Put(Create(s, args, ByOperation(t), Some(t)), t, op);
    forall e | e in s'.owner ensures EngineOwned(s', e) {
      if e != s.next { assert EngineOwned(s, e); }
    }
  }

  lemma GrowOperations(s: System, e: nat, engine: Engine)
    requires OperationsOk(s) && e !in s.engines
    ensures OperationsOk(s.(engines := s.engines[e := engine]))
  {
    var s' := s.(engines := s.engines[e := engine]);
    forall t | t in s'.ops ensures OperationOk(s'.rt, s'.engines, t, s'.ops[t]) {
      assert OperationOk(s.rt, s.engines, t, s.ops[t]);
    }
  }

  lemma CreateOperations(s: System, t: nat, args: Args, op: Operation)
    requires Fresh(s) && OperationsOk(s) && t in s.ops
    requires OperationOk(s.rt, s.engines[s.next := Engine(args, None, Some(t))], t, op)
    ensures OperationsOk(Put(Create(s, args, ByOperation(t), Some(t)), t, op))
  {
    var engine := Engine(args, None, Some(t));
    GrowOperations(s, s.next, engine);
    PutOperations(s.(engines := s.engines[s.next := engine]), t, op);
  }

  lemma CreateRest(s: System, t: nat, args: Args, op: Operation)
    requires ReservationOk(s) && CleanupOk(s) && PublicationsOk(s) && t in s.ops && SameHold(s.ops[t], op)
    ensures var s' := Put(Create(s, args, ByOperation(t), Some(t)), t, op);
            ReservationOk(s') && CleanupOk(s') && PublicationsOk(s')
  {
  }

  lemma CreateWorld(s: System, t: nat, args: Args, op: Operation)
    requires Fresh(s) && Agreement(s) && CapturesOk(s) && t in s.ops
    ensures var s' := Put(Create(s, args, ByOperation(t), Some(t)), t, op);
            Fresh(s') && Agreement(s') && CapturesOk(s')
  {
  }

  /** Operation `t` may create an engine and go on as `op`, which owns it. */
  predicate Creates(s: System, t: nat, args: Args, op: Operation) {
    && t in s.ops && Owns(s.ops[t]) == None && SameHold(s.ops[t], op)
    && Owns(op) == Some(s.next) && !op.Cleaning? && !op.Retiring?
    && OperationOk(s.rt, s.engines[s.next := Engine(args, None, Some(t))], t, op)
  }

  lemma CreateKeeps(s: System, t: nat, args: Args, op: Operation)
    requires Inv(s)
    ensures Creates(s, t, args, op) ==> Inv(Put(Create(s, args, ByOperation(t), Some(t)), t, op))
  {
    hide OwnersMatch, OperationsOk, ReservationOk, CleanupOk, CapturesOk, PublicationsOk, Agreement, Fresh;
    if Creates(s, t, args, op) {
      CreateOwners(s, t, args, op);
      HoldLeases(s, t, op);
      CreateOperations(s, t, args, op);
      CreateRest(s, t, args, op);
      CreateWorld(s, t, args, op);
    }
  }

  lemma CloseOwners(s: System, t: nat, e: nat, op: Operation)
    requires OwnersMatch(s) && t in s.ops && Owns(s.ops[t]) == Some(e) && Owns(op) == None && e in s.closes
    ensures OwnersMatch(Put(CloseEngine(s, e), t, op))
  {
    var s' := Put(CloseEngine(s, e), t, op);
    assert EngineOwned(s, e);
    forall x | x in s'.owner ensures EngineOwned(s', x) { assert EngineOwned(s, x); }
  }

  lemma CloseRest(s: System, t: nat, e: nat, op: Operation)
    requires OperationsOk(s) && ReservationOk(s) && CleanupOk(s) && PublicationsOk(s)
    requires t in s.ops && e in s.closes && SameHold(s.ops[t], op) && OperationOk(s.rt, s.engines, t, op)
    ensures var s' := Put(CloseEngine(s, e), t, op);
            OperationsOk(s') && ReservationOk(s') && CleanupOk(s') && PublicationsOk(s')
  {
    var closed := CloseEngine(s, e);
    PutOperations(closed, t, op);
    OtherReservation(closed, t, op);
    PutCleanup(closed, t, op);
    PutPublications(closed, t, op);
  }

  lemma CloseWorld(s: System, t: nat, e: nat, op: Operation)
    requires Fresh(s) && Agreement(s) && CapturesOk(s) && t in s.ops && e in s.closes
    ensures var s' := Put(CloseEngine(s, e), t, op); Fresh(s') && Agreement(s') && CapturesOk(s')
  {
  }

  lemma CloseKeeps(s: System, t: nat, e: nat, op: Operation)
    requires Inv(s) && t in s.ops && Owns(s.ops[t]) == Some(e) && Owns(op) == None && e in s.closes
    requires SameHold(s.ops[t], op) && OperationOk(s.rt, s.engines, t, op)
    ensures Inv(Put(CloseEngine(s, e), t, op))
  {
    hide OwnersMatch, OperationsOk, ReservationOk, CleanupOk, CapturesOk, PublicationsOk, Agreement, Fresh;
    CloseOwners(s, t, e, op);
    HoldLeases(s, t, op);
    CloseRest(s, t, e, op);
    CloseWorld(s, t, e, op);
  }

  /** Loading changes an engine that is not published and that nobody has compared yet. */
  function Loaded(s: System, e: nat, loaded: Args): System
    requires e in s.engines
  {
    s.(engines := s.engines[e := s.engines[e].(loaded := Some(loaded))])
  }

  lemma LoadOwners(s: System, e: nat, loaded: Args)
    requires OwnersMatch(s) && e in s.engines
    ensures OwnersMatch(Loaded(s, e, loaded))
  {
    var s' := Loaded(s, e, loaded);
    forall x | x in s'.owner ensures EngineOwned(s', x) { assert EngineOwned(s, x); }
  }

  lemma LoadOperations(s: System, e: nat, loaded: Args)
    requires OperationsOk(s) && e in s.engines
    requires forall t | t in s.ops && s.ops[t].Replacing? :: s.ops[t].candidate != Some(e) || !s.ops[t].consistent
    ensures OperationsOk(Loaded(s, e, loaded))
  {
    var s' := Loaded(s, e, loaded);
    forall t | t in s'.ops ensures OperationOk(s'.rt, s'.engines, t, s'.ops[t]) {
      assert OperationOk(s.rt, s.engines, t, s.ops[t]);
    }
  }

  lemma LoadRest(s: System, e: nat, loaded: Args)
    requires ReservationOk(s) && CleanupOk(s) && CapturesOk(s) && PublicationsOk(s) && e in s.engines
    ensures var s' := Loaded(s, e, loaded);
            ReservationOk(s') && CleanupOk(s') && CapturesOk(s') && PublicationsOk(s')
  {
  }

  lemma LoadKeeps(s: System, e: nat, loaded: Args)
    requires Inv(s) && e in s.engines && s.rt.active != Some(e)
    requires forall t | t in s.ops && s.ops[t].Replacing? :: s.ops[t].candidate != Some(e) || !s.ops[t].consistent
    ensures Inv(Loaded(s, e, loaded))
  {
    hide OwnersMatch, ReservationOk, CleanupOk, CapturesOk, PublicationsOk;
    LoadOwners(s, e, loaded);
    LoadOperations(s, e, loaded);
    LoadRest(s, e, loaded);
  }

  // ---- The active engine is detached -------------------------------------------------

  /** The shared state after an engine was taken away on the way down. */
  predicate DetachedFrom(a: Runtime, b: Runtime) {
    && a.active.Some? && b.active == None && b.cleanup == a.cleanup + 1
    && b.repo == a.repo && b.epoch == a.epoch && b.leases == a.leases && b.admission == a.admission
    && b.mode == a.mode && b.reserved == a.reserved && b.liveJobs == a.liveJobs
    && (b.lifecycle == FAILED || b.lifecycle == SHUTTING_DOWN)
  }

  lemma DetachOwners(s: System, rt: Runtime, e: nat, t: nat)
    requires OwnersMatch(s) && s.rt.active == Some(e) && rt.active == None
    requires t in s.ops && Owns(s.ops[t]) == None
    ensures OwnersMatch(HandOver(s.(rt := rt), e, t))
  {
    var s' := HandOver(s.(rt := rt), e, t);
    assert EngineOwned(s, e);
    forall x | x in s'.owner ensures EngineOwned(s', x) { assert EngineOwned(s, x); }
  }

  lemma DetachCleanup(s: System, rt: Runtime, e: nat, t: nat)
    requires CleanupOk(s) && t in s.ops && !IsCleanup(s.ops[t]) && rt.cleanup == s.rt.cleanup + 1
    ensures CleanupOk(HandOver(s.(rt := rt), e, t))
  {
    assert t !in s.cleaners;
    assert |s.cleaners + {t}| == |s.cleaners| + 1;
  }

  lemma DetachOperations(s: System, rt: Runtime, e: nat, t: nat)
    requires LeasesMatch(s) && OperationsOk(s) && DetachedFrom(s.rt, rt) && !PrimaryInUse(s.rt.leases)
    requires t in s.ops
    ensures OperationsOk(HandOver(s.(rt := rt), e, t))
  {
    var s' := HandOver(s.(rt := rt), e, t);
    forall u | u in s'.ops ensures OperationOk(s'.rt, s'.engines, u, s'.ops[u]) {
      if u != t {
        assert OperationOk(s.rt, s.engines, u, s.ops[u]);
        assert LeaseOf(s.rt.leases, u, s.ops[u]);
      }
    }
  }

  lemma DetachLeases(s: System, rt: Runtime, e: nat, t: nat)
    requires LeasesMatch(s) && t in s.ops && s.ops[t] == Closing && rt.leases == s.rt.leases
    ensures LeasesMatch(HandOver(s.(rt := rt), e, t))
  {
    assert LeaseOf(s.rt.leases, t, s.ops[t]);
  }

  lemma DetachRest(s: System, rt: Runtime, e: nat, t: nat)
    requires CapturesOk(s) && PublicationsOk(s) && ReservationOk(s) && DetachedFrom(s.rt, rt)
    requires t in s.ops && s.ops[t] == Closing
    ensures var s' := HandOver(s.(rt := rt), e, t); CapturesOk(s') && PublicationsOk(s') && ReservationOk(s')
  {
  }

  lemma DetachKeeps(s: System, rt: Runtime, e: nat, t: nat)
    requires Inv(s) && s.rt.active == Some(e) && DetachedFrom(s.rt, rt) && !PrimaryInUse(s.rt.leases)
    requires t in s.ops && s.ops[t] == Closing && LifecycleOk(rt)
    requires rt.task == RUNNING || s.init.engine == None
    ensures Inv(HandOver(s.(rt := rt), e, t))
  {
    hide LeasesMatch, OwnersMatch, OperationsOk, ReservationOk, CleanupOk, CapturesOk, PublicationsOk;
    DetachLeases(s, rt, e, t);
    DetachOwners(s, rt, e, t);
    DetachOperations(s, rt, e, t);
    DetachCleanup(s, rt, e, t);
    DetachRest(s, rt, e, t);
  }

  // ---- A lease is given up or narrowed -------------------------------------------------

  lemma ReleaseLeases(s: System, t: nat, op: Operation)
    requires LeasesMatch(s) && t in s.ops && Holds(op) == None
    ensures LeasesMatch(Put(s.(rt := ReleaseLease(s.rt, t)), t, op))
  {
    var s' := Put(s.(rt := ReleaseLease(s.rt, t)), t, op);
    forall u | u in s'.ops ensures LeaseOf(s'.rt.leases, u, s'.ops[u]) {
      assert LeaseOf(s.rt.leases, u, s.ops[u]);
    }
    forall i, j | i in s'.rt.leases && j in s'.rt.leases && i != j
      ensures MayOverlap(s'.rt.leases[i], s'.rt.leases[j])
    {
      assert MayOverlap(s.rt.leases[i], s.rt.leases[j]);
    }
  }

  lemma LeaseOperations(s: System, leases: map<nat, Lease>)
    requires OperationsOk(s)
    ensures OperationsOk(s.(rt := s.rt.(leases := leases)))
  {
    var s' := s.(rt := s.rt.(leases := leases));
    forall t | t in s'.ops ensures OperationOk(s'.rt, s'.engines, t, s'.ops[t]) {
      assert OperationOk(s.rt, s.engines, t, s.ops[t]);
    }
  }

  lemma BareOwners(s: System, t: nat, op: Operation)
    requires OwnersMatch(s) && t in s.ops && Owns(s.ops[t]) == None && Owns(op) == None
    ensures OwnersMatch(Put(s, t, op))
  {
    var s' := Put(s, t, op);
    forall e | e in s'.owner ensures EngineOwned(s', e) { assert EngineOwned(s, e); }
  }

  lemma ReleaseOwners(s: System, t: nat)
    requires OwnersMatch(s) && t in s.ops && s.ops[t].Releasing?
    ensures OwnersMatch(Release(s, t))
  {
    RtOwners(s, ReleaseLease(s.rt, t));
    BareOwners(s.(rt := ReleaseLease(s.rt, t)), t, Callback);
  }

  lemma ReleaseOperations(s: System, t: nat)
    requires OperationsOk(s) && t in s.ops && s.ops[t].Releasing?
    ensures OperationsOk(Release(s, t))
  {
    LeaseOperations(s, s.rt.leases - {t});
    PutOperations(s.(rt := ReleaseLease(s.rt, t)), t, Callback);
  }

  lemma KeepReservation(s: System, t: nat)
    requires ReservationOk(s) && t in s.ops && s.ops[t].Releasing?
    ensures ReservationOk(Release(s, t))
  {
    RtReservation(s, ReleaseLease(s.rt, t));
    OtherReservation(s.(rt := ReleaseLease(s.rt, t)), t, Callback);
  }

  lemma ReleaseRest(s: System, t: nat)
    requires CleanupOk(s) && CapturesOk(s) && PublicationsOk(s) && t in s.ops && s.ops[t].Releasing?
    ensures var s' := Release(s, t); CleanupOk(s') && CapturesOk(s') && PublicationsOk(s')
  {
  }

  lemma ReleaseWorld(s: System, t: nat)
    requires Fresh(s) && LifecycleOk(s.rt) && Agreement(s) && t in s.ops && s.ops[t].Releasing?
    ensures var s' := Release(s, t); Fresh(s') && LifecycleOk(s'.rt) && Agreement(s')
  {
  }

  lemma ReleaseKeeps(s: System, t: nat)
    requires Inv(s) && t in s.ops && s.ops[t].Releasing?
    ensures Inv(Release(s, t))
  {
    hide LeasesMatch, OwnersMatch, OperationsOk, ReservationOk, CleanupOk, CapturesOk, PublicationsOk;
    hide Agreement, LifecycleOk, Fresh;
    ReleaseLeases(s, t, Callback);
    ReleaseOwners(s, t);
    ReleaseOperations(s, t);
    KeepReservation(s, t);
    ReleaseRest(s, t);
    ReleaseWorld(s, t);
  }

  lemma NarrowLeases(s: System, t: nat, op: Operation)
    requires LeasesMatch(s) && t in s.ops && t in s.rt.leases && s.ops[t].Capturing? && op.Isolated?
    ensures LeasesMatch(Put(s.(rt := FinishCapture(s.rt, t)), t, op))
  {
    var s' := Put(s.(rt := FinishCapture(s.rt, t)), t, op);
    assert LeaseOf(s.rt.leases, t, s.ops[t]);
    forall u | u in s'.ops ensures LeaseOf(s'.rt.leases, u, s'.ops[u]) {
      assert LeaseOf(s.rt.leases, u, s.ops[u]);
    }
    forall i, j | i in s'.rt.leases && j in s'.rt.leases && i != j
      ensures MayOverlap(s'.rt.leases[i], s'.rt.leases[j])
    {
      assert MayOverlap(s.rt.leases[i], s.rt.leases[j]);
    }
  }

  lemma NarrowOwners(s: System, t: nat)
    requires OwnersMatch(s) && t in s.ops && s.ops[t].Capturing? && t in s.rt.leases
    ensures OwnersMatch(FinishCapturing(s, t))
  {
    RtOwners(s, FinishCapture(s.rt, t));
    BareOwners(s.(rt := FinishCapture(s.rt, t)), t, Isolated(None));
  }

  lemma NarrowOperations(s: System, t: nat)
    requires OperationsOk(s) && t in s.ops && s.ops[t].Capturing? && t in s.rt.leases
    ensures OperationsOk(FinishCapturing(s, t))
  {
    LeaseOperations(s, FinishCapture(s.rt, t).leases);
    PutOperations(s.(rt := FinishCapture(s.rt, t)), t, Isolated(None));
  }

  lemma NarrowRest(s: System, t: nat)
    requires CleanupOk(s) && CapturesOk(s) && PublicationsOk(s) && LifecycleOk(s.rt) && ReservationOk(s)
    requires t in s.ops && s.ops[t].Capturing? && t in s.rt.leases
    ensures var s' := FinishCapturing(s, t);
            CleanupOk(s') && CapturesOk(s') && PublicationsOk(s') && LifecycleOk(s'.rt) && ReservationOk(s')
  {
  }

  lemma NarrowKeeps(s: System, t: nat)
    requires Inv(s)
    ensures Inv(FinishCapturing(s, t))
  {
    hide LeasesMatch, OwnersMatch, OperationsOk, ReservationOk, CleanupOk, CapturesOk, PublicationsOk, LifecycleOk;
    if t in s.ops && s.ops[t].Capturing? && t in s.rt.leases {
      NarrowLeases(s, t, Isolated(None));
      NarrowOwners(s, t);
      NarrowOperations(s, t);
      NarrowRest(s, t);
    }
  }
}
