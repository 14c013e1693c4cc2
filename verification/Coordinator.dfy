/** Fail-fast admission of project operations (OperationCoordinator.java).

    The compatibility rules decide which operations may overlap.  `Coherent` is
    the meaning of those rules: what any two leases that are held at the same
    time may be to each other. */
module Coordinator {

  datatype Category = ProjectExclusive | ClassRead | IndexRead | QueryRead | TemporaryAnalysis

  datatype Request = Request(category: Category, key: string)

  /** The published revision an operation was admitted at. */
  datatype Admission = Admission(session: string, revision: nat)

  datatype Lease = Lease(request: Request, admission: Admission, capturing: bool)

  datatype Outcome = Admitted | Busy | ShuttingDown

  /** Categories that work on the primary engine. */
  predicate UsesPrimary(c: Category) {
    c == ClassRead || c == ProjectExclusive
  }

  /** One round of the loop in `compatible`: does this held lease refuse the candidate? */
  predicate Refuses(held: Lease, candidate: Request, at: Admission) {
    var existing := held.request.category;
    if candidate.category == TemporaryAnalysis then
      existing == TemporaryAnalysis || UsesPrimary(existing)
    else if existing == TemporaryAnalysis then
      held.capturing && UsesPrimary(candidate.category)
    else
      || UsesPrimary(candidate.category)
      || UsesPrimary(existing)
      || candidate.key != held.request.key
      || at != held.admission
  }

  predicate Compatible(active: map<nat, Lease>, candidate: Request, at: Admission) {
    forall id | id in active :: !Refuses(active[id], candidate, at)
  }

  function NewLease(request: Request, at: Admission): Lease {
    Lease(request, at, request.category == TemporaryAnalysis)
  }

  /** What two different leases that are held together may be. */
  predicate MayOverlap(a: Lease, b: Lease) {
    var x, y := a.request.category, b.request.category;
    if x == TemporaryAnalysis && y == TemporaryAnalysis then false
    else if x == TemporaryAnalysis then !(a.capturing && (y == ClassRead || y == ProjectExclusive))
    else if y == TemporaryAnalysis then !(b.capturing && (x == ClassRead || x == ProjectExclusive))
    else
      && (x == IndexRead || x == QueryRead) && (y == IndexRead || y == QueryRead)
      && a.request.key == b.request.key && a.admission == b.admission
  }

  ghost predicate Coherent(active: map<nat, Lease>) {
    forall i, j | i in active && j in active && i != j :: MayOverlap(active[i], active[j])
  }

  predicate PrimaryInUse(active: map<nat, Lease>) {
    exists id | id in active :: UsesPrimary(active[id].request.category)
  }

  /** The admission rules are exactly coherence: an operation is compatible if and only
      if holding its lease beside those already held would be coherent. */
  lemma AdmissionIsCoherent(active: map<nat, Lease>, id: nat, request: Request, at: Admission)
    requires Coherent(active) && id !in active
    ensures Compatible(active, request, at) <==> Coherent(active[id := NewLease(request, at)])
  {
    var after := active[id := NewLease(request, at)];
    if Compatible(active, request, at) {
      forall i, j | i in after && j in after && i != j
        ensures MayOverlap(after[i], after[j])
      {
        assert i in active ==> !Refuses(active[i], request, at);
        assert j in active ==> !Refuses(active[j], request, at);
      }
    } else {
      var other :| other in active && Refuses(active[other], request, at);
      assert !MayOverlap(after[id], after[other]);
    }
  }

  /** A project-exclusive lease and a capturing temporary lease each keep every
      other user of the primary engine out. */
  lemma ExclusiveIsAlone(active: map<nat, Lease>, id: nat)
    requires Coherent(active) && id in active
    ensures active[id].request.category == ProjectExclusive ==>
              forall other | other in active && other != id ::
                active[other].request.category == TemporaryAnalysis && !active[other].capturing
    ensures active[id].request.category == TemporaryAnalysis && active[id].capturing ==>
              forall other | other in active :: !UsesPrimary(active[other].request.category)
  {
    forall other | other in active && other != id
      ensures MayOverlap(active[id], active[other])
    {
    }
  }

  /** The monitor's fields, updated in place. */
  class OperationCoordinator {
    var active: map<nat, Lease>
    var stopped: bool

    constructor ()
      ensures active == map[] && !stopped
    {
      active := map[];
      stopped := false;
    }

    method IsCompatible(request: Request, at: Admission) returns (ok: bool)
      ensures ok == Compatible(active, request, at)
    {
      var rest := active.Keys;
      while rest != {}
        invariant rest <= active.Keys
        invariant forall id | id in active && id !in rest :: !Refuses(active[id], request, at)
        decreases rest
      {
        var id :| id in rest;
        if Refuses(active[id], request, at) {
          return false;
        }
        rest := rest - {id};
      }
      return true;
    }

    /** `id` is the identity minted for the lease; it names no held lease. */
    method TryAdmit(id: nat, request: Request, at: Admission) returns (outcome: Outcome)
      requires id !in active
      modifies this
      ensures outcome == if old(stopped) then ShuttingDown
                         else if Compatible(old(active), request, at) then Admitted else Busy
      ensures active == if outcome.Admitted? then old(active)[id := NewLease(request, at)] else old(active)
      ensures stopped == old(stopped)
    {
      if stopped {
        return ShuttingDown;
      }
      var ok := IsCompatible(request, at);
      if !ok {
        return Busy;
      }
      active := active[id := NewLease(request, at)];
      return Admitted;
    }

    method StopAdmissions()
      modifies this
      ensures stopped && active == old(active)
    {
      stopped := true;
    }

    method PrimaryEngineInUse() returns (inUse: bool)
      ensures inUse == PrimaryInUse(active)
      ensures inUse <==> exists id | id in active ::
                active[id].request.category == ClassRead || active[id].request.category == ProjectExclusive
    {
      var rest := active.Keys;
      while rest != {}
        invariant rest <= active.Keys
        invariant forall id | id in active && id !in rest :: !UsesPrimary(active[id].request.category)
        decreases rest
      {
        var id :| id in rest;
        if UsesPrimary(active[id].request.category) {
          return true;
        }
        rest := rest - {id};
      }
      return false;
    }

    /** Fails, as the source does, for anything but a held temporary-analysis lease. */
    method FinishSnapshotCapture(id: nat) returns (ok: bool)
      modifies this
      ensures ok == (id in old(active) && old(active)[id].request.category == TemporaryAnalysis)
      ensures active == if ok then old(active)[id := old(active)[id].(capturing := false)] else old(active)
      ensures stopped == old(stopped)
    {
      if id !in active || active[id].request.category != TemporaryAnalysis {
        return false;
      }
      active := active[id := active[id].(capturing := false)];
      return true;
    }

    method Close(id: nat)
      modifies this
      ensures active == old(active) - {id} && stopped == old(stopped)
    {
      active := active - {id};
    }
  }
}
