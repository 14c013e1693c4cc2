/** Planning of related-method groups (RelatedMethodPlanner.java): what the verifier
    reported becomes a distinct, sorted family, under budgets that span the batch. */
module RelatedMethods {
  import opened Common
  import opened EditCodeData

  const MAX_ITEMS: nat := 4
  const MAX_MEMBERS: nat := 128
  const MAX_FAMILY: nat := 64
  const MAX_RESERVED_WORK: nat := 800_000
  const DEFAULT_WORK: nat := 200_000

  /** What the hierarchy verifier answered; `pinned` if some member names an exact input. */
  datatype Verification = Verification(complete: bool, seed: SymbolRef, members: seq<SymbolRef>, pinned: bool)

  /** Whether one native declaration key stands for a member: its class and target are
      unique, editable and agree with the key, and at most one rename uses it. */
  datatype Representation = Unique | Unrepresentable | SharedKey

  /** What is found for one item: whether the analysis files are unchanged, how many visible
      classes and methods bear the identity asked for, and the verifier's answer. */
  datatype Findings = Findings(seed: SymbolRef, intact: bool, owners: nat, methods: nat, verified: Verification)

  datatype Rejection =
    | ResourceLimit | ExternalChange | SeedNotFound | SeedNotUnique
    | Incomplete | InvalidFamily | NotRepresentable | AmbiguousKey

  // ---- The order of members -----------------------------------------------------------

  predicate StringAtMost(a: string, b: string) {
    if a == [] then true
    else if b == [] then false
    else if a[0] != b[0] then a[0] < b[0]
    else StringAtMost(a[1..], b[1..])
  }

  lemma {:induction false} StringOrder(a: string, b: string, c: string)
    ensures StringAtMost(a, b) || StringAtMost(b, a)
    ensures StringAtMost(a, b) && StringAtMost(b, a) ==> a == b
    ensures StringAtMost(a, b) && StringAtMost(b, c) ==> StringAtMost(a, c)
  {
    if a != [] && b != [] && a[0] == b[0] {
      StringOrder(a[1..], b[1..], if c != [] then c[1..] else []);
      assert a == [a[0]] + a[1..] && b == [b[0]] + b[1..];
    }
  }

  /** Where two strings first differ decides; a prefix comes first. */
  lemma {:induction false} FirstDifferenceDecides(front: string, a: string, b: string)
    ensures a != [] && b != [] && a[0] != b[0] ==> (StringAtMost(front + a, front + b) <==> a[0] < b[0])
    ensures StringAtMost(front, front + b)
  {
    if front == [] {
      assert front + a == a && front + b == b;
    } else {
      FirstDifferenceDecides(front[1..], a, b);
      assert (front + a)[1..] == front[1..] + a && (front + b)[1..] == front[1..] + b;
    }
  }

  function Descriptor(r: SymbolRef): string { r.arguments + r.result }

  predicate AtMost(a: SymbolRef, b: SymbolRef) {
    if a.owner != b.owner then StringAtMost(a.owner, b.owner)
    else if a.name != b.name then StringAtMost(a.name, b.name)
    else StringAtMost(Descriptor(a), Descriptor(b))
  }

  lemma RefOrder(a: SymbolRef, b: SymbolRef, c: SymbolRef)
    ensures AtMost(a, b) || AtMost(b, a)
    ensures AtMost(a, b) && AtMost(b, c) ==> AtMost(a, c)
  {
    StringOrder(a.owner, b.owner, c.owner);
    StringOrder(b.owner, c.owner, a.owner);
    StringOrder(a.name, b.name, c.name);
    StringOrder(b.name, c.name, a.name);
    StringOrder(Descriptor(a), Descriptor(b), Descriptor(c));
  }

  predicate Sorted(refs: seq<SymbolRef>) {
    forall i, j | 0 <= i < j < |refs| :: AtMost(refs[i], refs[j])
  }

  /** Insertion into a sorted list. */
  function Insert(refs: seq<SymbolRef>, r: SymbolRef): (result: seq<SymbolRef>)
    ensures multiset(result) == multiset(refs) + multiset{r}
  {
    if refs == [] || AtMost(r, refs[0]) then [r] + refs
    else
      assert refs == [refs[0]] + refs[1..];
      [refs[0]] + Insert(refs[1..], r)
  }

  lemma {:induction false} InsertKeepsSorted(refs: seq<SymbolRef>, r: SymbolRef)
    requires Sorted(refs)
    ensures Sorted(Insert(refs, r))
  {
    var result := Insert(refs, r);
    if refs != [] {
      RefOrder(r, refs[0], r);
      if AtMost(r, refs[0]) {
        forall i | 0 <= i < |refs| ensures AtMost(r, refs[i]) { RefOrder(r, refs[0], refs[i]); }
      } else {
        InsertKeepsSorted(refs[1..], r);
        var rest := Insert(refs[1..], r);
        forall i | 0 <= i < |rest| ensures AtMost(refs[0], rest[i]) {
          assert rest[i] in multiset(rest);
          assert rest[i] == r || rest[i] in refs[1..];
        }
      }
    }
  }

  method SortMembers(family: seq<SymbolRef>) returns (members: seq<SymbolRef>)
    ensures Sorted(members) && multiset(members) == multiset(family)
    ensures forall i, j | 0 <= i < j < |members| ::
              var a, b := members[i], members[j];
              if a.owner != b.owner then StringAtMost(a.owner, b.owner)
              else if a.name != b.name then StringAtMost(a.name, b.name)
              else StringAtMost(a.arguments + a.result, b.arguments + b.result)
  {
    members := [];
    var i := 0;
    while i < |family|
      invariant 0 <= i <= |family| && Sorted(members) && multiset(members) == multiset(family[..i])
    {
      InsertKeepsSorted(members, family[i]);
      members := Insert(members, family[i]);
      assert family[..i + 1] == family[..i] + [family[i]];
      i := i + 1;
    }
    assert family[..i] == family;
  }

  predicate Distinct(refs: seq<SymbolRef>) {
    forall i, j | 0 <= i < j < |refs| :: refs[i] != refs[j]
  }

  lemma {:induction false} DistinctByCount(refs: seq<SymbolRef>)
    ensures Distinct(refs) <==> forall r :: multiset(refs)[r] <= 1
  {
    if refs != [] {
      var front, last := refs[..|refs| - 1], refs[|refs| - 1];
      assert refs == front + [last];
      DistinctByCount(front);
      assert multiset(refs) == multiset(front) + multiset{last};
      if Distinct(refs) {
        assert last !in multiset(front);
      } else if Distinct(front) {
        var i :| 0 <= i < |front| && front[i] == last;
        assert front[i] in multiset(front) && multiset(refs)[last] >= 2;
      } else {
        var r :| multiset(front)[r] > 1;
        assert multiset(refs)[r] > 1;
      }
    }
  }

  /** A family the batch may rename. */
  predicate ValidFamily(seed: SymbolRef, family: seq<SymbolRef>) {
    && 0 < |family| <= MAX_FAMILY && seed in family && Distinct(family)
    && forall r | r in family :: r.kind == MethodKind
  }

  lemma FamilyExactly(seed: SymbolRef, family: seq<SymbolRef>)
    ensures ValidFamily(seed, family) <==>
              && 0 < |family| <= 64 && seed in family
              && (forall i, j | 0 <= i < j < |family| :: family[i] != family[j])
              && forall r | r in family :: r.kind == MethodKind
  {
  }

  /** `new HashSet<>(family).size() != family.size()`. */
  lemma {:induction false} SetSizeTellsDistinct(family: seq<SymbolRef>)
    ensures |(set r | r in family)| <= |family|
    ensures |(set r | r in family)| == |family| <==> Distinct(family)
  {
    if family != [] {
      var front, last := family[..|family| - 1], family[|family| - 1];
      SetSizeTellsDistinct(front);
      assert family == front + [last];
      assert (set r | r in family) == (set r | r in front) + {last};
      if last in front {
        assert (set r | r in family) == (set r | r in front);
      }
    }
  }

  /** The validation of the verifier's answer. */
  predicate IsFamily(seed: SymbolRef, family: seq<SymbolRef>) {
    |family| != 0 && |family| <= MAX_FAMILY && |(set r | r in family)| == |family| && seed in family
    && !exists r | r in family :: r.kind != MethodKind
  }

  lemma ValidationIsExact(seed: SymbolRef, family: seq<SymbolRef>)
    ensures IsFamily(seed, family) <==> ValidFamily(seed, family)
  {
    SetSizeTellsDistinct(family);
  }

  lemma SameMembers(a: seq<SymbolRef>, b: seq<SymbolRef>)
    requires multiset(a) == multiset(b)
    ensures forall r :: r in a <==> r in b
  {
    assert forall r :: (r in a <==> r in multiset(a)) && (r in b <==> r in multiset(b));
  }

  lemma SortedFamily(seed: SymbolRef, family: seq<SymbolRef>, sorted: seq<SymbolRef>)
    requires ValidFamily(seed, family) && multiset(sorted) == multiset(family)
    ensures ValidFamily(seed, sorted)
  {
    DistinctByCount(family);
    DistinctByCount(sorted);
    assert forall r :: (r in sorted <==> r in multiset(sorted)) && (r in family <==> r in multiset(family));
    assert |multiset(sorted)| == |sorted| && |multiset(family)| == |family|;
  }

  predicate FirstBad(represents: SymbolRef -> Representation, sorted: seq<SymbolRef>, i: nat) {
    i < |sorted| && represents(sorted[i]) != Unique && forall j | 0 <= j < i :: represents(sorted[j]) == Unique
  }

  /** The loop over the sorted members. */
  method FirstUnrepresented(represents: SymbolRef -> Representation, sorted: seq<SymbolRef>) returns (bad: Option<nat>)
    ensures bad.None? <==> forall r | r in sorted :: represents(r) == Unique
    ensures bad.Some? ==> bad.value < |sorted| && FirstBad(represents, sorted, bad.value)
                          && represents(sorted[bad.value]) != Unique
  {
    for i := 0 to |sorted|
      invariant forall j | 0 <= j < i :: represents(sorted[j]) == Unique
    {
      if represents(sorted[i]) != Unique {
        return Some(i);
      }
    }
    return None;
  }

  /** Each refusal has its cause, given the counters before the call. */
  ghost predicate Justified(found: Findings, represents: SymbolRef -> Representation,
                            items: nat, members: nat, reservedWork: nat, error: Rejection) {
    var seed, verified := found.seed, found.verified;
    match error
    case ExternalChange => !found.intact
    case SeedNotFound => found.owners == 0 || (found.owners == 1 && found.methods == 0)
    case SeedNotUnique => found.owners > 1 || (found.owners == 1 && found.methods > 1)
    case ResourceLimit =>
      || items >= MAX_ITEMS || reservedWork + DEFAULT_WORK > MAX_RESERVED_WORK
      || (verified.complete && ValidFamily(seed, verified.members) && members + |verified.members| > MAX_MEMBERS)
    case Incomplete => !verified.complete
    case InvalidFamily => verified.seed != seed || verified.pinned || !ValidFamily(seed, verified.members)
    case _ =>
      exists sorted: seq<SymbolRef>, i: nat ::
        && Sorted(sorted) && multiset(sorted) == multiset(verified.members) && FirstBad(represents, sorted, i)
        && represents(sorted[i]) == if error == NotRepresentable then Unrepresentable else SharedKey
  }

  class RelatedMethodPlanner {
    var items: nat
    var members: nat
    var reservedWork: nat

    constructor ()
      ensures items == 0 && members == 0 && reservedWork == 0
    {
      items, members, reservedWork := 0, 0, 0;
    }

    /** Counters grow even when the item is rejected, as in the source; an accepted item
        yields the verified family, sorted, and keeps every budget.  The first member in
        order that one key does not represent decides how the family is refused. */
    method Plan(found: Findings, represents: SymbolRef -> Representation)
      returns (plan: Result<seq<SymbolRef>, Rejection>)
      modifies this
      ensures items == old(items) + 1 && reservedWork >= old(reservedWork) && members >= old(members)
      ensures plan.Ok? ==>
                && found.intact && found.owners == 1 && found.methods == 1 && found.verified.complete
                && Sorted(plan.value) && multiset(plan.value) == multiset(found.verified.members)
                && ValidFamily(found.seed, plan.value) && found.verified.seed == found.seed && !found.verified.pinned
                && (forall r | r in plan.value :: represents(r) == Unique)
                && items <= 4 && reservedWork == old(reservedWork) + 200_000 <= 800_000
                && members == old(members) + |plan.value| <= 128
      ensures plan.Ok? <==>
                && old(items) < 4 && old(reservedWork) + 200_000 <= 800_000
                && found.intact && found.owners == 1 && found.methods == 1 && found.verified.complete
                && found.verified.seed == found.seed && !found.verified.pinned
                && ValidFamily(found.seed, found.verified.members) && old(members) + |found.verified.members| <= 128
                && forall r | r in found.verified.members :: represents(r) == Unique
      ensures plan.Err? ==>
                Justified(found, represents, old(items), old(members), old(reservedWork), plan.error)
    {
      var seed, verified := found.seed, found.verified;
      hide AtMost, Distinct, Sorted, ValidFamily, IsFamily, FirstBad;
      items := items + 1;
      if items > MAX_ITEMS {
        return Err(ResourceLimit);
      }
      reservedWork := reservedWork + DEFAULT_WORK;
      if reservedWork > MAX_RESERVED_WORK {
        return Err(ResourceLimit);
      }
      if !found.intact {
        return Err(ExternalChange);
      }
      if found.owners != 1 {
        return Err(if found.owners == 0 then SeedNotFound else SeedNotUnique);
      }
      if found.methods != 1 {
        return Err(if found.methods == 0 then SeedNotFound else SeedNotUnique);
      }
      if !verified.complete {
        return Err(Incomplete);
      }
      var family := verified.members;
      ValidationIsExact(seed, family);
      if verified.seed != seed || verified.pinned || !IsFamily(seed, family) {
        return Err(InvalidFamily);
      }
      members := members + |family|;
      if members > MAX_MEMBERS {
        return Err(ResourceLimit);
      }
      var sorted := SortMembers(family);
      SortedFamily(seed, family, sorted);
      SameMembers(family, sorted);
      var bad := FirstUnrepresented(represents, sorted);
      if bad.Some? {
        assert FirstBad(represents, sorted, bad.value) && sorted[bad.value] in family;
        return Err(if represents(sorted[bad.value]) == Unrepresentable then NotRepresentable else AmbiguousKey);
      }
      return Ok(sorted);
    }
  }

  function TotalMembers(plans: seq<seq<SymbolRef>>): nat {
    if plans == [] then 0 else TotalMembers(plans[..|plans| - 1]) + |plans[|plans| - 1]|
  }

  /** The planning loop of a batch (EditBatchService.java:78-89): a batch that gets through
      has at most four groups with at most 128 members between them, each group sorted,
      without repetition, made of methods, and containing the method that was asked for. */
  method PlanBatch(found: seq<Findings>, represents: SymbolRef -> Representation)
    returns (plans: Result<seq<seq<SymbolRef>>, Rejection>)
    ensures plans.Ok? ==>
              && |plans.value| == |found| <= 4 && TotalMembers(plans.value) <= 128
              && forall i | 0 <= i < |found| ::
                   Sorted(plans.value[i]) && ValidFamily(found[i].seed, plans.value[i])
                   && multiset(plans.value[i]) == multiset(found[i].verified.members)
    ensures |found| > 4 ==> plans.Err?
  {
    var planner := new RelatedMethodPlanner();
    var groups: seq<seq<SymbolRef>> := [];
    var i := 0;
    while i < |found|
      invariant 0 <= i <= |found| && |groups| == i && planner.items == i && fresh(planner)
      invariant i <= MAX_ITEMS && planner.members == TotalMembers(groups) <= MAX_MEMBERS
      invariant forall j | 0 <= j < i ::
                  && Sorted(groups[j]) && ValidFamily(found[j].seed, groups[j])
                  && multiset(groups[j]) == multiset(found[j].verified.members)
    {
      var plan := planner.Plan(found[i], represents);
      if plan.Err? {
        return Err(plan.error);
      }
      assert (groups + [plan.value])[..|groups|] == groups;
      groups := groups + [plan.value];
      i := i + 1;
    }
    return Ok(groups);
  }
}
