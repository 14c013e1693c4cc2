/** Staging of a validated edit batch (EditBatchService.java:134-231). */
module EditBatch {
  import opened Common
  import opened EditCodeData

  /** A visible declaration: its current name and where names must differ. */
  datatype Target = Target(ref: SymbolRef, displayName: string, scope: string)

  /** One validated item.  `changed` is false when it would write what is already there. */
  datatype Planned = Planned(index: nat, edit: Edit, target: Target, changed: bool)

  datatype Status = Applied | NoChange | Failed | NotExecuted

  datatype ItemResult = ItemResult(index: nat, status: Status)

  predicate WellFormed(plan: seq<Planned>) {
    forall i | 0 <= i < |plan| :: plan[i].index == i && plan[i].target.ref == plan[i].edit.target
  }

  /** The edits that change something, in order. */
  function Changes(plan: seq<Planned>): seq<Edit> {
    if plan == [] then []
    else Changes(plan[..|plan| - 1]) + (if plan[|plan| - 1].changed then [plan[|plan| - 1].edit] else [])
  }

  function AllEdits(plan: seq<Planned>): seq<Edit> {
    seq(|plan|, i requires 0 <= i < |plan| => plan[i].edit)
  }

  /** Where an exception stops the batch: at item i when `faults[i]` is Some(k), after k
      members of a family were renamed in the private copy. */
  function Cut(faults: seq<Option<nat>>): (cut: nat)
    ensures cut <= |faults|
    ensures forall i | 0 <= i < cut :: faults[i].None?
    ensures cut < |faults| ==> faults[cut].Some?
  {
    if faults == [] || faults[0].Some? then 0
    else
      var rest := Cut(faults[1..]);
      assert forall i | 0 < i < 1 + rest :: faults[i] == faults[1..][i - 1];
      1 + rest
  }

  lemma ChangesSnoc(plan: seq<Planned>, i: nat)
    requires i < |plan|
    ensures Changes(plan[..i + 1]) == Changes(plan[..i]) + if plan[i].changed then [plan[i].edit] else []
  {
    assert plan[..i + 1][..i] == plan[..i];
  }

  /** The first n results of a batch that an exception stops at `cut`: an item that was
      executed is applied exactly if it changes something. */
  predicate Reports(plan: seq<Planned>, cut: nat, results: seq<ItemResult>, n: nat) {
    && n <= |plan| && |results| == n
    && forall i | 0 <= i < n ::
         && results[i].index == i
         && (results[i].status == Applied <==> i < cut && plan[i].changed)
         && (results[i].status == NoChange <==> i < cut && !plan[i].changed)
         && (results[i].status == Failed <==> i == cut)
         && (results[i].status == NotExecuted <==> i > cut)
  }

  /** The edits of the items reported as applied, in order. */
  function AppliedEdits(plan: seq<Planned>, results: seq<ItemResult>): seq<Edit>
    requires |results| <= |plan|
  {
    if results == [] then []
    else
      var last := |results| - 1;
      AppliedEdits(plan, results[..last]) + if results[last].status == Applied then [plan[last].edit] else []
  }

  lemma {:induction false} AppliedAreChanges(plan: seq<Planned>, cut: nat, results: seq<ItemResult>, n: nat)
    requires Reports(plan, cut, results, n)
    ensures AppliedEdits(plan, results) == Changes(plan[..if cut < n then cut else n])
  {
    if n > 0 {
      AppliedAreChanges(plan, cut, results[..n - 1], n - 1);
      if cut >= n { ChangesSnoc(plan, n - 1); }
    }
  }

  lemma FoldSnoc(code: Code, edits: seq<Edit>, edit: Edit)
    ensures Fold(code, edits + [edit]) == Apply(Fold(code, edits), edit)
  {
    assert (edits + [edit])[..|edits|] == edits;
  }

  lemma StageOne(code: Code, plan: seq<Planned>, i: nat)
    requires i < |plan|
    ensures var before := Fold(code, Changes(plan[..i]));
            Fold(code, Changes(plan[..i + 1])) == if plan[i].changed then Apply(before, plan[i].edit) else before
  {
    hide Fold, Apply, Changes;
    ChangesSnoc(plan, i);
    FoldSnoc(code, Changes(plan[..i]), plan[i].edit);
    assert Changes(plan[..i]) + [] == Changes(plan[..i]);
  }

  lemma StageNone(code: Code, plan: seq<Planned>)
    ensures Fold(code, Changes(plan[..0])) == code
  {
  }

  /** The edit of one item on a private copy, member by member for a family.  When the
      item fails, the copy is left half written; the caller drops it. */
  method ApplyTo(candidate: NativeCodeData, edit: Edit, fault: Option<nat>) returns (ok: bool)
    modifies candidate
    ensures ok == fault.None?
    ensures ok ==> candidate.Data() == Apply(old(candidate.Data()), edit)
  {
    match edit {
      case RenameFamily(_, members, text) =>
        var member := 0;
        while member < |members|
          invariant 0 <= member <= |members|
          invariant fault.Some? ==> member <= fault.value
          invariant candidate.Data()
                    == old(candidate.Data()).(renames := RenameAll(old(candidate.renames), members[..member], text))
        {
          if fault == Some(member) {
            return false;
          }
          candidate.SetRename(members[member], text);
          assert members[..member + 1][..member] == members[..member];
          member := member + 1;
        }
        assert members[..|members|] == members;
        return fault.None?;
      case RenameDeclaration(target, text) =>
        if fault.Some? { return false; }
        candidate.SetRename(target, text);
      case RenameParameter(target, index, text) =>
        if fault.Some? { return false; }
        candidate.SetParameterRename(target, index, text);
      case CommentDeclaration(target, text) =>
        if fault.Some? { return false; }
        candidate.SetComment(target, text);
    }
    return true;
  }

  /** The staging loop.  The staged data is the fold of exactly the edits reported as
      applied, a prefix of the changes; a failing item contributes nothing, whatever it had
      done; there is one result per item and the admitted data is not touched. */
  method Stage(admitted: NativeCodeData, plan: seq<Planned>, faults: seq<Option<nat>>)
    returns (working: NativeCodeData, results: seq<ItemResult>, failedAt: int)
    requires WellFormed(plan) && |faults| == |plan|
    ensures -1 <= failedAt < |plan| && |results| == |plan|
    ensures forall i | 0 <= i < |plan| && (failedAt < 0 || i < failedAt) ::
              faults[i].None? && results[i] == ItemResult(i, if plan[i].changed then Applied else NoChange)
    ensures failedAt >= 0 ==> faults[failedAt].Some? && results[failedAt] == ItemResult(failedAt, Failed)
    ensures failedAt >= 0 ==> forall i | failedAt < i < |plan| :: results[i] == ItemResult(i, NotExecuted)
    ensures fresh(working) && working.Data() == Fold(admitted.Data(), AppliedEdits(plan, results))
    ensures working.Data() == Fold(admitted.Data(), Changes(plan[..Cut(faults)]))
    ensures failedAt == if Cut(faults) < |plan| then Cut(faults) else -1
  {
    hide Changes, Fold, Apply, AppliedEdits;
    ghost var cut, data := Cut(faults), admitted.Data();
    StageNone(data, plan);
    working := new NativeCodeData(admitted.Data());
    results := [];
    failedAt := -1;
    var i := 0;
    while i < |plan| && failedAt < 0
      invariant 0 <= i <= |plan| && i <= cut && fresh(working)
      invariant failedAt == -1 || (failedAt == cut == i && cut < |plan|)
      invariant working.Data() == Fold(data, Changes(plan[..i]))
      invariant Reports(plan, cut, results, if failedAt < 0 then i else cut + 1)
      decreases |plan| - i, failedAt < 0
    {
      var item := plan[i];
      var ok := faults[i].None?;
      StageOne(data, plan, i);
      if item.changed {
        var candidate := new NativeCodeData(working.Data());
        ok := ApplyTo(candidate, item.edit, faults[i]);
        if ok {
          working := candidate;
        }
      }
      if ok {
        results := results + [ItemResult(item.index, if item.changed then Applied else NoChange)];
        i := i + 1;
      } else {
        failedAt := item.index;
        results := results + [ItemResult(item.index, Failed)];
      }
    }
    if failedAt >= 0 {
      var k := failedAt + 1;
      while k < |plan|
        invariant cut < k <= |plan| && Reports(plan, cut, results, k)
      {
        results := results + [ItemResult(plan[k].index, NotExecuted)];
        k := k + 1;
      }
    }
    AppliedAreChanges(plan, cut, results, |plan|);
  }

  /** The three outcomes of a batch that was not rejected. */
  datatype Outcome = NoChanges | AllApplied | Partial

  /** From the staging loop to the answer.  Data is committed exactly if some item was
      applied, and is then the fold of exactly the applied edits; without a failing item
      that is all changes of the plan. */
  method RunBatch(admitted: NativeCodeData, plan: seq<Planned>, faults: seq<Option<nat>>)
    returns (outcome: Outcome, results: seq<ItemResult>, committed: Option<Code>)
    requires WellFormed(plan) && |faults| == |plan|
    ensures |results| == |plan|
    ensures committed.Some? <==> exists i | 0 <= i < |plan| :: results[i].status == Applied
    ensures committed.Some? ==> committed.value == Fold(admitted.Data(), AppliedEdits(plan, results))
    ensures outcome == Partial <==> exists i | 0 <= i < |plan| :: results[i].status == Failed
    ensures outcome == AllApplied <==> committed.Some? && outcome != Partial
    ensures outcome == AllApplied ==> committed == Some(Fold(admitted.Data(), Changes(plan)))
    ensures outcome == NoChanges ==> forall i | 0 <= i < |plan| :: !plan[i].changed && results[i].status == NoChange
  {
    hide Fold, Changes, AppliedEdits;
    var working, failedAt;
    working, results, failedAt := Stage(admitted, plan, faults);
    var effective := exists i | 0 <= i < |results| :: results[i].status == Applied;
    assert plan[..|plan|] == plan;
    committed := if effective then Some(working.Data()) else None;
    outcome := if failedAt >= 0 then Partial else if effective then AllApplied else NoChanges;
  }

  /** Every change that can be committed is a change of the plan. */
  lemma {:induction false} ChangesAreInPlan(plan: seq<Planned>)
    ensures forall e | e in Changes(plan) :: exists i | 0 <= i < |plan| :: plan[i].changed && plan[i].edit == e
    ensures forall i | 0 <= i < |plan| && plan[i].changed :: plan[i].edit in Changes(plan)
  {
    if plan != [] {
      var front := plan[..|plan| - 1];
      ChangesAreInPlan(front);
      forall e | e in Changes(plan) ensures exists i | 0 <= i < |plan| :: plan[i].changed && plan[i].edit == e {
        if e in Changes(front) {
          var i :| 0 <= i < |front| && front[i].changed && front[i].edit == e;
          assert plan[i] == front[i];
        }
      }
      forall i | 0 <= i < |plan| && plan[i].changed ensures plan[i].edit in Changes(plan) {
        if i < |front| { assert front[i] == plan[i]; }
      }
    }
  }

  lemma PrefixChanges(plan: seq<Planned>, cut: nat)
    requires cut <= |plan|
    ensures forall e | e in Changes(plan[..cut]) :: e in Changes(plan)
  {
    ChangesAreInPlan(plan[..cut]);
    ChangesAreInPlan(plan);
    forall e | e in Changes(plan[..cut]) ensures e in Changes(plan) {
      var i :| 0 <= i < cut && plan[..cut][i].changed && plan[..cut][i].edit == e;
      assert plan[i].changed && plan[i].edit == e;
    }
  }

  // ---- Keys and overlaps: no two items write one slot ------------------------------------

  /** The native declaration key of an item. */
  function KeyOf(edit: Edit): Slot {
    match edit
    case RenameDeclaration(target, _) => Alias(target)
    case RenameFamily(target, _, _) => Alias(target)
    case RenameParameter(target, index, _) => ParameterAlias(target, index)
    case CommentDeclaration(target, _) => LineComment(target)
  }

  /** The key of an item is the one slot it writes; a family has the alias of its seed. */
  lemma KeyIsTheSlot(edit: Edit)
    ensures !edit.RenameFamily? ==> forall slot :: Writes(edit, slot) <==> slot == KeyOf(edit)
    ensures edit.RenameFamily? ==>
              KeyOf(edit) == Alias(edit.target) && (Writes(edit, KeyOf(edit)) <==> edit.target in edit.members)
  {
  }

  predicate DistinctKeys(edits: seq<Edit>) {
    forall i, j | 0 <= i < j < |edits| :: KeyOf(edits[i]) != KeyOf(edits[j])
  }

  /** The `editedKeys` check; the first item that repeats a key is rejected. */
  method CheckKeys(edits: seq<Edit>) returns (rejected: Option<nat>)
    ensures rejected.None? <==> DistinctKeys(edits)
    ensures rejected.Some? ==>
              var i := rejected.value;
              i < |edits| && DistinctKeys(edits[..i]) && exists j | 0 <= j < i :: KeyOf(edits[j]) == KeyOf(edits[i])
  {
    var editedKeys: set<Slot> := {};
    var i := 0;
    while i < |edits|
      invariant 0 <= i <= |edits| && DistinctKeys(edits[..i])
      invariant forall key :: key in editedKeys <==> exists j | 0 <= j < i :: KeyOf(edits[j]) == key
    {
      if KeyOf(edits[i]) in editedKeys {
        return Some(i);
      }
      editedKeys := editedKeys + {KeyOf(edits[i])};
      i := i + 1;
    }
    assert edits[..|edits|] == edits;
    return None;
  }

  /** Every declaration that some RENAME item gives a name to, with repetitions. */
  function Claims(edits: seq<Edit>): seq<SymbolRef> {
    if edits == [] then []
    else Claims(edits[..|edits| - 1]) + if IsRename(edits[|edits| - 1]) then Affected(edits[|edits| - 1]) else []
  }

  predicate NoRepetition(refs: seq<SymbolRef>) {
    forall i, j | 0 <= i < j < |refs| :: refs[i] != refs[j]
  }

  /** What may not share a batch with related propagation. */
  predicate MixesWithFamilies(edits: seq<Edit>, item: Edit) {
    || (IsRename(item) && item.target.kind == ClassKind)
    || (item.RenameDeclaration? && item.target.kind == MethodKind)
    || (item.RenameParameter? && exists g | g in edits :: g.RenameFamily? && item.target in g.members)
  }

  predicate NoOverlaps(edits: seq<Edit>) {
    NoRepetition(Claims(edits)) && forall e | e in edits :: !MixesWithFamilies(edits, e)
  }

  lemma ClaimsSnoc(edits: seq<Edit>, i: nat)
    requires i < |edits|
    ensures Claims(edits[..i + 1]) == Claims(edits[..i]) + if IsRename(edits[i]) then Affected(edits[i]) else []
  {
    assert edits[..i + 1][..i] == edits[..i];
  }

  lemma ClaimsPrefix(edits: seq<Edit>, i: nat)
    requires i <= |edits|
    ensures Claims(edits[..i]) <= Claims(edits)
    decreases |edits| - i
  {
    if i < |edits| {
      ClaimsSnoc(edits, i);
      ClaimsPrefix(edits, i + 1);
    } else {
      assert edits[..i] == edits;
    }
  }

  lemma RepetitionStays(front: seq<SymbolRef>, whole: seq<SymbolRef>)
    requires front <= whole && NoRepetition(whole)
    ensures NoRepetition(front)
  {
    assert forall i | 0 <= i < |front| :: front[i] == whole[i];
  }

  method CollectFamilies(edits: seq<Edit>) returns (grouped: set<SymbolRef>)
    ensures forall ref :: ref in grouped <==> exists g | g in edits :: g.RenameFamily? && ref in g.members
  {
    grouped := {};
    var i := 0;
    while i < |edits|
      invariant 0 <= i <= |edits|
      invariant forall ref :: ref in grouped <==>
                  exists j | 0 <= j < i :: edits[j].RenameFamily? && ref in edits[j].members
    {
      if edits[i].RenameFamily? {
        grouped := grouped + set ref | ref in edits[i].members;
      }
      i := i + 1;
    }
  }

  lemma Repeats(claimed: seq<SymbolRef>, ref: SymbolRef, upTo: seq<SymbolRef>)
    requires ref in claimed && claimed + [ref] <= upTo
    ensures !NoRepetition(upTo)
  {
    var i :| 0 <= i < |claimed| && claimed[i] == ref;
    assert (claimed + [ref])[i] == ref && (claimed + [ref])[|claimed|] == ref;
  }

  /** Claims the declarations of one item, unless one is already claimed. */
  method ClaimAll(ghost claims: seq<SymbolRef>, proposed: map<SymbolRef, string>, refs: seq<SymbolRef>, text: string)
    returns (ok: bool, after: map<SymbolRef, string>)
    requires NoRepetition(claims) && forall ref :: ref in proposed <==> ref in claims
    ensures ok <==> NoRepetition(claims + refs)
    ensures ok ==> forall ref :: ref in after <==> ref in claims || ref in refs
    ensures ok ==> forall ref | ref in after ::
                     after[ref] == if ref in refs then text else if ref in proposed then proposed[ref] else ""
  {
    after := proposed;
    var k := 0;
    while k < |refs|
      invariant 0 <= k <= |refs| && NoRepetition(claims + refs[..k])
      invariant forall ref :: ref in after <==> ref in claims + refs[..k]
      invariant forall ref | ref in after ::
                  after[ref] == if ref in refs[..k] then text else if ref in proposed then proposed[ref] else ""
    {
      assert claims + refs[..k + 1] == (claims + refs[..k]) + [refs[k]];
      if refs[k] in after {
        Repeats(claims + refs[..k], refs[k], claims + refs);
        return false, after;
      }
      after := after[refs[k] := text];
      k := k + 1;
    }
    assert refs[..k] == refs;
    return true, after;
  }

  lemma WrittenSnoc(edits: seq<Edit>, i: nat, slot: Slot)
    requires i < |edits|
    ensures Written(edits[..i + 1], slot)
            == if Writes(edits[i], slot) then Some(edits[i].text) else Written(edits[..i], slot)
  {
    assert edits[..i + 1][..i] == edits[..i];
  }

  /** Item i is the first that claims a declaration again. */
  predicate FirstRepetition(edits: seq<Edit>, i: nat) {
    i < |edits| && NoRepetition(Claims(edits[..i])) && !NoRepetition(Claims(edits[..i + 1]))
  }

  /** Nothing is claimed twice, and item i is the first that may not share the batch. */
  predicate FirstMixture(edits: seq<Edit>, i: nat) {
    && i < |edits| && NoRepetition(Claims(edits)) && MixesWithFamilies(edits, edits[i])
    && forall j | 0 <= j < i :: !MixesWithFamilies(edits, edits[j])
  }

  /** The first loop of `validateRelatedOverlaps`. */
  method ClaimBatch(edits: seq<Edit>) returns (rejected: Option<nat>, proposed: map<SymbolRef, string>)
    ensures rejected.None? <==> NoRepetition(Claims(edits))
    ensures rejected.None? ==>
              forall ref :: Written(edits, Alias(ref)) == if ref in proposed then Some(proposed[ref]) else None
    ensures rejected.Some? ==> FirstRepetition(edits, rejected.value)
  {
    proposed := map[];
    var i := 0;
    while i < |edits|
      invariant 0 <= i <= |edits| && NoRepetition(Claims(edits[..i]))
      invariant forall ref :: ref in proposed <==> ref in Claims(edits[..i])
      invariant forall ref :: Written(edits[..i], Alias(ref)) == if ref in proposed then Some(proposed[ref]) else None
    {
      ClaimsSnoc(edits, i);
      forall ref ensures Written(edits[..i + 1], Alias(ref))
                         == if Writes(edits[i], Alias(ref)) then Some(edits[i].text)
                             else Written(edits[..i], Alias(ref))
      {
        WrittenSnoc(edits, i, Alias(ref));
      }
      if IsRename(edits[i]) {
        ghost var claims := Claims(edits[..i]);
        var ok, after := ClaimAll(claims, proposed, Affected(edits[i]), edits[i].text);
        if !ok {
          ClaimsPrefix(edits, i + 1);
          if NoRepetition(Claims(edits)) { RepetitionStays(Claims(edits[..i + 1]), Claims(edits)); }
          return Some(i), proposed;
        }
        proposed := after;
      }
      i := i + 1;
    }
    assert edits[..|edits|] == edits;
    return None, proposed;
  }

  /** `validateRelatedOverlaps`, which also returns every proposed name. */
  method ValidateOverlaps(edits: seq<Edit>) returns (rejected: Option<nat>, proposed: map<SymbolRef, string>)
    ensures rejected.None? <==> NoOverlaps(edits)
    ensures rejected.None? <==>
              && NoRepetition(Claims(edits))
              && forall e | e in edits ::
                   && (IsRename(e) ==> e.target.kind != ClassKind)
                   && (e.RenameDeclaration? ==> e.target.kind != MethodKind)
                   && (e.RenameParameter? ==> forall g | g in edits && g.RenameFamily? :: e.target !in g.members)
    ensures rejected.None? ==>
              forall ref :: Written(edits, Alias(ref)) == if ref in proposed then Some(proposed[ref]) else None
    ensures rejected.Some? ==> FirstRepetition(edits, rejected.value) || FirstMixture(edits, rejected.value)
  {
    rejected, proposed := ClaimBatch(edits);
    if rejected.Some? {
      return;
    }
    var grouped := CollectFamilies(edits);
    var j := 0;
    while j < |edits|
      invariant 0 <= j <= |edits|
      invariant forall k | 0 <= k < j :: !MixesWithFamilies(edits, edits[k])
    {
      var item := edits[j];
      if (IsRename(item) && item.target.kind == ClassKind)
         || (item.RenameDeclaration? && item.target.kind == MethodKind)
         || (item.RenameParameter? && item.target in grouped) {
        assert MixesWithFamilies(edits, item);
        return Some(j), proposed;
      }
      j := j + 1;
    }
  }

  predicate HasFamily(edits: seq<Edit>) {
    exists e | e in edits :: e.RenameFamily?
  }

  lemma SharedElement(front: seq<SymbolRef>, a: seq<SymbolRef>, b: seq<SymbolRef>, ref: SymbolRef)
    requires front <= a && ref in front && ref in b
    ensures !NoRepetition(a + b)
  {
    var x :| 0 <= x < |front| && front[x] == ref;
    var y :| 0 <= y < |b| && b[y] == ref;
    assert (a + b)[x] == ref && (a + b)[|a| + y] == ref;
  }

  lemma ClaimedTwice(edits: seq<Edit>, i: nat, j: nat, ref: SymbolRef)
    requires i < j < |edits| && IsRename(edits[i]) && IsRename(edits[j])
    requires ref in Affected(edits[i]) && ref in Affected(edits[j])
    ensures !NoRepetition(Claims(edits))
  {
    ClaimsSnoc(edits, i);
    ClaimsSnoc(edits, j);
    ClaimsPrefix(edits[..j], i + 1);
    assert edits[..j][..i + 1] == edits[..i + 1];
    ClaimsPrefix(edits, j + 1);
    hide Claims;
    if NoRepetition(Claims(edits)) {
      RepetitionStays(Claims(edits[..j + 1]), Claims(edits));
      SharedElement(Claims(edits[..i + 1]), Claims(edits[..j]), Affected(edits[j]), ref);
    }
  }

  /** The two checks together: no two items of an accepted batch write one slot. */
  lemma CheckedBatchIsDisjoint(edits: seq<Edit>)
    requires DistinctKeys(edits) && (HasFamily(edits) ==> NoRepetition(Claims(edits)))
    ensures Disjoint(edits)
  {
    forall i, j, slot | 0 <= i < j < |edits| ensures !(Writes(edits[i], slot) && Writes(edits[j], slot)) {
      if Writes(edits[i], slot) && Writes(edits[j], slot) {
        assert KeyOf(edits[i]) != KeyOf(edits[j]);
        assert edits[i] in edits && edits[j] in edits;
        ClaimedTwice(edits, i, j, slot.ref);
      }
    }
  }
}
