/** Collision checks for ordinary declaration renames (EditBatchService.java:239-273), and
    exactly how much they guarantee. */
module EditCollisions {
  import opened Common
  import opened EditCodeData
  import opened EditBatch

  /** Two declarations whose names must differ. */
  predicate Rivals(a: Target, b: Target) {
    && a.ref != b.ref && a.ref.kind == b.ref.kind && a.scope == b.scope
    && (a.ref.kind == MethodKind ==> a.ref.arguments == b.ref.arguments)
  }

  /** The name a declaration shows once the edits are in force. */
  function NameAfter(edits: seq<Edit>, declared: Target): string {
    var alias := Written(edits, Alias(declared.ref));
    if alias.Some? then alias.value else declared.displayName
  }

  /** Some edit is a rename asked for this declaration; of a family, for its seed. */
  predicate Asked(edits: seq<Edit>, ref: SymbolRef) {
    exists i | 0 <= i < |edits| :: IsRename(edits[i]) && edits[i].target == ref
  }

  /** Some declaration that was renamed on request has the name of a rival. */
  ghost predicate NewClash(visible: seq<Target>, edits: seq<Edit>) {
    exists a, b | a in visible && b in visible ::
      && a.ref != b.ref && a.ref.kind == b.ref.kind && a.scope == b.scope
      && (a.ref.kind == MethodKind ==> a.ref.arguments == b.ref.arguments)
      && Asked(edits, a.ref) && NameAfter(edits, a) == NameAfter(edits, b)
  }

  /** The clash is one between rivals. */
  lemma ClashOfRivals(visible: seq<Target>, edits: seq<Edit>, a: Target, b: Target)
    requires a in visible && b in visible && Rivals(a, b) && Asked(edits, a.ref)
    requires NameAfter(edits, a) == NameAfter(edits, b)
    ensures NewClash(visible, edits)
  {
    hide Asked, NameAfter;
  }

  lemma ClashingRivals(visible: seq<Target>, edits: seq<Edit>) returns (a: Target, b: Target)
    requires NewClash(visible, edits)
    ensures a in visible && b in visible && Rivals(a, b) && Asked(edits, a.ref)
    ensures NameAfter(edits, a) == NameAfter(edits, b)
  {
    hide Asked, NameAfter;
    a, b :| && a in visible && b in visible
            && a.ref != b.ref && a.ref.kind == b.ref.kind && a.scope == b.scope
            && (a.ref.kind == MethodKind ==> a.ref.arguments == b.ref.arguments)
            && Asked(edits, a.ref) && NameAfter(edits, a) == NameAfter(edits, b);
  }

  predicate Renaming(item: Planned) {
    item.changed && IsRename(item.edit)
  }

  predicate Collides(plan: seq<Planned>, item: Planned, other: Target) {
    Renaming(item) && Rivals(item.target, other) && item.edit.text == NameAfter(Changes(plan), other)
  }

  predicate NoCollisions(visible: seq<Target>, plan: seq<Planned>) {
    forall i, k | 0 <= i < |plan| && 0 <= k < |visible| :: !Collides(plan, plan[i], visible[k])
  }

  // ---- The check --------------------------------------------------------------------

  method NameMembers(renamed: map<SymbolRef, string>, refs: seq<SymbolRef>, text: string)
    returns (after: map<SymbolRef, string>)
    ensures forall ref :: ref in after <==> ref in renamed || ref in refs
    ensures forall ref | ref in after ::
              after[ref] == if ref in refs then text else if ref in renamed then renamed[ref] else ""
  {
    after := renamed;
    var k := 0;
    while k < |refs|
      invariant 0 <= k <= |refs|
      invariant forall ref :: ref in after <==> ref in renamed || ref in refs[..k]
      invariant forall ref | ref in after ::
                  after[ref] == if ref in refs[..k] then text else if ref in renamed then renamed[ref] else ""
    {
      assert refs[..k + 1] == refs[..k] + [refs[k]];
      after := after[refs[k] := text];
      k := k + 1;
    }
    assert refs[..k] == refs;
  }

  lemma ChangesWritten(plan: seq<Planned>, i: nat, ref: SymbolRef)
    requires i < |plan|
    ensures Written(Changes(plan[..i + 1]), Alias(ref))
            == if Renaming(plan[i]) && ref in Affected(plan[i].edit)
               then Some(plan[i].edit.text) else Written(Changes(plan[..i]), Alias(ref))
  {
    ChangesSnoc(plan, i);
    var before, edit := Changes(plan[..i]), plan[i].edit;
    if plan[i].changed {
      assert (before + [edit])[..|before|] == before;
    } else {
      assert before + [] == before;
    }
  }

  /** The final name of every renamed declaration. */
  method CollectNames(plan: seq<Planned>) returns (renamed: map<SymbolRef, string>)
    ensures forall ref :: Written(Changes(plan), Alias(ref)) == if ref in renamed then Some(renamed[ref]) else None
  {
    renamed := map[];
    var i := 0;
    while i < |plan|
      invariant 0 <= i <= |plan|
      invariant forall ref ::
                  Written(Changes(plan[..i]), Alias(ref)) == if ref in renamed then Some(renamed[ref]) else None
    {
      forall ref ensures Written(Changes(plan[..i + 1]), Alias(ref))
                         == if Renaming(plan[i]) && ref in Affected(plan[i].edit)
                            then Some(plan[i].edit.text) else Written(Changes(plan[..i]), Alias(ref))
      {
        ChangesWritten(plan, i, ref);
      }
      if Renaming(plan[i]) {
        renamed := NameMembers(renamed, Affected(plan[i].edit), plan[i].edit.text);
      }
      i := i + 1;
    }
    assert plan[..|plan|] == plan;
  }

  /** `validateCollisions`: the first item whose final name meets the final name of a
      rival is rejected, and a batch passes only if there is none. */
  method ValidateCollisions(classes: seq<Target>, members: seq<Target>, plan: seq<Planned>)
    returns (rejected: Option<nat>)
    requires forall c | c in classes :: c.ref.kind == ClassKind
    requires forall m | m in members :: m.ref.kind != ClassKind
    ensures rejected.None? <==> NoCollisions(classes + members, plan)
    ensures rejected.Some? ==>
              && rejected.value < |plan| && (exists other | other in classes + members ::
                    Collides(plan, plan[rejected.value], other))
              && forall i, other | 0 <= i < rejected.value && other in classes + members ::
                   !Collides(plan, plan[i], other)
  {
    var renamed := CollectNames(plan);
    var visible := classes + members;
    var i := 0;
    while i < |plan|
      invariant 0 <= i <= |plan|
      invariant forall j, other | 0 <= j < i && other in visible :: !Collides(plan, plan[j], other)
    {
      var item := plan[i];
      if Renaming(item) {
        var pool := if item.target.ref.kind == ClassKind then classes else members;
        var k := 0;
        while k < |pool|
          invariant 0 <= k <= |pool|
          invariant forall m | 0 <= m < k :: !Collides(plan, item, pool[m])
        {
          var other := pool[k];
          if Rivals(item.target, other)
             && item.edit.text == (if other.ref in renamed then renamed[other.ref] else other.displayName) {
            assert other in visible && Collides(plan, item, other);
            assert exists m | 0 <= m < |visible| :: visible[m] == other;
            return Some(i);
          }
          k := k + 1;
        }
        forall other | other in visible ensures !Collides(plan, item, other) {
          if other in pool {
            var m :| 0 <= m < |pool| && pool[m] == other;
          }
        }
      }
      i := i + 1;
    }
    forall j, k | 0 <= j < |plan| && 0 <= k < |visible| ensures !Collides(plan, plan[j], visible[k]) {
      assert visible[k] in visible;
    }
    return None;
  }

  // ---- What the check guarantees -----------------------------------------------------

  /** A batch whose items share no slot, whose families contain their seeds, and whose
      renamed targets are visible. */
  ghost predicate Checked(visible: seq<Target>, plan: seq<Planned>) {
    && WellFormed(plan) && Disjoint(AllEdits(plan))
    && (forall i | 0 <= i < |plan| && plan[i].edit.RenameFamily? :: plan[i].edit.target in plan[i].edit.members)
    && (forall i | 0 <= i < |plan| && Renaming(plan[i]) ::
          plan[i].target in visible && forall d | d in visible && d.ref == plan[i].target.ref :: d == plan[i].target)
  }

  /** In a prefix, the names item i gives are in force exactly if it reaches beyond i. */
  lemma PrefixWrites(visible: seq<Target>, plan: seq<Planned>, k: nat, i: nat, ref: SymbolRef)
    requires Checked(visible, plan) && k <= |plan| && i < |plan| && plan[i].changed && Writes(plan[i].edit, Alias(ref))
    ensures Written(Changes(plan[..k]), Alias(ref)) == if i < k then Some(plan[i].edit.text) else None
  {
    var edits, chosen, slot := AllEdits(plan), Changes(plan[..k]), Alias(ref);
    ChangesAreInPlan(plan[..k]);
    assert edits[i] == plan[i].edit && Writes(edits[i], slot);
    forall e | e in chosen ensures e in edits {
      var j :| 0 <= j < k && plan[..k][j].changed && plan[..k][j].edit == e;
      assert edits[j] == e;
    }
    WrittenFromPlan(edits, chosen, edits[i], slot);
    if i < k {
      assert plan[..k][i] == plan[i];
    } else {
      forall j | 0 <= j < k ensures plan[..k][j].edit != edits[i] {
        assert edits[j] == plan[..k][j].edit;
        assert !Writes(edits[j], slot);
      }
    }
  }

  /** A changed rename is asked for its target, and writes it. */
  lemma TargetWritten(visible: seq<Target>, plan: seq<Planned>, k: nat, i: nat)
    requires Checked(visible, plan) && i < k <= |plan| && Renaming(plan[i])
    ensures Writes(plan[i].edit, Alias(plan[i].target.ref)) && Asked(Changes(plan[..k]), plan[i].target.ref)
    ensures NameAfter(Changes(plan[..k]), plan[i].target) == plan[i].edit.text
  {
    ChangesAreInPlan(plan[..k]);
    assert plan[..k][i] == plan[i] && plan[i].edit in Changes(plan[..k]);
    PrefixWrites(visible, plan, k, i, plan[i].target.ref);
  }

  lemma ChangeAt(plan: seq<Planned>, k: nat, c: nat) returns (i: nat)
    requires k <= |plan| && c < |Changes(plan[..k])|
    ensures i < k && plan[i].changed && plan[i].edit == Changes(plan[..k])[c]
  {
    ChangesAreInPlan(plan[..k]);
    var e := Changes(plan[..k])[c];
    assert e in Changes(plan[..k]);
    i :| 0 <= i < k && plan[..k][i].changed && plan[..k][i].edit == e;
  }

  /** A declaration a prefix renames on request is the target of an item of it. */
  lemma PrefixAsker(visible: seq<Target>, plan: seq<Planned>, k: nat, a: Target) returns (i: nat)
    requires Checked(visible, plan) && k <= |plan| && a in visible && Asked(Changes(plan[..k]), a.ref)
    ensures i < k && Renaming(plan[i]) && plan[i].target == a
  {
    var c :| 0 <= c < |Changes(plan[..k])| && IsRename(Changes(plan[..k])[c]) && Changes(plan[..k])[c].target == a.ref;
    i := ChangeAt(plan, k, c);
    assert plan[i].target.ref == a.ref;
  }

  /** A declaration named by a prefix was named by an item of it. */
  lemma PrefixWriter(plan: seq<Planned>, k: nat, ref: SymbolRef) returns (i: nat)
    requires k <= |plan| && Written(Changes(plan[..k]), Alias(ref)).Some?
    ensures i < k && plan[i].changed && Writes(plan[i].edit, Alias(ref))
  {
    WrittenBySomebody(Changes(plan[..k]), Alias(ref));
    var c :| 0 <= c < |Changes(plan[..k])| && Writes(Changes(plan[..k])[c], Alias(ref));
    i := ChangeAt(plan, k, c);
  }

  /** The check is exact for the whole batch: it passes if and only if applying every item
      gives no declaration renamed on request the name of a rival.  Batches that also hold
      related groups are included. */
  lemma WholeBatchIsExact(visible: seq<Target>, plan: seq<Planned>)
    requires Checked(visible, plan)
    ensures NoCollisions(visible, plan) <==> !NewClash(visible, Changes(plan))
  {
    hide NewClash, Rivals, NameAfter, Asked;
    assert plan[..|plan|] == plan;
    if NewClash(visible, Changes(plan)) {
      var a, b := ClashingRivals(visible, Changes(plan));
      var i := PrefixAsker(visible, plan, |plan|, a);
      TargetWritten(visible, plan, |plan|, i);
      assert Collides(plan, plan[i], b);
    }
    if !NoCollisions(visible, plan) {
      var i, k :| 0 <= i < |plan| && 0 <= k < |visible| && Collides(plan, plan[i], visible[k]);
      TargetWritten(visible, plan, |plan|, i);
      assert visible[k] in visible && Rivals(plan[i].target, visible[k]);
      ClashOfRivals(visible, Changes(plan), plan[i].target, visible[k]);
    }
  }

  /** An alias that equals the present name of a rival which only a later item renames. */
  predicate Transient(a: Planned, b: Planned, other: Target) {
    Renaming(a) && Renaming(b) && Rivals(a.target, other) && Writes(b.edit, Alias(other.ref))
    && a.edit.text == other.displayName
  }

  ghost predicate TransientAcross(visible: seq<Target>, plan: seq<Planned>, k: nat) {
    exists i, j, other | 0 <= i < k <= j < |plan| && other in visible :: Transient(plan[i], plan[j], other)
  }

  lemma ClashCrosses(visible: seq<Target>, plan: seq<Planned>, k: nat)
    requires Checked(visible, plan) && NoCollisions(visible, plan) && k <= |plan|
    requires NewClash(visible, Changes(plan[..k]))
    ensures TransientAcross(visible, plan, k)
  {
    hide NewClash, Rivals, Asked;
    var edits := Changes(plan[..k]);
    var a, b := ClashingRivals(visible, edits);
    var i := PrefixAsker(visible, plan, k, a);
    TargetWritten(visible, plan, k, i);
    var at :| 0 <= at < |visible| && visible[at] == b;
    assert !Collides(plan, plan[i], visible[at]);
    assert plan[..|plan|] == plan;
    if Written(Changes(plan), Alias(b.ref)).Some? {
      var j := PrefixWriter(plan, |plan|, b.ref);
      PrefixWrites(visible, plan, |plan|, j, b.ref);
      PrefixWrites(visible, plan, k, j, b.ref);
      assert j >= k && Transient(plan[i], plan[j], b);
    } else if Written(edits, Alias(b.ref)).Some? {
      var j := PrefixWriter(plan, k, b.ref);
      PrefixWrites(visible, plan, |plan|, j, b.ref);
    }
  }

  /** Exactly when a prefix of a batch that passed is unsafe: an item of it gives an alias
      that is the present name of a rival which only an item beyond it renames. */
  lemma PrefixIsUnsafeExactlyAcrossTransients(visible: seq<Target>, plan: seq<Planned>, k: nat)
    requires Checked(visible, plan) && NoCollisions(visible, plan) && k <= |plan|
    ensures NewClash(visible, Changes(plan[..k])) <==> TransientAcross(visible, plan, k)
  {
    hide NewClash, Rivals, Asked;
    if NewClash(visible, Changes(plan[..k])) {
      ClashCrosses(visible, plan, k);
    }
    if TransientAcross(visible, plan, k) {
      var i, j, other :| 0 <= i < k <= j < |plan| && other in visible && Transient(plan[i], plan[j], other);
      TargetWritten(visible, plan, k, i);
      PrefixWrites(visible, plan, k, j, other.ref);
      ClashOfRivals(visible, Changes(plan[..k]), plan[i].target, other);
    }
  }

  ghost predicate TransientClash(visible: seq<Target>, plan: seq<Planned>) {
    exists i, j, other | 0 <= i < j < |plan| && other in visible :: Transient(plan[i], plan[j], other)
  }

  /** So every prefix is safe if and only if no item's alias is the present name of a rival
      that a later item renames. */
  lemma PrefixesAreSafeExactlyWithoutTransients(visible: seq<Target>, plan: seq<Planned>)
    requires Checked(visible, plan) && NoCollisions(visible, plan)
    ensures (forall k | 0 <= k <= |plan| :: !NewClash(visible, Changes(plan[..k]))) <==> !TransientClash(visible, plan)
  {
    hide NewClash, Transient, Checked, NoCollisions;
    forall k | 0 <= k <= |plan|
      ensures NewClash(visible, Changes(plan[..k])) <==> TransientAcross(visible, plan, k)
    {
      PrefixIsUnsafeExactlyAcrossTransients(visible, plan, k);
    }
    if TransientClash(visible, plan) {
      var i, j, other :| 0 <= i < j < |plan| && other in visible && Transient(plan[i], plan[j], other);
      assert TransientAcross(visible, plan, j);
    }
  }

  function Field(name: string): Target {
    Target(SymbolRef(FieldKind, "LDemo;", name, "", "I"), name, "Demo")
  }

  function SwapPlan(): seq<Planned> {
    [Planned(0, RenameDeclaration(Field("a").ref, "b"), Field("a"), true),
     Planned(1, RenameDeclaration(Field("b").ref, "a"), Field("b"), true)]
  }

  /** Swapping two names passes, yet its first half alone makes them equal. */
  lemma SwapPassesButItsPrefixClashes()
    ensures var visible, plan := [Field("a"), Field("b")], SwapPlan();
            && Checked(visible, plan) && NoCollisions(visible, plan)
            && NewClash(visible, Changes(plan[..1]))
  {
    hide NewClash;
    var a, b, plan := Field("a"), Field("b"), SwapPlan();
    var visible, edits := [a, b], AllEdits(plan);
    assert "a"[0] != "b"[0] && a.ref != b.ref;
    assert edits == [plan[0].edit, plan[1].edit];
    assert Checked(visible, plan);
    assert plan[..2] == plan;
    TargetWritten(visible, plan, 2, 0);
    TargetWritten(visible, plan, 2, 1);
    assert NoCollisions(visible, plan);
    TargetWritten(visible, plan, 1, 0);
    PrefixWrites(visible, plan, 1, 1, b.ref);
    assert a in visible && b in visible && Rivals(a, b);
    ClashOfRivals(visible, Changes(plan[..1]), a, b);
  }
}
