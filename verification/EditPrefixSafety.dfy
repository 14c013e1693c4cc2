/** Parameter renames and related-method groups (EditBatchService.java:302-364): what their
    validation guarantees for every part of a batch that may be committed. */
module EditPrefixSafety {
  import opened Common
  import opened EditCodeData
  import opened EditBatch
  import opened EditCollisions

  // ---- Parameters ------------------------------------------------------------------------

  /** A variable of an extracted method; `parameter` is its index if it is a parameter. */
  datatype Variable = Variable(declaredIn: SymbolRef, parameter: Option<nat>, displayName: string)

  function VariableName(edits: seq<Edit>, v: Variable): string {
    if v.parameter.None? then v.displayName
    else
      var alias := Written(edits, ParameterAlias(v.declaredIn, v.parameter.value));
      if alias.Some? then alias.value else v.displayName
  }

  predicate Overlapping(item: Planned, v: Variable) {
    && item.changed && item.edit.RenameParameter?
    && v.declaredIn == item.edit.target && v.parameter != Some(item.edit.index)
  }

  /** The name clashes now, or with what the batch proposes. */
  predicate VariableClash(plan: seq<Planned>, item: Planned, v: Variable) {
    Overlapping(item, v) && (item.edit.text == v.displayName || item.edit.text == VariableName(AllEdits(plan), v))
  }

  predicate VariablesClear(sources: map<string, seq<Variable>>, plan: seq<Planned>, item: Planned) {
    item.edit.target.owner in sources ==>
      forall k | 0 <= k < |sources[item.edit.target.owner]| ::
        !VariableClash(plan, item, sources[item.edit.target.owner][k])
  }

  predicate NoVariableClash(sources: map<string, seq<Variable>>, plan: seq<Planned>) {
    forall i | 0 <= i < |plan| :: VariablesClear(sources, plan, plan[i])
  }

  lemma AllEditsSnoc(plan: seq<Planned>, i: nat, slot: Slot)
    requires i < |plan|
    ensures Written(AllEdits(plan[..i + 1]), slot)
            == if Writes(plan[i].edit, slot) then Some(plan[i].edit.text) else Written(AllEdits(plan[..i]), slot)
  {
    assert AllEdits(plan[..i + 1])[..i] == AllEdits(plan[..i]);
  }

  method CollectProposed(plan: seq<Planned>) returns (proposed: map<(SymbolRef, nat), string>)
    ensures forall m: SymbolRef, p: nat :: Written(AllEdits(plan), ParameterAlias(m, p))
                           == if (m, p) in proposed then Some(proposed[(m, p)]) else None
  {
    proposed := map[];
    var i := 0;
    while i < |plan|
      invariant 0 <= i <= |plan|
      invariant forall m: SymbolRef, p: nat :: Written(AllEdits(plan[..i]), ParameterAlias(m, p))
                               == if (m, p) in proposed then Some(proposed[(m, p)]) else None
    {
      var edit := plan[i].edit;
      forall m: SymbolRef, p: nat ensures Written(AllEdits(plan[..i + 1]), ParameterAlias(m, p))
                          == if Writes(edit, ParameterAlias(m, p)) then Some(edit.text)
                             else Written(AllEdits(plan[..i]), ParameterAlias(m, p))
      {
        AllEditsSnoc(plan, i, ParameterAlias(m, p));
      }
      if edit.RenameParameter? {
        proposed := proposed[(edit.target, edit.index) := edit.text];
      }
      i := i + 1;
    }
    assert plan[..|plan|] == plan;
  }

  /** `validateParameterCollisions`; the sources of every renamed parameter were extracted. */
  method ValidateParameters(sources: map<string, seq<Variable>>, plan: seq<Planned>) returns (rejected: Option<nat>)
    requires forall i | 0 <= i < |plan| && plan[i].edit.RenameParameter? :: plan[i].edit.target.owner in sources
    ensures rejected.None? <==> NoVariableClash(sources, plan)
    ensures rejected.Some? ==>
              && rejected.value < |plan| && !VariablesClear(sources, plan, plan[rejected.value])
              && forall j | 0 <= j < rejected.value :: VariablesClear(sources, plan, plan[j])
  {
    var proposed := CollectProposed(plan);
    var i := 0;
    while i < |plan|
      invariant 0 <= i <= |plan|
      invariant forall j | 0 <= j < i :: VariablesClear(sources, plan, plan[j])
    {
      var item := plan[i];
      if item.edit.RenameParameter? && item.changed {
        var variables := sources[item.edit.target.owner];
        var k := 0;
        while k < |variables|
          invariant 0 <= k <= |variables|
          invariant forall m | 0 <= m < k :: !VariableClash(plan, item, variables[m])
        {
          var v := variables[k];
          if Overlapping(item, v) {
            var name := v.displayName;
            if item.edit.text == name {
              assert VariableClash(plan, plan[i], sources[plan[i].edit.target.owner][k]);
              return Some(i);
            }
            if v.parameter.Some? && (v.declaredIn, v.parameter.value) in proposed {
              name := proposed[(v.declaredIn, v.parameter.value)];
            }
            assert name == VariableName(AllEdits(plan), v);
            if item.edit.text == name {
              assert VariableClash(plan, plan[i], sources[plan[i].edit.target.owner][k]);
              return Some(i);
            }
          }
          k := k + 1;
        }
      }
      i := i + 1;
    }
    return None;
  }

  /** Two variables of one method share a name, and the first was renamed by the edits. */
  predicate Shadows(edits: seq<Edit>, a: Variable, b: Variable) {
    && a.declaredIn == b.declaredIn && a.parameter.Some? && b.parameter != a.parameter
    && Written(edits, ParameterAlias(a.declaredIn, a.parameter.value)).Some?
    && VariableName(edits, a) == VariableName(edits, b)
  }

  /** `chosen` are changes of the plan: any of them, in any order. */
  ghost predicate PartOf(chosen: seq<Edit>, plan: seq<Planned>) {
    forall e | e in chosen :: e in Changes(plan)
  }

  lemma PartOfAll(chosen: seq<Edit>, plan: seq<Planned>)
    requires PartOf(chosen, plan)
    ensures forall e | e in chosen :: e in AllEdits(plan)
  {
    ChangesAreInPlan(plan);
    forall e | e in chosen ensures e in AllEdits(plan) {
      var i :| 0 <= i < |plan| && plan[i].changed && plan[i].edit == e;
      assert AllEdits(plan)[i] == e;
    }
  }

  lemma ChangedItem(chosen: seq<Edit>, plan: seq<Planned>, slot: Slot) returns (i: nat)
    requires PartOf(chosen, plan) && Written(chosen, slot).Some?
    ensures i < |plan| && plan[i].changed && plan[i].edit in AllEdits(plan) && plan[i].edit in chosen
    ensures Writes(plan[i].edit, slot) && Written(chosen, slot) == Some(plan[i].edit.text)
  {
    WrittenBySomebody(chosen, slot);
    var c :| 0 <= c < |chosen| && Writes(chosen[c], slot) && chosen[c].text == Written(chosen, slot).value;
    ChangesAreInPlan(plan);
    var e := chosen[c];
    assert e in Changes(plan);
    i :| 0 <= i < |plan| && plan[i].changed && plan[i].edit == e;
    assert AllEdits(plan)[i] == e;
  }

  /** Any part of a validated batch of parameter renames is safe: no renamed parameter
      ends up with the name of another variable of its method. */
  lemma ParameterPartsAreSafe(sources: map<string, seq<Variable>>, plan: seq<Planned>, chosen: seq<Edit>,
                              a: Variable, b: Variable)
    requires Disjoint(AllEdits(plan)) && NoVariableClash(sources, plan) && PartOf(chosen, plan)
    requires a.declaredIn.owner in sources && b in sources[a.declaredIn.owner]
    ensures !Shadows(chosen, a, b)
  {
    if Shadows(chosen, a, b) {
      var edits := AllEdits(plan);
      PartOfAll(chosen, plan);
      var i := ChangedItem(chosen, plan, ParameterAlias(a.declaredIn, a.parameter.value));
      var k :| 0 <= k < |sources[a.declaredIn.owner]| && sources[a.declaredIn.owner][k] == b;
      assert VariablesClear(sources, plan, plan[i]);
      assert !VariableClash(plan, plan[i], sources[plan[i].edit.target.owner][k]);
      if b.parameter.Some? && Written(chosen, ParameterAlias(b.declaredIn, b.parameter.value)).Some? {
        var slot := ParameterAlias(b.declaredIn, b.parameter.value);
        var j := ChangedItem(chosen, plan, slot);
        WrittenFromPlan(edits, edits, plan[j].edit, slot);
      }
    }
  }

  /** An unchanged parameter item asks for the name the variable shows already. */
  ghost predicate KeepsDisplay(plan: seq<Planned>, v: Variable) {
    forall i | 0 <= i < |plan| && !plan[i].changed && plan[i].edit.RenameParameter?
               && plan[i].edit.target == v.declaredIn && v.parameter == Some(plan[i].edit.index) ::
      plan[i].edit.text == v.displayName
  }

  /** And nothing is rejected without need: a rejected pair does clash in some part. */
  lemma RejectedParametersClash(plan: seq<Planned>, i: nat, b: Variable) returns (chosen: seq<Edit>)
    requires i < |plan| && Disjoint(AllEdits(plan)) && VariableClash(plan, plan[i], b) && KeepsDisplay(plan, b)
    ensures PartOf(chosen, plan)
    ensures Shadows(chosen, Variable(b.declaredIn, Some(plan[i].edit.index), ""), b)
  {
    ChangesAreInPlan(plan);
    var edits, edit := AllEdits(plan), plan[i].edit;
    var slot := ParameterAlias(edit.target, edit.index);
    assert edits[i] == edit;
    chosen := [edit];
    assert chosen[..0] == [] && Written(chosen, slot) == Some(edit.text);
    if edit.text == b.displayName {
      assert b.parameter.Some? ==> Written(chosen, ParameterAlias(b.declaredIn, b.parameter.value)) == None;
    } else {
      var other := ParameterAlias(b.declaredIn, b.parameter.value);
      WrittenBySomebody(edits, other);
      var j :| 0 <= j < |edits| && Writes(edits[j], other) && edits[j].text == Written(edits, other).value;
      assert edits[j] == plan[j].edit && plan[j].changed;
      chosen := [plan[j].edit, edit];
      assert chosen[..1] == [plan[j].edit] && [plan[j].edit][..0] == [];
      assert Written([plan[j].edit], other) == Some(plan[j].edit.text);
      assert Written(chosen, other) == Some(plan[j].edit.text) && Written(chosen, slot) == Some(edit.text);
    }
  }

  // ---- Related-method groups ---------------------------------------------------------------

  /** A method of the raw inventory of one class, with the alias the mapping file gives it. */
  datatype RawMethod = RawMethod(ref: SymbolRef, mapped: Option<string>, displayName: string)

  function CurrentName(code: Code, m: RawMethod): string {
    var explicit := Lookup(code, Alias(m.ref));
    if explicit.Some? then explicit.value else if m.mapped.Some? then m.mapped.value else m.displayName
  }

  function ProposedName(code: Code, plan: seq<Planned>, m: RawMethod): string {
    var proposed := Written(AllEdits(plan), Alias(m.ref));
    if proposed.Some? then proposed.value else CurrentName(code, m)
  }

  predicate FamilyClash(code: Code, plan: seq<Planned>, alias: string, member: SymbolRef, other: RawMethod) {
    && other.ref != member && other.ref.arguments == member.arguments
    && (|| RenameCount(code.renames, other.ref, WholeDeclaration) > 1
        || alias == CurrentName(code, other) || alias == ProposedName(code, plan, other))
  }

  predicate MemberClear(code: Code, inventory: map<string, seq<RawMethod>>, plan: seq<Planned>,
                        alias: string, member: SymbolRef)
  {
    member.owner in inventory ==>
      forall k | 0 <= k < |inventory[member.owner]| ::
        !FamilyClash(code, plan, alias, member, inventory[member.owner][k])
  }

  predicate ItemClear(code: Code, inventory: map<string, seq<RawMethod>>, plan: seq<Planned>, item: Planned) {
    item.edit.RenameFamily? ==>
      forall m | 0 <= m < |item.edit.members| ::
        MemberClear(code, inventory, plan, item.edit.text, item.edit.members[m])
  }

  predicate NoFamilyClash(code: Code, inventory: map<string, seq<RawMethod>>, plan: seq<Planned>) {
    forall i | 0 <= i < |plan| :: ItemClear(code, inventory, plan, plan[i])
  }

  method CheckMember(code: Code, inventory: map<string, seq<RawMethod>>, ghost plan: seq<Planned>,
                     proposed: map<SymbolRef, string>, alias: string, member: SymbolRef) returns (ok: bool)
    requires member.owner in inventory
    requires forall ref :: Written(AllEdits(plan), Alias(ref)) == if ref in proposed then Some(proposed[ref]) else None
    ensures ok <==> MemberClear(code, inventory, plan, alias, member)
    ensures ok <==> forall other | other in inventory[member.owner] && other.ref != member
                                   && other.ref.arguments == member.arguments ::
              var explicit, wanted := Lookup(code, Alias(other.ref)), Written(AllEdits(plan), Alias(other.ref));
              var current := if explicit.Some? then explicit.value
                             else if other.mapped.Some? then other.mapped.value else other.displayName;
              && RenameCount(code.renames, other.ref, WholeDeclaration) <= 1
              && alias != current && alias != (if wanted.Some? then wanted.value else current)
  {
    var methods := inventory[member.owner];
    var k := 0;
    while k < |methods|
      invariant 0 <= k <= |methods|
      invariant forall n | 0 <= n < k :: !FamilyClash(code, plan, alias, member, methods[n])
    {
      var other := methods[k];
      if other.ref != member && other.ref.arguments == member.arguments {
        if RenameCount(code.renames, other.ref, WholeDeclaration) > 1 {
          assert FamilyClash(code, plan, alias, member, inventory[member.owner][k]);
          return false;
        }
        var current := CurrentName(code, other);
        if alias == current || alias == (if other.ref in proposed then proposed[other.ref] else current) {
          assert FamilyClash(code, plan, alias, member, inventory[member.owner][k]);
          return false;
        }
      }
      k := k + 1;
    }
    return true;
  }

  const MAX_INVENTORY: nat := 200_000

  /** The members of all groups, in order. */
  function FamilyMembers(plan: seq<Planned>): seq<SymbolRef> {
    if plan == [] then []
    else
      var last := plan[|plan| - 1].edit;
      FamilyMembers(plan[..|plan| - 1]) + if last.RenameFamily? then last.members else []
  }

  function Owners(members: seq<SymbolRef>): set<string> {
    set m | m in members :: m.owner
  }

  /** The methods read for these members: each declaring class once. */
  function MethodsRead(inventory: map<string, seq<RawMethod>>, members: seq<SymbolRef>): nat {
    if members == [] then 0
    else
      var front, owner := members[..|members| - 1], members[|members| - 1].owner;
      MethodsRead(inventory, front)
      + if owner in Owners(front) || owner !in inventory then 0 else |inventory[owner]|
  }

  lemma {:induction false} MethodsReadGrows(inventory: map<string, seq<RawMethod>>,
                                            a: seq<SymbolRef>, b: seq<SymbolRef>)
    ensures MethodsRead(inventory, a) <= MethodsRead(inventory, a + b)
  {
    if b == [] {
      assert a + b == a;
    } else {
      MethodsReadGrows(inventory, a, b[..|b| - 1]);
      assert (a + b)[..|a + b| - 1] == a + b[..|b| - 1];
    }
  }

  lemma FamilyMembersSnoc(plan: seq<Planned>, i: nat)
    requires i < |plan|
    ensures FamilyMembers(plan[..i + 1])
            == FamilyMembers(plan[..i]) + if plan[i].edit.RenameFamily? then plan[i].edit.members else []
  {
    assert plan[..i + 1][..i] == plan[..i];
  }

  lemma {:induction false} FamilyMembersOf(plan: seq<Planned>, i: nat)
    requires i <= |plan|
    ensures Owners(FamilyMembers(plan[..i])) <= Owners(FamilyMembers(plan))
    ensures forall inventory :: MethodsRead(inventory, FamilyMembers(plan[..i]))
                                <= MethodsRead(inventory, FamilyMembers(plan))
    decreases |plan| - i
  {
    if i == |plan| {
      assert plan[..i] == plan;
    } else {
      FamilyMembersOf(plan, i + 1);
      FamilyMembersSnoc(plan, i);
      var more := if plan[i].edit.RenameFamily? then plan[i].edit.members else [];
      forall inventory ensures MethodsRead(inventory, FamilyMembers(plan[..i]))
                               <= MethodsRead(inventory, FamilyMembers(plan)) {
        MethodsReadGrows(inventory, FamilyMembers(plan[..i]), more);
      }
      hide MethodsRead, FamilyMembers;
    }
  }

  /** What reading the inventories has come to after these members. */
  ghost predicate HasRead(inventory: map<string, seq<RawMethod>>, invalid: set<string>, members: seq<SymbolRef>,
                          loaded: set<string>, count: nat) {
    && loaded == Owners(members) && loaded !! invalid
    && count == MethodsRead(inventory, members) <= MAX_INVENTORY
  }

  /** Reads the class of one more member, unless it has been read before. */
  method ReadOwner(inventory: map<string, seq<RawMethod>>, invalid: set<string>, ghost members: seq<SymbolRef>,
                   member: SymbolRef, loaded0: set<string>, count0: nat)
    returns (fits: bool, valid: bool, loaded: set<string>, count: nat)
    requires member.owner in inventory && HasRead(inventory, invalid, members, loaded0, count0)
    ensures fits && valid ==> HasRead(inventory, invalid, members + [member], loaded, count)
    ensures !fits ==> MethodsRead(inventory, members + [member]) > 200_000
    ensures fits && valid ==> MethodsRead(inventory, members + [member]) <= 200_000
    ensures !valid ==> member.owner in invalid
  {
    assert (members + [member])[..|members|] == members;
    assert Owners(members + [member]) == Owners(members) + {member.owner};
    loaded, count := loaded0, count0;
    if member.owner !in loaded {
      if |inventory[member.owner]| > MAX_INVENTORY - count {
        return false, true, loaded, count;
      }
      if member.owner in invalid {
        return true, false, loaded, count;
      }
      loaded, count := loaded + {member.owner}, count + |inventory[member.owner]|;
    }
    return true, true, loaded, count;
  }

  datatype Refusal =
    | Overlap(index: nat) | InventoryLimit(index: nat) | InvalidInventory(index: nat) | Clash(index: nat)
    | ExternalChange

  /** The inventories can be read within the limit. */
  predicate Readable(inventory: map<string, seq<RawMethod>>, invalid: set<string>, members: seq<SymbolRef>) {
    MethodsRead(inventory, members) <= MAX_INVENTORY && Owners(members) !! invalid
  }

  lemma OneMore(before: seq<SymbolRef>, members: seq<SymbolRef>, m: nat)
    requires m < |members|
    ensures members[m] in members && before + members[..m + 1] == before + members[..m] + [members[m]]
    ensures members[..m + 1] == members[..m] + [members[m]]
  {
  }

  lemma TooMany(inventory: map<string, seq<RawMethod>>, invalid: set<string>, before: seq<SymbolRef>,
                members: seq<SymbolRef>, m: nat)
    requires m <= |members| && MethodsRead(inventory, before + members[..m]) > MAX_INVENTORY
    ensures !Readable(inventory, invalid, before + members)
  {
    MethodsReadGrows(inventory, before + members[..m], members[m..]);
    assert before + members == before + members[..m] + members[m..];
    hide MethodsRead;
  }

  /** The check of one group, after the members before it. */
  method CheckGroup(code: Code, inventory: map<string, seq<RawMethod>>, invalid: set<string>, ghost plan: seq<Planned>,
                    proposed: map<SymbolRef, string>, ghost before: seq<SymbolRef>, group: Edit, index: nat,
                    loaded0: set<string>, count0: nat)
    returns (refusal: Option<Refusal>, loaded: set<string>, count: nat)
    requires group.RenameFamily? && HasRead(inventory, invalid, before, loaded0, count0)
    requires forall m | m in group.members :: m.owner in inventory
    requires forall ref :: Written(AllEdits(plan), Alias(ref)) == if ref in proposed then Some(proposed[ref]) else None
    ensures refusal.None? ==>
              && HasRead(inventory, invalid, before + group.members, loaded, count)
              && forall m | m in group.members :: MemberClear(code, inventory, plan, group.text, m)
    ensures refusal.Some? ==>
              match refusal.value
              case InventoryLimit(i) => i == index && !Readable(inventory, invalid, before + group.members)
              case InvalidInventory(i) => i == index && exists m | m in group.members :: m.owner in invalid
              case Clash(i) =>
                i == index && exists m | m in group.members :: !MemberClear(code, inventory, plan, group.text, m)
              case _ => false
  {
    hide HasRead, MemberClear, MethodsRead, Readable, Owners, Written, AllEdits;
    loaded, count := loaded0, count0;
    var members := group.members;
    assert before + members[..0] == before;
    var m := 0;
    while m < |members|
      invariant 0 <= m <= |members| && HasRead(inventory, invalid, before + members[..m], loaded, count)
      invariant forall n | n in members[..m] :: MemberClear(code, inventory, plan, group.text, n)
    {
      OneMore(before, members, m);
      var fits, valid;
      fits, valid, loaded, count := ReadOwner(inventory, invalid, before + members[..m], members[m], loaded, count);
      if !fits {
        TooMany(inventory, invalid, before, members, m + 1);
        return Some(InventoryLimit(index)), loaded, count;
      }
      if !valid {
        return Some(InvalidInventory(index)), loaded, count;
      }
      var ok := CheckMember(code, inventory, plan, proposed, group.text, members[m]);
      if !ok {
        return Some(Clash(index)), loaded, count;
      }
      m := m + 1;
    }
    assert members[..m] == members;
    return None, loaded, count;
  }

  lemma GroupClear(code: Code, inventory: map<string, seq<RawMethod>>, plan: seq<Planned>, item: Planned)
    requires item.edit.RenameFamily?
    ensures ItemClear(code, inventory, plan, item) <==>
              forall m | m in item.edit.members :: MemberClear(code, inventory, plan, item.edit.text, m)
  {
    hide MemberClear;
    forall m | m in item.edit.members && ItemClear(code, inventory, plan, item)
      ensures MemberClear(code, inventory, plan, item.edit.text, m)
    {
      var k :| 0 <= k < |item.edit.members| && item.edit.members[k] == m;
    }
  }

  lemma NoGroup(code: Code, inventory: map<string, seq<RawMethod>>, plan: seq<Planned>, item: Planned)
    requires !item.edit.RenameFamily?
    ensures ItemClear(code, inventory, plan, item)
  {
  }

  /** A batch with related groups passes. */
  ghost predicate FamiliesPass(code: Code, inventory: map<string, seq<RawMethod>>, invalid: set<string>,
                               intact: bool, plan: seq<Planned>) {
    && NoOverlaps(AllEdits(plan)) && NoFamilyClash(code, inventory, plan)
    && Readable(inventory, invalid, FamilyMembers(plan)) && intact
  }

  /** A refused group makes the batch fail. */
  lemma GroupRefused(code: Code, inventory: map<string, seq<RawMethod>>, invalid: set<string>, intact: bool,
                     plan: seq<Planned>, i: nat, refusal: Refusal)
    requires i < |plan| && plan[i].edit.RenameFamily?
    requires match refusal
             case InventoryLimit(_) => !Readable(inventory, invalid, FamilyMembers(plan[..i + 1]))
             case InvalidInventory(_) => exists m | m in plan[i].edit.members :: m.owner in invalid
             case Clash(_) => !ItemClear(code, inventory, plan, plan[i])
             case _ => false
    ensures !FamiliesPass(code, inventory, invalid, intact, plan)
  {
    FamilyMembersOf(plan, i + 1);
    FamilyMembersSnoc(plan, i);
    hide FamilyMembers, MethodsRead, ItemClear;
    if refusal.InvalidInventory? {
      var m :| m in plan[i].edit.members && m.owner in invalid;
      assert m in FamilyMembers(plan[..i + 1]);
      assert m.owner in Owners(FamilyMembers(plan[..i + 1]));
    }
  }

  /** `validateRelatedBatch`: the raw inventories of the classes concerned are read once
      each and within a limit for the batch; `invalid` are those that cannot be represented
      and `intact` is whether the analysis files are as they were in the end. */
  method ValidateFamilies(code: Code, inventory: map<string, seq<RawMethod>>, invalid: set<string>, intact: bool,
                          plan: seq<Planned>)
    returns (refusal: Option<Refusal>)
    requires forall i, m | 0 <= i < |plan| && plan[i].edit.RenameFamily? && m in plan[i].edit.members ::
               m.owner in inventory
    ensures refusal.None? <==>
              (HasFamily(AllEdits(plan)) ==> FamiliesPass(code, inventory, invalid, intact, plan))
    ensures refusal.Some? ==>
              var edits := AllEdits(plan);
              match refusal.value
              case Overlap(i) => FirstRepetition(edits, i) || FirstMixture(edits, i)
              case InventoryLimit(i) =>
                i < |plan| && plan[i].edit.RenameFamily? && !Readable(inventory, invalid, FamilyMembers(plan[..i + 1]))
              case InvalidInventory(i) =>
                i < |plan| && plan[i].edit.RenameFamily? && exists m | m in plan[i].edit.members :: m.owner in invalid
              case Clash(i) => i < |plan| && !ItemClear(code, inventory, plan, plan[i])
              case ExternalChange => !intact && NoOverlaps(edits) && NoFamilyClash(code, inventory, plan)
    ensures refusal.Some? && !refusal.value.Overlap? && !refusal.value.ExternalChange? ==>
              forall j | 0 <= j < refusal.value.index && j < |plan| :: ItemClear(code, inventory, plan, plan[j])
  {
    var edits := AllEdits(plan);
    if !HasFamily(edits) {
      return None;
    }
    var rejected, proposed := ValidateOverlaps(edits);
    if rejected.Some? {
      return Some(Overlap(rejected.value));
    }
    var loaded: set<string>, count := {}, 0;
    assert FamilyMembers(plan[..0]) == [];
    assert HasRead(inventory, invalid, FamilyMembers(plan[..0]), loaded, count);
    var i := 0;
    while i < |plan|
      invariant 0 <= i <= |plan| && HasRead(inventory, invalid, FamilyMembers(plan[..i]), loaded, count)
      invariant forall j | 0 <= j < i :: ItemClear(code, inventory, plan, plan[j])
    {
      hide HasRead, ItemClear, MemberClear, FamilyMembers, MethodsRead, Readable, Owners, Written, NoOverlaps;
      FamilyMembersSnoc(plan, i);
      if plan[i].edit.RenameFamily? {
        ghost var before := FamilyMembers(plan[..i]);
        refusal, loaded, count := CheckGroup(code, inventory, invalid, plan, proposed, before, plan[i].edit, i,
                                             loaded, count);
        GroupClear(code, inventory, plan, plan[i]);
        if refusal.Some? {
          GroupRefused(code, inventory, invalid, intact, plan, i, refusal.value);
          return;
        }
      } else {
        NoGroup(code, inventory, plan, plan[i]);
        assert FamilyMembers(plan[..i]) + [] == FamilyMembers(plan[..i]);
      }
      i := i + 1;
    }
    assert plan[..i] == plan;
    return if intact then None else Some(ExternalChange);
  }

  /** Any part of a validated batch with related groups is safe on the code data itself:
      after staging it, no renamed family member shares its name with another method of
      its class that takes the same arguments. */
  lemma FamilyPartsAreSafe(code: Code, inventory: map<string, seq<RawMethod>>, plan: seq<Planned>, chosen: seq<Edit>,
                           a: RawMethod, b: RawMethod)
    requires Disjoint(AllEdits(plan)) && NoOverlaps(AllEdits(plan)) && NoFamilyClash(code, inventory, plan)
    requires PartOf(chosen, plan) && a.ref.kind == MethodKind
    requires a.ref.owner in inventory && b in inventory[a.ref.owner]
    requires a.ref != b.ref && a.ref.arguments == b.ref.arguments && Written(chosen, Alias(a.ref)).Some?
    ensures CurrentName(Fold(code, chosen), a) != CurrentName(Fold(code, chosen), b)
  {
    var edits := AllEdits(plan);
    FoldLookup(code, chosen, Alias(a.ref));
    FoldLookup(code, chosen, Alias(b.ref));
    PartOfAll(chosen, plan);
    var i := ChangedItem(chosen, plan, Alias(a.ref));
    var edit := plan[i].edit;
    assert !MixesWithFamilies(edits, edit);
    var m :| 0 <= m < |edit.members| && edit.members[m] == a.ref;
    assert ItemClear(code, inventory, plan, plan[i]);
    assert MemberClear(code, inventory, plan, edit.text, edit.members[m]);
    var k :| 0 <= k < |inventory[a.ref.owner]| && inventory[a.ref.owner][k] == b;
    assert !FamilyClash(code, plan, edit.text, a.ref, inventory[a.ref.owner][k]);
    if Written(chosen, Alias(b.ref)).Some? {
      var j := ChangedItem(chosen, plan, Alias(b.ref));
      WrittenFromPlan(edits, edits, plan[j].edit, Alias(b.ref));
    }
  }

  /** Some renamed member of a family shares its name with a method of its class that
      takes the same arguments. */
  ghost predicate FamilyShares(code: Code, inventory: map<string, seq<RawMethod>>, chosen: seq<Edit>) {
    exists a: RawMethod, b: RawMethod
      | a.ref.owner in inventory && b in inventory[a.ref.owner] && Written(chosen, Alias(a.ref)).Some? ::
      && a.ref.kind == MethodKind && a.ref != b.ref && a.ref.arguments == b.ref.arguments
      && CurrentName(Fold(code, chosen), a) == CurrentName(Fold(code, chosen), b)
  }

  /** Some renamed parameter has the name of another variable of its method. */
  ghost predicate ParameterShares(sources: map<string, seq<Variable>>, chosen: seq<Edit>) {
    exists a: Variable, b: Variable | a.declaredIn.owner in sources && b in sources[a.declaredIn.owner] ::
      Shadows(chosen, a, b)
  }

  /** What the staging loop commits of a batch that passed, wherever it stops.  No renamed
      parameter clashes in its method, and no member of a related group clashes in its
      class.  A declaration renamed on request clashes with a rival exactly if an item that
      was applied took the present name of a rival that only a later item renames. */
  lemma CommittedPrefixIsSafeExactly(code: Code, sources: map<string, seq<Variable>>,
                                     inventory: map<string, seq<RawMethod>>, visible: seq<Target>,
                                     plan: seq<Planned>, faults: seq<Option<nat>>)
    requires |faults| == |plan| && DistinctKeys(AllEdits(plan)) && NoVariableClash(sources, plan)
    requires HasFamily(AllEdits(plan)) ==> NoOverlaps(AllEdits(plan)) && NoFamilyClash(code, inventory, plan)
    ensures var committed := Changes(plan[..Cut(faults)]);
            && !ParameterShares(sources, committed)
            && (HasFamily(AllEdits(plan)) ==> !FamilyShares(code, inventory, committed))
            && (Checked(visible, plan) && NoCollisions(visible, plan) ==>
                  (NewClash(visible, committed) <==> TransientAcross(visible, plan, Cut(faults))))
  {
    var committed := Changes(plan[..Cut(faults)]);
    CheckedBatchIsDisjoint(AllEdits(plan));
    PrefixChanges(plan, Cut(faults));
    if ParameterShares(sources, committed) {
      var a: Variable, b: Variable :|
        a.declaredIn.owner in sources && b in sources[a.declaredIn.owner] && Shadows(committed, a, b);
      ParameterPartsAreSafe(sources, plan, committed, a, b);
    }
    if HasFamily(AllEdits(plan)) && FamilyShares(code, inventory, committed) {
      var a: RawMethod, b: RawMethod :|
        a.ref.owner in inventory && b in inventory[a.ref.owner] && Written(committed, Alias(a.ref)).Some?
        && a.ref.kind == MethodKind && a.ref != b.ref && a.ref.arguments == b.ref.arguments
        && CurrentName(Fold(code, committed), a) == CurrentName(Fold(code, committed), b);
      FamilyPartsAreSafe(code, inventory, plan, committed, a, b);
    }
    if Checked(visible, plan) && NoCollisions(visible, plan) {
      PrefixIsUnsafeExactlyAcrossTransients(visible, plan, Cut(faults));
    }
  }
}
