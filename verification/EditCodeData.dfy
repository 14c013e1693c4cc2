/** Native code data and the edits on it (JadxNativeEditAdapter.java:115-194).

    The lists are what is stored; `Lookup` is what they mean.  One fact about each edit,
    that it writes exactly its slots, carries everything proved about batches. */
module EditCodeData {
  import opened Common

  datatype Kind = ClassKind | MethodKind | FieldKind

  /** An original declaration.  Its native key is determined by it, so it stands for both. */
  datatype SymbolRef = SymbolRef(kind: Kind, owner: string, name: string, arguments: string, result: string)

  datatype CodeRef = WholeDeclaration | MethodArgument(index: nat) | OtherCode(id: int)

  datatype Rename = Rename(key: SymbolRef, at: CodeRef, name: string)

  datatype Comment = Comment(key: SymbolRef, at: CodeRef, line: bool, text: string)

  datatype Code = Code(renames: seq<Rename>, comments: seq<Comment>)

  /** The places a native edit can write. */
  datatype Slot = Alias(ref: SymbolRef) | ParameterAlias(ref: SymbolRef, index: nat) | LineComment(ref: SymbolRef)

  predicate Renames(r: Rename, key: SymbolRef, at: CodeRef) {
    r.key == key && r.at == at
  }

  predicate Annotates(c: Comment, key: SymbolRef) {
    c.key == key && c.at == WholeDeclaration && c.line
  }

  function FirstRename(renames: seq<Rename>, key: SymbolRef, at: CodeRef): Option<string> {
    if renames == [] then None
    else if Renames(renames[0], key, at) then Some(renames[0].name)
    else FirstRename(renames[1..], key, at)
  }

  function FirstComment(comments: seq<Comment>, key: SymbolRef): Option<string> {
    if comments == [] then None
    else if Annotates(comments[0], key) then Some(comments[0].text)
    else FirstComment(comments[1..], key)
  }

  function RenameCount(renames: seq<Rename>, key: SymbolRef, at: CodeRef): nat {
    if renames == [] then 0
    else (if Renames(renames[0], key, at) then 1 else 0) + RenameCount(renames[1..], key, at)
  }

  /** What the code data says about one slot. */
  function Lookup(code: Code, slot: Slot): Option<string> {
    match slot
    case Alias(ref) => FirstRename(code.renames, ref, WholeDeclaration)
    case ParameterAlias(ref, index) => FirstRename(code.renames, ref, MethodArgument(index))
    case LineComment(ref) => FirstComment(code.comments, ref)
  }

  // ---- The three list edits ---------------------------------------------------------

  /** Replace the first rename of the declaration, or append one. */
  function Renamed(renames: seq<Rename>, key: SymbolRef, name: string): seq<Rename> {
    if renames == [] then [Rename(key, WholeDeclaration, name)]
    else if Renames(renames[0], key, WholeDeclaration) then [Rename(key, WholeDeclaration, name)] + renames[1..]
    else [renames[0]] + Renamed(renames[1..], key, name)
  }

  function Without(renames: seq<Rename>, key: SymbolRef, at: CodeRef): seq<Rename> {
    if renames == [] then []
    else (if Renames(renames[0], key, at) then [] else [renames[0]]) + Without(renames[1..], key, at)
  }

  function Commented(comments: seq<Comment>, key: SymbolRef, text: string): seq<Comment> {
    if comments == [] then [Comment(key, WholeDeclaration, true, text)]
    else if Annotates(comments[0], key) then [Comment(key, WholeDeclaration, true, text)] + comments[1..]
    else [comments[0]] + Commented(comments[1..], key, text)
  }

  lemma {:induction false} RenamedLookup(renames: seq<Rename>, key: SymbolRef, name: string,
                                       other: SymbolRef, at: CodeRef)
    ensures FirstRename(Renamed(renames, key, name), other, at)
            == if other == key && at == WholeDeclaration then Some(name) else FirstRename(renames, other, at)
  {
    if renames != [] && !Renames(renames[0], key, WholeDeclaration) {
      RenamedLookup(renames[1..], key, name, other, at);
    }
  }

  lemma {:induction false} CommentedLookup(comments: seq<Comment>, key: SymbolRef, text: string, other: SymbolRef)
    ensures FirstComment(Commented(comments, key, text), other)
            == if other == key then Some(text) else FirstComment(comments, other)
  {
    if comments != [] && !Annotates(comments[0], key) {
      CommentedLookup(comments[1..], key, text, other);
    }
  }

  lemma {:induction false} WithoutLookup(renames: seq<Rename>, key: SymbolRef, at: CodeRef, last: Rename,
                                         other: SymbolRef, where: CodeRef)
    requires last.key == key && last.at == at
    ensures FirstRename(Without(renames, key, at) + [last], other, where)
            == if other == key && where == at then Some(last.name) else FirstRename(renames, other, where)
  {
    var rest := Without(renames, key, at) + [last];
    if renames == [] {
      assert rest == [last];
    } else {
      WithoutLookup(renames[1..], key, at, last, other, where);
      var tail := Without(renames[1..], key, at) + [last];
      if Renames(renames[0], key, at) {
        assert rest == tail;
      } else {
        assert rest == [renames[0]] + tail && rest[1..] == tail;
      }
    }
  }

  /** A rename never leaves a declaration with more than one record, if it had at most one. */
  lemma {:induction false} RenamedCount(renames: seq<Rename>, key: SymbolRef, name: string,
                                       other: SymbolRef, at: CodeRef)
    ensures RenameCount(Renamed(renames, key, name), other, at)
            == if other == key && at == WholeDeclaration && RenameCount(renames, other, at) == 0
               then 1 else RenameCount(renames, other, at)
  {
    if renames != [] && !Renames(renames[0], key, WholeDeclaration) {
      RenamedCount(renames[1..], key, name, other, at);
    }
  }

  /** JadxCodeData: two lists that every edit reassigns. */
  class NativeCodeData {
    var renames: seq<Rename>
    var comments: seq<Comment>

    constructor (code: Code)
      ensures Data() == code
    {
      renames, comments := code.renames, code.comments;
    }

    function Data(): Code
      reads this
    {
      Code(renames, comments)
    }

    method SetRename(key: SymbolRef, name: string)
      modifies this
      ensures Data() == Code(Renamed(old(renames), key, name), old(comments))
    {
      var i := 0;
      while i < |renames|
        invariant 0 <= i <= |renames|
        invariant renames == old(renames) && comments == old(comments)
        invariant Renamed(old(renames), key, name) == renames[..i] + Renamed(renames[i..], key, name)
      {
        if Renames(renames[i], key, WholeDeclaration) {
          assert renames[i..][1..] == renames[i + 1..];
          renames := renames[i := Rename(key, WholeDeclaration, name)];
          return;
        }
        assert renames[i..][1..] == renames[i + 1..];
        i := i + 1;
      }
      renames := renames + [Rename(key, WholeDeclaration, name)];
    }

    method SetParameterRename(key: SymbolRef, index: nat, name: string)
      modifies this
      ensures Data() == Code(Without(old(renames), key, MethodArgument(index))
                             + [Rename(key, MethodArgument(index), name)], old(comments))
    {
      var kept: seq<Rename> := [];
      var i := 0;
      while i < |renames|
        invariant 0 <= i <= |renames|
        invariant renames == old(renames) && comments == old(comments)
        invariant Without(old(renames), key, MethodArgument(index))
                  == kept + Without(renames[i..], key, MethodArgument(index))
      {
        assert renames[i..][1..] == renames[i + 1..];
        if !Renames(renames[i], key, MethodArgument(index)) {
          kept := kept + [renames[i]];
        }
        i := i + 1;
      }
      renames := kept + [Rename(key, MethodArgument(index), name)];
    }

    method SetComment(key: SymbolRef, text: string)
      modifies this
      ensures Data() == Code(old(renames), Commented(old(comments), key, text))
    {
      var i := 0;
      while i < |comments|
        invariant 0 <= i <= |comments|
        invariant renames == old(renames) && comments == old(comments)
        invariant Commented(old(comments), key, text) == comments[..i] + Commented(comments[i..], key, text)
      {
        if Annotates(comments[i], key) {
          assert comments[i..][1..] == comments[i + 1..];
          comments := comments[i := Comment(key, WholeDeclaration, true, text)];
          return;
        }
        assert comments[i..][1..] == comments[i + 1..];
        i := i + 1;
      }
      comments := comments + [Comment(key, WholeDeclaration, true, text)];
    }
  }

  // ---- Edits as values ----------------------------------------------------------------

  datatype Edit =
    | RenameDeclaration(target: SymbolRef, text: string)
    | RenameFamily(target: SymbolRef, members: seq<SymbolRef>, text: string)
    | RenameParameter(target: SymbolRef, index: nat, text: string)
    | CommentDeclaration(target: SymbolRef, text: string)

  predicate IsRename(edit: Edit) { edit.RenameDeclaration? || edit.RenameFamily? }

  /** The declarations a RENAME item gives its new name to. */
  function Affected(edit: Edit): seq<SymbolRef>
    requires IsRename(edit)
  {
    if edit.RenameFamily? then edit.members else [edit.target]
  }

  predicate Writes(edit: Edit, slot: Slot) {
    match edit
    case RenameDeclaration(target, _) => slot == Alias(target)
    case RenameFamily(_, members, _) => slot.Alias? && slot.ref in members
    case RenameParameter(target, index, _) => slot == ParameterAlias(target, index)
    case CommentDeclaration(target, _) => slot == LineComment(target)
  }

  function RenameAll(renames: seq<Rename>, members: seq<SymbolRef>, name: string): seq<Rename> {
    if members == [] then renames
    else Renamed(RenameAll(renames, members[..|members| - 1], name), members[|members| - 1], name)
  }

  function Apply(code: Code, edit: Edit): Code {
    match edit
    case RenameDeclaration(target, text) => code.(renames := Renamed(code.renames, target, text))
    case RenameFamily(_, members, text) => code.(renames := RenameAll(code.renames, members, text))
    case RenameParameter(target, index, text) =>
      code.(renames := Without(code.renames, target, MethodArgument(index))
                       + [Rename(target, MethodArgument(index), text)])
    case CommentDeclaration(target, text) => code.(comments := Commented(code.comments, target, text))
  }

  lemma {:induction false} RenameAllLookup(renames: seq<Rename>, members: seq<SymbolRef>, name: string,
                                           other: SymbolRef, at: CodeRef)
    ensures FirstRename(RenameAll(renames, members, name), other, at)
            == if other in members && at == WholeDeclaration then Some(name) else FirstRename(renames, other, at)
  {
    if members != [] {
      var front := members[..|members| - 1];
      assert members == front + [members[|members| - 1]];
      RenameAllLookup(renames, front, name, other, at);
      RenamedLookup(RenameAll(renames, front, name), members[|members| - 1], name, other, at);
    }
  }

  lemma RenamesLookup(renames: seq<Rename>, edit: Edit, other: SymbolRef, at: CodeRef)
    requires at == WholeDeclaration || at.MethodArgument?
    ensures FirstRename(Apply(Code(renames, []), edit).renames, other, at)
            == var slot := if at == WholeDeclaration then Alias(other) else ParameterAlias(other, at.index);
               if Writes(edit, slot) then Some(edit.text) else FirstRename(renames, other, at)
  {
    match edit
    case RenameDeclaration(target, text) => RenamedLookup(renames, target, text, other, at);
    case RenameFamily(_, members, text) => RenameAllLookup(renames, members, text, other, at);
    case RenameParameter(target, index, text) =>
      WithoutLookup(renames, target, MethodArgument(index), Rename(target, MethodArgument(index), text), other, at);
    case CommentDeclaration(_, _) =>
  }

  /** An edit writes exactly its slots, with its text, and disturbs no other. */
  lemma ApplyWrites(code: Code, edit: Edit, slot: Slot)
    ensures Lookup(Apply(code, edit), slot) == if Writes(edit, slot) then Some(edit.text) else Lookup(code, slot)
  {
    match slot
    case LineComment(ref) =>
      if edit.CommentDeclaration? { CommentedLookup(code.comments, edit.target, edit.text, ref); }
    case Alias(ref) => RenamesLookup(code.renames, edit, ref, WholeDeclaration);
    case ParameterAlias(ref, index) => RenamesLookup(code.renames, edit, ref, MethodArgument(index));
  }

  /** Edits one after another. */
  function Fold(code: Code, edits: seq<Edit>): Code {
    if edits == [] then code else Apply(Fold(code, edits[..|edits| - 1]), edits[|edits| - 1])
  }

  /** What a list of edits says about a slot: its last writer's text. */
  function Written(edits: seq<Edit>, slot: Slot): Option<string> {
    if edits == [] then None
    else if Writes(edits[|edits| - 1], slot) then Some(edits[|edits| - 1].text)
    else Written(edits[..|edits| - 1], slot)
  }

  lemma {:induction false} FoldLookup(code: Code, edits: seq<Edit>, slot: Slot)
    ensures Lookup(Fold(code, edits), slot)
            == if Written(edits, slot).Some? then Written(edits, slot) else Lookup(code, slot)
  {
    if edits != [] {
      FoldLookup(code, edits[..|edits| - 1], slot);
      ApplyWrites(Fold(code, edits[..|edits| - 1]), edits[|edits| - 1], slot);
    }
  }

  /** No two edits write the same slot. */
  ghost predicate Disjoint(edits: seq<Edit>) {
    forall i, j, slot | 0 <= i < j < |edits| :: !(Writes(edits[i], slot) && Writes(edits[j], slot))
  }

  /** Somebody wrote what `Written` reports, and it reports nothing only if nobody did. */
  lemma {:induction false} WrittenBySomebody(edits: seq<Edit>, slot: Slot)
    ensures Written(edits, slot).Some? ==>
              exists i | 0 <= i < |edits| :: Writes(edits[i], slot) && edits[i].text == Written(edits, slot).value
    ensures Written(edits, slot).None? ==> forall i | 0 <= i < |edits| :: !Writes(edits[i], slot)
  {
    if edits != [] {
      var front := edits[..|edits| - 1];
      WrittenBySomebody(front, slot);
      assert forall i | 0 <= i < |front| :: front[i] == edits[i];
    }
  }

  /** In a disjoint plan a slot has one text, whichever of its edits were applied, in
      whatever order. */
  lemma WrittenFromPlan(plan: seq<Edit>, chosen: seq<Edit>, edit: Edit, slot: Slot)
    requires Disjoint(plan) && (forall e | e in chosen :: e in plan) && edit in plan && Writes(edit, slot)
    ensures Written(chosen, slot) == if edit in chosen then Some(edit.text) else None
  {
    WrittenBySomebody(chosen, slot);
    if Written(chosen, slot).Some? {
      var i :| 0 <= i < |chosen| && Writes(chosen[i], slot) && chosen[i].text == Written(chosen, slot).value;
      assert chosen[i] in plan && chosen[i] == edit;
    }
  }

  /** Permuting a batch of disjoint edits commits the same aliases and comments. */
  lemma PermutedBatchMeansTheSame(code: Code, a: seq<Edit>, b: seq<Edit>, slot: Slot)
    requires Disjoint(a) && multiset(a) == multiset(b)
    ensures Lookup(Fold(code, a), slot) == Lookup(Fold(code, b), slot)
  {
    FoldLookup(code, a, slot);
    FoldLookup(code, b, slot);
    assert forall e :: (e in a <==> e in multiset(a)) && (e in b <==> e in multiset(b));
    WrittenBySomebody(a, slot);
    if Written(a, slot).Some? {
      var i :| 0 <= i < |a| && Writes(a[i], slot) && a[i].text == Written(a, slot).value;
      WrittenFromPlan(a, b, a[i], slot);
    } else {
      WrittenBySomebody(b, slot);
      forall j | 0 <= j < |b| ensures !Writes(b[j], slot) {
        assert b[j] in a;
      }
    }
  }
}
