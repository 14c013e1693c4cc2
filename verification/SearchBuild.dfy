/** An index build (SearchService.java:232-341): one first pass in class order, which copies
    members and source texts, and two consistency passes over the texts.

    The extractor is any function of the pass and the owner, since each owner is extracted
    at most once in a pass; it may throw, give nothing, or be cancelled. */
module SearchBuild {
  import opened Common
  import opened SearchIndex

  datatype Extraction = Threw | Unavailable | Source(fragment: Fragment) | Cancelled

  datatype Listing = ListingFailed | Listed(members: Members) | ListingCancelled

  /** A class and the owner of its source, its outermost class. */
  datatype Class = Class(descriptor: Owner, owner: Owner)

  /** What the build is run on. */
  datatype World = World(
    extract: (nat, Owner) -> Extraction,
    members: Owner -> Listing,
    noCode: Owner -> bool,           // JavaClass.isNoCode()
    emptySynthetic: Owner -> bool)   // suppressed without source for a verified reason

  /** What one owner has come to after the passes so far: the status last written for it,
      and the snapshot the build last emitted, if it still counts as emitted. */
  datatype Progress = Progress(written: Status, emitted: Option<int>)

  function AfterSource(max: nat, f: Fragment): Status {
    if Refused(max, f) then Failed else StatusOf(f)
  }

  function FirstPass(world: World, max: nat, owner: Owner): Progress {
    if world.noCode(owner) then Progress(Skipped, None)
    else
      var e := world.extract(0, owner);
      if e.Source? then Progress(AfterSource(max, e.fragment), Some(e.fragment.snapshotId))
      else if e.Unavailable? && world.emptySynthetic(owner) then Progress(Skipped, None)
      else Progress(Failed, None)
  }

  /** The second consistency pass takes a text only if it is the one emitted before. */
  predicate Changed(pass: nat, f: Fragment, before: Progress) {
    pass == 2 && before.emitted != Some(f.snapshotId)
  }

  function ConsistencyPass(world: World, max: nat, pass: nat, owner: Owner, before: Progress): Progress {
    if before.emitted.None? then before
    else
      var e := world.extract(pass, owner);
      if !e.Source? then Progress(Failed, None)
      else if Changed(pass, e.fragment, before) then Progress(Failed, before.emitted)
      else Progress(AfterSource(max, e.fragment), Some(e.fragment.snapshotId))
  }

  function AfterFirstCheck(world: World, max: nat, owner: Owner): Progress {
    ConsistencyPass(world, max, 1, owner, FirstPass(world, max, owner))
  }

  function Final(world: World, max: nat, owner: Owner): Progress {
    ConsistencyPass(world, max, 2, owner, AfterFirstCheck(world, max, owner))
  }

  /** The text of the owner that a consistency pass hands to the store and the store takes. */
  function Taken(world: World, max: nat, pass: nat, owner: Owner, before: Progress): Option<Fragment> {
    var e := world.extract(pass, owner);
    if before.emitted.Some? && e.Source? && !Changed(pass, e.fragment, before) && !Refused(max, e.fragment)
    then Some(e.fragment) else None
  }

  /** An owner that ends indexed was extracted by both consistency passes, to the same text. */
  lemma IndexedIsStable(world: World, max: nat, owner: Owner)
    ensures Final(world, max, owner).written == Indexed ==>
              && world.extract(1, owner).Source? && world.extract(2, owner).Source?
              && world.extract(1, owner).fragment.snapshotId == world.extract(2, owner).fragment.snapshotId
              && Taken(world, max, 2, owner, AfterFirstCheck(world, max, owner))
                 == Some(world.extract(2, owner).fragment)
              && !world.extract(2, owner).fragment.partial
    ensures Final(world, max, owner).written in {Indexed, Failed, Skipped}
  {
  }

  /** What the extractions of an owner call for: skipped exactly if it has no code, or gave
      nothing and is an empty synthetic class; indexed exactly if it gave a text three times,
      the last two alike and the last one complete and not too long to be kept; failed
      otherwise, and so whenever the text changed in the second consistency pass. */
  lemma FinalExactly(world: World, max: nat, owner: Owner)
    ensures var status := Final(world, max, owner).written;
            var e, f, g := world.extract(0, owner), world.extract(1, owner), world.extract(2, owner);
            && status in {Indexed, Failed, Skipped}
            && (status == Skipped <==> world.noCode(owner) || (e.Unavailable? && world.emptySynthetic(owner)))
            && (status == Indexed <==>
                  && !world.noCode(owner) && e.Source? && f.Source? && g.Source?
                  && f.fragment.snapshotId == g.fragment.snapshotId && !g.fragment.partial
                  && 2 * g.fragment.length <= max && g.fragment.length <= 4_000_000)
            && (status != Skipped && f.Source? && g.Source? && f.fragment.snapshotId != g.fragment.snapshotId ==>
                  status == Failed)
  {
  }

  // ---- What a pass hands to the store ----------------------------------------------------

  /** A consistency pass: what it starts from and the owners the index knows. */
  datatype Check = Check(world: World, max: nat, pass: nat, before: Owner -> Progress, known: set<Owner>)

  function TakenBy(c: Check, owner: Owner): Option<Fragment> {
    Taken(c.world, c.max, c.pass, owner, c.before(owner))
  }

  function PutBy(c: Check, owner: Owner): seq<Entry> {
    var f := TakenBy(c, owner);
    if f.Some? && owner in c.known then [Text(owner, f.value)] else []
  }

  /** The texts the pass puts into the store, in visiting order. */
  function Puts(c: Check, visited: seq<Owner>): seq<Entry> {
    if visited == [] then [] else Puts(c, visited[..|visited| - 1]) + PutBy(c, visited[|visited| - 1])
  }

  lemma PutsSnoc(c: Check, visited: seq<Owner>, owner: Owner)
    ensures Puts(c, visited + [owner]) == Puts(c, visited) + PutBy(c, owner)
  {
    assert (visited + [owner])[..|visited|] == visited;
  }

  lemma {:induction false} PutsConcat(c: Check, a: seq<Owner>, b: seq<Owner>)
    ensures Puts(c, a + b) == Puts(c, a) + Puts(c, b)
  {
    hide PutBy;
    if b == [] {
      assert a + b == a;
    } else {
      var front, last := b[..|b| - 1], b[|b| - 1];
      PutsConcat(c, a, front);
      assert a + b == a + front + [last];
      PutsSnoc(c, a + front, last);
    }
  }

  lemma {:induction false} PutsAreOf(c: Check, visited: seq<Owner>)
    ensures forall e | e in Puts(c, visited) :: e.Text? && e.owner in visited
  {
    if visited != [] { PutsAreOf(c, visited[..|visited| - 1]); }
  }

  predicate Distinct(owners: seq<Owner>) {
    forall i, j | 0 <= i < j < |owners| :: owners[i] != owners[j]
  }

  lemma {:induction false} PutsAreDistinct(c: Check, visited: seq<Owner>)
    requires Distinct(visited)
    ensures DistinctKeys(Puts(c, visited))
  {
    if visited != [] {
      var front, last := visited[..|visited| - 1], visited[|visited| - 1];
      PutsAreDistinct(c, front);
      PutsAreOf(c, front);
      hide Puts, TakenBy;
      if PutBy(c, last) != [] { AppendDistinct(Puts(c, front), PutBy(c, last)[0]); }
    }
  }

  // ---- The retained texts during a pass ---------------------------------------------------

  /** The store holds the longest most recently used run of these puts that fits, and older
      fragments only if that is all of them. */
  ghost predicate HoldsRun(lru: seq<Entry>, puts: seq<Entry>, room: nat) {
    exists older :: lru == older + Fit(puts, room) && (older != [] ==> Fit(puts, room) == puts)
  }

  lemma RunStarts(lru: seq<Entry>, room: nat)
    ensures HoldsRun(lru, [], room)
  {
    assert lru == lru + Fit([], room);
  }

  lemma WithoutNone(key: Key)
    ensures Without([], key) == []
  {
  }

  /** Removing a fragment that is not among the puts, */
  lemma RunDrops(lru: seq<Entry>, puts: seq<Entry>, room: nat, key: Key)
    requires HoldsRun(lru, puts, room) && DistinctKeys(lru) && DistinctKeys(puts) && key !in Keys(puts)
    ensures HoldsRun(Without(lru, key), puts, room)
  {
    var older :| lru == older + Fit(puts, room) && (older != [] ==> Fit(puts, room) == puts);
    FitDistinct(puts, room);
    hide Keys, DistinctKeys, Without, Fit;
    WithoutConcat(older, Fit(puts, room), key);
    WithoutNone(key);
    assert Without(lru, key) == Without(older, key) + Fit(puts, room);
  }

  lemma GrowRun(rest: seq<Entry>, puts: seq<Entry>, room: nat, e: Entry)
    requires HoldsRun(rest, puts, room)
    ensures HoldsRun(Fit(rest + [e], room), puts + [e], room)
  {
    hide Fit, Sum;
    var run := Fit(puts, room);
    var older :| rest == older + run && (older != [] ==> run == puts);
    assert rest + [e] == older + (run + [e]);
    FitAgain(puts, e, room);
    var kept := FitConcat(older, run + [e], room);
    if kept != [] { assert kept[0] in kept; }
  }

  /** and putting a new one, keep it so. */
  lemma RunGrows(lru: seq<Entry>, puts: seq<Entry>, room: nat, e: Entry)
    requires HoldsRun(lru, puts, room) && DistinctKeys(lru) && DistinctKeys(puts) && KeyOf(e) !in Keys(puts)
    ensures HoldsRun(Fit(Without(lru, KeyOf(e)) + [e], room), puts + [e], room)
  {
    RunDrops(lru, puts, room, KeyOf(e));
    hide Keys, DistinctKeys, KeyOf, Without, Fit, Sum;
    GrowRun(Without(lru, KeyOf(e)), puts, room, e);
  }

  // ---- Progress of the owners -------------------------------------------------------------

  predicate Emits(emitted: map<Owner, int>, owner: Owner, p: Progress) {
    if owner in emitted then p.emitted == Some(emitted[owner]) else p.emitted.None?
  }

  function AfterBy(c: Check, owner: Owner): Progress {
    ConsistencyPass(c.world, c.max, c.pass, owner, c.before(owner))
  }

  /** Owner k of the pass, which has come to position i: one that has been checked has what
      the check made of it, one that no longer counts as emitted has its status for good. */
  predicate OwnerOk(c: Check, v: View, emitted: map<Owner, int>, owner: Owner, checked: bool) {
    var p := if checked then AfterBy(c, owner) else c.before(owner);
    && Emits(emitted, owner, p)
    && (checked || p.emitted.None? ==>
          Came(v, SourceKey(owner), p.written, checked && TakenBy(c, owner).Some?))
  }

  predicate PassOk(c: Check, v: View, emitted: map<Owner, int>, visited: seq<Owner>, i: nat) {
    forall k | 0 <= k < |visited| :: OwnerOk(c, v, emitted, visited[k], k < i)
  }

  /** An owner that is not emitted is passed over. */
  lemma NotEmitted(c: Check, v: View, emitted: map<Owner, int>, owner: Owner)
    requires OwnerOk(c, v, emitted, owner, false) && owner !in emitted
    ensures OwnerOk(c, v, emitted, owner, true) && PutBy(c, owner) == []
  {
  }

  lemma OwnerStays(c: Check, a: View, b: View, emitted: map<Owner, int>, emitted': map<Owner, int>,
                   key: Key, owner: Owner, checked: bool)
    requires OwnerOk(c, a, emitted, owner, checked) && OthersStay(key, a, b) && SourceKey(owner) != key
    requires owner in emitted <==> owner in emitted'
    requires owner in emitted ==> emitted[owner] == emitted'[owner]
    ensures OwnerOk(c, b, emitted', owner, checked)
  {
    hide OthersStay, Came, AfterBy, TakenBy;
    var p := if checked then AfterBy(c, owner) else c.before(owner);
    if checked || p.emitted.None? {
      CameStays(a, b, key, SourceKey(owner), p.written, checked && TakenBy(c, owner).Some?);
    }
  }

  /** The store's and the build's step for one owner, seen by all of them. */
  lemma PassStep(c: Check, a: View, b: View, emitted: map<Owner, int>, emitted': map<Owner, int>,
                 visited: seq<Owner>, i: nat)
    requires i < |visited| && Distinct(visited) && PassOk(c, a, emitted, visited, i)
    requires OthersStay(SourceKey(visited[i]), a, b) && emitted' - {visited[i]} == emitted - {visited[i]}
    requires OwnerOk(c, b, emitted', visited[i], true)
    ensures PassOk(c, b, emitted', visited, i + 1)
  {
    var owner := visited[i];
    hide OwnerOk, OthersStay;
    forall k | 0 <= k < |visited| ensures OwnerOk(c, b, emitted', visited[k], k < i + 1) {
      if k != i {
        var other := visited[k];
        assert other != owner;
        assert other in emitted <==> other in emitted - {owner};
        assert other in emitted' <==> other in emitted' - {owner};
        assert OwnerOk(c, a, emitted, other, k < i);
        OwnerStays(c, a, b, emitted, emitted', SourceKey(owner), other, k < i);
      }
    }
  }

  /** What a pass leaves is what the next one starts from. */
  lemma NextPass(c: Check, d: Check, v: View, emitted: map<Owner, int>, visited: seq<Owner>)
    requires PassOk(c, v, emitted, visited, |visited|) && forall o :: d.before(o) == AfterBy(c, o)
    ensures PassOk(d, v, emitted, visited, 0)
  {
    forall k | 0 <= k < |visited| ensures OwnerOk(d, v, emitted, visited[k], false) {
      assert OwnerOk(c, v, emitted, visited[k], true);
    }
  }

  /** What the pass does for this owner to the list of fragments: its text is replaced, or
      goes, or was not there. */
  predicate Touched(c: Check, owner: Owner, lru: seq<Entry>, lru': seq<Entry>, room: nat) {
    var rest := Without(lru, SourceKey(owner));
    if PutBy(c, owner) != [] then lru' == Fit(rest + PutBy(c, owner), room) else lru' == rest || lru' == lru
  }

  lemma KeysStay(key: Key, a: View, b: View)
    requires OthersStay(key, a, b)
    ensures b.status.Keys == a.status.Keys && b.memberStatus.Keys == a.memberStatus.Keys
  {
  }

  /** One owner of a consistency pass; one that no longer counts as emitted is passed over. */
  method CheckOwner(world: World, store: SearchIndexStore, pass: nat, owner: Owner, emitted0: map<Owner, int>,
                    ghost c: Check) returns (normal: bool, emitted: map<Owner, int>)
    requires store.Valid() && OwnerOk(c, store.Contents(), emitted0, owner, false)
    requires c.world == world && c.max == store.maxBytes && c.pass == pass && c.known == store.status.Keys
    modifies store`lru, store`retainedBytes, store`status, store`memberStatus
    ensures store.Valid() && OthersStay(SourceKey(owner), old(store.Contents()), store.Contents())
    ensures store.status.Keys == old(store.status).Keys && store.memberStatus.Keys == old(store.memberStatus).Keys
    ensures normal ==> emitted - {owner} == emitted0 - {owner}
    ensures normal ==> OwnerOk(c, store.Contents(), emitted, owner, true)
    ensures normal ==> Touched(c, owner, old(store.lru), store.lru, store.Room())
  {
    ghost var a := store.Contents();
    NothingStays(SourceKey(owner), a);
    emitted := emitted0;
    hide OthersStay, Came;
    if owner !in emitted {
      NotEmitted(c, a, emitted, owner);
      return true, emitted;
    }
    var e := world.extract(pass, owner);
    match e {
      case Cancelled => return false, emitted;
      case Threw =>
        store.Set(SourceKey(owner), Failed);
        emitted := emitted - {owner};
      case Unavailable =>
        store.Set(SourceKey(owner), Failed);
        emitted := emitted - {owner};
      case Source(f) =>
        if pass == 2 && f.snapshotId != emitted[owner] {
          store.Set(SourceKey(owner), Failed);
        } else {
          store.PublishSource(owner, f);
          emitted := emitted[owner := f.snapshotId];
        }
    }
    assert OthersStay(SourceKey(owner), a, store.Contents());
    KeysStay(SourceKey(owner), a, store.Contents());
    return true, emitted;
  }

  lemma PutsAt(c: Check, visited: seq<Owner>, i: nat)
    requires i < |visited| && Distinct(visited)
    ensures var puts := Puts(c, visited[..i]);
            && DistinctKeys(puts) && SourceKey(visited[i]) !in Keys(puts)
            && Puts(c, visited[..i + 1]) == puts + PutBy(c, visited[i])
  {
    assert visited[..i + 1] == visited[..i] + [visited[i]];
    PutsSnoc(c, visited[..i], visited[i]);
    PutsAreDistinct(c, visited[..i]);
    PutsAreOf(c, visited[..i]);
    hide Puts, DistinctKeys, PutBy;
  }

  lemma PutByShape(c: Check, owner: Owner)
    ensures var more := PutBy(c, owner); more == [] || (more == [more[0]] && KeyOf(more[0]) == SourceKey(owner))
  {
  }

  lemma RunStep(c: Check, lru: seq<Entry>, lru': seq<Entry>, visited: seq<Owner>, i: nat, room: nat)
    requires i < |visited| && Distinct(visited) && DistinctKeys(lru) && HoldsRun(lru, Puts(c, visited[..i]), room)
    requires Touched(c, visited[i], lru, lru', room)
    ensures HoldsRun(lru', Puts(c, visited[..i + 1]), room)
  {
    var owner, puts := visited[i], Puts(c, visited[..i]);
    var more := PutBy(c, owner);
    PutsAt(c, visited, i);
    PutByShape(c, owner);
    hide Puts, HoldsRun, Keys, KeyOf, DistinctKeys, Fit, Without, PutBy, Distinct;
    if more == [] {
      assert puts + [] == puts;
      RunDrops(lru, puts, room, SourceKey(owner));
    } else {
      RunGrows(lru, puts, room, more[0]);
    }
  }

  /** The invariant of a consistency pass that has come to position i. */
  ghost predicate Checking(c: Check, v: View, emitted: map<Owner, int>, visited: seq<Owner>, i: nat, room: nat) {
    i <= |visited| && PassOk(c, v, emitted, visited, i) && HoldsRun(v.lru, Puts(c, visited[..i]), room)
  }

  lemma CheckingStarts(c: Check, v: View, emitted: map<Owner, int>, visited: seq<Owner>, room: nat)
    requires PassOk(c, v, emitted, visited, 0)
    ensures Checking(c, v, emitted, visited, 0, room)
  {
    RunStarts(v.lru, room);
    hide PassOk, HoldsRun;
  }

  lemma CheckingAt(c: Check, v: View, emitted: map<Owner, int>, visited: seq<Owner>, i: nat, room: nat)
    requires i < |visited| && Checking(c, v, emitted, visited, i, room)
    ensures OwnerOk(c, v, emitted, visited[i], false)
  {
    hide OwnerOk, HoldsRun;
  }

  lemma CheckingStep(c: Check, a: View, b: View, emitted: map<Owner, int>, emitted': map<Owner, int>,
                     visited: seq<Owner>, i: nat, room: nat)
    requires i < |visited| && Distinct(visited) && Checking(c, a, emitted, visited, i, room)
    requires Consistent(a)
    requires OthersStay(SourceKey(visited[i]), a, b) && emitted' - {visited[i]} == emitted - {visited[i]}
    requires OwnerOk(c, b, emitted', visited[i], true) && Touched(c, visited[i], a.lru, b.lru, room)
    ensures Checking(c, b, emitted', visited, i + 1, room)
  {
    RunStep(c, a.lru, b.lru, visited, i, room);
    PassStep(c, a, b, emitted, emitted', visited, i);
    hide OwnerOk, PassOk, HoldsRun, Puts, Touched, OthersStay, Distinct;
  }

  /** Nothing happens to members but that some are evicted. */
  ghost predicate MembersStay(a: View, b: View) {
    forall d :: var key := MemberKey(d);
      && (Retained(b, key) ==> Retained(a, key))
      && StatusAt(b, key) == (if Retained(a, key) && !Retained(b, key) && StatusAt(a, key).Some?
                              then Some(Evicted) else StatusAt(a, key))
  }

  lemma AllMembersStay(a: View)
    ensures MembersStay(a, a)
  {
  }

  lemma MembersStayOn(a: View, b: View, c: View, owner: Owner)
    requires MembersStay(a, b) && OthersStay(SourceKey(owner), b, c)
    ensures MembersStay(a, c)
  {
    hide StatusAt, Retained;
  }

  /** One consistency pass over the owners in visiting order. */
  method CheckPass(world: World, store: SearchIndexStore, pass: nat, visited: seq<Owner>, emitted0: map<Owner, int>,
                   ghost c: Check) returns (normal: bool, emitted: map<Owner, int>)
    requires store.Valid() && Distinct(visited) && PassOk(c, store.Contents(), emitted0, visited, 0)
    requires c.world == world && c.max == store.maxBytes && c.pass == pass && c.known == store.status.Keys
    modifies store`lru, store`retainedBytes, store`status, store`memberStatus
    ensures store.Valid() && store.status.Keys == old(store.status).Keys
    ensures store.memberStatus.Keys == old(store.memberStatus).Keys
    ensures MembersStay(old(store.Contents()), store.Contents())
    ensures normal ==> Checking(c, store.Contents(), emitted, visited, |visited|, store.Room())
  {
    hide OwnerOk, PassOk, HoldsRun, Checking, Touched, OthersStay, MembersStay, Sum, Consistent, Puts;
    emitted := emitted0;
    CheckingStarts(c, store.Contents(), emitted, visited, store.Room());
    ghost var start := store.Contents();
    AllMembersStay(start);
    var i := 0;
    while i < |visited|
      invariant i <= |visited| && store.Valid()
      invariant store.status.Keys == old(store.status).Keys
      invariant store.memberStatus.Keys == old(store.memberStatus).Keys
      invariant Checking(c, store.Contents(), emitted, visited, i, store.Room())
      invariant MembersStay(start, store.Contents())
    {
      ghost var before, emittedBefore := store.Contents(), emitted;
      CheckingAt(c, before, emitted, visited, i, store.Room());
      normal, emitted := CheckOwner(world, store, pass, visited[i], emitted, c);
      MembersStayOn(start, before, store.Contents(), visited[i]);
      if !normal {
        return;
      }
      CheckingStep(c, before, store.Contents(), emittedBefore, emitted, visited, i, store.Room());
      i := i + 1;
    }
    return true, emitted;
  }

  // ---- What an owner ends as ----------------------------------------------------------------

  /** The last consistency pass over an index that knows these owners. */
  function LastCheck(world: World, max: nat, known: set<Owner>): Check {
    Check(world, max, 2, o => AfterFirstCheck(world, max, o), known)
  }

  /** The final status of the first of these owners when the last pass visits the others
      after it: what its extractions call for, unless its text was put into the store and
      does not fit beside those put after it. */
  function FinalStatus(world: World, max: nat, known: set<Owner>, room: nat, visited: seq<Owner>): Status
    requires visited != []
  {
    var c := LastCheck(world, max, known);
    if TakenBy(c, visited[0]).Some? && Sum(Puts(c, visited)) > room then Evicted
    else Final(world, max, visited[0]).written
  }

  lemma RunHolds(lru: seq<Entry>, puts: seq<Entry>, room: nat, e: Entry)
    requires HoldsRun(lru, puts, room) && e in puts
    ensures KeyOf(e) in Keys(lru) <==> KeyOf(e) in Keys(Fit(puts, room))
    ensures e in Fit(puts, room) ==> e in lru
  {
    hide Fit, KeyOf;
    var run := Fit(puts, room);
    var older :| lru == older + run && (older != [] ==> run == puts);
    if older == [] { assert lru == run; }
  }

  lemma PutsSplit(c: Check, visited: seq<Owner>, k: nat)
    requires k <= |visited|
    ensures Puts(c, visited) == Puts(c, visited[..k]) + Puts(c, visited[k..])
  {
    PutsConcat(c, visited[..k], visited[k..]);
    assert visited == visited[..k] + visited[k..];
  }

  lemma PutsCons(c: Check, visited: seq<Owner>)
    requires visited != []
    ensures Puts(c, visited) == PutBy(c, visited[0]) + Puts(c, visited[1..])
  {
    assert Puts(c, []) == [];
    hide PutBy, Puts;
    PutsSplit(c, visited, 1);
    PutsSnoc(c, [], visited[0]);
    assert visited[..1] == [] + [visited[0]];
    assert [] + PutBy(c, visited[0]) == PutBy(c, visited[0]);
  }

  lemma PutAt(c: Check, visited: seq<Owner>, k: nat)
    requires k < |visited| && PutBy(c, visited[k]) != []
    ensures var puts, j := Puts(c, visited), |Puts(c, visited[..k])|;
            && j < |puts| && puts[j..] == Puts(c, visited[k..])
            && puts[j] == PutBy(c, visited[k])[0] && KeyOf(puts[j]) == SourceKey(visited[k])
  {
    hide Puts, PutBy, KeyOf;
    PutByShape(c, visited[k]);
    PutsSplit(c, visited, k);
    PutsCons(c, visited[k..]);
  }

  /** The text of owner k is retained exactly if it and those put after it fit. */
  lemma TextRetained(c: Check, lru: seq<Entry>, visited: seq<Owner>, k: nat, room: nat)
    requires k < |visited| && Distinct(visited) && HoldsRun(lru, Puts(c, visited), room) && DistinctKeys(lru)
    requires PutBy(c, visited[k]) != []
    ensures SourceKey(visited[k]) in Keys(lru) <==> Sum(Puts(c, visited[k..])) <= room
    ensures Sum(Puts(c, visited[k..])) <= room ==> PutBy(c, visited[k])[0] in lru
  {
    hide Puts, PutBy, KeyOf, Keys, Fit, Sum, DistinctKeys, Distinct, HoldsRun;
    var puts, j := Puts(c, visited), |Puts(c, visited[..k])|;
    PutAt(c, visited, k);
    PutsAreDistinct(c, visited);
    FitHolds(puts, room, j);
    RunHolds(lru, puts, room, puts[j]);
  }

  /** The owner was extracted by both consistency passes, to the same text, and that is the
      text the store retains. */
  predicate IndexedTwice(world: World, lru: seq<Entry>, owner: Owner) {
    var e, f := world.extract(1, owner), world.extract(2, owner);
    && e.Source? && f.Source? && e.fragment.snapshotId == f.fragment.snapshotId
    && Text(owner, f.fragment) in lru
  }

  /** The last pass leaves every visited owner with its final status. */
  lemma EndsAs(world: World, v: View, emitted: map<Owner, int>, visited: seq<Owner>, k: nat, max: nat, room: nat)
    requires k < |visited| && Distinct(visited) && Consistent(v)
    requires Checking(LastCheck(world, max, v.status.Keys), v, emitted, visited, |visited|, room)
    requires visited[k] in v.status
    ensures v.status[visited[k]] == FinalStatus(world, max, v.status.Keys, room, visited[k..])
    ensures v.status[visited[k]] == Indexed ==> IndexedTwice(world, v.lru, visited[k])
  {
    IndexedIsStable(world, max, visited[k]);
    var c := LastCheck(world, max, v.status.Keys);
    var owner := visited[k];
    assert visited[..|visited|] == visited;
    assert OwnerOk(c, v, emitted, owner, true);
    if TakenBy(c, owner).Some? { TextRetained(c, v.lru, visited, k, room); }
    hide HoldsRun, Puts, DistinctKeys, Keys, Sum, TakenBy, ConsistencyPass;
  }

  lemma LaterFits(c: Check, visited: seq<Owner>, k: nat, room: nat)
    requires k < |visited|
    ensures Sum(Puts(c, visited)) <= room ==> Sum(Puts(c, visited[k..])) <= room
  {
    PutsSplit(c, visited, k);
    SumConcat(Puts(c, visited[..k]), Puts(c, visited[k..]));
    hide Puts, Sum;
  }

  lemma {:induction false} FirstPut(c: Check, visited: seq<Owner>) returns (k: nat)
    requires Puts(c, visited) != []
    ensures k < |visited| && PutBy(c, visited[k]) != [] && Puts(c, visited[k..]) == Puts(c, visited)
  {
    PutsCons(c, visited);
    if PutBy(c, visited[0]) != [] {
      k := 0;
      assert visited[0..] == visited;
    } else {
      assert [] + Puts(c, visited[1..]) == Puts(c, visited[1..]);
      var j := FirstPut(c, visited[1..]);
      k := j + 1;
      assert visited[1..][j..] == visited[k..];
    }
  }

  lemma SomeEvicted(world: World, max: nat, known: set<Owner>, room: nat, visited: seq<Owner>)
    requires Sum(Puts(LastCheck(world, max, known), visited)) > room
    ensures exists k | 0 <= k < |visited| && visited[k] in known ::
              FinalStatus(world, max, known, room, visited[k..]) != Final(world, max, visited[k]).written
  {
    var c := LastCheck(world, max, known);
    var k := FirstPut(c, visited);
    IndexedIsStable(world, max, visited[k]);
    hide Puts, Sum, Final, Taken;
    assert FinalStatus(world, max, known, room, visited[k..]) == Evicted;
  }

  /** "Every visited owner ends as published, failed or skipped" fails of the code.  It
      ends as its extractions call for exactly if the texts the last pass puts into the
      store all fit. */
  lemma EndsAsCalledForExactly(world: World, max: nat, known: set<Owner>, room: nat, visited: seq<Owner>)
    ensures (forall k | 0 <= k < |visited| && visited[k] in known ::
               FinalStatus(world, max, known, room, visited[k..]) == Final(world, max, visited[k]).written)
            <==> Sum(Puts(LastCheck(world, max, known), visited)) <= room
  {
    var c := LastCheck(world, max, known);
    if Sum(Puts(c, visited)) <= room {
      forall k | 0 <= k < |visited|
        ensures FinalStatus(world, max, known, room, visited[k..]) == Final(world, max, visited[k]).written
      {
        LaterFits(c, visited, k, room);
      }
    } else {
      SomeEvicted(world, max, known, room, visited);
    }
    hide FinalStatus, Final, Puts;
  }

  // ---- The build ------------------------------------------------------------------------------

  function ListingStatus(world: World, descriptor: Owner): Status {
    if world.members(descriptor).Listed? then Indexed else Failed
  }

  /** Every class has its members indexed as long as they are retained, or has failed. */
  predicate MembersOk(world: World, v: View, classes: seq<Class>) {
    forall k | 0 <= k < |classes| :: var d := classes[k].descriptor;
      Came(v, MemberKey(d), ListingStatus(world, d), world.members(d).Listed?)
  }

  lemma MembersOkStays(world: World, a: View, b: View, classes: seq<Class>)
    requires MembersOk(world, a, classes) && MembersStay(a, b)
    ensures MembersOk(world, b, classes)
  {
    hide Retained, StatusAt, ListingStatus;
  }

  lemma SourceKeepsMembers(owner: Owner, a: View, b: View)
    requires OthersStay(SourceKey(owner), a, b)
    ensures MembersStay(a, b)
  {
    hide StatusAt, Retained;
  }

  /** The members of one more class. */
  lemma MembersStep(world: World, a: View, b: View, classes: seq<Class>, i: nat)
    requires i < |classes| && MembersOk(world, a, classes[..i])
    requires var d := classes[i].descriptor;
             && OthersStay(MemberKey(d), a, b)
             && Came(b, MemberKey(d), ListingStatus(world, d), world.members(d).Listed?)
    ensures MembersOk(world, b, classes[..i + 1])
  {
    var key := MemberKey(classes[i].descriptor);
    forall k | 0 <= k < i + 1
      ensures var d := classes[k].descriptor;
              Came(b, MemberKey(d), ListingStatus(world, d), world.members(d).Listed?)
    {
      var d := classes[k].descriptor;
      if MemberKey(d) != key {
        assert classes[..i][k] == classes[k];
        CameStays(a, b, key, MemberKey(d), ListingStatus(world, d), world.members(d).Listed?);
      }
    }
    hide Came, OthersStay;
  }

  lemma PassKeepsOver(c: Check, a: View, b: View, emitted: map<Owner, int>, visited: seq<Owner>, descriptor: Owner)
    requires PassOk(c, a, emitted, visited, 0) && OthersStay(MemberKey(descriptor), a, b)
    ensures PassOk(c, b, emitted, visited, 0)
  {
    hide OwnerOk, OthersStay;
    forall k | 0 <= k < |visited| ensures OwnerOk(c, b, emitted, visited[k], false) {
      OwnerStays(c, a, b, emitted, emitted, MemberKey(descriptor), visited[k], false);
    }
  }

  /** The source of one more owner. */
  lemma FirstStep(c: Check, a: View, b: View, emitted: map<Owner, int>, emitted': map<Owner, int>,
                  visited: seq<Owner>, owner: Owner)
    requires owner !in visited && PassOk(c, a, emitted, visited, 0) && OthersStay(SourceKey(owner), a, b)
    requires emitted' - {owner} == emitted - {owner} && OwnerOk(c, b, emitted', owner, false)
    ensures PassOk(c, b, emitted', visited + [owner], 0)
  {
    hide OwnerOk, OthersStay;
    var after := visited + [owner];
    forall k | 0 <= k < |after| ensures OwnerOk(c, b, emitted', after[k], false) {
      if k < |visited| {
        var other := visited[k];
        assert other in emitted <==> other in emitted - {owner};
        assert other in emitted' <==> other in emitted' - {owner};
        OwnerStays(c, a, b, emitted, emitted', SourceKey(owner), other, false);
      }
    }
  }

  method ListMembers(world: World, store: SearchIndexStore, descriptor: Owner) returns (normal: bool)
    requires store.Valid()
    modifies store`lru, store`retainedBytes, store`status, store`memberStatus
    ensures store.Valid() && OthersStay(MemberKey(descriptor), old(store.Contents()), store.Contents())
    ensures normal ==> Came(store.Contents(), MemberKey(descriptor), ListingStatus(world, descriptor),
                            world.members(descriptor).Listed?)
  {
    ghost var a := store.Contents();
    NothingStays(MemberKey(descriptor), a);
    hide OthersStay;
    var listing := world.members(descriptor);
    match listing {
      case ListingCancelled => return false;
      case ListingFailed => store.Set(MemberKey(descriptor), Failed);
      case Listed(m) =>
        store.PublishMembers(descriptor, m);
    }
    return true;
  }

  /** The check before which only the first pass has been made. */
  function FirstCheck(world: World, max: nat, known: set<Owner>): Check {
    Check(world, max, 1, o => FirstPass(world, max, o), known)
  }

  method FirstText(world: World, store: SearchIndexStore, owner: Owner, emitted0: map<Owner, int>)
    returns (normal: bool, emitted: map<Owner, int>)
    requires store.Valid() && owner !in emitted0
    modifies store`lru, store`retainedBytes, store`status, store`memberStatus
    ensures store.Valid() && OthersStay(SourceKey(owner), old(store.Contents()), store.Contents())
    ensures normal ==> emitted - {owner} == emitted0 - {owner}
    ensures normal ==> OwnerOk(FirstCheck(world, store.maxBytes, old(store.status).Keys), store.Contents(),
                               emitted, owner, false)
  {
    ghost var a := store.Contents();
    NothingStays(SourceKey(owner), a);
    hide OthersStay, Came;
    emitted := emitted0;
    if world.noCode(owner) {
      store.Set(SourceKey(owner), Skipped);
      return true, emitted;
    }
    var e := world.extract(0, owner);
    match e {
      case Cancelled => return false, emitted;
      case Threw => store.Set(SourceKey(owner), Failed);
      case Unavailable => store.Set(SourceKey(owner), if world.emptySynthetic(owner) then Skipped else Failed);
      case Source(f) =>
        store.PublishSource(owner, f);
        emitted := emitted[owner := f.snapshotId];
    }
    return true, emitted;
  }

  /** The state of the first pass before class i. */
  ghost predicate Building(world: World, v: View, classes: seq<Class>, i: nat, withMembers: bool, withSources: bool,
                           visited: seq<Owner>, emitted: map<Owner, int>, max: nat) {
    && i <= |classes| && Distinct(visited)
    && (forall o :: o in visited <==> withSources && exists k | 0 <= k < i :: classes[k].owner == o)
    && (forall o | o in emitted :: o in visited) && (!withSources ==> visited == [])
    && PassOk(FirstCheck(world, max, v.status.Keys), v, emitted, visited, 0)
    && (withMembers ==> MembersOk(world, v, classes[..i]))
  }

  lemma StartBuilding(world: World, v: View, classes: seq<Class>, withMembers: bool, withSources: bool, max: nat)
    ensures Building(world, v, classes, 0, withMembers, withSources, [], map[], max)
  {
    hide Came, OwnerOk;
  }

  /** The members have been copied, the source is still to come. */
  lemma MembersCopied(world: World, a: View, b: View, classes: seq<Class>, i: nat, withMembers: bool,
                      withSources: bool, visited: seq<Owner>, emitted: map<Owner, int>, max: nat)
    requires i < |classes| && Building(world, a, classes, i, withMembers, withSources, visited, emitted, max)
    requires var d := classes[i].descriptor;
             if withMembers then
               && OthersStay(MemberKey(d), a, b)
               && Came(b, MemberKey(d), ListingStatus(world, d), world.members(d).Listed?)
             else b == a
    ensures PassOk(FirstCheck(world, max, b.status.Keys), b, emitted, visited, 0)
    ensures b.status.Keys == a.status.Keys && (withMembers ==> MembersOk(world, b, classes[..i + 1]))
  {
    if withMembers {
      var d := classes[i].descriptor;
      KeysStay(MemberKey(d), a, b);
      MembersStep(world, a, b, classes, i);
      PassKeepsOver(FirstCheck(world, max, a.status.Keys), a, b, emitted, visited, d);
    }
    hide PassOk, MembersOk, OthersStay, Came, Distinct;
  }

  /** The owner of class i has been visited, now or before. */
  lemma SourceCopied(classes: seq<Class>, i: nat, withSources: bool, visited: seq<Owner>, visited': seq<Owner>)
    requires i < |classes| && Distinct(visited)
    requires forall o :: o in visited <==> withSources && exists k | 0 <= k < i :: classes[k].owner == o
    requires visited' == if withSources && classes[i].owner !in visited then visited + [classes[i].owner] else visited
    ensures Distinct(visited')
    ensures forall o :: o in visited' <==> withSources && exists k | 0 <= k < i + 1 :: classes[k].owner == o
  {
    var owner := classes[i].owner;
    forall o ensures o in visited' <==> withSources && exists k | 0 <= k < i + 1 :: classes[k].owner == o {
      assert o in visited' <==> o in visited || (withSources && o == owner);
    }
  }

  lemma EmittedVisited(emitted: map<Owner, int>, emitted': map<Owner, int>, visited: seq<Owner>, owner: Owner)
    requires forall o | o in emitted :: o in visited
    requires emitted' - {owner} == emitted - {owner}
    ensures forall o | o in emitted' :: o in visited + [owner]
  {
    forall o | o in emitted' ensures o in visited + [owner] {
      if o != owner { assert o in emitted' - {owner}; }
    }
  }

  /** The two halves of the first pass for one class. */
  method BuildClass(world: World, store: SearchIndexStore, ghost classes: seq<Class>, cls: Class, ghost i: nat,
                    withMembers: bool, withSources: bool, visited0: seq<Owner>, emitted0: map<Owner, int>)
    returns (normal: bool, visited: seq<Owner>, emitted: map<Owner, int>)
    requires store.Valid() && i < |classes| && classes[i] == cls
    requires Building(world, store.Contents(), classes, i, withMembers, withSources, visited0, emitted0, store.maxBytes)
    modifies store`lru, store`retainedBytes, store`status, store`memberStatus
    ensures store.Valid() && store.status.Keys == old(store.status).Keys
    ensures normal ==> Building(world, store.Contents(), classes, i + 1, withMembers, withSources, visited, emitted,
                                store.maxBytes)
  {
    visited, emitted := visited0, emitted0;
    ghost var a, max := store.Contents(), store.maxBytes;
    ghost var c := FirstCheck(world, max, a.status.Keys);
    hide PassOk, OwnerOk, MembersOk, OthersStay, MembersStay, Came, Consistent, Sum;
    if withMembers {
      normal := ListMembers(world, store, cls.descriptor);
      KeysStay(MemberKey(cls.descriptor), a, store.Contents());
      if !normal {
        return;
      }
    }
    ghost var b := store.Contents();
    MembersCopied(world, a, b, classes, i, withMembers, withSources, visited, emitted, max);
    SourceCopied(classes, i, withSources, visited,
                 if withSources && cls.owner !in visited then visited + [cls.owner] else visited);
    if withSources && cls.owner !in visited {
      normal, emitted := FirstText(world, store, cls.owner, emitted);
      KeysStay(SourceKey(cls.owner), b, store.Contents());
      if !normal {
        return;
      }
      FirstStep(c, b, store.Contents(), emitted0, emitted, visited, cls.owner);
      SourceKeepsMembers(cls.owner, b, store.Contents());
      if withMembers { MembersOkStays(world, b, store.Contents(), classes[..i + 1]); }
      visited := visited + [cls.owner];
      EmittedVisited(emitted0, emitted, visited0, cls.owner);
    }
    normal := true;
  }

  lemma CheckingEnds(c: Check, v: View, emitted: map<Owner, int>, visited: seq<Owner>, room: nat)
    requires Checking(c, v, emitted, visited, |visited|, room)
    ensures PassOk(c, v, emitted, visited, |visited|)
  {
  }

  lemma MembersStayTwice(a: View, b: View, c: View)
    requires MembersStay(a, b) && MembersStay(b, c)
    ensures MembersStay(a, c)
  {
    hide StatusAt, Retained;
  }

  /** Both consistency passes. */
  method CheckPasses(world: World, store: SearchIndexStore, visited: seq<Owner>, emitted0: map<Owner, int>)
    returns (normal: bool)
    requires store.Valid() && Distinct(visited)
    requires PassOk(FirstCheck(world, store.maxBytes, store.status.Keys), store.Contents(), emitted0, visited, 0)
    modifies store`lru, store`retainedBytes, store`status, store`memberStatus
    ensures store.Valid() && store.status.Keys == old(store.status).Keys
    ensures MembersStay(old(store.Contents()), store.Contents())
    ensures normal ==> forall k | 0 <= k < |visited| && visited[k] in store.status ::
                         store.status[visited[k]]
                         == FinalStatus(world, store.maxBytes, store.status.Keys, store.Room(), visited[k..])
    ensures normal ==> forall k | 0 <= k < |visited| && visited[k] in store.status ::
                         store.status[visited[k]] == Indexed ==> IndexedTwice(world, store.lru, visited[k])
  {
    ghost var a, max, known := store.Contents(), store.maxBytes, store.status.Keys;
    ghost var first, last := FirstCheck(world, max, known), LastCheck(world, max, known);
    hide OwnerOk, PassOk, HoldsRun, Checking, Consistent, MembersStay, FinalStatus, Puts, Sum, Distinct;
    var emitted;
    normal, emitted := CheckPass(world, store, 1, visited, emitted0, first);
    if !normal {
      return;
    }
    ghost var b := store.Contents();
    CheckingEnds(first, b, emitted, visited, store.Room());
    NextPass(first, last, b, emitted, visited);
    normal, emitted := CheckPass(world, store, 2, visited, emitted, last);
    MembersStayTwice(a, b, store.Contents());
    if normal {
      forall k | 0 <= k < |visited| && visited[k] in store.status
        ensures store.status[visited[k]] == FinalStatus(world, max, known, store.Room(), visited[k..])
        ensures store.status[visited[k]] == Indexed ==> IndexedTwice(world, store.lru, visited[k])
      {
        EndsAs(world, store.Contents(), emitted, visited, k, max, store.Room());
      }
    }
  }

  lemma EndBuilding(world: World, v: View, classes: seq<Class>, withMembers: bool, withSources: bool,
                    visited: seq<Owner>, emitted: map<Owner, int>, max: nat)
    requires Building(world, v, classes, |classes|, withMembers, withSources, visited, emitted, max)
    ensures Distinct(visited) && (withMembers ==> MembersOk(world, v, classes)) && (!withSources ==> visited == [])
    ensures forall o :: o in visited <==> withSources && exists k | 0 <= k < |classes| :: classes[k].owner == o
    ensures PassOk(FirstCheck(world, max, v.status.Keys), v, emitted, visited, 0)
  {
    assert classes[..|classes|] == classes;
    hide PassOk, MembersOk;
  }

  lemma MembersEnd(world: World, v: View, classes: seq<Class>)
    requires MembersOk(world, v, classes)
    ensures forall k | 0 <= k < |classes| && classes[k].descriptor in v.memberStatus ::
              var d := classes[k].descriptor;
              v.memberStatus[d] == if !world.members(d).Listed? then Failed
                                   else if MemberKey(d) in Keys(v.lru) then Indexed else Evicted
  {
    hide Keys;
    forall k | 0 <= k < |classes| && classes[k].descriptor in v.memberStatus
      ensures var d := classes[k].descriptor;
              v.memberStatus[d] == if !world.members(d).Listed? then Failed
                                   else if MemberKey(d) in Keys(v.lru) then Indexed else Evicted
    {
      var d := classes[k].descriptor;
      assert Came(v, MemberKey(d), ListingStatus(world, d), world.members(d).Listed?);
    }
  }

  /** A build that returns normally.  Every visited owner ends with exactly its final
      status, what ends indexed was extracted twice in a row to the same text, and the
      members of a class are indexed as long as they are retained unless they failed. */
  method RunBuild(world: World, store: SearchIndexStore, classes: seq<Class>, withMembers: bool, withSources: bool)
    returns (normal: bool, visited: seq<Owner>)
    requires store.Valid()
    modifies store`lru, store`retainedBytes, store`status, store`memberStatus
    ensures store.Valid() && store.status.Keys == old(store.status).Keys
    ensures normal ==> Distinct(visited)
    ensures normal ==>
              forall o :: o in visited <==> withSources && exists k | 0 <= k < |classes| :: classes[k].owner == o
    ensures normal ==> forall k | 0 <= k < |visited| && visited[k] in store.status ::
                         store.status[visited[k]]
                         == FinalStatus(world, store.maxBytes, store.status.Keys, store.Room(), visited[k..])
    ensures normal ==> forall k | 0 <= k < |visited| && visited[k] in store.status ::
                         store.status[visited[k]] == Indexed ==> IndexedTwice(world, store.lru, visited[k])
    ensures normal && withMembers ==>
              forall k | 0 <= k < |classes| && classes[k].descriptor in store.memberStatus ::
                var d := classes[k].descriptor;
                store.memberStatus[d] == if !world.members(d).Listed? then Failed
                                         else if MemberKey(d) in Keys(store.lru) then Indexed else Evicted
  {
    visited := [];
    var emitted: map<Owner, int> := map[];
    ghost var max, known := store.maxBytes, store.status.Keys;
    StartBuilding(world, store.Contents(), classes, withMembers, withSources, max);
    hide PassOk, MembersOk, MembersStay, Consistent, FinalStatus, Sum, Building;
    var i := 0;
    while i < |classes|
      invariant i <= |classes| && store.Valid() && store.status.Keys == known
      invariant Building(world, store.Contents(), classes, i, withMembers, withSources, visited, emitted, max)
    {
      normal, visited, emitted := BuildClass(world, store, classes, classes[i], i, withMembers, withSources,
                                             visited, emitted);
      if !normal {
        return;
      }
      i := i + 1;
    }
    ghost var built := store.Contents();
    EndBuilding(world, built, classes, withMembers, withSources, visited, emitted, max);
    normal := true;
    if withSources {
      normal := CheckPasses(world, store, visited, emitted);
      if withMembers { MembersOkStays(world, built, store.Contents(), classes); }
    }
    if withMembers { MembersEnd(world, store.Contents(), classes); }
  }

  /** Two owners and room for one text; the first decompiles with node errors every time. */
  function TightWorld(): World {
    World((pass: nat, owner: Owner) => Source(Fragment(0, 0, 0, owner == "A")),
          owner => ListingFailed, owner => false, owner => false)
  }

  /** Its text is kept for a while all the same, and ends evicted, not failed. */
  lemma PartialOwnerCanBeEvicted()
    ensures Final(TightWorld(), 1000, "A").written == Failed
    ensures FinalStatus(TightWorld(), 1000, {"A", "B"}, 400, ["A", "B"]) == Evicted
    ensures FinalStatus(TightWorld(), 1000, {"A", "B"}, 400, ["A", "B"][1..]) == Indexed
  {
    var c := LastCheck(TightWorld(), 1000, {"A", "B"});
    var a, b := Text("A", Fragment(0, 0, 0, true)), Text("B", Fragment(0, 0, 0, false));
    assert PutBy(c, "A") == [a] && PutBy(c, "B") == [b];
    assert ["A", "B"][1..] == ["B"];
    PutsCons(c, ["A", "B"]);
    PutsCons(c, ["B"]);
    assert Puts(c, ["B"][1..]) == [];
    assert Puts(c, ["B"]) == [b] && Puts(c, ["A", "B"]) == [a] + [b];
    SumOne(a);
    SumOne(b);
    SumConcat([a], [b]);
  }
}
