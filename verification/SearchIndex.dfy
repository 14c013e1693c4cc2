/** The index an index build fills (SearchIndexStore.java): statuses of source owners and
    classes, and copied fragments in order of last use within a memory budget.

    A text is named by its snapshot identity. */
module SearchIndex {
  import opened Common

  type Owner = string

  /** FragmentState. */
  datatype Status = Pending | Indexed | Skipped | Failed | Evicted

  const MAX_TEXT: nat := 4_000_000

  /** SourceFragment; `rest` is what its owner and snapshot identity cost, `partial` tells
      that Jadx recorded node errors. */
  datatype Fragment = Fragment(snapshotId: int, length: nat, rest: nat, partial: bool)

  /** The copied members of a class and their estimate. */
  datatype Members = Members(content: int, bytes: nat)

  datatype Key = SourceKey(owner: Owner) | MemberKey(descriptor: Owner)

  /** A retained fragment.  `sources`, `members` and `lru` always hold the same keys, so
      one list of entries, the least recently used first, stands for all three. */
  datatype Entry = Text(owner: Owner, fragment: Fragment) | Names(descriptor: Owner, members: Members)

  function KeyOf(e: Entry): Key {
    if e.Text? then SourceKey(e.owner) else MemberKey(e.descriptor)
  }

  function Bytes(e: Entry): nat {
    match e
    case Text(_, f) => 48 + 2 * f.length + f.rest + 256
    case Names(_, m) => m.bytes
  }

  /** The text is too long to be kept at all. */
  predicate Refused(max: nat, f: Fragment) {
    2 * f.length > max || f.length > MAX_TEXT
  }

  /** The status published with a text. */
  function StatusOf(f: Fragment): Status {
    if f.partial then Failed else Indexed
  }

  // ---- Lists of entries ----------------------------------------------------------------

  function Sum(entries: seq<Entry>): nat {
    if entries == [] then 0 else Bytes(entries[0]) + Sum(entries[1..])
  }

  function Keys(entries: seq<Entry>): set<Key> {
    set e | e in entries :: KeyOf(e)
  }

  predicate DistinctKeys(entries: seq<Entry>) {
    forall i, j | 0 <= i < j < |entries| :: KeyOf(entries[i]) != KeyOf(entries[j])
  }

  lemma KeysCons(e: Entry, rest: seq<Entry>)
    ensures Keys([e] + rest) == {KeyOf(e)} + Keys(rest)
  {
    assert e in [e] + rest;
    forall x | x in rest ensures x in [e] + rest {
    }
  }

  /** Where the fragment is, or the number of entries. */
  function Position(entries: seq<Entry>, key: Key): (i: nat)
    ensures i <= |entries|
    ensures i < |entries| ==> KeyOf(entries[i]) == key
    ensures i == |entries| <==> key !in Keys(entries)
  {
    if entries == [] then 0
    else
      KeysCons(entries[0], entries[1..]);
      assert entries == [entries[0]] + entries[1..];
      if KeyOf(entries[0]) == key then 0 else 1 + Position(entries[1..], key)
  }

  function Without(entries: seq<Entry>, key: Key): seq<Entry> {
    var i := Position(entries, key);
    if i == |entries| then entries else entries[..i] + entries[i + 1..]
  }

  /** What is left when the oldest entries go until the rest fits. */
  function Fit(entries: seq<Entry>, room: nat): (kept: seq<Entry>)
    ensures |kept| <= |entries| && kept == entries[|entries| - |kept|..] && Sum(kept) <= room
  {
    if Sum(entries) <= room then entries else Fit(entries[1..], room)
  }

  lemma KeysConcat(a: seq<Entry>, b: seq<Entry>)
    ensures Keys(a + b) == Keys(a) + Keys(b)
  {
    assert forall x :: x in a + b <==> x in a || x in b;
  }

  lemma {:induction false} SumConcat(a: seq<Entry>, b: seq<Entry>)
    ensures Sum(a + b) == Sum(a) + Sum(b)
  {
    if a == [] {
      assert a + b == b;
    } else {
      SumConcat(a[1..], b);
      assert (a + b)[1..] == a[1..] + b;
    }
  }

  lemma SumOne(e: Entry)
    ensures Sum([e]) == Bytes(e)
  {
    assert [e][1..] == [];
  }

  lemma FirstIsDistinct(entries: seq<Entry>)
    requires entries != [] && DistinctKeys(entries)
    ensures DistinctKeys(entries[1..]) && Keys(entries[1..]) == Keys(entries) - {KeyOf(entries[0])}
  {
    KeysCons(entries[0], entries[1..]);
    assert entries == [entries[0]] + entries[1..];
    forall e | e in entries[1..] ensures KeyOf(e) != KeyOf(entries[0]) {
      var j :| 0 <= j < |entries[1..]| && entries[1..][j] == e;
      assert entries[j + 1] == e;
    }
  }

  lemma WithoutSum(entries: seq<Entry>, key: Key)
    ensures key !in Keys(entries) ==> Without(entries, key) == entries
    ensures key in Keys(entries) ==>
              Sum(entries) == Sum(Without(entries, key)) + Bytes(entries[Position(entries, key)])
  {
    var i := Position(entries, key);
    hide Position, Keys, Bytes;
    if i < |entries| {
      var front, e, back := entries[..i], entries[i], entries[i + 1..];
      hide Sum;
      assert entries == front + ([e] + back);
      SumConcat(front, [e] + back);
      SumConcat([e], back);
      SumConcat(front, back);
      SumOne(e);
    }
  }

  /** `rest` has the entries of `lru` but the one of this key. */
  predicate Removed(lru: seq<Entry>, rest: seq<Entry>, key: Key) {
    && DistinctKeys(rest) && Keys(rest) == Keys(lru) - {key}
    && forall e | e in rest :: e in lru && KeyOf(e) != key
  }

  lemma RemovedAt(entries: seq<Entry>, i: nat)
    requires DistinctKeys(entries) && i < |entries|
    ensures var rest := entries[..i] + entries[i + 1..];
            DistinctKeys(rest) && forall e | e in rest :: e in entries && KeyOf(e) != KeyOf(entries[i])
  {
    hide KeyOf;
    var rest := entries[..i] + entries[i + 1..];
    assert forall j | 0 <= j < |rest| :: rest[j] == entries[if j < i then j else j + 1];
    forall x | x in rest ensures x in entries && KeyOf(x) != KeyOf(entries[i]) {
      var j :| 0 <= j < |rest| && rest[j] == x;
    }
  }

  lemma KeysAt(entries: seq<Entry>, i: nat)
    requires i < |entries|
    ensures Keys(entries) == Keys(entries[..i] + entries[i + 1..]) + {KeyOf(entries[i])}
  {
    var front, e, back := entries[..i], entries[i], entries[i + 1..];
    assert entries == front + ([e] + back);
    KeysConcat(front, [e] + back);
    KeysCons(e, back);
    KeysConcat(front, back);
    hide Keys, KeyOf;
  }

  /** Removing an entry takes its key away and nothing else. */
  lemma WithoutFacts(entries: seq<Entry>, key: Key)
    requires DistinctKeys(entries)
    ensures Removed(entries, Without(entries, key), key)
  {
    var i := Position(entries, key);
    hide Position, DistinctKeys, KeyOf;
    if i < |entries| {
      RemovedAt(entries, i);
      KeysAt(entries, i);
      assert key !in Keys(entries[..i] + entries[i + 1..]);
    } else {
      forall x | x in entries ensures KeyOf(x) != key { assert KeyOf(x) in Keys(entries); }
    }
  }

  lemma WithoutConcat(a: seq<Entry>, b: seq<Entry>, key: Key)
    requires key !in Keys(b) && DistinctKeys(a + b)
    ensures Without(a + b, key) == Without(a, key) + b
  {
    var i, j := Position(a, key), Position(a + b, key);
    KeysConcat(a, b);
    hide Position, Keys;
    if key in Keys(a) {
      assert (a + b)[i] == a[i];
      assert i == j;
      assert (a + b)[..i] == a[..i] && (a + b)[i + 1..] == a[i + 1..] + b;
    }
  }

  lemma AppendDistinct(entries: seq<Entry>, e: Entry)
    requires DistinctKeys(entries) && KeyOf(e) !in Keys(entries)
    ensures DistinctKeys(entries + [e]) && Keys(entries + [e]) == Keys(entries) + {KeyOf(e)}
    ensures Sum(entries + [e]) == Sum(entries) + Bytes(e)
  {
    KeysConcat(entries, [e]);
    KeysCons(e, []);
    assert [e] + [] == [e];
    SumConcat(entries, [e]);
    SumOne(e);
  }

  // ---- The longest run that fits -------------------------------------------------------

  /** `Fit` is the longest suffix, that is the longest most recently used run, that fits:
      the run from position j on is within it exactly if it fits. */
  lemma {:induction false} FitIsLongest(entries: seq<Entry>, room: nat, j: nat)
    requires j <= |entries|
    ensures Sum(entries[j..]) <= room <==> |entries| - |Fit(entries, room)| <= j
  {
    if Sum(entries) <= room {
      SumConcat(entries[..j], entries[j..]);
      assert entries == entries[..j] + entries[j..];
    } else if j > 0 {
      FitIsLongest(entries[1..], room, j - 1);
      assert entries[1..][j - 1..] == entries[j..];
    } else {
      assert entries[0..] == entries;
    }
  }

  /** Two suffixes of the same length are the same. */
  lemma FitIs(entries: seq<Entry>, room: nat, d: nat)
    requires d <= |entries| && Sum(entries[d..]) <= room && (d > 0 ==> Sum(entries[d - 1..]) > room)
    ensures Fit(entries, room) == entries[d..]
  {
    FitIsLongest(entries, room, d);
    if d > 0 { FitIsLongest(entries, room, d - 1); }
  }

  /** What has gone stays gone when more is added. */
  lemma FitAgain(entries: seq<Entry>, e: Entry, room: nat)
    ensures Fit(Fit(entries, room) + [e], room) == Fit(entries + [e], room)
  {
    hide Fit, Sum, Bytes;
    var kept := Fit(entries, room);
    var d, all := |entries| - |kept|, entries + [e];
    var fit := Fit(all, room);
    var c := |all| - |fit|;
    FitIsLongest(all, room, c);
    if c < d {
      FitIsLongest(entries, room, c);
      assert all[c..] == entries[c..] + [e];
      SumConcat(entries[c..], [e]);
    }
    assert kept + [e] == all[d..];
    assert all[d..][c - d..] == all[c..];
    if c > d {
      FitIsLongest(all, room, c - 1);
      assert all[d..][c - d - 1..] == all[c - 1..];
    }
    FitIs(kept + [e], room, c - d);
  }

  lemma FitStep(entries: seq<Entry>, room: nat)
    ensures Sum(entries) <= room ==> Fit(entries, room) == entries
    ensures Sum(entries) > room ==> entries != [] && Fit(entries, room) == Fit(entries[1..], room)
  {
  }

  lemma DropConcat(a: seq<Entry>, b: seq<Entry>, k: nat)
    requires k <= |a + b|
    ensures (a + b)[k..] == if k < |a| then a[k..] + b else b[k - |a|..]
  {
  }

  /** The older entries stay only while all the newer ones do. */
  lemma FitConcat(a: seq<Entry>, b: seq<Entry>, room: nat) returns (older: seq<Entry>)
    ensures Fit(a + b, room) == older + Fit(b, room) && (older != [] ==> Fit(b, room) == b)
    ensures forall e | e in older :: e in a
  {
    hide Fit, Sum;
    var all := a + b;
    var d := |all| - |Fit(all, room)|;
    FitStep(b, room);
    DropConcat(a, b, |a|);
    DropConcat(a, b, d);
    FitIsLongest(all, room, |a|);
    if d <= |a| {
      older := a[d..];
    } else {
      older := [];
      DropConcat(a, b, d - 1);
      FitIsLongest(all, room, d - 1);
      FitIsLongest(all, room, d);
      FitIs(b, room, d - |a|);
    }
  }

  lemma {:induction false} FitDistinct(entries: seq<Entry>, room: nat)
    requires DistinctKeys(entries)
    ensures DistinctKeys(Fit(entries, room)) && Keys(Fit(entries, room)) <= Keys(entries)
    ensures forall e | e in Fit(entries, room) :: e in entries
  {
    if Sum(entries) > room {
      FirstIsDistinct(entries);
      FitDistinct(entries[1..], room);
    }
  }

  lemma SuffixHolds(entries: seq<Entry>, d: nat, j: nat)
    requires DistinctKeys(entries) && d <= |entries| && j < |entries|
    ensures KeyOf(entries[j]) in Keys(entries[d..]) <==> d <= j
    ensures d <= j ==> entries[j] in entries[d..]
  {
    hide KeyOf;
    var kept := entries[d..];
    if d <= j {
      assert kept[j - d] == entries[j];
    } else {
      forall e | e in kept ensures KeyOf(e) != KeyOf(entries[j]) {
        var i :| 0 <= i < |kept| && kept[i] == e;
        assert entries[d + i] == e;
      }
    }
  }

  /** An entry stays exactly if it and everything used since fits. */
  lemma FitHolds(entries: seq<Entry>, room: nat, j: nat)
    requires DistinctKeys(entries) && j < |entries|
    ensures KeyOf(entries[j]) in Keys(Fit(entries, room)) <==> Sum(entries[j..]) <= room
    ensures Sum(entries[j..]) <= room ==> entries[j] in Fit(entries, room)
  {
    FitIsLongest(entries, room, j);
    SuffixHolds(entries, |entries| - |Fit(entries, room)|, j);
    hide Fit, Sum, KeyOf, Keys, DistinctKeys;
  }

  // ---- Statuses and retained fragments -----------------------------------------------------

  datatype View = View(status: map<Owner, Status>, memberStatus: map<Owner, Status>, lru: seq<Entry>)

  predicate Retained(v: View, key: Key) {
    key in Keys(v.lru)
  }

  function StatusAt(v: View, key: Key): Option<Status> {
    match key
    case SourceKey(o) => if o in v.status then Some(v.status[o]) else None
    case MemberKey(d) => if d in v.memberStatus then Some(v.memberStatus[d]) else None
  }

  function SetStatus(v: View, key: Key, value: Status): View {
    match key
    case SourceKey(o) => v.(status := v.status[o := value])
    case MemberKey(d) => v.(memberStatus := v.memberStatus[d := value])
  }

  /** The status published with a fragment: members are always complete. */
  function ValueOf(e: Entry): Status {
    if e.Text? then StatusOf(e.fragment) else Indexed
  }

  /** An owner or class is indexed exactly if its complete fragment is retained. */
  ghost predicate Consistent(v: View) {
    && DistinctKeys(v.lru)
    && (forall e | e in v.lru :: StatusAt(v, KeyOf(e)) == Some(ValueOf(e)))
    && (forall key | StatusAt(v, key) == Some(Indexed) :: Retained(v, key))
  }

  lemma ConsistentIsDistinct(v: View)
    requires Consistent(v)
    ensures DistinctKeys(v.lru)
  {
  }

  lemma SetAt(v: View, key: Key, value: Status, other: Key)
    ensures StatusAt(SetStatus(v, key, value), other) == if other == key then Some(value) else StatusAt(v, other)
    ensures SetStatus(v, key, value).lru == v.lru
  {
  }

  lemma SameStatuses(a: View, b: View, key: Key)
    requires a.status == b.status && a.memberStatus == b.memberStatus
    ensures StatusAt(a, key) == StatusAt(b, key)
  {
  }

  lemma SetLru(v: View, key: Key, value: Status, lru: seq<Entry>)
    ensures SetStatus(v.(lru := lru), key, value) == SetStatus(v, key, value).(lru := lru)
  {
  }

  lemma SetSame(v: View, key: Key, value: Status)
    requires StatusAt(v, key) == Some(value)
    ensures SetStatus(v, key, value) == v
  {
    assert key.SourceKey? ==> v.status[key.owner := value] == v.status;
    assert key.MemberKey? ==> v.memberStatus[key.descriptor := value] == v.memberStatus;
  }

  /** The view once a fragment has been removed and the status set, */
  function Dropped(v: View, key: Key, value: Status): View {
    SetStatus(v, key, value).(lru := Without(v.lru, key))
  }

  /** and once a fragment has been put behind all others. */
  function Put(v: View, e: Entry): View {
    SetStatus(v, KeyOf(e), ValueOf(e)).(lru := Without(v.lru, KeyOf(e)) + [e])
  }

  lemma DropKeeps(v: View, key: Key, value: Status)
    requires Consistent(v) && value != Indexed
    ensures Consistent(Dropped(v, key, value))
  {
    var after := Dropped(v, key, value);
    WithoutFacts(v.lru, key);
    forall other ensures StatusAt(after, other) == if other == key then Some(value) else StatusAt(v, other) {
      SetAt(v, key, value, other);
    }
    hide Without, Keys, KeyOf, DistinctKeys, SetStatus, StatusAt, ValueOf;
  }

  lemma PutKeeps(v: View, e: Entry)
    requires Consistent(v)
    ensures Consistent(Put(v, e))
  {
    hide Without, Keys, KeyOf, DistinctKeys, SetStatus, StatusAt, ValueOf;
    var key, after := KeyOf(e), Put(v, e);
    WithoutFacts(v.lru, key);
    AppendDistinct(Without(v.lru, key), e);
    forall other ensures StatusAt(after, other) == if other == key then Some(ValueOf(e)) else StatusAt(v, other) {
      SetAt(v, key, ValueOf(e), other);
      SameStatuses(after, SetStatus(v, key, ValueOf(e)), other);
    }
  }

  // ---- Eviction --------------------------------------------------------------------------

  /** The statuses once the fragments with these keys have been evicted. */
  function Mark(v: View, gone: set<Key>): View {
    View(map o | o in v.status :: if SourceKey(o) in gone then Evicted else v.status[o],
         map d | d in v.memberStatus :: if MemberKey(d) in gone then Evicted else v.memberStatus[d],
         v.lru)
  }

  lemma MarkAt(v: View, gone: set<Key>, key: Key)
    ensures StatusAt(Mark(v, gone), key)
            == if key in gone && StatusAt(v, key).Some? then Some(Evicted) else StatusAt(v, key)
  {
  }

  lemma MarkNothing(v: View)
    ensures Mark(v, {}) == v
  {
  }

  lemma MarkOne(v: View, gone: set<Key>, key: Key)
    requires StatusAt(v, key).Some?
    ensures Mark(v, gone + {key}) == SetStatus(Mark(v, gone), key, Evicted)
  {
  }

  /** What `evict` makes of the store: what is left is the longest run that fits, and what
      went is marked, whatever its status was. */
  function AfterEviction(v: View, room: nat): View {
    Mark(v, Keys(v.lru) - Keys(Fit(v.lru, room))).(lru := Fit(v.lru, room))
  }

  lemma MarkKeys(v: View, gone: set<Key>)
    ensures Mark(v, gone).status.Keys == v.status.Keys && Mark(v, gone).memberStatus.Keys == v.memberStatus.Keys
  {
  }

  /** Fragments go, none comes, and exactly those that go leave EVICTED behind. */
  lemma EvictionShape(v: View, room: nat)
    requires DistinctKeys(v.lru)
    ensures var b := AfterEviction(v, room);
            && DistinctKeys(b.lru) && b.status.Keys == v.status.Keys && b.memberStatus.Keys == v.memberStatus.Keys
            && (forall e | e in b.lru :: e in v.lru)
            && (forall key :: Retained(b, key) ==> Retained(v, key))
            && (forall key :: StatusAt(b, key)
                              == (if Retained(v, key) && !Retained(b, key) && StatusAt(v, key).Some?
                                  then Some(Evicted) else StatusAt(v, key)))
  {
    var gone, b := Keys(v.lru) - Keys(Fit(v.lru, room)), AfterEviction(v, room);
    FitDistinct(v.lru, room);
    hide Keys, DistinctKeys, StatusAt, Fit;
    MarkKeys(v, gone);
    hide Mark;
    forall key ensures StatusAt(b, key) == if key in gone && StatusAt(v, key).Some? then Some(Evicted)
                                           else StatusAt(v, key)
    {
      MarkAt(v, gone, key);
      SameStatuses(b, Mark(v, gone), key);
    }
  }

  lemma EvictionKeeps(v: View, room: nat)
    requires Consistent(v)
    ensures Consistent(AfterEviction(v, room))
  {
    EvictionShape(v, room);
    var b := AfterEviction(v, room);
    forall e | e in b.lru ensures Retained(b, KeyOf(e)) {
    }
    hide Keys, KeyOf, DistinctKeys, AfterEviction, StatusAt, ValueOf, Retained;
  }

  /** The eviction loop from `all` has come to `v`. */
  ghost predicate Evicting(all: View, v: View, room: nat) {
    && DistinctKeys(v.lru) && Keys(v.lru) <= Keys(all.lru) && Fit(v.lru, room) == Fit(all.lru, room)
    && (forall e | e in v.lru :: StatusAt(all, KeyOf(e)).Some?)
    && v == Mark(all, Keys(all.lru) - Keys(v.lru)).(lru := v.lru)
  }

  lemma EvictStarts(all: View, room: nat)
    requires Consistent(all)
    ensures Evicting(all, all, room)
  {
    MarkNothing(all);
    assert Keys(all.lru) - Keys(all.lru) == {};
    hide Keys, KeyOf, Fit, Mark, StatusAt, ValueOf;
  }

  /** One turn of it. */
  lemma EvictStep(all: View, v: View, room: nat)
    requires Evicting(all, v, room) && Sum(v.lru) > room
    ensures v.lru != [] && Sum(v.lru) == Bytes(v.lru[0]) + Sum(v.lru[1..])
    ensures Evicting(all, SetStatus(v, KeyOf(v.lru[0]), Evicted).(lru := v.lru[1..]), room)
  {
    assert v.lru != [];
    var first, rest := KeyOf(v.lru[0]), v.lru[1..];
    var gone := Keys(all.lru) - Keys(v.lru);
    FirstIsDistinct(v.lru);
    assert v.lru[0] in v.lru;
    assert first in Keys(v.lru);
    assert Keys(all.lru) - Keys(rest) == gone + {first};
    forall e | e in rest ensures e in v.lru {
    }
    MarkOne(all, gone, first);
    hide Keys, DistinctKeys, Mark, KeyOf, StatusAt;
  }

  lemma EvictEnds(all: View, v: View, room: nat)
    requires Evicting(all, v, room) && Sum(v.lru) <= room
    ensures v == AfterEviction(all, room)
  {
    FitStep(v.lru, room);
    hide Keys, DistinctKeys, Mark, Fit;
  }

  /** A store within its budget evicts nothing. */
  lemma WithinBudget(v: View, room: nat)
    requires Sum(v.lru) <= room
    ensures AfterEviction(v, room) == v
  {
    MarkNothing(v);
    hide Keys, Sum, Mark;
    assert Keys(v.lru) - Keys(v.lru) == {};
  }

  // ---- What an operation on one fragment does to the others ------------------------------

  /** No fragment but this one is added, and no other status changes, but that a fragment
      that goes leaves EVICTED behind. */
  ghost predicate OthersStay(key: Key, a: View, b: View) {
    && b.status.Keys == a.status.Keys && b.memberStatus.Keys == a.memberStatus.Keys
    && forall other | other != key ::
         && (Retained(b, other) ==> Retained(a, other))
         && StatusAt(b, other) == (if Retained(a, other) && !Retained(b, other) && StatusAt(a, other).Some?
                                   then Some(Evicted) else StatusAt(a, other))
  }

  /** The owner or class has this status for good; with a fragment that may be evicted,
      exactly as long as the fragment is retained. */
  predicate Came(v: View, key: Key, value: Status, kept: bool) {
    StatusAt(v, key).Some? ==>
      && (!kept ==> StatusAt(v, key) == Some(value) && !Retained(v, key))
      && (kept ==> StatusAt(v, key) == Some(if Retained(v, key) then value else Evicted))
  }

  lemma NothingStays(key: Key, a: View)
    ensures OthersStay(key, a, a)
  {
  }

  lemma CameStays(a: View, b: View, key: Key, other: Key, value: Status, kept: bool)
    requires OthersStay(key, a, b) && other != key && Came(a, other, value, kept)
    ensures Came(b, other, value, kept)
  {
    assert StatusAt(b, other).Some? ==> StatusAt(a, other).Some?;
  }

  lemma SetKeys(v: View, key: Key, value: Status)
    requires StatusAt(v, key).Some?
    ensures SetStatus(v, key, value).status.Keys == v.status.Keys
    ensures SetStatus(v, key, value).memberStatus.Keys == v.memberStatus.Keys
  {
  }

  /** Failing or skipping an owner or class removes its fragment and no other. */
  lemma DropOthers(v: View, key: Key, value: Status)
    requires DistinctKeys(v.lru) && StatusAt(v, key).Some?
    ensures var b := Dropped(v, key, value); OthersStay(key, v, b) && Came(b, key, value, false)
  {
    WithoutFacts(v.lru, key);
    SetKeys(v, key, value);
    forall other
      ensures StatusAt(Dropped(v, key, value), other) == if other == key then Some(value) else StatusAt(v, other)
    {
      SetAt(v, key, value, other);
    }
    hide Keys, KeyOf, Without, DistinctKeys, StatusAt, SetStatus;
  }

  lemma PutShape(v: View, e: Entry)
    requires DistinctKeys(v.lru) && StatusAt(v, KeyOf(e)).Some?
    ensures var put, key := Put(v, e), KeyOf(e);
            && DistinctKeys(put.lru) && put.status.Keys == v.status.Keys
            && put.memberStatus.Keys == v.memberStatus.Keys && Retained(put, key)
            && forall other :: && (other != key ==> (Retained(put, other) <==> Retained(v, other)))
                               && StatusAt(put, other) == if other == key then Some(ValueOf(e)) else StatusAt(v, other)
  {
    var key := KeyOf(e);
    WithoutFacts(v.lru, key);
    AppendDistinct(Without(v.lru, key), e);
    SetKeys(v, key, ValueOf(e));
    hide Keys, KeyOf, Without, DistinctKeys, StatusAt, SetStatus, ValueOf;
    forall other ensures StatusAt(Put(v, e), other) == if other == key then Some(ValueOf(e)) else StatusAt(v, other) {
      SetAt(v, key, ValueOf(e), other);
      SameStatuses(Put(v, e), SetStatus(v, key, ValueOf(e)), other);
    }
  }

  /** Publishing a fragment may evict others, itself included, and changes nothing else. */
  lemma PublishOthers(v: View, e: Entry, room: nat)
    requires DistinctKeys(v.lru) && StatusAt(v, KeyOf(e)).Some?
    ensures var b := AfterEviction(Put(v, e), room);
            OthersStay(KeyOf(e), v, b) && Came(b, KeyOf(e), ValueOf(e), true)
  {
    PutShape(v, e);
    EvictionShape(Put(v, e), room);
    hide Put, AfterEviction, StatusAt, KeyOf, ValueOf, DistinctKeys, Retained;
  }

  lemma PutSum(v: View, e: Entry)
    requires DistinctKeys(v.lru)
    ensures Sum(Put(v, e).lru) == Sum(Without(v.lru, KeyOf(e))) + Bytes(e)
    ensures e in v.lru ==> Sum(Put(v, e).lru) == Sum(v.lru)
  {
    WithoutFacts(v.lru, KeyOf(e));
    AppendDistinct(Without(v.lru, KeyOf(e)), e);
    WithoutSum(v.lru, KeyOf(e));
    if e in v.lru {
      assert KeyOf(e) in Keys(v.lru);
      assert v.lru[Position(v.lru, KeyOf(e))] == e;
    }
    hide Without, Keys, KeyOf, DistinctKeys, Sum, Bytes;
  }

  lemma HeldAt(v: View, e: Entry)
    requires DistinctKeys(v.lru) && e in v.lru
    ensures var i := Position(v.lru, KeyOf(e));
            i < |v.lru| && v.lru[i] == e && Without(v.lru, KeyOf(e)) == v.lru[..i] + v.lru[i + 1..]
  {
    assert KeyOf(e) in Keys(v.lru);
  }

  lemma BytesExactly(e: Entry)
    ensures Bytes(e) == if e.Text? then 2 * e.fragment.length + e.fragment.rest + 304 else e.members.bytes
  {
  }

  // ---- The store -----------------------------------------------------------------------

  class SearchIndexStore {
    const maxBytes: nat
    var catalogBytes: nat
    var status: map<Owner, Status>        // sourceStatus
    var memberStatus: map<Owner, Status>
    var lru: seq<Entry>                   // with sources and members
    var retainedBytes: nat

    function Contents(): View
      reads this
    {
      View(status, memberStatus, lru)
    }

    predicate Counted()
      reads this
    {
      catalogBytes <= maxBytes && retainedBytes == catalogBytes + Sum(lru)
    }

    ghost predicate Valid()
      reads this
    {
      Counted() && retainedBytes <= maxBytes && Consistent(Contents())
    }

    /** What the catalog leaves for fragments. */
    function Room(): nat
      reads this
    {
      if catalogBytes <= maxBytes then maxBytes - catalogBytes else 0
    }

    constructor (budget: nat)
      ensures Valid() && maxBytes == budget && Contents() == View(map[], map[], [])
    {
      maxBytes, catalogBytes, retainedBytes := budget, 0, 0;
      status, memberStatus, lru := map[], map[], [];
    }

    /** `initialize` for a new publication; false stands for IndexLimitException. */
    method Initialize(baseBytes: nat, owners: set<Owner>, noCode: set<Owner>, descriptors: set<Owner>)
      returns (ok: bool)
      requires Valid()
      modifies this
      ensures Valid() && ok == (baseBytes <= maxBytes)
      ensures ok ==>
                && catalogBytes == baseBytes && lru == []
                && status.Keys == owners && memberStatus.Keys == descriptors
                && (forall o | o in owners :: status[o] == if o in noCode then Skipped else Pending)
                && (forall d | d in descriptors :: memberStatus[d] == Pending)
      ensures !ok ==> Contents() == old(Contents())
    {
      if baseBytes > maxBytes {
        return false;
      }
      catalogBytes, retainedBytes, lru := baseBytes, baseBytes, [];
      status := map o | o in owners :: if o in noCode then Skipped else Pending;
      memberStatus := map d | d in descriptors :: Pending;
      return true;
    }

    method SetState(key: Key, value: Status)
      modifies this`status, this`memberStatus
      ensures Contents() == SetStatus(old(Contents()), key, value)
    {
      match key {
        case SourceKey(owner) => status := status[owner := value];
        case MemberKey(descriptor) => memberStatus := memberStatus[descriptor := value];
      }
    }

    /** `remove`. */
    method Remove(key: Key)
      requires Counted()
      modifies this`lru, this`retainedBytes
      ensures Counted() && lru == Without(old(lru), key) && retainedBytes <= old(retainedBytes)
    {
      WithoutSum(lru, key);
      var i := Position(lru, key);
      if i < |lru| {
        retainedBytes := retainedBytes - Bytes(lru[i]);
        lru := lru[..i] + lru[i + 1..];
      }
    }

    /** One turn of the loop in `evict`. */
    method EvictOldest(ghost all: View)
      requires Counted() && retainedBytes > maxBytes && Evicting(all, Contents(), Room())
      modifies this`lru, this`retainedBytes, this`status, this`memberStatus
      ensures Counted() && Evicting(all, Contents(), Room()) && |lru| < |old(lru)|
    {
      hide Keys, KeyOf, Bytes, Sum, Fit, Mark, SetStatus, StatusAt, Evicting;
      ghost var before := Contents();
      EvictStep(all, before, Room());
      var oldest := lru[0];
      retainedBytes := retainedBytes - Bytes(oldest);
      lru := lru[1..];
      SetState(KeyOf(oldest), Evicted);
      SetLru(before, KeyOf(oldest), Evicted, lru);
    }

    /** `evict`: the oldest fragments go, whatever their status, until the rest fits. */
    method Evict()
      requires Counted() && Consistent(Contents())
      modifies this`lru, this`retainedBytes, this`status, this`memberStatus
      ensures Valid() && Contents() == AfterEviction(old(Contents()), Room())
    {
      hide Keys, KeyOf, DistinctKeys, Sum, Fit, Mark, StatusAt, Consistent, Evicting, AfterEviction;
      ghost var all, room := Contents(), Room();
      EvictStarts(all, room);
      EvictionKeeps(all, room);
      while retainedBytes > maxBytes
        invariant Counted() && Evicting(all, Contents(), room)
        decreases |lru|
      {
        EvictOldest(all);
      }
      EvictEnds(all, Contents(), room);
    }

    /** `failSource`, `failMembers` and `skipSource`: the fragment goes, the others stay. */
    method Set(key: Key, value: Status)
      requires Valid() && (value == Failed || value == Skipped)
      modifies this`lru, this`retainedBytes, this`status, this`memberStatus
      ensures Valid()
      ensures Contents() == if StatusAt(old(Contents()), key).Some? then Dropped(old(Contents()), key, value)
                            else old(Contents())
      ensures OthersStay(key, old(Contents()), Contents()) && Came(Contents(), key, value, false)
    {
      hide Keys, KeyOf, DistinctKeys, OthersStay, Consistent, SetStatus, Without, Sum;
      ghost var before := Contents();
      NothingStays(key, before);
      ConsistentIsDistinct(before);
      if StatusAt(Contents(), key).Some? {
        DropKeeps(before, key, value);
        DropOthers(before, key, value);
        Remove(key);
        SetState(key, value);
        assert Contents() == Dropped(before, key, value) by { SetLru(before, key, value, lru); }
      }
    }

    /** `lru.get`: a fragment that is there already becomes the most recently used. */
    method Touch(e: Entry)
      requires Valid() && e in lru && StatusAt(Contents(), KeyOf(e)) == Some(ValueOf(e))
      modifies this`lru
      ensures Contents() == Put(old(Contents()), e) == AfterEviction(Put(old(Contents()), e), Room())
    {
      hide Keys, KeyOf, DistinctKeys, Sum, Position, SetStatus, StatusAt, Consistent, AfterEviction, ValueOf, Without;
      ConsistentIsDistinct(Contents());
      var i := Position(lru, KeyOf(e));
      PutSum(Contents(), e);
      WithinBudget(Put(Contents(), e), Room());
      SetSame(Contents(), KeyOf(e), ValueOf(e));
      HeldAt(Contents(), e);
      lru := lru[..i] + lru[i + 1..] + [e];
    }

    /** A fragment is put behind all others, in place of the one with its key. */
    method Append(e: Entry)
      requires Counted()
      modifies this`lru, this`retainedBytes, this`status, this`memberStatus
      ensures Counted() && Contents() == Put(old(Contents()), e)
      ensures retainedBytes == catalogBytes + Sum(Without(old(lru), KeyOf(e)))
                               + if e.Text? then 2 * e.fragment.length + e.fragment.rest + 304 else e.members.bytes
    {
      ghost var before := Contents();
      BytesExactly(e);
      var key := KeyOf(e);
      hide Bytes, SetStatus, KeyOf, ValueOf, Without;
      Remove(key);
      SumConcat(lru, [e]);
      SumOne(e);
      hide Sum;
      lru := lru + [e];
      retainedBytes := retainedBytes + Bytes(e);
      SetState(key, ValueOf(e));
      SetLru(before, key, ValueOf(e), lru);
    }

    /** `publishSource` and `publishMembers` from the lock on: the fragment becomes the most
        recently used and the oldest go until the rest fits, which may be this very one. */
    method Publish(e: Entry)
      requires Valid() && StatusAt(Contents(), KeyOf(e)).Some?
      modifies this`lru, this`retainedBytes, this`status, this`memberStatus
      ensures Valid() && Contents() == AfterEviction(Put(old(Contents()), e), Room())
    {
      hide Keys, KeyOf, DistinctKeys, Consistent, Put, StatusAt, Sum, AfterEviction, ValueOf;
      ConsistentIsDistinct(Contents());
      PutKeeps(Contents(), e);
      PutSum(Contents(), e);
      if e in lru && StatusAt(Contents(), KeyOf(e)) == Some(ValueOf(e)) {
        Touch(e);
      } else {
        Append(e);
        Evict();
      }
    }

    /** `publishSource`: a text that is too long fails its owner. */
    method PublishSource(owner: Owner, f: Fragment)
      requires Valid()
      modifies this`lru, this`retainedBytes, this`status, this`memberStatus
      ensures Valid()
      ensures owner !in old(status) ==> Contents() == old(Contents())
      ensures owner in old(status) ==>
                Contents() == if 2 * f.length > maxBytes || f.length > 4_000_000
                              then Dropped(old(Contents()), SourceKey(owner), Failed)
                              else AfterEviction(Put(old(Contents()), Text(owner, f)), Room())
      ensures OthersStay(SourceKey(owner), old(Contents()), Contents())
      ensures Came(Contents(), SourceKey(owner), if Refused(maxBytes, f) then Failed else StatusOf(f),
                   !Refused(maxBytes, f))
    {
      hide Keys, Sum, Fit, Mark, OthersStay, Consistent, AfterEviction, Put, Retained, DistinctKeys;
      ghost var before := Contents();
      NothingStays(SourceKey(owner), before);
      ConsistentIsDistinct(before);
      if Refused(maxBytes, f) {
        Set(SourceKey(owner), Failed);
      } else if owner in status {
        PublishOthers(before, Text(owner, f), Room());
        Publish(Text(owner, f));
      }
    }

    /** `publishMembers`. */
    method PublishMembers(descriptor: Owner, m: Members)
      requires Valid()
      modifies this`lru, this`retainedBytes, this`status, this`memberStatus
      ensures Valid()
      ensures Contents() == if descriptor in old(memberStatus)
                            then AfterEviction(Put(old(Contents()), Names(descriptor, m)), Room()) else old(Contents())
      ensures OthersStay(MemberKey(descriptor), old(Contents()), Contents())
      ensures Came(Contents(), MemberKey(descriptor), Indexed, true)
    {
      hide Keys, Sum, Fit, Mark, OthersStay, Consistent, AfterEviction, Put, Retained, DistinctKeys;
      ghost var before := Contents();
      NothingStays(MemberKey(descriptor), before);
      ConsistentIsDistinct(before);
      if descriptor in memberStatus {
        PublishOthers(before, Names(descriptor, m), Room());
        Publish(Names(descriptor, m));
      }
    }
  }
}
