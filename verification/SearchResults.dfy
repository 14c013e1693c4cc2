/** Retained search results and their cursors (SearchService.java:463-514).

    Hits, keys and hashes are only compared, so integers name them; a hash stands for what
    it was computed from.  `SearchCodec` shows that a token carries its cursor unchanged. */
module SearchResults {
  import opened Common

  const MAX_RESULTS: nat := 256
  const RESULT_BUDGET: nat := 16 * 1024 * 1024
  const CURSOR_TTL: nat := 600_000_000_000

  type PageSize = n: nat | 1 <= n <= 100 witness 1

  /** The options a query hash covers. */
  datatype Query = Query(text: int, pageSize: PageSize)

  datatype View = View(key: int, generation: int)

  datatype Snapshot = Snapshot(storeId: nat, resultHash: int, view: View, query: Query, hits: seq<int>,
                               createdAt: int, bytes: nat)

  datatype Cursor = Cursor(view: View, query: Query, resultHash: int, storeId: nat, position: int)

  datatype Page = Page(hits: seq<int>, next: Option<Cursor>)

  datatype Failure = OptionsChanged | Stale | InvalidPosition | LimitExceeded

  function Min(a: int, b: int): int { if a < b then a else b }

  /** `page`: a slice, and a cursor unless it reaches the end. */
  function PageOf(s: Snapshot, pageSize: nat, from: nat): Page
    requires from <= |s.hits|
  {
    var to := Min(|s.hits|, from + pageSize);
    Page(s.hits[from..to], if to < |s.hits| then Some(Cursor(s.view, s.query, s.resultHash, s.storeId, to)) else None)
  }

  // ---- Retention ----------------------------------------------------------------------

  function Sum(entries: seq<Snapshot>): nat {
    if entries == [] then 0 else entries[0].bytes + Sum(entries[1..])
  }

  lemma {:induction false} SumConcat(a: seq<Snapshot>, b: seq<Snapshot>)
    ensures Sum(a + b) == Sum(a) + Sum(b)
  {
    if a == [] {
      assert a + b == b;
    } else {
      SumConcat(a[1..], b);
      assert (a + b)[1..] == a[1..] + b;
    }
  }

  predicate Expired(entry: Snapshot, now: int) {
    now - entry.createdAt > CURSOR_TTL
  }

  predicate Obsolete(entry: Snapshot, view: View, now: int) {
    entry.view != view || Expired(entry, now)
  }

  /** What `removeIf` keeps; the clock is read anew for each entry, `clock(i)` for the i-th. */
  function Current(entries: seq<Snapshot>, view: View, clock: nat -> int, i: nat): seq<Snapshot> {
    if entries == [] then []
    else (if Obsolete(entries[0], view, clock(i)) then [] else [entries[0]]) + Current(entries[1..], view, clock, i + 1)
  }

  /** These older results may stay beside a new one of this size. */
  predicate Fits(kept: seq<Snapshot>, bytes: nat) {
    kept == [] || (|kept| < MAX_RESULTS && Sum(kept) + bytes <= RESULT_BUDGET)
  }

  predicate DistinctIds(entries: seq<Snapshot>) {
    forall i, j | 0 <= i < j < |entries| :: entries[i].storeId != entries[j].storeId
  }

  /** Entries with different identities, each as it was created. */
  ghost predicate Known(entries: seq<Snapshot>, created: map<nat, Snapshot>) {
    && DistinctIds(entries)
    && forall s | s in entries :: s.storeId in created && created[s.storeId] == s
  }

  lemma {:induction false} CurrentIsPart(entries: seq<Snapshot>, view: View, clock: nat -> int, i: nat)
    ensures var kept := Current(entries, view, clock, i);
            |kept| <= |entries| && Sum(kept) <= Sum(entries) && forall s | s in kept :: s in entries
  {
    if entries != [] {
      CurrentIsPart(entries[1..], view, clock, i + 1);
      var rest := Current(entries[1..], view, clock, i + 1);
      assert [] + rest == rest && ([entries[0]] + rest)[1..] == rest;
    }
  }

  /** An entry is kept exactly if it is of the view and at most ten minutes old when it is
      looked at. */
  lemma {:induction false} CurrentExactly(entries: seq<Snapshot>, view: View, clock: nat -> int, i: nat)
    requires DistinctIds(entries)
    ensures forall j | 0 <= j < |entries| ::
              entries[j] in Current(entries, view, clock, i)
              <==> entries[j].view == view && clock(i + j) - entries[j].createdAt <= 600_000_000_000
  {
    if entries != [] {
      var first, rest := entries[0], entries[1..];
      CurrentExactly(rest, view, clock, i + 1);
      CurrentIsPart(rest, view, clock, i + 1);
      var kept := Current(rest, view, clock, i + 1);
      assert forall s | s in rest :: s.storeId != first.storeId;
      assert Current(entries, view, clock, i) == (if Obsolete(first, view, clock(i)) then [] else [first]) + kept;
      forall j | 0 <= j < |entries|
        ensures entries[j] in Current(entries, view, clock, i)
                <==> entries[j].view == view && clock(i + j) - entries[j].createdAt <= 600_000_000_000
      {
        if j > 0 {
          assert entries[j] == rest[j - 1] && i + j == i + 1 + (j - 1);
        }
      }
    }
  }

  lemma DropStep(entries: seq<Snapshot>, view: View, clock: nat -> int, i: nat)
    requires i < |entries|
    ensures Current(entries[i..], view, clock, i)
            == (if Obsolete(entries[i], view, clock(i)) then [] else [entries[i]])
               + Current(entries[i + 1..], view, clock, i + 1)
    ensures Sum(entries[i..]) == entries[i].bytes + Sum(entries[i + 1..])
  {
    assert entries[i..][1..] == entries[i + 1..];
  }

  lemma DropEnd(entries: seq<Snapshot>, view: View, clock: nat -> int)
    ensures Current(entries[|entries|..], view, clock, |entries|) == [] && Sum(entries[|entries|..]) == 0 == Sum([])
  {
  }

  lemma KnownDistinct(entries: seq<Snapshot>, created: map<nat, Snapshot>)
    requires Known(entries, created)
    ensures DistinctIds(entries)
  {
  }

  lemma DropKnown(entries: seq<Snapshot>, i: nat, created: map<nat, Snapshot>)
    requires i < |entries| && Known(entries, created)
    ensures Known(entries[..i] + entries[i + 1..], created) && Known(entries[i..], created)
  {
    var rest := entries[..i] + entries[i + 1..];
    assert forall j | 0 <= j < |rest| :: rest[j] == entries[if j < i then j else j + 1];
    assert forall j | 0 <= j < |entries[i..]| :: entries[i..][j] == entries[i + j];
  }

  lemma FirstLeaves(entries: seq<Snapshot>, created: map<nat, Snapshot>)
    requires |entries| > 0 && Known(entries, created)
    ensures Known(entries[1..], created) && Sum(entries) == entries[0].bytes + Sum(entries[1..])
  {
    DropKnown(entries, 0, created);
    assert entries[..0] + entries[1..] == entries[1..];
  }

  lemma FirstKnown(s: Snapshot, rest: seq<Snapshot>, created: map<nat, Snapshot>)
    requires Known(rest, created) && s.storeId in created && created[s.storeId] == s
    requires forall e | e in rest :: e.storeId != s.storeId
    ensures Known([s] + rest, created)
  {
  }

  lemma {:induction false} CurrentKnown(entries: seq<Snapshot>, view: View, clock: nat -> int, i: nat,
                                        created: map<nat, Snapshot>)
    requires Known(entries, created)
    ensures Known(Current(entries, view, clock, i), created)
  {
    if entries != [] {
      var rest := entries[1..];
      FirstLeaves(entries, created);
      CurrentKnown(rest, view, clock, i + 1, created);
      CurrentIsPart(rest, view, clock, i + 1);
      var kept := Current(rest, view, clock, i + 1);
      assert entries[0] in entries;
      forall e | e in kept ensures e.storeId != entries[0].storeId {
        var j :| 0 <= j < |rest| && rest[j] == e;
        assert entries[j + 1] == e;
      }
      FirstKnown(entries[0], kept, created);
      assert [] + kept == kept;
    }
  }

  /** A new identity disturbs nothing that is stored. */
  lemma MintKnown(entries: seq<Snapshot>, created: map<nat, Snapshot>, nextId: nat, s: Snapshot)
    requires Known(entries, created) && s.storeId == nextId && forall id | id in created :: id < nextId
    ensures Known(entries, created[nextId := s]) && forall e | e in entries :: e.storeId != nextId
  {
  }

  lemma KnownAt(entries: seq<Snapshot>, i: nat, created: map<nat, Snapshot>)
    requires i < |entries| && Known(entries, created)
    ensures entries[i].storeId in created && created[entries[i].storeId] == entries[i] && DistinctIds(entries)
  {
  }

  lemma AddKnown(entries: seq<Snapshot>, s: Snapshot, created: map<nat, Snapshot>)
    requires Known(entries, created) && s.storeId in created && created[s.storeId] == s
    requires forall e | e in entries :: e.storeId != s.storeId
    ensures Known(entries + [s], created)
  {
  }

  lemma SumAt(entries: seq<Snapshot>, i: nat)
    requires i < |entries|
    ensures Sum(entries) == Sum(entries[..i] + entries[i + 1..]) + entries[i].bytes
  {
    assert entries == entries[..i] + ([entries[i]] + entries[i + 1..]);
    SumConcat(entries[..i], [entries[i]] + entries[i + 1..]);
    SumConcat([entries[i]], entries[i + 1..]);
    SumConcat(entries[..i], entries[i + 1..]);
    assert [entries[i]][1..] == [];
  }

  lemma SumSnoc(entries: seq<Snapshot>, s: Snapshot)
    ensures Sum(entries + [s]) == Sum(entries) + s.bytes
  {
    SumConcat(entries, [s]);
    assert [s][1..] == [];
  }

  // ---- Order of use -----------------------------------------------------------------

  /** The entries are listed by the time of their last use, the least recent first. */
  ghost predicate ByUse(entries: seq<Snapshot>, lastUse: map<nat, nat>, tick: nat) {
    && (forall s | s in entries :: s.storeId in lastUse && lastUse[s.storeId] < tick)
    && (forall i, j | 0 <= i < j < |entries| :: lastUse[entries[i].storeId] < lastUse[entries[j].storeId])
  }

  lemma FirstByUse(s: Snapshot, entries: seq<Snapshot>, kept: seq<Snapshot>, lastUse: map<nat, nat>, tick: nat)
    requires ByUse([s] + entries, lastUse, tick) && ByUse(kept, lastUse, tick) && forall e | e in kept :: e in entries
    ensures ByUse([s] + kept, lastUse, tick)
  {
    var all := [s] + entries;
    assert s in all;
    forall k | 0 <= k < |kept| ensures lastUse[s.storeId] < lastUse[kept[k].storeId] {
      assert kept[k] in kept;
      var j :| 0 <= j < |entries| && entries[j] == kept[k];
      assert all[0] == s && all[j + 1] == kept[k];
    }
  }

  lemma TailByUse(entries: seq<Snapshot>, lastUse: map<nat, nat>, tick: nat)
    requires entries != [] && ByUse(entries, lastUse, tick)
    ensures ByUse(entries[1..], lastUse, tick)
  {
    assert forall j | 0 <= j < |entries[1..]| :: entries[1..][j] == entries[j + 1];
  }

  lemma {:induction false} CurrentByUse(entries: seq<Snapshot>, view: View, clock: nat -> int, i: nat,
                                        lastUse: map<nat, nat>, tick: nat)
    requires ByUse(entries, lastUse, tick)
    ensures ByUse(Current(entries, view, clock, i), lastUse, tick)
  {
    hide ByUse, Obsolete;
    if entries != [] {
      var rest := entries[1..];
      TailByUse(entries, lastUse, tick);
      CurrentByUse(rest, view, clock, i + 1, lastUse, tick);
      CurrentIsPart(rest, view, clock, i + 1);
      var kept := Current(rest, view, clock, i + 1);
      assert [] + kept == kept && entries == [entries[0]] + rest;
      FirstByUse(entries[0], rest, kept, lastUse, tick);
    }
  }

  lemma DropByUse(entries: seq<Snapshot>, i: nat, lastUse: map<nat, nat>, tick: nat)
    requires i < |entries| && ByUse(entries, lastUse, tick)
    ensures ByUse(entries[..i] + entries[i + 1..], lastUse, tick)
  {
    var rest := entries[..i] + entries[i + 1..];
    assert forall j | 0 <= j < |rest| :: rest[j] == entries[if j < i then j else j + 1];
  }

  /** An entry that is used now is the most recently used one. */
  lemma UseByUse(rest: seq<Snapshot>, s: Snapshot, lastUse: map<nat, nat>, tick: nat)
    requires ByUse(rest, lastUse, tick) && forall e | e in rest :: e.storeId != s.storeId
    ensures ByUse(rest + [s], lastUse[s.storeId := tick], tick + 1)
  {
  }

  lemma MovedToEnd(entries: seq<Snapshot>, i: nat)
    requires i < |entries| && DistinctIds(entries)
    ensures var rest := entries[..i] + entries[i + 1..];
            && multiset(rest + [entries[i]]) == multiset(entries)
            && forall e | e in rest :: e.storeId != entries[i].storeId
  {
    assert entries == entries[..i] + ([entries[i]] + entries[i + 1..]);
  }

  lemma TouchedEntries(entries: seq<Snapshot>, i: nat, created: map<nat, Snapshot>, lastUse: map<nat, nat>, tick: nat)
    requires i < |entries| && Known(entries, created) && ByUse(entries, lastUse, tick)
    ensures var s := entries[i]; var after := entries[..i] + entries[i + 1..] + [s];
            && Known(after, created) && ByUse(after, lastUse[s.storeId := tick], tick + 1)
            && Sum(after) == Sum(entries) && multiset(after) == multiset(entries) && |after| == |entries|
  {
    var s, rest := entries[i], entries[..i] + entries[i + 1..];
    DropKnown(entries, i, created);
    DropByUse(entries, i, lastUse, tick);
    KnownAt(entries, i, created);
    hide Known, ByUse, Sum;
    MovedToEnd(entries, i);
    AddKnown(rest, s, created);
    UseByUse(rest, s, lastUse, tick);
    SumAt(entries, i);
    SumSnoc(rest, s);
  }

  // ---- Cursors ----------------------------------------------------------------------

  /** Where the entry is, or the number of entries. */
  function Position(entries: seq<Snapshot>, storeId: nat): (i: nat)
    ensures i <= |entries|
    ensures i < |entries| ==> entries[i].storeId == storeId
    ensures forall j | 0 <= j < i :: entries[j].storeId != storeId
  {
    if entries == [] || entries[0].storeId == storeId then 0
    else
      var i := Position(entries[1..], storeId);
      assert forall j | 0 < j < i + 1 :: entries[j] == entries[1..][j - 1];
      i + 1
  }

  /** What a cursor query is answered from a store. */
  function Answer(entries: seq<Snapshot>, query: Query, cursor: Cursor, view: View, now: int): Result<Page, Failure> {
    var i := Position(entries, cursor.storeId);
    if cursor.query != query then Err(OptionsChanged)
    else if cursor.view != view || i == |entries| || Expired(entries[i], now) then Err(Stale)
    else if entries[i].resultHash != cursor.resultHash || entries[i].view != view then Err(Stale)
    else if cursor.position < 1 || cursor.position >= |entries[i].hits| then Err(InvalidPosition)
    else Ok(PageOf(entries[i], query.pageSize, cursor.position))
  }

  /** What the entry under the cursor's identity decides: it must be of the present view,
      at most ten minutes old, and the result the cursor was made for. */
  predicate Redeems(s: Snapshot, cursor: Cursor, view: View, now: int) {
    s.storeId == cursor.storeId && s.view == view && s.resultHash == cursor.resultHash
    && now - s.createdAt <= 600_000_000_000
  }

  /** Every answer has its exact cause. */
  lemma AnswerExactly(entries: seq<Snapshot>, query: Query, cursor: Cursor, view: View, now: int)
    requires DistinctIds(entries)
    ensures var answer := Answer(entries, query, cursor, view, now);
            && (answer == Err(OptionsChanged) <==> cursor.query != query)
            && (cursor.query == query ==>
                  (answer == Err(Stale)
                   <==> cursor.view != view || forall s | s in entries :: !Redeems(s, cursor, view, now)))
            && (cursor.query == query && cursor.view == view ==>
                  forall s | s in entries && Redeems(s, cursor, view, now) ::
                    answer == if 1 <= cursor.position < |s.hits| then Ok(PageOf(s, query.pageSize, cursor.position))
                              else Err(InvalidPosition))
  {
    var i := Position(entries, cursor.storeId);
    if i < |entries| {
      assert entries[i] in entries;
      forall s | s in entries && s.storeId == cursor.storeId ensures s == entries[i] {
        var j :| 0 <= j < |entries| && entries[j] == s;
      }
    }
  }

  /** Does a cursor query get as far as finding a live entry, and so use it? */
  predicate Uses(entries: seq<Snapshot>, query: Query, cursor: Cursor, view: View, now: int) {
    var i := Position(entries, cursor.storeId);
    cursor.query == query && cursor.view == view && i < |entries| && now - entries[i].createdAt <= 600_000_000_000
  }

  /** Does it find an expired entry? */
  predicate Expires(entries: seq<Snapshot>, query: Query, cursor: Cursor, view: View, now: int) {
    var i := Position(entries, cursor.storeId);
    cursor.query == query && cursor.view == view && i < |entries| && now - entries[i].createdAt > 600_000_000_000
  }

  // ---- Retaining --------------------------------------------------------------------

  /** `rest` is the longest suffix, that is the longest run of most recently used
      entries, that fits beside a new result of this size. */
  predicate LongestFit(entries: seq<Snapshot>, rest: seq<Snapshot>, bytes: nat) {
    exists k | 0 <= k <= |entries| ::
      rest == entries[k..] && Fits(rest, bytes) && forall j | 0 <= j < k :: !Fits(entries[j..], bytes)
  }

  /** `after` holds the new result and the longest run of current entries that fits. */
  predicate Retained(before: seq<Snapshot>, after: seq<Snapshot>, snapshot: Snapshot, clock: nat -> int) {
    && after != [] && after[|after| - 1] == snapshot
    && LongestFit(Current(before, snapshot.view, clock, 0), after[..|after| - 1], snapshot.bytes)
  }

  lemma FitsBeside(rest: seq<Snapshot>, s: Snapshot)
    requires Fits(rest, s.bytes) && s.bytes <= RESULT_BUDGET
    ensures Sum(rest + [s]) == Sum(rest) + s.bytes <= RESULT_BUDGET && |rest + [s]| <= MAX_RESULTS
  {
    SumSnoc(rest, s);
  }

  /** The access-ordered map, least recently used first, with its byte count. */
  class SearchResults {
    var results: seq<Snapshot>
    var resultBytes: int
    /** The next identity to mint. */
    var nextId: nat
    /** Every snapshot ever retained, by its identity. */
    ghost var created: map<nat, Snapshot>
    /** When each snapshot was last put or found, and the time of the next use. */
    ghost var lastUse: map<nat, nat>
    ghost var tick: nat

    constructor ()
      ensures Valid() && results == [] && created == map[]
    {
      results, resultBytes, nextId := [], 0, 0;
      created, lastUse, tick := map[], map[], 0;
    }

    /** The byte count is right, both limits hold, and the list is in order of last use. */
    ghost predicate Valid()
      reads this
    {
      && resultBytes == Sum(results) <= RESULT_BUDGET && |results| <= MAX_RESULTS
      && Known(results, created) && (forall id | id in created :: id < nextId)
      && ByUse(results, lastUse, tick)
    }

    /** Drops what no cursor may use any more. */
    method DropObsolete(view: View, clock: nat -> int)
      requires Valid()
      modifies `results, `resultBytes
      ensures Valid() && results == Current(old(results), view, clock, 0)
      ensures forall s | s in results :: s in old(results)
      ensures forall i | 0 <= i < |old(results)| ::
                old(results)[i] in results
                <==> old(results)[i].view == view && clock(i) - old(results)[i].createdAt <= 600_000_000_000
    {
      hide Known, Obsolete, Current, Sum, ByUse, DistinctIds;
      KnownDistinct(results, created);
      CurrentExactly(results, view, clock, 0);
      var kept: seq<Snapshot> := [];
      var i := 0;
      DropEnd(results, view, clock);
      assert results[0..] == results;
      while i < |results|
        invariant 0 <= i <= |results| && results == old(results)
        invariant kept + Current(results[i..], view, clock, i) == Current(results, view, clock, 0)
        invariant resultBytes == Sum(kept) + Sum(results[i..])
      {
        var entry := results[i];
        DropStep(results, view, clock, i);
        if Obsolete(entry, view, clock(i)) {
          resultBytes := resultBytes - entry.bytes;
        } else {
          SumSnoc(kept, entry);
          kept := kept + [entry];
        }
        i := i + 1;
      }
      DropEnd(results, view, clock);
      assert kept + [] == kept;
      CurrentIsPart(results, view, clock, 0);
      CurrentKnown(results, view, clock, 0, created);
      CurrentByUse(results, view, clock, 0, lastUse, tick);
      results := kept;
    }

    /** The eviction loop: afterwards the longest suffix that fits is left, which by the
        order of the list is the longest run of most recently used entries: one entry more
        would be the 256th, or exceed 16 MiB. */
    method Evict(bytes: nat)
      requires Valid()
      modifies `results, `resultBytes
      ensures Valid() && Fits(results, bytes) && LongestFit(old(results), results, bytes)
      ensures results == [] || (|results| < 256 && Sum(results) + bytes <= 16_777_216)
      ensures exists k | 0 <= k <= |old(results)| ::
                && results == old(results)[k..]
                && (k > 0 ==> |results| + 1 >= 256 || old(results)[k - 1].bytes + Sum(results) + bytes > 16_777_216)
      ensures bytes > 16_777_216 ==> results == []
    {
      hide Known, ByUse, Sum;
      ghost var all, k := results, 0;
      while |results| > 0 && (|results| >= MAX_RESULTS || resultBytes + bytes > RESULT_BUDGET)
        invariant 0 <= k <= |all| && results == all[k..] && Valid()
        invariant k > 0 ==> |results| + 1 >= 256 || all[k - 1].bytes + Sum(results) + bytes > 16_777_216
        invariant forall j | 0 <= j < k :: !Fits(all[j..], bytes)
        decreases |results|
      {
        FirstLeaves(results, created);
        TailByUse(results, lastUse, tick);
        resultBytes := resultBytes - results[0].bytes;
        results := results[1..];
        assert results == all[k + 1..];
        k := k + 1;
      }
    }

    method Put(snapshot: Snapshot)
      requires Valid() && Fits(results, snapshot.bytes) && snapshot.bytes <= RESULT_BUDGET
      requires snapshot.storeId in created && created[snapshot.storeId] == snapshot
      requires forall e | e in results :: e.storeId != snapshot.storeId
      modifies `results, `resultBytes, `lastUse, `tick
      ensures Valid() && results == old(results) + [snapshot]
      ensures lastUse == old(lastUse)[snapshot.storeId := old(tick)]
    {
      hide Known, ByUse, Sum, Fits;
      FitsBeside(results, snapshot);
      AddKnown(results, snapshot, created);
      UseByUse(results, snapshot, lastUse, tick);
      resultBytes := resultBytes + snapshot.bytes;
      results := results + [snapshot];
      lastUse, tick := lastUse[snapshot.storeId := tick], tick + 1;
    }

    /** A new result is retained beside exactly the longest run of most recently used
        current results that fits; one larger than the whole budget is refused, after it
        has pushed out everything. */
    method Retain(snapshot: Snapshot, clock: nat -> int) returns (ok: bool)
      requires Valid() && snapshot.storeId == nextId
      modifies this
      ensures Valid() && created == old(created)[snapshot.storeId := snapshot]
      ensures ok == (snapshot.bytes <= 16_777_216)
      ensures if ok then Retained(old(results), results, snapshot, clock) else results == []
      ensures lastUse == if ok then old(lastUse)[snapshot.storeId := old(tick)] else old(lastUse)
    {
      hide Known, ByUse, Current, Obsolete, Sum, Fits, LongestFit;
      DropObsolete(snapshot.view, clock);
      Evict(snapshot.bytes);
      MintKnown(results, created, nextId, snapshot);
      created := created[snapshot.storeId := snapshot];
      nextId := nextId + 1;
      if snapshot.bytes > RESULT_BUDGET {
        return false;
      }
      Put(snapshot);
      assert results[..|results| - 1] + [snapshot] == results;
      return true;
    }

    method Find(storeId: nat) returns (i: nat)
      ensures i == Position(results, storeId)
    {
      i := 0;
      while i < |results| && results[i].storeId != storeId
        invariant 0 <= i <= |results| && forall j | 0 <= j < i :: results[j].storeId != storeId
      {
        i := i + 1;
      }
    }

    method Remove(i: nat)
      requires Valid() && i < |results|
      modifies `results, `resultBytes
      ensures Valid() && results == old(results)[..i] + old(results)[i + 1..]
    {
      DropKnown(results, i, created);
      DropByUse(results, i, lastUse, tick);
      SumAt(results, i);
      hide Known, ByUse, Sum;
      resultBytes := resultBytes - results[i].bytes;
      results := results[..i] + results[i + 1..];
    }

    /** The map moves an entry that is found to its end. */
    method Touch(i: nat)
      requires Valid() && i < |results|
      modifies `results, `lastUse, `tick
      ensures Valid() && results == old(results)[..i] + old(results)[i + 1..] + [old(results)[i]]
      ensures multiset(results) == multiset(old(results))
      ensures lastUse == old(lastUse)[old(results)[i].storeId := old(tick)]
    {
      hide Known, ByUse, Sum;
      var s, rest := results[i], results[..i] + results[i + 1..];
      TouchedEntries(results, i, created, lastUse, tick);
      results := rest + [s];
      lastUse, tick := lastUse[s.storeId := tick], tick + 1;
    }

    /** `pageFromCursor`.  A live entry that is found becomes the most recently used one,
        whatever is answered then; an expired one is removed; nothing else changes. */
    method PageFromCursor(query: Query, cursor: Cursor, view: View, now: int) returns (answer: Result<Page, Failure>)
      requires Valid()
      modifies `results, `resultBytes, `lastUse, `tick
      ensures Valid() && answer == Answer(old(results), query, cursor, view, now)
      ensures Uses(old(results), query, cursor, view, now) ==>
                var i := Position(old(results), cursor.storeId);
                && results == old(results)[..i] + old(results)[i + 1..] + [old(results)[i]]
                && multiset(results) == multiset(old(results))
                && lastUse == old(lastUse)[cursor.storeId := old(tick)]
      ensures Expires(old(results), query, cursor, view, now) ==>
                var i := Position(old(results), cursor.storeId);
                results == old(results)[..i] + old(results)[i + 1..] && lastUse == old(lastUse)
      ensures !Uses(old(results), query, cursor, view, now) && !Expires(old(results), query, cursor, view, now) ==>
                results == old(results) && lastUse == old(lastUse)
    {
      hide Known, ByUse, Sum, DistinctIds;
      if cursor.query != query {
        return Err(OptionsChanged);
      }
      if cursor.view != view {
        return Err(Stale);
      }
      var i := Find(cursor.storeId);
      if i == |results| {
        return Err(Stale);
      }
      var snapshot := results[i];
      if Expired(snapshot, now) {
        Remove(i);
        return Err(Stale);
      }
      Touch(i);
      if snapshot.resultHash != cursor.resultHash || snapshot.view != view {
        return Err(Stale);
      }
      if cursor.position < 1 || cursor.position >= |snapshot.hits| {
        return Err(InvalidPosition);
      }
      return Ok(PageOf(snapshot, query.pageSize, cursor.position));
    }

    /** A new query: retain its hits under a fresh identity and hand out the first page. */
    method FirstPage(result: Snapshot, clock: nat -> int) returns (answer: Result<Page, Failure>)
      requires Valid()
      modifies this
      ensures var snapshot := result.(storeId := old(nextId));
              && Valid() && old(nextId) !in old(created) && created == old(created)[old(nextId) := snapshot]
              && answer == (if snapshot.bytes <= 16_777_216 then Ok(PageOf(snapshot, snapshot.query.pageSize, 0))
                            else Err(LimitExceeded))
              && (if answer.Ok? then Retained(old(results), results, snapshot, clock) && snapshot in results
                  else results == [])
    {
      var snapshot := result.(storeId := nextId);
      var ok := Retain(snapshot, clock);
      if !ok {
        return Err(LimitExceeded);
      }
      return Ok(PageOf(snapshot, snapshot.query.pageSize, 0));
    }
  }
}
