/** The paging iterator of search.py:49-77 against the server's store, with any other
    requests in between. */
module SearchClient {
  import opened Common
  import opened SearchResults

  /** What others do to the store between two requests of this client. */
  datatype Activity =
    | OtherQuery(result: Snapshot, clock: nat -> int)
    | OtherCursor(query: Query, cursor: Cursor, view: View, now: int)

  /** The state of the world at one request of this client. */
  datatype Turn = Turn(before: seq<Activity>, view: View, now: int)

  datatype Outcome = Complete | Running | Failed(failure: Failure) | Repeated

  method Interfere(server: SearchResults, activities: seq<Activity>)
    requires server.Valid()
    modifies server
    ensures server.Valid() && forall id | id in old(server.created) ::
              id in server.created && server.created[id] == old(server.created)[id]
    ensures activities == [] ==> server.results == old(server.results)
  {
    var i := 0;
    while i < |activities|
      invariant 0 <= i <= |activities| && server.Valid()
      invariant forall id | id in old(server.created) ::
                  id in server.created && server.created[id] == old(server.created)[id]
      invariant activities == [] ==> server.results == old(server.results)
    {
      match activities[i] {
        case OtherQuery(result, clock) =>
          var _ := server.FirstPage(result, clock);
        case OtherCursor(query, cursor, view, now) =>
          var _ := server.PageFromCursor(query, cursor, view, now);
      }
      i := i + 1;
    }
  }

  /** Pages that n hits make: at least one. */
  function Pages(n: nat, pageSize: PageSize): nat {
    if n == 0 then 1 else (n + pageSize - 1) / pageSize
  }

  lemma Multiplies(a: nat, b: nat, d: nat)
    requires a <= b
    ensures a * d <= b * d
  {
  }

  lemma Divides(x: nat, d: nat)
    requires d > 0
    ensures (x / d) * d <= x < (x / d) * d + d
  {
  }

  lemma LastPage(n: nat, pageSize: PageSize, requests: nat)
    requires requests * pageSize + pageSize >= n && (requests == 0 || requests * pageSize < n)
    ensures requests + 1 == Pages(n, pageSize)
  {
    if n > 0 {
      var q := Pages(n, pageSize);
      Divides(n + pageSize - 1, pageSize);
      if q <= requests {
        Multiplies(q, requests, pageSize);
      } else if q >= requests + 2 {
        Multiplies(requests + 2, q, pageSize);
      }
    }
  }

  lemma MorePages(n: nat, pageSize: PageSize, requests: nat)
    requires requests * pageSize + pageSize < n
    ensures requests + 1 < Pages(n, pageSize)
  {
    var q := Pages(n, pageSize);
    Divides(n + pageSize - 1, pageSize);
    if q <= requests + 1 {
      Multiplies(q, requests + 1, pageSize);
    }
  }

  /** What stands in a store under an identity is what was created under it. */
  lemma PositionIsCreated(results: seq<Snapshot>, created: map<nat, Snapshot>, s: Snapshot)
    requires Known(results, created) && s.storeId in created && created[s.storeId] == s
    ensures var i := Position(results, s.storeId);
            (i < |results| <==> s in results) && (i < |results| ==> results[i] == s)
  {
    var i := Position(results, s.storeId);
    if i < |results| {
      assert results[i] in results;
    }
  }

  /** The store still answers for `s`: it is kept, the index has not moved on, and it is
      not too old. */
  predicate Answers(results: seq<Snapshot>, view: View, now: int, s: Snapshot) {
    s in results && view == s.view && now - s.createdAt <= 600_000_000_000
  }

  /** A cursor that a page of `s` carried is answered, by whatever store, with the slice of
      `s` it points at exactly if the store still answers for `s`, and otherwise with a
      stale error. */
  lemma CursorAnswer(results: seq<Snapshot>, created: map<nat, Snapshot>, s: Snapshot, position: nat,
                     view: View, now: int)
    requires Known(results, created) && s.storeId in created && created[s.storeId] == s && 1 <= position < |s.hits|
    ensures var cursor := Cursor(s.view, s.query, s.resultHash, s.storeId, position);
            && Answer(results, s.query, cursor, view, now)
               == (if s in results && view == s.view && now - s.createdAt <= 600_000_000_000
                   then Ok(PageOf(s, s.query.pageSize, position)) else Err(Stale))
            && (Answer(results, s.query, cursor, view, now).Ok? ==> Uses(results, s.query, cursor, view, now))
  {
    PositionIsCreated(results, created, s);
  }

  /** Nobody else is active, the index has not moved on and the snapshot is not too old. */
  predicate Quiet(turns: seq<Turn>, s: Snapshot) {
    forall i | 0 <= i < |turns| :: turns[i].before == [] && turns[i].view == s.view
                                 && turns[i].now - s.createdAt <= 600_000_000_000
  }

  /** One request of this client, after whatever the others did; `store` is what the
      request met. */
  method Ask(server: SearchResults, turn: Turn, query: Query, cursor: Cursor, ghost s: Snapshot)
    returns (answer: Result<Page, Failure>, ghost store: seq<Snapshot>)
    requires server.Valid() && s.storeId in server.created && server.created[s.storeId] == s
    requires query == s.query && 1 <= cursor.position < |s.hits|
    requires cursor == Cursor(s.view, s.query, s.resultHash, s.storeId, cursor.position)
    modifies server
    ensures server.Valid() && s.storeId in server.created && server.created[s.storeId] == s
    ensures answer == if Answers(store, turn.view, turn.now, s) then Ok(PageOf(s, s.query.pageSize, cursor.position))
                      else Err(Stale)
    ensures turn.before == [] ==> store == old(server.results)
    ensures answer.Ok? ==> s in server.results
  {
    Interfere(server, turn.before);
    CursorAnswer(server.results, server.created, s, cursor.position, turn.view, turn.now);
    store := server.results;
    answer := server.PageFromCursor(query, cursor, turn.view, turn.now);
    assert s in store && answer.Ok? ==> s in multiset(store) && s in multiset(server.results);
  }

  /** All these stores still answered. */
  ghost predicate Answered(stores: seq<seq<Snapshot>>, turns: seq<Turn>, s: Snapshot) {
    |stores| <= |turns| && forall i | 0 <= i < |stores| :: Answers(stores[i], turns[i].view, turns[i].now, s)
  }

  lemma NoneMet(turns: seq<Turn>, s: Snapshot)
    ensures Answered([], turns, s)
  {
  }

  /** One more store was met. */
  lemma StoreMet(stores: seq<seq<Snapshot>>, store: seq<Snapshot>, turns: seq<Turn>, s: Snapshot)
    requires Answered(stores, turns, s) && |stores| < |turns|
    ensures var turn := turns[|stores|];
            Answers(store, turn.view, turn.now, s) <==> Answered(stores + [store], turns, s)
  {
    hide Answers;
    var all := stores + [store];
    if Answered(all, turns, s) { assert all[|stores|] == store; }
  }

  lemma QuietAnswers(turns: seq<Turn>, i: nat, s: Snapshot, before: seq<Snapshot>, store: seq<Snapshot>)
    requires i < |turns| && (turns[i].before == [] ==> store == before)
    ensures Quiet(turns, s) && s in before ==> Answers(store, turns[i].view, turns[i].now, s)
  {
  }

  /** One page behind what was yielded before. */
  lemma PageStep(s: Snapshot, pageSize: PageSize, at: nat, requests: nat)
    requires at == requests * pageSize && at <= |s.hits|
    ensures var page, to := PageOf(s, pageSize, at), at + pageSize;
            && to == (requests + 1) * pageSize
            && (page.next.None? <==> to >= |s.hits|)
            && s.hits[..at] + page.hits == (if to < |s.hits| then s.hits[..to] else s.hits)
            && (to < |s.hits| ==> page.next == Some(Cursor(s.view, s.query, s.resultHash, s.storeId, to)))
  {
  }

  class SearchCursor {
    const query: Query
    var raw: Page
    var seen: set<Cursor>
    var started: bool

    constructor (query: Query, raw: Page)
      ensures this.query == query && this.raw == raw && seen == {} && !started
    {
      this.query, this.raw, seen, started := query, raw, {}, false;
    }

    /** `_next_request`: None at the end; false when the server repeats a cursor. */
    method NextRequest() returns (ok: bool, request: Option<Cursor>)
      modifies this`seen
      ensures ok == (raw.next.None? || raw.next.value !in old(seen))
      ensures ok ==> request == raw.next
      ensures seen == old(seen) + if ok && raw.next.Some? then {raw.next.value} else {}
    {
      if raw.next.None? {
        return true, None;
      }
      if raw.next.value in seen {
        return false, None;
      }
      seen := seen + {raw.next.value};
      return true, raw.next;
    }

    /** `__iter__`, driven for at most `|turns|` requests.  Whatever queries, cursors,
        evictions and expirations come between, the hits yielded are a prefix of the hits
        of the first query's snapshot: no gap, no repetition, no mixture.  The iteration
        ends complete with all of them after exactly the right number of pages, or with a
        stale error; it never trips over its own repeated-cursor guard.  It is stale exactly
        if its last request met a store that no longer answered for the snapshot, so it
        completes if every store it meets does, and in particular if it is left alone. */
    method Iterate(server: SearchResults, turns: seq<Turn>, ghost s: Snapshot)
      returns (yielded: seq<int>, outcome: Outcome, requests: nat, ghost stores: seq<seq<Snapshot>>)
      requires server.Valid() && s.storeId in server.created && server.created[s.storeId] == s
      requires query == s.query && raw == PageOf(s, query.pageSize, 0) && seen == {} && !started
      modifies this, server
      ensures yielded <= s.hits && server.Valid()
      ensures outcome != Repeated && (outcome.Failed? ==> outcome.failure == Stale)
      ensures outcome == Complete ==> yielded == s.hits && requests + 1 == Pages(|s.hits|, query.pageSize)
      ensures |stores| == requests <= |turns|
      ensures outcome.Failed? <==> !Answered(stores, turns, s)
      ensures outcome == Running ==> requests == |turns| && |turns| + 1 < Pages(|s.hits|, query.pageSize)
      ensures s in old(server.results) && Quiet(turns, s) ==> !outcome.Failed?
    {
      hide Known, Pages, Sum, DistinctIds, ByUse, Position, Answers, Answered, Quiet, PageOf;
      started := true;
      yielded, requests, stores := [], 0, [];
      ghost var at: nat := 0;
      NoneMet(turns, s);
      while true
        invariant server.Valid() && s.storeId in server.created && server.created[s.storeId] == s
        invariant 0 <= requests <= |turns| && at == requests * query.pageSize && (requests == 0 || at < |s.hits|)
        invariant at <= |s.hits| && raw == PageOf(s, query.pageSize, at) && yielded == s.hits[..at]
        invariant forall c | c in seen :: c.position <= at
        invariant |stores| == requests
        invariant Answered(stores, turns, s)
        invariant s in old(server.results) && Quiet(turns, s) ==> s in server.results
        decreases |turns| - requests
      {
        PageStep(s, query.pageSize, at, requests);
        yielded := yielded + raw.hits;
        var ok, request := NextRequest();
        if !ok {
          return yielded, Repeated, requests, stores;
        }
        if request.None? {
          LastPage(|s.hits|, query.pageSize, requests);
          return yielded, Complete, requests, stores;
        }
        MorePages(|s.hits|, query.pageSize, requests);
        if requests == |turns| {
          return yielded, Running, requests, stores;
        }
        ghost var before := server.results;
        var answer;
        ghost var store;
        answer, store := Ask(server, turns[requests], query, request.value, s);
        QuietAnswers(turns, requests, s, before, store);
        StoreMet(stores, store, turns, s);
        stores := stores + [store];
        requests := requests + 1;
        if answer.Err? {
          return yielded, Failed(answer.error), requests, stores;
        }
        raw := answer.value;
        at := at + query.pageSize;
      }
    }
  }
}
