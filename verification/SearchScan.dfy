/** The literal source scan of SearchService.java:396-433 over UTF-16 units. */
module SearchScan {
  import opened Common
  import opened SearchCodec

  const MAX_HITS: nat := 5000
  const MAX_HIT_BYTES: nat := 4 * 1024 * 1024

  predicate Matches(source: Text, query: Text, i: nat) {
    i + |query| <= |source| && source[i..i + |query|] == query
  }

  /** The first occurrence at or after `from`. */
  function NextMatch(source: Text, query: Text, from: nat): Option<nat>
    decreases |source| - from
  {
    if from + |query| > |source| then None
    else if Matches(source, query, from) then Some(from)
    else NextMatch(source, query, from + 1)
  }

  lemma {:induction false} NextMatchIsFirst(source: Text, query: Text, from: nat)
    ensures var next := NextMatch(source, query, from);
            && (next.Some? ==> from <= next.value && Matches(source, query, next.value))
            && (forall j: nat | from <= j && Matches(source, query, j) :: next.Some? && next.value <= j)
    decreases |source| - from
  {
    if from + |query| <= |source| && !Matches(source, query, from) {
      NextMatchIsFirst(source, query, from + 1);
    }
  }

  /** `String.indexOf(query, from)`. */
  method IndexOf(source: Text, query: Text, from: nat) returns (found: Option<nat>)
    ensures found == NextMatch(source, query, from)
  {
    var i := from;
    while i + |query| <= |source|
      invariant i >= from && NextMatch(source, query, from) == NextMatch(source, query, i)
      decreases |source| - i
    {
      if source[i..i + |query|] == query {
        return Some(i);
      }
      i := i + 1;
    }
    return None;
  }

  /** The starts the loop visits, from `from` on. */
  function Visits(source: Text, query: Text, from: nat): seq<nat>
    requires |query| > 0
    decreases |source| - from
  {
    NextMatchIsFirst(source, query, from);
    var next := NextMatch(source, query, from);
    if next.None? then [] else [next.value] + Visits(source, query, next.value + |query|)
  }

  predicate InOrder(query: Text, v: seq<nat>) {
    forall i, j | 0 <= i < j < |v| :: v[i] + |query| <= v[j]
  }

  predicate AllMatch(source: Text, query: Text, from: nat, v: seq<nat>) {
    forall i | 0 <= i < |v| :: from <= v[i] && Matches(source, query, v[i])
  }

  /** Position j lies inside one of the visited occurrences. */
  predicate Inside(query: Text, v: seq<nat>, j: nat) {
    exists i | 0 <= i < |v| :: v[i] <= j < v[i] + |query|
  }

  lemma InsideLater(query: Text, first: nat, rest: seq<nat>, j: nat)
    requires Inside(query, rest, j)
    ensures Inside(query, [first] + rest, j)
  {
    var i :| 0 <= i < |rest| && rest[i] <= j < rest[i] + |query|;
    assert ([first] + rest)[i + 1] == rest[i];
  }

  lemma VisitsMatch(source: Text, query: Text, from: nat, first: nat, rest: seq<nat>)
    requires from <= first && Matches(source, query, first) && AllMatch(source, query, first + |query|, rest)
    requires InOrder(query, rest)
    ensures AllMatch(source, query, from, [first] + rest) && InOrder(query, [first] + rest)
  {
  }

  lemma NoVisits(source: Text, query: Text, from: nat)
    ensures AllMatch(source, query, from, []) && InOrder(query, [])
  {
  }

  /** The visited starts are exactly the leftmost non-overlapping occurrences: they match,
      do not overlap, are in order ... */
  lemma {:induction false} VisitsAreDisjointMatches(source: Text, query: Text, from: nat)
    requires |query| > 0
    ensures var v := Visits(source, query, from); AllMatch(source, query, from, v) && InOrder(query, v)
    decreases |source| - from
  {
    hide AllMatch, InOrder, NextMatch, Matches;
    NoVisits(source, query, from);
    NextMatchIsFirst(source, query, from);
    var next := NextMatch(source, query, from);
    if next.Some? {
      VisitsAreDisjointMatches(source, query, next.value + |query|);
      VisitsMatch(source, query, from, next.value, Visits(source, query, next.value + |query|));
    }
  }

  /** ... and every occurrence starts inside a visited one. */
  lemma {:induction false} OccurrencesAreInsideVisits(source: Text, query: Text, from: nat, j: nat)
    requires |query| > 0 && from <= j && Matches(source, query, j)
    ensures Inside(query, Visits(source, query, from), j)
    decreases |source| - from
  {
    NextMatchIsFirst(source, query, from);
    var v, first := Visits(source, query, from), NextMatch(source, query, from).value;
    if j < first + |query| {
      assert v[0] <= j < v[0] + |query|;
    } else {
      OccurrencesAreInsideVisits(source, query, first + |query|, j);
      InsideLater(query, first, Visits(source, query, first + |query|), j);
    }
  }

  // ---- Boundaries -------------------------------------------------------------------

  predicate High(u: Unit) { 0xD800 <= u <= 0xDBFF }

  predicate Low(u: Unit) { 0xDC00 <= u <= 0xDFFF }

  predicate IsBoundary(source: Text, offset: nat) {
    offset <= |source| && !(0 < offset < |source| && High(source[offset - 1]) && Low(source[offset]))
  }

  function CodePoint(high: Unit, low: Unit): int {
    0x10000 + (high - 0xD800) * 0x400 + (low - 0xDC00)
  }

  function CodePointAt(source: Text, i: nat): int
    requires i < |source|
  {
    if High(source[i]) && i + 1 < |source| && Low(source[i + 1]) then CodePoint(source[i], source[i + 1]) else source[i]
  }

  function CodePointBefore(source: Text, i: nat): int
    requires 0 < i <= |source|
  {
    if Low(source[i - 1]) && i >= 2 && High(source[i - 2]) then CodePoint(source[i - 2], source[i - 1])
    else source[i - 1]
  }

  predicate TokenBoundaries(identifierPart: int -> bool, source: Text, start: nat, end: nat)
    requires start <= end <= |source|
  {
    && (start == 0 || !identifierPart(CodePointBefore(source, start)))
    && (end == |source| || !identifierPart(CodePointAt(source, end)))
  }

  predicate Accepted(identifierPart: int -> bool, source: Text, exact: bool, start: nat, end: nat)
    requires start <= end <= |source|
  {
    && IsBoundary(source, start) && IsBoundary(source, end)
    && (exact ==> TokenBoundaries(identifierPart, source, start, end))
  }

  /** These two units encode this code point in UTF-16. */
  predicate Encodes(high: Unit, low: Unit, c: int) {
    0x10000 <= c < 0x110000 && high == 0xD800 + (c - 0x10000) / 0x400 && low == 0xDC00 + (c - 0x10000) % 0x400
  }

  /** The position lies inside a surrogate pair. */
  predicate InsidePair(source: Text, i: nat) {
    0 < i < |source| && 0xD800 <= source[i - 1] <= 0xDBFF && 0xDC00 <= source[i] <= 0xDFFF
  }

  /** The units of this code point end right before position i, */
  predicate EndsAt(source: Text, i: nat, c: int) {
    && 1 <= i <= |source|
    && if InsidePair(source, i - 1) then Encodes(source[i - 2], source[i - 1], c) else source[i - 1] == c
  }

  /** or start at it. */
  predicate StartsAt(source: Text, i: nat, c: int) {
    i < |source| && if InsidePair(source, i + 1) then Encodes(source[i], source[i + 1], c) else source[i] == c
  }

  lemma PairCodes(high: Unit, low: Unit, c: int)
    requires High(high) && Low(low)
    ensures Encodes(high, low, c) <==> c == CodePoint(high, low)
  {
    var a, b := high - 0xD800, low - 0xDC00;
    assert CodePoint(high, low) - 0x10000 == a * 0x400 + b;
    assert (a * 0x400 + b) / 0x400 == a && (a * 0x400 + b) % 0x400 == b;
  }

  lemma CodeBeforeExactly(source: Text, i: nat, c: int)
    requires 0 < i <= |source|
    ensures EndsAt(source, i, c) <==> c == CodePointBefore(source, i)
  {
    if InsidePair(source, i - 1) { PairCodes(source[i - 2], source[i - 1], c); }
  }

  lemma CodeAtExactly(source: Text, i: nat, c: int)
    requires i < |source|
    ensures StartsAt(source, i, c) <==> c == CodePointAt(source, i)
  {
    if InsidePair(source, i + 1) { PairCodes(source[i], source[i + 1], c); }
  }

  /** An occurrence counts if neither end splits a surrogate pair and, in an exact search,
      no identifier code point stands directly before or directly behind it. */
  ghost predicate Counts(identifierPart: int -> bool, source: Text, exact: bool, start: nat, end: nat) {
    && !InsidePair(source, start) && !InsidePair(source, end)
    && (exact ==> (forall c | EndsAt(source, start, c) :: !identifierPart(c))
                  && (forall c | StartsAt(source, end, c) :: !identifierPart(c)))
  }

  lemma AcceptedExactly(identifierPart: int -> bool, source: Text, exact: bool, start: nat, end: nat)
    requires start <= end <= |source|
    ensures Accepted(identifierPart, source, exact, start, end) <==> Counts(identifierPart, source, exact, start, end)
  {
    if start > 0 {
      forall c ensures EndsAt(source, start, c) <==> c == CodePointBefore(source, start) {
        CodeBeforeExactly(source, start, c);
      }
    }
    if end < |source| {
      forall c ensures StartsAt(source, end, c) <==> c == CodePointAt(source, end) {
        CodeAtExactly(source, end, c);
      }
    }
  }

  /** At most 160 units of the match, never ending inside a surrogate pair of it. */
  function Bounded(source: Text, start: nat, end: nat): (text: Text)
    requires start <= end <= |source|
    ensures |text| <= 160 && text <= source[start..end]
    ensures IsBoundary(source, start) && IsBoundary(source, end) ==> IsBoundary(source, start + |text|)
  {
    var limit := if start + 160 < end then start + 160 else end;
    var cut := if limit < end && limit > start && High(source[limit - 1]) && Low(source[limit]) then limit - 1
               else limit;
    assert source[start..cut] <= source[start..end];
    source[start..cut]
  }

  // ---- Hits and their limits -----------------------------------------------------------

  datatype Hit = Hit(owner: int, start: nat, end: nat, matched: Text, bytes: nat)

  /** `hitBytes` of a source hit; `base` is what its owner and snapshot identity cost. */
  function NewHit(owner: int, base: nat, source: Text, start: nat, end: nat): Hit
    requires start <= end <= |source|
  {
    var matched := Bounded(source, start, end);
    Hit(owner, start, end, matched, 512 + base + 48 + 6 * |matched|)
  }

  function TotalBytes(hits: seq<Hit>): nat {
    if hits == [] then 0 else TotalBytes(hits[..|hits| - 1]) + hits[|hits| - 1].bytes
  }

  lemma {:induction false} TotalGrows(a: seq<Hit>, b: seq<Hit>)
    ensures TotalBytes(a + b) == TotalBytes(a) + TotalBytes(b)
  {
    if b == [] {
      assert a + b == a;
    } else {
      TotalGrows(a, b[..|b| - 1]);
      assert (a + b)[..|a + b| - 1] == a + b[..|b| - 1];
    }
  }

  lemma OneTotal(hit: Hit)
    ensures TotalBytes([hit]) == hit.bytes
  {
    assert [hit][..0] == [];
  }

  predicate WithinLimits(hits: seq<Hit>) {
    |hits| <= MAX_HITS && TotalBytes(hits) <= MAX_HIT_BYTES
  }

  datatype Fragment = Fragment(owner: int, base: nat, source: Text)

  datatype Search = Search(query: Text, exact: bool, identifierPart: int -> bool)

  /** The hits at the visited starts that pass the filters. */
  function HitsAt(search: Search, fragment: Fragment, visits: seq<nat>): seq<Hit> {
    if visits == [] then []
    else
      var start, end := visits[0], visits[0] + |search.query|;
      (if end <= |fragment.source| && Accepted(search.identifierPart, fragment.source, search.exact, start, end)
       then [NewHit(fragment.owner, fragment.base, fragment.source, start, end)] else [])
      + HitsAt(search, fragment, visits[1..])
  }

  /** What the scan of one fragment finds. */
  function FragmentHits(search: Search, fragment: Fragment, from: nat): seq<Hit>
    requires |search.query| > 0
  {
    HitsAt(search, fragment, Visits(fragment.source, search.query, from))
  }

  lemma FragmentStep(search: Search, fragment: Fragment, from: nat)
    requires |search.query| > 0
    ensures var next := NextMatch(fragment.source, search.query, from);
            if next.None? then FragmentHits(search, fragment, from) == []
            else
              var start, end := next.value, next.value + |search.query|;
              end <= |fragment.source| &&
              FragmentHits(search, fragment, from)
              == (if Accepted(search.identifierPart, fragment.source, search.exact, start, end)
                  then [NewHit(fragment.owner, fragment.base, fragment.source, start, end)] else [])
                 + FragmentHits(search, fragment, end)
  {
    hide Accepted, NewHit, NextMatch, Matches;
    NextMatchIsFirst(fragment.source, search.query, from);
  }

  /** What a hit holds: where it is, at most 160 units of the match, one less where that
      would split a pair, and their cost. */
  lemma NewHitExactly(owner: int, base: nat, source: Text, start: nat, end: nat)
    requires start <= end <= |source|
    ensures var hit := NewHit(owner, base, source, start, end);
            && hit.owner == owner && hit.start == start && hit.end == end
            && hit.matched == source[start..start + |hit.matched|] && hit.bytes == 560 + base + 6 * |hit.matched|
            && |hit.matched| == (if end - start <= 160 then end - start
                                 else if InsidePair(source, start + 160) then 159 else 160)
  {
  }

  /** The hit has the fragment's owner, and holds what a hit at its start does. */
  predicate HitOf(search: Search, fragment: Fragment, hit: Hit) {
    var end := hit.start + |search.query|;
    && end <= |fragment.source|
    && hit == NewHit(fragment.owner, fragment.base, fragment.source, hit.start, end)
  }

  /** The start is a visited occurrence that counts. */
  ghost predicate HitAt(search: Search, source: Text, visits: seq<nat>, start: nat) {
    var end := start + |search.query|;
    start in visits && end <= |source| && Counts(search.identifierPart, source, search.exact, start, end)
  }

  lemma HitAtFirst(search: Search, source: Text, visits: seq<nat>, start: nat)
    requires visits != []
    ensures HitAt(search, source, visits, start)
            <==> || HitAt(search, source, visits[1..], start)
                 || (start == visits[0] && HitAt(search, source, [start], start))
  {
    hide Counts;
    assert start in visits <==> start == visits[0] || start in visits[1..];
  }

  /** One visited start. */
  lemma HitAtOne(search: Search, fragment: Fragment, start: nat)
    ensures var end := start + |search.query|;
            HitAt(search, fragment.source, [start], start)
            <==> end <= |fragment.source| && Accepted(search.identifierPart, fragment.source, search.exact, start, end)
  {
    var end := start + |search.query|;
    if end <= |fragment.source| {
      AcceptedExactly(search.identifierPart, fragment.source, search.exact, start, end);
    }
    hide Counts, Accepted;
  }

  lemma NoHit(search: Search, source: Text, start: nat)
    ensures !HitAt(search, source, [], start)
  {
  }

  lemma {:induction false} HitsAtExactly(search: Search, fragment: Fragment, visits: seq<nat>, hit: Hit)
    ensures hit in HitsAt(search, fragment, visits)
            <==> HitAt(search, fragment.source, visits, hit.start)
                 && HitOf(search, fragment, hit)
  {
    hide HitAt, Accepted, NewHit;
    if visits == [] {
      NoHit(search, fragment.source, hit.start);
    } else {
      var start, end := visits[0], visits[0] + |search.query|;
      HitsAtExactly(search, fragment, visits[1..], hit);
      HitAtFirst(search, fragment.source, visits, hit.start);
      HitAtOne(search, fragment, start);
      if end <= |fragment.source| {
        NewHitExactly(fragment.owner, fragment.base, fragment.source, start, end);
      }
    }
  }

  predicate Ascend(hits: seq<Hit>) {
    forall i, j | 0 <= i < j < |hits| :: hits[i].end <= hits[j].start
  }

  lemma AscendFirst(first: Hit, rest: seq<Hit>)
    requires Ascend(rest) && forall hit | hit in rest :: first.end <= hit.start
    ensures Ascend([first] + rest)
  {
  }

  lemma NoneAscend()
    ensures Ascend([])
  {
  }

  lemma HitIsVisited(search: Search, source: Text, visits: seq<nat>, start: nat)
    requires HitAt(search, source, visits, start)
    ensures exists k | 0 <= k < |visits| :: visits[k] == start
  {
  }

  lemma {:induction false} HitsAscend(search: Search, fragment: Fragment, visits: seq<nat>)
    requires InOrder(search.query, visits)
    ensures Ascend(HitsAt(search, fragment, visits))
  {
    hide Ascend, Accepted, NewHit, HitAt;
    NoneAscend();
    if visits != [] {
      var rest, start, end := visits[1..], visits[0], visits[0] + |search.query|;
      HitsAscend(search, fragment, rest);
      var hits := HitsAt(search, fragment, rest);
      assert [] + hits == hits;
      if end <= |fragment.source| {
        var first := NewHit(fragment.owner, fragment.base, fragment.source, start, end);
        NewHitExactly(fragment.owner, fragment.base, fragment.source, start, end);
        forall hit | hit in hits ensures first.end <= hit.start {
          HitsAtExactly(search, fragment, rest, hit);
          HitIsVisited(search, fragment.source, rest, hit.start);
        }
        AscendFirst(first, hits);
      }
    }
  }

  /** The hits of a fragment are those at the visited occurrences that count, each once and
      from left to right. */
  lemma FragmentHitsExactly(search: Search, fragment: Fragment)
    requires |search.query| > 0
    ensures forall hit :: hit in FragmentHits(search, fragment, 0)
              <==> HitAt(search, fragment.source, Visits(fragment.source, search.query, 0), hit.start)
                   && HitOf(search, fragment, hit)
    ensures Ascend(FragmentHits(search, fragment, 0))
  {
    hide HitsAt, Visits, HitAt, NewHit, Ascend, InOrder, AllMatch;
    VisitsAreDisjointMatches(fragment.source, search.query, 0);
    HitsAscend(search, fragment, Visits(fragment.source, search.query, 0));
    var visits := Visits(fragment.source, search.query, 0);
    forall hit
      ensures hit in HitsAt(search, fragment, visits)
              <==> HitAt(search, fragment.source, visits, hit.start)
                   && HitOf(search, fragment, hit)
    {
      HitsAtExactly(search, fragment, visits, hit);
    }
  }

  /** `add`: refuses a hit that would pass either limit. */
  method Add(found: seq<Hit>, hit: Hit, bytes: nat) returns (ok: bool, after: seq<Hit>, total: nat)
    requires bytes == TotalBytes(found) && WithinLimits(found)
    ensures ok == WithinLimits(found + [hit])
    ensures ok <==> |found| < 5_000 && bytes + hit.bytes <= 4_194_304
    ensures after == if ok then found + [hit] else found
    ensures total == TotalBytes(after)
  {
    hide TotalBytes;
    TotalGrows(found, [hit]);
    OneTotal(hit);
    if |found| >= MAX_HITS || bytes + hit.bytes > MAX_HIT_BYTES {
      return false, found, bytes;
    }
    return true, found + [hit], bytes + hit.bytes;
  }

  lemma Exceeds(found: seq<Hit>, hit: Hit, rest: seq<Hit>)
    requires !WithinLimits(found + [hit])
    ensures !WithinLimits(found + ([hit] + rest))
  {
    TotalGrows(found + [hit], rest);
    assert found + ([hit] + rest) == found + [hit] + rest;
  }

  /** The loop over one fragment.  It succeeds exactly when all hits of the fragment fit
      beside those found before, and then has found exactly those, in order. */
  method ScanFragment(search: Search, fragment: Fragment, before: seq<Hit>, bytesBefore: nat)
    returns (ok: bool, found: seq<Hit>, bytes: nat)
    requires |search.query| > 0 && bytesBefore == TotalBytes(before) && WithinLimits(before)
    ensures ok == WithinLimits(before + FragmentHits(search, fragment, 0))
    ensures ok ==> found == before + FragmentHits(search, fragment, 0) && bytes == TotalBytes(found)
  {
    hide FragmentHits, NextMatch, Visits, HitsAt, Accepted, NewHit, TotalBytes, WithinLimits;
    found, bytes := before, bytesBefore;
    var from := 0;
    var start := IndexOf(fragment.source, search.query, 0);
    ghost var all := before + FragmentHits(search, fragment, 0);
    while start.Some?
      invariant start == NextMatch(fragment.source, search.query, from)
      invariant bytes == TotalBytes(found) && WithinLimits(found)
      invariant all == found + FragmentHits(search, fragment, from)
      decreases |fragment.source| - from
    {
      NextMatchIsFirst(fragment.source, search.query, from);
      FragmentStep(search, fragment, from);
      var end := start.value + |search.query|;
      if Accepted(search.identifierPart, fragment.source, search.exact, start.value, end) {
        var hit := NewHit(fragment.owner, fragment.base, fragment.source, start.value, end);
        var fits;
        ghost var earlier := found;
        fits, found, bytes := Add(found, hit, bytes);
        if !fits {
          Exceeds(earlier, hit, FragmentHits(search, fragment, end));
          return false, found, bytes;
        }
        assert all == found + FragmentHits(search, fragment, end);
      }
      from := end;
      start := IndexOf(fragment.source, search.query, from);
    }
    FragmentStep(search, fragment, from);
    assert found + [] == found;
    return true, found, bytes;
  }

  function AllHits(search: Search, fragments: seq<Fragment>): seq<Hit>
    requires |search.query| > 0
  {
    if fragments == [] then []
    else FragmentHits(search, fragments[0], 0) + AllHits(search, fragments[1..])
  }

  lemma PrefixWithin(a: seq<Hit>, b: seq<Hit>)
    requires WithinLimits(a + b)
    ensures WithinLimits(a)
  {
    TotalGrows(a, b);
  }

  // ---- The order of the result -----------------------------------------------------------

  /** The comparison `materialize` sorts by.  Among source hits it comes down to owner
      descriptor, snapshot identity, start and end; `owner` stands for the first two. */
  predicate NotAfter(a: Hit, b: Hit) {
    a.owner < b.owner || (a.owner == b.owner && (a.start < b.start || (a.start == b.start && a.end <= b.end)))
  }

  predicate Sorted(hits: seq<Hit>) {
    forall i, j | 0 <= i < j < |hits| :: NotAfter(hits[i], hits[j])
  }

  function Insert(hits: seq<Hit>, hit: Hit): (r: seq<Hit>)
    ensures multiset(r) == multiset(hits) + multiset{hit}
  {
    if hits == [] || NotAfter(hit, hits[0]) then [hit] + hits
    else
      assert hits == [hits[0]] + hits[1..];
      [hits[0]] + Insert(hits[1..], hit)
  }

  lemma {:induction false} InsertKeepsSorted(hits: seq<Hit>, hit: Hit)
    requires Sorted(hits)
    ensures Sorted(Insert(hits, hit))
  {
    if hits != [] && !NotAfter(hit, hits[0]) {
      InsertKeepsSorted(hits[1..], hit);
      var rest := Insert(hits[1..], hit);
      forall k | 0 <= k < |rest| ensures NotAfter(hits[0], rest[k]) {
        assert rest[k] in multiset(hits[1..]) + multiset{hit};
        if rest[k] in hits[1..] { assert rest[k] in hits[1..]; }
      }
    }
  }

  /** `found.sort(..)`. */
  method SortHits(hits: seq<Hit>) returns (sorted: seq<Hit>)
    ensures Sorted(sorted) && multiset(sorted) == multiset(hits)
  {
    sorted := [];
    for i := 0 to |hits|
      invariant Sorted(sorted) && multiset(sorted) == multiset(hits[..i])
    {
      InsertKeepsSorted(sorted, hits[i]);
      sorted := Insert(sorted, hits[i]);
      assert hits[..i + 1] == hits[..i] + [hits[i]];
    }
    assert hits[..|hits|] == hits;
  }

  /** Hits that the comparison cannot tell apart are the same hit. */
  predicate KeysTell(hits: multiset<Hit>) {
    forall a, b | a in hits && b in hits && NotAfter(a, b) && NotAfter(b, a) :: a == b
  }

  function Drop<T>(s: seq<T>, i: nat): seq<T>
    requires i < |s|
  {
    s[..i] + s[i + 1..]
  }

  lemma SplitAt<T>(s: seq<T>, i: nat)
    requires i < |s|
    ensures s == s[..i] + ([s[i]] + s[i + 1..]) && Drop(s, i) == s[..i] + s[i + 1..]
  {
  }

  lemma DropOne<T>(s: seq<T>, i: nat)
    requires i < |s|
    ensures multiset(s) == multiset{s[i]} + multiset(Drop(s, i))
  {
    assert s == s[..i] + ([s[i]] + s[i + 1..]);
  }

  /** Dropping the same element from two permutations of each other leaves permutations. */
  lemma DropBoth<T>(a: seq<T>, i: nat, b: seq<T>) returns (j: nat)
    requires multiset(a) == multiset(b) && i < |a|
    ensures j < |b| && b[j] == a[i] && multiset(Drop(a, i)) == multiset(Drop(b, j))
  {
    assert a[i] in multiset(b);
    j :| 0 <= j < |b| && b[j] == a[i];
    DropOne(a, i);
    DropOne(b, j);
    assert multiset(Drop(a, i)) == multiset(a) - multiset{a[i]};
    assert multiset(Drop(b, j)) == multiset(b) - multiset{a[i]};
  }

  lemma FirstOfBoth(a: seq<Hit>, b: seq<Hit>)
    requires a != [] && Sorted(a) && Sorted(b) && multiset(a) == multiset(b) && KeysTell(multiset(a))
    ensures b != [] && a[0] == b[0]
  {
    assert a[0] in multiset(a) && a[0] in multiset(b);
    assert b[0] in multiset(b) && b[0] in multiset(a);
    var i :| 0 <= i < |b| && b[i] == a[0];
    var j :| 0 <= j < |a| && a[j] == b[0];
    assert NotAfter(a[0], a[0]) && NotAfter(b[0], b[0]);
    assert NotAfter(b[0], b[i]) && NotAfter(a[0], a[j]);
  }

  lemma FewerKeysTell(first: Hit, a: seq<Hit>, b: seq<Hit>)
    requires multiset{first} + multiset(a) == multiset{first} + multiset(b)
    requires KeysTell(multiset{first} + multiset(a))
    ensures multiset(a) == multiset(b) && KeysTell(multiset(a))
  {
    assert multiset(a) == multiset{first} + multiset(a) - multiset{first};
    assert multiset(b) == multiset{first} + multiset(b) - multiset{first};
  }

  lemma {:induction false} SortedIsUnique(a: seq<Hit>, b: seq<Hit>)
    requires Sorted(a) && Sorted(b) && multiset(a) == multiset(b) && KeysTell(multiset(a))
    ensures a == b
  {
    if a == [] {
      assert |multiset(b)| == 0;
    } else {
      FirstOfBoth(a, b);
      DropOne(a, 0);
      DropOne(b, 0);
      assert Drop(a, 0) == a[1..] && Drop(b, 0) == b[1..];
      FewerKeysTell(a[0], a[1..], b[1..]);
      SortedIsUnique(a[1..], b[1..]);
    }
  }

  predicate DistinctOwners(fragments: seq<Fragment>) {
    forall i, j | 0 <= i < j < |fragments| :: fragments[i].owner != fragments[j].owner
  }

  lemma {:induction false} HitsAreOf(search: Search, fragment: Fragment, visits: seq<nat>)
    ensures forall hit | hit in HitsAt(search, fragment, visits) :: HitOf(search, fragment, hit)
  {
    hide Accepted, Bounded;
    if visits != [] { HitsAreOf(search, fragment, visits[1..]); }
  }

  lemma {:induction false} EveryHitIsOf(search: Search, fragments: seq<Fragment>)
    requires |search.query| > 0
    ensures forall hit | hit in AllHits(search, fragments) ::
              exists i | 0 <= i < |fragments| :: HitOf(search, fragments[i], hit)
  {
    hide HitOf, HitsAt, Visits;
    if fragments != [] {
      HitsAreOf(search, fragments[0], Visits(fragments[0].source, search.query, 0));
      EveryHitIsOf(search, fragments[1..]);
      forall hit | hit in AllHits(search, fragments)
        ensures exists i | 0 <= i < |fragments| :: HitOf(search, fragments[i], hit)
      {
        if hit in FragmentHits(search, fragments[0], 0) {
          assert HitOf(search, fragments[0], hit);
        } else {
          assert hit in AllHits(search, fragments[1..]);
          var i :| 0 <= i < |fragments[1..]| && HitOf(search, fragments[1..][i], hit);
          assert HitOf(search, fragments[i + 1], hit);
        }
      }
    }
  }

  lemma SameKeySameHit(search: Search, f: Fragment, g: Fragment, a: Hit, b: Hit)
    requires HitOf(search, f, a) && HitOf(search, g, b) && (f.owner == g.owner ==> f == g)
    requires NotAfter(a, b) && NotAfter(b, a)
    ensures a == b
  {
    hide Bounded;
  }

  lemma HitKeysTell(search: Search, fragments: seq<Fragment>)
    requires |search.query| > 0 && DistinctOwners(fragments)
    ensures KeysTell(multiset(AllHits(search, fragments)))
  {
    hide HitOf, AllHits, NotAfter;
    EveryHitIsOf(search, fragments);
    var hits := AllHits(search, fragments);
    forall a, b | a in multiset(hits) && b in multiset(hits) && NotAfter(a, b) && NotAfter(b, a)
      ensures a == b
    {
      assert a in hits && b in hits;
      var i :| 0 <= i < |fragments| && HitOf(search, fragments[i], a);
      var j :| 0 <= j < |fragments| && HitOf(search, fragments[j], b);
      assert fragments[i].owner == fragments[j].owner ==> i == j;
      SameKeySameHit(search, fragments[i], fragments[j], a, b);
    }
  }

  lemma {:induction false} AllHitsConcat(search: Search, a: seq<Fragment>, b: seq<Fragment>)
    requires |search.query| > 0
    ensures AllHits(search, a + b) == AllHits(search, a) + AllHits(search, b)
  {
    hide FragmentHits, HitsAt, Visits, NextMatch;
    if a == [] {
      assert a + b == b;
    } else {
      var first, rest := FragmentHits(search, a[0], 0), AllHits(search, a[1..]);
      AllHitsConcat(search, a[1..], b);
      assert (a + b)[1..] == a[1..] + b && (a + b)[0] == a[0];
      assert first + (rest + AllHits(search, b)) == first + rest + AllHits(search, b);
    }
  }

  lemma HitsWithout(search: Search, fragments: seq<Fragment>, j: nat)
    requires |search.query| > 0 && j < |fragments|
    ensures multiset(AllHits(search, fragments))
            == multiset(FragmentHits(search, fragments[j], 0)) + multiset(AllHits(search, Drop(fragments, j)))
  {
    hide FragmentHits;
    var front, back := fragments[..j], fragments[j + 1..];
    assert fragments == front + ([fragments[j]] + back) && ([fragments[j]] + back)[1..] == back;
    AllHitsConcat(search, front, [fragments[j]] + back);
    AllHitsConcat(search, front, back);
  }

  lemma {:induction false} PermutedFragments(search: Search, fs: seq<Fragment>, gs: seq<Fragment>)
    requires |search.query| > 0 && multiset(fs) == multiset(gs)
    ensures multiset(AllHits(search, fs)) == multiset(AllHits(search, gs))
  {
    hide FragmentHits, AllHits;
    if fs == [] {
      assert |multiset(gs)| == 0;
      assert gs == [];
    } else {
      var j := DropBoth(fs, 0, gs);
      PermutedFragments(search, Drop(fs, 0), Drop(gs, j));
      HitsWithout(search, fs, 0);
      HitsWithout(search, gs, j);
    }
  }

  lemma BytesWithout(hits: seq<Hit>, j: nat)
    requires j < |hits|
    ensures TotalBytes(hits) == hits[j].bytes + TotalBytes(Drop(hits, j))
  {
    hide TotalBytes, Drop;
    var front, one, back := hits[..j], [hits[j]], hits[j + 1..];
    assert hits == front + (one + back) by { SplitAt(hits, j); }
    OneTotal(hits[j]);
    TotalGrows(front, one + back);
    TotalGrows(one, back);
    TotalGrows(front, back);
    assert Drop(hits, j) == front + back by { SplitAt(hits, j); }
  }

  lemma {:induction false} PermutedBytes(a: seq<Hit>, b: seq<Hit>)
    requires multiset(a) == multiset(b)
    ensures TotalBytes(a) == TotalBytes(b)
  {
    hide TotalBytes;
    if a == [] {
      assert |multiset(b)| == 0;
      assert b == [];
    } else {
      var j := DropBoth(a, 0, b);
      PermutedBytes(Drop(a, 0), Drop(b, j));
      BytesWithout(a, 0);
      BytesWithout(b, j);
    }
  }

  /** What a finished search over these fragments returns. */
  predicate ResultOf(search: Search, fragments: seq<Fragment>, found: seq<Hit>)
    requires |search.query| > 0
  {
    Sorted(found) && multiset(found) == multiset(AllHits(search, fragments))
  }

  /** The fragments come out of a hash map in no particular order.  Whether the search
      fails and what it returns do not depend on it. */
  lemma ResultIsOrderFree(search: Search, fs: seq<Fragment>, gs: seq<Fragment>, a: seq<Hit>, b: seq<Hit>)
    requires |search.query| > 0 && multiset(fs) == multiset(gs) && DistinctOwners(fs)
    ensures WithinLimits(AllHits(search, fs)) <==> WithinLimits(AllHits(search, gs))
    ensures ResultOf(search, fs, a) && ResultOf(search, gs, b) ==> a == b
  {
    hide AllHits, TotalBytes, KeysTell, Sorted;
    PermutedFragments(search, fs, gs);
    var x, y := AllHits(search, fs), AllHits(search, gs);
    PermutedBytes(x, y);
    assert |x| == |multiset(x)| == |multiset(y)| == |y|;
    if ResultOf(search, fs, a) && ResultOf(search, gs, b) {
      HitKeysTell(search, fs);
      SortedIsUnique(a, b);
    }
  }

  /** The loop over all fragments of the SOURCE_TEXT domain, and the final sort. */
  method Materialize(search: Search, fragments: seq<Fragment>) returns (ok: bool, found: seq<Hit>)
    requires |search.query| > 0
    ensures ok == WithinLimits(AllHits(search, fragments))
    ensures ok ==> ResultOf(search, fragments, found)
    ensures ok ==> forall i, j | 0 <= i < j < |found| ::
                     var a, b := found[i], found[j];
                     a.owner < b.owner || (a.owner == b.owner
                                           && (a.start < b.start || (a.start == b.start && a.end <= b.end)))
  {
    found := [];
    var bytes := 0;
    var i := 0;
    ghost var all := AllHits(search, fragments);
    while i < |fragments|
      invariant 0 <= i <= |fragments| && bytes == TotalBytes(found) && WithinLimits(found)
      invariant all == found + AllHits(search, fragments[i..])
    {
      assert fragments[i..][1..] == fragments[i + 1..];
      ghost var hits, rest := FragmentHits(search, fragments[i], 0), AllHits(search, fragments[i + 1..]);
      assert all == found + hits + rest;
      var fits, after, total := ScanFragment(search, fragments[i], found, bytes);
      if !fits {
        if WithinLimits(all) { PrefixWithin(found + hits, rest); }
        return false, found;
      }
      found, bytes := after, total;
      i := i + 1;
    }
    assert found + [] == found;
    found := SortHits(found);
    return true, found;
  }
}
