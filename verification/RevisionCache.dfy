/** Revision tracking of the Python client (_common.py:59-120): a mutable cache that is
    the fold of the observations made. */
module RevisionCache {
  import opened Common

  /** What a result carries: a session and up to three spellings of each revision. */
  datatype Observation = Observation(session: Option<string>, logical: Option<int>,
                                     logicalAfter: Option<int>, afterLogical: Option<int>,
                             index: Option<int>, indexAfter: Option<int>, afterIndex: Option<int>)

  datatype State = State(retired: set<string>, session: Option<string>, logical: Option<int>, index: Option<int>)

  const EMPTY := State({}, None, None, None)

  function Or<T>(a: Option<T>, b: Option<T>): Option<T> { if a.Some? then a else b }

  function Logical(o: Observation): Option<int> { Or(o.logical, Or(o.logicalAfter, o.afterLogical)) }

  function Index(o: Observation): Option<int> { Or(o.index, Or(o.indexAfter, o.afterIndex)) }

  /** An observation counts only with a session and a logical revision. */
  predicate Counts(o: Observation) { o.session.Some? && Logical(o).Some? }

  function Max(a: int, b: int): int { if a < b then b else a }

  /** `max(current or 0, value)`. */
  function Raise(current: Option<int>, value: int): int {
    Max(if current.Some? then current.value else 0, value)
  }

  function Observe(s: State, o: Observation): State {
    if !Counts(o) || o.session.value in s.retired then s
    else if s.session != o.session then
      State(if s.session.Some? then s.retired + {s.session.value} else s.retired, o.session, Logical(o), Index(o))
    else
      s.(logical := Some(Raise(s.logical, Logical(o).value)),
         index := if Index(o).Some? then Some(Raise(s.index, Index(o).value)) else s.index)
  }

  function Fold(observations: seq<Observation>): State {
    if observations == [] then EMPTY
    else Observe(Fold(observations[..|observations| - 1]), observations[|observations| - 1])
  }

  lemma FoldSnoc(observations: seq<Observation>, o: Observation)
    ensures Fold(observations + [o]) == Observe(Fold(observations), o)
  {
    assert (observations + [o])[..|observations|] == observations;
    hide Observe;
  }

  /** The larger of the two, an absent one counting as zero. */
  predicate Raised(before: Option<int>, value: int, after: Option<int>) {
    && after.Some? && after.value >= value && after.value >= (if before.Some? then before.value else 0)
    && (after.value == value || after.value == if before.Some? then before.value else 0)
  }

  /** The ways `expected` raises. */
  datatype Problem = HalfGiven | Missing | NotUuid

  class RevisionCache {
    var retired: set<string>
    var sessionId: Option<string>
    var logicalRevision: Option<int>
    var indexRevision: Option<int>
    /** Everything observed so far. */
    ghost var observed: seq<Observation>

    ghost predicate Valid()
      reads this
    {
      Current() == Fold(observed)
    }

    function Current(): State
      reads this
    {
      State(retired, sessionId, logicalRevision, indexRevision)
    }

    constructor ()
      ensures Valid() && observed == []
    {
      retired, sessionId, logicalRevision, indexRevision, observed := {}, None, None, None, [];
    }

    method ObserveResult(o: Observation)
      requires Valid()
      modifies this
      ensures Valid() && observed == old(observed) + [o]
      ensures var logical := if o.logical.Some? then o.logical
                             else if o.logicalAfter.Some? then o.logicalAfter else o.afterLogical;
              var index := if o.index.Some? then o.index
                           else if o.indexAfter.Some? then o.indexAfter else o.afterIndex;
              if o.session == None || logical == None || o.session.value in old(retired)
              then Current() == old(Current())
              else if o.session != old(sessionId) then
                && sessionId == o.session && logicalRevision == logical && indexRevision == index
                && retired == old(retired) + if old(sessionId).Some? then {old(sessionId).value} else {}
              else
                && retired == old(retired) && sessionId == old(sessionId)
                && Raised(old(logicalRevision), logical.value, logicalRevision)
                && if index == None then indexRevision == old(indexRevision)
                   else Raised(old(indexRevision), index.value, indexRevision)
    {
      hide Fold;
      FoldSnoc(observed, o);
      observed := observed + [o];
      var logical := o.logical;
      if logical == None { logical := o.logicalAfter; }
      if logical == None { logical := o.afterLogical; }
      var index := o.index;
      if index == None { index := o.indexAfter; }
      if index == None { index := o.afterIndex; }
      if o.session == None || logical == None || o.session.value in retired {
        return;
      }
      if sessionId != o.session {
        if sessionId.Some? {
          retired := retired + {sessionId.value};
        }
        sessionId, logicalRevision, indexRevision := o.session, logical, index;
      } else {
        logicalRevision := Some(Raise(logicalRevision, logical.value));
        if index.Some? {
          indexRevision := Some(Raise(indexRevision, index.value));
        }
      }
    }

    /** `expected`: the pair sent as a precondition; an explicit argument wins over the
        cache, and a half-given pair or a session that is not a UUID is an error. */
    method Expected(session: Option<Option<string>>, revision: Option<Option<int>>, required: bool,
                    isUuid: string -> bool)
      returns (pair: Result<Option<(string, int)>, Problem>)
      ensures var s := if session.Some? then session.value else sessionId;
              var r := if revision.Some? then revision.value else logicalRevision;
              && (s.None? != r.None? <==> pair == Err(HalfGiven))
              && (s.None? && r.None? ==> pair == if required then Err(Missing) else Ok(None))
              && (s.Some? && r.Some? ==> pair == if isUuid(s.value) then Ok(Some((s.value, r.value))) else Err(NotUuid))
    {
      var s := if session.Some? then session.value else sessionId;
      var r := if revision.Some? then revision.value else logicalRevision;
      if s.None? != r.None? {
        return Err(HalfGiven);
      }
      if s.None? || r.None? {
        return if required then Err(Missing) else Ok(None);
      }
      if !isUuid(s.value) {
        return Err(NotUuid);
      }
      return Ok(Some((s.value, r.value)));
    }
  }

  // ---- What the fold amounts to ----------------------------------------------------------

  predicate Of(o: Observation, session: string) { Counts(o) && o.session == Some(session) }

  /** The sessions in the order the cache adopted them. */
  function Adopted(observations: seq<Observation>): seq<string> {
    if observations == [] then []
    else
      var front, o := observations[..|observations| - 1], observations[|observations| - 1];
      var before := Fold(front);
      Adopted(front) + if Counts(o) && o.session.value !in before.retired && before.session != o.session
                       then [o.session.value] else []
  }

  /** Adopted sessions do not repeat, the last one is current and exactly the others are
      retired. */
  ghost predicate NeverReturns(adopted: seq<string>, s: State) {
    && (forall i, j | 0 <= i < j < |adopted| :: adopted[i] != adopted[j])
    && (if adopted == [] then s.session == None && s.retired == {}
        else s.session == Some(adopted[|adopted| - 1]) && s.session.value !in s.retired
             && forall x :: x in s.retired <==> x in adopted[..|adopted| - 1])
  }

  lemma AdoptOne(adopted: seq<string>, s: State, o: Observation)
    requires NeverReturns(adopted, s) && o.session.Some? && o.session.value !in s.retired && s.session != o.session
    ensures var retired := if s.session.Some? then s.retired + {s.session.value} else s.retired;
            NeverReturns(adopted + [o.session.value], State(retired, o.session, Logical(o), Index(o)))
  {
    var after := adopted + [o.session.value];
    assert after[..|adopted|] == adopted;
    if adopted != [] {
      var front := adopted[..|adopted| - 1];
      assert adopted == front + [s.session.value];
    }
  }

  /** A retired session never comes back. */
  lemma {:induction false} SessionsNeverReturn(observations: seq<Observation>)
    ensures NeverReturns(Adopted(observations), Fold(observations))
  {
    if observations != [] {
      var front, o := observations[..|observations| - 1], observations[|observations| - 1];
      SessionsNeverReturn(front);
      var s := Fold(front);
      if Counts(o) && o.session.value !in s.retired && s.session != o.session {
        AdoptOne(Adopted(front), s, o);
      } else {
        assert Adopted(front) + [] == Adopted(front);
      }
    }
  }

  /** Largest logical revision observed for a session. */
  function MaxLogical(observations: seq<Observation>, session: string): Option<int> {
    if observations == [] then None
    else
      var before, o := MaxLogical(observations[..|observations| - 1], session), observations[|observations| - 1];
      if !Of(o, session) then before
      else if before.None? then Logical(o) else Some(Max(before.value, Logical(o).value))
  }

  /** Largest index revision present in the observations of a session. */
  function MaxIndex(observations: seq<Observation>, session: string): Option<int> {
    if observations == [] then None
    else
      var before, o := MaxIndex(observations[..|observations| - 1], session), observations[|observations| - 1];
      if !Of(o, session) || Index(o).None? then before
      else if before.None? then Index(o) else Some(Max(before.value, Index(o).value))
  }

  /** Did the first observation of the session carry an index revision? */
  function FirstIndex(observations: seq<Observation>, session: string): Option<int> {
    if observations == [] then None
    else if Of(observations[0], session) then Index(observations[0])
    else FirstIndex(observations[1..], session)
  }

  lemma {:induction false} FirstIndexSnoc(front: seq<Observation>, o: Observation, session: string)
    ensures FirstIndex(front + [o], session)
            == if MaxLogical(front, session).None? && Of(o, session) then Index(o) else FirstIndex(front, session)
    ensures MaxLogical(front, session).None? ==> FirstIndex(front, session).None? && MaxIndex(front, session).None?
  {
    NobodyYet(front, session);
    if front == [] {
      assert front + [o] == [o];
    } else {
      assert (front + [o])[1..] == front[1..] + [o];
      FirstIndexSnoc(front[1..], o, session);
      NobodyYet(front[1..], session);
      assert forall i | 0 <= i < |front[1..]| :: front[1..][i] == front[i + 1];
      if !Of(front[0], session) && MaxLogical(front, session).Some? {
        var i :| 0 <= i < |front| && Of(front[i], session);
        assert front[1..][i - 1] == front[i];
      }
    }
  }

  lemma {:induction false} NobodyYet(observations: seq<Observation>, session: string)
    ensures MaxLogical(observations, session).None?
            <==> forall i | 0 <= i < |observations| :: !Of(observations[i], session)
    ensures MaxLogical(observations, session).None? ==>
              FirstIndex(observations, session).None? && MaxIndex(observations, session).None?
  {
    if observations != [] {
      var front := observations[..|observations| - 1];
      NobodyYet(front, session);
      assert forall i | 0 <= i < |front| :: front[i] == observations[i];
      if MaxLogical(observations, session).None? { NoFirst(observations, session); }
    }
  }

  lemma {:induction false} NoFirst(observations: seq<Observation>, session: string)
    requires forall i | 0 <= i < |observations| :: !Of(observations[i], session)
    ensures FirstIndex(observations, session).None?
  {
    if observations != [] { NoFirst(observations[1..], session); }
  }

  /** What the cache stores for its index: the largest one present, raised to zero when the
      session started without one. */
  function StoredIndex(observations: seq<Observation>, session: string): Option<int> {
    var largest := MaxIndex(observations, session);
    if largest.Some? && FirstIndex(observations, session).None? then Some(Max(0, largest.value)) else largest
  }

  lemma {:induction false} FirstIsPresent(observations: seq<Observation>, session: string)
    ensures FirstIndex(observations, session).Some? ==> MaxIndex(observations, session).Some?
  {
    if observations != [] {
      var front, o := observations[..|observations| - 1], observations[|observations| - 1];
      assert observations == front + [o];
      FirstIndexSnoc(front, o, session);
      FirstIsPresent(front, session);
    }
  }

  /** How one more observation changes the index that should be stored. */
  lemma IndexStep(front: seq<Observation>, o: Observation, session: string)
    ensures StoredIndex(front + [o], session)
            == if !Of(o, session) then StoredIndex(front, session)
               else if MaxLogical(front, session).None? then Index(o)
               else if Index(o).Some? then Some(Raise(StoredIndex(front, session), Index(o).value))
               else StoredIndex(front, session)
  {
    assert (front + [o])[..|front|] == front;
    FirstIndexSnoc(front, o, session);
    FirstIsPresent(front, session);
    hide FirstIndex, MaxLogical;
  }

  /** The stored logical revision is the maximum of all observations of the current
      session, wherever they were in the run, and the stored index is exactly this. */
  lemma {:induction false} StoredIsMaximum(observations: seq<Observation>)
    ensures var s := Fold(observations);
            && (s.session.Some? ==> s.logical.Some? && s.logical == MaxLogical(observations, s.session.value)
                                    && s.index == StoredIndex(observations, s.session.value))
            && (forall x | MaxLogical(observations, x).Some? :: s.session == Some(x) || x in s.retired)
  {
    if observations != [] {
      var front, o := observations[..|observations| - 1], observations[|observations| - 1];
      assert observations == front + [o];
      StoredIsMaximum(front);
      SessionsNeverReturn(front);
      SessionsNeverReturn(observations);
      hide Adopted, StoredIndex;
      var s := Fold(observations);
      if s.session.Some? { IndexStep(front, o, s.session.value); }
    }
  }

  /** So the stored index is the maximum present one if and only if the session's first
      observation carried one, or some value present is not negative, or none is present. */
  lemma IndexIsMaximumExactly(observations: seq<Observation>)
    ensures var s := Fold(observations);
            s.session.Some? ==>
              var x := s.session.value;
              (s.index == MaxIndex(observations, x) <==>
                 || FirstIndex(observations, x).Some? || MaxIndex(observations, x).None?
                 || MaxIndex(observations, x).value >= 0)
  {
    StoredIsMaximum(observations);
  }

  // ---- When order matters within one session ----------------------------------------------

  predicate OneSession(observations: seq<Observation>, session: string) {
    forall i | 0 <= i < |observations| :: Of(observations[i], session)
  }

  /** No index is present, or one that is not negative is, or every observation has one. */
  predicate OrderFree(observations: seq<Observation>, session: string) {
    || MaxIndex(observations, session).None?
    || MaxIndex(observations, session).value >= 0
    || forall o | o in observations :: Index(o).Some?
  }

  /** What the cache holds after observations of one session. */
  lemma {:induction false} OneSessionFold(observations: seq<Observation>, session: string)
    requires OneSession(observations, session) && observations != []
    ensures Fold(observations)
            == State({}, Some(session), MaxLogical(observations, session), StoredIndex(observations, session))
    ensures FirstIndex(observations, session) == Index(observations[0])
  {
    var front, o := observations[..|observations| - 1], observations[|observations| - 1];
    assert observations == front + [o] && Of(o, session) && Of(observations[0], session);
    IndexStep(front, o, session);
    hide StoredIndex;
    if front != [] {
      assert forall i | 0 <= i < |front| :: front[i] == observations[i];
      OneSessionFold(front, session);
      NobodyYet(front, session);
    }
  }

  /** The maxima say only what the observations contain. */
  lemma {:induction false} MaximaAreBounds(observations: seq<Observation>, session: string)
    ensures var m, n := MaxLogical(observations, session), MaxIndex(observations, session);
            && (m.Some? ==> (exists o | o in observations :: Of(o, session) && Logical(o) == m))
            && (n.Some? ==> (exists o | o in observations :: Of(o, session) && Index(o) == n))
            && (forall o | o in observations && Of(o, session) ::
                  m.Some? && Logical(o).value <= m.value && (Index(o).Some? ==> n.Some? && Index(o).value <= n.value))
  {
    if observations != [] {
      var front, last := observations[..|observations| - 1], observations[|observations| - 1];
      assert observations == front + [last];
      MaximaAreBounds(front, session);
    }
  }

  lemma MaximaAgree(a: seq<Observation>, b: seq<Observation>, session: string)
    requires forall o :: o in a <==> o in b
    ensures MaxLogical(a, session) == MaxLogical(b, session) && MaxIndex(a, session) == MaxIndex(b, session)
  {
    MaximaAreBounds(a, session);
    MaximaAreBounds(b, session);
    hide MaxLogical, MaxIndex, Index, Logical, Of;
  }

  lemma SameElements(a: seq<Observation>, b: seq<Observation>)
    requires multiset(a) == multiset(b)
    ensures |a| == |b| && forall o :: o in a <==> o in b
  {
    assert forall o :: (o in a <==> o in multiset(a)) && (o in b <==> o in multiset(b));
    assert |multiset(a)| == |a| && |multiset(b)| == |b|;
  }

  lemma PermutedSession(a: seq<Observation>, b: seq<Observation>, session: string)
    requires multiset(a) == multiset(b) && OneSession(a, session)
    ensures |a| == |b| && OneSession(b, session) && (forall o :: o in a <==> o in b)
    ensures MaxLogical(a, session) == MaxLogical(b, session) && MaxIndex(a, session) == MaxIndex(b, session)
  {
    SameElements(a, b);
    forall i | 0 <= i < |b| ensures Of(b[i], session) {
      assert b[i] in a;
    }
    MaximaAgree(a, b, session);
  }

  /** Permuting the observations of one session leaves the whole state the same, when no
      index, an index that is not negative, or only indexes are present. */
  lemma PermutedObservationsAgree(a: seq<Observation>, b: seq<Observation>, session: string)
    requires multiset(a) == multiset(b) && OneSession(a, session) && OrderFree(a, session)
    ensures Fold(a) == Fold(b)
  {
    PermutedSession(a, b, session);
    if a != [] {
      OneSessionFold(a, session);
      OneSessionFold(b, session);
      assert a[0] in a && b[0] in a;
    }
    hide Fold, MaxLogical, MaxIndex, FirstIndex;
  }

  /** One observation observed before all the others. */
  function MovedFirst(a: seq<Observation>, i: nat): (b: seq<Observation>)
    requires i < |a|
    ensures multiset(b) == multiset(a) && b[0] == a[i]
  {
    assert a == a[..i] + ([a[i]] + a[i + 1..]);
    [a[i]] + (a[..i] + a[i + 1..])
  }

  /** Otherwise two orders differ: begin with an observation without an index, or with the
      largest index. */
  lemma TwoOrdersDiffer(a: seq<Observation>, session: string) returns (b: seq<Observation>, c: seq<Observation>)
    requires OneSession(a, session) && !OrderFree(a, session)
    ensures multiset(b) == multiset(a) && multiset(c) == multiset(a) && Fold(b) != Fold(c)
  {
    MaximaAreBounds(a, session);
    var i :| 0 <= i < |a| && Index(a[i]).None?;
    var j :| 0 <= j < |a| && Index(a[j]) == MaxIndex(a, session);
    b, c := MovedFirst(a, i), MovedFirst(a, j);
    PermutedSession(a, b, session);
    PermutedSession(a, c, session);
    OneSessionFold(b, session);
    OneSessionFold(c, session);
    hide Fold, MaxLogical, MaxIndex, FirstIndex;
  }

  /** The observations of one session may be made in any order if and only if no index is
      present, an index that is not negative is present, or every observation has one. */
  lemma OrderIsFreeExactly(a: seq<Observation>, session: string)
    requires OneSession(a, session)
    ensures (forall b: seq<Observation> | multiset(b) == multiset(a) :: Fold(b) == Fold(a)) <==> OrderFree(a, session)
  {
    if OrderFree(a, session) {
      forall b: seq<Observation> | multiset(b) == multiset(a) ensures Fold(b) == Fold(a) {
        PermutedObservationsAgree(a, b, session);
      }
    } else {
      var b, c := TwoOrdersDiffer(a, session);
      assert Fold(b) != Fold(a) || Fold(c) != Fold(a);
    }
  }

  function Seen(index: Option<int>): Observation {
    Observation(Some("session"), Some(1), None, None, index, None, None)
  }

  /** With a negative index revision the order does matter. */
  lemma NegativeIndexDependsOnOrder()
    ensures Fold([Seen(None), Seen(Some(-3))]).index == Some(0)
    ensures Fold([Seen(Some(-3)), Seen(None)]).index == Some(-3)
  {
    var a, b := Seen(None), Seen(Some(-3));
    assert [a, b][..1] == [a] && [b, a][..1] == [b] && [a][..0] == [] && [b][..0] == [];
    assert Fold([a]) == Observe(EMPTY, a) && Fold([b]) == Observe(EMPTY, b);
  }
}
