/** The printer of JobEventsHandler.java:38-66, the reader of jobs.py:154-178, and the
    round trip between them under every chunking. */
module SseStream {
  import opened Common
  import opened SseText
  import opened SseParser

  datatype ServerEvent = ServerEvent(sequence: nat, kind: string, dataJson: string, terminal: bool)

  function FrameText(e: ServerEvent): string {
    "id: " + Decimal(e.sequence) + "\nevent: " + e.kind + "\ndata: " + e.dataJson + "\n\n"
  }

  /** The comment line of a heartbeat. */
  const HEARTBEAT: string := ": heartbeat"

  /** The bytes written for what the subscription gives: an event, or None when the
      heartbeat interval passes first.  The list ends when the subscription closes. */
  function Printed(beat: string, items: seq<Option<ServerEvent>>): seq<Byte> {
    if items == [] then []
    else if items[0].None? then Encode(beat + "\n\n") + Printed(beat, items[1..])
    else Encode(FrameText(items[0].value)) + if items[0].value.terminal then [] else Printed(beat, items[1..])
  }

  /** The events written: everything up to the first terminal one. */
  function Sent(items: seq<Option<ServerEvent>>): seq<ServerEvent> {
    if items == [] then []
    else if items[0].None? then Sent(items[1..])
    else [items[0].value] + if items[0].value.terminal then [] else Sent(items[1..])
  }

  predicate NoneTerminal(a: seq<Option<ServerEvent>>) {
    forall i | 0 <= i < |a| && a[i].Some? :: !a[i].value.terminal
  }

  lemma {:induction false} SentConcat(a: seq<Option<ServerEvent>>, b: seq<Option<ServerEvent>>)
    requires NoneTerminal(a)
    ensures Sent(a + b) == Sent(a) + Sent(b)
  {
    if a == [] {
      assert a + b == b;
    } else {
      assert NoneTerminal(a[1..]) && (a[0].Some? ==> !a[0].value.terminal);
      SentConcat(a[1..], b);
      assert (a + b)[1..] == a[1..] + b && (a + b)[0] == a[0];
      if a[0].Some? {
        var e := [a[0].value];
        assert e + (Sent(a[1..]) + Sent(b)) == e + Sent(a[1..]) + Sent(b);
      }
    }
  }

  /** What is sent, item by item: heartbeats are nothing, events are kept in order, and
      nothing is sent behind a terminal one. */
  lemma SentLaws(a: seq<Option<ServerEvent>>, e: ServerEvent, b: seq<Option<ServerEvent>>)
    requires NoneTerminal(a)
    ensures Sent([]) == []
    ensures Sent(a + ([None] + b)) == Sent(a) + Sent(b)
    ensures Sent(a + ([Some(e)] + b)) == Sent(a) + [e] + if e.terminal then [] else Sent(b)
  {
    SentConcat(a, [None] + b);
    SentConcat(a, [Some(e)] + b);
    assert ([None] + b)[1..] == b && ([Some(e)] + b)[1..] == b;
    var rest := if e.terminal then [] else Sent(b);
    assert Sent(a) + ([e] + rest) == Sent(a) + [e] + rest;
  }

  /** `serve`. */
  method Serve(items: seq<Option<ServerEvent>>) returns (output: seq<Byte>)
    ensures output == Printed(HEARTBEAT, items)
  {
    hide Encode, Decimal;
    output := [];
    var i := 0;
    while i < |items|
      invariant 0 <= i <= |items| && Printed(HEARTBEAT, items) == output + Printed(HEARTBEAT, items[i..])
    {
      assert items[i..][1..] == items[i + 1..];
      var event := items[i];
      i := i + 1;
      if event.None? {
        output := output + Encode(HEARTBEAT + "\n\n");
      } else {
        output := output + Encode("id: " + Decimal(event.value.sequence) + "\nevent: " + event.value.kind
                                  + "\ndata: " + event.value.dataJson + "\n\n");
        if event.value.terminal {
          return;
        }
      }
    }
  }

  const MAX_LONG := 0x7FFF_FFFF_FFFF_FFFF

  /** `parseLastId` of a header that is present. */
  function ParseLastId(raw: string): Option<nat> {
    if !IsDecimal(raw) || ParseDecimal(raw) > MAX_LONG then None else Some(ParseDecimal(raw))
  }

  /** The identity of any event that was printed is accepted again on reconnection, up to
      the range of a Java long. */
  lemma PrintedIdResumes(e: ServerEvent)
    ensures ParseLastId(Decimal(e.sequence))
            == if e.sequence <= 9_223_372_036_854_775_807 then Some(e.sequence) else None
  {
    DecimalRoundTrip(e.sequence);
  }

  // ---- The client ------------------------------------------------------------------------

  const SLICE: nat := 16384

  function Slices(chunk: seq<Byte>): seq<seq<Byte>> {
    if |chunk| == 0 then []
    else if |chunk| <= SLICE then [chunk]
    else [chunk[..SLICE]] + Slices(chunk[SLICE..])
  }

  function Concat(chunks: seq<seq<Byte>>): seq<Byte> {
    if chunks == [] then [] else chunks[0] + Concat(chunks[1..])
  }

  lemma {:induction false} SlicesConcat(chunk: seq<Byte>)
    ensures Concat(Slices(chunk)) == chunk && forall slice | slice in Slices(chunk) :: 0 < |slice| <= 16384
  {
    if |chunk| > SLICE {
      SlicesConcat(chunk[SLICE..]);
      assert chunk == chunk[..SLICE] + chunk[SLICE..];
    } else if |chunk| > 0 {
      assert [chunk][1..] == [];
    }
  }

  /** Events yielded so far, and the parser's state or the error it raised. */
  datatype Progress = Progress(events: seq<JobEvent>, state: Result<State, Error>)

  function FeedSlices(cfg: Config, s: State, slices: seq<seq<Byte>>): Progress
    decreases |slices|
  {
    if slices == [] then Progress([], Ok(s))
    else
      var fed := Feed(cfg, s, slices[0]);
      if fed.Err? then Progress([], Err(fed.error))
      else
        var rest := FeedSlices(cfg, fed.value.state, slices[1..]);
        Progress(fed.value.events + rest.events, rest.state)
  }

  datatype Outcome = Complete | EndedEarly | Failed(error: Error)

  datatype JobRun = JobRun(events: seq<JobEvent>, outcome: Outcome)

  function FeedJob(cfg: Config, s: State, chunks: seq<seq<Byte>>): JobRun
    decreases |chunks|
  {
    if chunks == [] then JobRun([], EndedEarly)
    else
      var p := FeedSlices(cfg, s, Slices(chunks[0]));
      if p.state.Err? then JobRun(p.events, Failed(p.state.error))
      else if p.state.value.terminal then JobRun(p.events, Complete)
      else
        var rest := FeedJob(cfg, p.state.value, chunks[1..]);
        JobRun(p.events + rest.events, rest.outcome)
  }

  /** The inner loop of `events`: one network chunk in slices of 16384 bytes. */
  method FeedChunkSliced(parser: Parser, chunk: seq<Byte>) returns (yielded: seq<JobEvent>, failure: Option<Error>)
    modifies parser
    ensures var p := FeedSlices(parser.cfg, old(parser.Current()), Slices(chunk));
            && yielded == p.events
            && (failure.Some? <==> p.state.Err?)
            && (if failure.Some? then p.state == Err(failure.value) else p.state == Ok(parser.Current()))
  {
    hide Feed, Drain;
    yielded := [];
    failure := None;
    ghost var p := FeedSlices(parser.cfg, parser.Current(), Slices(chunk));
    var rest := chunk;
    while |rest| > 0
      invariant failure.None?
      invariant var q := FeedSlices(parser.cfg, parser.Current(), Slices(rest));
                p.events == yielded + q.events && p.state == q.state
      decreases |rest|
    {
      var n := if |rest| < SLICE then |rest| else SLICE;
      SliceOne(parser.cfg, parser.Current(), rest, n, yielded);
      var events := parser.FeedChunk(rest[..n]);
      if events.Err? {
        return yielded, Some(events.error);
      }
      yielded := yielded + events.value;
      rest := rest[n..];
    }
    assert yielded + [] == yielded;
  }

  lemma SlicesFirst(rest: seq<Byte>, n: nat)
    requires |rest| > 0 && n == if |rest| < SLICE then |rest| else SLICE
    ensures Slices(rest) == [rest[..n]] + Slices(rest[n..])
  {
    if |rest| <= SLICE { assert rest[..n] == rest && rest[n..] == []; }
  }

  /** Feeding the first slice, behind what was yielded before. */
  lemma SliceOne(cfg: Config, s: State, rest: seq<Byte>, n: nat, yielded: seq<JobEvent>)
    requires |rest| > 0 && n == if |rest| < SLICE then |rest| else SLICE
    ensures var fed, whole := Feed(cfg, s, rest[..n]), FeedSlices(cfg, s, Slices(rest));
            if fed.Err? then yielded + whole.events == yielded && whole.state == Err(fed.error)
            else
              var tail := FeedSlices(cfg, fed.value.state, Slices(rest[n..]));
              yielded + whole.events == (yielded + fed.value.events) + tail.events && whole.state == tail.state
  {
    hide Feed, Slices;
    SlicesFirst(rest, n);
    assert ([rest[..n]] + Slices(rest[n..]))[1..] == Slices(rest[n..]);
    var fed := Feed(cfg, s, rest[..n]);
    if fed.Ok? {
      var tail := FeedSlices(cfg, fed.value.state, Slices(rest[n..]));
      assert yielded + (fed.value.events + tail.events) == (yielded + fed.value.events) + tail.events;
    }
  }

  /** `Job.events`. */
  method Events(cfg: Config, lastId: int, chunks: seq<seq<Byte>>) returns (yielded: seq<JobEvent>, outcome: Outcome)
    ensures JobRun(yielded, outcome) == FeedJob(cfg, State([], [], 0, false, lastId), chunks)
  {
    hide FeedSlices, Slices;
    var parser := new Parser(cfg, lastId);
    yielded := [];
    ghost var run := FeedJob(cfg, parser.Current(), chunks);
    var i := 0;
    while i < |chunks|
      invariant 0 <= i <= |chunks| && fresh(parser) && parser.cfg == cfg
      invariant var rest := FeedJob(cfg, parser.Current(), chunks[i..]);
                run == JobRun(yielded + rest.events, rest.outcome)
    {
      assert chunks[i..][1..] == chunks[i + 1..];
      var events, failure := FeedChunkSliced(parser, chunks[i]);
      ghost var before := yielded;
      yielded := yielded + events;
      if failure.Some? {
        return yielded, Failed(failure.value);
      }
      if parser.terminal {
        return yielded, Complete;
      }
      i := i + 1;
    }
    assert yielded + [] == yielded;
    return yielded, EndedEarly;
  }

  // ---- Every chunking gives what one feed gives ----------------------------------------------

  /** The parser is terminal exactly once a terminal event came out. */
  lemma {:induction false} DrainTerminal(cfg: Config, s: State)
    ensures var fed := Drain(cfg, s);
            fed.Ok? ==> (fed.value.state.terminal <==> s.terminal || !NoTerminal(fed.value.events))
    decreases |s.pending|
  {
    var end := NewlineAt(s.pending);
    if end < |s.pending| {
      var step := TakeLine(cfg, s, end);
      if step.Ok? && Stops(step.value) {
        assert Drain(cfg, s).value.events[0].terminal;
      } else if step.Ok? {
        DrainTerminal(cfg, step.value.state);
        var rest := Drain(cfg, step.value.state);
        if rest.Ok? && step.value.event.Some? { TerminalBehind(step.value.event.value, rest.value.events); }
      }
    }
  }

  lemma FeedEmpty(cfg: Config, s: State, chunk: seq<Byte>)
    requires chunk == [] && NewlineAt(s.pending) == |s.pending| && Feed(cfg, s, chunk).Ok?
    ensures Feed(cfg, s, chunk) == Ok(Fed(s, []))
  {
    assert s.pending + chunk == s.pending;
  }

  /** A state between two feeds of an input that, fed at once, ends well and leaves nothing
      pending behind a terminal event. */
  predicate Steady(cfg: Config, s: State, input: seq<Byte>, fed: Fed) {
    && NewlineAt(s.pending) == |s.pending| && Feed(cfg, s, input) == Ok(fed)
    && (!NoTerminal(fed.events) ==> fed.state.pending == [])
  }

  /** The first part of a steady input: the rest is steady too, or there is no rest. */
  lemma SplitSteady(cfg: Config, s: State, a: seq<Byte>, b: seq<Byte>, fed: Fed)
    requires Steady(cfg, s, a + b, fed)
    ensures var first := Feed(cfg, s, a);
            && first.Ok?
            && (NoTerminal(first.value.events) ==>
                  exists rest: Fed :: Steady(cfg, first.value.state, b, rest) && rest.state == fed.state
                                      && fed.events == first.value.events + rest.events)
            && (!NoTerminal(first.value.events) ==>
                  b == [] && first.value == fed && Steady(cfg, fed.state, [], Fed(fed.state, [])))
  {
    FeedIsHomomorphic(cfg, s, a, b);
    var first := Feed(cfg, s, a).value;
    DrainAppend(cfg, Append(s, a), b);
    if NoTerminal(first.events) {
      var rest := Feed(cfg, first.state, b).value;
      assert fed.events == first.events + rest.events;
      RestTerminal(first.events, rest.events);
      assert Steady(cfg, first.state, b, rest);
    } else {
      FeedAfterTerminal(cfg, s, a, b);
      NothingLeft(first.state.pending, b);
      assert fed.state == first.state;
      NothingMore(cfg, fed.state);
    }
  }

  lemma NothingLeft(a: seq<Byte>, b: seq<Byte>)
    requires a + b == []
    ensures a == [] && b == []
  {
    assert |a + b| == |a| + |b|;
  }

  lemma NothingMore(cfg: Config, s: State)
    requires s.pending == [] && s.frameBytes <= MAX_FRAME
    ensures Steady(cfg, s, [], Fed(s, []))
  {
    assert s.pending + [] == [];
  }

  lemma RestTerminal(a: seq<JobEvent>, b: seq<JobEvent>)
    requires NoTerminal(a)
    ensures NoTerminal(a + b) <==> NoTerminal(b)
  {
    assert forall i | 0 <= i < |b| :: (a + b)[|a| + i] == b[i];
  }

  lemma {:induction false} SlicesAgree(cfg: Config, s: State, slices: seq<seq<Byte>>, fed: Fed)
    requires Steady(cfg, s, Concat(slices), fed)
    ensures FeedSlices(cfg, s, slices) == Progress(fed.events, Ok(fed.state))
    decreases |slices|
  {
    if slices == [] {
      FeedEmpty(cfg, s, Concat(slices));
    } else {
      var a, b := slices[0], Concat(slices[1..]);
      SplitSteady(cfg, s, a, b, fed);
      var first := Feed(cfg, s, a).value;
      if NoTerminal(first.events) {
        var rest: Fed :| && Steady(cfg, first.state, b, rest) && rest.state == fed.state
                         && fed.events == first.events + rest.events;
        SlicesAgree(cfg, first.state, slices[1..], rest);
      } else {
        SlicesAgree(cfg, fed.state, slices[1..], Fed(fed.state, []));
        assert fed.events + [] == fed.events;
      }
    }
  }

  /** However a well-behaved stream is cut into chunks, the job reader yields what feeding
      it at once gives, and is complete exactly if a terminal event was in it. */
  lemma {:induction false} ChunksAgree(cfg: Config, s: State, chunks: seq<seq<Byte>>, fed: Fed)
    requires Steady(cfg, s, Concat(chunks), fed) && !s.terminal
    ensures FeedJob(cfg, s, chunks) == JobRun(fed.events, if NoTerminal(fed.events) then EndedEarly else Complete)
    decreases |chunks|
  {
    if chunks == [] {
      FeedEmpty(cfg, s, Concat(chunks));
    } else {
      var a, b := chunks[0], Concat(chunks[1..]);
      SplitSteady(cfg, s, a, b, fed);
      var first := Feed(cfg, s, a).value;
      SlicesConcat(a);
      DrainTerminal(cfg, Append(s, a));
      if NoTerminal(first.events) {
        var rest: Fed :| && Steady(cfg, first.state, b, rest) && rest.state == fed.state
                         && fed.events == first.events + rest.events;
        FirstSteady(cfg, s, a, first);
        SlicesAgree(cfg, s, Slices(a), first);
        RestTerminal(first.events, rest.events);
        ChunksAgree(cfg, first.state, chunks[1..], rest);
      } else {
        SlicesAgree(cfg, s, Slices(a), fed);
      }
    }
  }

  lemma FirstSteady(cfg: Config, s: State, a: seq<Byte>, first: Fed)
    requires NewlineAt(s.pending) == |s.pending| && Feed(cfg, s, a) == Ok(first) && NoTerminal(first.events)
    ensures Steady(cfg, s, a, first)
  {
  }
}
