/** The bounded incremental parser of _sse.py, a strict subset of section 9.2.6 of the
    WHATWG HTML Standard. */
module SseParser {
  import opened Common
  import opened SseText

  const MAX_FRAME: nat := 1024 * 1024
  const MAX_LINE: nat := 1024 * 1024

  /** A job event as the client sees it. */
  datatype JobEvent = JobEvent(jobId: int, sequence: int, kind: string, terminal: bool, data: string)

  /** The job asked for, and the JSON decoder; None stands for every way it raises. */
  datatype Config = Config(jobId: int, fromJson: string -> Option<JobEvent>)

  datatype Error =
    | OversizedLine | OversizedFrame | InvalidUtf8 | MalformedField | UnknownField | LacksData | MalformedEvent

  datatype State = State(pending: seq<Byte>, lines: seq<string>, frameBytes: nat, terminal: bool, lastId: int)

  // ---- Lines and fields ------------------------------------------------------------------

  /** `rstrip("\r")`. */
  function StripReturns(line: string): string {
    if line != "" && line[|line| - 1] == '\r' then StripReturns(line[..|line| - 1]) else line
  }

  /** Where a character first occurs, or the length. */
  function IndexOf(s: string, c: char): (i: nat)
    ensures i <= |s| && c !in s[..i] && (i < |s| ==> s[i] == c)
  {
    if s == "" || s[0] == c then 0
    else
      assert s == [s[0]] + s[1..];
      var i := IndexOf(s[1..], c);
      assert s[..i + 1] == [s[0]] + s[1..][..i];
      i + 1
  }

  /** The field values collected so far. */
  datatype Fields = Fields(data: seq<string>, id: Option<string>, kind: Option<string>)

  function ReadField(fields: Fields, line: string): Result<Fields, Error> {
    if line != "" && line[0] == ':' then Ok(fields)
    else
      var colon := IndexOf(line, ':');
      if colon == |line| then Err(MalformedField)
      else
        var key, raw := line[..colon], line[colon + 1..];
        var value := if raw != "" && raw[0] == ' ' then raw[1..] else raw;
        if key == "data" then Ok(fields.(data := fields.data + [value]))
        else if key == "id" then Ok(fields.(id := Some(value)))
        else if key == "event" then Ok(fields.(kind := Some(value)))
        else Err(UnknownField)
  }

  function ReadFields(lines: seq<string>): Result<Fields, Error> {
    if lines == [] then Ok(Fields([], None, None))
    else
      var front := ReadFields(lines[..|lines| - 1]);
      if front.Err? then front else ReadField(front.value, lines[|lines| - 1])
  }

  function Join(data: seq<string>): string {
    if data == [] then "" else if |data| == 1 then data[0] else data[0] + "\n" + Join(data[1..])
  }

  /** `_event`: the event a frame carries, if any; only a consistent event advances the id. */
  function ReadEvent(cfg: Config, lastId: int, lines: seq<string>): Result<Option<JobEvent>, Error> {
    var fields := ReadFields(lines);
    if fields.Err? then Err(fields.error)
    else
      var f := fields.value;
      if f.data == [] then (if f.id.Some? || f.kind.Some? then Err(LacksData) else Ok(None))
      else if f.id.None? || !IsDecimal(f.id.value) then Err(MalformedEvent)
      else
        var number, event := ParseDecimal(f.id.value), cfg.fromJson(Join(f.data));
        if event.None? || number <= lastId || event.value.sequence != number || Some(event.value.kind) != f.kind
           || event.value.jobId != cfg.jobId
        then Err(MalformedEvent) else Ok(event)
  }

  // ---- Feeding ---------------------------------------------------------------------------

  function NewlineAt(bytes: seq<Byte>): (i: nat)
    ensures i <= |bytes| && NEWLINE !in bytes[..i] && (i < |bytes| ==> bytes[i] == NEWLINE)
  {
    if bytes == [] || bytes[0] == NEWLINE then 0
    else
      assert bytes == [bytes[0]] + bytes[1..];
      var i := NewlineAt(bytes[1..]);
      assert bytes[..i + 1] == [bytes[0]] + bytes[1..][..i];
      i + 1
  }

  datatype Step = Step(state: State, event: Option<JobEvent>)

  /** One round of the loop: the first line of `pending`, which ends at `end`. */
  function TakeLine(cfg: Config, s: State, end: nat): Result<Step, Error>
    requires end < |s.pending|
  {
    if end > MAX_LINE then Err(OversizedLine)
    else
      var text := Decode(s.pending[..end]);
      if text.None? then Err(InvalidUtf8)
      else
        var line, rest, bytes := StripReturns(text.value), s.pending[end + 1..], s.frameBytes + end + 1;
        if bytes > MAX_FRAME then Err(OversizedFrame)
        else if line != "" then Ok(Step(s.(pending := rest, frameBytes := bytes, lines := s.lines + [line]), None))
        else
          var event := ReadEvent(cfg, s.lastId, s.lines);
          if event.Err? then Err(event.error)
          else
            var id := if event.value.Some? then event.value.value.sequence else s.lastId;
            var ended := s.terminal || (event.value.Some? && event.value.value.terminal);
            Ok(Step(State(rest, [], 0, ended, id), event.value))
  }

  predicate Stops(step: Step) { step.event.Some? && step.event.value.terminal }

  datatype Fed = Fed(state: State, events: seq<JobEvent>)

  function Prepend(event: Option<JobEvent>, fed: Result<Fed, Error>): Result<Fed, Error> {
    if fed.Err? || event.None? then fed else Ok(Fed(fed.value.state, [event.value] + fed.value.events))
  }

  /** All complete lines, up to and including a terminal event. */
  function Drain(cfg: Config, s: State): Result<Fed, Error>
    decreases |s.pending|
  {
    var end := NewlineAt(s.pending);
    if end == |s.pending| then Ok(Fed(s, []))
    else
      var step := TakeLine(cfg, s, end);
      if step.Err? then Err(step.error)
      else if Stops(step.value) then Ok(Fed(step.value.state, [step.value.event.value]))
      else Prepend(step.value.event, Drain(cfg, step.value.state))
  }

  function CheckBounds(fed: Result<Fed, Error>): Result<Fed, Error> {
    if fed.Err? then fed
    else if |fed.value.state.pending| > MAX_LINE then Err(OversizedLine)
    else if fed.value.state.frameBytes + |fed.value.state.pending| > MAX_FRAME then Err(OversizedFrame)
    else fed
  }

  function Append(s: State, chunk: seq<Byte>): State {
    s.(pending := s.pending + chunk)
  }

  function Feed(cfg: Config, s: State, chunk: seq<Byte>): Result<Fed, Error> {
    CheckBounds(Drain(cfg, Append(s, chunk)))
  }

  class Parser {
    const cfg: Config
    var pending: seq<Byte>
    var lines: seq<string>
    var frameBytes: nat
    var terminal: bool
    var lastId: int

    constructor (cfg: Config, lastId: int)
      ensures this.cfg == cfg && Current() == State([], [], 0, false, lastId)
    {
      this.cfg, this.lastId := cfg, lastId;
      pending, lines, frameBytes, terminal := [], [], 0, false;
    }

    function Current(): State
      reads this
    {
      State(pending, lines, frameBytes, terminal, lastId)
    }

    method ReadFrame() returns (event: Result<Option<JobEvent>, Error>)
      modifies this`lastId
      ensures event == ReadEvent(cfg, old(lastId), lines)
      ensures lastId == if event.Ok? && event.value.Some? then event.value.value.sequence else old(lastId)
    {
      var fields := Fields([], None, None);
      var i := 0;
      while i < |lines|
        invariant 0 <= i <= |lines| && ReadFields(lines[..i]) == Ok(fields)
      {
        var next := ReadField(fields, lines[i]);
        assert lines[..i + 1][..i] == lines[..i];
        if next.Err? {
          FieldsFail(lines, i + 1);
          return Err(next.error);
        }
        fields := next.value;
        i := i + 1;
      }
      assert lines[..i] == lines;
      if fields.data == [] {
        return if fields.id.Some? || fields.kind.Some? then Err(LacksData) else Ok(None);
      }
      if fields.id.None? || !IsDecimal(fields.id.value) {
        return Err(MalformedEvent);
      }
      var number, parsed := ParseDecimal(fields.id.value), cfg.fromJson(Join(fields.data));
      if parsed.None? || number <= lastId || parsed.value.sequence != number || Some(parsed.value.kind) != fields.kind
         || parsed.value.jobId != cfg.jobId {
        return Err(MalformedEvent);
      }
      lastId := number;
      return Ok(parsed);
    }

    /** Events of this call, in order; an error is raised exactly when the specification
        says, and otherwise the parser is left in the specified state. */
    method FeedChunk(chunk: seq<Byte>) returns (events: Result<seq<JobEvent>, Error>)
      modifies this
      ensures var fed := Feed(cfg, old(Current()), chunk);
              && (events.Err? ==> fed == Err(events.error))
              && (events.Ok? ==> fed == Ok(Fed(Current(), events.value)))
      ensures events.Ok? ==> |pending| <= 1_048_576 && frameBytes + |pending| <= 1_048_576
    {
      hide Drain, Decode, ReadEvent, StripReturns, NewlineAt, PrependAll;
      pending := pending + chunk;
      ghost var all := Drain(cfg, Current());
      PrependNone(all);
      var found: seq<JobEvent> := [];
      var stopped := false;
      while !stopped && NewlineAt(pending) < |pending|
        invariant all == if stopped then Ok(Fed(Current(), found)) else PrependAll(found, Drain(cfg, Current()))
        decreases |pending|, !stopped
      {
        var end := NewlineAt(pending);
        DrainOne(cfg, Current(), found);
        if end > MAX_LINE {
          return Err(OversizedLine);
        }
        var text := Decode(pending[..end]);
        if text.None? {
          return Err(InvalidUtf8);
        }
        var line := StripReturns(text.value);
        pending := pending[end + 1..];
        frameBytes := frameBytes + end + 1;
        if frameBytes > MAX_FRAME {
          return Err(OversizedFrame);
        }
        if line != "" {
          lines := lines + [line];
        } else {
          var event := ReadFrame();
          if event.Err? {
            return Err(event.error);
          }
          lines := [];
          frameBytes := 0;
          if event.value.Some? {
            found := found + [event.value.value];
            if event.value.value.terminal {
              terminal := true;
              stopped := true;
            }
          }
        }
      }
      if !stopped { DrainNothing(cfg, Current(), found); }
      if |pending| > MAX_LINE {
        return Err(OversizedLine);
      }
      if frameBytes + |pending| > MAX_FRAME {
        return Err(OversizedFrame);
      }
      return Ok(found);
    }
  }

  function PrependAll(events: seq<JobEvent>, fed: Result<Fed, Error>): Result<Fed, Error> {
    if fed.Err? then fed else Ok(Fed(fed.value.state, events + fed.value.events))
  }

  lemma PrependNone(fed: Result<Fed, Error>)
    ensures PrependAll([], fed) == fed
  {
    if fed.Ok? { assert [] + fed.value.events == fed.value.events; }
  }

  /** One round of draining, behind the events found before. */
  lemma DrainOne(cfg: Config, s: State, found: seq<JobEvent>)
    requires NewlineAt(s.pending) < |s.pending|
    ensures var step := TakeLine(cfg, s, NewlineAt(s.pending));
            PrependAll(found, Drain(cfg, s))
            == if step.Err? then Err(step.error)
               else if Stops(step.value) then Ok(Fed(step.value.state, found + [step.value.event.value]))
               else PrependAll(if step.value.event.Some? then found + [step.value.event.value] else found,
                               Drain(cfg, step.value.state))
  {
    var step := TakeLine(cfg, s, NewlineAt(s.pending));
    if step.Ok? && step.value.event.Some? && !Stops(step.value) {
      PrependSnoc(found, step.value.event.value, Drain(cfg, step.value.state));
    }
    hide TakeLine;
  }

  lemma DrainNothing(cfg: Config, s: State, found: seq<JobEvent>)
    requires NewlineAt(s.pending) == |s.pending|
    ensures PrependAll(found, Drain(cfg, s)) == Ok(Fed(s, found))
  {
    assert found + [] == found;
  }

  lemma PrependSnoc(events: seq<JobEvent>, event: JobEvent, fed: Result<Fed, Error>)
    ensures PrependAll(events, Prepend(Some(event), fed)) == PrependAll(events + [event], fed)
  {
    if fed.Ok? {
      assert events + ([event] + fed.value.events) == events + [event] + fed.value.events;
    }
  }

  lemma {:induction false} FieldsFail(lines: seq<string>, i: nat)
    requires i <= |lines| && ReadFields(lines[..i]).Err?
    ensures ReadFields(lines) == ReadFields(lines[..i])
    decreases |lines| - i
  {
    if i < |lines| {
      assert lines[..i + 1][..i] == lines[..i];
      FieldsFail(lines, i + 1);
    } else {
      assert lines[..i] == lines;
    }
  }

  // ---- Chunking does not matter ------------------------------------------------------------

  lemma {:induction false} NewlineInPrefix(a: seq<Byte>, b: seq<Byte>)
    ensures NewlineAt(a) < |a| ==> NewlineAt(a + b) == NewlineAt(a)
    ensures NewlineAt(a) == |a| ==> NewlineAt(a + b) == |a| + NewlineAt(b)
  {
    if a == [] {
      assert a + b == b;
    } else if a[0] != NEWLINE {
      NewlineInPrefix(a[1..], b);
      assert (a + b)[1..] == a[1..] + b;
    }
  }

  lemma TakeLineAppend(cfg: Config, s: State, end: nat, more: seq<Byte>)
    requires end < |s.pending|
    ensures var step, longer := TakeLine(cfg, s, end), TakeLine(cfg, Append(s, more), end);
            if step.Err? then longer == step
            else longer == Ok(Step(Append(step.value.state, more), step.value.event))
  {
    assert (s.pending + more)[..end] == s.pending[..end];
    assert (s.pending + more)[end + 1..] == s.pending[end + 1..] + more;
  }

  predicate NoTerminal(events: seq<JobEvent>) {
    forall i | 0 <= i < |events| :: !events[i].terminal
  }

  /** More input after what was drained: an error stays, a terminal event still ends the
      call, and otherwise draining goes on from where it stopped. */
  lemma {:induction false} DrainAppend(cfg: Config, s: State, more: seq<Byte>)
    ensures Extends(Drain(cfg, s), Drain(cfg, Append(s, more)), cfg, more)
    decreases |s.pending|
  {
    var end := NewlineAt(s.pending);
    NewlineInPrefix(s.pending, more);
    if end == |s.pending| {
      PrependNone(Drain(cfg, Append(s, more)));
    } else {
      TakeLineAppend(cfg, s, end, more);
      var step := TakeLine(cfg, s, end);
      hide TakeLine;
      if step.Ok? && Stops(step.value) {
        assert Drain(cfg, s).value.events[0].terminal;
      } else if step.Ok? {
        DrainAppend(cfg, step.value.state, more);
        ExtendsBehind(step.value.event, Drain(cfg, step.value.state),
                      Drain(cfg, Append(step.value.state, more)), cfg, more);
      }
    }
  }

  predicate Extends(first: Result<Fed, Error>, longer: Result<Fed, Error>, cfg: Config, more: seq<Byte>) {
    if first.Err? then longer == first
    else if NoTerminal(first.value.events)
    then longer == PrependAll(first.value.events, Drain(cfg, Append(first.value.state, more)))
         && NewlineAt(first.value.state.pending) == |first.value.state.pending|
    else longer == Ok(Fed(Append(first.value.state, more), first.value.events))
  }

  lemma TerminalBehind(event: JobEvent, events: seq<JobEvent>)
    requires !event.terminal
    ensures NoTerminal([event] + events) <==> NoTerminal(events)
  {
    assert forall i | 0 <= i < |events| :: ([event] + events)[i + 1] == events[i];
  }

  lemma ExtendsBehind(event: Option<JobEvent>, first: Result<Fed, Error>, longer: Result<Fed, Error>, cfg: Config,
                      more: seq<Byte>)
    requires event.Some? ==> !event.value.terminal
    requires Extends(first, longer, cfg, more)
    ensures Extends(Prepend(event, first), Prepend(event, longer), cfg, more)
  {
    hide Drain, NewlineAt;
    if first.Ok? && event.Some? {
      var events := first.value.events;
      var all := [event.value] + events;
      TerminalBehind(event.value, events);
      hide NoTerminal;
      var rest := Drain(cfg, Append(first.value.state, more));
      if rest.Ok? { assert [event.value] + (events + rest.value.events) == all + rest.value.events; }
    }
  }

  /** What is pending without a newline and already too long can only stay too long. */
  lemma TooLongStaysTooLong(cfg: Config, s: State, more: seq<Byte>)
    requires NewlineAt(s.pending) == |s.pending|
    requires |s.pending| > MAX_LINE || s.frameBytes + |s.pending| > MAX_FRAME
    ensures Feed(cfg, s, more).Err?
  {
    NewlineInPrefix(s.pending, more);
  }

  /** `feed` is a homomorphism on input without a terminal event before its last part:
      feeding `a` and then `b` raises exactly when feeding them together does, and
      otherwise gives the same events and the same state. */
  lemma FeedIsHomomorphic(cfg: Config, s: State, a: seq<Byte>, b: seq<Byte>)
    ensures var first := Feed(cfg, s, a);
            if first.Err? then Feed(cfg, s, a + b).Err?
            else NoTerminal(first.value.events) ==>
                   Feed(cfg, s, a + b) == PrependAll(first.value.events, Feed(cfg, first.value.state, b))
  {
    DrainAppend(cfg, Append(s, a), b);
    AppendTwice(s, a, b);
    var drained := Drain(cfg, Append(s, a));
    hide Drain, NoTerminal, NewlineAt;
    if drained.Ok? && NoTerminal(drained.value.events) && Feed(cfg, s, a).Err? {
      TooLongStaysTooLong(cfg, drained.value.state, b);
    }
  }

  lemma AppendTwice(s: State, a: seq<Byte>, b: seq<Byte>)
    ensures Append(Append(s, a), b) == Append(s, a + b)
  {
    assert s.pending + a + b == s.pending + (a + b);
  }

  /** After a terminal event, later bytes of the same call are only kept as pending. */
  lemma FeedAfterTerminal(cfg: Config, s: State, a: seq<Byte>, b: seq<Byte>)
    requires Feed(cfg, s, a).Ok? && !NoTerminal(Feed(cfg, s, a).value.events) && Feed(cfg, s, a + b).Ok?
    ensures var first, both := Feed(cfg, s, a).value, Feed(cfg, s, a + b).value;
            both.events == first.events && both.state == Append(first.state, b)
  {
    DrainAppend(cfg, Append(s, a), b);
    AppendTwice(s, a, b);
    hide Drain, NoTerminal, NewlineAt;
  }
}
