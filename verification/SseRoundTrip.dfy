/** The client reads back exactly what the server wrote. */
module SseRoundTrip {
  import opened Common
  import opened SseText
  import opened SseParser
  import opened SseStream

  /** A line by itself: nothing in it or at its end that the reader would take away. */
  predicate OneLine(s: string) {
    '\n' !in s && (s != "" ==> s[|s| - 1] != '\r')
  }

  /** The server's events are one line each, fit a frame, and their JSON decodes to the
      same identity, type and terminal flag. */
  predicate Faithful(cfg: Config, e: ServerEvent) {
    && OneLine(e.kind) && OneLine(e.dataJson) && |Encode(FrameText(e))| <= 1_048_576
    && cfg.fromJson(e.dataJson).Some?
    && var event := cfg.fromJson(e.dataJson).value;
       event.jobId == cfg.jobId && event.sequence == e.sequence && event.kind == e.kind && event.terminal == e.terminal
  }

  function Received(cfg: Config, events: seq<ServerEvent>): seq<JobEvent>
    requires forall e | e in events :: Faithful(cfg, e)
  {
    if events == [] then []
    else
      assert Faithful(cfg, events[0]);
      [cfg.fromJson(events[0].dataJson).value] + Received(cfg, events[1..])
  }

  predicate Increasing(events: seq<ServerEvent>, last: int) {
    events == [] || (events[0].sequence > last && Increasing(events[1..], events[0].sequence))
  }

  // ---- Lines ---------------------------------------------------------------------------

  lemma NewlineAfter(line: string, rest: seq<Byte>)
    requires '\n' !in line
    ensures NewlineAt(Encode(line) + [NEWLINE] + rest) == |Encode(line)|
  {
    NoNewline(line);
    NewlineInPrefix(Encode(line), [NEWLINE] + rest);
    assert Encode(line) + [NEWLINE] + rest == Encode(line) + ([NEWLINE] + rest);
  }

  lemma LineStep(cfg: Config, s: State, line: string, rest: seq<Byte>)
    requires s.pending == Encode(line) + [NEWLINE] + rest && OneLine(line) && line != ""
    requires s.frameBytes + |Encode(line)| + 1 <= MAX_FRAME
    ensures TakeLine(cfg, s, |Encode(line)|)
            == Ok(Step(State(rest, s.lines + [line], s.frameBytes + |Encode(line)| + 1, s.terminal, s.lastId), None))
  {
    var end := |Encode(line)|;
    assert s.pending[..end] == Encode(line) && s.pending[end + 1..] == rest;
    EncodeRoundTrip(line);
    assert StripReturns(line) == line;
    hide Encode, Decode, ReadEvent, StripReturns;
  }

  lemma LineTaken(cfg: Config, s: State, line: string, rest: seq<Byte>)
    requires s.pending == Encode(line) + [NEWLINE] + rest && OneLine(line) && line != ""
    requires s.frameBytes + |Encode(line)| + 1 <= MAX_FRAME
    ensures Drain(cfg, s)
            == Drain(cfg, State(rest, s.lines + [line], s.frameBytes + |Encode(line)| + 1, s.terminal, s.lastId))
  {
    hide Encode, TakeLine;
    NewlineAfter(line, rest);
    LineStep(cfg, s, line, rest);
  }

  lemma BlankTaken(cfg: Config, s: State, rest: seq<Byte>, event: Option<JobEvent>)
    requires s.pending == [NEWLINE] + rest && s.frameBytes + 1 <= MAX_FRAME && !s.terminal
    requires ReadEvent(cfg, s.lastId, s.lines) == Ok(event)
    ensures Drain(cfg, s)
            == if event.None? then Drain(cfg, State(rest, [], 0, false, s.lastId))
               else if event.value.terminal then Ok(Fed(State(rest, [], 0, true, event.value.sequence), [event.value]))
               else Prepend(event, Drain(cfg, State(rest, [], 0, false, event.value.sequence)))
  {
    assert NewlineAt(s.pending) == 0;
    assert s.pending[..0] == [] && s.pending[1..] == rest;
    assert StripReturns("") == "";
    hide ReadEvent;
  }

  lemma {:induction false} IndexAfter(a: string, b: string, c: char)
    requires c !in a && b != "" && b[0] == c
    ensures IndexOf(a + b, c) == |a|
  {
    if a == "" {
      assert a + b == b;
    } else {
      IndexAfter(a[1..], b, c);
      assert (a + b)[1..] == a[1..] + b && (a + b)[0] == a[0];
    }
  }

  lemma FieldRead(fields: Fields, key: string, value: string)
    requires key == "id" || key == "event" || key == "data"
    ensures ReadField(fields, key + ": " + value)
            == Ok(if key == "data" then fields.(data := fields.data + [value])
                  else if key == "id" then fields.(id := Some(value)) else fields.(kind := Some(value)))
  {
    var line := key + ": " + value;
    IndexAfter(key, ": " + value, ':');
    assert line == key + (": " + value);
    assert line[0] == key[0] && line[..|key|] == key;
    assert line[|key| + 1..] == " " + value && (" " + value)[1..] == value;
  }

  // ---- One frame -----------------------------------------------------------------------

  function IdLine(e: ServerEvent): string { "id" + ": " + Decimal(e.sequence) }

  function EventLine(e: ServerEvent): string { "event" + ": " + e.kind }

  function DataLine(e: ServerEvent): string { "data" + ": " + e.dataJson }

  lemma ThreeFields(a: string, b: string, c: string, one: Fields, two: Fields, three: Fields)
    requires ReadField(Fields([], None, None), a) == Ok(one)
    requires ReadField(one, b) == Ok(two) && ReadField(two, c) == Ok(three)
    ensures ReadFields([a, b, c]) == Ok(three)
  {
    hide ReadField;
    assert [a, b, c][..2] == [a, b] && [a, b][..1] == [a] && [a][..0] == [];
    assert ReadFields([a]) == Ok(one);
    assert ReadFields([a, b]) == Ok(two);
  }

  lemma FrameFields(e: ServerEvent)
    ensures ReadFields([IdLine(e), EventLine(e), DataLine(e)])
            == Ok(Fields([e.dataJson], Some(Decimal(e.sequence)), Some(e.kind)))
  {
    hide ReadField, ReadFields, Decimal;
    var none := Fields([], None, None);
    FieldRead(none, "id", Decimal(e.sequence));
    var one := Fields([], Some(Decimal(e.sequence)), None);
    FieldRead(one, "event", e.kind);
    var two := Fields([], Some(Decimal(e.sequence)), Some(e.kind));
    FieldRead(two, "data", e.dataJson);
    assert [] + [e.dataJson] == [e.dataJson];
    ThreeFields(IdLine(e), EventLine(e), DataLine(e), one, two, Fields([e.dataJson], two.id, two.kind));
  }

  lemma FrameEvent(cfg: Config, last: int, e: ServerEvent)
    requires Faithful(cfg, e) && e.sequence > last
    ensures ReadEvent(cfg, last, [IdLine(e), EventLine(e), DataLine(e)]) == Ok(cfg.fromJson(e.dataJson))
  {
    FrameFields(e);
    DecimalRoundTrip(e.sequence);
    hide ReadFields, Decimal, ParseDecimal;
    assert Join([e.dataJson]) == e.dataJson;
  }

  lemma EncodeLine(line: string, rest: string)
    ensures Encode(line + "\n" + rest) == Encode(line) + [NEWLINE] + Encode(rest)
  {
    EncodeConcat(line + "\n", rest);
    EncodeConcat(line, "\n");
    assert "\n"[1..] == "" && Encode("\n") == [NEWLINE];
    hide EncodeChar;
  }

  lemma FrameLines(e: ServerEvent)
    ensures Encode(FrameText(e)) == Encode(IdLine(e)) + [NEWLINE] + (Encode(EventLine(e)) + [NEWLINE]
                                    + (Encode(DataLine(e)) + [NEWLINE] + [NEWLINE]))
  {
    hide Decimal;
    var last := DataLine(e) + "\n" + "\n";
    var middle := EventLine(e) + "\n" + last;
    assert FrameText(e) == IdLine(e) + "\n" + middle;
    EncodeLine(IdLine(e), middle);
    EncodeLine(EventLine(e), last);
    EncodeLine(DataLine(e), "\n");
    NewlineByte();
    hide Encode;
  }

  lemma LinesAreSingle(e: ServerEvent)
    requires OneLine(e.kind) && OneLine(e.dataJson)
    ensures OneLine(IdLine(e)) && OneLine(EventLine(e)) && OneLine(DataLine(e))
  {
    var digits := Decimal(e.sequence);
    assert forall i | 0 <= i < |digits| :: IsDigit(digits[i]);
    assert IdLine(e)[|IdLine(e)| - 1] == digits[|digits| - 1];
  }

  lemma FrameFacts(cfg: Config, last: int, e: ServerEvent)
    requires Faithful(cfg, e) && e.sequence > last
    ensures OneLine(IdLine(e)) && OneLine(EventLine(e)) && OneLine(DataLine(e))
    ensures IdLine(e) != "" && EventLine(e) != "" && DataLine(e) != ""
    ensures |Encode(IdLine(e))| + |Encode(EventLine(e))| + |Encode(DataLine(e))| + 4 <= MAX_FRAME
    ensures cfg.fromJson(e.dataJson).Some?
    ensures var event := cfg.fromJson(e.dataJson).value; event.sequence == e.sequence && event.terminal == e.terminal
  {
    LinesAreSingle(e);
    FrameLines(e);
    hide Encode, FrameText, Decimal, OneLine;
  }

  /** Draining one frame gives its event and leaves the rest. */
  lemma FrameDrains(cfg: Config, last: int, e: ServerEvent, rest: seq<Byte>)
    requires Faithful(cfg, e) && e.sequence > last
    ensures cfg.fromJson(e.dataJson).Some?
    ensures var event := cfg.fromJson(e.dataJson).value;
            Drain(cfg, State(Encode(FrameText(e)) + rest, [], 0, false, last))
            == if e.terminal then Ok(Fed(State(rest, [], 0, true, e.sequence), [event]))
               else Prepend(Some(event), Drain(cfg, State(rest, [], 0, false, e.sequence)))
  {
    hide Encode, FrameText, IdLine, EventLine, DataLine, ReadEvent, Drain, OneLine, Faithful;
    FrameFacts(cfg, last, e);
    FrameEvent(cfg, last, e);
    FrameLines(e);
    var a, b, c := IdLine(e), EventLine(e), DataLine(e);
    var x, y, z := Encode(a), Encode(b), Encode(c);
    ThreeLines(cfg, last, a, b, c, rest);
    assert Encode(FrameText(e)) + rest == x + [NEWLINE] + (y + [NEWLINE] + (z + [NEWLINE] + ([NEWLINE] + rest)));
    BlankTaken(cfg, State([NEWLINE] + rest, [a, b, c], |x| + |y| + |z| + 3, false, last), rest,
               cfg.fromJson(e.dataJson));
  }

  lemma ThreeLines(cfg: Config, last: int, a: string, b: string, c: string, rest: seq<Byte>)
    requires OneLine(a) && OneLine(b) && OneLine(c) && a != "" && b != "" && c != ""
    requires |Encode(a)| + |Encode(b)| + |Encode(c)| + 4 <= MAX_FRAME
    ensures var tail := [NEWLINE] + rest;
            Drain(cfg, State(Encode(a) + [NEWLINE] + (Encode(b) + [NEWLINE] + (Encode(c) + [NEWLINE] + tail)),
                             [], 0, false, last))
            == Drain(cfg, State(tail, [a, b, c], |Encode(a)| + |Encode(b)| + |Encode(c)| + 3, false, last))
  {
    hide Encode, Drain, OneLine;
    var tail := [NEWLINE] + rest;
    var third := Encode(c) + [NEWLINE] + tail;
    var second := Encode(b) + [NEWLINE] + third;
    LineTaken(cfg, State(Encode(a) + [NEWLINE] + second, [], 0, false, last), a, second);
    assert [] + [a] == [a];
    LineTaken(cfg, State(second, [a], |Encode(a)| + 1, false, last), b, third);
    assert [a] + [b] == [a, b];
    LineTaken(cfg, State(third, [a, b], |Encode(a)| + |Encode(b)| + 2, false, last), c, tail);
    assert [a, b] + [c] == [a, b, c];
  }

  /** A comment line that fits a frame. */
  predicate IsBeat(beat: string) {
    OneLine(beat) && beat != "" && beat[0] == ':' && |Encode(beat)| + 2 <= 1_048_576
  }

  lemma {:induction false} EncodeBound(s: string)
    ensures |Encode(s)| <= 4 * |s|
  {
    if s != "" { EncodeBound(s[1..]); }
  }

  /** The server's heartbeat is one. */
  lemma HeartbeatIsBeat()
    ensures IsBeat(HEARTBEAT)
  {
    hide Encode;
    EncodeBound(HEARTBEAT);
  }

  lemma BeatReads(cfg: Config, last: int, beat: string)
    requires beat != "" && beat[0] == ':'
    ensures ReadEvent(cfg, last, [beat]) == Ok(None)
  {
    assert [beat][..0] == [];
    assert ReadField(Fields([], None, None), beat) == Ok(Fields([], None, None));
    assert ReadFields([beat]) == Ok(Fields([], None, None));
  }

  lemma NewlineByte()
    ensures Encode("\n") == [NEWLINE]
  {
    assert "\n"[1..] == "";
  }

  lemma BeatBytes(beat: string)
    ensures Encode(beat + "\n\n") == Encode(beat) + [NEWLINE] + [NEWLINE]
  {
    hide Encode;
    assert beat + "\n\n" == beat + "\n" + "\n";
    EncodeLine(beat, "\n");
    NewlineByte();
  }

  /** A heartbeat is read and forgotten. */
  lemma HeartbeatDrains(cfg: Config, last: int, beat: string, rest: seq<Byte>)
    requires IsBeat(beat)
    ensures Drain(cfg, State(Encode(beat + "\n\n") + rest, [], 0, false, last))
            == Drain(cfg, State(rest, [], 0, false, last))
  {
    hide Encode, Drain, ReadEvent, OneLine;
    BeatBytes(beat);
    BeatReads(cfg, last, beat);
    assert Encode(beat + "\n\n") + rest == Encode(beat) + [NEWLINE] + ([NEWLINE] + rest);
    LineTaken(cfg, State(Encode(beat) + [NEWLINE] + ([NEWLINE] + rest), [], 0, false, last), beat, [NEWLINE] + rest);
    assert [] + [beat] == [beat];
    BlankTaken(cfg, State([NEWLINE] + rest, [beat], |Encode(beat)| + 1, false, last), rest, None);
  }

  // ---- The stream ------------------------------------------------------------------------

  predicate GoodStream(cfg: Config, items: seq<Option<ServerEvent>>, last: int) {
    (forall e | e in Sent(items) :: Faithful(cfg, e)) && Increasing(Sent(items), last)
  }

  function LastSequence(events: seq<ServerEvent>, last: int): int {
    if events == [] then last else events[|events| - 1].sequence
  }

  predicate EndsTerminal(events: seq<ServerEvent>) {
    events != [] && events[|events| - 1].terminal
  }

  lemma SentTail(items: seq<Option<ServerEvent>>)
    requires items != [] && items[0].Some? && !items[0].value.terminal
    ensures var rest := Sent(items[1..]);
            && (rest == [] ==> Sent(items) == [items[0].value])
            && (rest != [] ==> Sent(items)[|Sent(items)| - 1] == rest[|rest| - 1])
  {
  }

  /** What a drained stream is. */
  function Drained(cfg: Config, last: int, items: seq<Option<ServerEvent>>): Result<Fed, Error>
    requires forall e | e in Sent(items) :: Faithful(cfg, e)
  {
    var sent := Sent(items);
    Ok(Fed(State([], [], 0, EndsTerminal(sent), LastSequence(sent, last)), Received(cfg, sent)))
  }

  lemma EventDrained(cfg: Config, last: int, items: seq<Option<ServerEvent>>)
    requires GoodStream(cfg, items, last) && items != [] && items[0].Some? && !items[0].value.terminal
    ensures var e := items[0].value;
            && Faithful(cfg, e) && e.sequence > last && GoodStream(cfg, items[1..], e.sequence)
            && Drained(cfg, last, items) == Prepend(cfg.fromJson(e.dataJson), Drained(cfg, e.sequence, items[1..]))
  {
    var e, sent, tail := items[0].value, Sent(items), Sent(items[1..]);
    hide Faithful;
    assert sent[0] == e && e in sent && sent[1..] == tail;
    forall x | x in tail ensures Faithful(cfg, x) { assert x in sent; }
    SentTail(items);
    FaithfulDecodes(cfg, e);
  }

  lemma FaithfulDecodes(cfg: Config, e: ServerEvent)
    requires Faithful(cfg, e)
    ensures cfg.fromJson(e.dataJson).Some?
  {
  }

  /** Draining a whole stream gives back every event sent, in order, and nothing pending. */
  lemma {:induction false} StreamDrains(cfg: Config, last: int, beat: string, items: seq<Option<ServerEvent>>)
    requires IsBeat(beat) && GoodStream(cfg, items, last)
    ensures Drain(cfg, State(Printed(beat, items), [], 0, false, last)) == Drained(cfg, last, items)
    decreases items, 1
  {
    if items == [] {
    } else if items[0].None? {
      QuietStream(cfg, last, beat, items);
    } else if items[0].value.terminal {
      LastEvent(cfg, last, beat, items);
    } else {
      hide Drain, Encode, Faithful, FrameText;
      EventDrained(cfg, last, items);
      FrameDrains(cfg, last, items[0].value, Printed(beat, items[1..]));
      StreamDrains(cfg, items[0].value.sequence, beat, items[1..]);
      hide Drained;
    }
  }

  lemma {:induction false} QuietStream(cfg: Config, last: int, beat: string, items: seq<Option<ServerEvent>>)
    requires IsBeat(beat) && GoodStream(cfg, items, last) && items != [] && items[0].None?
    ensures Drain(cfg, State(Printed(beat, items), [], 0, false, last)) == Drained(cfg, last, items)
    decreases items, 0
  {
    hide Drain, Encode;
    HeartbeatDrains(cfg, last, beat, Printed(beat, items[1..]));
    StreamDrains(cfg, last, beat, items[1..]);
  }

  lemma LastEvent(cfg: Config, last: int, beat: string, items: seq<Option<ServerEvent>>)
    requires IsBeat(beat) && GoodStream(cfg, items, last) && items != [] && items[0].Some? && items[0].value.terminal
    ensures Drain(cfg, State(Printed(beat, items), [], 0, false, last)) == Drained(cfg, last, items)
  {
    var e, sent := items[0].value, Sent(items);
    assert sent == [e] && sent[0] == e && sent[1..] == [];
    FrameDrains(cfg, last, e, []);
    assert Encode(FrameText(e)) + [] == Printed(beat, items);
    hide Drain, Encode, FrameText, Faithful;
    assert Received(cfg, sent) == [cfg.fromJson(e.dataJson).value];
  }

  /** Only the last event sent can be terminal. */
  lemma {:induction false} TerminalIsLast(cfg: Config, items: seq<Option<ServerEvent>>)
    requires forall e | e in Sent(items) :: Faithful(cfg, e)
    ensures NoTerminal(Received(cfg, Sent(items))) <==> !EndsTerminal(Sent(items))
  {
    if items != [] {
      if items[0].None? {
        TerminalIsLast(cfg, items[1..]);
      } else {
        var e, sent := items[0].value, Sent(items);
        assert e in sent && Faithful(cfg, e);
        if e.terminal {
          assert Received(cfg, sent)[0].terminal;
        } else {
          var tail := Sent(items[1..]);
          assert sent[1..] == tail;
          forall x | x in tail ensures Faithful(cfg, x) { assert x in sent; }
          TerminalIsLast(cfg, items[1..]);
          SentTail(items);
          TerminalBehind(cfg.fromJson(e.dataJson).value, Received(cfg, tail));
        }
      }
    }
  }

  /** The round trip.  Whatever events are sent, with heartbeats anywhere between them and
      the bytes cut into any chunks, the client yields exactly the server's events, in
      order, and completes if and only if a terminal event was among them. */
  lemma StreamRoundTrip(cfg: Config, last: int, beat: string, items: seq<Option<ServerEvent>>, chunks: seq<seq<Byte>>)
    requires IsBeat(beat) && GoodStream(cfg, items, last) && Concat(chunks) == Printed(beat, items)
    ensures FeedJob(cfg, State([], [], 0, false, last), chunks)
            == JobRun(Received(cfg, Sent(items)), if EndsTerminal(Sent(items)) then Complete else EndedEarly)
  {
    var start := State([], [], 0, false, last);
    StreamDrains(cfg, last, beat, items);
    TerminalIsLast(cfg, items);
    assert [] + Printed(beat, items) == Printed(beat, items);
    var fed := Drain(cfg, State(Printed(beat, items), [], 0, false, last)).value;
    assert Append(start, Printed(beat, items)) == State(Printed(beat, items), [], 0, false, last);
    assert Feed(cfg, start, Printed(beat, items)) == Ok(fed);
    ChunksAgree(cfg, start, chunks, fed);
  }

  /** In particular for the heartbeats the server writes. */
  lemma ServerRoundTrip(cfg: Config, last: int, items: seq<Option<ServerEvent>>, chunks: seq<seq<Byte>>)
    requires GoodStream(cfg, items, last) && Concat(chunks) == Printed(HEARTBEAT, items)
    ensures FeedJob(cfg, State([], [], 0, false, last), chunks)
            == JobRun(Received(cfg, Sent(items)), if EndsTerminal(Sent(items)) then Complete else EndedEarly)
  {
    HeartbeatIsBeat();
    StreamRoundTrip(cfg, last, HEARTBEAT, items, chunks);
    hide IsBeat, Printed, FeedJob, Received, Sent, GoodStream, Concat;
  }
}
