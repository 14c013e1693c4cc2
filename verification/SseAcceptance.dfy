/** What the parser accepts, for every byte string: which frames carry an event, that
    identities only rise, and that lines and frames keep their bounds. */
module SseAcceptance {
  import opened Common
  import opened SseText
  import opened SseParser
  import opened SseStream

  // ---- Frames --------------------------------------------------------------------------

  predicate IsComment(line: string) {
    line != "" && line[0] == ':'
  }

  /** The value of a line `key:value`, less one leading space. */
  function ValueIn(line: string, key: string): Option<string> {
    if |line| > |key| && line[..|key|] == key && line[|key|] == ':' then
      var raw := line[|key| + 1..];
      Some(if raw != "" && raw[0] == ' ' then raw[1..] else raw)
    else None
  }

  predicate KnownLine(line: string) {
    IsComment(line) || ValueIn(line, "data").Some? || ValueIn(line, "id").Some? || ValueIn(line, "event").Some?
  }

  /** The values of this field in order. */
  function Values(lines: seq<string>, key: string): seq<string> {
    if lines == [] then []
    else
      var value := ValueIn(lines[|lines| - 1], key);
      Values(lines[..|lines| - 1], key) + if value.Some? then [value.value] else []
  }

  function LastOf(values: seq<string>): Option<string> {
    if values == [] then None else Some(values[|values| - 1])
  }

  lemma {:induction false} IndexIs(s: string, c: char, i: nat)
    requires i < |s| && s[i] == c && c !in s[..i]
    ensures IndexOf(s, c) == i
  {
    if i > 0 {
      assert s[0] == s[..i][0] && s[1..][..i - 1] == s[..i][1..];
      IndexIs(s[1..], c, i - 1);
    }
  }

  lemma {:induction false} IndexNone(s: string, c: char)
    requires c !in s
    ensures IndexOf(s, c) == |s|
  {
    if s != "" {
      assert s[0] in s;
      IndexNone(s[1..], c);
    }
  }

  lemma KeyIndex(line: string, key: string)
    requires ValueIn(line, key).Some? && ':' !in key
    ensures IndexOf(line, ':') == |key|
  {
    IndexIs(line, ':', |key|);
  }

  /** One line of a frame. */
  lemma FieldIs(fields: Fields, line: string)
    ensures var data, id, kind := ValueIn(line, "data"), ValueIn(line, "id"), ValueIn(line, "event");
            && (ReadField(fields, line).Ok? <==> KnownLine(line))
            && (data.Some? ==> id.None? && kind.None?) && (id.Some? ==> kind.None?)
            && (KnownLine(line) ==>
                  ReadField(fields, line)
                  == Ok(Fields(fields.data + (if data.Some? then [data.value] else []),
                               if id.Some? then id else fields.id, if kind.Some? then kind else fields.kind)))
  {
    var i := IndexOf(line, ':');
    if IsComment(line) {
      IndexIs(line, ':', 0);
    }
    if ValueIn(line, "data").Some? { KeyIndex(line, "data"); }
    if ValueIn(line, "id").Some? { KeyIndex(line, "id"); }
    if ValueIn(line, "event").Some? { KeyIndex(line, "event"); }
    assert fields.data + [] == fields.data;
    if !IsComment(line) && i < |line| {
      assert line[i] == ':';
      assert line[..i] == "data" ==> i == 4 && ValueIn(line, "data").Some?;
      assert line[..i] == "id" ==> i == 2 && ValueIn(line, "id").Some?;
      assert line[..i] == "event" ==> i == 5 && ValueIn(line, "event").Some?;
    }
  }

  /** The fields of a frame: every line is known, data are collected, and the last id and
      the last event count. */
  lemma {:induction false} FieldsExactly(lines: seq<string>)
    ensures ReadFields(lines).Ok? <==> forall line | line in lines :: KnownLine(line)
    ensures ReadFields(lines).Ok? ==>
              ReadFields(lines) == Ok(Fields(Values(lines, "data"), LastOf(Values(lines, "id")),
                                             LastOf(Values(lines, "event"))))
  {
    hide KnownLine, ValueIn, ReadField;
    if lines != [] {
      var front, last := lines[..|lines| - 1], lines[|lines| - 1];
      FieldsExactly(front);
      assert lines == front + [last];
      if ReadFields(front).Ok? { FieldIs(ReadFields(front).value, last); }
      assert forall line :: line in lines <==> line in front || line == last;
    }
  }

  /** The frame carries exactly this event, for a reader that has come to `lastId`. */
  predicate Carries(cfg: Config, lastId: int, lines: seq<string>, e: JobEvent) {
    var data, id, kind := Values(lines, "data"), LastOf(Values(lines, "id")), LastOf(Values(lines, "event"));
    && (forall line | line in lines :: KnownLine(line))
    && data != [] && cfg.fromJson(Join(data)) == Some(e)
    && id.Some? && id.value != "" && (forall i | 0 <= i < |id.value| :: '0' <= id.value[i] <= '9')
    && ParseDecimal(id.value) == e.sequence && e.sequence > lastId
    && kind == Some(e.kind) && e.jobId == cfg.jobId
  }

  lemma CommentHasNoValue(line: string)
    ensures IsComment(line) ==>
              ValueIn(line, "data").None? && ValueIn(line, "id").None? && ValueIn(line, "event").None?
  {
    assert |line| > 4 ==> line[..4][0] == line[0];
    assert |line| > 2 ==> line[..2][0] == line[0];
    assert |line| > 5 ==> line[..5][0] == line[0];
  }

  lemma {:induction false} NoValues(lines: seq<string>)
    requires forall line | line in lines :: KnownLine(line)
    ensures Values(lines, "data") == [] && Values(lines, "id") == [] && Values(lines, "event") == []
            <==> forall line | line in lines :: IsComment(line)
  {
    hide ValueIn;
    if lines != [] {
      var front, last := lines[..|lines| - 1], lines[|lines| - 1];
      assert lines == front + [last];
      assert last in lines && KnownLine(last);
      NoValues(front);
      CommentHasNoValue(last);
      assert forall line :: line in lines <==> line in front || line == last;
    }
  }

  lemma CommentsAreKnown()
    ensures forall line | IsComment(line) :: KnownLine(line)
  {
  }

  /** A frame is read as an event exactly if it carries that event, is passed over exactly
      if it has nothing but comments, and is an error otherwise. */
  lemma FrameExactly(cfg: Config, lastId: int, lines: seq<string>)
    ensures ReadEvent(cfg, lastId, lines) == Ok(None) <==> forall line | line in lines :: IsComment(line)
    ensures forall e :: ReadEvent(cfg, lastId, lines) == Ok(Some(e)) <==> Carries(cfg, lastId, lines, e)
  {
    hide Join, ParseDecimal, ValueIn, ReadFields;
    FieldsExactly(lines);
    CommentsAreKnown();
    hide KnownLine;
    if forall line | line in lines :: KnownLine(line) { NoValues(lines); }
  }

  // ---- Joining data ----------------------------------------------------------------------

  /** The parts between newlines. */
  function Parts(s: string): seq<string> {
    var i := IndexOf(s, '\n');
    if i == |s| then [s] else [s[..i]] + Parts(s[i + 1..])
  }

  /** Several data lines are joined so that the newlines give them back. */
  lemma {:induction false} JoinIsUndone(data: seq<string>)
    requires data != [] && forall d | d in data :: '\n' !in d
    ensures Parts(Join(data)) == data
  {
    assert data[0] in data;
    if |data| == 1 {
      IndexNone(data[0], '\n');
    } else {
      var rest := Join(data[1..]);
      var all := data[0] + "\n" + rest;
      assert all[..|data[0]|] == data[0] && all[|data[0]| + 1..] == rest;
      IndexIs(all, '\n', |data[0]|);
      JoinIsUndone(data[1..]);
    }
  }

  lemma PartsStep(line: string, rest: string)
    requires '\n' !in line
    ensures Parts(line + "\n" + rest) == [line] + Parts(rest)
  {
    var all := line + "\n" + rest;
    assert all[..|line|] == line && all[|line| + 1..] == rest;
    IndexIs(all, '\n', |line|);
  }

  lemma PartsEnd()
    ensures Parts("") == [""]
  {
  }

  /** What the server prints for an event is three lines and a blank one. */
  lemma PrintedLines(e: ServerEvent)
    requires '\n' !in e.kind && '\n' !in e.dataJson
    ensures Parts(FrameText(e))
            == ["id: " + Decimal(e.sequence), "event: " + e.kind, "data: " + e.dataJson, "", ""]
  {
    hide Parts, Decimal;
    var id, kind, data := "id: " + Decimal(e.sequence), "event: " + e.kind, "data: " + e.dataJson;
    var end := data + "\n" + ("" + "\n" + "");
    assert IsDecimal(Decimal(e.sequence));
    assert '\n' !in id && '\n' !in kind && '\n' !in data;
    assert FrameText(e) == id + "\n" + (kind + "\n" + end);
    PartsStep(id, kind + "\n" + end);
    PartsStep(kind, end);
    PartsStep(data, "" + "\n" + "");
    PartsStep("", "");
    PartsEnd();
  }

  /** Exactly the carriage returns at the end of a line go. */
  lemma {:induction false} StripExactly(line: string)
    ensures var text := StripReturns(line);
            && text <= line && (text != "" ==> text[|text| - 1] != '\r')
            && forall i | |text| <= i < |line| :: line[i] == '\r'
  {
    if line != "" && line[|line| - 1] == '\r' {
      StripExactly(line[..|line| - 1]);
    }
  }

  // ---- Identities rise -----------------------------------------------------------------

  /** Sequences strictly above `lastId` and rising, all of the job asked for. */
  predicate Rising(cfg: Config, lastId: int, events: seq<JobEvent>) {
    && (forall e | e in events :: e.jobId == cfg.jobId && e.sequence > lastId)
    && (forall i, j | 0 <= i < j < |events| :: events[i].sequence < events[j].sequence)
  }

  function LastId(lastId: int, events: seq<JobEvent>): int {
    if events == [] then lastId else events[|events| - 1].sequence
  }

  lemma RisingPrepend(cfg: Config, lastId: int, e: JobEvent, events: seq<JobEvent>)
    requires e.jobId == cfg.jobId && e.sequence > lastId && Rising(cfg, e.sequence, events)
    ensures Rising(cfg, lastId, [e] + events) && LastId(lastId, [e] + events) == LastId(e.sequence, events)
  {
  }

  lemma RisingConcat(cfg: Config, lastId: int, a: seq<JobEvent>, b: seq<JobEvent>)
    requires Rising(cfg, lastId, a) && Rising(cfg, LastId(lastId, a), b)
    ensures Rising(cfg, lastId, a + b) && LastId(lastId, a + b) == LastId(LastId(lastId, a), b)
  {
    if a == [] {
      assert a + b == b;
    } else {
      var last := a[|a| - 1];
      assert forall e | e in a :: e.sequence <= last.sequence;
      assert forall j | 0 <= j < |b| :: b[j] in b;
      assert forall i | 0 <= i < |a| :: a[i] in a;
    }
  }

  lemma TakeLineRises(cfg: Config, s: State, end: nat)
    requires end < |s.pending| && TakeLine(cfg, s, end).Ok?
    ensures var step := TakeLine(cfg, s, end).value;
            if step.event.None? then step.state.lastId == s.lastId
            else step.event.value.jobId == cfg.jobId && step.event.value.sequence > s.lastId
                 && step.state.lastId == step.event.value.sequence
  {
    FrameExactly(cfg, s.lastId, s.lines);
    hide ReadEvent, Decode, StripReturns, Values, Join;
  }

  lemma NothingRises(cfg: Config, lastId: int)
    ensures Rising(cfg, lastId, [])
  {
  }

  lemma TakeLineShrinks(cfg: Config, s: State, end: nat)
    requires end < |s.pending|
    ensures TakeLine(cfg, s, end).Ok? ==>
              TakeLine(cfg, s, end).value.state.pending == s.pending[end + 1..]
  {
    hide ReadEvent, Decode, StripReturns;
  }

  lemma {:induction false} DrainRises(cfg: Config, s: State)
    ensures Drain(cfg, s).Ok? ==>
              var fed := Drain(cfg, s).value;
              Rising(cfg, s.lastId, fed.events) && fed.state.lastId == LastId(s.lastId, fed.events)
    decreases |s.pending|
  {
    hide TakeLine, Rising;
    var end := NewlineAt(s.pending);
    if end < |s.pending| {
      var step := TakeLine(cfg, s, end);
      if step.Ok? {
        TakeLineRises(cfg, s, end);
        TakeLineShrinks(cfg, s, end);
        var next := step.value.state;
        NothingRises(cfg, next.lastId);
        if Stops(step.value) {
          RisingPrepend(cfg, s.lastId, step.value.event.value, []);
          assert [step.value.event.value] + [] == [step.value.event.value];
        } else {
          DrainRises(cfg, next);
          var rest := Drain(cfg, next);
          if rest.Ok? && step.value.event.Some? {
            RisingPrepend(cfg, s.lastId, step.value.event.value, rest.value.events);
          }
        }
      }
    } else {
      NothingRises(cfg, s.lastId);
    }
  }

  /** Whatever one feed yields has rising identities above the last one, all of this job,
      and the reader has then come to the last of them. */
  lemma FeedRises(cfg: Config, s: State, chunk: seq<Byte>)
    ensures Feed(cfg, s, chunk).Ok? ==>
              var fed := Feed(cfg, s, chunk).value;
              Rising(cfg, s.lastId, fed.events) && fed.state.lastId == LastId(s.lastId, fed.events)
  {
    DrainRises(cfg, Append(s, chunk));
    hide Drain, Rising;
  }

  lemma {:induction false} SlicesRise(cfg: Config, s: State, slices: seq<seq<Byte>>)
    ensures var p := FeedSlices(cfg, s, slices);
            && Rising(cfg, s.lastId, p.events)
            && (p.state.Ok? ==> p.state.value.lastId == LastId(s.lastId, p.events))
    decreases |slices|
  {
    hide Feed, Rising;
    NothingRises(cfg, s.lastId);
    if slices != [] {
      FeedRises(cfg, s, slices[0]);
      var fed := Feed(cfg, s, slices[0]);
      if fed.Ok? {
        SlicesRise(cfg, fed.value.state, slices[1..]);
        RisingConcat(cfg, s.lastId, fed.value.events, FeedSlices(cfg, fed.value.state, slices[1..]).events);
      }
    }
  }

  /** So does whatever the job reader yields from any bytes in any chunks, also when it
      fails in the end. */
  lemma {:induction false} JobRises(cfg: Config, s: State, chunks: seq<seq<Byte>>)
    ensures Rising(cfg, s.lastId, FeedJob(cfg, s, chunks).events)
    decreases |chunks|
  {
    hide FeedSlices, Rising, Slices;
    NothingRises(cfg, s.lastId);
    if chunks != [] {
      SlicesRise(cfg, s, Slices(chunks[0]));
      var p := FeedSlices(cfg, s, Slices(chunks[0]));
      if p.state.Ok? && !p.state.value.terminal {
        JobRises(cfg, p.state.value, chunks[1..]);
        RisingConcat(cfg, s.lastId, p.events, FeedJob(cfg, p.state.value, chunks[1..]).events);
      }
    }
  }

  // ---- Bounds ----------------------------------------------------------------------------

  const RETURN: Byte := 13

  /** The bytes from `i` to `j` are one line, and a newline follows at `j`. */
  predicate IsLine(bytes: seq<Byte>, i: nat, j: nat) {
    && i <= j < |bytes| && bytes[j] == NEWLINE && (i == 0 || bytes[i - 1] == NEWLINE)
    && forall k | i <= k < j :: bytes[k] != NEWLINE
  }

  predicate IsBlank(line: seq<Byte>) {
    forall b | b in line :: b == RETURN
  }

  lemma {:induction false} BlankText(text: string)
    requires StripReturns(text) == ""
    ensures IsBlank(Encode(text))
  {
    if text != "" {
      var front, last := text[..|text| - 1], text[|text| - 1];
      BlankText(front);
      assert text == front + [last];
      EncodeConcat(front, [last]);
      assert Encode([last]) == [RETURN];
    }
  }

  /** What a line does that was read without error, and did not stop the reader. */
  lemma TakeLineFits(cfg: Config, s: State)
    requires NewlineAt(s.pending) < |s.pending|
    ensures var end := NewlineAt(s.pending); var step := TakeLine(cfg, s, end);
            step.Ok? ==>
              && end <= 1_048_576 && s.frameBytes + end + 1 <= 1_048_576 && Decode(s.pending[..end]).Some?
              && step.value.state.pending == s.pending[end + 1..]
              && (!IsBlank(s.pending[..end]) ==>
                    step.value.event.None? && step.value.state.frameBytes == s.frameBytes + end + 1)
  {
    hide ReadEvent, Decode, StripReturns, IsBlank;
    var end := NewlineAt(s.pending);
    var text := Decode(s.pending[..end]);
    if text.Some? {
      DecodeIsStrict(s.pending[..end]);
      if StripReturns(text.value) == "" { BlankText(text.value); }
    }
  }

  /** The first newline is the first. */
  lemma FirstNewline(bytes: seq<Byte>)
    ensures forall k | 0 <= k < |bytes| && bytes[k] == NEWLINE :: NewlineAt(bytes) <= k
  {
    assert forall k | 0 <= k < NewlineAt(bytes) :: bytes[k] in bytes[..NewlineAt(bytes)];
  }

  lemma LineBehind(bytes: seq<Byte>, i: nat, j: nat)
    requires IsLine(bytes, i, j)
    ensures var end := NewlineAt(bytes); i <= j < |bytes| && end <= j && if i == 0 then end == j else end < i
  {
    FirstNewline(bytes);
  }

  /** A line behind the first `skip` bytes, seen from the start. */
  lemma LineAhead(bytes: seq<Byte>, skip: nat, i: nat, j: nat)
    requires 0 < skip <= |bytes| && bytes[skip - 1] == NEWLINE
    ensures IsLine(bytes[skip..], i, j) <==> IsLine(bytes, i + skip, j + skip)
  {
    var rest := bytes[skip..];
    assert forall k | 0 <= k < |rest| :: rest[k] == bytes[k + skip];
    if IsLine(rest, i, j) {
      assert forall k | i + skip <= k < j + skip :: bytes[k] == rest[k - skip];
    }
  }

  lemma TextAhead(bytes: seq<Byte>, skip: nat, i: nat, j: nat)
    requires skip <= |bytes| && i <= j <= |bytes| - skip
    ensures bytes[skip..][i..j] == bytes[i + skip..j + skip]
  {
  }

  /** Reading goes on behind the first line. */
  lemma NextDrains(cfg: Config, s: State)
    requires NewlineAt(s.pending) < |s.pending| && Drain(cfg, s).Ok? && NoTerminal(Drain(cfg, s).value.events)
    ensures var step := TakeLine(cfg, s, NewlineAt(s.pending));
            step.Ok? && Drain(cfg, step.value.state).Ok? && NoTerminal(Drain(cfg, step.value.state).value.events)
  {
    hide TakeLine;
    var step := TakeLine(cfg, s, NewlineAt(s.pending)).value;
    var events := Drain(cfg, s).value.events;
    assert events != [] ==> !events[0].terminal;
    if step.event.Some? && !Stops(step) {
      TerminalBehind(step.event.value, Drain(cfg, step.state).value.events);
    }
  }

  /** In bytes that were read without error and without a terminal event, every complete
      line is valid UTF-8 and within 1 MiB. */
  lemma {:induction false} LinesFit(cfg: Config, s: State, i: nat, j: nat)
    requires Drain(cfg, s).Ok? && NoTerminal(Drain(cfg, s).value.events) && IsLine(s.pending, i, j)
    ensures j - i <= 1_048_576 && Decode(s.pending[i..j]).Some?
    decreases |s.pending|
  {
    hide TakeLine, IsLine, IsBlank, Decode;
    var end := NewlineAt(s.pending);
    LineBehind(s.pending, i, j);
    TakeLineFits(cfg, s);
    if i > 0 {
      NextDrains(cfg, s);
      LineAhead(s.pending, end + 1, i - end - 1, j - end - 1);
      TextAhead(s.pending, end + 1, i - end - 1, j - end - 1);
      LinesFit(cfg, TakeLine(cfg, s, end).value.state, i - end - 1, j - end - 1);
    } else {
      assert s.pending[0..end] == s.pending[..end];
    }
  }

  /** The bytes from the start of a line up to the newline at `j` hold no blank line. */
  ghost predicate OneFrame(bytes: seq<Byte>, i: nat, j: nat) {
    && i <= j < |bytes| && bytes[j] == NEWLINE && (i == 0 || bytes[i - 1] == NEWLINE)
    && forall a: nat, b: nat | i <= a <= b <= j && IsLine(bytes, a, b) :: !IsBlank(bytes[a..b])
  }

  lemma FirstLine(bytes: seq<Byte>)
    requires NewlineAt(bytes) < |bytes|
    ensures IsLine(bytes, 0, NewlineAt(bytes)) && bytes[0..NewlineAt(bytes)] == bytes[..NewlineAt(bytes)]
  {
  }

  lemma FrameStarts(bytes: seq<Byte>, i: nat, j: nat)
    requires OneFrame(bytes, i, j)
    ensures var end := NewlineAt(bytes);
            end <= j < |bytes| && i <= j && (i > 0 ==> end < i) && (i == 0 ==> !IsBlank(bytes[..end]))
  {
    hide IsBlank;
    FirstNewline(bytes);
    FirstLine(bytes);
  }

  /** The stretch behind the first `skip` bytes. */
  lemma FrameBehind(bytes: seq<Byte>, skip: nat, i: nat, j: nat)
    requires OneFrame(bytes, i, j) && 0 < skip <= j && bytes[skip - 1] == NEWLINE && (i == 0 || skip <= i)
    ensures OneFrame(bytes[skip..], if i == 0 then 0 else i - skip, j - skip)
  {
    hide IsBlank, IsLine;
    var rest := bytes[skip..];
    var from := if i == 0 then 0 else i - skip;
    forall a: nat, b: nat | from <= a <= b <= j - skip && IsLine(rest, a, b) ensures !IsBlank(rest[a..b]) {
      LineAhead(bytes, skip, a, b);
      TextAhead(bytes, skip, a, b);
    }
  }

  /** Every stretch of whole lines without a blank one is within 1 MiB, counting what was
      read of the frame before. */
  lemma {:induction false} FramesFit(cfg: Config, s: State, i: nat, j: nat)
    requires Drain(cfg, s).Ok? && NoTerminal(Drain(cfg, s).value.events) && OneFrame(s.pending, i, j)
    ensures (if i == 0 then s.frameBytes else 0) + j + 1 - i <= 1_048_576
    decreases |s.pending|
  {
    hide TakeLine, OneFrame, IsBlank, Decode;
    var end := NewlineAt(s.pending);
    FrameStarts(s.pending, i, j);
    TakeLineFits(cfg, s);
    NextDrains(cfg, s);
    if end < j {
      FrameBehind(s.pending, end + 1, i, j);
      FramesFit(cfg, TakeLine(cfg, s, end).value.state, if i == 0 then 0 else i - end - 1, j - end - 1);
    }
  }

  // ---- Replays ---------------------------------------------------------------------------

  lemma LaterCarries(cfg: Config, a: int, b: int, lines: seq<string>)
    ensures forall e, x | Carries(cfg, a, lines, e) && Carries(cfg, b, lines, x) :: x == e
    ensures forall e | Carries(cfg, a, lines, e) && e.sequence <= b :: !Carries(cfg, b, lines, e)
  {
    hide Values, Join, KnownLine, ParseDecimal;
  }

  lemma LineAgain(cfg: Config, s: State, r: State, end: nat)
    requires end < |s.pending| && r == s.(lastId := r.lastId) && TakeLine(cfg, s, end).Ok?
    ensures var step := TakeLine(cfg, s, end).value;
            && (step.event.None? ==>
                  step.state.lastId == s.lastId
                  && TakeLine(cfg, r, end) == Ok(Step(step.state.(lastId := r.lastId), None)))
            && (step.event.Some? && step.event.value.sequence <= r.lastId ==> TakeLine(cfg, r, end).Err?)
  {
    hide ReadEvent, Decode, StripReturns, Carries;
    FrameExactly(cfg, s.lastId, s.lines);
    FrameExactly(cfg, r.lastId, s.lines);
    LaterCarries(cfg, s.lastId, r.lastId, s.lines);
  }

  /** A replay is refused: bytes that gave one reader an event are an error for a reader
      that is at the same place and has already come to that event's identity. */
  lemma {:induction false} ReplayFails(cfg: Config, s: State, r: State)
    requires r == s.(lastId := r.lastId) && Drain(cfg, s).Ok?
    requires var events := Drain(cfg, s).value.events; events != [] && events[0].sequence <= r.lastId
    ensures Drain(cfg, r).Err?
    decreases |s.pending|
  {
    hide TakeLine;
    var end := NewlineAt(s.pending);
    if end < |s.pending| {
      LineAgain(cfg, s, r, end);
      var step := TakeLine(cfg, s, end);
      if step.Ok? && step.value.event.None? {
        TakeLineShrinks(cfg, s, end);
        var next := step.value.state;
        ReplayFails(cfg, next, next.(lastId := r.lastId));
      }
    }
  }

  /** Sent as a whole, the same bytes again make the feed fail. */
  lemma ReplayedChunkFails(cfg: Config, s: State, chunk: seq<Byte>, lastId: int)
    requires Feed(cfg, s, chunk).Ok?
    requires var events := Feed(cfg, s, chunk).value.events; events != [] && events[0].sequence <= lastId
    ensures Feed(cfg, s.(lastId := lastId), chunk).Err?
  {
    hide Drain;
    ReplayFails(cfg, Append(s, chunk), Append(s, chunk).(lastId := lastId));
  }
}
