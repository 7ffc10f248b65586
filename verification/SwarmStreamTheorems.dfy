/** What the client makes of a stream: exact success conditions and the round trip. */
module SwarmStreamTheorems {
  import opened Wrappers
  import opened CanonicalJson
  import opened CanonicalJsonTheorems
  import opened JsonText
  import opened SwarmStream

  // ---- What a line means ----

  /** JavaScript takes the value for true. */
  ghost predicate Counts(v: Json) {
    v != Null && v != Bool(false) && v != Text("") && !(v.Number? && IsZero(v.text))
  }

  ghost predicate HasField(record: Json, key: string, v: Json) {
    record.Object? && Get(record.entries, key) == Some(v)
  }

  /** A line that is not blank and holds a record of its kind means exactly this. */
  lemma LineMeans(parse: Parser, line: string, record: Json)
    requires parse(line) == Some(record) && exists i :: 0 <= i < |line| && !IsBlankChar(line[i])
    ensures forall v :: KindOf(parse, line) == ProgressLine(v) <==>
              HasField(record, "type", Text("progress")) && HasField(record, "event", v) && Counts(v)
    ensures forall v :: KindOf(parse, line) == PacketLine(v) <==>
              HasField(record, "type", Text("packet")) && HasField(record, "result", v) && Counts(v)
    ensures forall e, m :: HasField(record, "type", Text("error")) && HasField(record, "error", e)
                           && HasField(e, "message", m) && m != Null ==>
              KindOf(parse, line) == BadLine(ServerFailed(Some(m)))
    ensures HasField(record, "type", Text("error"))
            && (forall e, m :: HasField(record, "error", e) && HasField(e, "message", m) ==> m == Null) ==>
              KindOf(parse, line) == BadLine(ServerFailed(None))
    ensures KindOf(parse, line) != BlankLine
    ensures KindOf(parse, line) == BadLine(NullRecord) <==> record == Null
    ensures (KindOf(parse, line).BadLine? && KindOf(parse, line).error.ServerFailed?) <==>
              HasField(record, "type", Text("error"))
    ensures KindOf(parse, line).BadLine? ==>
              var error := KindOf(parse, line).error;
              error.NullRecord? || error.ServerFailed? || error.InvalidRecord?
  {
    KindsDiffer();
    if Field(record, "error").Some? && Field(Field(record, "error").value, "message").Some? {
      var e := Field(record, "error").value;
      assert HasField(record, "error", e) && HasField(e, "message", Field(e, "message").value);
    }
  }

  lemma KindsDiffer()
    ensures "progress" != "packet" && "progress" != "error" && "packet" != "error"
  {
    assert "error"[0] != "progress"[0] && "error"[0] != "packet"[0] && "progress"[1] != "packet"[1];
  }

  /** Lines that are blank, and lines that are no record at all. */
  lemma LineWithoutRecord(parse: Parser, line: string)
    ensures KindOf(parse, line) == BlankLine <==> forall i :: 0 <= i < |line| ==> IsBlankChar(line[i])
    ensures KindOf(parse, line) == BadLine(SyntaxFailure) <==>
              parse(line) == None && exists i :: 0 <= i < |line| && !IsBlankChar(line[i])
  {
  }

  ghost function Join(parts: seq<string>): string
    requires parts != []
  {
    if |parts| == 1 then parts[0] else parts[0] + "\n" + Join(parts[1..])
  }

  /** Splitting cuts at every newline and nowhere else. */
  lemma {:induction false} SplitIsUnjoin(text: string)
    ensures Join(Split(text)) == text && forall part <- Split(text) :: '\n' !in part
  {
    if text != "" {
      SplitIsUnjoin(text[1..]);
      var rest, parts := Split(text[1..]), Split(text);
      assert text == [text[0]] + text[1..];
      assert parts[1..] == if text[0] == '\n' then rest else rest[1..];
      assert rest[0] in rest && forall part <- rest[1..] :: part in rest;
    }
  }

  // ---- When reading succeeds ----

  ghost function EventsOf(parse: Parser, lines: seq<string>): seq<Json> {
    if lines == [] then []
    else match KindOf(parse, lines[0])
      case ProgressLine(event) => [event] + EventsOf(parse, lines[1..])
      case _ => EventsOf(parse, lines[1..])
  }

  ghost function PacketsOf(parse: Parser, lines: seq<string>): seq<Json> {
    if lines == [] then []
    else match KindOf(parse, lines[0])
      case PacketLine(result) => [result] + PacketsOf(parse, lines[1..])
      case _ => PacketsOf(parse, lines[1..])
  }

  ghost predicate NoBadLines(parse: Parser, lines: seq<string>) {
    forall i :: 0 <= i < |lines| ==> !KindOf(parse, lines[i]).BadLine?
  }

  ghost function Held(packet: Option<Json>): seq<Json> {
    if packet.Some? then [packet.value] else []
  }

  /** What a reading amounts to after these lines. */
  ghost predicate ReadAs(parse: Parser, r: Reading, lines: seq<string>, after: Reading)
    requires r.Running?
  {
    Sums(r.progress + EventsOf(parse, lines), Held(r.packet) + PacketsOf(parse, lines), NoBadLines(parse, lines), after)
  }

  ghost predicate Sums(events: seq<Json>, packets: seq<Json>, readable: bool, after: Reading) {
    && (after.Running? <==> readable && |packets| <= 1)
    && (after.Running? ==> after.progress == events && after.packet == if packets == [] then None else Some(packets[0]))
  }

  lemma FirstLine(parse: Parser, lines: seq<string>)
    requires lines != []
    ensures NoBadLines(parse, lines) <==> !KindOf(parse, lines[0]).BadLine? && NoBadLines(parse, lines[1..])
  {
    hide KindOf;
    assert forall i :: 1 <= i < |lines| ==> lines[i] == lines[1..][i - 1];
  }

  /** One readable line in front of lines already understood. */
  lemma ReadOneMoreLine(parse: Parser, r: Reading, lines: seq<string>, after: Reading)
    requires r.Running? && lines != [] && Consume(parse, r, lines[0]).Running?
    requires ReadAs(parse, Consume(parse, r, lines[0]), lines[1..], after)
    ensures ReadAs(parse, r, lines, after)
  {
    FirstLine(parse, lines);
    hide KindOf, NoBadLines, Sums;
    var events, packets := EventsOf(parse, lines[1..]), PacketsOf(parse, lines[1..]);
    match KindOf(parse, lines[0]) {
      case ProgressLine(event) => assert r.progress + [event] + events == r.progress + ([event] + events);
      case PacketLine(result) => assert [] + ([result] + packets) == [result] + packets;
      case BlankLine =>
    }
  }

  /** A line that throws is bad, or a second packet. */
  lemma ReadThrowingLine(parse: Parser, r: Reading, lines: seq<string>)
    requires r.Running? && lines != [] && Consume(parse, r, lines[0]).Threw?
    ensures ReadAs(parse, r, lines, Consume(parse, r, lines[0]))
  {
    FirstLine(parse, lines);
    hide KindOf, NoBadLines;
  }

  lemma {:induction false} ReadingLines(parse: Parser, r: Reading, lines: seq<string>)
    requires r.Running?
    ensures ReadAs(parse, r, lines, ConsumeAll(parse, r, lines))
    decreases |lines|
  {
    hide KindOf, NoBadLines;
    if lines == [] {
      NoLines(parse);
      assert r.progress + [] == r.progress;
    } else {
      hide ReadAs;
      var next := Consume(parse, r, lines[0]);
      if next.Running? {
        ReadingLines(parse, next, lines[1..]);
        ReadOneMoreLine(parse, r, lines, ConsumeAll(parse, next, lines[1..]));
      } else {
        ThrownStaysThrown(parse, next, lines[1..]);
        ReadThrowingLine(parse, r, lines);
      }
    }
  }

  lemma NoLines(parse: Parser)
    ensures NoBadLines(parse, [])
  {
  }

  /**
   * The exactly-one-packet contract, for any text: reading succeeds if and only if every line is
   * blank, progress or packet, and there is exactly one packet and it is a proposal. The caller
   * then gets that packet and every event in order.
   */
  lemma SucceedsExactlyWhen(parse: Parser, text: string)
    ensures var lines := Split(text);
            var packets := PacketsOf(parse, lines);
            && (Interpret(parse, text).Completed?
                <==> && NoBadLines(parse, lines) && |packets| == 1
                     && packets[0].Object? && Get(packets[0].entries, "proposal_only") == Some(Bool(true)))
            && (Interpret(parse, text).Completed? ==>
                  Interpret(parse, text) == Completed(packets[0], EventsOf(parse, lines)))
            && (NoBadLines(parse, lines) && |packets| <= 1 && !Interpret(parse, text).Completed? ==>
                  Interpret(parse, text) == Rejected(ContractViolated, EventsOf(parse, lines)))
  {
    hide KindOf, NoBadLines, Split, Get, ConsumeAll;
    ReadingLines(parse, Running([], None), Split(text));
  }

  /**
   * Otherwise the first line that cannot be taken decides: a bad line by its own error, a second packet
   * as a duplicate. The events of the lines before it have been reported.
   */
  lemma RejectedByFirstLine(parse: Parser, text: string, k: nat)
    requires k < |Split(text)| && NoBadLines(parse, Split(text)[..k]) && |PacketsOf(parse, Split(text)[..k])| <= 1
    ensures var kind, before := KindOf(parse, Split(text)[k]), Split(text)[..k];
            && (kind.BadLine? ==> Interpret(parse, text) == Rejected(kind.error, EventsOf(parse, before)))
            && (kind.PacketLine? && |PacketsOf(parse, before)| == 1 ==>
                  Interpret(parse, text) == Rejected(DuplicatePacket, EventsOf(parse, before)))
  {
    hide KindOf, NoBadLines, Split;
    var lines, start := Split(text), Running([], None);
    var reading := ConsumeAll(parse, start, lines[..k]);
    ReadingLines(parse, start, lines[..k]);
    assert lines == lines[..k] + lines[k..] && lines[k..][0] == lines[k];
    ConsumeInTurn(parse, start, lines[..k], lines[k..]);
    var next := Consume(parse, reading, lines[k]);
    if next.Threw? {
      ThrownStaysThrown(parse, next, lines[k..][1..]);
    }
  }

  // ---- The round trip ----

  /** The client's parser inverts the serialiser on these records. */
  ghost predicate Inverts(parse: Parser, records: seq<Json>) {
    forall r <- records :: NumberTexts(r) && parse(Dumps(r)) == Some(r)
  }

  /** Progress events and packets are models dumped to objects. */
  ghost predicate Emittable(events: seq<Json>, t: Terminal) {
    (forall e <- events :: e.Object?) && (t.PacketEmitted? ==> t.result.Object?)
  }

  lemma {:induction false} NoNewlineOneLine(s: string)
    requires '\n' !in s
    ensures Split(s) == [s]
  {
    if s != "" {
      assert s[0] in s && forall c <- s[1..] :: c in s;
      NoNewlineOneLine(s[1..]);
      assert s == [s[0]] + s[1..];
    }
  }

  function Lines(records: seq<Json>): seq<string> {
    seq(|records|, i requires 0 <= i < |records| => Dumps(records[i]))
  }

  lemma {:induction false} TextSplitsIntoRecords(records: seq<Json>)
    requires forall r <- records :: NumberTexts(r)
    ensures Split(TextOf(records)) == Lines(records) + [""]
  {
    if records == [] {
      assert Split("") == [""];
    } else {
      var line := Dumps(records[0]);
      TextSplitsIntoRecords(records[1..]);
      DumpsPrintable(records[0]);
      NoNewlineOneLine(line);
      var rest := TextOf(records[1..]);
      assert TextOf(records) == line + ("\n" + rest);
      SplitAfterLine(line, rest);
      assert Lines(records) == [line] + Lines(records[1..]);
    }
  }

  lemma {:induction false} SplitAfterLine(line: string, rest: string)
    requires '\n' !in line
    ensures Split(line + ("\n" + rest)) == [line] + Split(rest)
    decreases |line|
  {
    hide Split;
    if line == "" {
      SplitCons('\n', rest);
      assert line + ("\n" + rest) == ['\n'] + rest;
    } else {
      assert line[0] in line && forall x <- line[1..] :: x in line;
      SplitAfterLine(line[1..], rest);
      SplitBefore(line[0], line[1..], rest);
      assert line + ("\n" + rest) == [line[0]] + (line[1..] + ("\n" + rest));
      assert [line[0]] + line[1..] == line;
    }
  }

  lemma SplitBefore(c: char, tail: string, rest: string)
    requires c != '\n' && Split(tail + ("\n" + rest)) == [tail] + Split(rest)
    ensures Split([c] + (tail + ("\n" + rest))) == [[c] + tail] + Split(rest)
  {
    hide Split;
    SplitCons(c, tail + ("\n" + rest));
  }

  lemma TwoFields(kind: string, key: string, v: Json)
    requires key != "type"
    ensures var r := Object([Entry("type", Text(kind)), Entry(key, v)]);
            Field(r, "type") == Some(Text(kind)) && Field(r, key) == Some(v) && !IsBlankLine(Dumps(r))
  {
    var r := Object([Entry("type", Text(kind)), Entry(key, v)]);
    assert r.entries[1..] == [Entry(key, v)];
    assert Get([Entry(key, v)], key) == Some(v);
    assert Dumps(r)[0] == '{';
  }

  lemma ProgressKind(parse: Parser, e: Json)
    requires e.Object? && parse(Dumps(ProgressRecord(e))) == Some(ProgressRecord(e))
    ensures KindOf(parse, Dumps(ProgressRecord(e))) == ProgressLine(e)
  {
    TwoFields("progress", "event", e);
  }

  lemma TerminalKind(parse: Parser, t: Terminal, r: Json)
    requires TerminalRecords(t) == [r] && parse(Dumps(r)) == Some(r) && (t.PacketEmitted? ==> t.result.Object?)
    ensures KindOf(parse, Dumps(r))
            == if t.PacketEmitted? then PacketLine(t.result) else BadLine(ServerFailed(ErrorMessage(r)))
  {
    hide Dumps, IsBlankLine, Field;
    assert TerminalRecords(t)[0] == r;
    if t.PacketEmitted? {
      TwoFields("packet", "result", t.result);
    } else {
      TwoFields("error", "error", t.error);
      assert "error"[0] != "progress"[0] && "error"[0] != "packet"[0];
    }
  }

  /** Reading the serialised progress records yields the events. */
  lemma {:induction false} ReadingProgress(parse: Parser, events: seq<Json>, r: Reading)
    requires r.Running?
    requires forall e <- events :: e.Object? && parse(Dumps(ProgressRecord(e))) == Some(ProgressRecord(e))
    ensures ConsumeAll(parse, r, Lines(ProgressRecords(events))) == Running(r.progress + events, r.packet)
    decreases |events|
  {
    var lines := Lines(ProgressRecords(events));
    if events == [] {
      assert lines == [];
    } else {
      assert events[0] in events;
      ProgressKind(parse, events[0]);
      var next := Running(r.progress + [events[0]], r.packet);
      assert lines[1..] == Lines(ProgressRecords(events[1..]));
      ReadingProgress(parse, events[1..], next);
      assert next.progress + events[1..] == r.progress + events;
    }
  }

  /** The outcome a client should see for what the server emitted. */
  ghost function Expected(events: seq<Json>, t: Terminal): Outcome {
    match t
    case PacketEmitted(result) =>
      if IsProposal(result) then Completed(result, events) else Rejected(ContractViolated, events)
    case ErrorEmitted(error) => Rejected(ServerFailed(ErrorMessage(TerminalRecords(t)[0])), events)
    case NothingEmitted => Rejected(ContractViolated, events)
  }

  /**
   * Round trip: whatever the server emits, and however its text is cut into chunks, the client
   * reports the emitted events in order and the emitted packet or error. It succeeds exactly when
   * a proposal packet was emitted.
   */
  lemma StreamRoundTrip(parse: Parser, events: seq<Json>, t: Terminal, chunks: seq<string>)
    requires Emittable(events, t) && Inverts(parse, Records(events, t))
    requires Concat(chunks) == TextOf(Records(events, t))
    ensures Interpret(parse, Concat(chunks)) == Expected(events, t)
  {
    hide Split, ConsumeAll, Dumps, KindOf, TextOf;
    var records := Records(events, t);
    TextSplitsIntoRecords(records);
    forall e <- events
      ensures ProgressRecord(e) in records
    {
      var i :| 0 <= i < |events| && events[i] == e;
      assert records[i] == ProgressRecord(e);
    }
    var head, tail := Lines(ProgressRecords(events)), Lines(TerminalRecords(t));
    assert Split(Concat(chunks)) == head + (tail + [""]);
    var start := Running([], None);
    ReadingProgress(parse, events, start);
    assert [] + events == events;
    ConsumeInTurn(parse, start, head, tail + [""]);
    ReadingTerminal(parse, events, t);
  }

  /** The project's reader satisfies the hypothesis for every record a server can emit. */
  lemma ReferenceRoundTrip(events: seq<Json>, t: Terminal, chunks: seq<string>)
    requires Emittable(events, t) && forall r <- Records(events, t) :: NumberTexts(r)
    requires Concat(chunks) == TextOf(Records(events, t))
    ensures Interpret(Loads, Concat(chunks)) == Expected(events, t)
  {
    forall r <- Records(events, t)
      ensures Loads(Dumps(r)) == Some(r)
    {
      JsonRoundTrip(r);
    }
    StreamRoundTrip(Loads, events, t, chunks);
  }

  lemma ReadingTerminal(parse: Parser, events: seq<Json>, t: Terminal)
    requires Emittable(events, t) && Inverts(parse, TerminalRecords(t))
    ensures Conclude(ConsumeAll(parse, Running(events, None), Lines(TerminalRecords(t)) + [""])) == Expected(events, t)
  {
    hide Dumps, KindOf;
    var lines := Lines(TerminalRecords(t)) + [""];
    if t.NothingEmitted? {
      assert lines == [""];
      BlankIsSkipped(parse, Running(events, None));
    } else {
      var r := TerminalRecords(t)[0];
      assert r in TerminalRecords(t) && TerminalRecords(t) == [r];
      TerminalKind(parse, t, r);
      assert lines == [Dumps(r), ""];
      ConsumeTwo(parse, Running(events, None), Dumps(r));
    }
  }

  lemma BlankIsSkipped(parse: Parser, r: Reading)
    ensures ConsumeAll(parse, r, [""]) == r
  {
    assert ConsumeAll(parse, r, [""]) == ConsumeAll(parse, Consume(parse, r, ""), [""][1..]);
  }

  lemma ConsumeTwo(parse: Parser, r: Reading, line: string)
    ensures ConsumeAll(parse, r, [line, ""]) == Consume(parse, r, line)
  {
    var next := Consume(parse, r, line);
    assert [line, ""][1..] == [""];
    assert ConsumeAll(parse, next, [""]) == ConsumeAll(parse, Consume(parse, next, ""), [""][1..]);
  }
}
