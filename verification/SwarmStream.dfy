/**
 * The NDJSON stream of a swarm: the server's emitter (server/mcp/app.py) and the client's
 * incremental reader (client/src/lib/mcp.ts).
 *
 * The client parses lines with a library function; it is a parameter, and results that need it
 * ask only that it inverts the serialiser on the records at hand.
 */
module SwarmStream {
  import opened Wrappers
  import opened CanonicalJson
  import opened CanonicalJsonTheorems
  import opened JsonText

  // ---- The emitter ----

  datatype Terminal = PacketEmitted(result: Json) | ErrorEmitted(error: Json) | NothingEmitted

  function ProgressRecord(event: Json): Json {
    Object([Entry("type", Text("progress")), Entry("event", event)])
  }

  function TerminalRecords(t: Terminal): seq<Json> {
    match t
    case PacketEmitted(result) => [Object([Entry("type", Text("packet")), Entry("result", result)])]
    case ErrorEmitted(error) => [Object([Entry("type", Text("error")), Entry("error", error)])]
    case NothingEmitted => []
  }

  function ProgressRecords(events: seq<Json>): seq<Json> {
    seq(|events|, i requires 0 <= i < |events| => ProgressRecord(events[i]))
  }

  /** What the swarm puts on the queue before the sentinel. */
  function Records(events: seq<Json>, t: Terminal): seq<Json> {
    ProgressRecords(events) + TerminalRecords(t)
  }

  function TextOf(records: seq<Json>): string {
    if records == [] then "" else Dumps(records[0]) + "\n" + TextOf(records[1..])
  }

  function AsPuts(records: seq<Json>): seq<Option<Json>> {
    seq(|records|, i requires 0 <= i < |records| => Some(records[i])) + [None]
  }

  /** How the orchestrator's launch ends; `Cancelled` is not an exception the task handles. */
  datatype Launch = Returned(packet: Json) | NoEvidence | Raised | Cancelled

  /** The envelopes are made when they are needed, each with a trace identifier of its own. */
  function TerminalOf(launch: Launch, noEvidence: Json, internal: Json): Terminal {
    match launch
    case Returned(packet) => PacketEmitted(packet)
    case NoEvidence => ErrorEmitted(noEvidence)
    case Raised => ErrorEmitted(internal)
    case Cancelled => NothingEmitted
  }

  /** The task that runs the swarm: progress as it comes, one terminal record, and always the sentinel. */
  method RunSwarm(events: seq<Json>, launch: Launch, noEvidence: Json, internal: Json) returns (puts: seq<Option<Json>>)
    ensures puts == AsPuts(Records(events, TerminalOf(launch, noEvidence, internal)))
    ensures |puts| == |events| + (if launch.Cancelled? then 1 else 2) && puts[|puts| - 1] == None
    ensures forall i :: 0 <= i < |events| ==>
              puts[i] == Some(Object([Entry("type", Text("progress")), Entry("event", events[i])]))
    ensures launch.Returned? ==>
              puts[|events|] == Some(Object([Entry("type", Text("packet")), Entry("result", launch.packet)]))
    ensures launch.NoEvidence? ==>
              puts[|events|] == Some(Object([Entry("type", Text("error")), Entry("error", noEvidence)]))
    ensures launch.Raised? ==>
              puts[|events|] == Some(Object([Entry("type", Text("error")), Entry("error", internal)]))
  {
    puts := [];
    for i := 0 to |events|
      invariant |puts| == i && forall j :: 0 <= j < i ==> puts[j] == Some(ProgressRecord(events[j]))
    {
      puts := puts + [Some(ProgressRecord(events[i]))];
    }
    match launch {
      case Returned(packet) =>
        puts := puts + [Some(Object([Entry("type", Text("packet")), Entry("result", packet)]))];
      case NoEvidence =>
        puts := puts + [Some(Object([Entry("type", Text("error")), Entry("error", noEvidence)]))];
      case Raised =>
        puts := puts + [Some(Object([Entry("type", Text("error")), Entry("error", internal)]))];
      case Cancelled =>
    }
    puts := puts + [None];
  }

  /** How many of `total` entries have been put and taken after these turns. */
  function Turns(schedule: seq<bool>, total: nat): (r: (nat, nat))
    ensures r.1 <= r.0 <= total
  {
    if schedule == [] then (0, 0)
    else
      var (put, taken) := Turns(schedule[..|schedule| - 1], total);
      if schedule[|schedule| - 1] then (if put < total then put + 1 else put, taken)
      else (put, if taken < put then taken + 1 else taken)
  }

  lemma {:induction false} TakenOnlyGrows(schedule: seq<bool>, n: nat, total: nat)
    requires n <= |schedule|
    ensures Turns(schedule[..n], total).0 <= Turns(schedule, total).0
    ensures Turns(schedule[..n], total).1 <= Turns(schedule, total).1
    decreases |schedule|
  {
    if n == |schedule| {
      assert schedule[..n] == schedule;
    } else {
      assert schedule[..|schedule| - 1][..n] == schedule[..n];
      TakenOnlyGrows(schedule[..|schedule| - 1], n, total);
    }
  }

  lemma OneMoreTurn(schedule: seq<bool>, n: nat, total: nat)
    requires n < |schedule|
    ensures var (put, taken) := Turns(schedule[..n], total);
            Turns(schedule[..n + 1], total)
            == if schedule[n] then (if put < total then put + 1 else put, taken)
               else (put, if taken < put then taken + 1 else taken)
  {
    assert schedule[..n + 1][..n] == schedule[..n];
  }

  /** Once the swarm has put everything, the body ends if it gets enough turns. */
  lemma {:induction false} StreamFinishes(schedule: seq<bool>, total: nat, n: nat)
    requires Turns(schedule, total).0 == total
    ensures var r := Turns(schedule + seq(n, i => false), total);
            r.0 == total && (r.1 == total || r.1 >= n)
  {
    if n == 0 {
      assert schedule + seq(0, i => false) == schedule;
    } else {
      StreamFinishes(schedule, total, n - 1);
      var longer := schedule + seq(n, i => false);
      assert longer[..|longer| - 1] == schedule + seq(n - 1, i => false);
    }
  }

  /**
   * The queue between the swarm and the response body, for what `RunSwarm` puts. `schedule` says, turn
   * by turn, whether the swarm puts its next entry or the body takes one; `None` ends the body.
   */
  method StreamSwarm(records: seq<Json>, schedule: seq<bool>) returns (text: string, finished: bool)
    ensures var taken := Turns(schedule, |records| + 1).1;
            && (finished <==> taken == |records| + 1)
            && text == TextOf(if finished then records else records[..taken])
  {
    var puts := AsPuts(records);
    var queue: seq<Option<Json>> := [];
    var next := 0;
    ghost var emitted := 0;
    text, finished := "", false;
    assert records[..0] == [] && schedule[..0] == [];
    PutsInOrder(records);
    hide Turns, TextOf, Dumps, AsPuts;
    for turn := 0 to |schedule|
      invariant 0 <= emitted <= next <= |puts| && emitted <= |records| && queue == puts[emitted..next]
      invariant text == TextOf(records[..emitted]) && !finished
      invariant Turns(schedule[..turn], |puts|) == (next, emitted)
    {
      OneMoreTurn(schedule, turn, |puts|);
      if schedule[turn] {
        if next < |puts| {
          QueuePut(puts, emitted, next);
          queue := queue + [puts[next]];
          next := next + 1;
        }
      } else if queue != [] {
        var record := queue[0];
        QueueTake(puts, emitted, next);
        queue := queue[1..];
        if record.None? {
          assert emitted == |records| && records[..emitted] == records;
          finished := true;
          TakenOnlyGrows(schedule, turn + 1, |puts|);
          return;
        }
        EmitOne(records, emitted);
        text := text + Dumps(record.value) + "\n";
        emitted := emitted + 1;
      }
    }
    assert schedule[..|schedule|] == schedule;
  }

  lemma QueuePut(puts: seq<Option<Json>>, taken: nat, put: nat)
    requires taken <= put < |puts|
    ensures puts[taken..put] + [puts[put]] == puts[taken..put + 1]
  {
  }

  lemma QueueTake(puts: seq<Option<Json>>, taken: nat, put: nat)
    requires taken < put <= |puts|
    ensures puts[taken..put][0] == puts[taken] && puts[taken..put][1..] == puts[taken + 1..put]
  {
  }

  lemma EmitOne(records: seq<Json>, n: nat)
    requires n < |records|
    ensures TextOf(records[..n + 1]) == TextOf(records[..n]) + Dumps(records[n]) + "\n"
  {
    TextAppend(records[..n], records[n]);
    assert records[..n + 1] == records[..n] + [records[n]];
  }

  lemma PutsInOrder(records: seq<Json>)
    ensures |AsPuts(records)| == |records| + 1 && AsPuts(records)[|records|] == None
    ensures forall i :: 0 <= i < |records| ==> AsPuts(records)[i] == Some(records[i])
  {
  }

  lemma {:induction false} TextAppend(records: seq<Json>, r: Json)
    ensures TextOf(records + [r]) == TextOf(records) + Dumps(r) + "\n"
  {
    if records == [] {
      assert TextOf([r]) == Dumps(r) + "\n" + TextOf([r][1..]);
    } else {
      assert (records + [r])[1..] == records[1..] + [r];
      TextAppend(records[1..], r);
    }
  }

  // ---- The reader ----

  type Parser = string -> Option<Json>

  datatype ClientError =
    | SyntaxFailure
    | NullRecord
    | DuplicatePacket
    | ServerFailed(message: Option<Json>)
    | InvalidRecord
    | ContractViolated

  datatype Reading =
    | Running(progress: seq<Json>, packet: Option<Json>)
    | Threw(error: ClientError, progress: seq<Json>)

  datatype Outcome =
    | Completed(packet: Json, progress: seq<Json>)
    | Rejected(error: ClientError, progress: seq<Json>)

  predicate IsBlankChar(c: char) {
    '\U{9}' <= c <= '\U{D}' || c == ' ' || c == '\U{A0}' || c == '\U{1680}' || '\U{2000}' <= c <= '\U{200A}'
    || c == '\U{2028}' || c == '\U{2029}' || c == '\U{202F}' || c == '\U{205F}' || c == '\U{3000}' || c == '\U{FEFF}'
  }

  predicate IsBlankLine(line: string) {
    forall i :: 0 <= i < |line| ==> IsBlankChar(line[i])
  }

  /** No digit of the number but zeros, up to its exponent. */
  predicate IsZero(text: string) {
    forall i :: 0 <= i < |text| && '1' <= text[i] <= '9' ==>
      exists j :: 0 <= j < i && (text[j] == 'e' || text[j] == 'E')
  }

  predicate Truthy(v: Option<Json>) {
    match v
    case None => false
    case Some(Null) => false
    case Some(Bool(b)) => b
    case Some(Number(text)) => !IsZero(text)
    case Some(Text(s)) => s != ""
    case Some(_) => true
  }

  function Field(v: Json, key: string): Option<Json> {
    if v.Object? then Get(v.entries, key) else None
  }

  function ErrorMessage(v: Json): Option<Json> {
    match Field(v, "error")
    case Some(e) => if Field(e, "message") == Some(Null) then None else Field(e, "message")
    case None => None
  }

  datatype LineKind =
    | BlankLine
    | ProgressLine(event: Json)
    | PacketLine(result: Json)
    | BadLine(error: ClientError)

  function KindOf(parse: Parser, line: string): LineKind {
    if IsBlankLine(line) then BlankLine
    else match parse(line)
      case None => BadLine(SyntaxFailure)
      case Some(record) =>
        var kind := Field(record, "type");
        if record.Null? then BadLine(NullRecord)
        else if kind == Some(Text("progress")) && Truthy(Field(record, "event")) then
          ProgressLine(Field(record, "event").value)
        else if kind == Some(Text("packet")) && Truthy(Field(record, "result")) then
          PacketLine(Field(record, "result").value)
        else if kind == Some(Text("error")) then BadLine(ServerFailed(ErrorMessage(record)))
        else BadLine(InvalidRecord)
  }

  function Consume(parse: Parser, r: Reading, line: string): Reading {
    match r
    case Threw(_, _) => r
    case Running(progress, packet) =>
      match KindOf(parse, line)
      case BlankLine => r
      case ProgressLine(event) => Running(progress + [event], packet)
      case PacketLine(result) =>
        if packet.Some? then Threw(DuplicatePacket, progress) else Running(progress, Some(result))
      case BadLine(error) => Threw(error, progress)
  }

  function ConsumeAll(parse: Parser, r: Reading, lines: seq<string>): Reading
    decreases |lines|
  {
    if lines == [] then r else ConsumeAll(parse, Consume(parse, r, lines[0]), lines[1..])
  }

  /** `text.split("\n")`: never empty, and its last part is what has no newline yet. */
  function Split(text: string): (parts: seq<string>)
    ensures parts != []
  {
    if text == "" then [""]
    else
      var rest := Split(text[1..]);
      if text[0] == '\n' then [""] + rest else [[text[0]] + rest[0]] + rest[1..]
  }

  function Last(parts: seq<string>): string
    requires parts != []
  {
    parts[|parts| - 1]
  }

  predicate IsProposal(packet: Json) {
    Field(packet, "proposal_only") == Some(Bool(true))
  }

  function Conclude(r: Reading): Outcome {
    match r
    case Threw(error, progress) => Rejected(error, progress)
    case Running(progress, packet) =>
      if packet.Some? && IsProposal(packet.value) then Completed(packet.value, progress)
      else Rejected(ContractViolated, progress)
  }

  /** What the whole text means, read line by line. */
  function Interpret(parse: Parser, text: string): Outcome {
    Conclude(ConsumeAll(parse, Running([], None), Split(text)))
  }

  function Concat(chunks: seq<string>): string {
    if chunks == [] then "" else chunks[0] + Concat(chunks[1..])
  }

  lemma SplitCons(c: char, s: string)
    ensures Split([c] + s) == if c == '\n' then [""] + Split(s) else [[c] + Split(s)[0]] + Split(s)[1..]
  {
    assert ([c] + s)[1..] == s;
  }

  lemma {:induction false} SplitConcat(a: string, b: string)
    ensures var parts := Split(a); Split(a + b) == parts[..|parts| - 1] + Split(Last(parts) + b)
  {
    if a == "" {
      assert a + b == b && Last(Split(a)) + b == b;
    } else {
      var c, rest := a[0], Split(a[1..]);
      SplitConcat(a[1..], b);
      assert a == [c] + a[1..] && a + b == [c] + (a[1..] + b);
      SplitCons(c, a[1..]);
      SplitCons(c, a[1..] + b);
      SplitFirst(c, rest, b);
    }
  }

  /** Prefixing one character commutes with splitting off what `b` adds to the last part. */
  lemma SplitFirst(c: char, rest: seq<string>, b: string)
    requires rest != []
    ensures var whole := rest[..|rest| - 1] + Split(Last(rest) + b);
            var parts := if c == '\n' then [""] + rest else [[c] + rest[0]] + rest[1..];
            (if c == '\n' then [""] + whole else [[c] + whole[0]] + whole[1..])
            == parts[..|parts| - 1] + Split(Last(parts) + b)
  {
    if c != '\n' && |rest| == 1 {
      assert [c] + rest[0] + b == [c] + (rest[0] + b);
      SplitCons(c, rest[0] + b);
    }
  }

  lemma {:induction false} ConsumeInTurn(parse: Parser, r: Reading, xs: seq<string>, ys: seq<string>)
    ensures ConsumeAll(parse, r, xs + ys) == ConsumeAll(parse, ConsumeAll(parse, r, xs), ys)
    decreases |xs|
  {
    if xs == [] {
      assert xs + ys == ys;
    } else {
      assert (xs + ys)[1..] == xs[1..] + ys;
      ConsumeInTurn(parse, Consume(parse, r, xs[0]), xs[1..], ys);
    }
  }

  lemma {:induction false} ThrownStaysThrown(parse: Parser, r: Reading, lines: seq<string>)
    requires r.Threw?
    ensures ConsumeAll(parse, r, lines) == r
    decreases |lines|
  {
    if lines != [] {
      ThrownStaysThrown(parse, r, lines[1..]);
    }
  }

  lemma {:induction false} ConcatPrefix(chunks: seq<string>, n: nat)
    requires n < |chunks|
    ensures Concat(chunks[..n + 1]) == Concat(chunks[..n]) + chunks[n]
  {
    if n == 0 {
      assert chunks[..1] == [chunks[0]] && chunks[..0] == [];
      assert Concat([chunks[0]]) == chunks[0] + Concat([chunks[0]][1..]);
    } else {
      assert chunks[..n + 1][1..] == chunks[1..][..n] && chunks[..n][1..] == chunks[1..][..n - 1];
      ConcatPrefix(chunks[1..], n - 1);
    }
  }

  /** `lines.forEach(consume)`: an exception leaves the rest unread. */
  method ConsumeLines(parse: Parser, before: Reading, lines: seq<string>) returns (after: Reading)
    ensures after == ConsumeAll(parse, before, lines)
  {
    after := before;
    var k := 0;
    while k < |lines| && after.Running?
      invariant 0 <= k <= |lines| && ConsumeAll(parse, after, lines[k..]) == ConsumeAll(parse, before, lines)
    {
      assert lines[k..][1..] == lines[k + 1..];
      after := Consume(parse, after, lines[k]);
      k := k + 1;
    }
    if after.Threw? {
      ThrownStaysThrown(parse, after, lines[k..]);
    }
  }

  /** Everything but the last part of a split: the lines already complete. */
  ghost function Complete(text: string): seq<string> {
    Split(text)[..|Split(text)| - 1]
  }

  /** Reading one more chunk completes the lines that its split completes. */
  lemma OneMoreChunk(text: string, chunk: string)
    ensures var lines := Split(Last(Split(text)) + chunk);
            Complete(text + chunk) == Complete(text) + lines[..|lines| - 1] && Last(Split(text + chunk)) == Last(lines)
  {
    SplitConcat(text, chunk);
  }

  /** Lines once complete stay at the front of every longer text. */
  lemma CompleteLinesStay(parse: Parser, start: Reading, text: string, more: string)
    requires ConsumeAll(parse, start, Complete(text)).Threw?
    ensures ConsumeAll(parse, start, Split(text + more)) == ConsumeAll(parse, start, Complete(text))
  {
    SplitConcat(text, more);
    var rest := Split(Last(Split(text)) + more);
    ConsumeInTurn(parse, start, Complete(text), rest);
    ThrownStaysThrown(parse, ConsumeAll(parse, start, Complete(text)), rest);
  }

  /**
   * The reading loop. Each chunk is what the streaming decoder yields for one read; the last read
   * of a body is empty. Any chunking gives the outcome of reading the whole text at once.
   */
  method LaunchSwarm(parse: Parser, chunks: seq<string>) returns (outcome: Outcome)
    ensures outcome == Interpret(parse, Concat(chunks))
  {
    var reading := Running([], None);
    var buffered := "";
    ghost var start := reading;
    assert chunks[..0] == [] && Split("") == [""];
    var i := 0;
    while i < |chunks|
      invariant 0 <= i <= |chunks| && reading.Running?
      invariant buffered == Last(Split(Concat(chunks[..i])))
      invariant reading == ConsumeAll(parse, start, Complete(Concat(chunks[..i])))
    {
      ghost var text := Concat(chunks[..i]);
      ConcatPrefix(chunks, i);
      OneMoreChunk(text, chunks[i]);
      var lines := Split(buffered + chunks[i]);
      buffered := Last(lines);
      lines := lines[..|lines| - 1];
      ConsumeInTurn(parse, start, Complete(text), lines);
      reading := ConsumeLines(parse, reading, lines);
      i := i + 1;
      if reading.Threw? {
        ConcatSplit(chunks, i);
        CompleteLinesStay(parse, start, Concat(chunks[..i]), Concat(chunks[i..]));
        return Conclude(reading);
      }
    }
    assert chunks[..|chunks|] == chunks;
    ghost var parts := Split(Concat(chunks));
    assert parts == Complete(Concat(chunks)) + [buffered];
    ConsumeInTurn(parse, start, Complete(Concat(chunks)), [buffered]);
    reading := Consume(parse, reading, buffered);
    return Conclude(reading);
  }

  lemma {:induction false} ConcatSplit(chunks: seq<string>, n: nat)
    requires n <= |chunks|
    ensures Concat(chunks) == Concat(chunks[..n]) + Concat(chunks[n..])
  {
    if n == 0 {
      assert chunks[..0] == [] && chunks[0..] == chunks;
    } else {
      ConcatSplit(chunks[1..], n - 1);
      assert chunks[..n][1..] == chunks[1..][..n - 1] && chunks[n..] == chunks[1..][n - 1..];
    }
  }
}
