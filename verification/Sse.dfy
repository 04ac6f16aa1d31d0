/**
 The event-stream reader of the upstream transport: a loop over lines with an event type and the
 data lines collected so far, against a specification that cuts the stream into blocks.
 */
module Sse {
  import opened Text
  import opened Trim
  import opened JsonText
  import J = JsonValue

  // ---------- lines ----------

  /** Without one carriage return at the end. */
  function DropCR(line: string): string {
    if line != "" && line[|line| - 1] == '\r' then line[..|line| - 1] else line
  }

  function DropCRs(lines: seq<string>): seq<string> {
    if lines == [] then [] else [DropCR(lines[0])] + DropCRs(lines[1..])
  }

  /** bufio.ScanLines over the whole body: no line after the last line break unless it has text. */
  function ScanLines(body: string): seq<string> {
    var parts := Split(body, '\n');
    var last := |parts| - 1;
    DropCRs(if parts[last] == "" then parts[..last] else parts)
  }

  function Unlines(lines: seq<string>): string {
    if lines == [] then "" else lines[0] + ['\n'] + Unlines(lines[1..])
  }

  predicate SingleLine(s: string) {
    '\n' !in s && (s != "" ==> s[|s| - 1] != '\r')
  }

  lemma {:induction false} SplitOfUnlines(lines: seq<string>, tail: string)
    requires forall i | 0 <= i < |lines| :: '\n' !in lines[i]
    requires '\n' !in tail
    ensures Split(Unlines(lines) + tail, '\n') == lines + [tail]
  {
    if lines == [] {
      assert "" + tail == tail;
      SplitWithoutSeparator(tail, '\n');
    } else {
      SplitOfUnlines(lines[1..], tail);
      SplitWithoutSeparator(lines[0], '\n');
      SplitAppend(lines[0], Unlines(lines[1..]) + tail, '\n');
      assert Unlines(lines) + tail == lines[0] + ['\n'] + (Unlines(lines[1..]) + tail);
      assert lines == [lines[0]] + lines[1..];
    }
  }

  lemma ScanLinesOfUnlines(lines: seq<string>)
    requires forall i | 0 <= i < |lines| :: '\n' !in lines[i]
    ensures ScanLines(Unlines(lines)) == DropCRs(lines)
  {
    SplitOfUnlines(lines, "");
    assert Unlines(lines) + "" == Unlines(lines);
    var parts := Split(Unlines(lines), '\n');
    assert parts == lines + [""];
    assert parts[..|lines|] == lines;
  }

  /** A last line without a line break is a line like any other, if there is anything in it. */
  lemma ScanLinesOfOpenEnd(lines: seq<string>, tail: string)
    requires forall i | 0 <= i < |lines| :: '\n' !in lines[i]
    requires '\n' !in tail && tail != ""
    ensures ScanLines(Unlines(lines) + tail) == DropCRs(lines + [tail])
  {
    SplitOfUnlines(lines, tail);
  }

  lemma {:induction false} DropCRsOfSingleLines(lines: seq<string>)
    requires forall i | 0 <= i < |lines| :: SingleLine(lines[i])
    ensures DropCRs(lines) == lines
  {
    if lines == [] {
    } else {
      DropCRsOfSingleLines(lines[1..]);
    }
  }

  lemma {:induction false} DropCRsAppend(a: seq<string>, b: seq<string>)
    ensures DropCRs(a + b) == DropCRs(a) + DropCRs(b)
  {
    if a == [] {
      assert a + b == b;
    } else {
      assert (a + b)[1..] == a[1..] + b;
      DropCRsAppend(a[1..], b);
    }
  }

  // ---------- the specification ----------

  predicate IsEvent(line: string) {
    HasPrefix(line, "event:")
  }

  predicate IsData(line: string) {
    HasPrefix(line, "data:")
  }

  function EventValue(line: string): string
    requires IsEvent(line)
  {
    TrimSpace(line[|"event:"|..])
  }

  function DataValue(line: string): string
    requires IsData(line)
  {
    TrimSpace(line[|"data:"|..])
  }

  /** The stretches between blank lines. */
  function Blocks(lines: seq<string>): (blocks: seq<seq<string>>)
    ensures |blocks| >= 1
  {
    if lines == [] then [[]]
    else
      var rest := Blocks(lines[1..]);
      if lines[0] == "" then [[]] + rest else [[lines[0]] + rest[0]] + rest[1..]
  }

  /** The value of the block's last event line, "" if it has none. */
  function EventType(block: seq<string>): string {
    if block == [] then ""
    else
      var last := block[|block| - 1];
      if IsEvent(last) then EventValue(last) else EventType(block[..|block| - 1])
  }

  function DataOf(line: string): seq<string> {
    if IsData(line) then [DataValue(line)] else []
  }

  function DataLines(block: seq<string>): seq<string> {
    if block == [] then [] else DataOf(block[0]) + DataLines(block[1..])
  }

  /**
   The messages one event's data stands for: the elements of a batch array, or the data itself.
   `valid` is JSON validity, which decides whether a text in brackets is decoded as a batch.
   */
  function Dispatch(valid: string -> bool, data: string): seq<string> {
    var trimmed := TrimSpace(data);
    if trimmed == "" then []
    else if trimmed[0] == '[' && valid(trimmed) then Elements(trimmed)
    else [trimmed]
  }

  function Dispatcher(valid: string -> bool): string -> seq<string> {
    data => Dispatch(valid, data)
  }

  function Emit(dispatch: string -> seq<string>, eventType: string, data: seq<string>): seq<string> {
    if data != [] && (eventType == "" || eventType == "message") then dispatch(Join(data, '\n')) else []
  }

  function BlockMessages(dispatch: string -> seq<string>, block: seq<string>): seq<string> {
    Emit(dispatch, EventType(block), DataLines(block))
  }

  function Messages(dispatch: string -> seq<string>, blocks: seq<seq<string>>): seq<string> {
    if blocks == [] then [] else BlockMessages(dispatch, blocks[0]) + Messages(dispatch, blocks[1..])
  }

  /** What a stream enqueues. */
  function StreamMessages(dispatch: string -> seq<string>, body: string): seq<string> {
    Messages(dispatch, Blocks(ScanLines(body)))
  }

  // ---------- the loop ----------

  lemma {:induction false} EventTypeAppend(block: seq<string>, line: string)
    ensures EventType(block + [line]) == if IsEvent(line) then EventValue(line) else EventType(block)
  {
    assert (block + [line])[..|block|] == block;
  }

  lemma {:induction false} DataLinesAppend(block: seq<string>, line: string)
    ensures DataLines(block + [line]) == DataLines(block) + DataOf(line)
  {
    if block == [] {
      assert [] + [line] == [line] && [line][1..] == [];
      assert DataOf(line) + [] == [] + DataOf(line);
    } else {
      assert (block + [line])[1..] == block[1..] + [line];
      DataLinesAppend(block[1..], line);
    }
  }

  /** Lines without a blank one stay in front of the first block of what follows them. */
  lemma {:induction false} BlocksAppend(block: seq<string>, rest: seq<string>)
    requires "" !in block
    ensures Blocks(block + rest) == [block + Blocks(rest)[0]] + Blocks(rest)[1..]
  {
    if block == [] {
      assert block + rest == rest;
      assert block + Blocks(rest)[0] == Blocks(rest)[0];
    } else {
      assert (block + rest)[1..] == block[1..] + rest;
      BlocksAppend(block[1..], rest);
      assert [block[0]] + (block[1..] + Blocks(rest)[0]) == block + Blocks(rest)[0];
    }
  }

  lemma BlockEnds(block: seq<string>, rest: seq<string>)
    requires "" !in block
    ensures Blocks(block + ([""] + rest)) == [block] + Blocks(rest)
  {
    BlocksAppend(block, [""] + rest);
    assert ([""] + rest)[1..] == rest;
    assert block + [] == block;
  }

  lemma MessagesCons(dispatch: string -> seq<string>, block: seq<string>, blocks: seq<seq<string>>)
    ensures Messages(dispatch, [block] + blocks) == BlockMessages(dispatch, block) + Messages(dispatch, blocks)
  {
    assert ([block] + blocks)[1..] == blocks;
  }

  /** The loop's variables are those of the block read so far. */
  ghost predicate Tracks(block: seq<string>, eventType: string, dataLines: seq<string>) {
    "" !in block && eventType == EventType(block) && dataLines == DataLines(block)
  }

  /** What is queued, with what the block so far and the lines to come stand for, is everything. */
  ghost predicate Accounts(
    dispatch: string -> seq<string>, all: seq<string>, queue: seq<string>, block: seq<string>, rest: seq<string>)
  {
    all == queue + Messages(dispatch, Blocks(block + rest))
  }

  /** One turn of the loop at a blank line: the block so far is emitted and a new one begins. */
  lemma BlankLineStep(
    dispatch: string -> seq<string>, all: seq<string>, queue: seq<string>,
    block: seq<string>, eventType: string, dataLines: seq<string>, rest: seq<string>)
    requires Tracks(block, eventType, dataLines)
    requires rest != [] && rest[0] == "" && Accounts(dispatch, all, queue, block, rest)
    ensures Accounts(dispatch, all, queue + Emit(dispatch, eventType, dataLines), [], rest[1..])
  {
    assert rest == [""] + rest[1..];
    BlockEnds(block, rest[1..]);
    assert [] + rest[1..] == rest[1..];
    MessagesCons(dispatch, block, Blocks(rest[1..]));
  }

  lemma LineMovesOver(block: seq<string>, rest: seq<string>)
    requires rest != []
    ensures block + rest == (block + [rest[0]]) + rest[1..]
  {
  }

  lemma TracksAppend(block: seq<string>, eventType: string, dataLines: seq<string>, line: string)
    requires Tracks(block, eventType, dataLines) && line != ""
    ensures IsEvent(line) ==> Tracks(block + [line], EventValue(line), dataLines)
    ensures IsData(line) ==> Tracks(block + [line], eventType, dataLines + [DataValue(line)])
    ensures !IsEvent(line) && !IsData(line) ==> Tracks(block + [line], eventType, dataLines)
  {
    EventTypeAppend(block, line);
    DataLinesAppend(block, line);
    assert IsEvent(line) ==> line[0] == 'e';
    assert IsData(line) ==> line[0] == 'd';
    assert DataLines(block) + [] == DataLines(block);
  }

  /** One turn at any other line: it joins the block so far. */
  lemma FieldLineStep(
    dispatch: string -> seq<string>, all: seq<string>, queue: seq<string>,
    block: seq<string>, eventType: string, dataLines: seq<string>, rest: seq<string>)
    requires Tracks(block, eventType, dataLines)
    requires rest != [] && rest[0] != "" && Accounts(dispatch, all, queue, block, rest)
    ensures Accounts(dispatch, all, queue, block + [rest[0]], rest[1..])
    ensures IsEvent(rest[0]) ==> Tracks(block + [rest[0]], EventValue(rest[0]), dataLines)
    ensures IsData(rest[0]) ==> Tracks(block + [rest[0]], eventType, dataLines + [DataValue(rest[0])])
    ensures !IsEvent(rest[0]) && !IsData(rest[0]) ==> Tracks(block + [rest[0]], eventType, dataLines)
  {
    LineMovesOver(block, rest);
    TracksAppend(block, eventType, dataLines, rest[0]);
  }

  lemma StreamEnds(
    dispatch: string -> seq<string>, all: seq<string>, queue: seq<string>,
    block: seq<string>, eventType: string, dataLines: seq<string>)
    requires Tracks(block, eventType, dataLines) && Accounts(dispatch, all, queue, block, [])
    ensures all == queue + Emit(dispatch, eventType, dataLines)
  {
    BlocksAppend(block, []);
    assert block + [] == block;
    assert [block] + [] == [block];
    MessagesCons(dispatch, block, []);
  }

  /** consumeSSEStream: what it hands to dispatchSSEData enqueues, for a transport that stays open. */
  method ConsumeSSEStream(dispatch: string -> seq<string>, body: string) returns (queue: seq<string>)
    ensures queue == StreamMessages(dispatch, body)
  {
    var lines := ScanLines(body);
    var eventType := "";
    var dataLines: seq<string> := [];
    queue := [];
    ghost var block: seq<string> := [];
    ghost var all := StreamMessages(dispatch, body);
    assert [] + lines[0..] == lines;
    for i := 0 to |lines|
      invariant Tracks(block, eventType, dataLines)
      invariant Accounts(dispatch, all, queue, block, lines[i..])
    {
      var line := lines[i];
      assert lines[i..][0] == line && lines[i..][1..] == lines[i + 1..];
      if line == "" {
        BlankLineStep(dispatch, all, queue, block, eventType, dataLines, lines[i..]);
        queue := queue + Emit(dispatch, eventType, dataLines);
        eventType, dataLines := "", [];
        block := [];
      } else {
        FieldLineStep(dispatch, all, queue, block, eventType, dataLines, lines[i..]);
        if IsEvent(line) {
          eventType := EventValue(line);
        } else if IsData(line) {
          dataLines := dataLines + [DataValue(line)];
        }
        block := block + [line];
      }
    }
    assert lines[|lines|..] == [];
    StreamEnds(dispatch, all, queue, block, eventType, dataLines);
    queue := queue + Emit(dispatch, eventType, dataLines);
  }

  // ---------- printing, and reading back ----------

  /** A comment, an id, a retry: any line that carries neither an event type nor data. */
  predicate IsNoise(line: string) {
    line != "" && SingleLine(line) && !IsEvent(line) && !IsData(line)
  }

  predicate AllNoise(lines: seq<string>) {
    forall i | 0 <= i < |lines| :: IsNoise(lines[i])
  }

  /** One event as a server may print it, with noise anywhere around its fields. */
  datatype Event = Event(
    before: seq<string>, named: bool, between: seq<string>, payload: string, after: seq<string>)
  {
    predicate Printable() {
      && AllNoise(before) && AllNoise(between) && AllNoise(after)
      && payload != "" && Trimmed(payload) && '\n' !in payload
    }

    function Lines(): seq<string> {
      before + (if named then ["event: message"] else []) + between + ["data: " + payload] + after
    }
  }

  function PrintLines(events: seq<Event>): seq<string> {
    if events == [] then [] else events[0].Lines() + ([""] + PrintLines(events[1..]))
  }

  function Print(events: seq<Event>): string {
    Unlines(PrintLines(events))
  }

  function DispatchAll(valid: string -> bool, events: seq<Event>): seq<string> {
    if events == [] then [] else Dispatch(valid, events[0].payload) + DispatchAll(valid, events[1..])
  }

  lemma {:induction false} NoiseIsSilent(block: seq<string>, noise: seq<string>)
    requires AllNoise(noise)
    ensures EventType(block + noise) == EventType(block)
    ensures DataLines(block + noise) == DataLines(block)
    decreases |noise|
  {
    if noise == [] {
      assert block + noise == block;
    } else {
      var last := |noise| - 1;
      assert block + noise == (block + noise[..last]) + [noise[last]];
      EventTypeAppend(block + noise[..last], noise[last]);
      DataLinesAppend(block + noise[..last], noise[last]);
      NoiseIsSilent(block, noise[..last]);
    }
  }

  lemma NamedLine(block: seq<string>)
    ensures EventType(block + ["event: message"]) == "message"
    ensures DataLines(block + ["event: message"]) == DataLines(block)
  {
    var line := "event: message";
    assert line[|"event:"|..] == " " + "message";
    TrimAfterSpace("message");
    EventTypeAppend(block, line);
    DataLinesAppend(block, line);
    assert !IsData(line) by { assert line[0] == 'e'; }
  }

  lemma PayloadLine(block: seq<string>, payload: string)
    requires Trimmed(payload)
    ensures EventType(block + ["data: " + payload]) == EventType(block)
    ensures DataLines(block + ["data: " + payload]) == DataLines(block) + [payload]
  {
    var line := "data: " + payload;
    assert line[|"data:"|..] == " " + payload;
    TrimAfterSpace(payload);
    EventTypeAppend(block, line);
    DataLinesAppend(block, line);
    assert !IsEvent(line) by { assert line[0] == 'd'; }
  }

  lemma EventFields(e: Event)
    requires e.Printable()
    ensures EventType(e.Lines()) == if e.named then "message" else ""
    ensures DataLines(e.Lines()) == [e.payload]
  {
    NoiseIsSilent([], e.before);
    assert [] + e.before == e.before;
    var named := e.before + if e.named then ["event: message"] else [];
    if e.named {
      NamedLine(e.before);
    } else {
      assert named == e.before;
    }
    NoiseIsSilent(named, e.between);
    PayloadLine(named + e.between, e.payload);
    NoiseIsSilent(named + e.between + ["data: " + e.payload], e.after);
  }

  lemma EventLinesAreSingle(e: Event)
    requires e.Printable()
    ensures forall i | 0 <= i < |e.Lines()| :: e.Lines()[i] != "" && SingleLine(e.Lines()[i])
  {
    var line := "data: " + e.payload;
    assert line[|line| - 1] == e.payload[|e.payload| - 1];
    assert '\n' !in line;
    assert SingleLine("event: message");
  }

  lemma EventIsRead(valid: string -> bool, e: Event)
    requires e.Printable()
    ensures BlockMessages(Dispatcher(valid), e.Lines()) == Dispatch(valid, e.payload)
  {
    EventFields(e);
    TrimOfTrimmed(e.payload);
  }

  lemma {:induction false} PrintedLinesAreRead(valid: string -> bool, events: seq<Event>)
    requires forall i | 0 <= i < |events| :: events[i].Printable()
    ensures Messages(Dispatcher(valid), Blocks(PrintLines(events))) == DispatchAll(valid, events)
  {
    if events == [] {
      assert Blocks(PrintLines(events)) == [[]];
    } else {
      var block, rest := events[0].Lines(), PrintLines(events[1..]);
      EventIsRead(valid, events[0]);
      EventLinesAreSingle(events[0]);
      PrintedLinesAreRead(valid, events[1..]);
      BlockEnds(block, rest);
      MessagesCons(Dispatcher(valid), block, Blocks(rest));
    }
  }

  lemma {:induction false} PrintedLinesAreSingle(events: seq<Event>)
    requires forall i | 0 <= i < |events| :: events[i].Printable()
    ensures forall i | 0 <= i < |PrintLines(events)| :: SingleLine(PrintLines(events)[i])
  {
    if events == [] {
    } else {
      EventLinesAreSingle(events[0]);
      PrintedLinesAreSingle(events[1..]);
    }
  }

  /** Whatever a server prints is read back event by event, in order, whatever noise lies between. */
  lemma PrintedStreamIsRead(valid: string -> bool, events: seq<Event>)
    requires forall i | 0 <= i < |events| :: events[i].Printable()
    ensures StreamMessages(Dispatcher(valid), Print(events)) == DispatchAll(valid, events)
  {
    PrintedLinesAreRead(valid, events);
    PrintedLinesAreSingle(events);
    ScanLinesOfUnlines(PrintLines(events));
    DropCRsOfSingleLines(PrintLines(events));
  }

  /** The text of a JSON object on one line. */
  predicate IsObjectText(m: string) {
    m != "" && m[0] == '{' && Trimmed(m) && '\n' !in m && Closed(m, TOP)
  }

  /** The text of every JSON object is one. */
  lemma RecordsAreObjectTexts(v: J.Value)
    requires v.Record? && J.WellFormed(v)
    ensures IsObjectText(J.Print(v))
  {
    J.ValuesAreClosed(v);
    J.ValuesAreOneLine(v);
    assert J.Print(v)[|J.Print(v)| - 1] == '}';
  }

  function Payloads(events: seq<Event>): seq<string> {
    if events == [] then [] else [events[0].payload] + Payloads(events[1..])
  }

  /** One message per event: exactly the printed messages come out. */
  lemma {:induction false} MessagesRoundTrip(valid: string -> bool, events: seq<Event>)
    requires forall i | 0 <= i < |events| :: events[i].Printable() && IsObjectText(events[i].payload)
    ensures StreamMessages(Dispatcher(valid), Print(events)) == Payloads(events)
  {
    PrintedStreamIsRead(valid, events);
    if events != [] {
      TrimOfTrimmed(events[0].payload);
      PrintedStreamIsRead(valid, events[1..]);
      MessagesRoundTrip(valid, events[1..]);
    }
  }

  /** All messages in one batch array: exactly the printed messages come out. */
  lemma BatchRoundTrip(valid: string -> bool, messages: seq<string>, e: Event)
    requires forall i | 0 <= i < |messages| :: IsObjectText(messages[i])
    requires e.payload == ArrayText(messages) && e.Printable() && valid(e.payload)
    ensures StreamMessages(Dispatcher(valid), Print([e])) == messages
  {
    PrintedStreamIsRead(valid, [e]);
    assert [e][1..] == [];
    ElementsOfArrayText(messages);
    TrimOfTrimmed(e.payload);
  }

  // ---------- any stream of events ----------

  /** A line of an event: a type or data, with white space before the value, or noise. */
  datatype Field =
    | TypeField(pad: string, value: string)
    | DataField(pad: string, value: string)
    | NoiseField(line: string)
  {
    predicate Printable() {
      if NoiseField? then IsNoise(line)
      else AllSpace(pad) && '\n' !in pad && '\r' !in pad && Trimmed(value) && '\n' !in value
    }

    function Line(): string {
      match this
      case TypeField(pad, value) => "event:" + (pad + value)
      case DataField(pad, value) => "data:" + (pad + value)
      case NoiseField(line) => line
    }
  }

  predicate AllPrintable(fields: seq<Field>) {
    forall i | 0 <= i < |fields| :: fields[i].Printable()
  }

  ghost predicate AllEventsPrintable(events: seq<seq<Field>>) {
    forall i | 0 <= i < |events| :: AllPrintable(events[i])
  }

  function FieldLines(fields: seq<Field>): seq<string> {
    if fields == [] then []
    else
      var last := |fields| - 1;
      FieldLines(fields[..last]) + [fields[last].Line()]
  }

  /** The type an event ends up with: its last one, "" if it has none. */
  function LastType(fields: seq<Field>): string {
    if fields == [] then ""
    else
      var last := fields[|fields| - 1];
      if last.TypeField? then last.value else LastType(fields[..|fields| - 1])
  }

  function Datas(fields: seq<Field>): seq<string> {
    if fields == [] then []
    else
      var last := fields[|fields| - 1];
      Datas(fields[..|fields| - 1]) + if last.DataField? then [last.value] else []
  }

  /** An event that counts: it has data, and no type or the type "message". */
  predicate IsMessage(fields: seq<Field>) {
    Datas(fields) != [] && LastType(fields) in {"", "message"}
  }

  function Delivered(dispatch: string -> seq<string>, events: seq<seq<Field>>): seq<string> {
    if events == [] then []
    else
      (if IsMessage(events[0]) then dispatch(Join(Datas(events[0]), '\n')) else [])
      + Delivered(dispatch, events[1..])
  }

  /** Events, each with a blank line after it, and one that is open. */
  function StreamLines(events: seq<seq<Field>>, open: seq<Field>): seq<string> {
    if events == [] then FieldLines(open)
    else FieldLines(events[0]) + ([""] + StreamLines(events[1..], open))
  }

  function EndLine(crlf: bool, line: string): string {
    if crlf then line + "\r" else line
  }

  function EndLines(crlf: bool, lines: seq<string>): seq<string> {
    if lines == [] then [] else [EndLine(crlf, lines[0])] + EndLines(crlf, lines[1..])
  }

  /**
   A stream with either kind of line break, whose last event may be open: without a blank line after
   it, and even without the line break of its last line.
   */
  function Stream(crlf: bool, events: seq<seq<Field>>, open: seq<Field>, complete: bool): string {
    var lines := StreamLines(events, open);
    if complete || open == [] || lines == [] then Unlines(EndLines(crlf, lines))
    else
      var last := |lines| - 1;
      Unlines(EndLines(crlf, lines[..last])) + lines[last]
  }

  lemma TrimAfterSpaces(pad: string, s: string)
    requires AllSpace(pad) && Trimmed(s)
    ensures TrimSpace(pad + s) == s
  {
    TrimPadded(pad, s, "");
    assert s + "" == s;
  }

  lemma TypeFieldIsRead(pad: string, value: string)
    requires TypeField(pad, value).Printable()
    ensures var line := TypeField(pad, value).Line();
      line != "" && SingleLine(line) && IsEvent(line) && EventValue(line) == value && DataOf(line) == []
  {
    var line, rest := TypeField(pad, value).Line(), pad + value;
    TrimAfterSpaces(pad, value);
    assert line[0] == 'e' && line[|"event:"|..] == rest;
    assert rest != "" ==> line[|line| - 1] == rest[|rest| - 1];
  }

  lemma DataFieldIsRead(pad: string, value: string)
    requires DataField(pad, value).Printable()
    ensures var line := DataField(pad, value).Line();
      line != "" && SingleLine(line) && !IsEvent(line) && DataOf(line) == [value]
  {
    var line, rest := DataField(pad, value).Line(), pad + value;
    TrimAfterSpaces(pad, value);
    assert line[0] == 'd' && line[|"data:"|..] == rest;
    assert rest != "" ==> line[|line| - 1] == rest[|rest| - 1];
  }

  lemma FieldIsRead(f: Field)
    requires f.Printable()
    ensures f.Line() != "" && SingleLine(f.Line())
    ensures IsEvent(f.Line()) <==> f.TypeField?
    ensures f.TypeField? ==> EventValue(f.Line()) == f.value
    ensures DataOf(f.Line()) == if f.DataField? then [f.value] else []
  {
    match f
    case TypeField(pad, value) => TypeFieldIsRead(pad, value);
    case DataField(pad, value) => DataFieldIsRead(pad, value);
    case NoiseField(_) =>
  }

  lemma {:induction false} FieldsAreRead(fields: seq<Field>)
    requires AllPrintable(fields)
    ensures EventType(FieldLines(fields)) == LastType(fields)
    ensures DataLines(FieldLines(fields)) == Datas(fields)
    ensures |FieldLines(fields)| == |fields|
    ensures forall i | 0 <= i < |fields| :: FieldLines(fields)[i] != "" && SingleLine(FieldLines(fields)[i])
  {
    if fields == [] {
    } else {
      var last := |fields| - 1;
      FieldsAreRead(fields[..last]);
      FieldIsRead(fields[last]);
      EventTypeAppend(FieldLines(fields[..last]), fields[last].Line());
      DataLinesAppend(FieldLines(fields[..last]), fields[last].Line());
    }
  }

  lemma EventIsDelivered(dispatch: string -> seq<string>, fields: seq<Field>)
    requires AllPrintable(fields)
    ensures BlockMessages(dispatch, FieldLines(fields))
         == if IsMessage(fields) then dispatch(Join(Datas(fields), '\n')) else []
  {
    FieldsAreRead(fields);
  }

  lemma OpenEventIsDelivered(dispatch: string -> seq<string>, open: seq<Field>)
    requires AllPrintable(open)
    ensures Messages(dispatch, Blocks(FieldLines(open))) == Delivered(dispatch, [open])
  {
    var last := FieldLines(open);
    FieldsAreRead(open);
    EventIsDelivered(dispatch, open);
    BlocksAppend(last, []);
    assert last + [] == last;
    assert Blocks(last) == [last] + [];
    MessagesCons(dispatch, last, []);
    assert [open][1..] == [];
  }

  lemma ClosedEventIsDelivered(dispatch: string -> seq<string>, fields: seq<Field>, rest: seq<string>)
    requires AllPrintable(fields)
    ensures Messages(dispatch, Blocks(FieldLines(fields) + ([""] + rest)))
         == (if IsMessage(fields) then dispatch(Join(Datas(fields), '\n')) else []) + Messages(dispatch, Blocks(rest))
  {
    var block := FieldLines(fields);
    FieldsAreRead(fields);
    EventIsDelivered(dispatch, fields);
    BlockEnds(block, rest);
    MessagesCons(dispatch, block, Blocks(rest));
  }

  lemma {:induction false} EventsAreDelivered(
    dispatch: string -> seq<string>, events: seq<seq<Field>>, open: seq<Field>)
    requires AllEventsPrintable(events) && AllPrintable(open)
    ensures Messages(dispatch, Blocks(StreamLines(events, open))) == Delivered(dispatch, events + [open])
  {
    if events == [] {
      OpenEventIsDelivered(dispatch, open);
      assert events + [open] == [open];
    } else {
      ClosedEventIsDelivered(dispatch, events[0], StreamLines(events[1..], open));
      EventsAreDelivered(dispatch, events[1..], open);
      assert (events + [open])[1..] == events[1..] + [open];
    }
  }

  lemma EndLineIsDropped(crlf: bool, line: string)
    requires SingleLine(line)
    ensures DropCR(EndLine(crlf, line)) == line && '\n' !in EndLine(crlf, line)
  {
    assert (line + "\r")[..|line|] == line;
  }

  lemma {:induction false} EndLinesAreDropped(crlf: bool, lines: seq<string>)
    requires forall line | line in lines :: SingleLine(line)
    ensures DropCRs(EndLines(crlf, lines)) == lines
    ensures forall line | line in EndLines(crlf, lines) :: '\n' !in line
  {
    if lines == [] {
    } else {
      assert lines[0] in lines;
      EndLineIsDropped(crlf, lines[0]);
      EndLinesAreDropped(crlf, lines[1..]);
      assert EndLines(crlf, lines)[1..] == EndLines(crlf, lines[1..]);
      assert [lines[0]] + lines[1..] == lines;
    }
  }

  lemma {:induction false} StreamLinesAreSingle(events: seq<seq<Field>>, open: seq<Field>)
    requires AllEventsPrintable(events) && AllPrintable(open)
    ensures forall line | line in StreamLines(events, open) :: SingleLine(line)
  {
    if events == [] {
      FieldsAreRead(open);
    } else {
      FieldsAreRead(events[0]);
      StreamLinesAreSingle(events[1..], open);
    }
  }

  lemma {:induction false} OpenEventIsLast(events: seq<seq<Field>>, open: seq<Field>)
    requires AllPrintable(open) && open != []
    ensures var lines := StreamLines(events, open);
      lines != [] && lines[|lines| - 1] != ""
  {
    if events == [] {
      FieldsAreRead(open);
      assert StreamLines(events, open) == FieldLines(open);
      assert FieldLines(open)[|open| - 1] != "";
    } else {
      OpenEventIsLast(events[1..], open);
      var block, rest := FieldLines(events[0]), StreamLines(events[1..], open);
      var lines := block + ([""] + rest);
      assert lines[|block| + 1 + (|rest| - 1)] == rest[|rest| - 1];
    }
  }

  lemma OpenStreamIsScanned(crlf: bool, front: seq<string>, tail: string)
    requires (forall line | line in front :: SingleLine(line)) && SingleLine(tail) && tail != ""
    ensures ScanLines(Unlines(EndLines(crlf, front)) + tail) == front + [tail]
  {
    EndLinesAreDropped(crlf, front);
    ScanLinesOfOpenEnd(EndLines(crlf, front), tail);
    DropCRsAppend(EndLines(crlf, front), [tail]);
    DropCRsOfSingleLines([tail]);
  }

  lemma StreamIsScanned(crlf: bool, events: seq<seq<Field>>, open: seq<Field>, complete: bool)
    requires AllEventsPrintable(events) && AllPrintable(open)
    ensures ScanLines(Stream(crlf, events, open, complete)) == StreamLines(events, open)
  {
    var lines := StreamLines(events, open);
    StreamLinesAreSingle(events, open);
    if complete || open == [] {
      EndLinesAreDropped(crlf, lines);
      ScanLinesOfUnlines(EndLines(crlf, lines));
    } else {
      OpenEventIsLast(events, open);
      var last := |lines| - 1;
      var front, tail := lines[..last], lines[last];
      assert front + [tail] == lines;
      OpenStreamIsScanned(crlf, front, tail);
    }
  }

  /**
   Of any stream, whatever types its events name and however often, exactly the data of the events
   whose last type is "message", or that have none, is dispatched, in order; so is that of an event
   the stream breaks off in.
   */
  lemma AnyStreamIsRead(
    dispatch: string -> seq<string>, crlf: bool, events: seq<seq<Field>>, open: seq<Field>, complete: bool)
    requires AllEventsPrintable(events) && AllPrintable(open)
    ensures StreamMessages(dispatch, Stream(crlf, events, open, complete)) == Delivered(dispatch, events + [open])
  {
    StreamIsScanned(crlf, events, open, complete);
    EventsAreDelivered(dispatch, events, open);
  }

  /** What one event's data stands for: nothing, one message, or the elements of a batch. */
  lemma DataIsDispatched(valid: string -> bool, data: string)
    requires Trimmed(data)
    ensures data == "" ==> Dispatch(valid, data) == []
    ensures data != "" && data[0] != '[' ==> Dispatch(valid, data) == [data]
    ensures data != "" && !valid(data) ==> Dispatch(valid, data) == [data]
  {
    TrimOfTrimmed(data);
  }

  lemma BatchIsDispatched(valid: string -> bool, values: seq<string>)
    requires forall i | 0 <= i < |values| :: IsObjectText(values[i])
    requires valid(ArrayText(values))
    ensures Dispatch(valid, ArrayText(values)) == values
  {
    TrimOfTrimmed(ArrayText(values));
    ElementsOfArrayText(values);
  }

  /** The data, each a message, of the events that count. */
  function MessagesOf(events: seq<seq<Field>>): seq<string> {
    if events == [] then [] else (if IsMessage(events[0]) then Datas(events[0]) else []) + MessagesOf(events[1..])
  }

  lemma {:induction false} ObjectsAreDelivered(valid: string -> bool, events: seq<seq<Field>>)
    requires forall i | 0 <= i < |events| ::
      |Datas(events[i])| <= 1 && forall j | 0 <= j < |Datas(events[i])| :: IsObjectText(Datas(events[i])[j])
    ensures Delivered(Dispatcher(valid), events) == MessagesOf(events)
  {
    if events == [] {
    } else {
      ObjectsAreDelivered(valid, events[1..]);
      if IsMessage(events[0]) {
        var m := Datas(events[0])[0];
        assert Datas(events[0]) == [m];
        DataIsDispatched(valid, m);
      }
    }
  }

  /** One object per event: exactly the objects of the events that count come out, in order. */
  lemma OnlyMessagesArrive(
    valid: string -> bool, crlf: bool, events: seq<seq<Field>>, open: seq<Field>, complete: bool)
    requires AllEventsPrintable(events) && AllPrintable(open)
    requires forall i | 0 <= i <= |events| ::
      var e := (events + [open])[i];
      |Datas(e)| <= 1 && forall j | 0 <= j < |Datas(e)| :: IsObjectText(Datas(e)[j])
    ensures StreamMessages(Dispatcher(valid), Stream(crlf, events, open, complete)) == MessagesOf(events + [open])
  {
    AnyStreamIsRead(Dispatcher(valid), crlf, events, open, complete);
    ObjectsAreDelivered(valid, events + [open]);
  }

  // ---------- JSON spread over several data lines ----------

  lemma TrimIgnoresSpace(s: string)
    ensures TrimSpace(" " + s) == TrimSpace(s)
  {
    assert (" " + s)[1..] == s;
    assert TrimLeft(" " + s) == TrimLeft(s);
  }

  lemma DataLineIsRead(text: string)
    ensures var line := "data: " + text; !IsEvent(line) && DataOf(line) == [TrimSpace(text)]
  {
    var line := "data: " + text;
    TrimIgnoresSpace(text);
    assert line[|"data:"|..] == " " + text;
    assert line[0] == 'd';
  }

  lemma {:induction false} NoEventLines(block: seq<string>)
    requires forall i | 0 <= i < |block| :: !IsEvent(block[i])
    ensures EventType(block) == ""
  {
    if block == [] {
    } else {
      NoEventLines(block[..|block| - 1]);
    }
  }

  lemma {:induction false} DataLinesConcat(a: seq<string>, b: seq<string>)
    ensures DataLines(a + b) == DataLines(a) + DataLines(b)
  {
    if a == [] {
      assert a + b == b;
    } else {
      assert (a + b)[1..] == a[1..] + b;
      DataLinesConcat(a[1..], b);
    }
  }

  lemma NoiseHasNoData(noise: seq<string>)
    requires AllNoise(noise)
    ensures DataLines(noise) == []
  {
    NoiseIsSilent([], noise);
    assert [] + noise == noise;
  }

  function FirstNoise(noise: seq<seq<string>>): seq<string> {
    if noise == [] then [] else noise[0]
  }

  function LaterNoise(noise: seq<seq<string>>): seq<seq<string>> {
    if noise == [] then [] else noise[1..]
  }

  ghost predicate AllAllNoise(noise: seq<seq<string>>) {
    forall i | 0 <= i < |noise| :: AllNoise(noise[i])
  }

  /** Each line in a data field of its own, and noise before each of them while there is some. */
  function AsDataLines(lines: seq<string>, noise: seq<seq<string>>): seq<string> {
    if lines == [] then []
    else FirstNoise(noise) + (["data: " + lines[0]] + AsDataLines(lines[1..], LaterNoise(noise)))
  }

  /** A line of a block that names no event type. */
  predicate IsPlain(line: string) {
    line != "" && !IsEvent(line)
  }

  lemma {:induction false} AsDataLinesAreRead(lines: seq<string>, noise: seq<seq<string>>)
    requires AllAllNoise(noise)
    ensures DataLines(AsDataLines(lines, noise)) == TrimAll(lines)
    ensures forall line | line in AsDataLines(lines, noise) :: IsPlain(line)
  {
    if lines == [] {
    } else {
      var data, rest := "data: " + lines[0], AsDataLines(lines[1..], LaterNoise(noise));
      AsDataLinesAreRead(lines[1..], LaterNoise(noise));
      DataLineIsRead(lines[0]);
      NoiseHasNoData(FirstNoise(noise));
      DataLinesConcat(FirstNoise(noise), [data] + rest);
      assert ([data] + rest)[1..] == rest;
    }
  }

  /** The scanner's own trimming changes nothing that matters. */
  lemma {:induction false} AsDataLinesWithoutCR(lines: seq<string>, noise: seq<seq<string>>)
    requires AllAllNoise(noise)
    ensures DropCRs(AsDataLines(lines, noise)) == AsDataLines(DropCRs(lines), noise)
  {
    if lines == [] {
    } else {
      var data, rest := "data: " + lines[0], AsDataLines(lines[1..], LaterNoise(noise));
      AsDataLinesWithoutCR(lines[1..], LaterNoise(noise));
      DropCRsAppend(FirstNoise(noise), [data] + rest);
      DropCRsOfSingleLines(FirstNoise(noise));
      assert ([data] + rest)[1..] == rest;
      assert DropCR(data) == "data: " + DropCR(lines[0]);
    }
  }

  lemma {:induction false} TrimIgnoresCR(s: string)
    ensures TrimSpace(s + "\r") == TrimSpace(s)
    decreases |s|
  {
    if s == "" {
      assert ("" + "\r")[1..] == "";
    } else if !IsSpace(s[0]) {
      assert (s + "\r")[..|s|] == s;
    } else {
      assert (s + "\r")[1..] == s[1..] + "\r";
      TrimIgnoresCR(s[1..]);
    }
  }

  lemma {:induction false} TrimAllWithoutCR(lines: seq<string>)
    ensures TrimAll(DropCRs(lines)) == TrimAll(lines)
  {
    if lines == [] {
    } else {
      var line := lines[0];
      if DropCR(line) != line {
        TrimIgnoresCR(DropCR(line));
        assert line == DropCR(line) + "\r";
      }
      TrimAllWithoutCR(lines[1..]);
    }
  }

  /** A JSON text as one event of several data lines, with noise anywhere between them. */
  datatype Spread = Spread(text: string, noise: seq<seq<string>>, after: seq<string>) {
    ghost predicate Printable() {
      && StringsOnOneLine(START, text) && Tokens(text) != []
      && AllAllNoise(noise) && AllNoise(after)
    }

    function Lines(): seq<string> {
      AsDataLines(Split(text, '\n'), noise) + after
    }

    /** The data that comes of it. */
    function Joined(): string {
      TrimSpace(Join(TrimAll(Split(text, '\n')), '\n'))
    }
  }

  function SpreadLines(events: seq<Spread>): seq<string> {
    if events == [] then [] else events[0].Lines() + ([""] + SpreadLines(events[1..]))
  }

  predicate IsBatch(valid: string -> bool, e: Spread) {
    Tokens(e.text) != [] && Tokens(e.text)[0] == "[" && valid(e.Joined())
  }

  function Arrival(valid: string -> bool, e: Spread): seq<string> {
    if IsBatch(valid, e) then Elements(e.Joined()) else [e.Joined()]
  }

  function Arrivals(valid: string -> bool, events: seq<Spread>): seq<string> {
    if events == [] then [] else Arrival(valid, events[0]) + Arrivals(valid, events[1..])
  }

  lemma {:induction false} FirstTokenStarts(l: Lexer, s: string, c: char)
    requires if l.tokens != [] then l.tokens[0] != "" && l.tokens[0][0] == c else l.cur != "" && l.cur[0] == c
    ensures var t := EndToken(Run(l, s)).tokens;
      t != [] && t[0] != "" && t[0][0] == c
    decreases |s|
  {
    if s == "" {
    } else {
      FirstTokenStarts(Feed(l, s[0]), s[1..], c);
    }
  }

  /** A text that does not begin with a bracket does not have one for its first token. */
  lemma FirstTokenIsNot(s: string)
    requires s != "" && !IsSpace(s[0]) && s[0] != '['
    ensures Tokens(s) != [] ==> Tokens(s)[0] != "["
  {
    FirstTokenStarts(Feed(START, s[0]), s[1..], s[0]);
  }

  /** What comes of a text's lines begins with a bracket exactly when its first token is one. */
  lemma BracketedData(text: string)
    requires StringsOnOneLine(START, text) && Tokens(text) != []
    ensures var joined := TrimSpace(Join(TrimAll(Split(text, '\n')), '\n'));
      joined != "" && Trimmed(joined) && (joined[0] == '[' <==> Tokens(text)[0] == "[")
  {
    var data := Join(TrimAll(Split(text, '\n')), '\n');
    var joined := TrimSpace(data);
    TokensSurviveLineTrimming(text);
    var lead, tail := TrimSplits(data);
    assert joined != "" by {
      assert Tokens("") == [];
    }
    if joined[0] == '[' {
      FirstToken(joined);
    } else {
      FirstTokenIsNot(joined);
    }
  }

  lemma SpreadIsDispatched(valid: string -> bool, e: Spread)
    requires e.Printable()
    ensures Dispatch(valid, Join(TrimAll(Split(e.text, '\n')), '\n')) == Arrival(valid, e)
  {
    BracketedData(e.text);
  }

  lemma SpreadHasItsData(e: Spread)
    requires e.Printable()
    ensures DataLines(DropCRs(e.Lines())) == TrimAll(Split(e.text, '\n'))
    ensures forall line | line in DropCRs(e.Lines()) :: IsPlain(line)
  {
    var lines := Split(e.text, '\n');
    var block := AsDataLines(DropCRs(lines), e.noise);
    DropCRsAppend(AsDataLines(lines, e.noise), e.after);
    DropCRsOfSingleLines(e.after);
    AsDataLinesWithoutCR(lines, e.noise);
    assert DropCRs(e.Lines()) == block + e.after;
    AsDataLinesAreRead(DropCRs(lines), e.noise);
    TrimAllWithoutCR(lines);
    NoiseHasNoData(e.after);
    DataLinesConcat(block, e.after);
    assert TrimAll(lines) + [] == TrimAll(lines);
  }

  lemma SpreadIsRead(valid: string -> bool, e: Spread)
    requires e.Printable()
    ensures "" !in DropCRs(e.Lines())
    ensures BlockMessages(Dispatcher(valid), DropCRs(e.Lines())) == Arrival(valid, e)
  {
    var block := DropCRs(e.Lines());
    SpreadHasItsData(e);
    assert forall i | 0 <= i < |block| :: IsPlain(block[i]);
    NoEventLines(block);
    SpreadIsDispatched(valid, e);
  }

  lemma {:induction false} AsDataLinesAreLines(lines: seq<string>, noise: seq<seq<string>>)
    requires AllAllNoise(noise)
    requires forall i | 0 <= i < |lines| :: '\n' !in lines[i]
    ensures forall line | line in AsDataLines(lines, noise) :: '\n' !in line
  {
    if lines == [] {
    } else {
      AsDataLinesAreLines(lines[1..], LaterNoise(noise));
    }
  }

  lemma {:induction false} SpreadLinesAreLines(events: seq<Spread>)
    requires forall i | 0 <= i < |events| :: events[i].Printable()
    ensures forall line | line in SpreadLines(events) :: '\n' !in line
  {
    if events == [] {
    } else {
      SpreadLinesAreLines(events[1..]);
      AsDataLinesAreLines(Split(events[0].text, '\n'), events[0].noise);
    }
  }

  /** A first block, without the carriage returns, and what follows it. */
  lemma FirstBlockIsRead(dispatch: string -> seq<string>, block: seq<string>, rest: seq<string>)
    requires "" !in DropCRs(block)
    ensures Messages(dispatch, Blocks(DropCRs(block + ([""] + rest))))
         == BlockMessages(dispatch, DropCRs(block)) + Messages(dispatch, Blocks(DropCRs(rest)))
  {
    DropCRsAppend(block, [""] + rest);
    assert ([""] + rest)[1..] == rest;
    BlockEnds(DropCRs(block), DropCRs(rest));
    MessagesCons(dispatch, DropCRs(block), Blocks(DropCRs(rest)));
  }

  lemma {:induction false} SpreadLinesAreRead(valid: string -> bool, events: seq<Spread>)
    requires forall i | 0 <= i < |events| :: events[i].Printable()
    ensures Messages(Dispatcher(valid), Blocks(DropCRs(SpreadLines(events)))) == Arrivals(valid, events)
  {
    if events == [] {
      assert Blocks(DropCRs(SpreadLines(events))) == [[]];
    } else {
      SpreadLinesAreRead(valid, events[1..]);
      SpreadIsRead(valid, events[0]);
      FirstBlockIsRead(Dispatcher(valid), events[0].Lines(), SpreadLines(events[1..]));
    }
  }

  lemma SpreadStreamIsRead(valid: string -> bool, events: seq<Spread>)
    requires forall i | 0 <= i < |events| :: events[i].Printable()
    ensures StreamMessages(Dispatcher(valid), Unlines(SpreadLines(events))) == Arrivals(valid, events)
  {
    SpreadLinesAreRead(valid, events);
    SpreadLinesAreLines(events);
    ScanLinesOfUnlines(SpreadLines(events));
  }

  /** A valid text that begins with a bracket ends with one, as any JSON array does. */
  ghost predicate ClosesArrays(valid: string -> bool) {
    forall s: string | valid(s) && Trimmed(s) && s != "" && s[0] == '[' :: |s| >= 2 && s[|s| - 1] == ']'
  }

  /** The messages have the text's tokens: the one message has, or the elements have in their brackets. */
  ghost predicate KeepsTokens(valid: string -> bool, e: Spread) {
    var messages := Arrival(valid, e);
    if IsBatch(valid, e) then Tokens(ArrayText(messages)) == Tokens(e.text)
    else |messages| == 1 && Tokens(messages[0]) == Tokens(e.text)
  }

  lemma SpreadKeepsTokens(valid: string -> bool, e: Spread)
    requires ClosesArrays(valid) && e.Printable()
    ensures KeepsTokens(valid, e)
  {
    TokensSurviveLineTrimming(e.text);
    if IsBatch(valid, e) {
      BracketedData(e.text);
      ElementsKeepTheTokens(e.Joined());
    }
  }

  /**
   JSON texts, each sent over several data lines of one event with noise between them, arrive in
   order: each as one message with the same tokens or, when it is a batch, as elements that have the
   same tokens once they are put in brackets again. Carriage returns at line ends do not matter.
   */
  lemma MultiLineJsonKeepsItsTokens(valid: string -> bool, events: seq<Spread>)
    requires ClosesArrays(valid) && forall i | 0 <= i < |events| :: events[i].Printable()
    ensures StreamMessages(Dispatcher(valid), Unlines(SpreadLines(events))) == Arrivals(valid, events)
    ensures forall i | 0 <= i < |events| :: KeepsTokens(valid, events[i])
  {
    SpreadStreamIsRead(valid, events);
    forall i | 0 <= i < |events|
      ensures KeepsTokens(valid, events[i])
    {
      SpreadKeepsTokens(valid, events[i]);
    }
  }
}
