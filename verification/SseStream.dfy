/** The event-stream decoder that is fed piece by piece, and the printer it inverts. */
module SseStream {
  import opened Text

  datatype Event = Event(name: string, data: string)

  datatype Failure = InvalidDone | AgentError(message: string)

  /** What the JSON library answers; JSON itself is not part of this model. */
  datatype Json = Json(valid: string -> bool, message: string -> string)

  /**
   * Everything a feed can touch: the buffered text, the callbacks made so far, the data of the
   * accepted "done" event and the exception that ended the stream.
   */
  datatype Sse = Sse(buffer: string, events: seq<Event>, done: Option<string>, failure: Option<Failure>)

  const START := Sse("", [], None, None)

  /** Two readers that nobody downstream can tell apart: after a failure the buffer is dead. */
  predicate Agree(x: Sse, y: Sse) {
    && x.events == y.events && x.done == y.done && x.failure == y.failure
    && (x.failure.None? ==> x.buffer == y.buffer)
  }

  function ParseLine(line: string, e: Event): Event {
    if StartsWith(line, "event:") then
      e.(name := StripLeading(line[6..], ' '))
    else if StartsWith(line, "data:") then
      e.(data := (if e.data == "" then "" else e.data + "\n") + StripLeading(line[5..], ' '))
    else e
  }

  /** std::getline over the block: a final newline opens no further line. */
  function ParseLines(block: string, e: Event): Event
    decreases |block|
  {
    if block == "" then e
    else match Find(block, "\n", 0)
      case None => ParseLine(block, e)
      case Some(i) => ParseLines(block[i + 1..], ParseLine(block[..i], e))
  }

  function ParseBlock(block: string): Event {
    ParseLines(block, Event("message", ""))
  }

  function ErrorText(data: string, json: Json): string {
    var message := if json.valid(data) then json.message(data) else data;
    if message == "" then "agent service stream returned error" else message
  }

  /** The callback and the two events that the decoder itself acts on. */
  function Emit(s: Sse, e: Event, json: Json): Sse {
    var told := s.(events := s.events + [e]);
    if e.name == "done" then
      if json.valid(e.data) then told.(done := Some(e.data)) else told.(failure := Some(InvalidDone))
    else if e.name == "error" then told.(failure := Some(AgentError(ErrorText(e.data, json))))
    else told
  }

  /** Removes the block that ends at `end` and, unless it is empty, reports it. */
  function TakeBlock(s: Sse, end: nat, json: Json): (r: Sse)
    requires OccursAt(s.buffer, "\n\n", end)
    ensures r.buffer == s.buffer[end + 2..]
  {
    var rest := s.(buffer := s.buffer[end + 2..]);
    if end == 0 then rest else Emit(rest, ParseBlock(s.buffer[..end]), json)
  }

  /** Consumes every complete block; `s` has no carriage return left. */
  function Drain(s: Sse, json: Json): (r: Sse)
    decreases |s.buffer|
  {
    if s.failure.Some? then s
    else match Find(s.buffer, "\n\n", 0)
      case None => s
      case Some(end) => Drain(TakeBlock(s, end, json), json)
  }

  function Feed(s: Sse, data: string, json: Json): (r: Sse) {
    if s.failure.Some? then s
    else Drain(s.(buffer := RemoveChar(s.buffer + data, '\r')), json)
  }

  /** The reader of one stream, consumed in place. */
  class Reader {
    var buffer: string
    var events: seq<Event>
    var done: Option<string>
    var failure: Option<Failure>

    function State(): Sse
      reads this
    {
      Sse(buffer, events, done, failure)
    }

    constructor ()
      ensures State() == START
    {
      buffer, events, done, failure := "", [], None, None;
    }

    static method ReadField(line: string, before: Event) returns (e: Event)
      ensures e == ParseLine(line, before)
    {
      e := before;
      if StartsWith(line, "event:") {
        e := e.(name := StripLeading(line[6..], ' '));
      } else if StartsWith(line, "data:") {
        var part := StripLeading(line[5..], ' ');
        if e.data != "" {
          e := e.(data := e.data + "\n");
        }
        e := e.(data := e.data + part);
      }
    }

    static method ReadBlock(block: string) returns (e: Event)
      ensures e == ParseBlock(block)
    {
      hide ParseLine;
      e := Event("message", "");
      var input := block;
      while input != ""
        invariant ParseLines(input, e) == ParseBlock(block)
        decreases |input|
      {
        var end := Find(input, "\n", 0);
        var line := if end.None? then input else input[..end.value];
        input := if end.None? then "" else input[end.value + 1..];
        e := ReadField(line, e);
      }
    }

    /** The callback, then the two events that end or complete the stream. */
    method Report(e: Event, json: Json)
      requires failure.None?
      modifies this
      ensures State() == Emit(old(State()), e, json)
    {
      events := events + [e];
      if e.name == "done" {
        if json.valid(e.data) {
          done := Some(e.data);
        } else {
          failure := Some(InvalidDone);
        }
      } else if e.name == "error" {
        var message := if json.valid(e.data) then json.message(e.data) else e.data;
        failure := Some(AgentError(if message == "" then "agent service stream returned error" else message));
      }
    }

    /** Cuts the first block off the buffer and reports it. */
    method ConsumeBlock(end: nat, json: Json)
      requires failure.None? && OccursAt(buffer, "\n\n", end)
      modifies this
      ensures State() == TakeBlock(old(State()), end, json)
    {
      var block := buffer[..end];
      buffer := buffer[end + 2..];
      if block != "" {
        var e := ReadBlock(block);
        Report(e, json);
      }
    }

    method FeedData(data: string, json: Json)
      requires failure.None?
      modifies this
      ensures State() == Feed(old(State()), data, json)
    {
      buffer := RemoveChar(buffer + data, '\r');
      while failure.None?
        invariant Drain(State(), json) == Feed(old(State()), data, json)
        decreases failure.None?, |buffer|
      {
        var end := Find(buffer, "\n\n", 0);
        if end.None? {
          break;
        }
        DrainTakesBlock(State(), end.value, json);
        ConsumeBlock(end.value, json);
      }
    }
  }

  lemma DrainTakesBlock(s: Sse, end: nat, json: Json)
    requires s.failure.None? && Find(s.buffer, "\n\n", 0) == Some(end)
    ensures Drain(s, json) == Drain(TakeBlock(s, end, json), json)
  {
  }

  // ---- Segmentation ------------------------------------------------------

  lemma {:induction false} DrainLeavesNoBlock(s: Sse, json: Json)
    ensures var r := Drain(s, json);
            && (r.failure.None? ==> Find(r.buffer, "\n\n", 0).None?)
            && (forall c | c in r.buffer :: c in s.buffer)
    decreases |s.buffer|
  {
    if s.failure.None? && Find(s.buffer, "\n\n", 0).Some? {
      DrainLeavesNoBlock(TakeBlock(s, Find(s.buffer, "\n\n", 0).value, json), json);
    }
  }

  /** Between feeds the buffer holds neither a block separator nor a carriage return. */
  lemma FeedLeavesNoBlock(s: Sse, data: string, json: Json)
    ensures Settled(Feed(s, data, json))
  {
    DrainLeavesNoBlock(s.(buffer := RemoveChar(s.buffer + data, '\r')), json);
  }

  lemma TakeBlockAppend(s: Sse, x: string, end: nat, json: Json)
    requires OccursAt(s.buffer, "\n\n", end)
    ensures OccursAt(s.buffer + x, "\n\n", end)
    ensures var taken := TakeBlock(s, end, json);
            TakeBlock(s.(buffer := s.buffer + x), end, json) == taken.(buffer := taken.buffer + x)
  {
    assert (s.buffer + x)[end..end + 2] == s.buffer[end..end + 2];
    assert (s.buffer + x)[end + 2..] == s.buffer[end + 2..] + x;
    assert (s.buffer + x)[..end] == s.buffer[..end];
  }

  lemma {:induction false} DrainAppend(s: Sse, x: string, json: Json)
    ensures var d := Drain(s, json);
            var whole := Drain(s.(buffer := s.buffer + x), json);
            if d.failure.Some? then Agree(whole, d) else whole == Drain(d.(buffer := d.buffer + x), json)
    decreases |s.buffer|
  {
    if s.failure.None? && Find(s.buffer, "\n\n", 0).Some? {
      var end := Find(s.buffer, "\n\n", 0).value;
      FindExtends(s.buffer, x, "\n\n");
      TakeBlockAppend(s, x, end, json);
      DrainAppend(TakeBlock(s, end, json), x, json);
    }
  }

  /** Feeding a ++ b is feeding a, then b: same callbacks up to the same first failure. */
  lemma FeedSegmentation(s: Sse, a: string, b: string, json: Json)
    ensures Agree(Feed(s, a + b, json), Feed(Feed(s, a, json), b, json))
  {
    if s.failure.None? {
      assert s.buffer + (a + b) == (s.buffer + a) + b;
      RemoveCharConcat(s.buffer + a, b, '\r');
      var s1 := s.(buffer := RemoveChar(s.buffer + a, '\r'));
      DrainAppend(s1, RemoveChar(b, '\r'), json);
      DrainLeavesNoBlock(s1, json);
      RemoveCharConcat(Drain(s1, json).buffer, b, '\r');
    }
  }

  /** A reader that has consumed all it can. */
  predicate Settled(s: Sse) {
    s.failure.None? ==> Find(s.buffer, "\n\n", 0).None? && '\r' !in s.buffer
  }

  lemma FeedNothing(s: Sse, json: Json)
    requires Settled(s)
    ensures Feed(s, "", json) == s
  {
    assert s.buffer + "" == s.buffer;
  }

  // ---- What a block means ------------------------------------------------

  /** A line of a block: a field with any number of blanks before its value, or anything else. */
  datatype Line = NameLine(blanks: nat, value: string) | DataLine(blanks: nat, value: string) | OtherLine(text: string)
  {
    function Text(): string {
      match this
      case NameLine(blanks, value) => "event:" + Blanks(blanks) + value
      case DataLine(blanks, value) => "data:" + Blanks(blanks) + value
      case OtherLine(text) => text
    }

    predicate Valid() {
      && '\n' !in Text()
      && (if OtherLine? then !("event:" <= text) && !("data:" <= text) else value == "" || value[0] != ' ')
    }
  }

  function Blanks(n: nat): (s: string)
    ensures forall k | 0 <= k < |s| :: s[k] == ' '
  {
    if n == 0 then "" else " " + Blanks(n - 1)
  }

  function BlockText(lines: seq<Line>): string
    requires lines != []
  {
    if |lines| == 1 then lines[0].Text() else lines[0].Text() + "\n" + BlockText(lines[1..])
  }

  /** The last name given, and "message" without one. */
  function LastName(lines: seq<Line>, before: string): string {
    if lines == [] then before else LastName(lines[1..], if lines[0].NameLine? then lines[0].value else before)
  }

  function Values(lines: seq<Line>): seq<string> {
    if lines == [] then []
    else (if lines[0].DataLine? then [lines[0].value] else []) + Values(lines[1..])
  }

  function JoinLines(values: seq<string>): string {
    if values == [] then "" else if |values| == 1 then values[0] else values[0] + "\n" + JoinLines(values[1..])
  }

  /** The data of an event: its data lines one under the other, empty ones at the top left out. */
  function Joined(values: seq<string>): string {
    if values != [] && values[0] == "" then Joined(values[1..]) else JoinLines(values)
  }

  lemma StripBlanks(blanks: string, value: string)
    requires forall k | 0 <= k < |blanks| :: blanks[k] == ' '
    requires value == "" || value[0] != ' '
    ensures StripLeading(blanks + value, ' ') == value
  {
    hide StripLeading;
    var s := blanks + value;
    var r := StripLeading(s, ' ');
    assert forall k | 0 <= k < |blanks| :: s[k] == ' ';
    assert value != "" ==> s[|blanks|] == value[0];
    assert |r| == |value| && s[|blanks|..] == value;
  }

  /** The data seen so far and one more line of it. */
  function More(data: string, value: string): string {
    (if data == "" then "" else data + "\n") + value
  }

  lemma FieldTail(field: string, blanks: string, value: string)
    ensures field <= field + blanks + value && (field + blanks + value)[|field|..] == blanks + value
  {
  }

  lemma ParseName(blanks: string, value: string, e: Event)
    requires forall k | 0 <= k < |blanks| :: blanks[k] == ' '
    requires value == "" || value[0] != ' '
    ensures ParseLine("event:" + blanks + value, e) == Event(value, e.data)
  {
    FieldTail("event:", blanks, value);
    hide StripLeading;
    StripBlanks(blanks, value);
  }

  lemma ParseData(blanks: string, value: string, e: Event)
    requires forall k | 0 <= k < |blanks| :: blanks[k] == ' '
    requires value == "" || value[0] != ' '
    ensures ParseLine("data:" + blanks + value, e) == Event(e.name, More(e.data, value))
  {
    var line := "data:" + blanks + value;
    FieldTail("data:", blanks, value);
    assert line[0] == 'd' && !("event:" <= line);
    hide StripLeading;
    StripBlanks(blanks, value);
    DataField(line, blanks + value, value, e);
  }

  lemma DataField(line: string, rest: string, value: string, e: Event)
    requires "data:" <= line && !("event:" <= line) && line[5..] == rest && StripLeading(rest, ' ') == value
    ensures ParseLine(line, e) == Event(e.name, More(e.data, value))
  {
    hide StripLeading;
  }

  lemma ParseOneLine(line: Line, e: Event)
    requires line.Valid()
    ensures ParseLine(line.Text(), e) ==
            match line
            case NameLine(_, value) => Event(value, e.data)
            case DataLine(_, value) => Event(e.name, More(e.data, value))
            case OtherLine(_) => e
  {
    if line.NameLine? {
      hide ParseLine;
      ParseName(Blanks(line.blanks), line.value, e);
    } else if line.DataLine? {
      hide ParseLine;
      ParseData(Blanks(line.blanks), line.value, e);
    }
  }

  function AllMore(data: string, values: seq<string>): string
    decreases |values|
  {
    if values == [] then data else AllMore(More(data, values[0]), values[1..])
  }

  lemma {:induction false} AllMoreJoins(data: string, values: seq<string>)
    ensures AllMore(data, values) == if data == "" then Joined(values) else JoinLines([data] + values)
    decreases |values|
  {
    if values != [] {
      AllMoreJoins(More(data, values[0]), values[1..]);
      if data == "" {
        assert values == [values[0]] + values[1..];
      } else {
        var all := [data] + values;
        assert all[1..] == values;
        JoinGrows(data, values);
      }
    }
  }

  lemma JoinFirst(first: string, values: seq<string>)
    requires values != []
    ensures JoinLines([first] + values) == first + "\n" + JoinLines(values)
  {
    assert ([first] + values)[1..] == values;
  }

  lemma JoinGrows(data: string, values: seq<string>)
    requires values != []
    ensures JoinLines([data] + values) == JoinLines([data + "\n" + values[0]] + values[1..])
  {
    var value, rest := values[0], values[1..];
    var first := data + "\n" + value;
    JoinFirst(data, values);
    if rest == [] {
      assert values == [value] && [first] + rest == [first];
    } else {
      JoinFirst(first, rest);
      JoinFirst(value, rest);
      assert values == [value] + rest;
      hide JoinLines;
      Regroup(data, value, JoinLines(rest));
    }
  }

  lemma Regroup(a: string, b: string, c: string)
    ensures a + "\n" + (b + "\n" + c) == (a + "\n" + b) + "\n" + c
  {
  }

  lemma {:induction false} ParseAllLines(lines: seq<Line>, e: Event)
    requires lines != [] && forall line | line in lines :: line.Valid()
    ensures ParseLines(BlockText(lines), e) == Event(LastName(lines, e.name), AllMore(e.data, Values(lines)))
    decreases |lines|
  {
    var line, text := lines[0], lines[0].Text();
    assert line in lines;
    ParseOneLine(line, e);
    var after := ParseLine(text, e);
    ValuesFirst(lines, e.data);
    if |lines| == 1 {
      LastLine(text);
      assert LastName(lines, e.name) == after.name && lines[1..] == [];
    } else {
      hide ParseLine;
      var rest := BlockText(lines[1..]);
      FirstLine(text, rest);
      var block := text + "\n" + rest;
      assert block[..|text|] == text && block[|text| + 1..] == rest;
      ParseAllLines(lines[1..], after);
    }
  }

  lemma ValuesFirst(lines: seq<Line>, data: string)
    requires lines != []
    ensures AllMore(data, Values(lines)) ==
            AllMore(if lines[0].DataLine? then More(data, lines[0].value) else data, Values(lines[1..]))
  {
    var rest := Values(lines[1..]);
    if lines[0].DataLine? {
      assert Values(lines)[0] == lines[0].value && Values(lines)[1..] == rest;
    } else {
      assert Values(lines) == rest;
    }
  }

  /** Whatever its lines are, a block is read as the name and the data they spell. */
  lemma BlockMeans(lines: seq<Line>)
    requires lines != [] && forall line | line in lines :: line.Valid()
    ensures ParseBlock(BlockText(lines)) == Event(LastName(lines, "message"), Joined(Values(lines)))
  {
    ParseAllLines(lines, Event("message", ""));
    AllMoreJoins("", Values(lines));
  }

  /** An empty block between events is no event. */
  lemma EmptyBlockIsNothing(s: Sse, rest: string, json: Json)
    requires s.failure.None? && s.buffer == "\n\n" + rest
    ensures Drain(s, json) == Drain(s.(buffer := rest), json)
  {
    OccursPair(s.buffer, '\n', '\n', 0);
    assert s.buffer[2..] == rest;
  }

  // ---- Round trip --------------------------------------------------------

  /** sse_event(name, data), with the dumped JSON as text. */
  function Print(e: Event): string {
    "event: " + e.name + "\ndata: " + e.data + "\n\n"
  }

  function PrintAll(es: seq<Event>): string {
    if es == [] then "" else Print(es[0]) + PrintAll(es[1..])
  }

  /** What the service sends: json.dumps never writes a raw line break, names are plain words. */
  predicate Framed(e: Event) {
    && '\n' !in e.name && '\r' !in e.name && !StartsWith(e.name, " ")
    && '\n' !in e.data && '\r' !in e.data && !StartsWith(e.data, " ")
  }

  /** An event after which the stream goes on. */
  predicate Printable(e: Event, json: Json) {
    Framed(e) && e.name != "error" && (e.name == "done" ==> json.valid(e.data))
  }

  /** An event that ends the stream, and the exception it ends with. */
  predicate Fatal(e: Event, json: Json, how: Failure) {
    match how
    case InvalidDone => e.name == "done" && !json.valid(e.data)
    case AgentError(message) =>
      && e.name == "error"
      && (json.valid(e.data) && json.message(e.data) != "" ==> message == json.message(e.data))
      && (!json.valid(e.data) && e.data != "" ==> message == e.data)
      && ((if json.valid(e.data) then json.message(e.data) else e.data) == "" ==>
            message == "agent service stream returned error")
  }

  function LastDone(es: seq<Event>, before: Option<string>): Option<string> {
    if es == [] then before
    else LastDone(es[1..], if es[0].name == "done" then Some(es[0].data) else before)
  }

  lemma FirstLine(first: string, rest: string)
    requires '\n' !in first
    ensures Find(first + "\n" + rest, "\n", 0) == Some(|first|)
  {
    var block := first + "\n" + rest;
    assert block[|first|..|first| + 1] == "\n";
    assert OccursAt(block, "\n", |first|);
    forall j | 0 <= j < |first| ensures !OccursAt(block, "\n", j) {
      assert block[j..j + 1][0] == first[j];
    }
  }

  lemma LastLine(line: string)
    requires '\n' !in line
    ensures Find(line, "\n", 0).None?
  {
    forall i: nat ensures !OccursAt(line, "\n", i) {
      if i < |line| {
        assert line[i..i + 1][0] == line[i];
      }
    }
  }

  lemma NameAndData(name: Line, data: Line, before: string)
    requires name.NameLine? && data.DataLine?
    ensures BlockText([name, data]) == name.Text() + "\n" + data.Text()
    ensures LastName([name, data], before) == name.value && Joined(Values([name, data])) == data.value
  {
    hide Blanks;
    assert [name, data][1..] == [data] && [data][1..] == [];
    assert Values([data]) == [data.value] + Values([]) == [data.value];
    assert Values([name, data]) == [] + Values([data]) == Values([data]);
    assert LastName([data], name.value) == name.value;
    assert [data.value][1..] == [];
  }

  lemma OneBlank(value: string)
    ensures NameLine(1, value).Text() == "event: " + value && DataLine(1, value).Text() == "data: " + value
  {
    assert Blanks(0) == "" && Blanks(1) == " ";
    hide Blanks;
    assert "event:" + " " == "event: " && "data:" + " " == "data: ";
  }

  lemma PrintedLines(name: string, data: string)
    ensures ("event: " + name) + "\n" + ("data: " + data) == "event: " + name + "\ndata: " + data
  {
  }

  lemma ParsePrinted(e: Event)
    requires Framed(e)
    ensures ParseBlock("event: " + e.name + "\ndata: " + e.data) == e
  {
    var name, data := NameLine(1, e.name), DataLine(1, e.data);
    OneBlank(e.name);
    OneBlank(e.data);
    assert name.Valid() && data.Valid();
    hide BlockText, ParseBlock, Values, Joined, LastName, Blanks, Framed;
    PrintedLines(e.name, e.data);
    NameAndData(name, data, "message");
    BlockMeans([name, data]);
  }

  lemma PrintedBlockEnd(e: Event, rest: string)
    requires Framed(e)
    ensures var block := "event: " + e.name + "\ndata: " + e.data;
            Find(Print(e) + rest, "\n\n", 0) == Some(|block|)
  {
    var first := "event: " + e.name;
    var block := first + "\ndata: " + e.data;
    assert block == "event: " + e.name + "\ndata: " + e.data;
    var text := Print(e) + rest;
    assert text == block + "\n\n" + rest;
    OccursPair(text, '\n', '\n', |block|);
    forall j | 0 <= j < |block| ensures !OccursAt(text, "\n\n", j) {
      OccursPair(text, '\n', '\n', j);
      assert text[j] == block[j];
      if block[j] == '\n' {
        assert j == |first|;
        assert text[j + 1] == 'd';
      }
    }
  }

  lemma TakePrinted(s: Sse, e: Event, rest: string, json: Json)
    requires s.failure.None? && s.buffer == Print(e) + rest && Framed(e)
    ensures Drain(s, json) == Drain(Emit(s.(buffer := rest), e, json), json)
  {
    var block := "event: " + e.name + "\ndata: " + e.data;
    assert s.buffer == block + "\n\n" + rest;
    assert s.buffer[..|block|] == block && s.buffer[|block| + 2..] == rest;
    PrintedBlockEnd(e, rest);
    ParsePrinted(e);
    DrainTakesBlock(s, |block|, json);
  }

  lemma EmitPrintable(s: Sse, es: seq<Event>, json: Json)
    requires s.failure.None? && es != [] && Printable(es[0], json)
    ensures var next := Emit(s, es[0], json);
            && next.failure.None? && next.buffer == s.buffer
            && next.events + es[1..] == s.events + es
            && LastDone(es[1..], next.done) == LastDone(es, s.done)
  {
    MoveHead(s.events, es);
  }

  lemma MoveHead(a: seq<Event>, b: seq<Event>)
    requires b != []
    ensures (a + [b[0]]) + b[1..] == a + b
  {
  }

  lemma {:induction false} DrainPrefix(s: Sse, es: seq<Event>, rest: string, json: Json)
    requires s.failure.None? && s.buffer == PrintAll(es) + rest
    requires forall e | e in es :: Printable(e, json)
    ensures Drain(s, json) == Drain(Sse(rest, s.events + es, LastDone(es, s.done), None), json)
    decreases |es|
  {
    if es == [] {
      assert "" + rest == rest && s.events + es == s.events;
    } else {
      var next := s.(buffer := PrintAll(es[1..]) + rest);
      assert es[0] in es;
      assert s.buffer == Print(es[0]) + next.buffer;
      TakePrinted(s, es[0], next.buffer, json);
      EmitPrintable(next, es, json);
      DrainPrefix(Emit(next, es[0], json), es[1..], rest, json);
    }
  }

  lemma {:induction false} PrintAllHasNoCr(es: seq<Event>, json: Json)
    requires forall e | e in es :: Printable(e, json)
    ensures '\r' !in PrintAll(es)
  {
    if es != [] {
      assert es[0] in es;
      PrintAllHasNoCr(es[1..], json);
    }
  }

  /** The decoder inverts the printer on every list of printable events. */
  lemma SseRoundTrip(es: seq<Event>, json: Json)
    requires forall e | e in es :: Printable(e, json)
    ensures Feed(START, PrintAll(es), json) == Sse("", es, LastDone(es, None), None)
  {
    PrintAllHasNoCr(es, json);
    assert PrintAll(es) + "" == PrintAll(es) && "" + PrintAll(es) == PrintAll(es);
    DrainPrefix(START.(buffer := PrintAll(es)), es, "", json);
    assert [] + es == es;
  }

  /**
   * A fatal event is the last one reported, whatever follows it, and the stream fails in the way it says.
   */
  lemma FatalRoundTrip(es: seq<Event>, e: Event, how: Failure, rest: string, json: Json)
    requires forall x | x in es :: Printable(x, json)
    requires Framed(e) && Fatal(e, json, how)
    ensures var s := Feed(START, PrintAll(es) + Print(e) + rest, json);
            s.events == es + [e] && s.done == LastDone(es, None) && s.failure == Some(how)
  {
    var text, tail := PrintAll(es) + Print(e), RemoveChar(rest, '\r');
    PrintAllHasNoCr(es, json);
    assert '\r' !in text;
    hide Print, PrintAll, Drain, RemoveChar, Framed, Fatal, Feed;
    FeedClean(text, rest, json);
    Reassociate(PrintAll(es), Print(e), tail);
    DrainPrefix(START.(buffer := text + tail), es, Print(e) + tail, json);
    NothingBefore(es);
    DrainFatal(Sse(Print(e) + tail, es, LastDone(es, None), None), e, how, tail, json);
  }

  lemma Reassociate(a: string, b: string, c: string)
    ensures (a + b) + c == a + (b + c)
  {
  }

  lemma NothingBefore(es: seq<Event>)
    ensures [] + es == es
  {
  }

  lemma FeedClean(text: string, rest: string, json: Json)
    requires '\r' !in text
    ensures Feed(START, text + rest, json) == Drain(START.(buffer := text + RemoveChar(rest, '\r')), json)
  {
    RemoveCharConcat(text, rest, '\r');
    assert "" + (text + rest) == text + rest;
    hide Drain;
  }

  lemma DrainFatal(s: Sse, e: Event, how: Failure, rest: string, json: Json)
    requires s.failure.None? && s.buffer == Print(e) + rest && Framed(e) && Fatal(e, json, how)
    ensures Drain(s, json) == Sse(rest, s.events + [e], s.done, Some(how))
  {
    TakePrinted(s, e, rest, json);
    hide Framed, Print;
  }
}
