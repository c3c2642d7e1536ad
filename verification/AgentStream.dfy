/**
 * The client side of one streamed answer: response head, transfer coding, event stream. Bytes come
 * in pieces cut anywhere; the events that reach the callback must not depend on the cuts.
 */
module AgentStream {
  import opened Text
  import opened Numbers
  import opened SseStream
  import opened ChunkedTransfer
  import opened ChunkedBodies

  const HEAD_END := "\r\n\r\n"

  datatype Channel = Header(raw: string) | Chunked(stream: Stream) | Plain(sse: Sse)

  predicate IsChunked(header: string) {
    Contains(Lower(header), "transfer-encoding: chunked")
  }

  /** The head is complete; `body` is what the same pieces brought after it. */
  function Open(header: string, body: string, json: Json): Channel {
    if IsChunked(header) then Chunked(Pump(Stream(body, false, None, START), json))
    else Plain(Feed(START, body, json))
  }

  function Recv(c: Channel, piece: string, json: Json): Channel {
    match c
    case Header(raw) =>
      (match Find(raw + piece, HEAD_END, 0)
       case None => Header(raw + piece)
       case Some(i) => Open((raw + piece)[..i], (raw + piece)[i + 4..], json))
    case Chunked(stream) => Chunked(Receive(stream, piece, json))
    case Plain(sse) => Plain(Feed(sse, piece, json))
  }

  function RecvAll(c: Channel, pieces: seq<string>, json: Json): Channel
    decreases |pieces|
  {
    if pieces == [] then c else RecvAll(Recv(c, pieces[0], json), pieces[1..], json)
  }

  function Reported(c: Channel): Sse {
    match c
    case Header(_) => START
    case Chunked(stream) => stream.sse
    case Plain(sse) => sse
  }

  datatype Outcome = Answer(data: string) | NoHeaders | RecvFailed | BadChunk(why: Refusal) | Failed(how: Failure) | NoAnswer

  /** What the call returns or throws when the bytes end, by a close or by an error. */
  function Conclude(c: Channel, closed: bool): Outcome {
    var sse := Reported(c);
    if sse.failure.Some? then Failed(sse.failure.value)
    else if c.Chunked? && c.stream.refused.Some? then BadChunk(c.stream.refused.value)
    else if !closed && !(c.Chunked? && c.stream.finished) then RecvFailed
    else if c.Header? then NoHeaders
    else match sse.done
      case Some(data) => Answer(data)
      case None => NoAnswer
  }

  predicate SameChannel(x: Channel, y: Channel) {
    match (x, y)
    case (Header(a), Header(b)) => a == b
    case (Chunked(a), Chunked(b)) => SameStream(a, b)
    case (Plain(a), Plain(b)) => Agree(a, b)
    case _ => false
  }

  /** A head that is still incomplete. */
  predicate Waiting(c: Channel) {
    c.Header? ==> Find(c.raw, HEAD_END, 0).None?
  }

  // ---- The loops of the client -------------------------------------------

  /** The incremental chunk loop over its own buffer. */
  class ChunkReader {
    var chunk: string
    var finished: bool
    var refused: Option<Refusal>
    const sse: Reader

    function State(): Stream
      reads this, sse
    {
      Stream(chunk, finished, refused, sse.State())
    }

    constructor (body: string, sse: Reader)
      ensures this.sse == sse && State() == Stream(body, false, None, sse.State())
    {
      this.chunk, this.finished, this.refused, this.sse := body, false, None, sse;
    }

    method TakeOne(start: nat, size: nat, json: Json)
      requires sse.failure.None? && start + size + 2 <= |chunk|
      modifies this, sse
      ensures State() == TakeChunk(old(State()), start, size, json)
    {
      sse.FeedData(chunk[start..start + size], json);
      if sse.failure.None? {
        chunk := chunk[start + size + 2..];
      }
    }

    method PumpAll(json: Json)
      requires !State().Stopped()
      modifies this, sse
      ensures State() == Pump(old(State()), json)
    {
      hide ReadHead, TakeChunk, Feed;
      while !finished && refused.None? && sse.failure.None?
        invariant Pump(State(), json) == Pump(old(State()), json)
        decreases !finished && refused.None?, sse.failure.None?, |chunk|
      {
        match ReadHead(chunk) {
          case NeedMore =>
            break;
          case Refused(why) =>
            refused := Some(why);
          case Last =>
            finished := true;
          case Chunk(start, size) =>
            ghost var before := State();
            TakeOne(start, size, json);
            TakeChunkShrinks(before, start, size, json);
        }
      }
    }
  }

  lemma TakeChunkShrinks(s: Stream, start: nat, size: nat, json: Json)
    requires start + size + 2 <= |s.chunk|
    ensures var t := TakeChunk(s, start, size, json);
            t.sse.failure.Some? || |t.chunk| < |s.chunk|
  {
  }

  lemma RecvNext(c: Channel, pieces: seq<string>, i: nat, json: Json)
    requires i < |pieces|
    ensures RecvAll(c, pieces[i..], json) == RecvAll(Recv(c, pieces[i], json), pieces[i + 1..], json)
  {
    hide Recv;
    assert pieces[i..][1..] == pieces[i + 1..];
  }

  lemma {:induction false} StoppedIgnoresRest(s: Stream, pieces: seq<string>, json: Json)
    requires s.Stopped()
    ensures RecvAll(Chunked(s), pieces, json) == Chunked(s)
  {
    if pieces != [] {
      StoppedIgnoresRest(s, pieces[1..], json);
    }
  }

  lemma {:induction false} FailedIgnoresRest(s: Sse, pieces: seq<string>, json: Json)
    requires s.failure.Some?
    ensures RecvAll(Plain(s), pieces, json) == Plain(s)
  {
    if pieces != [] {
      FailedIgnoresRest(s, pieces[1..], json);
    }
  }

  /** The first loop: receive until the head is complete. */
  method ReadHeader(pieces: seq<string>, json: Json) returns (raw: string, head: Option<nat>, i: nat)
    ensures i <= |pieces| && (head.None? ==> i == |pieces|)
    ensures head.Some? ==> OccursAt(raw, HEAD_END, head.value)
    ensures RecvAll(Header(""), pieces, json) ==
            RecvAll(if head.None? then Header(raw) else Open(raw[..head.value], raw[head.value + 4..], json), pieces[i..], json)
  {
    hide Open;
    raw, head, i := "", None, 0;
    assert pieces[0..] == pieces;
    while i < |pieces| && head.None?
      invariant i <= |pieces|
      invariant head.Some? ==> OccursAt(raw, HEAD_END, head.value)
      invariant RecvAll(Header(""), pieces, json) ==
                RecvAll(if head.None? then Header(raw) else Open(raw[..head.value], raw[head.value + 4..], json), pieces[i..], json)
    {
      RecvNext(Header(raw), pieces, i, json);
      raw := raw + pieces[i];
      i := i + 1;
      head := Find(raw, HEAD_END, 0);
    }
  }

  method ReadChunked(body: string, pieces: seq<string>, start: nat, json: Json) returns (s: Stream)
    requires start <= |pieces|
    ensures RecvAll(Chunked(Pump(Stream(body, false, None, START), json)), pieces[start..], json) ==
            RecvAll(Chunked(s), [], json)
    ensures s.Stopped() || RecvAll(Chunked(s), [], json) == Chunked(s)
  {
    hide Pump;
    var sse := new Reader();
    var chunks := new ChunkReader(body, sse);
    chunks.PumpAll(json);
    ghost var goal := RecvAll(Chunked(chunks.State()), pieces[start..], json);
    var i := start;
    while i < |pieces| && !chunks.State().Stopped()
      invariant start <= i <= |pieces| && fresh(chunks) && fresh(chunks.sse)
      invariant RecvAll(Chunked(chunks.State()), pieces[i..], json) == goal
    {
      RecvNext(Chunked(chunks.State()), pieces, i, json);
      chunks.chunk := chunks.chunk + pieces[i];
      chunks.PumpAll(json);
      i := i + 1;
    }
    s := chunks.State();
    if s.Stopped() {
      StoppedIgnoresRest(s, pieces[i..], json);
    }
  }

  method ReadPlain(body: string, pieces: seq<string>, start: nat, json: Json) returns (s: Sse)
    requires start <= |pieces|
    ensures RecvAll(Plain(Feed(START, body, json)), pieces[start..], json) == Plain(s)
  {
    hide Feed;
    var sse := new Reader();
    sse.FeedData(body, json);
    ghost var goal := RecvAll(Plain(sse.State()), pieces[start..], json);
    var i := start;
    while i < |pieces| && sse.failure.None?
      invariant start <= i <= |pieces|
      invariant RecvAll(Plain(sse.State()), pieces[i..], json) == goal
    {
      RecvNext(Plain(sse.State()), pieces, i, json);
      sse.FeedData(pieces[i], json);
      i := i + 1;
    }
    s := sse.State();
    if s.failure.Some? {
      FailedIgnoresRest(s, pieces[i..], json);
    }
  }

  /**
   * create_chat_stream after the request is sent. `pieces` are the successive results of recv,
   * `closed` tells a final zero from a final error.
   */
  method ReadChatStream(pieces: seq<string>, closed: bool, json: Json)
    returns (events: seq<Event>, outcome: Outcome)
    ensures var c := RecvAll(Header(""), pieces, json);
            events == Reported(c).events && outcome == Conclude(c, closed)
  {
    var raw, head, i := ReadHeader(pieces, json);
    var end: Channel;
    if head.None? {
      end := Header(raw);
    } else {
      var header, body := raw[..head.value], raw[head.value + 4..];
      if IsChunked(header) {
        var stream := ReadChunked(body, pieces, i, json);
        end := Chunked(stream);
      } else {
        var sse := ReadPlain(body, pieces, i, json);
        end := Plain(sse);
      }
    }
    return Reported(end).events, Conclude(end, closed);
  }

  // ---- Segmentation ------------------------------------------------------

  lemma OpenAppend(header: string, body: string, b: string, json: Json)
    ensures SameChannel(Open(header, body + b, json), Recv(Open(header, body, json), b, json))
  {
    hide Pump, Feed, IsChunked;
    if IsChunked(header) {
      PumpAppend(Stream(body, false, None, START), b, json);
    } else {
      FeedSegmentation(START, body, b, json);
    }
  }

  lemma SplitAppend(x: string, b: string)
    requires Find(x, HEAD_END, 0).Some?
    ensures var i := Find(x, HEAD_END, 0).value;
            && Find(x + b, HEAD_END, 0) == Some(i)
            && (x + b)[..i] == x[..i] && (x + b)[i + 4..] == x[i + 4..] + b
  {
    FindExtends(x, b, HEAD_END);
  }

  lemma HeaderSegmentation(raw: string, a: string, b: string, json: Json)
    ensures SameChannel(Recv(Header(raw), a + b, json), Recv(Recv(Header(raw), a, json), b, json))
  {
    hide Open, Find, Receive, Feed, SameStream;
    var x := raw + a;
    assert raw + (a + b) == x + b;
    if Find(x, HEAD_END, 0).Some? {
      var i := Find(x, HEAD_END, 0).value;
      SplitAppend(x, b);
      assert Recv(Header(raw), a, json) == Open(x[..i], x[i + 4..], json);
      assert Recv(Header(raw), a + b, json) == Open(x[..i], x[i + 4..] + b, json);
      OpenAppend(x[..i], x[i + 4..], b, json);
    } else {
      assert Recv(Header(raw), a, json) == Header(x);
      SameChannelReflexive(Recv(Header(raw), a + b, json));
    }
  }

  /** The whole receiving side, on arbitrary bytes: a ++ b in one piece or in two. */
  lemma RecvSegmentation(c: Channel, a: string, b: string, json: Json)
    requires Waiting(c)
    ensures SameChannel(Recv(c, a + b, json), Recv(Recv(c, a, json), b, json))
    ensures Waiting(Recv(c, a, json))
  {
    hide Pump, Feed, IsChunked, Receive;
    match c
    case Header(raw) => HeaderSegmentation(raw, a, b, json);
    case Chunked(stream) => ReceiveSegmentation(stream, a, b, json);
    case Plain(sse) => FeedSegmentation(sse, a, b, json);
  }

  /** However the bytes are cut, the result is that of one piece. */
  lemma {:induction false} CutsDoNotMatter(c: Channel, pieces: seq<string>, json: Json)
    requires Waiting(c) && pieces != []
    ensures SameChannel(RecvAll(c, pieces, json), Recv(c, Concat(pieces), json))
    decreases |pieces|
  {
    hide Recv;
    var first, rest := pieces[0], pieces[1..];
    RecvSegmentation(c, first, Concat(rest), json);
    if rest == [] {
      assert first + "" == first;
      SameChannelReflexive(Recv(c, first, json));
    } else {
      var next := Recv(c, first, json);
      CutsDoNotMatter(next, rest, json);
      SameChannelTransitive(
        RecvAll(next, rest, json), Recv(next, Concat(rest), json), Recv(c, Concat(pieces), json));
    }
  }

  lemma SameChannelReflexive(x: Channel)
    ensures SameChannel(x, x)
  {
  }

  lemma SameChannelTransitive(x: Channel, y: Channel, z: Channel)
    requires SameChannel(x, y) && SameChannel(z, y)
    ensures SameChannel(x, z)
  {
  }

  // ---- Round trip --------------------------------------------------------

  /** A chunk as a sender writes it; any line that reads as its size will do. */
  datatype WireChunk = WireChunk(line: string, data: string)
  {
    predicate Valid() {
      '\r' !in line && ChunkSize(line) == Some(|data|)
    }

    function Bytes(): string {
      line + CRLF + data + CRLF
    }
  }

  function Encode(chunks: seq<WireChunk>, last: string, trailer: string): string {
    if chunks == [] then last + CRLF + trailer
    else chunks[0].Bytes() + Encode(chunks[1..], last, trailer)
  }

  function Payload(chunks: seq<WireChunk>): string {
    if chunks == [] then "" else chunks[0].data + Payload(chunks[1..])
  }

  lemma LineEnd(line: string, rest: string)
    requires '\r' !in line
    ensures Find(line + CRLF + rest, CRLF, 0) == Some(|line|) && (line + CRLF + rest)[..|line|] == line
  {
    var body := line + CRLF + rest;
    assert CRLF == ['\r', '\n'] && body[|line|] == '\r' && body[|line| + 1] == '\n';
    OccursPair(body, '\r', '\n', |line|);
    forall j | 0 <= j < |line| ensures !OccursAt(body, CRLF, j) {
      OccursPair(body, '\r', '\n', j);
      assert body[j] == line[j];
    }
    var found := Find(body, CRLF, 0);
    assert OccursAt(body, CRLF, |line|);
    assert found.Some? && found.value == |line|;
    assert body[..|line|] == line;
  }

  lemma WholeFrame(start: nat, size: nat, length: nat)
    requires 0 < size && start + size <= length < SIZE_LIMIT
    ensures FrameOf(start, size, length) == Data(start, start + size, start + size)
  {
  }

  lemma ChunkFrame(c: WireChunk, rest: string)
    requires c.Valid() && c.data != "" && |c.Bytes() + rest| + 4 < SIZE_LIMIT
    ensures var body := c.Bytes() + rest;
            var next := |c.line| + 2 + |c.data|;
            && next + 2 <= |body|
            && ReadFrame(body, 0) == Data(|c.line| + 2, next, next) && OccursAt(body, CRLF, next)
            && body[|c.line| + 2..next] == c.data && body[next + 2..] == rest
  {
    hide ChunkSize, Find, FrameOf;
    var body := c.Bytes() + rest;
    var next := |c.line| + 2 + |c.data|;
    assert body == c.line + CRLF + (c.data + CRLF + rest);
    LineEnd(c.line, c.data + CRLF + rest);
    WholeFrame(|c.line| + 2, |c.data|, |body|);
    assert body[0..|c.line|] == c.line;
    assert body[next] == '\r' && body[next + 1] == '\n';
    OccursPair(body, '\r', '\n', next);
  }

  /** Every body a conforming sender writes is decoded, straight through, and its closing chunk is recognised. */
  lemma {:induction false} DecodeEncoded(chunks: seq<WireChunk>, last: string, trailer: string, rounds: nat)
    requires forall c | c in chunks :: c.Valid() && c.data != ""
    requires WireChunk(last, "").Valid() && |trailer| >= 2
    requires |Encode(chunks, last, trailer)| + 4 < SIZE_LIMIT && rounds >= |Encode(chunks, last, trailer)|
    ensures var body := Encode(chunks, last, trailer);
            && DecodeFrom(body, 0, true, rounds) == Decoded(Payload(chunks))
            && Straight(body, 0) && Complete(body)
  {
    hide ChunkSize, ReadHead, ReadFrame, OccursAt;
    var body := Encode(chunks, last, trailer);
    if chunks == [] {
      LastFrame(last, trailer);
    } else {
      var c, rest := chunks[0], Encode(chunks[1..], last, trailer);
      assert c in chunks;
      var next := |c.line| + 2 + |c.data|;
      ChunkFrame(c, rest);
      DecodeEncoded(chunks[1..], last, trailer, rounds - 1);
      ChunkBefore(body, |c.line| + 2, next, rest, c.data, Payload(chunks[1..]), rounds);
    }
  }

  /** A whole chunk in front of a straight body. */
  lemma ChunkBefore(body: string, start: nat, next: nat, rest: string, data: string, payload: string, rounds: nat)
    requires start < next && next + 2 <= |body| && |body| + 4 < SIZE_LIMIT && rounds > 0
    requires ReadFrame(body, 0) == Data(start, next, next) && OccursAt(body, CRLF, next)
    requires body[start..next] == data && body[next + 2..] == rest
    requires DecodeFrom(rest, 0, true, rounds - 1) == Decoded(payload) && Straight(rest, 0) && Complete(rest)
    ensures DecodeFrom(body, 0, true, rounds) == Decoded(data + payload) && Straight(body, 0) && Complete(body)
  {
    hide ReadHead, ReadFrame, OccursAt;
    InSuffix(body, next + 2, 0, rounds - 1);
    assert body[0..] == body;
    HeadOfFrame(body, 0);
  }

  lemma LastFrame(last: string, trailer: string)
    requires WireChunk(last, "").Valid() && |trailer| >= 2 && |last + CRLF + trailer| + 4 < SIZE_LIMIT
    ensures ReadFrame(last + CRLF + trailer, 0).End? && ReadHead(last + CRLF + trailer).Last?
  {
    hide ChunkSize;
    LineEnd(last, trailer);
    assert (last + CRLF + trailer)[0..|last|] == last;
  }

  /** One response with chunked coding: what its bytes amount to, however they are cut. */
  lemma ChunkedResponse(
      header: string, chunks: seq<WireChunk>, last: string, trailer: string, pieces: seq<string>, json: Json)
    requires forall c | c in chunks :: c.Valid() && c.data != ""
    requires WireChunk(last, "").Valid() && |trailer| >= 2
    requires |Encode(chunks, last, trailer)| + 4 < SIZE_LIMIT
    requires Find(header + HEAD_END, HEAD_END, 0) == Some(|header|) && IsChunked(header)
    requires Concat(pieces) == header + HEAD_END + Encode(chunks, last, trailer)
    ensures var c, sse := RecvAll(Header(""), pieces, json), Feed(START, Payload(chunks), json);
            && c.Chunked? && c.stream.refused.None? && Agree(c.stream.sse, sse)
            && (sse.failure.None? ==> c.stream.finished)
  {
    hide Pump, Feed, ChunkSize, IsChunked, DecodeFrom, Complete, Straight, AtEnd;
    var body := Encode(chunks, last, trailer);
    var bytes := header + HEAD_END + body;
    CutsDoNotMatter(Header(""), pieces, json);
    FindExtends(header + HEAD_END, body, HEAD_END);
    assert "" + bytes == bytes && bytes[..|header|] == header && bytes[|header| + 4..] == body;
    DecodeEncoded(chunks, last, trailer, |body|);
    PumpAgreesWithStrict(Stream(body, false, None, START), json);
  }

  /** One response without. */
  lemma PlainResponse(text: string, header: string, pieces: seq<string>, json: Json)
    requires Find(header + HEAD_END, HEAD_END, 0) == Some(|header|) && !IsChunked(header)
    requires Concat(pieces) == header + HEAD_END + text
    ensures var c := RecvAll(Header(""), pieces, json);
            c.Plain? && Agree(c.sse, Feed(START, text, json))
  {
    hide Feed, IsChunked;
    var bytes := header + HEAD_END + text;
    CutsDoNotMatter(Header(""), pieces, json);
    FindExtends(header + HEAD_END, text, HEAD_END);
    assert "" + bytes == bytes && bytes[..|header|] == header && bytes[|header| + 4..] == text;
  }

  /**
   * End to end: whatever events the service prints, however it splits the text into chunks and
   * however the network cuts the response, the callback receives exactly those events in order.
   */
  lemma StreamRoundTrip(
      es: seq<Event>, header: string, chunks: seq<WireChunk>, last: string, trailer: string,
      pieces: seq<string>, closed: bool, json: Json)
    requires forall e | e in es :: Printable(e, json)
    requires Payload(chunks) == PrintAll(es)
    requires forall c | c in chunks :: c.Valid() && c.data != ""
    requires WireChunk(last, "").Valid() && |trailer| >= 2
    requires |Encode(chunks, last, trailer)| + 4 < SIZE_LIMIT
    requires Find(header + HEAD_END, HEAD_END, 0) == Some(|header|) && IsChunked(header)
    requires Concat(pieces) == header + HEAD_END + Encode(chunks, last, trailer)
    ensures var c := RecvAll(Header(""), pieces, json);
            && c.Chunked? && c.stream.finished && c.stream.refused.None?
            && c.stream.sse == Sse("", es, LastDone(es, None), None)
            && Conclude(c, closed) == match LastDone(es, None) { case Some(data) => Answer(data) case None => NoAnswer }
  {
    hide Feed, RecvAll, Encode, Payload, Concat, IsChunked;
    ChunkedResponse(header, chunks, last, trailer, pieces, json);
    SseRoundTrip(es, json);
  }

  /** Without chunked coding the same holds for the bare text, once the peer closes. */
  lemma PlainRoundTrip(es: seq<Event>, header: string, pieces: seq<string>, closed: bool, json: Json)
    requires forall e | e in es :: Printable(e, json)
    requires Find(header + HEAD_END, HEAD_END, 0) == Some(|header|) && !IsChunked(header)
    requires Concat(pieces) == header + HEAD_END + PrintAll(es)
    ensures var c := RecvAll(Header(""), pieces, json);
            && c == Plain(Sse("", es, LastDone(es, None), None))
            && Conclude(c, closed) ==
                 if !closed then RecvFailed
                 else match LastDone(es, None) { case Some(data) => Answer(data) case None => NoAnswer }
  {
    hide Feed, RecvAll, Concat, IsChunked;
    PlainResponse(PrintAll(es), header, pieces, json);
    SseRoundTrip(es, json);
  }
}
