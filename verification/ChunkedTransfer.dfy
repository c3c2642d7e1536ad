/**
 * Chunked transfer coding (section 7.1 of RFC 9112): the incremental loop that feeds the event-stream
 * decoder. Sums with a chunk size are taken modulo 2^64; a buffer is shorter than that by far.
 */
module ChunkedTransfer {
  import opened Text
  import opened Numbers
  import opened SseStream

  const CRLF := "\r\n"

  /** A chunk line up to its first ';', where chunk extensions start. */
  function SizeText(line: string): string {
    match Find(line, ";", 0) { case None => line case Some(i) => line[..i] }
  }

  function ChunkSize(line: string): (size: Option<nat>)
    ensures size.Some? ==> size.value < SIZE_LIMIT
  {
    ParseHexSize(SizeText(line))
  }

  /** A chunk line without a size, or a chunk longer than any string: std::string::append throws. */
  datatype Refusal = BadSize | TooLong

  /** The loop state of the incremental reader. */
  datatype Stream = Stream(chunk: string, finished: bool, refused: Option<Refusal>, sse: Sse)
  {
    predicate Stopped() {
      finished || refused.Some? || sse.failure.Some?
    }
  }

  /** Same callbacks, same outcome, and the same pending bytes unless the loop has stopped. */
  predicate SameStream(x: Stream, y: Stream) {
    && x.finished == y.finished && x.refused == y.refused && Agree(x.sse, y.sse)
    && (!x.Stopped() ==> x.chunk == y.chunk)
  }

  datatype Head = NeedMore | Refused(why: Refusal) | Last | Chunk(start: nat, size: nat)

  /** A chunk line that ends at `end` of a buffer of the given length, and the size on it. */
  function HeadOf(end: nat, size: nat, length: nat): (h: Head)
    ensures h.Chunk? ==> h.size > 0 && h.start + h.size + 2 <= length
  {
    var needed := end + 2 + size + 2;
    if length < needed % SIZE_LIMIT then NeedMore
    else if size == 0 then Last
    else if needed >= SIZE_LIMIT then Refused(TooLong)
    else Chunk(end + 2, size)
  }

  /** What the front of the buffer amounts to. */
  function ReadHead(buffer: string): (h: Head)
    ensures h.Chunk? ==> h.size > 0 && h.start + h.size + 2 <= |buffer|
  {
    match Find(buffer, CRLF, 0)
    case None => NeedMore
    case Some(end) =>
      match ChunkSize(buffer[..end])
      case None => Refused(BadSize)
      case Some(size) => HeadOf(end, size, |buffer|)
  }

  /** One chunk leaves the buffer for the event decoder; a failing feed leaves it in place. */
  function TakeChunk(s: Stream, start: nat, size: nat, json: Json): Stream
    requires start + size + 2 <= |s.chunk|
  {
    var fed := s.(sse := Feed(s.sse, s.chunk[start..start + size], json));
    if fed.sse.failure.Some? then fed else fed.(chunk := s.chunk[start + size + 2..])
  }

  function Pump(s: Stream, json: Json): Stream
    decreases s.sse.failure.None?, |s.chunk|
  {
    if s.Stopped() then s
    else match ReadHead(s.chunk)
      case NeedMore => s
      case Refused(why) => s.(refused := Some(why))
      case Last => s.(finished := true)
      case Chunk(start, size) => Pump(TakeChunk(s, start, size, json), json)
  }

  function Receive(s: Stream, piece: string, json: Json): Stream {
    if s.Stopped() then s else Pump(s.(chunk := s.chunk + piece), json)
  }

  lemma ReadHeadAppend(buffer: string, x: string)
    requires ReadHead(buffer) != NeedMore
    ensures ReadHead(buffer + x) == ReadHead(buffer)
  {
    FindExtends(buffer, x, CRLF);
    var end := Find(buffer, CRLF, 0).value;
    assert (buffer + x)[..end] == buffer[..end];
  }

  lemma TakeChunkAppend(s: Stream, x: string, start: nat, size: nat, json: Json)
    requires start + size + 2 <= |s.chunk|
    ensures var taken := TakeChunk(s, start, size, json);
            TakeChunk(s.(chunk := s.chunk + x), start, size, json) == taken.(chunk := taken.chunk + x)
  {
    hide Feed;
    assert (s.chunk + x)[start..start + size] == s.chunk[start..start + size];
    assert (s.chunk + x)[start + size + 2..] == s.chunk[start + size + 2..] + x;
  }

  lemma {:induction false} PumpAppend(s: Stream, x: string, json: Json)
    ensures var p := Pump(s, json);
            var whole := Pump(s.(chunk := s.chunk + x), json);
            if p.Stopped() then SameStream(whole, p) else whole == Pump(p.(chunk := p.chunk + x), json)
    decreases s.sse.failure.None?, |s.chunk|
  {
    if !s.Stopped() && ReadHead(s.chunk) != NeedMore {
      ReadHeadAppend(s.chunk, x);
      match ReadHead(s.chunk)
      case Chunk(start, size) =>
        TakeChunkAppend(s, x, start, size, json);
        PumpAppend(TakeChunk(s, start, size, json), x, json);
      case _ =>
    }
  }

  /** Receiving a ++ b is receiving a, then b. */
  lemma ReceiveSegmentation(s: Stream, a: string, b: string, json: Json)
    ensures SameStream(Receive(s, a + b, json), Receive(Receive(s, a, json), b, json))
  {
    if !s.Stopped() {
      assert s.chunk + (a + b) == (s.chunk + a) + b;
      PumpAppend(s.(chunk := s.chunk + a), b, json);
    }
  }

  // ---- What a whole stream amounts to -------------------------------------

  /** The body reaches a zero-size chunk that at least two more bytes follow. */
  predicate Complete(body: string)
    decreases |body|
  {
    match ReadHead(body)
    case Last => true
    case Chunk(start, size) => Complete(body[start + size + 2..])
    case _ => false
  }

  lemma PumpStopped(s: Stream, json: Json)
    requires s.Stopped()
    ensures Pump(s, json) == s
  {
  }

  lemma PumpTakesChunk(s: Stream, json: Json)
    requires !s.Stopped() && ReadHead(s.chunk).Chunk?
    ensures var h := ReadHead(s.chunk);
            && Pump(s, json) == Pump(TakeChunk(s, h.start, h.size, json), json)
            && Complete(s.chunk) == Complete(s.chunk[h.start + h.size + 2..])
  {
    hide ReadHead, TakeChunk;
  }

  lemma FeedInTwo(s: Sse, a: string, b: string, end: Sse, json: Json)
    requires Agree(end, Feed(Feed(s, a, json), b, json))
    ensures Agree(end, Feed(s, a + b, json))
  {
    FeedSegmentation(s, a, b, json);
  }

  lemma FeedAfterFailure(s: Sse, data: string, json: Json)
    requires s.failure.Some?
    ensures Feed(s, data, json) == s
  {
  }

  lemma PlainSizeText(line: string)
    requires ';' !in line
    ensures SizeText(line) == line
  {
    forall i: nat ensures !OccursAt(line, ";", i) {
      if i < |line| {
        assert line[i] != ';';
      }
    }
  }

  /** A conforming sender's chunk line. */
  lemma PlainSizeLine(n: nat)
    requires n < SIZE_LIMIT
    ensures ChunkSize(PrintNat(n, 16)) == Some(n) && '\r' !in PrintNat(n, 16)
  {
    PlainSizeText(PrintNat(n, 16));
    HexRoundTrip(n);
  }

  // ---- Sizes near 2^64 ----------------------------------------------------------

  /** std::stoull reads a minus sign and negates modulo 2^64. */
  lemma NegativeSize(d: nat)
    requires 0 < d < 16
    ensures ChunkSize(['-', DigitChar(d)]) == Some(SIZE_LIMIT - d)
  {
    ScanPrint(d, 16);
    var line := "-" + PrintNat(d, 16);
    assert line == ['-', DigitChar(d)];
    PlainSizeText(line);
  }

  lemma FindPair(s: string, from: nat, k: nat)
    requires from <= k && k + 1 < |s| && s[k] == '\r' && s[k + 1] == '\n'
    requires forall j | from <= j < k :: s[j] != '\r'
    ensures Find(s, CRLF, from) == Some(k)
  {
    assert CRLF == ['\r', '\n'];
    OccursPair(s, '\r', '\n', k);
    forall j | from <= j < k ensures !OccursAt(s, CRLF, j) {
      OccursPair(s, '\r', '\n', j);
    }
    var found := Find(s, CRLF, from);
    assert OccursAt(s, CRLF, k);
    assert found.Some? && found.value == k;
  }

  /** The wrapped sum for the size 2^64 - 1 is one more than the line itself: it waits for one byte, then fails. */
  lemma MinusOneWaits(c: char)
    ensures ReadHead("-1\r\n") == NeedMore
    ensures ReadHead("-1\r\n" + [c]) == Refused(TooLong)
  {
    var line := ['-', DigitChar(1)];
    assert DigitChar(1) == '1';
    NegativeSize(1);
    var short, long := "-1\r\n", "-1\r\n" + [c];
    FindPair(short, 0, 2);
    FindPair(long, 0, 2);
    assert short[..2] == line && long[..2] == line;
  }
}
