/** How a streamed answer can fail: by an event that says so, by a chunk line without a size, or by an early end. */
module AgentFailures {
  import opened Text
  import opened Numbers
  import opened SseStream
  import opened ChunkedTransfer
  import opened ChunkedBodies
  import opened AgentStream

  // ---- Which coding ------------------------------------------------------

  const CHUNKED_FIELD := "transfer-encoding: chunked"

  predicate SameLetter(a: char, b: char) {
    || a == b
    || ('a' <= a <= 'z' && b as int == a as int - 32)
    || ('A' <= a <= 'Z' && b as int == a as int + 32)
  }

  predicate SameButCase(x: string, y: string) {
    |x| == |y| && forall i | 0 <= i < |x| :: SameLetter(x[i], y[i])
  }

  predicate FieldAt(header: string, i: nat) {
    i + |CHUNKED_FIELD| <= |header| && SameButCase(header[i..i + |CHUNKED_FIELD|], CHUNKED_FIELD)
  }

  lemma LowerIsSame(c: char, small: char)
    requires !('A' <= small <= 'Z')
    ensures ToLower(c) == small <==> SameLetter(c, small)
  {
  }

  lemma FieldOccurs(header: string, i: nat)
    ensures OccursAt(Lower(header), CHUNKED_FIELD, i) <==> FieldAt(header, i)
  {
    var n := |CHUNKED_FIELD|;
    if i + n <= |header| {
      var part := header[i..i + n];
      assert Lower(header)[i..i + n] == Lower(part);
      forall k | 0 <= k < n ensures ToLower(part[k]) == CHUNKED_FIELD[k] <==> SameLetter(part[k], CHUNKED_FIELD[k]) {
        LowerIsSame(part[k], CHUNKED_FIELD[k]);
      }
      hide ToLower, SameLetter;
      assert OccursAt(Lower(header), CHUNKED_FIELD, i) <==> Lower(part) == CHUNKED_FIELD;
    }
  }

  /** The chunked loop is taken exactly if the field stands in the head, in whatever case. */
  lemma ChunkedExactly(header: string)
    ensures IsChunked(header) <==> exists i: nat :: FieldAt(header, i)
  {
    if i: nat :| FieldAt(header, i) {
      FieldOccurs(header, i);
    }
    if IsChunked(header) {
      FieldOccurs(header, Find(Lower(header), CHUNKED_FIELD, 0).value);
    }
  }

  // ---- A fatal event -----------------------------------------------------

  /** A fatal event among them is the last one reported, and the call throws what it says. */
  lemma StreamFails(
      es: seq<Event>, fatal: Event, how: Failure, rest: string, header: string, chunks: seq<WireChunk>, last: string,
      trailer: string, pieces: seq<string>, closed: bool, json: Json)
    requires forall e | e in es :: Printable(e, json)
    requires Framed(fatal) && Fatal(fatal, json, how)
    requires Payload(chunks) == PrintAll(es) + Print(fatal) + rest
    requires forall c | c in chunks :: c.Valid() && c.data != ""
    requires WireChunk(last, "").Valid() && |trailer| >= 2
    requires |Encode(chunks, last, trailer)| + 4 < SIZE_LIMIT
    requires Find(header + HEAD_END, HEAD_END, 0) == Some(|header|) && IsChunked(header)
    requires Concat(pieces) == header + HEAD_END + Encode(chunks, last, trailer)
    ensures var c := RecvAll(Header(""), pieces, json);
            Reported(c).events == es + [fatal] && Conclude(c, closed) == Failed(how)
  {
    hide Feed, RecvAll, Encode, Payload, Concat, IsChunked, Fatal, Framed, Print, PrintAll;
    ChunkedResponse(header, chunks, last, trailer, pieces, json);
    FatalRoundTrip(es, fatal, how, rest, json);
  }

  lemma PlainFails(
      es: seq<Event>, fatal: Event, how: Failure, rest: string, header: string, pieces: seq<string>, closed: bool, json: Json)
    requires forall e | e in es :: Printable(e, json)
    requires Framed(fatal) && Fatal(fatal, json, how)
    requires Find(header + HEAD_END, HEAD_END, 0) == Some(|header|) && !IsChunked(header)
    requires Concat(pieces) == header + HEAD_END + (PrintAll(es) + Print(fatal) + rest)
    ensures var c := RecvAll(Header(""), pieces, json);
            Reported(c).events == es + [fatal] && Conclude(c, closed) == Failed(how)
  {
    hide Feed, RecvAll, Concat, IsChunked, Fatal, Framed, Print, PrintAll;
    PlainResponse(PrintAll(es) + Print(fatal) + rest, header, pieces, json);
    FatalRoundTrip(es, fatal, how, rest, json);
  }

  // ---- A chunk line without a size ------------------------------------------

  function Wire(chunks: seq<WireChunk>): string {
    if chunks == [] then "" else chunks[0].Bytes() + Wire(chunks[1..])
  }

  /** Whole chunks in front of anything: the loop feeds their payload and goes on with the rest. */
  lemma {:induction false} PumpChunks(chunks: seq<WireChunk>, rest: string, sse: Sse, json: Json)
    requires forall c | c in chunks :: c.Valid() && c.data != ""
    requires |Wire(chunks) + rest| + 4 < SIZE_LIMIT && sse.failure.None? && Settled(sse)
    ensures var p, fed := Pump(Stream(Wire(chunks) + rest, false, None, sse), json), Feed(sse, Payload(chunks), json);
            if fed.failure.Some? then p.sse.failure.Some? && Agree(p.sse, fed) && p.refused.None?
            else p == Pump(Stream(rest, false, None, fed), json)
    decreases |chunks|
  {
    hide Feed, ChunkSize, FrameOf, ReadHead, ReadFrame, Settled, Pump;
    if chunks == [] {
      FeedNothing(sse, json);
      assert "" + rest == rest;
    } else {
      var c, tail, more := chunks[0], Wire(chunks[1..]) + rest, Payload(chunks[1..]);
      assert c in chunks;
      assert Wire(chunks) + rest == c.Bytes() + tail;
      FirstChunk(c, tail, sse, json);
      FeedLeavesNoBlock(sse, c.data, json);
      FedInTwo(sse, c.data, more, json);
      var next := Feed(sse, c.data, json);
      if next.failure.None? {
        PumpChunks(chunks[1..], rest, next, json);
      }
    }
  }

  lemma FirstChunk(c: WireChunk, tail: string, sse: Sse, json: Json)
    requires c.Valid() && c.data != "" && |c.Bytes() + tail| + 4 < SIZE_LIMIT && sse.failure.None?
    ensures var p, next := Pump(Stream(c.Bytes() + tail, false, None, sse), json), Feed(sse, c.data, json);
            if next.failure.Some? then p.sse == next && p.refused.None?
            else p == Pump(Stream(tail, false, None, next), json)
  {
    var body, start := c.Bytes() + tail, |c.line| + 2;
    ChunkFrame(c, tail);
    HeadOfFrame(body, 0);
    assert body[0..] == body;
    hide Feed, ReadHead, ReadFrame, ChunkSize;
    assert ReadHead(body) == Chunk(start, |c.data|);
    assert body[start..start + |c.data|] == c.data && body[start + |c.data| + 2..] == tail;
  }

  lemma FedInTwo(sse: Sse, a: string, b: string, json: Json)
    ensures var once, next := Feed(sse, a + b, json), Feed(sse, a, json);
            if next.failure.Some? then once.failure.Some? && Agree(next, once)
            else Agree(once, Feed(next, b, json)) && (once.failure.None? ==> once == Feed(next, b, json))
  {
    FeedSegmentation(sse, a, b, json);
    var next := Feed(sse, a, json);
    if next.failure.Some? {
      FeedAfterFailure(next, b, json);
    }
    hide Feed;
  }

  /** A line that reads as no number ends the call, after the events of the chunks before it. */
  lemma BadSizeFails(
      es: seq<Event>, header: string, chunks: seq<WireChunk>, line: string, rest: string, pieces: seq<string>,
      closed: bool, json: Json)
    requires forall e | e in es :: Printable(e, json)
    requires Payload(chunks) == PrintAll(es) && forall c | c in chunks :: c.Valid() && c.data != ""
    requires '\r' !in line && ChunkSize(line).None?
    requires |Wire(chunks) + (line + CRLF + rest)| + 4 < SIZE_LIMIT
    requires Find(header + HEAD_END, HEAD_END, 0) == Some(|header|) && IsChunked(header)
    requires Concat(pieces) == header + HEAD_END + (Wire(chunks) + (line + CRLF + rest))
    ensures var c := RecvAll(Header(""), pieces, json);
            Reported(c).events == es && Conclude(c, closed) == BadChunk(BadSize)
  {
    var body, end := Wire(chunks) + (line + CRLF + rest), line + CRLF + rest;
    ChunkedPieces(header, body, pieces, json);
    PumpChunks(chunks, end, START, json);
    SseRoundTrip(es, json);
    LineEnd(line, rest);
    hide Feed, ChunkSize, Wire, Find, RecvAll, Concat;
    assert ReadHead(end) == Refused(BadSize);
  }

  lemma ChunkedPieces(header: string, body: string, pieces: seq<string>, json: Json)
    requires Find(header + HEAD_END, HEAD_END, 0) == Some(|header|) && IsChunked(header)
    requires Concat(pieces) == header + HEAD_END + body
    ensures var c := RecvAll(Header(""), pieces, json);
            c.Chunked? && SameStream(c.stream, Pump(Stream(body, false, None, START), json))
  {
    hide Pump, IsChunked, SameStream;
    var bytes := header + HEAD_END + body;
    CutsDoNotMatter(Header(""), pieces, json);
    FindExtends(header + HEAD_END, body, HEAD_END);
    assert "" + bytes == bytes && bytes[..|header|] == header && bytes[|header| + 4..] == body;
  }

  /** Chunk extensions are skipped: whatever follows the first semicolon is not part of the size. */
  lemma ExtensionsAreSkipped(n: nat, extension: string)
    requires n < SIZE_LIMIT
    ensures ChunkSize(PrintNat(n, 16) + ";" + extension) == Some(n)
  {
    PlainSizeLine(n);
    PlainSizeText(PrintNat(n, 16));
    FirstSemicolon(PrintNat(n, 16), extension);
  }

  lemma FirstSemicolon(size: string, extension: string)
    requires ';' !in size
    ensures SizeText(size + ";" + extension) == size
  {
    var line := size + ";" + extension;
    assert line[|size|..|size| + 1] == ";";
    assert OccursAt(line, ";", |size|) && line[..|size|] == size;
    forall j | 0 <= j < |size| ensures !OccursAt(line, ";", j) {
      assert line[j] == size[j];
    }
  }

  // ---- An early end ---------------------------------------------------------

  /** Without a complete head the call reports nothing and says whether the peer closed or recv failed. */
  lemma NoHeadFails(pieces: seq<string>, closed: bool, json: Json)
    requires Find(Concat(pieces), HEAD_END, 0).None?
    ensures var c := RecvAll(Header(""), pieces, json);
            Reported(c).events == [] && Conclude(c, closed) == if closed then NoHeaders else RecvFailed
  {
    if pieces != [] {
      CutsDoNotMatter(Header(""), pieces, json);
      assert "" + Concat(pieces) == Concat(pieces);
    }
  }

  /**
   * When the chunked body ends early, after whole chunks and before the closing one, a close still gives the
   * last answer, or none, and a failed recv gives nothing.
   */
  lemma EarlyEnd(es: seq<Event>, header: string, chunks: seq<WireChunk>, pieces: seq<string>, closed: bool, json: Json)
    requires forall e | e in es :: Printable(e, json)
    requires Payload(chunks) == PrintAll(es) && forall c | c in chunks :: c.Valid() && c.data != ""
    requires |Wire(chunks)| + 4 < SIZE_LIMIT
    requires Find(header + HEAD_END, HEAD_END, 0) == Some(|header|) && IsChunked(header)
    requires Concat(pieces) == header + HEAD_END + Wire(chunks)
    ensures var c := RecvAll(Header(""), pieces, json);
            Reported(c).events == es
            && Conclude(c, closed) ==
                 if !closed then RecvFailed
                 else match LastDone(es, None) { case Some(data) => Answer(data) case None => NoAnswer }
  {
    ChunkedPieces(header, Wire(chunks), pieces, json);
    assert Wire(chunks) + "" == Wire(chunks);
    PumpChunks(chunks, "", START, json);
    SseRoundTrip(es, json);
    assert ReadHead("") == NeedMore;
    hide Feed, Wire, RecvAll, Concat, ReadHead;
  }
}
