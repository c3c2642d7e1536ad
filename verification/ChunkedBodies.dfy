/**
 * The two decoders of whole chunked bodies: when they return, when they agree with one another, and
 * when they agree with the incremental loop.
 */
module ChunkedBodies {
  import opened Text
  import opened Numbers
  import opened SseStream
  import opened ChunkedTransfer

  // ---- One round of the loop -----------------------------------------------------

  datatype Frame = Bad | End | Data(start: nat, stop: nat, next: nat)

  /**
   * A chunk whose data start at `start` of a body of the given length: they reach to `stop`, and `next` is
   * the 64-bit sum of `start` and the size. When it wraps, append still clips at the end of the body and
   * the cursor goes back.
   */
  function FrameOf(start: nat, size: nat, length: nat): (f: Frame)
    requires start <= length
    ensures f.Data? ==> f.start == start <= f.stop <= length && f.next <= length
  {
    var next := (start + size) % SIZE_LIMIT;
    if size == 0 then End
    else if next > length then Bad
    else Data(start, if start + size <= length then start + size else length, next)
  }

  /** The chunk at `cursor`. */
  function ReadFrame(body: string, cursor: nat): (f: Frame)
    requires cursor <= |body|
    ensures f.Data? ==> cursor + 2 <= f.start <= f.stop <= |body| && f.next <= |body|
  {
    match Find(body, CRLF, cursor)
    case None => Bad
    case Some(end) =>
      match ChunkSize(body[cursor..end])
      case None => Bad
      case Some(size) => FrameOf(end + 2, size, |body|)
  }

  /** What the first so many rounds of the loop come to. */
  datatype Decoding = Decoded(text: string) | Rejected | Unfinished

  function Prepend(text: string, more: Decoding): Decoding {
    if more.Decoded? then Decoded(text + more.text) else more
  }

  /**
   * The whole-body decoders, from `cursor` on. The one of the agent client steps over two bytes after
   * each chunk unread; the one of the monitor proxy (`strict`) insists that they are the separator.
   */
  function DecodeFrom(body: string, cursor: nat, strict: bool, rounds: nat): Decoding
    decreases rounds
  {
    if cursor >= |body| then Decoded("")
    else if rounds == 0 then Unfinished
    else match ReadFrame(body, cursor)
      case Bad => Rejected
      case End => Decoded("")
      case Data(start, stop, next) =>
        if strict && !OccursAt(body, CRLF, next) then Rejected
        else Prepend(body[start..stop], DecodeFrom(body, next + 2, strict, rounds - 1))
  }

  /** A loop that has not ended after as many rounds as the body has bytes never will: EndsWithinLength. */
  function Decode(body: string, strict: bool): Decoding {
    DecodeFrom(body, 0, strict, |body|)
  }

  lemma PrependTwice(a: string, b: string, more: Decoding)
    ensures Prepend(a, Prepend(b, more)) == Prepend(a + b, more)
  {
    if more.Decoded? {
      assert a + (b + more.text) == (a + b) + more.text;
    }
  }

  lemma PrependNothing(more: Decoding)
    ensures Prepend("", more) == more
  {
    if more.Decoded? {
      assert "" + more.text == more.text;
    }
  }

  /** Both decoders are this loop over a cursor; `strict` adds the separator test of the second one. */
  method DecodeBody(body: string, strict: bool, rounds: nat) returns (decoded: Decoding)
    ensures decoded == DecodeFrom(body, 0, strict, rounds)
  {
    hide ReadFrame;
    var text := "";
    var cursor, left := 0, rounds;
    ghost var whole := DecodeFrom(body, 0, strict, rounds);
    PrependNothing(whole);
    while cursor < |body|
      invariant whole == Prepend(text, DecodeFrom(body, cursor, strict, left))
      decreases left
    {
      if left == 0 {
        return Unfinished;
      }
      match ReadFrame(body, cursor) {
        case Bad =>
          return Rejected;
        case End =>
          break;
        case Data(start, stop, next) =>
          if strict && !OccursAt(body, CRLF, next) {
            return Rejected;
          }
          PrependTwice(text, body[start..stop], DecodeFrom(body, next + 2, strict, left - 1));
          text := text + body[start..stop];
          cursor := next + 2;
          left := left - 1;
      }
    }
    assert text + "" == text;
    return Decoded(text);
  }

  lemma {:induction false} MoreRounds(body: string, cursor: nat, strict: bool, few: nat, many: nat)
    requires few <= many && !DecodeFrom(body, cursor, strict, few).Unfinished?
    ensures DecodeFrom(body, cursor, strict, many) == DecodeFrom(body, cursor, strict, few)
    decreases few
  {
    hide ReadFrame;
    if cursor < |body| && ReadFrame(body, cursor).Data? && few > 0 {
      var next := ReadFrame(body, cursor).next;
      if !(strict && !OccursAt(body, CRLF, next)) {
        MoreRounds(body, next + 2, strict, few - 1, many - 1);
      }
    }
  }

  // ---- Which bodies the loop never leaves -------------------------------------------

  function StepFrom(body: string, cursor: nat, strict: bool): Option<nat> {
    if cursor >= |body| then None
    else match ReadFrame(body, cursor)
      case Data(_, _, next) => if strict && !OccursAt(body, CRLF, next) then None else Some(next + 2)
      case _ => None
  }

  /** The cursor after so many rounds; None when the loop has ended before. */
  function CursorAfter(body: string, cursor: nat, strict: bool, rounds: nat): Option<nat>
    decreases rounds
  {
    if rounds == 0 then Some(cursor)
    else match StepFrom(body, cursor, strict)
      case None => None
      case Some(next) => CursorAfter(body, next, strict, rounds - 1)
  }

  predicate Running(body: string, cursor: nat, strict: bool, rounds: nat) {
    var at := CursorAfter(body, cursor, strict, rounds);
    at.Some? && at.value < |body|
  }

  lemma {:induction false} RunningIsUnfinished(body: string, cursor: nat, strict: bool, rounds: nat)
    ensures Running(body, cursor, strict, rounds) <==> DecodeFrom(body, cursor, strict, rounds).Unfinished?
    decreases rounds
  {
    hide ReadFrame;
    if rounds > 0 && StepFrom(body, cursor, strict).Some? {
      RunningIsUnfinished(body, StepFrom(body, cursor, strict).value, strict, rounds - 1);
    }
  }

  lemma RunningBefore(body: string, cursor: nat, strict: bool, few: nat, many: nat)
    requires few <= many && Running(body, cursor, strict, many)
    ensures Running(body, cursor, strict, few)
  {
    hide Running, DecodeFrom;
    RunningIsUnfinished(body, cursor, strict, few);
    RunningIsUnfinished(body, cursor, strict, many);
    if !DecodeFrom(body, cursor, strict, few).Unfinished? {
      MoreRounds(body, cursor, strict, few, many);
    }
  }

  lemma {:induction false} CursorInTwo(body: string, cursor: nat, strict: bool, j: nat, k: nat)
    requires CursorAfter(body, cursor, strict, j).Some?
    ensures CursorAfter(body, cursor, strict, j + k)
         == CursorAfter(body, CursorAfter(body, cursor, strict, j).value, strict, k)
    decreases j
  {
    hide StepFrom;
    if j > 0 {
      CursorInTwo(body, StepFrom(body, cursor, strict).value, strict, j - 1, k);
    }
  }

  lemma {:induction false} RunsOn(body: string, cursor: nat, strict: bool, period: nat, rounds: nat)
    requires period > 0 && cursor < |body| && CursorAfter(body, cursor, strict, period) == Some(cursor)
    ensures Running(body, cursor, strict, rounds)
    decreases rounds
  {
    hide CursorAfter;
    if rounds <= period {
      RunningBefore(body, cursor, strict, rounds, period);
    } else {
      RunsOn(body, cursor, strict, period, rounds - period);
      CursorInTwo(body, cursor, strict, period, rounds - period);
    }
  }

  /** The cursor comes back to a place inside the body where it was before. */
  ghost predicate Recurs(body: string, strict: bool) {
    exists i: nat, j: nat :: i < j && Running(body, 0, strict, i)
                             && CursorAfter(body, 0, strict, i) == CursorAfter(body, 0, strict, j)
  }

  lemma {:induction false} DistinctFit(xs: seq<nat>, n: nat)
    requires forall i | 0 <= i < |xs| :: xs[i] < n
    requires forall i, j | 0 <= i < j < |xs| :: xs[i] != xs[j]
    ensures |xs| <= n
  {
    assert |xs| > 0 ==> xs[0] < n;
    if n > 0 {
      if i :| 0 <= i < |xs| && xs[i] == n - 1 {
        DistinctFit(xs[..i] + xs[i + 1..], n - 1);
      } else {
        DistinctFit(xs, n - 1);
      }
    }
  }

  lemma Pigeonhole(xs: seq<nat>, n: nat) returns (i: nat, j: nat)
    requires |xs| > n && forall k | 0 <= k < |xs| :: xs[k] < n
    ensures i < j < |xs| && xs[i] == xs[j]
  {
    if forall i, j | 0 <= i < j < |xs| :: xs[i] != xs[j] {
      DistinctFit(xs, n);
    }
    i, j :| 0 <= i < j < |xs| && xs[i] == xs[j];
  }

  /** The cursors of the first so many rounds of a loop that is still running after them. */
  lemma {:induction false} Cursors(body: string, strict: bool, n: nat) returns (xs: seq<nat>)
    requires n > 0 ==> Running(body, 0, strict, n - 1)
    ensures |xs| == n && forall k | 0 <= k < n :: xs[k] < |body| && CursorAfter(body, 0, strict, k) == Some(xs[k])
  {
    hide CursorAfter;
    xs := [];
    if n > 0 {
      if n > 1 {
        RunningBefore(body, 0, strict, n - 2, n - 1);
      }
      var less := Cursors(body, strict, n - 1);
      xs := less + [CursorAfter(body, 0, strict, n - 1).value];
    }
  }

  lemma RecursForever(body: string, strict: bool, rounds: nat)
    requires Recurs(body, strict)
    ensures Running(body, 0, strict, rounds)
  {
    hide CursorAfter;
    var i: nat, j: nat :| i < j && Running(body, 0, strict, i)
                          && CursorAfter(body, 0, strict, i) == CursorAfter(body, 0, strict, j);
    var cursor := CursorAfter(body, 0, strict, i).value;
    CursorInTwo(body, 0, strict, i, j - i);
    if rounds <= i {
      RunningBefore(body, 0, strict, rounds, i);
    } else {
      RunsOn(body, cursor, strict, j - i, rounds - i);
      CursorInTwo(body, 0, strict, i, rounds - i);
    }
  }

  /**
   * A decoder either ends within as many rounds as the body has bytes, or its cursor recurs and it never
   * ends.
   */
  lemma EndsWithinLength(body: string, strict: bool)
    ensures Decode(body, strict).Unfinished? <==> Recurs(body, strict)
    ensures Decode(body, strict).Unfinished? <==>
            forall rounds: nat :: DecodeFrom(body, 0, strict, rounds).Unfinished?
  {
    hide DecodeFrom, CursorAfter;
    RunningIsUnfinished(body, 0, strict, |body|);
    if Running(body, 0, strict, |body|) {
      var xs := Cursors(body, strict, |body| + 1);
      var i, j := Pigeonhole(xs, |body|);
      RunningBefore(body, 0, strict, i, |body|);
    }
    if Recurs(body, strict) {
      forall rounds: nat ensures DecodeFrom(body, 0, strict, rounds).Unfinished? {
        RecursForever(body, strict, rounds);
        RunningIsUnfinished(body, 0, strict, rounds);
      }
    }
  }

  // ---- The strict and the lax decoder ------------------------------------------------

  /** Every chunk that the lax decoder reads is followed by the separator. */
  predicate Separated(body: string, cursor: nat, rounds: nat)
    decreases rounds
  {
    if cursor >= |body| || rounds == 0 then true
    else match ReadFrame(body, cursor)
      case Data(_, _, next) => OccursAt(body, CRLF, next) && Separated(body, next + 2, rounds - 1)
      case _ => true
  }

  /** The strict decoder does what the lax one does, or rejects, and which of the two the separators decide. */
  lemma {:induction false} StrictIsSeparatedLax(body: string, cursor: nat, rounds: nat)
    ensures DecodeFrom(body, cursor, true, rounds) ==
            if Separated(body, cursor, rounds) then DecodeFrom(body, cursor, false, rounds) else Rejected
    decreases rounds
  {
    hide ReadFrame;
    if cursor < |body| && rounds > 0 && ReadFrame(body, cursor).Data? {
      StrictIsSeparatedLax(body, ReadFrame(body, cursor).next + 2, rounds - 1);
    }
  }

  /** Wherever the strict decoder succeeds the lax one returns the same bytes. */
  lemma LaxAgreesWithStrict(body: string)
    requires Decode(body, true).Decoded?
    ensures Decode(body, false) == Decode(body, true)
  {
    StrictIsSeparatedLax(body, 0, |body|);
  }

  /** Of the bodies the lax decoder accepts, the strict one accepts exactly those with every separator in place. */
  lemma StrictAcceptsExactly(body: string)
    requires Decode(body, false).Decoded?
    ensures Decode(body, true).Decoded? <==> Separated(body, 0, |body|)
  {
    StrictIsSeparatedLax(body, 0, |body|);
  }

  /** Not all are: the lax decoder accepts a chunk that nothing terminates. */
  lemma LaxAcceptsMore()
    ensures Decode("1\r\na", false).Decoded? && Decode("1\r\na", true).Rejected?
  {
    var body := "1\r\na";
    FindPair(body, 0, 1);
    assert body[0..1] == PrintNat(1, 16);
    PlainSizeLine(1);
    hide ChunkSize;
    assert ReadFrame(body, 0) == Data(3, 4, 4);
    assert !OccursAt(body, CRLF, 4);
  }

  // ---- Straight bodies -----------------------------------------------------------------

  /** No chunk that the strict decoder reads from `cursor` on makes the 64-bit sum wrap. */
  predicate Straight(body: string, cursor: nat)
    decreases |body| - cursor
  {
    if cursor >= |body| then true
    else match ReadFrame(body, cursor)
      case Data(start, _, next) => start <= next && Straight(body, next + 2)
      case _ => true
  }

  /** The payload of the chunks before the first whose sum wraps. */
  function Lead(body: string, cursor: nat): string
    decreases |body| - cursor
  {
    if cursor >= |body| then ""
    else match ReadFrame(body, cursor)
      case Data(start, stop, next) => if start <= next then body[start..stop] + Lead(body, next + 2) else ""
      case _ => ""
  }

  lemma FrameWraps(start: nat, size: nat, length: nat)
    requires start <= length < SIZE_LIMIT && size < SIZE_LIMIT && FrameOf(start, size, length).Data?
    ensures var f := FrameOf(start, size, length);
            && (f.next < start <==> start + size >= SIZE_LIMIT)
            && (start <= f.next ==> f.next == f.stop == start + size)
  {
  }

  /** In terms of the size written on the line: wrapping is reaching 2^64, and without it the chunk is whole. */
  lemma WrapsExactly(body: string, cursor: nat, end: nat, size: nat)
    requires cursor <= end <= |body| < SIZE_LIMIT
    requires Find(body, CRLF, cursor) == Some(end) && ChunkSize(body[cursor..end]) == Some(size)
    requires ReadFrame(body, cursor).Data?
    ensures var f := ReadFrame(body, cursor);
            && f.start == end + 2
            && (f.next < f.start <==> f.start + size >= SIZE_LIMIT)
            && (f.start <= f.next ==> f.next == f.stop == f.start + size)
  {
    hide ChunkSize, FrameOf, Find;
    FrameWraps(end + 2, size, |body|);
  }

  lemma {:induction false} LeadIsPrefix(body: string, cursor: nat, strict: bool, rounds: nat)
    requires DecodeFrom(body, cursor, strict, rounds).Decoded?
    ensures var text := DecodeFrom(body, cursor, strict, rounds).text;
            Lead(body, cursor) <= text && (Straight(body, cursor) ==> Lead(body, cursor) == text)
    decreases rounds
  {
    hide ReadFrame;
    if cursor < |body| && ReadFrame(body, cursor).Data? {
      LeadIsPrefix(body, ReadFrame(body, cursor).next + 2, strict, rounds - 1);
    }
  }

  /** Straight bodies are never looped over. */
  lemma {:induction false} StraightEnds(body: string, cursor: nat, strict: bool, rounds: nat)
    requires Straight(body, cursor) && |body| <= cursor + rounds
    ensures !DecodeFrom(body, cursor, strict, rounds).Unfinished?
    decreases rounds
  {
    hide ReadFrame;
    if cursor < |body| && ReadFrame(body, cursor).Data? {
      StraightEnds(body, ReadFrame(body, cursor).next + 2, strict, rounds - 1);
    }
  }

  lemma FrameInSuffix(body: string, from: nat, cursor: nat)
    requires from + cursor <= |body| < SIZE_LIMIT
    requires ReadFrame(body[from..], cursor).Data? ==>
               ReadFrame(body[from..], cursor).start <= ReadFrame(body[from..], cursor).next
    requires !ReadFrame(body[from..], cursor).Bad?
    ensures var f, g := ReadFrame(body[from..], cursor), ReadFrame(body, from + cursor);
            && (f.End? ==> g.End?)
            && (f.Data? ==> g == Data(f.start + from, f.stop + from, f.next + from))
  {
    hide ChunkSize, Find, FrameOf;
    FindInSuffix(body, CRLF, from + cursor);
    FindInSuffix(body[from..], CRLF, cursor);
    assert body[from..][cursor..] == body[from + cursor..];
    var end := Find(body[from..], CRLF, cursor).value;
    var line := body[from..][cursor..end];
    assert line == body[from + cursor..from + end];
    FrameShift(end + 2, ChunkSize(line).value, |body| - from, from);
  }

  lemma FrameShift(start: nat, size: nat, length: nat, from: nat)
    requires start <= length && length + from < SIZE_LIMIT && size < SIZE_LIMIT
    ensures var f, g := FrameOf(start, size, length), FrameOf(start + from, size, length + from);
            && (f.End? ==> g.End?)
            && (f.Data? && start <= f.next ==> g == Data(start + from, f.stop + from, f.next + from))
  {
  }

  /** A straight, accepted rest is decoded in place as it is on its own. */
  lemma {:induction false} InSuffix(body: string, from: nat, cursor: nat, rounds: nat)
    requires from <= |body| < SIZE_LIMIT && cursor <= |body| - from
    requires Straight(body[from..], cursor) && DecodeFrom(body[from..], cursor, true, rounds).Decoded?
    ensures Straight(body, from + cursor)
    ensures DecodeFrom(body, from + cursor, true, rounds) == DecodeFrom(body[from..], cursor, true, rounds)
    decreases rounds
  {
    hide ReadFrame, OccursAt;
    var rest := body[from..];
    if cursor < |rest| {
      FrameInSuffix(body, from, cursor);
      match ReadFrame(rest, cursor)
      case Data(start, stop, next) =>
        OccursInSuffix(body, CRLF, from, next);
        OccursInside(rest, next);
        SliceOfRest(body, from, start, stop);
        InSuffix(body, from, next + 2, rounds - 1);
      case _ =>
    }
  }

  lemma OnlyWrapsLoop(body: string, strict: bool)
    requires Straight(body, 0)
    ensures !Decode(body, strict).Unfinished?
  {
    StraightEnds(body, 0, strict, |body|);
  }

  // ---- The incremental loop on the same bytes --------------------------------------------

  /** The loop has consumed everything up to the closing chunk, or all there is. */
  predicate AtEnd(chunk: string) {
    chunk == "" || ReadFrame(chunk, 0).End?
  }

  /** The loop delivers this payload: the same events, and no chunk is left over unless they end the stream. */
  predicate Delivers(p: Stream, s: Sse, text: string, json: Json) {
    && p.refused.None? && Agree(p.sse, Feed(s, text, json))
    && (p.sse.failure.None? ==> AtEnd(p.chunk))
  }

  lemma CrlfInSuffix(body: string, c: nat)
    requires c <= |body|
    ensures match Find(body, CRLF, c) {
              case None => Find(body[c..], CRLF, 0).None?
              case Some(end) => Find(body[c..], CRLF, 0) == Some(end - c) && body[c..][..end - c] == body[c..end]
                                && body[c..][0..end - c] == body[c..end]
            }
  {
    FindInSuffix(body, CRLF, c);
    hide Find;
    var at := Find(body[c..], CRLF, 0);
    if at.Some? {
      SliceOfRest(body, c, 0, at.value);
      assert body[c..][..at.value] == body[c..][0..at.value];
    }
  }

  lemma SliceOfRest(body: string, from: nat, start: nat, stop: nat)
    requires start <= stop && from + stop <= |body|
    ensures body[from..][start..stop] == body[from + start..from + stop]
  {
  }

  lemma HeadOfSize(end: nat, size: nat, length: nat, c: nat)
    requires c <= end && end + 2 <= length && length + 4 < SIZE_LIMIT && size < SIZE_LIMIT
    ensures match FrameOf(end + 2, size, length) {
              case Bad => true
              case End => size == 0 && HeadOf(end - c, size, length - c) in {NeedMore, Last}
              case Data(start, stop, next) =>
                if start <= next then next + 2 <= length ==> HeadOf(end - c, size, length - c) == Chunk(start - c, next - start)
                else size != 0 && HeadOf(end - c, size, length - c) in {NeedMore, Refused(TooLong)}
            }
  {
  }

  /** How the loop sees the chunk at `c`, where its buffer starts: a wrapped sum never makes a chunk. */
  lemma HeadOfFrame(body: string, c: nat)
    requires c <= |body| && |body| + 4 < SIZE_LIMIT
    ensures match ReadFrame(body, c) {
              case Bad => true
              case End => ReadFrame(body[c..], 0).End? && ReadHead(body[c..]) in {NeedMore, Last}
              case Data(start, stop, next) =>
                if start <= next then c <= start && (next + 2 <= |body| ==> ReadHead(body[c..]) == Chunk(start - c, next - start))
                else !ReadFrame(body[c..], 0).End? && ReadHead(body[c..]) in {NeedMore, Refused(TooLong)}
            }
  {
    hide ChunkSize, Find, FrameOf, HeadOf;
    CrlfInSuffix(body, c);
    if Find(body, CRLF, c).Some? {
      var end := Find(body, CRLF, c).value;
      if ChunkSize(body[c..end]).Some? {
        var size := ChunkSize(body[c..end]).value;
        HeadOfSize(end, size, |body|, c);
        EndOf(end - c + 2, size, |body| - c);
        EndOf(end + 2, size, |body|);
      }
    }
  }

  lemma EndOf(start: nat, size: nat, length: nat)
    requires start <= length
    ensures FrameOf(start, size, length).End? <==> size == 0
  {
  }

  /** Where the loop stands when it has done what it can with a body the strict decoder accepts. */
  predicate Followed(p: Stream, s: Stream, body: string, c: nat, json: Json)
    requires c <= |body|
  {
    && Agree(p.sse, Feed(s.sse, Lead(body, c), json))
    && (p.sse.failure.Some? ==> p.refused.None? && !p.finished)
    && (p.sse.failure.None? ==>
          if Straight(body, c) then p.refused.None? && AtEnd(p.chunk) && p.finished == Complete(body[c..])
          else !AtEnd(p.chunk) && !p.finished)
  }

  lemma {:induction false} PumpFollows(s: Stream, body: string, c: nat, rounds: nat, json: Json)
    requires c <= |body| && |body| + 4 < SIZE_LIMIT && s.chunk == body[c..]
    requires !s.Stopped() && Settled(s.sse)
    requires DecodeFrom(body, c, true, rounds).Decoded?
    ensures Followed(Pump(s, json), s, body, c, json)
    decreases |body| - c
  {
    hide ReadFrame, ReadHead, Feed, Pump, Complete, Find;
    if c == |body| || !ReadFrame(body, c).Data? || ReadFrame(body, c).next < ReadFrame(body, c).start {
      PumpRests(s, body, c, rounds, json);
    } else {
      var f := ReadFrame(body, c);
      var data := body[f.start..f.stop];
      OccursInside(body, f.next);
      WholeChunk(body, c);
      HeadOfFrame(body, c);
      PumpTakesChunk(s, json);
      var taken := TakeChunk(s, f.start - c, f.next - f.start, json);
      RestOfRest(body, c, f.start, f.stop);
      if taken.sse.failure.None? {
        FeedLeavesNoBlock(s.sse, data, json);
        PumpFollows(taken, body, f.next + 2, rounds - 1, json);
      } else {
        FeedAfterFailure(taken.sse, Lead(body, f.next + 2), json);
        PumpStopped(taken, json);
      }
      FeedInTwo(s.sse, data, Lead(body, f.next + 2), Pump(taken, json).sse, json);
    }
  }

  lemma RestOfRest(body: string, c: nat, start: nat, stop: nat)
    requires c <= start <= stop && stop + 2 <= |body|
    ensures body[c..][start - c..stop - c] == body[start..stop]
    ensures body[c..][stop - c + 2..] == body[stop + 2..]
  {
  }

  lemma OccursInside(body: string, k: nat)
    ensures OccursAt(body, CRLF, k) ==> k + 2 <= |body|
  {
  }

  lemma WholeChunk(body: string, c: nat)
    requires c <= |body| < SIZE_LIMIT && ReadFrame(body, c).Data? && ReadFrame(body, c).start <= ReadFrame(body, c).next
    ensures ReadFrame(body, c).stop == ReadFrame(body, c).next
  {
    hide ChunkSize, FrameOf, Find;
    var end := Find(body, CRLF, c).value;
    WrapsExactly(body, c, end, ChunkSize(body[c..end]).value);
  }

  lemma PumpRests(s: Stream, body: string, c: nat, rounds: nat, json: Json)
    requires c <= |body| && |body| + 4 < SIZE_LIMIT && s.chunk == body[c..]
    requires !s.Stopped() && Settled(s.sse) && DecodeFrom(body, c, true, rounds).Decoded?
    requires c == |body| || !ReadFrame(body, c).Data? || ReadFrame(body, c).next < ReadFrame(body, c).start
    ensures Followed(Pump(s, json), s, body, c, json)
  {
    FeedNothing(s.sse, json);
    hide Feed;
    if c == |body| {
      assert s.chunk == "";
      assert Find("", CRLF, 0).None?;
    } else {
      HeadOfFrame(body, c);
      hide ReadFrame, ReadHead;
      assert Lead(body, c) == "";
    }
  }

  /**
   * On a body that the strict decoder accepts and that fits in memory, the incremental loop delivers the
   * same payload if and only if no chunk size wraps the sum, or the events before the first that does
   * end the stream; and then it finishes exactly when the closing chunk has arrived whole.
   */
  lemma PumpAgreesWithStrict(s: Stream, json: Json)
    requires !s.Stopped() && Settled(s.sse) && |s.chunk| + 4 < SIZE_LIMIT
    requires Decode(s.chunk, true).Decoded?
    ensures Delivers(Pump(s, json), s.sse, Decode(s.chunk, true).text, json) <==>
            Straight(s.chunk, 0) || Feed(s.sse, Lead(s.chunk, 0), json).failure.Some?
    ensures Straight(s.chunk, 0) && Pump(s, json).sse.failure.None? ==> Pump(s, json).finished == Complete(s.chunk)
  {
    var body, text := s.chunk, Decode(s.chunk, true).text;
    var lead := Lead(body, 0);
    assert body[0..] == body;
    PumpFollows(s, body, 0, |body|, json);
    LeadIsPrefix(body, 0, true, |body|);
    hide Pump, Feed, Lead, Straight, DecodeFrom, AtEnd;
    assert text == lead + text[|lead|..];
    FeedSegmentation(s.sse, lead, text[|lead|..], json);
    if Feed(s.sse, lead, json).failure.Some? {
      FeedAfterFailure(Feed(s.sse, lead, json), text[|lead|..], json);
    }
  }

  // ---- Two bodies with wrapped sums ---------------------------------------------------------

  lemma FrameOnLine(body: string, cursor: nat, end: nat, line: string, size: nat)
    requires cursor <= end && end + 1 < |body| && body[end] == '\r' && body[end + 1] == '\n'
    requires body[cursor..end] == line && '\r' !in line && ChunkSize(line) == Some(size)
    ensures ReadFrame(body, cursor) == FrameOf(end + 2, size, |body|)
  {
    forall j | cursor <= j < end ensures body[j] != '\r' {
      assert body[j] == line[j - cursor];
    }
    FindPair(body, cursor, end);
    hide Find, FrameOf, ChunkSize;
  }

  lemma SizeLines()
    ensures ChunkSize("0") == Some(0) && ChunkSize("1") == Some(1)
    ensures ChunkSize("-2") == Some(SIZE_LIMIT - 2) && ChunkSize("-6") == Some(SIZE_LIMIT - 6)
  {
    PlainSizeLine(0);
    PlainSizeLine(1);
    NegativeSize(2);
    NegativeSize(6);
    hide ChunkSize;
    assert PrintNat(0, 16) == "0" && PrintNat(1, 16) == "1";
    assert ['-', DigitChar(2)] == "-2" && ['-', DigitChar(6)] == "-6";
  }

  lemma WrappingFrames(body: string, minus: string, zero: string)
    requires |body| == 7 && body[0..2] == minus && body[4..5] == zero && '\r' !in minus && '\r' !in zero
    requires body[2] == body[5] == '\r' && body[3] == body[6] == '\n'
    requires ChunkSize(minus) == Some(SIZE_LIMIT - 2) && ChunkSize(zero) == Some(0)
    ensures ReadFrame(body, 0) == Data(4, 7, 2) && ReadFrame(body, 4) == End && OccursAt(body, CRLF, 2)
    ensures ReadHead(body) == Refused(TooLong)
  {
    hide ChunkSize, Find, ReadFrame;
    OccursPair(body, '\r', '\n', 2);
    hide OccursAt;
    FrameOnLine(body, 0, 2, minus, SIZE_LIMIT - 2);
    FrameOnLine(body, 4, 5, zero, 0);
    assert forall j | 0 <= j < 2 :: body[j] == minus[j];
    FindPair(body, 0, 2);
    assert body[..2] == body[0..2];
  }

  lemma WrappingBody(body: string)
    requires body == "-2\r\n0\r\n"
    ensures body[0..2] == "-2" && body[4..5] == "0" && body[4..7] + "" == "0\r\n"
    ensures |body| == 7 && body[2] == body[5] == '\r' && body[3] == body[6] == '\n'
    ensures '\r' !in body[0..2] && '\r' !in body[4..5]
  {
  }

  /** The strict decoder accepts this body, with its last three bytes as payload; the loop throws at once. */
  lemma AcceptedByWrapping(body: string, json: Json)
    requires body == "-2\r\n0\r\n"
    ensures Decode(body, true) == Decoded("0\r\n")
    ensures Pump(Stream(body, false, None, START), json) == Stream(body, false, Some(TooLong), START)
  {
    WrappingBody(body);
    SizeLines();
    hide ChunkSize, ReadFrame, ReadHead, OccursAt, Find;
    WrappingFrames(body, body[0..2], body[4..5]);
    DecodesBack(body);
  }

  lemma DecodesBack(body: string)
    requires |body| == 7 && ReadFrame(body, 0) == Data(4, 7, 2) && ReadFrame(body, 4) == End && OccursAt(body, CRLF, 2)
    ensures Decode(body, true) == Decoded(body[4..7] + "")
  {
    hide ReadFrame, OccursAt;
    assert DecodeFrom(body, 4, true, 6) == Decoded("");
  }

  lemma EndlessFrames(body: string, one: string, minus: string)
    requires |body| == 10 && body[0..1] == one && body[6..8] == minus && '\r' !in one && '\r' !in minus
    requires body[1] == body[4] == body[8] == '\r' && body[2] == body[5] == body[9] == '\n'
    requires ChunkSize(one) == Some(1) && ChunkSize(minus) == Some(SIZE_LIMIT - 6)
    ensures ReadFrame(body, 0) == Data(3, 4, 4) && ReadFrame(body, 6) == Data(10, 10, 4) && OccursAt(body, CRLF, 4)
  {
    hide ChunkSize, Find, ReadFrame;
    OccursPair(body, '\r', '\n', 4);
    hide OccursAt;
    FrameOnLine(body, 0, 1, one, 1);
    FrameOnLine(body, 6, 8, minus, SIZE_LIMIT - 6);
  }

  lemma EndlessText(body: string)
    requires body == "1\r\na\r\n-6\r\n"
    ensures body[0..1] == "1" && body[6..8] == "-6"
    ensures |body| == 10 && body[1] == body[4] == body[8] == '\r' && body[2] == body[5] == body[9] == '\n'
    ensures '\r' !in body[0..1] && '\r' !in body[6..8]
  {
  }

  /** Neither decoder ever returns from this one: from position 6 the cursor goes back to position 6. */
  lemma EndlessBody(body: string, strict: bool, rounds: nat)
    requires body == "1\r\na\r\n-6\r\n"
    ensures DecodeFrom(body, 0, strict, rounds).Unfinished?
  {
    EndlessText(body);
    SizeLines();
    hide ChunkSize, ReadFrame, OccursAt, Find;
    EndlessFrames(body, body[0..1], body[6..8]);
    BackToSix(body, strict, rounds);
  }

  lemma BackToSix(body: string, strict: bool, rounds: nat)
    requires |body| == 10 && ReadFrame(body, 0) == Data(3, 4, 4) && ReadFrame(body, 6) == Data(10, 10, 4)
    requires OccursAt(body, CRLF, 4)
    ensures DecodeFrom(body, 0, strict, rounds).Unfinished?
  {
    hide ReadFrame, OccursAt;
    assert CursorAfter(body, 6, strict, 1) == Some(6);
    if rounds > 0 {
      RunsOn(body, 6, strict, 1, rounds - 1);
    }
    RunningIsUnfinished(body, 0, strict, rounds);
  }
}
