/**
 * The length-prefixed frame codec of the Codex Desktop bridge.
 *
 * A frame is a little-endian 32-bit body length followed by the body.  The socket
 * delivers the byte stream in arbitrary pieces; the decoder keeps the unread bytes and,
 * once a header has been consumed, the length it announced.
 */
module DesktopFrames {
  import opened Common

  const FRAME_LIMIT := 0x1_0000_0000

  /** Exclusive bound of a little-endian number of the given width in bytes. */
  function Bound(width: nat): (limit: nat)
    ensures limit >= 1
  {
    if width == 0 then 1 else 256 * Bound(width - 1)
  }

  function WriteLE(n: nat, width: nat): (bytes: Bytes)
    requires n < Bound(width)
    ensures |bytes| == width
  {
    if width == 0 then [] else [(n % 256) as Byte] + WriteLE(n / 256, width - 1)
  }

  function ReadLE(bytes: Bytes, width: nat): (n: nat)
    requires |bytes| >= width
    ensures n < Bound(width)
  {
    if width == 0 then 0 else bytes[0] as int + 256 * ReadLE(bytes[1..], width - 1)
  }

  function WriteUInt32LE(n: nat): (header: Bytes)
    requires n < FRAME_LIMIT
    ensures |header| == 4
  {
    assert Bound(4) == 256 * (256 * (256 * 256));
    WriteLE(n, 4)
  }

  function ReadUInt32LE(bytes: Bytes): (n: nat)
    requires |bytes| >= 4
    ensures n < FRAME_LIMIT
  {
    assert Bound(4) == 256 * (256 * (256 * 256));
    ReadLE(bytes, 4)
  }

  function EncodeFrame(body: Bytes): Bytes
    requires |body| < FRAME_LIMIT
  {
    WriteUInt32LE(|body|) + body
  }

  predicate Encodable(bodies: seq<Bytes>) {
    forall i :: 0 <= i < |bodies| ==> |bodies[i]| < FRAME_LIMIT
  }

  function EncodeAll(bodies: seq<Bytes>): Bytes
    requires Encodable(bodies)
  {
    if bodies == [] then [] else EncodeFrame(bodies[0]) + EncodeAll(bodies[1..])
  }

  /** What the decoder remembers between two chunks. */
  datatype Rest = Rest(buffer: Bytes, next: Option<nat>)

  const FRESH := Rest([], None)

  /** The bytes a resting decoder has seen and not yet turned into a frame. */
  ghost function Unread(rest: Rest): Bytes
    requires rest.next.Some? ==> rest.next.value < FRAME_LIMIT
  {
    match rest.next
    case None => rest.buffer
    case Some(n) => WriteUInt32LE(n) + rest.buffer
  }

  /** Frames emitted by one call, what is left, and the body that failed to parse, if one did. */
  datatype Drained = Drained(frames: seq<Bytes>, rest: Rest, failed: Option<Bytes>)

  /**
   * The decode loop as a function.  A body that does not parse is consumed before the
   * parse error escapes, so it neither reaches a handler nor stays in the buffer.
   */
  function Drain(parses: Bytes -> bool, rest: Rest): Drained
    decreases |rest.buffer|, if rest.next.Some? then 1 else 0
  {
    match rest.next
    case None =>
      if |rest.buffer| < 4 then Drained([], rest, None)
      else Drain(parses, Rest(rest.buffer[4..], Some(ReadUInt32LE(rest.buffer))))
    case Some(n) =>
      if |rest.buffer| < n then Drained([], rest, None)
      else
        var body := rest.buffer[..n];
        var after := Rest(rest.buffer[n..], None);
        if !parses(body) then Drained([], after, Some(body))
        else
          Prepend([body], Drain(parses, after))
  }

  function Prepend(frames: seq<Bytes>, later: Drained): Drained {
    later.(frames := frames + later.frames)
  }

  function Receive(parses: Bytes -> bool, rest: Rest, data: Bytes): Drained {
    Drain(parses, rest.(buffer := rest.buffer + data))
  }

  /** Feeds chunks one after another; feeding stops at the first parse error. */
  function ReceiveAll(parses: Bytes -> bool, rest: Rest, chunks: seq<Bytes>): Drained
    decreases |chunks|
  {
    if chunks == [] then Drained([], rest, None)
    else
      var first := Receive(parses, rest, chunks[0]);
      if first.failed.Some? then first
      else
        Prepend(first.frames, ReceiveAll(parses, first.rest, chunks[1..]))
  }

  function Concat(chunks: seq<Bytes>): Bytes {
    if chunks == [] then [] else chunks[0] + Concat(chunks[1..])
  }

  /** A resting decoder: the loop has nothing more to do. */
  predicate Quiescent(rest: Rest) {
    match rest.next
    case None => |rest.buffer| < 4
    case Some(n) => |rest.buffer| < n < FRAME_LIMIT
  }

  class FrameDecoder {
    const parses: Bytes -> bool
    var readBuffer: Bytes
    var nextFrameLength: Option<nat>
    /** Bodies handed to the message handler, oldest first. */
    var handled: seq<Bytes>

    constructor (parses: Bytes -> bool)
      ensures this.parses == parses && State() == FRESH && handled == []
    {
      this.parses := parses;
      readBuffer, nextFrameLength, handled := [], None, [];
    }

    function State(): Rest
      reads this
    {
      Rest(readBuffer, nextFrameLength)
    }

    method HandleData(data: Bytes) returns (failed: Option<Bytes>)
      modifies this
      ensures State() == Receive(parses, old(State()), data).rest
      ensures handled == old(handled) + Receive(parses, old(State()), data).frames
      ensures failed == Receive(parses, old(State()), data).failed
    {
      readBuffer := readBuffer + data;
      ghost var goal := Drain(parses, State());
      ghost var emitted := [];
      while true
        invariant handled == old(handled) + emitted
        invariant goal == Prepend(emitted, Drain(parses, State()))
        decreases |readBuffer|, if nextFrameLength.Some? then 1 else 0
      {
        if nextFrameLength == None {
          if |readBuffer| < 4 {
            return None;
          }
          nextFrameLength := Some(ReadUInt32LE(readBuffer));
          readBuffer := readBuffer[4..];
        }
        if |readBuffer| < nextFrameLength.value {
          return None;
        }
        var frame := readBuffer[..nextFrameLength.value];
        readBuffer := readBuffer[nextFrameLength.value..];
        nextFrameLength := None;
        if !parses(frame) {
          return Some(frame);
        }
        handled := handled + [frame];
        PrependTwice(emitted, [frame], Drain(parses, State()));
        emitted := emitted + [frame];
      }
    }
  }

  lemma {:induction false} ReadInvertsWrite(n: nat, width: nat, tail: Bytes)
    requires n < Bound(width)
    ensures ReadLE(WriteLE(n, width) + tail, width) == n
  {
    if width > 0 {
      ReadInvertsWrite(n / 256, width - 1, tail);
      assert (WriteLE(n, width) + tail)[1..] == WriteLE(n / 256, width - 1) + tail;
    }
  }

  lemma {:induction false} WriteInvertsRead(bytes: Bytes, width: nat)
    requires |bytes| >= width
    ensures WriteLE(ReadLE(bytes, width), width) == bytes[..width]
  {
    if width > 0 {
      WriteInvertsRead(bytes[1..], width - 1);
      assert bytes[..width] == [bytes[0]] + bytes[1..][..width - 1];
    }
  }

  lemma {:induction false} ReadIgnoresTail(bytes: Bytes, width: nat, more: Bytes)
    requires |bytes| >= width
    ensures ReadLE(bytes + more, width) == ReadLE(bytes, width)
  {
    if width > 0 {
      ReadIgnoresTail(bytes[1..], width - 1, more);
      assert (bytes + more)[1..] == bytes[1..] + more;
    }
  }

  lemma PrependTwice(first: seq<Bytes>, second: seq<Bytes>, later: Drained)
    ensures Prepend(first + second, later) == Prepend(first, Prepend(second, later))
  {
    assert first + second + later.frames == first + (second + later.frames);
  }

  lemma HeaderIgnoresTail(bytes: Bytes, more: Bytes)
    requires |bytes| >= 4
    ensures ReadUInt32LE(bytes + more) == ReadUInt32LE(bytes)
  {
    ReadIgnoresTail(bytes, 4, more);
  }

  /** Draining more bytes is draining the first ones, then the rest of the stream. */
  lemma {:induction false} DrainSplits(parses: Bytes -> bool, rest: Rest, more: Bytes)
    ensures var now, all := Drain(parses, rest), Drain(parses, rest.(buffer := rest.buffer + more));
            if now.failed.Some? then all == now.(rest := now.rest.(buffer := now.rest.buffer + more))
            else all == Prepend(now.frames, Receive(parses, now.rest, more))
    decreases |rest.buffer|, if rest.next.Some? then 1 else 0
  {
    hide ReadUInt32LE;
    var joined := rest.buffer + more;
    match rest.next
    case None =>
      if |rest.buffer| >= 4 {
        var entered := Rest(rest.buffer[4..], Some(ReadUInt32LE(rest.buffer)));
        HeaderIgnoresTail(rest.buffer, more);
        DrainSplits(parses, entered, more);
        assert joined[4..] == entered.buffer + more;
      }
    case Some(n) =>
      if |rest.buffer| >= n {
        var after := Rest(rest.buffer[n..], None);
        DrainSplits(parses, after, more);
        assert joined[..n] == rest.buffer[..n];
        assert joined[n..] == after.buffer + more;
        PrependTwice([rest.buffer[..n]], Drain(parses, after).frames, Receive(parses, Drain(parses, after).rest, more));
      }
  }

  /** The loop always stops in a state where it has nothing to do, unless a parse error escaped. */
  lemma {:induction false} DrainRests(parses: Bytes -> bool, rest: Rest)
    requires rest.next.Some? ==> rest.next.value < FRAME_LIMIT
    ensures var d := Drain(parses, rest);
            d.failed.Some? || (Quiescent(d.rest) && Drain(parses, d.rest) == Drained([], d.rest, None))
    decreases |rest.buffer|, if rest.next.Some? then 1 else 0
  {
    match rest.next
    case None =>
      if |rest.buffer| >= 4 {
        WriteInvertsRead(rest.buffer, 4);
        DrainRests(parses, Rest(rest.buffer[4..], Some(ReadUInt32LE(rest.buffer))));
      }
    case Some(n) =>
      if |rest.buffer| >= n {
        DrainRests(parses, Rest(rest.buffer[n..], None));
      }
  }

  lemma NothingToDrain(parses: Bytes -> bool, rest: Rest)
    requires Quiescent(rest)
    ensures Receive(parses, rest, []) == Drained([], rest, None)
    ensures rest.next.Some? ==> rest.next.value < FRAME_LIMIT
  {
    assert rest.buffer + [] == rest.buffer;
  }

  /**
   * Chunking does not matter: the frames handled, the parse error, and (without one) the
   * resting state are those of the concatenated bytes.
   */
  lemma {:induction false} ChunkingIrrelevant(parses: Bytes -> bool, rest: Rest, chunks: seq<Bytes>)
    requires Quiescent(rest)
    ensures var byChunks, whole := ReceiveAll(parses, rest, chunks), Receive(parses, rest, Concat(chunks));
            byChunks.frames == whole.frames && byChunks.failed == whole.failed
            && (whole.failed == None ==> byChunks.rest == whole.rest)
    decreases |chunks|
  {
    hide Drain, Quiescent;
    NothingToDrain(parses, rest);
    if chunks != [] {
      var fed := rest.(buffer := rest.buffer + chunks[0]);
      DrainSplits(parses, fed, Concat(chunks[1..]));
      assert fed.buffer + Concat(chunks[1..]) == rest.buffer + Concat(chunks);
      DrainRests(parses, fed);
      if Drain(parses, fed).failed == None {
        ChunkingIrrelevant(parses, Drain(parses, fed).rest, chunks[1..]);
      }
    }
  }

  /** The encoding of a body that was consumed but not handled. */
  ghost function EncodeFailed(failed: Option<Bytes>): Bytes
    requires failed.Some? ==> |failed.value| < FRAME_LIMIT
  {
    match failed
    case None => []
    case Some(body) => EncodeFrame(body)
  }

  /** No byte is lost, invented or reordered: frames, failed body and unread bytes re-encode the stream. */
  lemma {:induction false} BytesConserved(parses: Bytes -> bool, rest: Rest)
    requires rest.next.Some? ==> rest.next.value < FRAME_LIMIT
    ensures var d := Drain(parses, rest);
            && Encodable(d.frames)
            && (d.rest.next.Some? ==> d.rest.next.value < FRAME_LIMIT)
            && (d.failed.Some? ==> |d.failed.value| < FRAME_LIMIT && !parses(d.failed.value))
            && Unread(rest) == EncodeAll(d.frames) + (EncodeFailed(d.failed) + Unread(d.rest))
    decreases |rest.buffer|, if rest.next.Some? then 1 else 0
  {
    match rest.next
    case None =>
      if |rest.buffer| >= 4 {
        var entered := Rest(rest.buffer[4..], Some(ReadUInt32LE(rest.buffer)));
        WriteInvertsRead(rest.buffer, 4);
        BytesConserved(parses, entered);
        assert Unread(entered) == rest.buffer;
      }
    case Some(n) =>
      if |rest.buffer| >= n {
        var body, after := rest.buffer[..n], Rest(rest.buffer[n..], None);
        assert Unread(rest) == EncodeFrame(body) + after.buffer;
        if parses(body) {
          BytesConserved(parses, after);
          var later := Drain(parses, after);
          EncodeCons(body, later);
          Associative(EncodeFrame(body), EncodeAll(later.frames), EncodeFailed(later.failed) + Unread(later.rest));
        }
      }
  }

  lemma Associative(a: Bytes, b: Bytes, c: Bytes)
    ensures a + (b + c) == a + b + c
  {
  }

  lemma EncodeCons(body: Bytes, later: Drained)
    requires |body| < FRAME_LIMIT && Encodable(later.frames)
    ensures Encodable([body] + later.frames)
    ensures EncodeAll([body] + later.frames) == EncodeFrame(body) + EncodeAll(later.frames)
  {
    assert ([body] + later.frames)[1..] == later.frames;
  }

  lemma HeaderReadsBack(n: nat, tail: Bytes)
    requires n < FRAME_LIMIT
    ensures ReadUInt32LE(WriteUInt32LE(n) + tail) == n
  {
    ReadInvertsWrite(n, 4, tail);
  }

  /** A whole frame at the front of the buffer is emitted, and the loop goes on behind it. */
  lemma DrainFrame(parses: Bytes -> bool, body: Bytes, tail: Bytes)
    requires |body| < FRAME_LIMIT && parses(body)
    ensures Drain(parses, Rest(EncodeFrame(body) + tail, None)) == Prepend([body], Drain(parses, Rest(tail, None)))
  {
    hide ReadUInt32LE, WriteUInt32LE;
    var header, rest := WriteUInt32LE(|body|), body + tail;
    assert EncodeFrame(body) + tail == header + rest;
    HeaderReadsBack(|body|, rest);
    assert (header + rest)[4..] == rest;
    assert rest[..|body|] == body && rest[|body|..] == tail;
    assert Drain(parses, Rest(header + rest, None)) == Drain(parses, Rest(rest, Some(|body|)));
  }

  lemma {:induction false} DecodesEncoding(parses: Bytes -> bool, bodies: seq<Bytes>)
    requires Encodable(bodies)
    requires forall i :: 0 <= i < |bodies| ==> parses(bodies[i])
    ensures Drain(parses, Rest(EncodeAll(bodies), None)) == Drained(bodies, FRESH, None)
    decreases |bodies|
  {
    if bodies != [] {
      hide Drain, EncodeFrame;
      DrainFrame(parses, bodies[0], EncodeAll(bodies[1..]));
      DecodesEncoding(parses, bodies[1..]);
    }
  }

  /**
   * Decoding inverts encoding for every chunking: any split of the encoded bodies yields
   * exactly those bodies, in order, once each, and leaves the decoder fresh.
   */
  lemma AnySplitDecodes(parses: Bytes -> bool, bodies: seq<Bytes>, chunks: seq<Bytes>)
    requires Encodable(bodies)
    requires forall i :: 0 <= i < |bodies| ==> parses(bodies[i])
    requires Concat(chunks) == EncodeAll(bodies)
    ensures ReceiveAll(parses, FRESH, chunks) == Drained(bodies, FRESH, None)
  {
    ChunkingIrrelevant(parses, FRESH, chunks);
    DecodesEncoding(parses, bodies);
    assert [] + EncodeAll(bodies) == EncodeAll(bodies);
  }

  /** The resting state is determined by the bytes seen so far, however they were split. */
  lemma RestingStateFromBytes(parses: Bytes -> bool, left: seq<Bytes>, right: seq<Bytes>)
    requires Concat(left) == Concat(right)
    ensures var a, b := ReceiveAll(parses, FRESH, left), ReceiveAll(parses, FRESH, right);
            a.frames == b.frames && a.failed == b.failed && (a.failed == None ==> a.rest == b.rest)
  {
    ChunkingIrrelevant(parses, FRESH, left);
    ChunkingIrrelevant(parses, FRESH, right);
  }
}
