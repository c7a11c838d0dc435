/** Length-prefixed framing: a streaming decoder that does not depend on how bytes are chunked. */
module PeerCodec {
  import opened ByteStrings
  import opened Wrappers
  import opened Buffers
  import opened PeerMessage

  const MAX_FRAME_SIZE: nat := 0x10_0000

  datatype CodecError = FrameTooLarge(length: nat) | Message(error: MessageError)

  /** One attempt at a frame: more bytes are needed, or a message or an error came out and `rest` remains. */
  datatype Step = NeedMore | Frame(message: PeerMessage, rest: Bytes) | Broken(error: CodecError, rest: Bytes)

  function FrameStep(buf: Bytes): (r: Step)
    ensures r.Frame? ==> |r.rest| < |buf|
  {
    if |buf| < 4 then NeedMore
    else
      var length := FromBigEndian32(buf);
      if length > MAX_FRAME_SIZE then Broken(FrameTooLarge(length), buf)
      else if |buf| < 4 + length then NeedMore
      else
        match DecodeBody(buf[4..4 + length])
        case Ok(m) => Frame(m, buf[4 + length..])
        case Err(e) => Broken(Message(e), buf[4 + length..])
  }

  function EncodeFrame(m: PeerMessage): Result<Bytes, CodecError> {
    if WireLen(m) > MAX_FRAME_SIZE then Err(FrameTooLarge(WireLen(m)))
    else Ok(BigEndian32(WireLen(m)) + EncodeBody(m))
  }

  /** The decoder called by the framed stream, over the bytes read so far. */
  method Decode(src: ByteBuffer) returns (r: Result<Option<PeerMessage>, CodecError>)
    modifies src
    ensures match FrameStep(old(src.bytes))
            case NeedMore => r == Ok(None) && src.bytes == old(src.bytes)
            case Frame(m, rest) => r == Ok(Some(m)) && src.bytes == rest
            case Broken(e, rest) => r == Err(e) && src.bytes == rest
  {
    hide FromBigEndian32, DecodeBody;
    if |src.bytes| < 4 {
      return Ok(None);
    }
    var length := FromBigEndian32(src.bytes);
    if length > MAX_FRAME_SIZE {
      return Err(FrameTooLarge(length));
    }
    if |src.bytes| < 4 + length {
      return Ok(None);
    }
    var _ := src.SplitTo(4);
    var front := src.SplitTo(length);
    assert front == old(src.bytes)[4..4 + length];
    assert src.bytes == old(src.bytes)[4 + length..];
    var payload := new ByteBuffer(front);
    var m := DecodeMessage(payload);
    match m
    case Ok(msg) => r := Ok(Some(msg));
    case Err(e) => r := Err(Message(e));
  }

  method Encode(m: PeerMessage, dst: ByteBuffer) returns (r: Result<(), CodecError>)
    modifies dst
    ensures match EncodeFrame(m)
            case Ok(frame) => r == Ok(()) && dst.bytes == old(dst.bytes) + frame
            case Err(e) => r == Err(e) && dst.bytes == old(dst.bytes)
  {
    hide BigEndian32, EncodeBody;
    var len := WireLen(m);
    if len > MAX_FRAME_SIZE {
      return Err(FrameTooLarge(len));
    }
    dst.PutU32(len);
    EncodeMessage(m, dst);
    r := Ok(());
  }

  // ------------------------------------------------------------- streaming

  /** A connection's receiving side: unread bytes, messages delivered, and the error that ended it. */
  datatype Stream = Stream(buf: Bytes, messages: seq<PeerMessage>, error: Option<CodecError>)

  /** Decode until more bytes are needed or an error ends the stream. */
  function Drain(st: Stream): Stream
    decreases |st.buf|
  {
    if st.error.Some? then st
    else
      match FrameStep(st.buf)
      case NeedMore => st
      case Frame(m, rest) => Drain(Stream(rest, st.messages + [m], None))
      case Broken(e, rest) => Stream(rest, st.messages, Some(e))
  }

  function Feed(st: Stream, chunk: Bytes): Stream {
    if st.error.Some? then st else Drain(st.(buf := st.buf + chunk))
  }

  function FeedAll(st: Stream, chunks: seq<Bytes>): Stream
    decreases |chunks|
  {
    if chunks == [] then st else FeedAll(Feed(st, chunks[0]), chunks[1..])
  }

  function Join(chunks: seq<Bytes>): Bytes {
    if chunks == [] then [] else chunks[0] + Join(chunks[1..])
  }

  /** The framed reader's loop over one chunk: append, then decode repeatedly. */
  method ReadChunk(src: ByteBuffer, chunk: Bytes) returns (messages: seq<PeerMessage>, error: Option<CodecError>)
    modifies src
    ensures Stream(src.bytes, messages, error) == Feed(Stream(old(src.bytes), [], None), chunk)
  {
    hide FrameStep;
    src.Extend(chunk);
    messages, error := [], None;
    ghost var goal := Drain(Stream(src.bytes, [], None));
    while true
      invariant error == None && Drain(Stream(src.bytes, messages, None)) == goal
      decreases |src.bytes|
    {
      ghost var before := src.bytes;
      FrameShrinks(before);
      var r := Decode(src);
      match r {
        case Ok(None) => return;
        case Ok(Some(m)) => messages := messages + [m];
        case Err(e) =>
          error := Some(e);
          return;
      }
    }
  }

  lemma FrameShrinks(buf: Bytes)
    ensures FrameStep(buf).Frame? ==> |FrameStep(buf).rest| < |buf|
  {
  }

  /** A frame that has come out is not changed by bytes that arrive later. */
  lemma FrameStable(buf: Bytes, more: Bytes)
    requires !FrameStep(buf).NeedMore?
    ensures FrameStep(buf + more)
         == match FrameStep(buf)
            case Frame(m, rest) => Frame(m, rest + more)
            case Broken(e, rest) => Broken(e, rest + more)
            case NeedMore => NeedMore
  {
    hide DecodeBody;
    var length := FromBigEndian32(buf);
    if length <= MAX_FRAME_SIZE {
      assert (buf + more)[4..4 + length] == buf[4..4 + length];
      assert (buf + more)[4 + length..] == buf[4 + length..] + more;
    }
  }

  /** Draining early changes nothing that is delivered later. */
  lemma {:induction false} DrainThenFeed(st: Stream, more: Bytes)
    requires st.error == None
    ensures var late := Drain(st.(buf := st.buf + more));
      && Feed(Drain(st), more).messages == late.messages
      && Feed(Drain(st), more).error == late.error
      && (late.error == None ==> Feed(Drain(st), more).buf == late.buf)
    decreases |st.buf|
  {
    hide FrameStep;
    FrameShrinks(st.buf);
    match FrameStep(st.buf)
    case NeedMore =>
    case Frame(m, rest) =>
      FrameStable(st.buf, more);
      FrameShrinks(st.buf + more);
      DrainThenFeed(Stream(rest, st.messages + [m], None), more);
    case Broken(e, rest) =>
      FrameStable(st.buf, more);
  }

  lemma {:induction false} ErrorEndsStream(st: Stream, chunks: seq<Bytes>)
    requires st.error.Some?
    ensures FeedAll(st, chunks) == st
  {
    if chunks != [] {
      ErrorEndsStream(st, chunks[1..]);
    }
  }

  lemma {:induction false} DrainedStays(st: Stream)
    ensures Drain(st).error == None ==> FrameStep(Drain(st).buf) == NeedMore
    decreases |st.buf|
  {
    hide FrameStep;
    FrameShrinks(st.buf);
    if st.error == None && FrameStep(st.buf).Frame? {
      var m, rest := FrameStep(st.buf).message, FrameStep(st.buf).rest;
      DrainedStays(Stream(rest, st.messages + [m], None));
    }
  }

  /**
   * However a byte stream is split into chunks, the same messages come out up to the same first
   * error; without an error the same bytes are left waiting.
   */
  lemma {:induction false} ChunkingIrrelevant(st: Stream, chunks: seq<Bytes>)
    requires st.error == None && FrameStep(st.buf) == NeedMore
    ensures var whole := Feed(st, Join(chunks));
      && FeedAll(st, chunks).messages == whole.messages
      && FeedAll(st, chunks).error == whole.error
      && (whole.error == None ==> FeedAll(st, chunks).buf == whole.buf)
    decreases |chunks|
  {
    hide FrameStep;
    if chunks == [] {
      assert st.buf + [] == st.buf;
    } else {
      var c, tail := chunks[0], Join(chunks[1..]);
      var now := Feed(st, c);
      assert st.buf + (c + tail) == st.buf + c + tail;
      DrainThenFeed(st.(buf := st.buf + c), tail);
      DrainedStays(st.(buf := st.buf + c));
      if now.error == None {
        ChunkingIrrelevant(now, chunks[1..]);
      } else {
        ErrorEndsStream(now, chunks[1..]);
      }
    }
  }

  /** A message comes out exactly when a whole frame stands in front: 4 + length bytes are consumed. */
  lemma FrameIff(buf: Bytes, m: PeerMessage, rest: Bytes)
    ensures FrameStep(buf) == Frame(m, rest)
       <==> exists payload: Bytes :: |payload| <= MAX_FRAME_SIZE && DecodeBody(payload) == Ok(m)
                                  && buf == BigEndian32(|payload|) + payload + rest
  {
    hide DecodeBody, BigEndian32;
    if FrameStep(buf) == Frame(m, rest) {
      var length := FromBigEndian32(buf);
      BigEndianUnique(buf);
      var payload := buf[4..4 + length];
      assert buf == buf[..4] + payload + rest;
      assert DecodeBody(payload) == Ok(m);
    }
    forall payload: Bytes | && |payload| <= MAX_FRAME_SIZE && DecodeBody(payload) == Ok(m)
                            && buf == BigEndian32(|payload|) + payload + rest
      ensures FrameStep(buf) == Frame(m, rest)
    {
      FrameOf(payload, rest);
    }
  }

  lemma FrameOf(payload: Bytes, rest: Bytes)
    requires |payload| <= MAX_FRAME_SIZE && DecodeBody(payload).Ok?
    ensures FrameStep(BigEndian32(|payload|) + payload + rest) == Frame(DecodeBody(payload).value, rest)
  {
    hide DecodeBody;
    var buf := BigEndian32(|payload|) + payload + rest;
    assert buf == BigEndian32(|payload|) + (payload + rest);
    BigEndianRoundTrip(|payload|, payload + rest);
    assert buf[4..4 + |payload|] == payload;
    assert buf[4 + |payload|..] == rest;
  }

  // ------------------------------------------------------------ round trip

  predicate Sendable(m: PeerMessage) {
    !m.Unknown? && WireLen(m) <= MAX_FRAME_SIZE
  }

  function EncodeAll(ms: seq<PeerMessage>): Bytes
    requires forall i :: 0 <= i < |ms| ==> Sendable(ms[i])
  {
    if ms == [] then [] else assert Sendable(ms[0]); EncodeFrame(ms[0]).value + EncodeAll(ms[1..])
  }

  lemma FrameRoundTrip(m: PeerMessage, tail: Bytes)
    requires Sendable(m)
    ensures FrameStep(EncodeFrame(m).value + tail) == Frame(m, tail)
  {
    hide DecodeBody, BigEndian32, FrameStep, EncodeBody;
    WireLenExact(m);
    BodyRoundTrip(m);
    FrameOf(EncodeBody(m), tail);
  }

  lemma {:induction false} DrainEncoded(done: seq<PeerMessage>, ms: seq<PeerMessage>)
    requires forall i :: 0 <= i < |ms| ==> Sendable(ms[i])
    ensures Drain(Stream(EncodeAll(ms), done, None)) == Stream([], done + ms, None)
    decreases |ms|
  {
    hide FrameStep, EncodeFrame;
    if ms == [] {
      EmptyNeedsMore();
      assert done + ms == done;
    } else {
      FrameRoundTrip(ms[0], EncodeAll(ms[1..]));
      FrameShrinks(EncodeAll(ms));
      DrainEncoded(done + [ms[0]], ms[1..]);
      assert done + [ms[0]] + ms[1..] == done + ms;
    }
  }

  lemma EmptyNeedsMore()
    ensures FrameStep([]) == NeedMore
  {
  }

  /** Any list of sendable messages, sent and received in any chunks, arrives as the same list. */
  lemma SentIsReceived(ms: seq<PeerMessage>, chunks: seq<Bytes>)
    requires forall i :: 0 <= i < |ms| ==> Sendable(ms[i])
    requires Join(chunks) == EncodeAll(ms)
    ensures FeedAll(Stream([], [], None), chunks) == Stream([], ms, None)
  {
    hide FrameStep, EncodeAll, Drain;
    EmptyNeedsMore();
    ChunkingIrrelevant(Stream([], [], None), chunks);
    assert [] + EncodeAll(ms) == EncodeAll(ms);
    DrainEncoded([], ms);
    assert [] + ms == ms;
  }

  /** A frame that can be sent is read back, whatever follows it, exactly unless it is `Unknown`. */
  lemma ReadBackIff(m: PeerMessage)
    requires EncodeFrame(m).Ok?
    ensures (forall tail :: FrameStep(EncodeFrame(m).value + tail) == Frame(m, tail)) <==> !m.Unknown?
  {
    hide FrameStep, EncodeBody;
    if m.Unknown? {
      UnknownStealsNextByte(m.messageId, 0, []);
      var tail: Bytes := [];
      assert EncodeFrame(m).value + tail == EncodeFrame(m).value;
      assert FrameStep(EncodeFrame(m).value + tail) != Frame(m, tail);
    } else {
      forall tail
        ensures FrameStep(EncodeFrame(m).value + tail) == Frame(m, tail)
      {
        FrameRoundTrip(m, tail);
      }
    }
  }

  /**
   * `Unknown` stands for a received id that is not known; the engine never sends it. If it did, the frame
   * would announce one byte and take it from whatever is sent next.
   */
  lemma UnknownStealsNextByte(id: byte, next: byte, tail: Bytes)
    ensures EncodeFrame(Unknown(id)).Ok?
    ensures FrameStep(EncodeFrame(Unknown(id)).value) == NeedMore
    ensures DecodeBody([next]).Ok? ==>
      FrameStep(EncodeFrame(Unknown(id)).value + ([next] + tail)) == Frame(DecodeBody([next]).value, tail)
  {
    var frame := EncodeFrame(Unknown(id)).value;
    assert frame == BigEndian32(1) + [];
    BigEndianRoundTrip(1, []);
    if DecodeBody([next]).Ok? {
      FrameOf([next], tail);
      assert frame + ([next] + tail) == BigEndian32(|[next]|) + [next] + tail;
    }
  }
}
