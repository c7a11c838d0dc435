/** The messages of the peer wire protocol, without their length prefix. */
module PeerMessage {
  import opened ByteStrings
  import opened Wrappers
  import opened Buffers

  datatype PeerMessage =
    | KeepAlive
    | Choke
    | Unchoke
    | Interested
    | NotInterested
    | Have(pieceIndex: u32)
    | Bitfield(bits: Bytes)
    | Request(index: u32, begin: u32, length: u32)
    | Piece(index: u32, begin: u32, data: Bytes)
    | Cancel(index: u32, begin: u32, length: u32)
    | Extended(id: byte, payload: Bytes)
    | HaveAll
    | HaveNone
    | Unknown(messageId: byte)

  const MSG_CHOKE: byte := 0
  const MSG_UNCHOKE: byte := 1
  const MSG_INTERESTED: byte := 2
  const MSG_NOT_INTERESTED: byte := 3
  const MSG_HAVE: byte := 4
  const MSG_BITFIELD: byte := 5
  const MSG_REQUEST: byte := 6
  const MSG_PIECE: byte := 7
  const MSG_CANCEL: byte := 8
  const MSG_HAVE_ALL: byte := 14
  const MSG_HAVE_NONE: byte := 15
  const MSG_EXTENDED: byte := 20

  datatype MessageError = TooShort

  function EncodeBody(m: PeerMessage): Bytes {
    match m
    case KeepAlive => []
    case Unknown(_) => []
    case Choke => [MSG_CHOKE]
    case Unchoke => [MSG_UNCHOKE]
    case Interested => [MSG_INTERESTED]
    case NotInterested => [MSG_NOT_INTERESTED]
    case Have(i) => [MSG_HAVE] + BigEndian32(i)
    case Bitfield(bits) => [MSG_BITFIELD] + bits
    case Request(i, b, l) => [MSG_REQUEST] + BigEndian32(i) + BigEndian32(b) + BigEndian32(l)
    case Piece(i, b, data) => [MSG_PIECE] + BigEndian32(i) + BigEndian32(b) + data
    case Cancel(i, b, l) => [MSG_CANCEL] + BigEndian32(i) + BigEndian32(b) + BigEndian32(l)
    case Extended(id, payload) => [MSG_EXTENDED] + [id] + payload
    case HaveAll => [MSG_HAVE_ALL]
    case HaveNone => [MSG_HAVE_NONE]
  }

  function DecodeBody(data: Bytes): Result<PeerMessage, MessageError> {
    if data == [] then Ok(KeepAlive)
    else
      var id, rest := data[0], data[1..];
      if id == MSG_CHOKE then Ok(Choke)
      else if id == MSG_UNCHOKE then Ok(Unchoke)
      else if id == MSG_INTERESTED then Ok(Interested)
      else if id == MSG_NOT_INTERESTED then Ok(NotInterested)
      else if id == MSG_HAVE then
        if |rest| < 4 then Err(TooShort) else Ok(Have(FromBigEndian32(rest)))
      else if id == MSG_BITFIELD then Ok(Bitfield(rest))
      else if id == MSG_REQUEST then
        if |rest| < 12 then Err(TooShort)
        else Ok(Request(FromBigEndian32(rest), FromBigEndian32(rest[4..]), FromBigEndian32(rest[8..])))
      else if id == MSG_PIECE then
        if |rest| < 8 then Err(TooShort)
        else Ok(Piece(FromBigEndian32(rest), FromBigEndian32(rest[4..]), rest[8..]))
      else if id == MSG_CANCEL then
        if |rest| < 12 then Err(TooShort)
        else Ok(Cancel(FromBigEndian32(rest), FromBigEndian32(rest[4..]), FromBigEndian32(rest[8..])))
      else if id == MSG_EXTENDED then
        if |rest| < 1 then Err(TooShort) else Ok(Extended(rest[0], rest[1..]))
      else if id == MSG_HAVE_ALL then Ok(HaveAll)
      else if id == MSG_HAVE_NONE then Ok(HaveNone)
      else Ok(Unknown(id))
  }

  function WireLen(m: PeerMessage): nat {
    match m
    case KeepAlive => 0
    case Have(_) => 5
    case Bitfield(bits) => 1 + |bits|
    case Request(_, _, _) => 13
    case Cancel(_, _, _) => 13
    case Piece(_, _, data) => 9 + |data|
    case Extended(_, payload) => 2 + |payload|
    case _ => 1
  }

  method PutBlock(id: byte, index: u32, begin: u32, buf: ByteBuffer)
    modifies buf
    ensures buf.bytes == old(buf.bytes) + ([id] + BigEndian32(index) + BigEndian32(begin))
  {
    buf.PutU8(id);
    buf.PutU32(index);
    buf.PutU32(begin);
  }

  method EncodeWords(m: PeerMessage, buf: ByteBuffer)
    requires m.Have? || m.Request? || m.Cancel? || m.Piece?
    modifies buf
    ensures buf.bytes == old(buf.bytes) + EncodeBody(m)
  {
    hide BigEndian32;
    ghost var before := buf.bytes;
    match m {
      case Have(i) =>
        buf.PutU8(MSG_HAVE);
        buf.PutU32(i);
        Regroup(before, [MSG_HAVE], BigEndian32(i));
      case Request(i, b, l) =>
        PutBlock(MSG_REQUEST, i, b, buf);
        buf.PutU32(l);
        Regroup(before, [MSG_REQUEST] + BigEndian32(i) + BigEndian32(b), BigEndian32(l));
      case Piece(i, b, data) =>
        PutBlock(MSG_PIECE, i, b, buf);
        buf.Extend(data);
        Regroup(before, [MSG_PIECE] + BigEndian32(i) + BigEndian32(b), data);
      case Cancel(i, b, l) =>
        PutBlock(MSG_CANCEL, i, b, buf);
        buf.PutU32(l);
        Regroup(before, [MSG_CANCEL] + BigEndian32(i) + BigEndian32(b), BigEndian32(l));
    }
  }

  lemma Regroup(a: Bytes, b: Bytes, c: Bytes)
    ensures (a + b) + c == a + (b + c)
  {
  }

  /** `encode`: append the message to the buffer. */
  method EncodeMessage(m: PeerMessage, buf: ByteBuffer)
    modifies buf
    ensures buf.bytes == old(buf.bytes) + EncodeBody(m)
  {
    hide BigEndian32;
    ghost var before := buf.bytes;
    match m {
      case KeepAlive =>
      case Unknown(_) =>
      case Choke => buf.PutU8(MSG_CHOKE);
      case Unchoke => buf.PutU8(MSG_UNCHOKE);
      case Interested => buf.PutU8(MSG_INTERESTED);
      case NotInterested => buf.PutU8(MSG_NOT_INTERESTED);
      case Bitfield(bits) =>
        buf.PutU8(MSG_BITFIELD);
        buf.Extend(bits);
        Regroup(before, [MSG_BITFIELD], bits);
      case Extended(id, payload) =>
        buf.PutU8(MSG_EXTENDED);
        buf.PutU8(id);
        buf.Extend(payload);
        Regroup(before, [MSG_EXTENDED], [id]);
        Regroup(before, [MSG_EXTENDED] + [id], payload);
      case HaveAll => buf.PutU8(MSG_HAVE_ALL);
      case HaveNone => buf.PutU8(MSG_HAVE_NONE);
      case _ => EncodeWords(m, buf);
    }
  }

  /** `decode`: consume one message from a buffer holding exactly one frame's payload. */
  method DecodeMessage(data: ByteBuffer) returns (r: Result<PeerMessage, MessageError>)
    modifies data
    ensures r == DecodeBody(old(data.bytes))
  {
    hide FromBigEndian32;
    if data.bytes == [] {
      return Ok(KeepAlive);
    }
    var id := data.GetU8();
    if id == MSG_CHOKE {
      return Ok(Choke);
    } else if id == MSG_UNCHOKE {
      return Ok(Unchoke);
    } else if id == MSG_INTERESTED {
      return Ok(Interested);
    } else if id == MSG_NOT_INTERESTED {
      return Ok(NotInterested);
    } else if id == MSG_HAVE {
      if |data.bytes| < 4 { return Err(TooShort); }
      var i := data.GetU32();
      return Ok(Have(i));
    } else if id == MSG_BITFIELD {
      var bits := data.SplitTo(|data.bytes|);
      assert bits == old(data.bytes)[1..];
      return Ok(Bitfield(bits));
    } else if id == MSG_REQUEST {
      if |data.bytes| < 12 { return Err(TooShort); }
      var i := data.GetU32();
      var b := data.GetU32();
      var l := data.GetU32();
      return Ok(Request(i, b, l));
    } else if id == MSG_PIECE {
      if |data.bytes| < 8 { return Err(TooShort); }
      var i := data.GetU32();
      var b := data.GetU32();
      var rest := data.SplitTo(|data.bytes|);
      assert rest == old(data.bytes)[1..][8..];
      return Ok(Piece(i, b, rest));
    } else if id == MSG_CANCEL {
      if |data.bytes| < 12 { return Err(TooShort); }
      var i := data.GetU32();
      var b := data.GetU32();
      var l := data.GetU32();
      return Ok(Cancel(i, b, l));
    } else if id == MSG_EXTENDED {
      if |data.bytes| < 1 { return Err(TooShort); }
      var extId := data.GetU8();
      var rest := data.SplitTo(|data.bytes|);
      assert rest == old(data.bytes)[1..][1..];
      return Ok(Extended(extId, rest));
    } else if id == MSG_HAVE_ALL {
      return Ok(HaveAll);
    } else if id == MSG_HAVE_NONE {
      return Ok(HaveNone);
    } else {
      var _ := data.SplitTo(|data.bytes|);
      return Ok(Unknown(id));
    }
  }

  /** The announced length is the encoded size, except for `Unknown`, which announces 1 and sends nothing. */
  lemma WireLenExact(m: PeerMessage)
    ensures WireLen(m) == |EncodeBody(m)| <==> !m.Unknown?
  {
  }

  lemma ThreeWords(a: u32, b: u32, tail: Bytes)
    ensures var s := BigEndian32(a) + BigEndian32(b) + tail;
      && FromBigEndian32(s) == a
      && FromBigEndian32(s[4..]) == b
      && s[8..] == tail
  {
    var s := BigEndian32(a) + BigEndian32(b) + tail;
    assert s == BigEndian32(a) + (BigEndian32(b) + tail);
    assert s[4..] == BigEndian32(b) + tail;
    BigEndianRoundTrip(a, BigEndian32(b) + tail);
    BigEndianRoundTrip(b, tail);
  }

  /** A body of an id and fields is decoded by that id. */
  lemma HeadAndFields(id: byte, rest: Bytes)
    ensures ([id] + rest)[0] == id && ([id] + rest)[1..] == rest
  {
  }

  /** The fields of a request or a cancel. */
  lemma ThreeFields(a: u32, b: u32, c: u32)
    ensures var s := BigEndian32(a) + BigEndian32(b) + BigEndian32(c);
      && |s| == 12 && FromBigEndian32(s) == a && FromBigEndian32(s[4..]) == b && FromBigEndian32(s[8..]) == c
  {
    hide BigEndian32, FromBigEndian32;
    ThreeWords(a, b, BigEndian32(c));
    BigEndianRoundTrip(c, []);
    assert BigEndian32(c) + [] == BigEndian32(c);
  }

  lemma WordsRoundTrip(m: PeerMessage)
    requires m.Have? || m.Request? || m.Piece? || m.Cancel?
    ensures DecodeBody(EncodeBody(m)) == Ok(m)
  {
    hide BigEndian32, FromBigEndian32;
    match m
    case Have(i) =>
      BigEndianRoundTrip(i, []);
      assert BigEndian32(i) + [] == BigEndian32(i);
      HeadAndFields(MSG_HAVE, BigEndian32(i));
    case Request(i, b, l) =>
      ThreeFields(i, b, l);
      Regrouped(MSG_REQUEST, i, b, BigEndian32(l));
    case Piece(i, b, data) =>
      ThreeWords(i, b, data);
      Regrouped(MSG_PIECE, i, b, data);
    case Cancel(i, b, l) =>
      ThreeFields(i, b, l);
      Regrouped(MSG_CANCEL, i, b, BigEndian32(l));
  }

  lemma Regrouped(id: byte, i: u32, b: u32, tail: Bytes)
    ensures var body := [id] + BigEndian32(i) + BigEndian32(b) + tail;
      body[0] == id && body[1..] == BigEndian32(i) + BigEndian32(b) + tail
  {
    hide BigEndian32;
    assert [id] + BigEndian32(i) + BigEndian32(b) + tail == [id] + (BigEndian32(i) + BigEndian32(b) + tail);
  }

  lemma BodyRoundTrip(m: PeerMessage)
    requires !m.Unknown?
    ensures DecodeBody(EncodeBody(m)) == Ok(m)
  {
    hide BigEndian32, FromBigEndian32;
    if m.Have? || m.Request? || m.Piece? || m.Cancel? {
      WordsRoundTrip(m);
    } else if m.Bitfield? {
      HeadAndFields(MSG_BITFIELD, m.bits);
    } else if m.Extended? {
      assert EncodeBody(m) == [MSG_EXTENDED] + ([m.id] + m.payload);
      HeadAndFields(MSG_EXTENDED, [m.id] + m.payload);
      HeadAndFields(m.id, m.payload);
    }
  }
}
