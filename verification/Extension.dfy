/** The metadata messages of BEP 9: a bencoded dictionary, with raw data after it in a data message. */
module Extension {
  import opened ByteStrings
  import opened Wrappers
  import opened Bencode
  import opened BencodeRoundTrip
  import opened BencodeLaws
  import opened BencodeDecoder
  import opened Buffers

  const KEY_MSG_TYPE: Bytes := [0x6D, 0x73, 0x67, 0x5F, 0x74, 0x79, 0x70, 0x65]
  const KEY_PIECE: Bytes := [0x70, 0x69, 0x65, 0x63, 0x65]
  const KEY_TOTAL_SIZE: Bytes := [0x74, 0x6F, 0x74, 0x61, 0x6C, 0x5F, 0x73, 0x69, 0x7A, 0x65]

  datatype MetadataMessage =
    | Request(piece: u32)
    | Data(piece: u32, totalSize: u64, data: Bytes)
    | Reject(piece: u32)

  datatype ExtensionError = Decode(error: DecodeError) | InvalidFormat | UnknownMessageType(msgType: i64)

  /** `as i64`, `as u64` and `as u32`: two's complement wrap-around. */
  function AsI64(x: u64): i64 {
    if x > I64_MAX then x - 0x1_0000_0000_0000_0000 else x
  }

  function AsU64(n: i64): u64 {
    n % 0x1_0000_0000_0000_0000
  }

  function AsU32(n: i64): u32 {
    n % 0x1_0000_0000
  }

  function Header(m: MetadataMessage): seq<Entry> {
    match m
    case Request(piece) => Insert(Insert([], KEY_MSG_TYPE, Int(0)), KEY_PIECE, Int(piece))
    case Data(piece, totalSize, _) =>
      Insert(Insert(Insert([], KEY_MSG_TYPE, Int(1)), KEY_PIECE, Int(piece)), KEY_TOTAL_SIZE, Int(AsI64(totalSize)))
    case Reject(piece) => Insert(Insert([], KEY_MSG_TYPE, Int(2)), KEY_PIECE, Int(piece))
  }

  function ToBytes(m: MetadataMessage): Bytes {
    Encode(Dict(Header(m))) + if m.Data? then m.data else []
  }

  function FromPayload(payload: Bytes): Result<MetadataMessage, ExtensionError> {
    match DecodeValue(payload, 0, 0)
    case Failure(e) => Err(Decode(e))
    case Success(val, consumed) =>
      match val.Get(KEY_MSG_TYPE)
      case Some(Int(msgType)) =>
        (match val.Get(KEY_PIECE)
         case Some(Int(piece)) =>
           if msgType == 0 then Ok(Request(AsU32(piece)))
           else if msgType == 1 then
             (match val.Get(KEY_TOTAL_SIZE)
              case Some(Int(totalSize)) => Ok(Data(AsU32(piece), AsU64(totalSize), payload[consumed..]))
              case _ => Err(InvalidFormat))
           else if msgType == 2 then Ok(Reject(AsU32(piece)))
           else Err(UnknownMessageType(msgType))
         case _ => Err(InvalidFormat))
      case _ => Err(InvalidFormat)
  }

  method EncodeMessage(m: MetadataMessage) returns (encoded: Bytes)
    ensures encoded == ToBytes(m)
  {
    hide Encode, Insert;
    var dict: seq<Entry> := [];
    var buf := new ByteBuffer([]);
    match m {
      case Request(piece) =>
        dict := Insert(dict, KEY_MSG_TYPE, Int(0));
        dict := Insert(dict, KEY_PIECE, Int(piece));
      case Data(piece, totalSize, data) =>
        dict := Insert(dict, KEY_MSG_TYPE, Int(1));
        dict := Insert(dict, KEY_PIECE, Int(piece));
        dict := Insert(dict, KEY_TOTAL_SIZE, Int(AsI64(totalSize)));
        EncodeTo(Dict(dict), buf);
        return buf.bytes + data;
      case Reject(piece) =>
        dict := Insert(dict, KEY_MSG_TYPE, Int(2));
        dict := Insert(dict, KEY_PIECE, Int(piece));
    }
    EncodeTo(Dict(dict), buf);
    encoded := buf.bytes;
  }

  lemma HeaderFields(m: MetadataMessage)
    ensures var es := Header(m);
      && Lookup(es, KEY_MSG_TYPE) == Some(Int(if m.Request? then 0 else if m.Data? then 1 else 2))
      && Lookup(es, KEY_PIECE) == Some(Int(m.piece))
      && (m.Data? ==> Lookup(es, KEY_TOTAL_SIZE) == Some(Int(AsI64(m.totalSize))))
  {
    hide Lookup, Insert;
    var kind := Int(if m.Request? then 0 else if m.Data? then 1 else 2);
    var e1 := Insert([], KEY_MSG_TYPE, kind);
    var e2 := Insert(e1, KEY_PIECE, Int(m.piece));
    forall k: Bytes
      ensures Lookup(e2, k) == if k == KEY_PIECE then Some(Int(m.piece)) else Lookup(e1, k)
    {
      LookupInsert(e1, KEY_PIECE, Int(m.piece), k);
    }
    LookupInsert([], KEY_MSG_TYPE, kind, KEY_MSG_TYPE);
    if m.Data? {
      forall k: Bytes
        ensures Lookup(Header(m), k)
             == if k == KEY_TOTAL_SIZE then Some(Int(AsI64(m.totalSize))) else Lookup(e2, k)
      {
        LookupInsert(e2, KEY_TOTAL_SIZE, Int(AsI64(m.totalSize)), k);
      }
    }
  }

  lemma HeaderFits(m: MetadataMessage)
    ensures Fits(Dict(Header(m)), MAX_DEPTH)
  {
    hide Insert;
    var kind := Int(if m.Request? then 0 else if m.Data? then 1 else 2);
    FitsInsert([], KEY_MSG_TYPE, kind, MAX_DEPTH - 1);
    var e1 := Insert([], KEY_MSG_TYPE, kind);
    FitsInsert(e1, KEY_PIECE, Int(m.piece), MAX_DEPTH - 1);
    if m.Data? {
      FitsInsert(Insert(e1, KEY_PIECE, Int(m.piece)), KEY_TOTAL_SIZE, Int(AsI64(m.totalSize)), MAX_DEPTH - 1);
    }
  }

  /**
   * Every message is read back, whatever bytes follow it: a data message takes them as further data, the
   * others ignore them. Sizes of 2^63 and more survive too, both casts wrapping.
   */
  lemma MetadataRoundTrip(m: MetadataMessage, tail: Bytes)
    requires |ToBytes(m) + tail| <= USIZE_MAX
    ensures FromPayload(ToBytes(m) + tail)
         == Ok(match m
               case Request(piece) => Request(piece)
               case Data(piece, totalSize, data) => Data(piece, totalSize, data + tail)
               case Reject(piece) => Reject(piece))
  {
    hide Encode, DecodeValue, Header, Lookup, Fits;
    HeaderFits(m);
    HeaderFields(m);
    var header := Encode(Dict(Header(m)));
    var rest := (if m.Data? then m.data else []) + tail;
    assert ToBytes(m) + tail == header + rest;
    DecodeAfterEncode(Dict(Header(m)), rest);
    assert (header + rest)[|header|..] == rest;
  }
}
