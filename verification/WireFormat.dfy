/** The bytes on the wire, spelled out: message ids, byte order, keys, and the bencoding of each kind of value. */
module WireFormat {
  import opened ByteStrings
  import opened Wrappers
  import opened Decimal
  import opened Buffers
  import opened Bencode
  import opened BencodeRoundTrip
  import PM = PeerMessage
  import PC = PeerCodec
  import MI = Metainfo
  import EX = Extension

  // ------------------------------------------------------------------ messages

  /** Integers go most significant byte first. */
  lemma BigEndianIs(n: u32)
    ensures var b := BigEndian32(n);
      |b| == 4 && n == (b[0] as int) * 0x100_0000 + (b[1] as int) * 0x1_0000 + (b[2] as int) * 0x100 + (b[3] as int)
  {
    BigEndianRoundTrip(n, []);
    assert BigEndian32(n) + [] == BigEndian32(n);
  }

  /** The body of each message: its id as BEP 3, BEP 6 and BEP 10 number them, and its fields in order. */
  lemma MessageBytes(m: PM.PeerMessage)
    ensures PM.EncodeBody(m)
         == match m
            case KeepAlive => []
            case Choke => [0]
            case Unchoke => [1]
            case Interested => [2]
            case NotInterested => [3]
            case Have(piece) => [4] + BigEndian32(piece)
            case Bitfield(bits) => [5] + bits
            case Request(piece, begin, length) =>
              [6] + BigEndian32(piece) + BigEndian32(begin) + BigEndian32(length)
            case Piece(piece, begin, data) => [7] + BigEndian32(piece) + BigEndian32(begin) + data
            case Cancel(piece, begin, length) =>
              [8] + BigEndian32(piece) + BigEndian32(begin) + BigEndian32(length)
            case HaveAll => [14]
            case HaveNone => [15]
            case Extended(id, payload) => [20, id] + payload
            case Unknown(_) => []
  {
    hide BigEndian32;
    if m.Extended? {
      assert [20] + [m.id] == [20, m.id];
    }
  }

  /** A frame is the body's length in four bytes, and the body. */
  lemma FrameBytes(m: PM.PeerMessage)
    requires !m.Unknown?
    ensures PC.EncodeFrame(m).Ok? <==> |PM.EncodeBody(m)| <= 1024 * 1024
    ensures PC.EncodeFrame(m).Ok? ==> PC.EncodeFrame(m).value == BigEndian32(|PM.EncodeBody(m)|) + PM.EncodeBody(m)
  {
    hide BigEndian32, PM.EncodeBody, PM.WireLen;
    PM.WireLenExact(m);
  }

  /** A body is read by its id alone; an id that is not listed is Unknown, and missing fields are an error. */
  lemma BodyById(id: byte, rest: Bytes)
    ensures PM.DecodeBody([id] + rest)
         == (if id == 0 then Ok(PM.Choke) else if id == 1 then Ok(PM.Unchoke)
             else if id == 2 then Ok(PM.Interested) else if id == 3 then Ok(PM.NotInterested)
             else if id == 14 then Ok(PM.HaveAll) else if id == 15 then Ok(PM.HaveNone)
             else if id == 5 then Ok(PM.Bitfield(rest))
             else if (id == 4 && |rest| < 4) || (id in {6, 8} && |rest| < 12) || (id == 7 && |rest| < 8)
                     || (id == 20 && |rest| < 1) then Err(PM.TooShort)
             else if id == 4 then Ok(PM.Have(FromBigEndian32(rest)))
             else if id == 6 then
               Ok(PM.Request(FromBigEndian32(rest), FromBigEndian32(rest[4..]), FromBigEndian32(rest[8..])))
             else if id == 8 then
               Ok(PM.Cancel(FromBigEndian32(rest), FromBigEndian32(rest[4..]), FromBigEndian32(rest[8..])))
             else if id == 7 then Ok(PM.Piece(FromBigEndian32(rest), FromBigEndian32(rest[4..]), rest[8..]))
             else if id == 20 then Ok(PM.Extended(rest[0], rest[1..]))
             else Ok(PM.Unknown(id)))
  {
    hide FromBigEndian32;
    PM.HeadAndFields(id, rest);
  }

  // ---------------------------------------------------------------------- keys

  lemma InfoKeys()
    ensures MI.KEY_PIECE_LENGTH == Ascii("piece length") && MI.KEY_PIECES == Ascii("pieces")
    ensures MI.KEY_NAME == Ascii("name") && MI.KEY_FILES == Ascii("files")
    ensures MI.KEY_LENGTH == Ascii("length") && MI.KEY_PATH == Ascii("path")
  {
  }

  lemma FileKeys()
    ensures MI.KEY_INFO == Ascii("info") && MI.KEY_ANNOUNCE == Ascii("announce")
    ensures MI.KEY_ANNOUNCE_LIST == Ascii("announce-list") && MI.KEY_CREATION_DATE == Ascii("creation date")
    ensures MI.KEY_COMMENT == Ascii("comment") && MI.KEY_CREATED_BY == Ascii("created by")
  {
  }

  lemma MetadataKeys()
    ensures EX.KEY_MSG_TYPE == Ascii("msg_type") && EX.KEY_PIECE == Ascii("piece")
    ensures EX.KEY_TOTAL_SIZE == Ascii("total_size")
  {
  }

  // ----------------------------------------------------------------- bencoding

  /** Digits go most significant first. */
  lemma DigitsAre(n: nat)
    ensures n < 10 ==> Numeral(n) == [0x30 + n]
    ensures n >= 10 ==> Numeral(n) == Numeral(n / 10) + [0x30 + n % 10]
  {
  }

  /** Each kind of value between its own marks. */
  lemma ValueBytes(v: BValue)
    ensures Encode(v)
         == match v
            case Int(n) => Ascii("i") + (if n < 0 then Ascii("-") + Numeral(-(n as int)) else Numeral(n)) + Ascii("e")
            case Bytes(b) => Numeral(|b|) + Ascii(":") + b
            case List(items) => Ascii("l") + EncodeItems(items) + Ascii("e")
            case Dict(es) => Ascii("d") + EncodeEntries(es) + Ascii("e")
  {
    hide Numeral, EncodeItems, EncodeEntries;
    assert Ascii("i") == [CHAR_I] && Ascii("e") == [CHAR_E] && Ascii("l") == [CHAR_L] && Ascii("d") == [CHAR_D];
    assert Ascii(":") == [COLON] && Ascii("-") == [MINUS];
  }

  /** Items follow one another, and entries are their keys and values. */
  lemma ContainerBytes(v: BValue, items: seq<BValue>, key: Bytes, value: BValue, es: seq<Entry>)
    ensures EncodeItems([v] + items) == Encode(v) + EncodeItems(items)
    ensures EncodeEntries([Entry(key, value)] + es) == Encode(BValue.Bytes(key)) + Encode(value) + EncodeEntries(es)
  {
    assert ([v] + items)[1..] == items;
    assert ([Entry(key, value)] + es)[1..] == es;
  }

  // ------------------------------------------------------- what the decoder takes

  lemma {:induction false} NumeralOfDigits(s: Bytes)
    requires AllDigits(s) && s != [] && (|s| > 1 ==> s[0] != ZERO)
    ensures Numeral(NumeralValue(s)) == s && (NumeralValue(s) == 0 ==> s == [ZERO])
  {
    var n := |s| - 1;
    if n == 0 {
      assert s[..0] == [];
    } else {
      NumeralOfDigits(s[..n]);
      assert s == s[..n] + [s[n]];
    }
  }

  /**
   * Between i and e there must stand the numeral itself, in 64 bits, or digits after a plus sign: leading
   * zeros and a negative zero are refused.
   */
  lemma IntTextIff(text: Bytes, start: nat, n: i64)
    ensures ParseIntText(text, start) == Ok(n) <==>
      (|| text == SignedNumeral(n)
       || (|text| > 1 && text[0] == PLUS && AllDigits(text[1..]) && NumeralValue(text[1..]) == n))
  {
    if text == SignedNumeral(n) {
      SignedNumeralText(n, start);
    }
    hide Numeral, NumeralValue;
    if |text| > 1 && text[0] == PLUS && AllDigits(text[1..]) && NumeralValue(text[1..]) == n {
      AsciiIsUtf8(text);
    }
    if ParseIntText(text, start) == Ok(n) {
      var digits := if text[0] == MINUS || text[0] == PLUS then text[1..] else text;
      if text[0] != PLUS {
        NumeralOfDigits(digits);
        if text[0] == MINUS {
          assert text == [MINUS] + digits;
          assert digits[0] == text[1];
        }
      }
    }
  }

  /** The length of a byte string may be written with any digits of that value, leading zeros included. */
  lemma AnyLengthDigits(digits: Bytes, b: Bytes, tail: Bytes)
    requires AllDigits(digits) && digits != [] && NumeralValue(digits) == |b|
    requires |digits + [COLON] + b + tail| <= USIZE_MAX
    ensures DecodeValue(digits + [COLON] + b + tail, 0, 0) == Success(BValue.Bytes(b), |digits| + 1 + |b|)
  {
    hide NumeralValue;
    var s := digits + [COLON] + b + tail;
    assert At(s, 0, digits + [COLON]);
    assert digits[..0] == [];
    EmptyNumeral();
    LengthDigits(s, 0, 0, digits, 0);
    assert s[0] == digits[0];
    assert s[|digits| + 1..|digits| + 1 + |b|] == b;
  }

  lemma EmptyNumeral()
    ensures NumeralValue([]) == 0
  {
  }

  /** What is left after entries are written one after another, in any order and with any repetition. */
  function Overwritten(acc: seq<Entry>, es: seq<Entry>): seq<Entry>
    decreases |es|
  {
    if es == [] then acc else Overwritten(Insert(acc, es[0].key, es[0].value), es[1..])
  }

  lemma {:induction false} EntriesInAnyOrder(s: Bytes, pos: nat, acc: seq<Entry>, es: seq<Entry>, depth: nat)
    requires depth <= MAX_DEPTH && FitsEntries(es, MAX_DEPTH - depth) && Sorted(acc)
    requires At(s, pos, EncodeEntries(es)) && pos + |EncodeEntries(es)| < |s| <= USIZE_MAX
    requires s[pos + |EncodeEntries(es)|] == CHAR_E
    requires |acc| + |es| <= MAX_ELEMENTS
    ensures DecodeEntries(s, pos, depth, acc) == Success(Overwritten(acc, es), pos + |EncodeEntries(es)| + 1)
    decreases es
  {
    hide DecodeValue, Encode, EncodeBytes, Insert, Sorted;
    if es != [] {
      var k, v := es[0].key, es[0].value;
      AtSplit(s, pos, EncodeBytes(k) + Encode(v), EncodeEntries(es[1..]));
      AtSplit(s, pos, EncodeBytes(k), Encode(v));
      var mid := pos + |EncodeBytes(k)|;
      KeyRoundTrip(s, pos, k, depth);
      ValueRoundTrip(s, mid, v, depth);
      InsertSorted(acc, k, v);
      EntriesInAnyOrder(s, mid + |Encode(v)|, Insert(acc, k, v), es[1..], depth);
    }
  }

  /** A dictionary may list its keys in any order and more than once. */
  lemma DictInAnyOrder(es: seq<Entry>, tail: Bytes)
    requires FitsEntries(es, MAX_DEPTH - 1) && |es| <= MAX_ELEMENTS
    requires |[CHAR_D] + EncodeEntries(es) + [CHAR_E] + tail| <= USIZE_MAX
    ensures DecodeValue([CHAR_D] + EncodeEntries(es) + [CHAR_E] + tail, 0, 0)
         == Success(Dict(Overwritten([], es)), |EncodeEntries(es)| + 2)
  {
    hide DecodeEntries, EncodeEntries, Overwritten, Fits;
    var s := [CHAR_D] + EncodeEntries(es) + [CHAR_E] + tail;
    assert At(s, 0, [CHAR_D] + EncodeEntries(es) + [CHAR_E]);
    Bracketed(s, 0, CHAR_D, EncodeEntries(es));
    EntriesInAnyOrder(s, 1, [], es, 1);
  }

  // ---------------------------------------------------------- metadata messages

  lemma {:induction false} InsertLast(es: seq<Entry>, key: Bytes, value: BValue)
    requires forall i :: 0 <= i < |es| ==> Less(es[i].key, key)
    ensures Insert(es, key, value) == es + [Entry(key, value)]
  {
    if es != [] {
      LessIrreflexive(key);
      if Less(key, es[0].key) {
        LessTransitive(key, es[0].key, key);
      }
      InsertLast(es[1..], key, value);
    }
  }

  lemma KeyOrder()
    ensures Less(EX.KEY_MSG_TYPE, EX.KEY_PIECE) && Less(EX.KEY_PIECE, EX.KEY_TOTAL_SIZE)
    ensures Less(EX.KEY_MSG_TYPE, EX.KEY_TOTAL_SIZE)
  {
  }

  /** The fields of a message in the order of their keys. */
  lemma HeaderIs(m: EX.MetadataMessage)
    ensures EX.Header(m)
         == [Entry(EX.KEY_MSG_TYPE, Int(if m.Request? then 0 else if m.Data? then 1 else 2)),
             Entry(EX.KEY_PIECE, Int(m.piece))]
            + if m.Data? then [Entry(EX.KEY_TOTAL_SIZE, Int(EX.AsI64(m.totalSize)))] else []
  {
    hide Less, Insert;
    KeyOrder();
    var kind := Int(if m.Request? then 0 else if m.Data? then 1 else 2);
    var e1 := [Entry(EX.KEY_MSG_TYPE, kind)];
    var e2 := e1 + [Entry(EX.KEY_PIECE, Int(m.piece))];
    InsertLast([], EX.KEY_MSG_TYPE, kind);
    assert Insert([], EX.KEY_MSG_TYPE, kind) == e1;
    InsertLast(e1, EX.KEY_PIECE, Int(m.piece));
    if m.Data? {
      InsertLast(e2, EX.KEY_TOTAL_SIZE, Int(EX.AsI64(m.totalSize)));
    }
  }

  /** An integer field, its key spelled out with the key's length in front. */
  function Labelled(head: string, n: int): Bytes
    requires forall i :: 0 <= i < |head| ==> head[i] < 128 as char
  {
    Ascii(head) + SignedNumeral(n) + Ascii("e")
  }

  lemma Signed(n: int)
    ensures SignedNumeral(n) == if n < 0 then Ascii("-") + Numeral(-n) else Numeral(n)
  {
    hide Numeral;
    assert Ascii("-") == [MINUS];
  }

  lemma Field(key: Bytes, head: string, n: i64, es: seq<Entry>)
    requires forall i :: 0 <= i < |head| ==> head[i] < 128 as char
    requires Numeral(|key|) + Ascii(":") + key + Ascii("i") == Ascii(head)
    ensures EncodeEntries([Entry(key, Int(n))] + es) == Labelled(head, n) + EncodeEntries(es)
  {
    hide Encode, EncodeItems, EncodeEntries, Numeral, Ascii;
    ContainerBytes(Int(n), [], key, Int(n), es);
    ValueBytes(Int(n));
    ValueBytes(BValue.Bytes(key));
    var number := if n < 0 then Ascii("-") + Numeral(-(n as int)) else Numeral(n);
    Signed(n);
    Regroup(Numeral(|key|) + Ascii(":") + key, Ascii("i"), number, Ascii("e"));
  }

  lemma Regroup(a: Bytes, b: Bytes, c: Bytes, d: Bytes)
    ensures a + (b + c + d) == a + b + c + d
  {
  }

  lemma Labels()
    ensures Numeral(|EX.KEY_MSG_TYPE|) + Ascii(":") + EX.KEY_MSG_TYPE + Ascii("i") == Ascii("8:msg_typei")
    ensures Numeral(|EX.KEY_PIECE|) + Ascii(":") + EX.KEY_PIECE + Ascii("i") == Ascii("5:piecei")
    ensures Numeral(|EX.KEY_TOTAL_SIZE|) + Ascii(":") + EX.KEY_TOTAL_SIZE + Ascii("i") == Ascii("10:total_sizei")
  {
    assert Numeral(10) == Numeral(1) + [0x30] == [0x31] + [0x30] == Ascii("10");
  }

  lemma NoEntries()
    ensures EncodeEntries([]) == []
  {
  }

  /** A metadata message: a dictionary of its kind, its piece and, for data, the total size, and then the data. */
  lemma MetadataBytes(m: EX.MetadataMessage)
    ensures EX.ToBytes(m)
         == match m
            case Request(piece) => Ascii("d") + Labelled("8:msg_typei", 0) + Labelled("5:piecei", piece) + Ascii("e")
            case Data(piece, totalSize, data) =>
              Ascii("d") + Labelled("8:msg_typei", 1) + Labelled("5:piecei", piece)
              + Labelled("10:total_sizei", EX.AsI64(totalSize)) + Ascii("e") + data
            case Reject(piece) => Ascii("d") + Labelled("8:msg_typei", 2) + Labelled("5:piecei", piece) + Ascii("e")
  {
    hide Encode, EncodeEntries, EX.Header, EX.AsI64, Numeral, Labelled, Ascii;
    HeaderIs(m);
    ValueBytes(Dict(EX.Header(m)));
    var kind := if m.Request? then 0 else if m.Data? then 1 else 2;
    var size := if m.Data? then [Entry(EX.KEY_TOTAL_SIZE, Int(EX.AsI64(m.totalSize)))] else [];
    var rest := [Entry(EX.KEY_PIECE, Int(m.piece))] + size;
    assert EX.Header(m) == [Entry(EX.KEY_MSG_TYPE, Int(kind))] + rest;
    Labels();
    Field(EX.KEY_MSG_TYPE, "8:msg_typei", kind, rest);
    Field(EX.KEY_PIECE, "5:piecei", m.piece, size);
    if m.Data? {
      Field(EX.KEY_TOTAL_SIZE, "10:total_sizei", EX.AsI64(m.totalSize), []);
      assert size == [Entry(EX.KEY_TOTAL_SIZE, Int(EX.AsI64(m.totalSize)))] + [];
    }
    NoEntries();
  }
}
