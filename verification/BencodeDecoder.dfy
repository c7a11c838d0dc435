/** The decoder object: a position and a depth budget over borrowed bytes, and the buffer encoder. */
module BencodeDecoder {
  import opened ByteStrings
  import opened Wrappers
  import opened Decimal
  import opened Bencode
  import opened Buffers

  datatype DecodeResult = DecodeResult(value: BValue, start: nat, end: nat)

  ghost function Prepend<T>(front: seq<T>, r: Parse<seq<T>>): Parse<seq<T>> {
    match r
    case Success(rest, end) => Success(front + rest, end)
    case Failure(e) => Failure(e)
  }

  class Decoder {
    const data: Bytes
    var pos: nat
    var depth: nat

    constructor (data: Bytes)
      ensures this.data == data && pos == 0 && depth == 0
    {
      this.data := data;
      pos, depth := 0, 0;
    }

    /** The outcome r matches the specification; depth is restored and pos never leaves the input. */
    twostate predicate Follows<T(!new)>(new r: Result<T, DecodeError>, spec: Parse<T>)
      reads this
    {
      && depth == old(depth)
      && old(pos) <= pos <= |data|
      && match spec
         case Success(v, end) => r == Ok(v) && pos == end
         case Failure(e) => r == Err(e)
    }

    function Peek(): (r: Result<byte, DecodeError>)
      requires pos <= |data|
      reads this
      ensures r == if pos < |data| then Ok(data[pos]) else Err(UnexpectedEof(pos))
    {
      if pos < |data| then Ok(data[pos]) else Err(UnexpectedEof(pos))
    }

    method Decode() returns (r: Result<DecodeResult, DecodeError>)
      requires pos <= |data|
      modifies this
      ensures depth == old(depth) && old(pos) <= pos <= |data|
      ensures match DecodeValue(data, old(pos), old(depth))
              case Success(v, end) => r == Ok(DecodeResult(v, old(pos), end)) && pos == end
              case Failure(e) => r == Err(e)
    {
      var start := pos;
      var v := DecodeAny();
      match v
      case Ok(value) => r := Ok(DecodeResult(value, start, pos));
      case Err(e) => r := Err(e);
    }

    method DecodeAny() returns (r: Result<BValue, DecodeError>)
      requires pos <= |data|
      modifies this
      ensures Follows(r, DecodeValue(data, old(pos), old(depth)))
      decreases |data| - pos, 1
    {
      match Peek()
      case Err(e) => return Err(e);
      case Ok(b) =>
        if b == CHAR_I {
          r := DecodeInteger();
        } else if b == CHAR_L || b == CHAR_D {
          if depth >= MAX_DEPTH {
            return Err(NestingTooDeep(pos));
          }
          depth := depth + 1;
          if data[pos] == CHAR_L {
            r := DecodeList();
          } else {
            r := DecodeDict();
          }
          depth := depth - 1;
        } else if IsDigit(b) {
          r := DecodeString();
        } else {
          r := Err(InvalidByte(b, pos));
        }
    }

    method DecodeInteger() returns (r: Result<BValue, DecodeError>)
      requires pos < |data| && data[pos] == CHAR_I
      modifies this
      ensures Follows(r, DecodeInt(data, old(pos)))
    {
      pos := pos + 1;
      var start := pos;
      var endPos := pos;
      while endPos < |data| && data[endPos] != CHAR_E
        invariant start <= endPos <= |data|
        invariant forall i :: start <= i < endPos ==> data[i] != CHAR_E
      {
        endPos := endPos + 1;
      }
      if endPos == |data| {
        return Err(UnexpectedEof(pos));
      }
      match ParseIntText(data[start..endPos], start)
      case Err(e) => r := Err(e);
      case Ok(n) =>
        pos := endPos + 1;
        r := Ok(Int(n));
    }

    method DecodeString() returns (r: Result<BValue, DecodeError>)
      requires pos < |data|
      modifies this
      ensures Follows(r, DecodeBytes(data, old(pos)))
    {
      var start := pos;
      var length: nat := 0;
      while true
        invariant start <= pos <= |data| && depth == old(depth)
        invariant DecodeLength(data, start, start, 0) == DecodeLength(data, pos, start, length)
        decreases |data| - pos
      {
        if pos == |data| {
          return Err(UnexpectedEof(pos));
        }
        var b := data[pos];
        if b == COLON {
          pos := pos + 1;
          break;
        }
        if !IsDigit(b) {
          return Err(InvalidStringLength(start));
        }
        pos := pos + 1;
        var next := length * 10 + (b - ZERO);
        if next > USIZE_MAX {
          return Err(StringLengthOverflow(start));
        }
        length := next;
      }
      assert DecodeLength(data, start, start, 0) == Success(length, pos);
      if pos + length > USIZE_MAX {
        return Err(StringLengthOverflow(start));
      }
      var end := pos + length;
      if end > |data| {
        return Err(UnexpectedEof(pos));
      }
      var bytes := data[pos..end];
      pos := end;
      r := Ok(BValue.Bytes(bytes));
    }

    method DecodeList() returns (r: Result<BValue, DecodeError>)
      requires pos < |data| && data[pos] == CHAR_L
      modifies this
      ensures depth == old(depth) && old(pos) <= pos <= |data|
      ensures match DecodeItems(data, old(pos) + 1, depth, 0)
              case Success(items, end) => r == Ok(List(items)) && pos == end
              case Failure(e) => r == Err(e)
      decreases |data| - pos, 0
    {
      pos := pos + 1;
      var items: seq<BValue> := [];
      ghost var spec := DecodeItems(data, pos, depth, 0);
      assert spec.Success? ==> [] + spec.value == spec.value;
      while true
        invariant old(pos) < pos <= |data| && depth == old(depth)
        invariant spec == Prepend(items, DecodeItems(data, pos, depth, |items|))
        decreases |data| - pos
      {
        if pos == |data| {
          return Err(UnexpectedEof(pos));
        }
        if data[pos] == CHAR_E {
          break;
        }
        if |items| >= MAX_ELEMENTS {
          return Err(TooManyElements(pos));
        }
        ghost var at := pos;
        var v := DecodeAny();
        if v.Err? {
          return Err(v.error);
        }
        ItemsStep(data, at, depth, items, v.value, pos);
        items := items + [v.value];
      }
      assert items + [] == items;
      pos := pos + 1;
      r := Ok(List(items));
    }

    method DecodeDict() returns (r: Result<BValue, DecodeError>)
      requires pos < |data| && data[pos] == CHAR_D
      modifies this
      ensures depth == old(depth) && old(pos) <= pos <= |data|
      ensures match DecodeEntries(data, old(pos) + 1, depth, [])
              case Success(es, end) => r == Ok(Dict(es)) && pos == end
              case Failure(e) => r == Err(e)
      decreases |data| - pos, 0
    {
      hide DecodeValue, Insert;
      pos := pos + 1;
      var entries: seq<Entry> := [];
      ghost var spec := DecodeEntries(data, pos, depth, []);
      while true
        invariant old(pos) < pos <= |data| && depth == old(depth)
        invariant spec == DecodeEntries(data, pos, depth, entries)
        decreases |data| - pos
      {
        if pos == |data| {
          return Err(UnexpectedEof(pos));
        }
        if data[pos] == CHAR_E {
          break;
        }
        if |entries| >= MAX_ELEMENTS {
          return Err(TooManyElements(pos));
        }
        var keyStart := pos;
        var key := DecodeAny();
        if key.Err? {
          return Err(key.error);
        }
        if !key.value.Bytes? {
          return Err(InvalidByte(data[keyStart], keyStart));
        }
        var value := DecodeAny();
        if value.Err? {
          return Err(value.error);
        }
        entries := Insert(entries, key.value.bytes, value.value);
      }
      pos := pos + 1;
      r := Ok(Dict(entries));
    }
  }

  lemma ItemsStep(s: Bytes, pos: nat, depth: nat, items: seq<BValue>, v: BValue, next: nat)
    requires pos < |s| && s[pos] != CHAR_E && |items| < MAX_ELEMENTS
    requires DecodeValue(s, pos, depth) == Success(v, next)
    ensures Prepend(items, DecodeItems(s, pos, depth, |items|))
         == Prepend(items + [v], DecodeItems(s, next, depth, |items| + 1))
  {
    hide DecodeValue;
    var rest := DecodeItems(s, next, depth, |items| + 1);
    if rest.Success? {
      assert items + ([v] + rest.value) == items + [v] + rest.value;
    }
  }

  // ------------------------------------------------------- appending encoder

  method AppendString(b: Bytes, buf: ByteBuffer)
    modifies buf
    ensures buf.bytes == old(buf.bytes) + EncodeBytes(b)
  {
    buf.Extend(Numeral(|b|));
    buf.PutU8(COLON);
    buf.Extend(b);
  }

  /** `encode_to`: append the encoding of v to the buffer. */
  method EncodeTo(v: BValue, buf: ByteBuffer)
    modifies buf
    ensures buf.bytes == old(buf.bytes) + Encode(v)
    decreases v, 1
  {
    match v
    case Int(n) =>
      buf.PutU8(CHAR_I);
      buf.Extend(SignedNumeral(n));
      buf.PutU8(CHAR_E);
    case Bytes(b) =>
      AppendString(b, buf);
    case List(items) =>
      EncodeListTo(items, buf);
    case Dict(es) =>
      EncodeDictTo(es, buf);
  }

  method EncodeListTo(items: seq<BValue>, buf: ByteBuffer)
    modifies buf
    ensures buf.bytes == old(buf.bytes) + ([CHAR_L] + EncodeItems(items) + [CHAR_E])
    decreases items, 0
  {
    hide EncodeItems, Encode;
    buf.PutU8(CHAR_L);
    ghost var start := buf.bytes;
    EmptyEncodings();
    for i := 0 to |items|
      invariant buf.bytes == start + EncodeItems(items[..i])
    {
      EncodeTo(items[i], buf);
      ItemsSnoc(items, i);
    }
    assert items[..|items|] == items;
    buf.PutU8(CHAR_E);
  }

  method EncodeDictTo(es: seq<Entry>, buf: ByteBuffer)
    modifies buf
    ensures buf.bytes == old(buf.bytes) + ([CHAR_D] + EncodeEntries(es) + [CHAR_E])
    decreases es, 0
  {
    hide EncodeEntries, Encode, EncodeBytes;
    buf.PutU8(CHAR_D);
    ghost var start := buf.bytes;
    EmptyEncodings();
    for i := 0 to |es|
      invariant buf.bytes == start + EncodeEntries(es[..i])
    {
      AppendString(es[i].key, buf);
      EncodeTo(es[i].value, buf);
      EntriesSnoc(es, i);
    }
    assert es[..|es|] == es;
    buf.PutU8(CHAR_E);
  }

  lemma EmptyEncodings()
    ensures EncodeItems([]) == [] && EncodeEntries([]) == []
  {
  }

  lemma {:induction false} ItemsSnoc(items: seq<BValue>, i: nat)
    requires i < |items|
    ensures EncodeItems(items[..i + 1]) == EncodeItems(items[..i]) + Encode(items[i])
  {
    hide Encode;
    if i == 0 {
      assert items[..1][1..] == [];
    } else {
      ItemsSnoc(items[1..], i - 1);
      assert items[..i + 1][1..] == items[1..][..i];
      assert items[..i][1..] == items[1..][..i - 1];
    }
  }

  lemma {:induction false} EntriesSnoc(es: seq<Entry>, i: nat)
    requires i < |es|
    ensures EncodeEntries(es[..i + 1])
         == EncodeEntries(es[..i]) + EncodeBytes(es[i].key) + Encode(es[i].value)
  {
    hide EncodeBytes, Encode;
    if i == 0 {
      assert es[..1][1..] == [];
    } else {
      EntriesSnoc(es[1..], i - 1);
      assert es[..i + 1][1..] == es[1..][..i];
      assert es[..i][1..] == es[1..][..i - 1];
    }
  }
}
