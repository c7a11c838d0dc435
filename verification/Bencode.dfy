/** Bencoded values, the canonical encoder, and what the recursive decoder accepts. */
module Bencode {
  import opened ByteStrings
  import opened Wrappers
  import opened Decimal

  const MAX_DEPTH: nat := 64
  const MAX_ELEMENTS: nat := 1_000_000

  const CHAR_I: byte := 0x69
  const CHAR_L: byte := 0x6C
  const CHAR_D: byte := 0x64
  const CHAR_E: byte := 0x65
  const COLON: byte := 0x3A

  /** A dictionary is the sorted sequence of its entries, as a BTreeMap iterates it. */
  datatype BValue =
    | Int(n: i64)
    | Bytes(bytes: Bytes)
    | List(items: seq<BValue>)
    | Dict(entries: seq<Entry>)
  {
    function AsBytes(): Option<Bytes> {
      if Bytes? then Some(bytes) else None
    }

    function AsStr(): Option<Bytes> {
      if Bytes? && Utf8(bytes) then Some(bytes) else None
    }

    function AsList(): Option<seq<BValue>> {
      if List? then Some(items) else None
    }

    function Get(key: ByteStrings.Bytes): Option<BValue> {
      if Dict? then Lookup(entries, key) else None
    }
  }

  datatype Entry = Entry(key: Bytes, value: BValue)

  function Lookup(es: seq<Entry>, key: Bytes): Option<BValue> {
    if es == [] then None
    else if es[0].key == key then Some(es[0].value)
    else Lookup(es[1..], key)
  }

  /** Insertion into the sorted map; an existing key keeps its place and takes the new value. */
  function Insert(es: seq<Entry>, key: Bytes, value: BValue): seq<Entry> {
    if es == [] || Less(key, es[0].key) then [Entry(key, value)] + es
    else if es[0].key == key then [Entry(key, value)] + es[1..]
    else [es[0]] + Insert(es[1..], key, value)
  }

  ghost predicate Sorted(es: seq<Entry>) {
    forall i, j :: 0 <= i < j < |es| ==> Less(es[i].key, es[j].key)
  }

  lemma {:induction false} InsertSorted(es: seq<Entry>, key: Bytes, value: BValue)
    requires Sorted(es)
    ensures Sorted(Insert(es, key, value))
    ensures |es| <= |Insert(es, key, value)| <= |es| + 1
    ensures forall e :: e in Insert(es, key, value) ==> e in es || e == Entry(key, value)
  {
    if es == [] {
    } else if Less(key, es[0].key) {
      forall j | 0 <= j < |es|
        ensures Less(key, es[j].key)
      {
        if j > 0 {
          LessTransitive(key, es[0].key, es[j].key);
        }
      }
    } else if es[0].key != key {
      LessTotal(key, es[0].key);
      InsertSorted(es[1..], key, value);
      var rest := Insert(es[1..], key, value);
      forall j | 0 <= j < |rest|
        ensures Less(es[0].key, rest[j].key)
      {
        assert rest[j] in rest;
      }
    }
  }

  /** The map laws of insertion: the last value written under a key is the one found. */
  lemma {:induction false} LookupInsert(es: seq<Entry>, key: Bytes, value: BValue, k: Bytes)
    ensures Lookup(Insert(es, key, value), k) == if k == key then Some(value) else Lookup(es, k)
  {
    if es != [] && !Less(key, es[0].key) && es[0].key != key {
      LookupInsert(es[1..], key, value, k);
    }
  }

  lemma {:induction false} InsertLast(es: seq<Entry>, key: Bytes, value: BValue)
    requires forall i :: 0 <= i < |es| ==> Less(es[i].key, key)
    ensures Insert(es, key, value) == es + [Entry(key, value)]
  {
    if es != [] {
      LessAsymmetric(es[0].key, key);
      InsertLast(es[1..], key, value);
      assert es == [es[0]] + es[1..];
    }
  }

  // ---------------------------------------------------------------- encoding

  function Encode(v: BValue): Bytes {
    match v
    case Int(n) => [CHAR_I] + SignedNumeral(n) + [CHAR_E]
    case Bytes(b) => EncodeBytes(b)
    case List(items) => [CHAR_L] + EncodeItems(items) + [CHAR_E]
    case Dict(entries) => [CHAR_D] + EncodeEntries(entries) + [CHAR_E]
  }

  function EncodeBytes(b: Bytes): Bytes {
    Numeral(|b|) + [COLON] + b
  }

  function EncodeItems(items: seq<BValue>): Bytes {
    if items == [] then [] else Encode(items[0]) + EncodeItems(items[1..])
  }

  function EncodeEntries(es: seq<Entry>): Bytes {
    if es == [] then []
    else EncodeBytes(es[0].key) + Encode(es[0].value) + EncodeEntries(es[1..])
  }

  // -------------------------------------------------------- well-formed values

  /** A value the decoder can build: sorted dictionaries, nesting and container sizes in bounds. */
  ghost predicate Fits(v: BValue, levels: nat) {
    match v
    case Int(_) => true
    case Bytes(_) => true
    case List(items) => levels > 0 && |items| <= MAX_ELEMENTS && FitsItems(items, levels - 1)
    case Dict(es) => levels > 0 && |es| <= MAX_ELEMENTS && Sorted(es) && FitsEntries(es, levels - 1)
  }

  ghost predicate FitsItems(items: seq<BValue>, levels: nat) {
    forall i :: 0 <= i < |items| ==> Fits(items[i], levels)
  }

  ghost predicate FitsEntries(es: seq<Entry>, levels: nat) {
    forall i :: 0 <= i < |es| ==> Fits(es[i].value, levels)
  }

  // ---------------------------------------------------------------- decoding

  datatype DecodeError =
    | UnexpectedEof(pos: nat)
    | InvalidByte(b: byte, pos: nat)
    | InvalidInteger(pos: nat)
    | LeadingZero(pos: nat)
    | NegativeZero(pos: nat)
    | InvalidStringLength(pos: nat)
    | StringLengthOverflow(pos: nat)
    | NestingTooDeep(pos: nat)
    | TooManyElements(pos: nat)

  /** A decoded value and the position just after it, or an error. */
  datatype Parse<+T> = Success(value: T, end: nat) | Failure(error: DecodeError)

  function FindByte(s: Bytes, from: nat, b: byte): (r: Option<nat>)
    requires from <= |s|
    ensures r.Some? ==> from <= r.value < |s| && s[r.value] == b && forall i :: from <= i < r.value ==> s[i] != b
    ensures r.None? ==> forall i :: from <= i < |s| ==> s[i] != b
    decreases |s| - from
  {
    if from == |s| then None else if s[from] == b then Some(from) else FindByte(s, from + 1, b)
  }

  /** The text between `i` and `e`, with the position `start` its errors report. */
  function ParseIntText(text: Bytes, start: nat): Result<i64, DecodeError> {
    if !Utf8(text) then Err(InvalidInteger(start))
    else if |text| > 1 && text[0] == ZERO then Err(LeadingZero(start))
    else if text == [MINUS, ZERO] then Err(NegativeZero(start))
    else if |text| > 1 && text[0] == MINUS && text[1] == ZERO then Err(LeadingZero(start))
    else match ParseI64(text)
      case Some(n) => Ok(n)
      case None => Err(InvalidInteger(start))
  }

  function DecodeInt(s: Bytes, pos: nat): (r: Parse<BValue>)
    requires pos < |s|
    ensures r.Success? ==> pos < r.end <= |s|
  {
    match FindByte(s, pos + 1, CHAR_E)
    case None => Failure(UnexpectedEof(pos + 1))
    case Some(end) =>
      match ParseIntText(s[pos + 1..end], pos + 1)
      case Ok(n) => Success(Int(n), end + 1)
      case Err(e) => Failure(e)
  }

  /** The length digits of a byte string, up to and including the colon. */
  function DecodeLength(s: Bytes, pos: nat, start: nat, acc: nat): (r: Parse<nat>)
    requires pos <= |s|
    ensures r.Success? ==> pos < r.end <= |s|
    decreases |s| - pos
  {
    if pos == |s| then Failure(UnexpectedEof(pos))
    else if s[pos] == COLON then Success(acc, pos + 1)
    else if !IsDigit(s[pos]) then Failure(InvalidStringLength(start))
    else if acc * 10 + (s[pos] - ZERO) > USIZE_MAX then Failure(StringLengthOverflow(start))
    else DecodeLength(s, pos + 1, start, acc * 10 + (s[pos] - ZERO))
  }

  function DecodeBytes(s: Bytes, pos: nat): (r: Parse<BValue>)
    requires pos <= |s|
    ensures r.Success? ==> pos < r.end <= |s|
  {
    match DecodeLength(s, pos, pos, 0)
    case Failure(e) => Failure(e)
    case Success(length, p) =>
      if p + length > USIZE_MAX then Failure(StringLengthOverflow(pos))
      else if p + length > |s| then Failure(UnexpectedEof(p))
      else Success(Bytes(s[p..p + length]), p + length)
  }

  /** One value at `pos`, `depth` containers being open. */
  function DecodeValue(s: Bytes, pos: nat, depth: nat): (r: Parse<BValue>)
    requires pos <= |s|
    ensures r.Success? ==> pos < r.end <= |s|
    decreases |s| - pos, 0
  {
    if pos == |s| then Failure(UnexpectedEof(pos))
    else if s[pos] == CHAR_I then DecodeInt(s, pos)
    else if s[pos] == CHAR_L || s[pos] == CHAR_D then
      if depth >= MAX_DEPTH then Failure(NestingTooDeep(pos))
      else if s[pos] == CHAR_L then
        match DecodeItems(s, pos + 1, depth + 1, 0)
        case Success(items, end) => Success(List(items), end)
        case Failure(e) => Failure(e)
      else
        match DecodeEntries(s, pos + 1, depth + 1, [])
        case Success(es, end) => Success(Dict(es), end)
        case Failure(e) => Failure(e)
    else if IsDigit(s[pos]) then DecodeBytes(s, pos)
    else Failure(InvalidByte(s[pos], pos))
  }

  /** The rest of a list, `count` items having been read. */
  function DecodeItems(s: Bytes, pos: nat, depth: nat, count: nat): (r: Parse<seq<BValue>>)
    requires pos <= |s|
    ensures r.Success? ==> pos < r.end <= |s|
    decreases |s| - pos, 1
  {
    if pos == |s| then Failure(UnexpectedEof(pos))
    else if s[pos] == CHAR_E then Success([], pos + 1)
    else if count >= MAX_ELEMENTS then Failure(TooManyElements(pos))
    else
      match DecodeValue(s, pos, depth)
      case Failure(e) => Failure(e)
      case Success(v, next) =>
        match DecodeItems(s, next, depth, count + 1)
        case Failure(e) => Failure(e)
        case Success(rest, end) => Success([v] + rest, end)
  }

  /** The rest of a dictionary, `acc` being the map built so far. */
  function DecodeEntries(s: Bytes, pos: nat, depth: nat, acc: seq<Entry>): (r: Parse<seq<Entry>>)
    requires pos <= |s|
    ensures r.Success? ==> pos < r.end <= |s|
    decreases |s| - pos, 1
  {
    if pos == |s| then Failure(UnexpectedEof(pos))
    else if s[pos] == CHAR_E then Success(acc, pos + 1)
    else if |acc| >= MAX_ELEMENTS then Failure(TooManyElements(pos))
    else
      match DecodeValue(s, pos, depth)
      case Failure(e) => Failure(e)
      case Success(key, mid) =>
        if !key.Bytes? then Failure(InvalidByte(s[pos], pos))
        else
          match DecodeValue(s, mid, depth)
          case Failure(e) => Failure(e)
          case Success(v, next) => DecodeEntries(s, next, depth, Insert(acc, key.bytes, v))
  }
}
