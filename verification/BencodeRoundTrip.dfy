/** Decoding inverts encoding, wherever the encoding stands in the input. */
module BencodeRoundTrip {
  import opened ByteStrings
  import opened Wrappers
  import opened Decimal
  import opened Bencode

  /** The string w stands in s at position pos. */
  ghost predicate At(s: Bytes, pos: nat, w: Bytes) {
    pos + |w| <= |s| && s[pos..pos + |w|] == w
  }

  lemma AtSplit(s: Bytes, pos: nat, a: Bytes, b: Bytes)
    ensures At(s, pos, a + b) <==> At(s, pos, a) && At(s, pos + |a|, b)
  {
    if At(s, pos, a + b) {
      var w := s[pos..pos + |a + b|];
      assert s[pos..pos + |a|] == w[..|a|] == a;
      assert s[pos + |a|..pos + |a| + |b|] == w[|a|..] == b;
    }
    if At(s, pos, a) && At(s, pos + |a|, b) {
      assert s[pos..pos + |a + b|] == s[pos..pos + |a|] + s[pos + |a|..pos + |a| + |b|];
    }
  }

  lemma AtIndex(s: Bytes, pos: nat, w: Bytes, i: nat)
    requires At(s, pos, w) && i < |w|
    ensures s[pos + i] == w[i]
  {
    assert s[pos..pos + |w|][i] == w[i];
  }

  lemma AtByte(s: Bytes, pos: nat, b: byte)
    requires At(s, pos, [b])
    ensures pos < |s| && s[pos] == b
  {
    AtIndex(s, pos, [b], 0);
  }

  // -------------------------------------------------------------- integers

  lemma SignedNumeralText(n: i64, start: nat)
    ensures ParseIntText(SignedNumeral(n), start) == Ok(n)
    ensures forall i :: 0 <= i < |SignedNumeral(n)| ==> SignedNumeral(n)[i] != CHAR_E
  {
    var text := SignedNumeral(n);
    var m: nat := if n < 0 then -(n as int) else n;
    assert text == if n < 0 then [MINUS] + Numeral(m) else Numeral(m);
    AsciiIsUtf8(text);
    SignedRoundTrip(n);
    NumeralRoundTrip(m);
    if n < 0 {
      assert text[1] == Numeral(m)[0];
      assert m < 10 ==> Numeral(m) == [ZERO + m];
    }
  }

  lemma FindByteAt(s: Bytes, from: nat, b: byte, at: nat)
    requires from <= at < |s| && s[at] == b
    requires forall i :: from <= i < at ==> s[i] != b
    ensures FindByte(s, from, b) == Some(at)
  {
  }

  lemma IntRoundTrip(s: Bytes, pos: nat, n: i64)
    requires At(s, pos, Encode(Int(n)))
    ensures DecodeInt(s, pos) == Success(Int(n), pos + |Encode(Int(n))|)
  {
    IntText(n);
    hide SignedNumeral, ParseIntText, FindByte, Encode;
    var text := SignedNumeral(n);
    AtSplit(s, pos, [CHAR_I] + text, [CHAR_E]);
    AtSplit(s, pos, [CHAR_I], text);
    AtByte(s, pos + 1 + |text|, CHAR_E);
    SignedNumeralText(n, pos + 1);
    TextBefore(s, pos + 1, text, CHAR_E);
    FindByteAt(s, pos + 1, CHAR_E, pos + 1 + |text|);
  }

  lemma IntText(n: i64)
    ensures Encode(Int(n)) == [CHAR_I] + SignedNumeral(n) + [CHAR_E]
  {
  }

  /** A byte that is not in a text is not where the text stands. */
  lemma TextBefore(s: Bytes, pos: nat, text: Bytes, b: byte)
    requires At(s, pos, text) && forall i :: 0 <= i < |text| ==> text[i] != b
    ensures forall i :: pos <= i < pos + |text| ==> s[i] != b
    ensures s[pos..pos + |text|] == text
  {
    forall i | pos <= i < pos + |text|
      ensures s[i] != b
    {
      AtIndex(s, pos, text, i - pos);
    }
  }

  // ---------------------------------------------------------- byte strings

  /** Reading k digits of a numeral from the left gives the value of that prefix. */
  lemma {:induction false} LengthDigits(s: Bytes, pos: nat, start: nat, digits: Bytes, k: nat)
    requires AllDigits(digits) && k <= |digits|
    requires NumeralValue(digits) <= USIZE_MAX
    requires At(s, pos, digits + [COLON])
    ensures pos + k <= |s|
    ensures DecodeLength(s, pos + k, start, NumeralValue(digits[..k]))
         == Success(NumeralValue(digits), pos + |digits| + 1)
    decreases |digits| - k
  {
    AtSplit(s, pos, digits, [COLON]);
    if k == |digits| {
      AtByte(s, pos + k, COLON);
      assert digits[..k] == digits;
    } else {
      LengthDigits(s, pos, start, digits, k + 1);
      AtIndex(s, pos, digits, k);
      assert digits[..k + 1][..k] == digits[..k];
      PrefixValue(digits, k + 1);
    }
  }

  lemma {:induction false} PrefixValue(digits: Bytes, k: nat)
    requires AllDigits(digits) && k <= |digits|
    ensures NumeralValue(digits[..k]) <= NumeralValue(digits)
    decreases |digits| - k
  {
    if k == |digits| {
      assert digits[..k] == digits;
    } else {
      PrefixValue(digits, k + 1);
      assert digits[..k + 1][..k] == digits[..k];
    }
  }

  lemma BytesRoundTrip(s: Bytes, pos: nat, b: Bytes)
    requires At(s, pos, EncodeBytes(b))
    requires |s| <= USIZE_MAX
    ensures DecodeBytes(s, pos) == Success(BValue.Bytes(b), pos + |EncodeBytes(b)|)
    ensures IsDigit(s[pos])
  {
    var digits := Numeral(|b|);
    AtSplit(s, pos, digits + [COLON], b);
    NumeralRoundTrip(|b|);
    LengthDigits(s, pos, pos, digits, 0);
    assert digits[..0] == [];
    AtSplit(s, pos, digits, [COLON]);
    AtIndex(s, pos, digits, 0);
  }

  // ------------------------------------------------------------ containers

  lemma {:induction false} ValueRoundTrip(s: Bytes, pos: nat, v: BValue, depth: nat)
    requires depth <= MAX_DEPTH && Fits(v, MAX_DEPTH - depth)
    requires At(s, pos, Encode(v))
    requires |s| <= USIZE_MAX
    ensures DecodeValue(s, pos, depth) == Success(v, pos + |Encode(v)|)
    decreases v, 0
  {
    match v
    case Int(n) =>
      IntRoundTrip(s, pos, n);
      AtIndex(s, pos, Encode(v), 0);
    case Bytes(b) =>
      BytesRoundTrip(s, pos, b);
    case List(items) =>
      ListRoundTrip(s, pos, items, depth);
    case Dict(es) =>
      DictRoundTrip(s, pos, es, depth);
  }

  lemma {:induction false} ListRoundTrip(s: Bytes, pos: nat, items: seq<BValue>, depth: nat)
    requires depth < MAX_DEPTH && FitsItems(items, MAX_DEPTH - depth - 1) && |items| <= MAX_ELEMENTS
    requires At(s, pos, [CHAR_L] + EncodeItems(items) + [CHAR_E])
    requires |s| <= USIZE_MAX
    ensures DecodeValue(s, pos, depth) == Success(List(items), pos + |EncodeItems(items)| + 2)
    decreases items, 2
  {
    hide DecodeItems, EncodeItems;
    Bracketed(s, pos, CHAR_L, EncodeItems(items));
    ItemsRoundTrip(s, pos + 1, items, depth + 1, 0);
  }

  lemma {:induction false} DictRoundTrip(s: Bytes, pos: nat, es: seq<Entry>, depth: nat)
    requires depth < MAX_DEPTH && FitsEntries(es, MAX_DEPTH - depth - 1) && |es| <= MAX_ELEMENTS
    requires Sorted(es)
    requires At(s, pos, [CHAR_D] + EncodeEntries(es) + [CHAR_E])
    requires |s| <= USIZE_MAX
    ensures DecodeValue(s, pos, depth) == Success(Dict(es), pos + |EncodeEntries(es)| + 2)
    decreases es, 2
  {
    hide DecodeEntries, EncodeEntries, Sorted;
    Bracketed(s, pos, CHAR_D, EncodeEntries(es));
    assert [] + es == es;
    EntriesRoundTrip(s, pos + 1, [], es, depth + 1);
  }

  lemma Bracketed(s: Bytes, pos: nat, open: byte, body: Bytes)
    requires At(s, pos, [open] + body + [CHAR_E])
    ensures pos + 1 + |body| < |s| && s[pos] == open && s[pos + 1 + |body|] == CHAR_E
    ensures At(s, pos + 1, body)
  {
    AtSplit(s, pos, [open] + body, [CHAR_E]);
    AtSplit(s, pos, [open], body);
    AtByte(s, pos, open);
    AtByte(s, pos + 1 + |body|, CHAR_E);
  }

  lemma EncodeHead(v: BValue)
    ensures Encode(v) != [] && Encode(v)[0] != CHAR_E
  {
  }

  lemma {:induction false} ItemsRoundTrip(s: Bytes, pos: nat, items: seq<BValue>, depth: nat, count: nat)
    requires depth <= MAX_DEPTH && FitsItems(items, MAX_DEPTH - depth)
    requires At(s, pos, EncodeItems(items))
    requires pos + |EncodeItems(items)| < |s| <= USIZE_MAX
    requires s[pos + |EncodeItems(items)|] == CHAR_E
    requires count + |items| <= MAX_ELEMENTS
    ensures DecodeItems(s, pos, depth, count) == Success(items, pos + |EncodeItems(items)| + 1)
    decreases items, 1
  {
    hide DecodeValue, Encode;
    if items != [] {
      var v := items[0];
      AtSplit(s, pos, Encode(v), EncodeItems(items[1..]));
      ValueRoundTrip(s, pos, v, depth);
      EncodeHead(v);
      AtIndex(s, pos, Encode(v), 0);
      ItemsRoundTrip(s, pos + |Encode(v)|, items[1..], depth, count + 1);
      assert items == [v] + items[1..];
    }
  }

  lemma {:induction false} EntriesRoundTrip(s: Bytes, pos: nat, acc: seq<Entry>, es: seq<Entry>, depth: nat)
    requires depth <= MAX_DEPTH && FitsEntries(es, MAX_DEPTH - depth)
    requires Sorted(acc + es)
    requires At(s, pos, EncodeEntries(es))
    requires pos + |EncodeEntries(es)| < |s| <= USIZE_MAX
    requires s[pos + |EncodeEntries(es)|] == CHAR_E
    requires |acc| + |es| <= MAX_ELEMENTS
    ensures DecodeEntries(s, pos, depth, acc) == Success(acc + es, pos + |EncodeEntries(es)| + 1)
    decreases es, 1
  {
    hide DecodeValue, Encode, EncodeBytes, Insert, Sorted;
    if es == [] {
      assert acc + es == acc;
    } else {
      var k, v := es[0].key, es[0].value;
      AtSplit(s, pos, EncodeBytes(k) + Encode(v), EncodeEntries(es[1..]));
      AtSplit(s, pos, EncodeBytes(k), Encode(v));
      var mid := pos + |EncodeBytes(k)|;
      KeyRoundTrip(s, pos, k, depth);
      ValueRoundTrip(s, mid, v, depth);
      AppendEntry(acc, es);
      EntriesRoundTrip(s, mid + |Encode(v)|, acc + [es[0]], es[1..], depth);
    }
  }

  lemma KeyRoundTrip(s: Bytes, pos: nat, k: Bytes, depth: nat)
    requires At(s, pos, EncodeBytes(k)) && |s| <= USIZE_MAX
    ensures pos < |s| && s[pos] != CHAR_E
    ensures DecodeValue(s, pos, depth) == Success(BValue.Bytes(k), pos + |EncodeBytes(k)|)
  {
    BytesRoundTrip(s, pos, k);
  }

  lemma AppendEntry(acc: seq<Entry>, es: seq<Entry>)
    requires es != [] && Sorted(acc + es)
    ensures Insert(acc, es[0].key, es[0].value) == acc + [es[0]]
    ensures acc + es == (acc + [es[0]]) + es[1..]
  {
    forall i | 0 <= i < |acc|
      ensures Less(acc[i].key, es[0].key)
    {
      assert acc[i] == (acc + es)[i] && es[0] == (acc + es)[|acc|];
    }
    InsertLast(acc, es[0].key, es[0].value);
  }

  /** Decoding `encode(v)` followed by any bytes yields v and stops exactly at its end. */
  lemma DecodeAfterEncode(v: BValue, tail: Bytes)
    requires Fits(v, MAX_DEPTH)
    requires |Encode(v) + tail| <= USIZE_MAX
    ensures DecodeValue(Encode(v) + tail, 0, 0) == Success(v, |Encode(v)|)
  {
    ValueRoundTrip(Encode(v) + tail, 0, v, 0);
  }
}
