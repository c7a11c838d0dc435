/**
 * What the decoder accepts: decoded values fit the bounds, re-encoding normalises and never grows, and
 * a successful decode depends only on the bytes it consumed, not on where they stand or on spare depth.
 */
module BencodeLaws {
  import opened ByteStrings
  import opened Decimal
  import opened Bencode
  import opened BencodeRoundTrip

  // ------------------------------------------------- decoded values fit, and re-encode no longer

  lemma {:induction false} EncodeEntriesInsert(es: seq<Entry>, key: Bytes, value: BValue)
    ensures |EncodeEntries(Insert(es, key, value))|
         <= |EncodeEntries(es)| + |EncodeBytes(key)| + |Encode(value)|
  {
    var r := Insert(es, key, value);
    if es == [] || Less(key, es[0].key) {
      assert r[1..] == es;
    } else if es[0].key == key {
      assert r[1..] == es[1..];
    } else {
      EncodeEntriesInsert(es[1..], key, value);
      assert r[1..] == Insert(es[1..], key, value);
    }
  }

  lemma FitsInsert(es: seq<Entry>, key: Bytes, value: BValue, levels: nat)
    requires Sorted(es) && FitsEntries(es, levels) && Fits(value, levels)
    ensures Sorted(Insert(es, key, value)) && FitsEntries(Insert(es, key, value), levels)
    ensures |Insert(es, key, value)| <= |es| + 1
  {
    InsertSorted(es, key, value);
    var r := Insert(es, key, value);
    forall i | 0 <= i < |r|
      ensures Fits(r[i].value, levels)
    {
      assert r[i] in r;
    }
  }

  lemma {:induction false} LengthValue(s: Bytes, pos: nat, start: nat, from: nat)
    requires from <= pos <= |s| && AllDigits(s[from..pos])
    requires DecodeLength(s, pos, start, NumeralValue(s[from..pos])).Success?
    ensures var r := DecodeLength(s, pos, start, NumeralValue(s[from..pos]));
      AllDigits(s[from..r.end - 1]) && r.value == NumeralValue(s[from..r.end - 1]) && pos < r.end
    decreases |s| - pos
  {
    if s[pos] != COLON {
      assert s[from..pos + 1] == s[from..pos] + [s[pos]];
      assert s[from..pos + 1][..pos - from] == s[from..pos];
      LengthValue(s, pos + 1, start, from);
    }
  }

  lemma BytesShrink(s: Bytes, pos: nat)
    requires pos < |s| && IsDigit(s[pos]) && DecodeBytes(s, pos).Success?
    ensures DecodeBytes(s, pos).value.Bytes?
    ensures |Encode(DecodeBytes(s, pos).value)| <= DecodeBytes(s, pos).end - pos
  {
    assert s[pos..pos] == [];
    var Success(length, p) := DecodeLength(s, pos, pos, 0);
    LengthValue(s, pos, pos, pos);
    assert s[pos] != COLON;
    NumeralShortest(s[pos..p - 1]);
  }

  lemma IntShrinks(s: Bytes, pos: nat)
    requires pos < |s| && DecodeInt(s, pos).Success?
    ensures DecodeInt(s, pos).value.Int?
    ensures |Encode(DecodeInt(s, pos).value)| <= DecodeInt(s, pos).end - pos
  {
    var end := FindByte(s, pos + 1, CHAR_E).value;
    SignedShortest(s[pos + 1..end]);
  }

  lemma {:induction false} DecodedValue(s: Bytes, pos: nat, depth: nat)
    requires pos <= |s| && depth <= MAX_DEPTH && DecodeValue(s, pos, depth).Success?
    ensures Fits(DecodeValue(s, pos, depth).value, MAX_DEPTH - depth)
    ensures |Encode(DecodeValue(s, pos, depth).value)| <= DecodeValue(s, pos, depth).end - pos
    decreases |s| - pos, 0
  {
    hide DecodeInt, DecodeBytes, DecodeItems, DecodeEntries;
    if s[pos] == CHAR_I {
      IntShrinks(s, pos);
    } else if s[pos] == CHAR_L {
      DecodedItems(s, pos + 1, depth + 1, 0);
    } else if s[pos] == CHAR_D {
      DecodedEntries(s, pos + 1, depth + 1, []);
    } else {
      BytesShrink(s, pos);
    }
  }

  lemma {:induction false} DecodedItems(s: Bytes, pos: nat, depth: nat, count: nat)
    requires pos <= |s| && 0 < depth <= MAX_DEPTH && count <= MAX_ELEMENTS
    requires DecodeItems(s, pos, depth, count).Success?
    ensures var r := DecodeItems(s, pos, depth, count);
      && FitsItems(r.value, MAX_DEPTH - depth)
      && count + |r.value| <= MAX_ELEMENTS
      && |EncodeItems(r.value)| + 1 <= r.end - pos
    decreases |s| - pos, 1
  {
    if s[pos] != CHAR_E {
      var Success(v, next) := DecodeValue(s, pos, depth);
      DecodedValue(s, pos, depth);
      DecodedItems(s, next, depth, count + 1);
      var rest := DecodeItems(s, next, depth, count + 1).value;
      assert ([v] + rest)[1..] == rest;
    }
  }

  lemma {:induction false} DecodedEntries(s: Bytes, pos: nat, depth: nat, acc: seq<Entry>)
    requires pos <= |s| && 0 < depth <= MAX_DEPTH && |acc| <= MAX_ELEMENTS
    requires Sorted(acc) && FitsEntries(acc, MAX_DEPTH - depth)
    requires DecodeEntries(s, pos, depth, acc).Success?
    ensures var r := DecodeEntries(s, pos, depth, acc);
      && Sorted(r.value) && FitsEntries(r.value, MAX_DEPTH - depth)
      && |r.value| <= MAX_ELEMENTS
      && |EncodeEntries(r.value)| + 1 <= |EncodeEntries(acc)| + r.end - pos
    decreases |s| - pos, 1
  {
    if s[pos] != CHAR_E {
      var Success(key, mid) := DecodeValue(s, pos, depth);
      DecodedValue(s, pos, depth);
      var Success(v, next) := DecodeValue(s, mid, depth);
      DecodedValue(s, mid, depth);
      FitsInsert(acc, key.bytes, v, MAX_DEPTH - depth);
      EncodeEntriesInsert(acc, key.bytes, v);
      DecodedEntries(s, next, depth, Insert(acc, key.bytes, v));
    }
  }

  /** Whatever was accepted (plus signs, leading zeros, unsorted or repeated keys), re-encoding normalises it. */
  lemma Normalises(s: Bytes, tail: Bytes, v: BValue, end: nat)
    requires |s| + |tail| <= USIZE_MAX && DecodeValue(s, 0, 0) == Success(v, end)
    ensures |Encode(v)| <= end
    ensures DecodeValue(Encode(v) + tail, 0, 0) == Success(v, |Encode(v)|)
  {
    DecodedValue(s, 0, 0);
    DecodeAfterEncode(v, tail);
  }

  /** The round trip holds exactly for the values within the decoder's bounds. */
  lemma RoundTripIff(v: BValue, tail: Bytes)
    requires |Encode(v) + tail| <= USIZE_MAX
    ensures Fits(v, MAX_DEPTH) <==> DecodeValue(Encode(v) + tail, 0, 0) == Success(v, |Encode(v)|)
  {
    if Fits(v, MAX_DEPTH) {
      DecodeAfterEncode(v, tail);
    } else if DecodeValue(Encode(v) + tail, 0, 0) == Success(v, |Encode(v)|) {
      DecodedValue(Encode(v) + tail, 0, 0);
    }
  }

  // ---------------------------------------- position shift, extension and depth, in one statement

  lemma IntLocal(s1: Bytes, s2: Bytes, pos: nat, d: int)
    requires pos < |s1| && DecodeInt(s1, pos).Success?
    requires Shifted(s1, s2, pos, DecodeInt(s1, pos).end, d)
    ensures DecodeInt(s2, pos + d) == Success(DecodeInt(s1, pos).value, DecodeInt(s1, pos).end + d)
  {
    hide FindByte, ParseI64, Utf8;
    var end := FindByte(s1, pos + 1, CHAR_E).value;
    assert s1[end] == s2[end + d];
    forall i | pos + 1 + d <= i < end + d
      ensures s2[i] != CHAR_E
    {
      assert s1[i - d] == s2[i];
    }
    FindByteAt(s2, pos + 1 + d, CHAR_E, end + d);
    ShiftedSlice(s1, s2, pos, end + 1, d, pos + 1, end);
    var text := s1[pos + 1..end];
    assert ParseIntText(text, pos + 1).Ok?;
    assert ParseIntText(text, pos + 1 + d) == ParseIntText(text, pos + 1);
  }

  lemma {:induction false} LengthLocal(s1: Bytes, s2: Bytes, pos: nat, start1: nat, start2: nat, acc: nat, d: int)
    requires pos <= |s1| && DecodeLength(s1, pos, start1, acc).Success?
    requires Shifted(s1, s2, pos, DecodeLength(s1, pos, start1, acc).end, d)
    ensures var r := DecodeLength(s1, pos, start1, acc);
      DecodeLength(s2, pos + d, start2, acc) == Success(r.value, r.end + d)
    decreases |s1| - pos
  {
    assert s1[pos] == s2[pos + d];
    if s1[pos] != COLON {
      LengthLocal(s1, s2, pos + 1, start1, start2, acc * 10 + (s1[pos] - ZERO), d);
    }
  }

  lemma BytesLocal(s1: Bytes, s2: Bytes, pos: nat, d: int)
    requires pos <= |s1| && |s2| <= USIZE_MAX && DecodeBytes(s1, pos).Success?
    requires Shifted(s1, s2, pos, DecodeBytes(s1, pos).end, d)
    ensures DecodeBytes(s2, pos + d) == Success(DecodeBytes(s1, pos).value, DecodeBytes(s1, pos).end + d)
  {
    var Success(length, p) := DecodeLength(s1, pos, pos, 0);
    LengthLocal(s1, s2, pos, pos, pos + d, 0, d);
    ShiftedSlice(s1, s2, pos, p + length, d, p, p + length);
  }

  /** A success survives a move by d positions, any other bytes around it, and a smaller depth. */
  lemma {:induction false} ValueLocal(s1: Bytes, s2: Bytes, pos: nat, d: int, depth1: nat, depth2: nat)
    requires pos <= |s1| && |s2| <= USIZE_MAX && depth2 <= depth1
    requires DecodeValue(s1, pos, depth1).Success?
    requires Shifted(s1, s2, pos, DecodeValue(s1, pos, depth1).end, d)
    ensures DecodeValue(s2, pos + d, depth2)
         == Success(DecodeValue(s1, pos, depth1).value, DecodeValue(s1, pos, depth1).end + d)
    decreases |s1| - pos, 0
  {
    hide DecodeInt, DecodeBytes, DecodeItems, DecodeEntries;
    assert s1[pos] == s2[pos + d];
    if s1[pos] == CHAR_I {
      IntLocal(s1, s2, pos, d);
    } else if s1[pos] == CHAR_L {
      ItemsLocal(s1, s2, pos + 1, d, depth1 + 1, depth2 + 1, 0);
    } else if s1[pos] == CHAR_D {
      EntriesLocal(s1, s2, pos + 1, d, depth1 + 1, depth2 + 1, []);
    } else {
      BytesLocal(s1, s2, pos, d);
    }
  }

  lemma {:induction false} ItemsLocal(s1: Bytes, s2: Bytes, pos: nat, d: int, depth1: nat, depth2: nat, count: nat)
    requires pos <= |s1| && |s2| <= USIZE_MAX && depth2 <= depth1
    requires DecodeItems(s1, pos, depth1, count).Success?
    requires Shifted(s1, s2, pos, DecodeItems(s1, pos, depth1, count).end, d)
    ensures var r := DecodeItems(s1, pos, depth1, count);
      DecodeItems(s2, pos + d, depth2, count) == Success(r.value, r.end + d)
    decreases |s1| - pos, 1
  {
    hide DecodeValue;
    assert s1[pos] == s2[pos + d];
    if s1[pos] != CHAR_E {
      var next := DecodeValue(s1, pos, depth1).end;
      ValueLocal(s1, s2, pos, d, depth1, depth2);
      ItemsLocal(s1, s2, next, d, depth1, depth2, count + 1);
    }
  }

  lemma {:induction false} EntriesLocal(s1: Bytes, s2: Bytes, pos: nat, d: int, depth1: nat, depth2: nat,
                                        acc: seq<Entry>)
    requires pos <= |s1| && |s2| <= USIZE_MAX && depth2 <= depth1
    requires DecodeEntries(s1, pos, depth1, acc).Success?
    requires Shifted(s1, s2, pos, DecodeEntries(s1, pos, depth1, acc).end, d)
    ensures var r := DecodeEntries(s1, pos, depth1, acc);
      DecodeEntries(s2, pos + d, depth2, acc) == Success(r.value, r.end + d)
    decreases |s1| - pos, 1
  {
    hide DecodeValue, Insert;
    assert s1[pos] == s2[pos + d];
    if s1[pos] != CHAR_E {
      var Success(key, mid) := DecodeValue(s1, pos, depth1);
      var Success(v, next) := DecodeValue(s1, mid, depth1);
      ValueLocal(s1, s2, pos, d, depth1, depth2);
      ValueLocal(s1, s2, mid, d, depth1, depth2);
      EntriesLocal(s1, s2, next, d, depth1, depth2, Insert(acc, key.bytes, v));
    }
  }
}
