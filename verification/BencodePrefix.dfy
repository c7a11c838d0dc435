/** Encodings are prefix-free, so different values have different encodings. */
module BencodePrefix {
  import opened ByteStrings
  import opened Decimal
  import opened Bencode
  import opened BencodeRoundTrip

  lemma CutNoLater(a: Bytes, b: Bytes, mark: byte, x: Bytes, y: Bytes)
    requires mark !in b && a + [mark] + x == b + [mark] + y
    ensures |b| <= |a|
  {
    assert (a + [mark] + x)[|a|] == mark;
    assert forall i :: 0 <= i < |b| ==> (b + [mark] + y)[i] == b[i];
  }

  /** Up to a byte that neither text holds, equal bytes come from equal texts. */
  lemma CutAt(a: Bytes, b: Bytes, mark: byte, x: Bytes, y: Bytes)
    requires mark !in a && mark !in b && a + [mark] + x == b + [mark] + y
    ensures a == b && x == y
  {
    CutNoLater(a, b, mark, x, y);
    CutNoLater(b, a, mark, y, x);
    var s := a + [mark] + x;
    assert a == s[..|a|] && b == s[..|b|];
    assert x == s[|a| + 1..] && y == s[|b| + 1..];
  }

  lemma NumeralHasNoColon(n: nat)
    ensures COLON !in Numeral(n)
  {
  }

  lemma BytesPrefixFree(a: Bytes, b: Bytes, x: Bytes, y: Bytes)
    requires EncodeBytes(a) + x == EncodeBytes(b) + y
    ensures a == b && x == y
  {
    NumeralHasNoColon(|a|);
    NumeralHasNoColon(|b|);
    assert EncodeBytes(a) + x == Numeral(|a|) + [COLON] + (a + x);
    assert EncodeBytes(b) + y == Numeral(|b|) + [COLON] + (b + y);
    CutAt(Numeral(|a|), Numeral(|b|), COLON, a + x, b + y);
    NumeralRoundTrip(|a|);
    NumeralRoundTrip(|b|);
    assert a == (a + x)[..|a|] && b == (b + y)[..|b|];
    assert x == (a + x)[|a|..] && y == (b + y)[|b|..];
  }

  lemma IntPrefixFree(m: i64, n: i64, x: Bytes, y: Bytes)
    requires Encode(Int(m)) + x == Encode(Int(n)) + y
    ensures m == n && x == y
  {
    hide SignedNumeral, ParseI64;
    SignedNumeralText(m, 0);
    SignedNumeralText(n, 0);
    SignedRoundTrip(m);
    SignedRoundTrip(n);
    var a, b := SignedNumeral(m), SignedNumeral(n);
    assert (Encode(Int(m)) + x)[1..] == a + [CHAR_E] + x;
    assert (Encode(Int(n)) + y)[1..] == b + [CHAR_E] + y;
    CutAt(a, b, CHAR_E, x, y);
  }

  /** The first byte of an encoding tells what kind of value it is. */
  lemma HeadTells(v: BValue, x: Bytes)
    ensures Encode(v) + x != []
    ensures var head := (Encode(v) + x)[0];
      && (v.Int? <==> head == CHAR_I) && (v.List? <==> head == CHAR_L) && (v.Dict? <==> head == CHAR_D)
      && (v.Bytes? <==> IsDigit(head))
  {
    if v.Bytes? {
      assert Encode(v)[0] == Numeral(|v.bytes|)[0];
    }
  }

  /** No encoding is a proper prefix of another, whatever follows them. */
  lemma {:induction false} PrefixFree(v: BValue, w: BValue, x: Bytes, y: Bytes)
    requires Encode(v) + x == Encode(w) + y
    ensures v == w && x == y
    decreases v, 0
  {
    HeadTells(v, x);
    HeadTells(w, y);
    match v
    case Int(n) => IntPrefixFree(n, w.n, x, y);
    case Bytes(b) => BytesPrefixFree(b, w.bytes, x, y);
    case List(items) =>
      Unbracket(CHAR_L, EncodeItems(items), EncodeItems(w.items), x, y);
      ItemsPrefixFree(items, w.items, x, y);
    case Dict(es) =>
      Unbracket(CHAR_D, EncodeEntries(es), EncodeEntries(w.entries), x, y);
      EntriesPrefixFree(es, w.entries, x, y);
  }

  lemma Unbracket(open: byte, a: Bytes, b: Bytes, x: Bytes, y: Bytes)
    requires [open] + a + [CHAR_E] + x == [open] + b + [CHAR_E] + y
    ensures a + [CHAR_E] + x == b + [CHAR_E] + y
  {
    assert ([open] + a + [CHAR_E] + x)[1..] == a + [CHAR_E] + x;
    assert ([open] + b + [CHAR_E] + y)[1..] == b + [CHAR_E] + y;
  }

  lemma {:induction false} ItemsPrefixFree(vs: seq<BValue>, ws: seq<BValue>, x: Bytes, y: Bytes)
    requires EncodeItems(vs) + [CHAR_E] + x == EncodeItems(ws) + [CHAR_E] + y
    ensures vs == ws && x == y
    decreases vs, 1
  {
    hide Encode;
    ItemsHead(vs, x);
    ItemsHead(ws, y);
    if vs == [] {
      CutAt([], [], CHAR_E, x, y);
    } else {
      var v, w := vs[0], ws[0];
      var moreV, moreW := EncodeItems(vs[1..]) + [CHAR_E] + x, EncodeItems(ws[1..]) + [CHAR_E] + y;
      assert EncodeItems(vs) + [CHAR_E] + x == Encode(v) + moreV;
      assert EncodeItems(ws) + [CHAR_E] + y == Encode(w) + moreW;
      PrefixFree(v, w, moreV, moreW);
      ItemsPrefixFree(vs[1..], ws[1..], x, y);
      assert vs == [v] + vs[1..] && ws == [w] + ws[1..];
    }
  }

  lemma {:induction false} EntriesPrefixFree(es: seq<Entry>, fs: seq<Entry>, x: Bytes, y: Bytes)
    requires EncodeEntries(es) + [CHAR_E] + x == EncodeEntries(fs) + [CHAR_E] + y
    ensures es == fs && x == y
    decreases es, 1
  {
    hide Encode, EncodeBytes;
    EntriesHead(es, x);
    EntriesHead(fs, y);
    if es == [] {
      CutAt([], [], CHAR_E, x, y);
    } else {
      var e, f := es[0], fs[0];
      var moreV, moreW := EncodeEntries(es[1..]) + [CHAR_E] + x, EncodeEntries(fs[1..]) + [CHAR_E] + y;
      assert EncodeEntries(es) + [CHAR_E] + x == EncodeBytes(e.key) + (Encode(e.value) + moreV);
      assert EncodeEntries(fs) + [CHAR_E] + y == EncodeBytes(f.key) + (Encode(f.value) + moreW);
      BytesPrefixFree(e.key, f.key, Encode(e.value) + moreV, Encode(f.value) + moreW);
      PrefixFree(e.value, f.value, moreV, moreW);
      EntriesPrefixFree(es[1..], fs[1..], x, y);
      assert es == [e] + es[1..] && fs == [f] + fs[1..];
    }
  }

  lemma ItemsHead(vs: seq<BValue>, x: Bytes)
    ensures EncodeItems(vs) + [CHAR_E] + x != []
    ensures (EncodeItems(vs) + [CHAR_E] + x)[0] == CHAR_E <==> vs == []
  {
    if vs != [] {
      EncodeHead(vs[0]);
    }
  }

  lemma EntriesHead(es: seq<Entry>, x: Bytes)
    ensures EncodeEntries(es) + [CHAR_E] + x != []
    ensures (EncodeEntries(es) + [CHAR_E] + x)[0] == CHAR_E <==> es == []
  {
    if es != [] {
      EncodeHead(BValue.Bytes(es[0].key));
    }
  }

  /** Equal encodings come from equal values, of any nesting and size. */
  lemma EncodeInjective(v: BValue, w: BValue)
    requires Encode(v) == Encode(w)
    ensures v == w
  {
    PrefixFree(v, w, [], []);
  }
}
