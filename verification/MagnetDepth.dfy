/** A magnet download that starts, and is stored as a file that cannot be read again. */
module MagnetDepth {
  import opened ByteStrings
  import opened Wrappers
  import opened Decimal
  import opened Bencode
  import opened BencodeRoundTrip
  import opened Metainfo
  import opened MetainfoLaws
  import opened MagnetWrapLaws

  /** k + 1 lists, one inside the other. */
  function Nested(k: nat): BValue {
    if k == 0 then List([]) else List([Nested(k - 1)])
  }

  lemma {:induction false} NestedFits(k: nat, levels: nat)
    ensures Fits(Nested(k), levels) <==> k < levels
  {
    if k > 0 && levels > 0 {
      NestedFits(k - 1, levels - 1);
      assert [Nested(k - 1)][0] == Nested(k - 1);
    }
  }

  lemma {:induction false} NestedSize(k: nat)
    ensures |Encode(Nested(k))| == 2 * k + 2
  {
    if k > 0 {
      NestedSize(k - 1);
      OneItem(Nested(k - 1));
    }
  }

  lemma OneItem(v: BValue)
    ensures EncodeItems([v]) == Encode(v)
  {
    assert [v][1..] == [];
    assert EncodeItems([]) == [];
  }

  const KEY_X: Bytes := [0x78]

  /** One piece of one byte, and a key the engine does not read. */
  function Entries(inner: BValue): seq<Entry> {
    [Entry(KEY_LENGTH, Int(1)), Entry(KEY_NAME, BValue.Bytes(KEY_X)), Entry(KEY_PIECE_LENGTH, Int(1)),
     Entry(KEY_PIECES, BValue.Bytes(seq(20, _ => 0))), Entry(KEY_X, inner)]
  }

  lemma EntriesSorted(inner: BValue)
    ensures Sorted(Entries(inner))
  {
    assert Less(KEY_LENGTH, KEY_NAME);
    assert Less(KEY_LENGTH, KEY_PIECE_LENGTH);
    assert Less(KEY_LENGTH, KEY_PIECES);
    assert Less(KEY_LENGTH, KEY_X);
    assert Less(KEY_NAME, KEY_PIECE_LENGTH);
    assert Less(KEY_NAME, KEY_PIECES);
    assert Less(KEY_NAME, KEY_X);
    PieceKeys();
    assert Less(KEY_PIECE_LENGTH, KEY_X);
    assert Less(KEY_PIECES, KEY_X);
  }

  lemma PieceKeys()
    ensures Less(KEY_PIECE_LENGTH, KEY_PIECES)
  {
    var a, b := KEY_PIECE_LENGTH, KEY_PIECES;
    assert Less(a[5..], b[5..]);
    assert a[4..][1..] == a[5..] && b[4..][1..] == b[5..];
    assert Less(a[4..], b[4..]);
    assert a[3..][1..] == a[4..] && b[3..][1..] == b[4..];
    assert Less(a[3..], b[3..]);
    assert a[2..][1..] == a[3..] && b[2..][1..] == b[3..];
    assert Less(a[2..], b[2..]);
    assert a[1..][1..] == a[2..] && b[1..][1..] == b[2..];
    assert Less(a[1..], b[1..]);
  }

  /** The dictionary is one level deeper than the value of its last key. */
  lemma DeepFits(inner: BValue, levels: nat)
    requires levels > 0
    ensures Fits(Dict(Entries(inner)), levels) <==> Fits(inner, levels - 1)
  {
    EntriesSorted(inner);
    var es := Entries(inner);
    hide Sorted;
    assert es[4].value == inner;
    assert forall i :: 0 <= i < 4 ==> es[i].value.Int? || es[i].value.Bytes?;
    if Fits(inner, levels - 1) {
      assert FitsEntries(es, levels - 1);
    }
    if Fits(Dict(es), levels) {
      DictFits(es, levels, 4);
    }
  }

  lemma DeepParses(inner: BValue)
    ensures ParseInfo(Dict(Entries(inner))).Ok?
  {
    hide Less;
    var es := Entries(inner);
    EntriesSorted(inner);
    assert es[0].key == KEY_LENGTH && es[1].key == KEY_NAME && es[2].key == KEY_PIECE_LENGTH && es[3].key == KEY_PIECES;
    LookupIndex(es, 0);
    LookupIndex(es, 1);
    LookupIndex(es, 2);
    LookupIndex(es, 3);
    NoFiles(inner);
    AsciiIsUtf8(KEY_X);
    NoDots();
    assert Sum([1]) == 1 by {
      assert [1][..0] == [];
    }
    assert Single(1).Lengths() == [1];
  }

  lemma NoFiles(inner: BValue)
    ensures Lookup(Entries(inner), KEY_FILES) == None
  {
    var es := Entries(inner);
    assert Lookup(es[5..], KEY_FILES) == None;
    assert es[4..][1..] == es[5..] && es[3..][1..] == es[4..] && es[2..][1..] == es[3..] && es[1..][1..] == es[2..];
    assert Lookup(es[3..], KEY_FILES) == None;
    assert Lookup(es[1..], KEY_FILES) == None;
  }

  lemma NoDots()
    ensures SafeName(KEY_X)
  {
    assert KEY_X[1..] == [];
  }

  lemma {:induction false} NumeralSize(n: nat)
    ensures |Numeral(n)| <= n + 1
  {
    if n >= 10 {
      NumeralSize(n / 10);
    }
  }

  lemma {:induction false} EntriesSize(es: seq<Entry>, most: nat)
    requires forall i :: 0 <= i < |es| ==> |EncodeBytes(es[i].key)| + |Encode(es[i].value)| <= most
    ensures |EncodeEntries(es)| <= |es| * most
  {
    hide Encode, EncodeBytes;
    if es != [] {
      EntriesSize(es[1..], most);
      assert |es| * most == most + |es[1..]| * most;
    }
  }

  lemma EntrySize(key: Bytes, value: BValue, most: nat)
    requires 2 * |key| + 2 + |Encode(value)| <= most
    ensures |EncodeBytes(key)| + |Encode(value)| <= most
  {
    NumeralSize(|key|);
  }

  lemma DeepSize(inner: BValue)
    requires |Encode(inner)| <= 150
    ensures |Encode(Dict(Entries(inner)))| <= 1002
  {
    var es := Entries(inner);
    NumeralSize(20);
    NumeralSize(1);
    assert |Encode(Int(1))| <= 10 && |Encode(BValue.Bytes(KEY_X))| <= 10;
    assert |Encode(es[3].value)| <= 50;
    hide Encode, EncodeBytes;
    EntrySize(es[0].key, es[0].value, 200);
    EntrySize(es[1].key, es[1].value, 200);
    EntrySize(es[2].key, es[2].value, 200);
    EntrySize(es[3].key, es[3].value, 200);
    EntrySize(es[4].key, es[4].value, 200);
    EntriesSize(es, 200);
    DictSize(es);
  }

  lemma DictSize(es: seq<Entry>)
    ensures |Encode(Dict(es))| == |EncodeEntries(es)| + 2
  {
  }

  lemma WrappedSize(info: BValue)
    requires |Encode(info)| <= 1002
    ensures |Encode(Dict(WrappedEntries(info, [])))| <= 1102
  {
    hide Encode, EncodeBytes;
    var es := WrappedEntries(info, []);
    assert es == [Entry(KEY_INFO, info)];
    EntrySize(KEY_INFO, info, 1100);
    EntriesSize(es, 1100);
    DictSize(es);
  }

  /**
   * An info dictionary that starts a session, though the file stored for it cannot be read again: it holds
   * 63 lists inside one another, and wrapping nests it one level deeper than the decoder goes.
   */
  lemma DeepInfoIsLost(sha1: Bytes -> Hash)
    ensures var raw := Encode(Dict(Entries(Nested(62))));
      && FromInfoBytes(raw, sha1(raw), []).Ok?
      && TorrentBytesFromInfo(raw, []).Ok?
      && FromBytes(sha1, TorrentBytesFromInfo(raw, []).value).Err?
  {
    hide DecodeValue, WrappedEntries, ParseInfo, Encode, FromBytes, Nested, Entries, Fits;
    var inner := Nested(62);
    NestedFits(62, 63);
    NestedFits(62, 62);
    NestedSize(62);
    var info := Dict(Entries(inner));
    DeepFits(inner, MAX_DEPTH);
    DeepFits(inner, MAX_DEPTH - 1);
    DeepParses(inner);
    DeepSize(inner);
    WrappedSize(info);
    assert Encode(info) + [] == Encode(info);
    DecodeAfterEncode(info, []);
    WrappedFileParses(sha1, Encode(info), [], info);
  }
}
