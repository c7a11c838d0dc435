/** The info-hash walk agrees with the decoded tree, and magnet wrapping loses nothing. */
module MetainfoLaws {
  import opened ByteStrings
  import opened Wrappers
  import opened Bencode
  import opened BencodeRoundTrip
  import opened BencodeLaws
  import opened Metainfo

  // ------------------------------------------------------- raw dictionary entries

  /** A key as it stands in the input, with its value and the value's byte range. */
  datatype Raw = Raw(key: Bytes, value: BValue, start: nat, end: nat)

  ghost function RawEntries(s: Bytes, pos: nat, depth: nat): seq<Raw>
    requires pos <= |s|
    decreases |s| - pos
  {
    if pos == |s| || s[pos] == CHAR_E then []
    else
      match DecodeValue(s, pos, depth)
      case Failure(_) => []
      case Success(key, mid) =>
        match DecodeValue(s, mid, depth)
        case Failure(_) => []
        case Success(v, next) =>
          if key.Bytes? then [Raw(key.bytes, v, mid, next)] + RawEntries(s, next, depth) else []
  }

  ghost function First(raws: seq<Raw>, key: Bytes): Option<Raw> {
    if raws == [] then None else if raws[0].key == key then Some(raws[0]) else First(raws[1..], key)
  }

  ghost function Last(raws: seq<Raw>, key: Bytes): Option<Raw> {
    if raws == [] then None
    else
      match Last(raws[1..], key)
      case Some(r) => Some(r)
      case None => if raws[0].key == key then Some(raws[0]) else None
  }

  ghost predicate OnceAtMost(raws: seq<Raw>, key: Bytes) {
    forall i, j :: 0 <= i < j < |raws| ==> raws[i].key != key || raws[j].key != key
  }

  lemma {:induction false} FirstIsLast(raws: seq<Raw>, key: Bytes)
    requires OnceAtMost(raws, key)
    ensures First(raws, key) == Last(raws, key)
  {
    if raws != [] {
      assert OnceAtMost(raws[1..], key);
      FirstIsLast(raws[1..], key);
      if raws[0].key == key {
        NoneLeft(raws[1..], key);
      }
    }
  }

  lemma {:induction false} NoneLeft(raws: seq<Raw>, key: Bytes)
    requires forall i :: 0 <= i < |raws| ==> raws[i].key != key
    ensures Last(raws, key) == None
  {
    if raws != [] {
      NoneLeft(raws[1..], key);
    }
  }

  lemma {:induction false} FirstAndLastExist(raws: seq<Raw>, key: Bytes)
    ensures First(raws, key).Some? <==> Last(raws, key).Some?
  {
    if raws != [] {
      FirstAndLastExist(raws[1..], key);
    }
  }

  /** The tree keeps the last value written under a key. */
  lemma {:induction false} TreeKeepsLast(s: Bytes, pos: nat, depth: nat, acc: seq<Entry>, key: Bytes)
    requires pos <= |s| && DecodeEntries(s, pos, depth, acc).Success?
    ensures Lookup(DecodeEntries(s, pos, depth, acc).value, key)
         == match Last(RawEntries(s, pos, depth), key)
            case Some(r) => Some(r.value)
            case None => Lookup(acc, key)
    decreases |s| - pos
  {
    hide DecodeValue, Insert, Lookup;
    if s[pos] != CHAR_E {
      var Success(k, mid) := DecodeValue(s, pos, depth);
      var Success(v, next) := DecodeValue(s, mid, depth);
      TreeKeepsLast(s, next, depth, Insert(acc, k.bytes, v), key);
      LookupInsert(acc, k.bytes, v, key);
      var rest := RawEntries(s, next, depth);
      assert ([Raw(k.bytes, v, mid, next)] + rest)[1..] == rest;
    }
  }

  /** A decode inside the dictionary is repeated by a fresh decoder over the remaining bytes. */
  lemma FreshDecoder(data: Bytes, pos: nat, depth: nat)
    requires pos <= |data| <= USIZE_MAX && DecodeValue(data, pos, depth).Success?
    ensures DecodeValue(data[pos..], 0, 0)
         == Success(DecodeValue(data, pos, depth).value, DecodeValue(data, pos, depth).end - pos)
  {
    ValueLocal(data, data[pos..], pos, -(pos as int), depth, 0);
  }

  /** The raw walk finds the first value written under "info", and fails only when there is none. */
  lemma {:induction false} WalkFindsFirst(data: Bytes, pos: nat, depth: nat, acc: seq<Entry>)
    requires pos <= |data| <= USIZE_MAX && DecodeEntries(data, pos, depth, acc).Success?
    ensures WalkInfo(data, pos)
         == match First(RawEntries(data, pos, depth), KEY_INFO)
            case Some(r) => Ok(ByteRange(r.start, r.end))
            case None => Err(MissingField("info"))
    decreases |data| - pos
  {
    hide DecodeValue, Insert;
    if data[pos] != CHAR_E {
      var Success(k, mid) := DecodeValue(data, pos, depth);
      var Success(v, next) := DecodeValue(data, mid, depth);
      FreshDecoder(data, pos, depth);
      FreshDecoder(data, mid, depth);
      WalkFindsFirst(data, next, depth, Insert(acc, k.bytes, v));
      var rest := RawEntries(data, next, depth);
      assert ([Raw(k.bytes, v, mid, next)] + rest)[1..] == rest;
    }
  }

  lemma {:induction false} FirstDecodes(s: Bytes, pos: nat, depth: nat, key: Bytes)
    requires pos <= |s| && First(RawEntries(s, pos, depth), key).Some?
    ensures var r := First(RawEntries(s, pos, depth), key).value;
      r.start <= |s| && DecodeValue(s, r.start, depth) == Success(r.value, r.end)
    decreases |s| - pos
  {
    hide DecodeValue;
    var Success(k, mid) := DecodeValue(s, pos, depth);
    var Success(v, next) := DecodeValue(s, mid, depth);
    var rest := RawEntries(s, next, depth);
    assert ([Raw(k.bytes, v, mid, next)] + rest)[1..] == rest;
    if k.bytes != key {
      FirstDecodes(s, next, depth, key);
    }
  }

  ghost function RootEntries(data: Bytes): seq<Raw> {
    if data == [] then [] else RawEntries(data, 1, 1)
  }

  /** The bytes whose SHA-1 is the info hash. */
  ghost function HashedBytes(data: Bytes): Bytes
    requires InfoRange(data).Ok?
  {
    data[InfoRange(data).value.start..InfoRange(data).value.end]
  }

  /**
   * On every input the decoder accepts as a dictionary, the walk fails exactly when the tree has no
   * "info"; otherwise the hashed range decodes, by a fresh decoder over it, to the first value
   * written under "info". That is the tree's value iff the first and the last such value are equal.
   */
  lemma InfoHashCoversTreeValue(data: Bytes, tree: BValue)
    requires |data| <= USIZE_MAX
    requires DecodeValue(data, 0, 0).Success? && DecodeValue(data, 0, 0).value == tree && tree.Dict?
    ensures InfoRange(data).Err? ==> InfoRange(data).error == MissingField("info")
    ensures InfoRange(data).Ok? <==> tree.Get(KEY_INFO).Some?
    ensures InfoRange(data).Ok? ==>
      var raws := RootEntries(data);
      var hashed := DecodeValue(HashedBytes(data), 0, 0);
      && hashed.Success? && hashed.end == |HashedBytes(data)|
      && First(raws, KEY_INFO).Some? && Last(raws, KEY_INFO).Some?
      && (hashed.value == tree.Get(KEY_INFO).value
          <==> First(raws, KEY_INFO).value.value == Last(raws, KEY_INFO).value.value)
      && (OnceAtMost(raws, KEY_INFO) ==> hashed.value == tree.Get(KEY_INFO).value)
  {
    hide DecodeValue, Last, Lookup, RawEntries, WalkInfo;
    var raws := RawEntries(data, 1, 1);
    RootIsEntries(data);
    WalkFindsFirst(data, 1, 1, []);
    TreeKeepsLast(data, 1, 1, [], KEY_INFO);
    LookupEmpty(KEY_INFO);
    FirstAndLastExist(raws, KEY_INFO);
    if OnceAtMost(raws, KEY_INFO) {
      FirstIsLast(raws, KEY_INFO);
    }
    if First(raws, KEY_INFO).Some? {
      FirstDecodes(data, 1, 1, KEY_INFO);
      RangeDecodes(data, First(raws, KEY_INFO).value, 1);
    }
  }

  lemma LookupEmpty(key: Bytes)
    ensures Lookup([], key) == None
  {
  }

  lemma RangeDecodes(s: Bytes, r: Raw, depth: nat)
    requires r.start <= |s| <= USIZE_MAX && DecodeValue(s, r.start, depth) == Success(r.value, r.end)
    ensures DecodeValue(s[r.start..r.end], 0, 0) == Success(r.value, r.end - r.start)
  {
    hide DecodeValue;
    ValueLocal(s, s[r.start..r.end], r.start, -(r.start as int), depth, 0);
  }

  lemma RootIsEntries(data: Bytes)
    requires DecodeValue(data, 0, 0).Success? && DecodeValue(data, 0, 0).value.Dict?
    ensures data != [] && data[0] == CHAR_D
    ensures DecodeEntries(data, 1, 1, []) == Success(DecodeValue(data, 0, 0).value.entries, DecodeValue(data, 0, 0).end)
  {
  }

  // ------------------------------------------------------------- canonical dictionaries

  ghost predicate RawOf(s: Bytes, r: Raw, e: Entry) {
    && r.key == e.key && r.value == e.value
    && At(s, r.start, Encode(e.value)) && r.end == r.start + |Encode(e.value)|
  }

  /** The raw entries of an encoded dictionary are its entries, each range holding its own encoding. */
  lemma {:induction false} EncodedRaws(s: Bytes, pos: nat, es: seq<Entry>, depth: nat)
    requires depth <= MAX_DEPTH && FitsEntries(es, MAX_DEPTH - depth)
    requires At(s, pos, EncodeEntries(es))
    requires pos + |EncodeEntries(es)| < |s| <= USIZE_MAX && s[pos + |EncodeEntries(es)|] == CHAR_E
    ensures |RawEntries(s, pos, depth)| == |es|
    ensures forall i :: 0 <= i < |es| ==> RawOf(s, RawEntries(s, pos, depth)[i], es[i])
    decreases |es|
  {
    hide DecodeValue, Encode, EncodeBytes, Fits;
    if es != [] {
      var k, v := es[0].key, es[0].value;
      AtSplit(s, pos, EncodeBytes(k) + Encode(v), EncodeEntries(es[1..]));
      AtSplit(s, pos, EncodeBytes(k), Encode(v));
      var mid := pos + |EncodeBytes(k)|;
      KeyRoundTrip(s, pos, k, depth);
      ValueRoundTrip(s, mid, v, depth);
      EncodedRaws(s, mid + |Encode(v)|, es[1..], depth);
      RawsCons(s, Raw(k, v, mid, mid + |Encode(v)|), RawEntries(s, mid + |Encode(v)|, depth), es);
    }
  }

  lemma RawsCons(s: Bytes, r: Raw, rest: seq<Raw>, es: seq<Entry>)
    requires es != [] && |rest| == |es| - 1 && RawOf(s, r, es[0])
    requires forall i :: 0 <= i < |rest| ==> RawOf(s, rest[i], es[1..][i])
    ensures forall i :: 0 <= i < |es| ==> RawOf(s, ([r] + rest)[i], es[i])
  {
    hide RawOf;
    forall i | 0 <= i < |es|
      ensures RawOf(s, ([r] + rest)[i], es[i])
    {
      if i > 0 {
        assert es[i] == es[1..][i - 1];
      }
    }
  }

  lemma {:induction false} LookupIndex(es: seq<Entry>, i: nat)
    requires Sorted(es) && i < |es|
    ensures Lookup(es, es[i].key) == Some(es[i].value)
  {
    if i > 0 {
      LessAsymmetric(es[0].key, es[i].key);
      LookupIndex(es[1..], i - 1);
    }
  }

  lemma {:induction false} FirstIndex(raws: seq<Raw>, key: Bytes, k: nat) returns (i: nat)
    requires k < |raws| && raws[k].key == key
    ensures i < |raws| && First(raws, key) == Some(raws[i]) && raws[i].key == key
  {
    if raws[0].key == key {
      i := 0;
    } else {
      i := FirstIndex(raws[1..], key, k - 1);
      i := i + 1;
    }
  }

  lemma {:induction false} FoundIndex(es: seq<Entry>, key: Bytes) returns (i: nat)
    requires Lookup(es, key).Some?
    ensures i < |es| && es[i].key == key && es[i].value == Lookup(es, key).value
  {
    if es[0].key == key {
      i := 0;
    } else {
      i := FoundIndex(es[1..], key);
      i := i + 1;
    }
  }

  lemma FirstEncoded(s: Bytes, pos: nat, es: seq<Entry>, depth: nat, key: Bytes)
    requires depth <= MAX_DEPTH && FitsEntries(es, MAX_DEPTH - depth) && Sorted(es)
    requires At(s, pos, EncodeEntries(es))
    requires pos + |EncodeEntries(es)| < |s| <= USIZE_MAX && s[pos + |EncodeEntries(es)|] == CHAR_E
    requires Lookup(es, key).Some?
    ensures var first := First(RawEntries(s, pos, depth), key);
      first.Some? && RawOf(s, first.value, Entry(key, Lookup(es, key).value))
  {
    hide EncodeEntries, RawEntries, Lookup, First, Sorted, Fits, Encode, FitsEntries;
    EncodedRaws(s, pos, es, depth);
    var raws := RawEntries(s, pos, depth);
    var i := FoundIndex(es, key);
    assert RawOf(s, raws[i], es[i]);
    var j := FirstIndex(raws, key, i);
    assert RawOf(s, raws[j], es[j]);
    LookupIndex(es, j);
  }

  /** In an encoded dictionary the hashed bytes are exactly the encoding of its "info" value. */
  lemma HashedIsEncoding(es: seq<Entry>)
    requires Fits(Dict(es), MAX_DEPTH) && Lookup(es, KEY_INFO).Some?
    requires |Encode(Dict(es))| <= USIZE_MAX
    ensures InfoRange(Encode(Dict(es))).Ok?
    ensures HashedBytes(Encode(Dict(es))) == Encode(Lookup(es, KEY_INFO).value)
  {
    hide DecodeValue, DecodeEntries, EncodeEntries, RawEntries, Lookup, First, WalkInfo, Sorted, FitsEntries;
    var data := Encode(Dict(es));
    assert data == [CHAR_D] + EncodeEntries(es) + [CHAR_E];
    Bracketed(data, 0, CHAR_D, EncodeEntries(es));
    FirstEncoded(data, 1, es, 1, KEY_INFO);
    EntriesRoundTrip(data, 1, [], es, 1) by {
      assert [] + es == es;
    }
    WalkFindsFirst(data, 1, 1, []);
  }

  ghost function TwoEntries(k: Bytes, v: BValue, w: BValue): Bytes {
    EncodeBytes(k) + Encode(v) + (EncodeBytes(k) + Encode(w))
  }

  /** The bytes of a dictionary that writes the same key twice. */
  ghost function RepeatedKey(k: Bytes, v: BValue, w: BValue): Bytes {
    [CHAR_D] + TwoEntries(k, v, w) + [CHAR_E]
  }

  lemma EntryStep(s: Bytes, pos: nat, depth: nat, acc: seq<Entry>, k: Bytes, v: BValue)
    requires depth <= MAX_DEPTH && Fits(v, MAX_DEPTH - depth) && |acc| < MAX_ELEMENTS
    requires At(s, pos, EncodeBytes(k) + Encode(v)) && |s| <= USIZE_MAX
    ensures var next := pos + |EncodeBytes(k)| + |Encode(v)|;
      && DecodeEntries(s, pos, depth, acc) == DecodeEntries(s, next, depth, Insert(acc, k, v))
      && RawEntries(s, pos, depth) == [Raw(k, v, pos + |EncodeBytes(k)|, next)] + RawEntries(s, next, depth)
  {
    hide DecodeValue, Encode, EncodeBytes, Fits, Insert;
    AtSplit(s, pos, EncodeBytes(k), Encode(v));
    KeyRoundTrip(s, pos, k, depth);
    ValueRoundTrip(s, pos + |EncodeBytes(k)|, v, depth);
  }

  lemma RepeatedKeyDecodes(k: Bytes, v: BValue, w: BValue)
    requires Fits(v, MAX_DEPTH - 1) && Fits(w, MAX_DEPTH - 1) && |RepeatedKey(k, v, w)| <= USIZE_MAX
    ensures var data := RepeatedKey(k, v, w);
      && DecodeEntries(data, 1, 1, []) == Success([Entry(k, w)], |data|)
      && First(RawEntries(data, 1, 1), k) == Some(Raw(k, v, 1 + |EncodeBytes(k)|, 1 + |EncodeBytes(k)| + |Encode(v)|))
  {
    hide DecodeValue, DecodeEntries, RawEntries, Insert, Encode, EncodeBytes, Fits, First;
    var data := RepeatedKey(k, v, w);
    Bracketed(data, 0, CHAR_D, TwoEntries(k, v, w));
    AtSplit(data, 1, EncodeBytes(k) + Encode(v), EncodeBytes(k) + Encode(w));
    RepeatedInsert(k, v, w);
    EntryStep(data, 1, 1, [], k, v);
    var p := 1 + |EncodeBytes(k)| + |Encode(v)|;
    EntryStep(data, p, 1, [Entry(k, v)], k, w);
    EntriesEnd(data, |data| - 1, 1, [Entry(k, w)]);
    FirstHead(Raw(k, v, 1 + |EncodeBytes(k)|, p), RawEntries(data, p, 1));
  }

  lemma FirstHead(r: Raw, rest: seq<Raw>)
    ensures First([r] + rest, r.key) == Some(r)
  {
  }

  lemma RepeatedInsert(k: Bytes, v: BValue, w: BValue)
    ensures Insert([], k, v) == [Entry(k, v)] && Insert([Entry(k, v)], k, w) == [Entry(k, w)]
  {
    LessIrreflexive(k);
  }

  lemma EntriesEnd(s: Bytes, pos: nat, depth: nat, acc: seq<Entry>)
    requires pos < |s| && s[pos] == CHAR_E
    ensures DecodeEntries(s, pos, depth, acc) == Success(acc, pos + 1) && RawEntries(s, pos, depth) == []
  {
  }

  /** A repeated "info" key: the hash covers the first value, the tree holds the second. */
  lemma RepeatedInfoDisagrees(v: BValue, w: BValue)
    requires Fits(v, MAX_DEPTH - 1) && Fits(w, MAX_DEPTH - 1)
    requires |RepeatedKey(KEY_INFO, v, w)| <= USIZE_MAX
    ensures var data := RepeatedKey(KEY_INFO, v, w);
      && DecodeValue(data, 0, 0) == Success(Dict([Entry(KEY_INFO, w)]), |data|)
      && InfoRange(data).Ok? && HashedBytes(data) == Encode(v)
  {
    hide DecodeValue, DecodeEntries, Encode, EncodeBytes, Fits, WalkInfo, RawEntries, First;
    var data := RepeatedKey(KEY_INFO, v, w);
    RepeatedKeyDecodes(KEY_INFO, v, w);
    Bracketed(data, 0, CHAR_D, TwoEntries(KEY_INFO, v, w));
    DictStep(data, [Entry(KEY_INFO, w)], |data|);
    WalkFindsFirst(data, 1, 1, []);
    AtSplit(data, 1, EncodeBytes(KEY_INFO) + Encode(v), EncodeBytes(KEY_INFO) + Encode(w));
    AtSplit(data, 1, EncodeBytes(KEY_INFO), Encode(v));
  }

  lemma DictStep(data: Bytes, es: seq<Entry>, end: nat)
    requires data != [] && data[0] == CHAR_D && DecodeEntries(data, 1, 1, []) == Success(es, end)
    ensures DecodeValue(data, 0, 0) == Success(Dict(es), end)
  {
  }
}
