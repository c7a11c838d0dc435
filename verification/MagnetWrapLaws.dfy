/** A magnet download stored as a .torrent parses back to the session it came from. */
module MagnetWrapLaws {
  import opened ByteStrings
  import opened Wrappers
  import opened Bencode
  import opened BencodeRoundTrip
  import opened BencodeLaws
  import opened BencodeBounds
  import opened Metainfo
  import opened MetainfoLaws

  lemma TrackerListFits(trackers: seq<Bytes>)
    requires |trackers| <= MAX_ELEMENTS
    ensures Fits(List([List(StringValues(trackers))]), MAX_DEPTH - 1)
  {
    assert FitsItems(StringValues(trackers), MAX_DEPTH - 3);
    assert Fits(List(StringValues(trackers)), MAX_DEPTH - 2);
    assert FitsItems([List(StringValues(trackers))], MAX_DEPTH - 2);
  }

  lemma WrappedFits(info: BValue, trackers: seq<Bytes>)
    requires Fits(info, MAX_DEPTH - 1) && |trackers| <= MAX_ELEMENTS
    ensures Fits(Dict(WrappedEntries(info, trackers)), MAX_DEPTH)
  {
    hide Insert, Less;
    FitsInsert([], KEY_INFO, info, MAX_DEPTH - 1);
    var d0 := Insert([], KEY_INFO, info);
    var d1 := if trackers == [] then d0 else Insert(d0, KEY_ANNOUNCE, BValue.Bytes(trackers[0]));
    if trackers != [] {
      FitsInsert(d0, KEY_ANNOUNCE, BValue.Bytes(trackers[0]), MAX_DEPTH - 1);
    }
    if |trackers| > 1 {
      TrackerListFits(trackers);
      FitsInsert(d1, KEY_ANNOUNCE_LIST, List([List(StringValues(trackers))]), MAX_DEPTH - 1);
    }
  }

  /** The six keys `from_bytes` reads from the wrapped dictionary. */
  lemma WrappedLookups(info: BValue, trackers: seq<Bytes>)
    ensures var es := WrappedEntries(info, trackers);
      && Lookup(es, KEY_INFO) == Some(info)
      && Lookup(es, KEY_ANNOUNCE) == (if trackers == [] then None else Some(BValue.Bytes(trackers[0])))
      && Lookup(es, KEY_ANNOUNCE_LIST)
         == (if |trackers| > 1 then Some(List([List(StringValues(trackers))])) else None)
      && Lookup(es, KEY_CREATION_DATE) == None
      && Lookup(es, KEY_COMMENT) == None
      && Lookup(es, KEY_CREATED_BY) == None
  {
    hide Insert, Lookup;
    forall k
      ensures Lookup(WrappedEntries(info, trackers), k)
           == if k == KEY_INFO then Some(info)
              else if k == KEY_ANNOUNCE && trackers != [] then Some(BValue.Bytes(trackers[0]))
              else if k == KEY_ANNOUNCE_LIST && |trackers| > 1 then Some(List([List(StringValues(trackers))]))
              else None
    {
      WrappedLookup(info, trackers, k);
    }
  }

  lemma WrappedLookup(info: BValue, trackers: seq<Bytes>, k: Bytes)
    ensures Lookup(WrappedEntries(info, trackers), k)
         == if k == KEY_INFO then Some(info)
            else if k == KEY_ANNOUNCE && trackers != [] then Some(BValue.Bytes(trackers[0]))
            else if k == KEY_ANNOUNCE_LIST && |trackers| > 1 then Some(List([List(StringValues(trackers))]))
            else None
  {
    hide Insert, Lookup;
    LookupEmpty(k);
    LookupInsert([], KEY_INFO, info, k);
    var d0 := Insert([], KEY_INFO, info);
    var d1 := if trackers == [] then d0 else Insert(d0, KEY_ANNOUNCE, BValue.Bytes(trackers[0]));
    if trackers != [] {
      LookupInsert(d0, KEY_ANNOUNCE, BValue.Bytes(trackers[0]), k);
    }
    if |trackers| > 1 {
      LookupInsert(d1, KEY_ANNOUNCE_LIST, List([List(StringValues(trackers))]), k);
    }
  }

  lemma {:induction false} StringsBack(trackers: seq<Bytes>)
    requires forall i :: 0 <= i < |trackers| ==> Utf8(trackers[i])
    ensures Components(StringValues(trackers)) == trackers
  {
    if trackers != [] {
      StringsBack(trackers[1..]);
      assert StringValues(trackers)[1..] == StringValues(trackers[1..]);
    }
  }

  // ------------------------------------------------------------ de-duplication

  lemma {:induction false} DedupMembers<T>(xs: seq<T>)
    ensures forall x :: x in Dedup(xs) <==> x in xs
  {
    if xs != [] {
      DedupMembers(xs[..|xs| - 1]);
      assert xs == xs[..|xs| - 1] + [xs[|xs| - 1]];
    }
  }

  /** The index at which x first occurs. */
  ghost function FirstAt<T>(xs: seq<T>, x: T): nat
    requires x in xs
  {
    if xs[0] == x then 0 else 1 + FirstAt(xs[1..], x)
  }

  lemma {:induction false} FirstAtPrefix<T>(xs: seq<T>, y: T, x: T)
    ensures x in xs ==> FirstAt(xs + [y], x) == FirstAt(xs, x) < |xs|
    ensures x !in xs && x == y ==> FirstAt(xs + [y], x) == |xs|
  {
    if xs != [] {
      FirstAtPrefix(xs[1..], y, x);
      assert (xs + [y])[1..] == xs[1..] + [y];
    }
  }

  /** r lists elements of xs, in the order of their first occurrences (so none twice). */
  ghost predicate InFirstOrder<T(!new)>(xs: seq<T>, r: seq<T>) {
    && (forall i :: 0 <= i < |r| ==> r[i] in xs)
    && (forall i, j :: 0 <= i < j < |r| ==> FirstAt(xs, r[i]) < FirstAt(xs, r[j]))
  }

  lemma InFirstOrderSnoc<T(!new)>(front: seq<T>, r: seq<T>, last: T)
    requires InFirstOrder(front, r)
    ensures InFirstOrder(front + [last], r)
    ensures last !in front ==> InFirstOrder(front + [last], r + [last])
  {
    forall i | 0 <= i < |r|
      ensures r[i] in front && FirstAt(front + [last], r[i]) == FirstAt(front, r[i]) < |front|
    {
      FirstAtPrefix(front, last, r[i]);
    }
    FirstAtPrefix(front, last, last);
  }

  /** De-duplication lists each element once, in the order of first occurrences. */
  lemma {:induction false} DedupOrder<T(!new)>(xs: seq<T>)
    ensures forall x :: x in Dedup(xs) <==> x in xs
    ensures InFirstOrder(xs, Dedup(xs))
  {
    DedupMembers(xs);
    if xs != [] {
      var front, last := xs[..|xs| - 1], xs[|xs| - 1];
      assert xs == front + [last];
      DedupOrder(front);
      InFirstOrderSnoc(front, Dedup(front), last);
    }
  }

  lemma FlattenOne(trackers: seq<Bytes>)
    ensures Flatten([trackers]) == trackers
  {
    assert Flatten([trackers][..0]) == [];
  }

  /** `tracker_urls` of a session started from a tracker list: the list, de-duplicated in order. */
  lemma TrackersSurvive(m: Metainfo, trackers: seq<Bytes>)
    requires m.announce == if trackers == [] then None else Some(trackers[0])
    requires m.announceList == if |trackers| > 1 then Some([trackers]) else None
    ensures TrackerUrls(m) == Dedup(trackers)
  {
    FlattenOne(trackers);
    DedupMembers(trackers);
    if |trackers| == 1 {
      assert Dedup(trackers) == [trackers[0]] by {
        assert trackers[..0] == [];
      }
    }
  }

  // ------------------------------------------------------------------- wrapping

  /** The stored file stays within the decoder's bounds: it is one level deeper than what was received. */
  ghost predicate Storable(info: BValue, trackers: seq<Bytes>) {
    Fits(info, MAX_DEPTH - 1) && |trackers| <= MAX_ELEMENTS
  }

  lemma OrderedInsert(es: seq<Entry>, key: Bytes, value: BValue)
    requires Ordered(Dict(es)) && Ordered(value)
    ensures Ordered(Dict(Insert(es, key, value)))
  {
    InsertSorted(es, key, value);
    var r := Insert(es, key, value);
    forall i | 0 <= i < |r|
      ensures Ordered(r[i].value)
    {
      assert r[i] in r;
    }
  }

  lemma WrappedOrdered(info: BValue, trackers: seq<Bytes>)
    requires Ordered(info)
    ensures Ordered(Dict(WrappedEntries(info, trackers)))
  {
    hide Insert, Less;
    OrderedInsert([], KEY_INFO, info);
    var d0 := Insert([], KEY_INFO, info);
    var d1 := if trackers == [] then d0 else Insert(d0, KEY_ANNOUNCE, BValue.Bytes(trackers[0]));
    if trackers != [] {
      OrderedInsert(d0, KEY_ANNOUNCE, BValue.Bytes(trackers[0]));
    }
    if |trackers| > 1 {
      var tiers := List([List(StringValues(trackers))]);
      assert Ordered(List(StringValues(trackers)));
      assert Ordered(tiers);
      OrderedInsert(d1, KEY_ANNOUNCE_LIST, tiers);
    }
  }

  lemma DictFits(es: seq<Entry>, levels: nat, i: nat)
    requires Fits(Dict(es), levels) && i < |es|
    ensures levels > 0 && Fits(es[i].value, levels - 1)
  {
  }

  lemma ListFits(items: seq<BValue>, levels: nat)
    requires Fits(List(items), levels)
    ensures levels > 0 && |items| <= MAX_ELEMENTS && forall i :: 0 <= i < |items| ==> Fits(items[i], levels - 1)
  {
  }

  lemma WrappedFitsIff(info: BValue, trackers: seq<Bytes>)
    ensures Fits(Dict(WrappedEntries(info, trackers)), MAX_DEPTH) <==> Storable(info, trackers)
  {
    hide Insert, Less, Lookup, WrappedEntries, Sorted, Fits;
    var es := WrappedEntries(info, trackers);
    if Storable(info, trackers) {
      WrappedFits(info, trackers);
    }
    if Fits(Dict(es), MAX_DEPTH) {
      WrappedLookups(info, trackers);
      var i := FoundIndex(es, KEY_INFO);
      DictFits(es, MAX_DEPTH, i);
      if |trackers| > 1 {
        var j := FoundIndex(es, KEY_ANNOUNCE_LIST);
        DictFits(es, MAX_DEPTH, j);
        var tiers := [List(StringValues(trackers))];
        ListFits(tiers, MAX_DEPTH - 1);
        assert Fits(tiers[0], MAX_DEPTH - 2);
        ListFits(StringValues(trackers), MAX_DEPTH - 2);
      }
    }
  }

  /**
   * Whatever info dictionary a session was started from: its stored file can be read again exactly when
   * the dictionary leaves one level of nesting, and the tracker list room. It then gives the same session,
   * with the hash of the dictionary's canonical encoding.
   */
  lemma WrappedFileParses(sha1: Bytes -> Hash, raw: Bytes, trackers: seq<Bytes>, info: BValue)
    requires DecodeValue(raw, 0, 0).Success? && DecodeValue(raw, 0, 0).value == info && ParseInfo(info).Ok?
    requires forall i :: 0 <= i < |trackers| ==> Utf8(trackers[i])
    requires |Encode(Dict(WrappedEntries(info, trackers)))| <= USIZE_MAX
    ensures FromInfoBytes(raw, sha1(raw), trackers).Ok? && TorrentBytesFromInfo(raw, trackers).Ok?
    ensures FromBytes(sha1, TorrentBytesFromInfo(raw, trackers).value).Ok? <==> Storable(info, trackers)
    ensures Storable(info, trackers) ==>
      var torrent := TorrentBytesFromInfo(raw, trackers).value;
      && FromBytes(sha1, torrent) == FromInfoBytes(raw, sha1(Encode(info)), trackers)
      && InfoRange(torrent).Ok? && HashedBytes(torrent) == Encode(info)
      && TrackerUrls(FromBytes(sha1, torrent).value) == Dedup(trackers)
  {
    DecodedValue(raw, 0, 0);
    FitsOrdered(info, MAX_DEPTH);
    hide DecodeValue, WrappedEntries, ParseInfo, Lookup, Encode, InfoRange, Dedup, TrackerUrls, Fits, Ordered;
    var es := WrappedEntries(info, trackers);
    var torrent := Encode(Dict(es));
    WrappedOrdered(info, trackers);
    WrappedFitsIff(info, trackers);
    assert torrent + [] == torrent;
    AcceptedIff(Dict(es), []);
    if Storable(info, trackers) {
      WrappedLookups(info, trackers);
      DecodeAfterEncode(Dict(es), []);
      HashedIsEncoding(es);
      StringsBack(trackers);
      OneTier(trackers);
      TrackersSurvive(FromInfoBytes(raw, sha1(Encode(info)), trackers).value, trackers);
    }
  }

  lemma OneTier(trackers: seq<Bytes>)
    requires Components(StringValues(trackers)) == trackers
    ensures Tiers([List(StringValues(trackers))]) == [trackers]
  {
    var tiers := [List(StringValues(trackers))];
    assert Tiers(tiers[1..]) == [];
    assert tiers[0].AsList() == Some(StringValues(trackers));
  }

  /**
   * The stored file names the torrent that was received, under every hash function, exactly when the bytes
   * received were the canonical encoding; and so under one without a collision between the two.
   */
  lemma HashSurvivesIffCanonical(sha1: Bytes -> Hash, raw: Bytes, trackers: seq<Bytes>, info: BValue)
    requires DecodeValue(raw, 0, 0).Success? && DecodeValue(raw, 0, 0).value == info && ParseInfo(info).Ok?
    requires forall i :: 0 <= i < |trackers| ==> Utf8(trackers[i])
    requires |Encode(Dict(WrappedEntries(info, trackers)))| <= USIZE_MAX && Storable(info, trackers)
    ensures (forall hash: Bytes -> Hash :: StoredHash(hash, raw, trackers) == Some(hash(raw))) <==> raw == Encode(info)
    ensures StoredHash(sha1, raw, trackers) == Some(sha1(Encode(info)))
    ensures sha1(raw) != sha1(Encode(info)) || raw == Encode(info) ==>
      (StoredHash(sha1, raw, trackers) == Some(sha1(raw)) <==> raw == Encode(info))
  {
    hide DecodeValue, WrappedEntries, ParseInfo, Encode, FromBytes, TorrentBytesFromInfo, Storable;
    forall hash: Bytes -> Hash
      ensures StoredHash(hash, raw, trackers) == Some(hash(Encode(info)))
    {
      WrappedFileParses(hash, raw, trackers, info);
    }
    var same: Bytes -> Hash := b => b;
    assert StoredHash(same, raw, trackers) == Some(Encode(info));
  }

  /** The info hash read back from the stored file. */
  function StoredHash(sha1: Bytes -> Hash, raw: Bytes, trackers: seq<Bytes>): Option<Hash> {
    match TorrentBytesFromInfo(raw, trackers)
    case Err(_) => None
    case Ok(torrent) =>
      match FromBytes(sha1, torrent)
      case Err(_) => None
      case Ok(m) => Some(m.infoHash)
  }

  /**
   * An input on which the hash is lost: anything after the dictionary. It is part of what was hashed and
   * verified, the decoder ignores it, and the stored file leaves it out.
   */
  lemma TrailingBytesLoseHash(sha1: Bytes -> Hash, info: BValue, tail: Bytes, trackers: seq<Bytes>)
    requires Storable(info, trackers) && ParseInfo(info).Ok? && tail != []
    requires forall i :: 0 <= i < |trackers| ==> Utf8(trackers[i])
    requires |Encode(info) + tail| <= USIZE_MAX && |Encode(Dict(WrappedEntries(info, trackers)))| <= USIZE_MAX
    ensures var raw := Encode(info) + tail;
      && FromInfoBytes(raw, sha1(raw), trackers).Ok?
      && FromInfoBytes(raw, sha1(raw), trackers).value.infoHash == sha1(raw)
      && StoredHash(sha1, raw, trackers) == Some(sha1(Encode(info)))
      && raw != Encode(info)
      && TorrentBytesFromInfo(raw, trackers).Ok? && InfoRange(TorrentBytesFromInfo(raw, trackers).value).Ok?
      && HashedBytes(TorrentBytesFromInfo(raw, trackers).value) != raw
  {
    hide DecodeValue, WrappedEntries, ParseInfo, Encode, FromBytes, InfoRange;
    FitsMore(info, MAX_DEPTH - 1);
    DecodeAfterEncode(info, tail);
    WrappedFileParses(sha1, Encode(info) + tail, trackers, info);
    assert |Encode(info) + tail| > |Encode(info)|;
  }

  /** The round trip the wrap is for: a canonical info dictionary keeps its hash, its Info and its trackers. */
  lemma MagnetRoundTrip(sha1: Bytes -> Hash, raw: Bytes, trackers: seq<Bytes>, info: BValue)
    requires raw == Encode(info) && Storable(info, trackers) && ParseInfo(info).Ok?
    requires forall i :: 0 <= i < |trackers| ==> Utf8(trackers[i])
    requires |raw| <= USIZE_MAX && |Encode(Dict(WrappedEntries(info, trackers)))| <= USIZE_MAX
    ensures TorrentBytesFromInfo(raw, trackers).Ok?
    ensures var parsed := FromBytes(sha1, TorrentBytesFromInfo(raw, trackers).value);
      && parsed == FromInfoBytes(raw, sha1(raw), trackers)
      && parsed.Ok?
      && parsed.value.infoHash == sha1(raw)
      && parsed.value.info == ParseInfo(info).value
      && TrackerUrls(parsed.value) == Dedup(trackers)
  {
    hide DecodeValue, WrappedEntries, ParseInfo, Encode, FromBytes, Dedup, TrackerUrls;
    assert raw + [] == raw;
    FitsMore(info, MAX_DEPTH - 1);
    DecodeAfterEncode(info, []);
    WrappedFileParses(sha1, raw, trackers, info);
  }

  lemma {:induction false} FitsMore(v: BValue, levels: nat)
    requires Fits(v, levels)
    ensures Fits(v, levels + 1)
    decreases v
  {
    match v
    case Int(_) =>
    case Bytes(_) =>
    case List(items) =>
      forall i | 0 <= i < |items|
        ensures Fits(items[i], levels)
      {
        FitsMore(items[i], levels - 1);
      }
    case Dict(es) =>
      forall i | 0 <= i < |es|
        ensures Fits(es[i].value, levels)
      {
        FitsMore(es[i].value, levels - 1);
      }
  }
}
