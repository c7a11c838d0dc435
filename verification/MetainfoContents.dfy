/** What a parsed torrent file holds is what stands under its keys. */
module MetainfoContents {
  import opened ByteStrings
  import opened Wrappers
  import opened Bencode
  import opened Metainfo
  import opened MetainfoLaws
  import opened MagnetWrapLaws

  // ------------------------------------------------------------------- hashes

  lemma {:induction false} ChunksJoin(raw: Bytes, k: nat)
    requires |raw| % 20 == 0 && k <= |raw| / 20
    ensures |Chunks(raw)| == |raw| / 20
    ensures Flatten(Chunks(raw)[..k]) == raw[..20 * k]
  {
    if k > 0 {
      ChunksJoin(raw, k - 1);
      FlattenSnoc(Chunks(raw), k - 1);
      assert raw[..20 * k] == raw[..20 * (k - 1)] + raw[20 * (k - 1)..20 * k];
    }
  }

  /** The piece hashes, of 20 bytes each and in order, are the bytes under "pieces". */
  lemma PieceHashesAre(val: BValue, info: Info)
    requires ParseInfo(val) == Ok(info)
    ensures forall i :: 0 <= i < |info.pieces| ==> |info.pieces[i]| == 20
    ensures val.Get(KEY_PIECES) == Some(BValue.Bytes(Flatten(info.pieces)))
  {
    hide ParseLayout, Lookup, Utf8, Contains, TotalLength;
    var raw := val.Get(KEY_PIECES).value.bytes;
    ChunksJoin(raw, |raw| / 20);
    assert Chunks(raw)[..|raw| / 20] == Chunks(raw) && raw[..20 * (|raw| / 20)] == raw;
  }

  // ------------------------------------------------------------------ scalars

  /**
   * An info dictionary is accepted exactly when its fields are there and in range, its name and file
   * list are fit to be paths, and the pieces just cover the total length.
   */
  lemma AcceptedInfoIff(val: BValue)
    ensures ParseInfo(val).Ok? <==>
      (&& val.Dict?
       && (exists pl: i64, raw, name ::
             && val.Get(KEY_PIECE_LENGTH) == Some(Int(pl)) && 1 <= pl <= 256 * 1024 * 1024
             && val.Get(KEY_PIECES) == Some(BValue.Bytes(raw)) && raw != [] && |raw| % 20 == 0
             && val.Get(KEY_NAME) == Some(BValue.Bytes(name)) && Utf8(name) && SafeName(name)
             && ParseLayout(val).Ok? && TotalLength(ParseLayout(val).value) != 0
             && DivCeil(TotalLength(ParseLayout(val).value), pl) == |raw| / 20))
  {
    hide ParseLayout, Lookup, Utf8, SafeName, TotalLength, DivCeil;
    if ParseInfo(val).Ok? {
      var pl, raw := val.Get(KEY_PIECE_LENGTH).value.n, val.Get(KEY_PIECES).value.bytes;
      var name := val.Get(KEY_NAME).value.bytes;
      assert |Chunks(raw)| == |raw| / 20;
    }
    forall pl: i64, raw, name |
      && val.Dict?
      && val.Get(KEY_PIECE_LENGTH) == Some(Int(pl)) && 1 <= pl <= 256 * 1024 * 1024
      && val.Get(KEY_PIECES) == Some(BValue.Bytes(raw)) && raw != [] && |raw| % 20 == 0
      && val.Get(KEY_NAME) == Some(BValue.Bytes(name)) && Utf8(name) && SafeName(name)
      && ParseLayout(val).Ok? && TotalLength(ParseLayout(val).value) != 0
      && DivCeil(TotalLength(ParseLayout(val).value), pl) == |raw| / 20
      ensures ParseInfo(val).Ok?
    {
      assert |Chunks(raw)| == |raw| / 20;
    }
  }

  /** Piece length and name are the values under their keys. */
  lemma ScalarsAre(val: BValue, info: Info)
    requires ParseInfo(val) == Ok(info)
    ensures val.Get(KEY_PIECE_LENGTH) == Some(Int(info.pieceLength))
    ensures val.Get(KEY_NAME) == Some(BValue.Bytes(info.name)) && Utf8(info.name)
    ensures info.totalLength == TotalLength(info.files)
  {
    hide ParseLayout, Lookup, Utf8, SafeName, TotalLength, DivCeil;
  }

  // -------------------------------------------------------------------- files

  /** A list of texts, read as texts, is those texts in order. */
  lemma {:induction false} TextsAre(path: seq<BValue>)
    requires forall i :: 0 <= i < |path| ==> path[i].AsStr().Some?
    ensures |Components(path)| == |path|
    ensures forall i :: 0 <= i < |path| ==> path[i] == BValue.Bytes(Components(path)[i])
  {
    hide Utf8;
    if path != [] {
      TextsAre(path[1..]);
      assert forall i :: 1 <= i < |path| ==> path[i] == path[1..][i - 1];
    }
  }

  /** Anything in the list that is not text is as if it were not there. */
  lemma {:induction false} OthersAreSkipped(path: seq<BValue>, i: nat)
    requires i < |path| && path[i].AsStr().None?
    ensures Components(path) == Components(path[..i] + path[i + 1..])
  {
    hide Utf8;
    var rest := path[..i] + path[i + 1..];
    if i == 0 {
      assert rest == path[1..];
    } else {
      OthersAreSkipped(path[1..], i - 1);
      assert rest[1..] == path[1..][..i - 1] + path[1..][i..] && rest[0] == path[0];
    }
  }

  /** The entry of one file: its length, and the text components of its path, none of them unsafe. */
  ghost predicate EntryOf(f: BValue, entry: FileEntry) {
    && entry.length <= I64_MAX && f.Get(KEY_LENGTH) == Some(Int(entry.length))
    && f.Get(KEY_PATH).Some? && f.Get(KEY_PATH).value.List?
    && entry.path == Components(f.Get(KEY_PATH).value.items)
    && forall c :: c in entry.path ==> c != [] && c != Ascii("..") && 0x2F !in c && 0x5C !in c
  }

  /** A file is accepted exactly when it has a length and a path, none of whose components is unsafe. */
  lemma EntryIff(f: BValue)
    ensures ParseFile(f).Ok? ==> EntryOf(f, ParseFile(f).value)
    ensures (exists entry :: EntryOf(f, entry)) ==> ParseFile(f).Ok?
  {
    hide Lookup, Utf8, Components;
    assert Ascii("..") == [DOT, DOT];
    if ParseFile(f).Ok? {
      forall c | c in ParseFile(f).value.path
        ensures SafeComponent(c)
      {
        assert c in Components(f.Get(KEY_PATH).value.items);
      }
    }
    forall entry | EntryOf(f, entry)
      ensures ParseFile(f).Ok?
    {
      assert forall c :: c in Components(f.Get(KEY_PATH).value.items) ==> SafeComponent(c);
    }
  }

  lemma {:induction false} EntriesAre(files: seq<BValue>, entries: seq<FileEntry>)
    requires ParseFiles(files) == Ok(entries)
    ensures |entries| == |files| && forall i :: 0 <= i < |files| ==> EntryOf(files[i], entries[i])
  {
    hide ParseFile, EntryOf;
    if files != [] {
      EntryIff(files[0]);
      EntriesAre(files[1..], ParseFiles(files[1..]).value);
      assert forall i :: 1 <= i < |files| ==> files[i] == files[1..][i - 1];
    }
  }

  lemma {:induction false} EntriesIff(files: seq<BValue>)
    ensures ParseFiles(files).Ok? <==> forall i :: 0 <= i < |files| ==> ParseFile(files[i]).Ok?
  {
    hide ParseFile;
    if files != [] {
      EntriesIff(files[1..]);
      assert forall i :: 1 <= i < |files| ==> files[i] == files[1..][i - 1];
    }
  }

  /**
   * The files are those listed under "files", entry for element, or else the one file whose length stands
   * under "length".
   */
  lemma FilesAre(val: BValue, info: Info)
    requires ParseInfo(val) == Ok(info)
    ensures match val.Get(KEY_FILES)
            case None =>
             && info.files.Single? && info.files.length <= I64_MAX
             && val.Get(KEY_LENGTH) == Some(Int(info.files.length))
            case Some(listed) =>
              && info.files.Multi? && listed.List? && |info.files.files| == |listed.items|
              && forall i :: 0 <= i < |listed.items| ==> EntryOf(listed.items[i], info.files.files[i])
  {
    hide Lookup, Utf8, SafeName, EntryOf, ParseFiles, DivCeil, TotalLength;
    assert ParseLayout(val) == Ok(info.files);
    match val.Get(KEY_FILES)
    case Some(List(files)) => EntriesAre(files, info.files.files);
    case _ =>
  }

  /** A name is fit to be a path exactly when it is not empty and holds no separator and no "..". */
  lemma SafeNameIff(name: Bytes)
    ensures SafeName(name) <==>
      (&& name != [] && 0x2F !in name && 0x5C !in name
       && forall i :: 0 <= i < |name| - 1 ==> !(name[i] == 0x2E && name[i + 1] == 0x2E))
  {
    NoneInside(name);
  }

  lemma {:induction false} NoneInside(s: Bytes)
    ensures !Contains(s, [DOT, DOT]) <==> forall i :: 0 <= i < |s| - 1 ==> !(s[i] == DOT && s[i + 1] == DOT)
  {
    if s != [] {
      NoneInside(s[1..]);
      assert [DOT, DOT] <= s <==> |s| > 1 && s[0] == DOT && s[1] == DOT;
      assert forall i :: 1 <= i < |s| - 1 ==> s[1..][i - 1] == s[i] && s[1..][i] == s[i + 1];
      if !Contains(s, [DOT, DOT]) {
        forall i | 0 <= i < |s| - 1
          ensures !(s[i] == DOT && s[i + 1] == DOT)
        {
          if i > 0 {
            assert !(s[1..][i - 1] == DOT && s[1..][i] == DOT);
          }
        }
      } else if Contains(s[1..], [DOT, DOT]) {
        var i :| 0 <= i < |s[1..]| - 1 && s[1..][i] == DOT && s[1..][i + 1] == DOT;
        assert s[i + 1] == DOT && s[i + 2] == DOT;
      }
    }
  }

  // ------------------------------------------------------------ the whole file

  /** The text under a key, if there is text. */
  function TextUnder(root: BValue, key: Bytes): Option<Bytes> {
    match root.Get(key)
    case Some(Bytes(b)) => if Utf8(b) then Some(b) else None
    case _ => None
  }

  /** Tiers that are lists are the texts in them, tier for tier. */
  lemma {:induction false} TiersAre(tiers: seq<BValue>)
    requires forall i :: 0 <= i < |tiers| ==> tiers[i].List?
    ensures |Tiers(tiers)| == |tiers|
    ensures forall i :: 0 <= i < |tiers| ==> Tiers(tiers)[i] == Components(tiers[i].items)
  {
    hide Components;
    if tiers != [] {
      TiersAre(tiers[1..]);
      assert forall i :: 1 <= i < |tiers| ==> tiers[i] == tiers[1..][i - 1];
    }
  }

  /** A tier that is not a list is as if it were not there. */
  lemma {:induction false} OtherTiersAreSkipped(tiers: seq<BValue>, i: nat)
    requires i < |tiers| && !tiers[i].List?
    ensures Tiers(tiers) == Tiers(tiers[..i] + tiers[i + 1..])
  {
    hide Components;
    var rest := tiers[..i] + tiers[i + 1..];
    if i == 0 {
      assert rest == tiers[1..];
    } else {
      OtherTiersAreSkipped(tiers[1..], i - 1);
      assert rest[1..] == tiers[1..][..i - 1] + tiers[1..][i..] && rest[0] == tiers[0];
    }
  }

  /** The URLs a session announces to: those listed, each once, in order, the announce URL in front unless listed. */
  lemma TrackerUrlsAre(m: Metainfo)
    ensures var listed := Flatten(if m.announceList.Some? then m.announceList.value else []);
      var urls := TrackerUrls(m);
      && (forall u :: u in urls <==> u in listed || m.announce == Some(u))
      && (if m.announce.Some? && m.announce.value !in listed
          then urls != [] && urls[0] == m.announce.value && InFirstOrder(listed, urls[1..])
          else InFirstOrder(listed, urls))
  {
    hide Flatten, Dedup;
    var listed := Flatten(if m.announceList.Some? then m.announceList.value else []);
    EmptyUrls();
    DedupOrder(listed);
  }

  /** A torrent file's fields are what stands under their keys, and its info hash that of the hashed bytes. */
  lemma MetainfoIs(sha1: Bytes -> Hash, data: Bytes, m: Metainfo)
    requires FromBytes(sha1, data) == Ok(m)
    ensures DecodeValue(data, 0, 0).Success?
    ensures var root := DecodeValue(data, 0, 0).value;
      && root.Get(KEY_INFO).Some? && ParseInfo(root.Get(KEY_INFO).value) == Ok(m.info)
      && InfoRange(data).Ok? && m.infoHash == sha1(HashedBytes(data))
      && m.announce == TextUnder(root, KEY_ANNOUNCE)
      && m.comment == TextUnder(root, KEY_COMMENT)
      && m.createdBy == TextUnder(root, KEY_CREATED_BY)
      && (forall n: i64 :: m.creationDate == Some(n) <==> root.Get(KEY_CREATION_DATE) == Some(Int(n)))
      && (m.announceList.Some? <==> root.Get(KEY_ANNOUNCE_LIST).Some? && root.Get(KEY_ANNOUNCE_LIST).value.List?)
      && (m.announceList.Some? ==> m.announceList.value == Tiers(root.Get(KEY_ANNOUNCE_LIST).value.items))
  {
    hide DecodeValue, Lookup, Utf8, ParseInfo, InfoRange, Tiers;
  }
}
