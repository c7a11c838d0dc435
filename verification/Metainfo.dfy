/** The .torrent parser: info dictionary checks, the raw-byte info-hash walk, and magnet wrapping. */
module Metainfo {
  import opened ByteStrings
  import opened Wrappers
  import opened Bencode
  import opened BencodeDecoder
  import opened Buffers

  type Hash = Bytes

  const MAX_PIECE_LENGTH: int := 256 * 1024 * 1024

  const KEY_INFO: Bytes := [0x69, 0x6E, 0x66, 0x6F]
  const KEY_ANNOUNCE: Bytes := [0x61, 0x6E, 0x6E, 0x6F, 0x75, 0x6E, 0x63, 0x65]
  const KEY_ANNOUNCE_LIST: Bytes :=
    [0x61, 0x6E, 0x6E, 0x6F, 0x75, 0x6E, 0x63, 0x65, 0x2D, 0x6C, 0x69, 0x73, 0x74]
  const KEY_CREATION_DATE: Bytes :=
    [0x63, 0x72, 0x65, 0x61, 0x74, 0x69, 0x6F, 0x6E, 0x20, 0x64, 0x61, 0x74, 0x65]
  const KEY_COMMENT: Bytes := [0x63, 0x6F, 0x6D, 0x6D, 0x65, 0x6E, 0x74]
  const KEY_CREATED_BY: Bytes := [0x63, 0x72, 0x65, 0x61, 0x74, 0x65, 0x64, 0x20, 0x62, 0x79]
  const KEY_PIECE_LENGTH: Bytes := [0x70, 0x69, 0x65, 0x63, 0x65, 0x20, 0x6C, 0x65, 0x6E, 0x67, 0x74, 0x68]
  const KEY_PIECES: Bytes := [0x70, 0x69, 0x65, 0x63, 0x65, 0x73]
  const KEY_NAME: Bytes := [0x6E, 0x61, 0x6D, 0x65]
  const KEY_FILES: Bytes := [0x66, 0x69, 0x6C, 0x65, 0x73]
  const KEY_LENGTH: Bytes := [0x6C, 0x65, 0x6E, 0x67, 0x74, 0x68]
  const KEY_PATH: Bytes := [0x70, 0x61, 0x74, 0x68]

  const SLASH: byte := 0x2F
  const BACKSLASH: byte := 0x5C
  const DOT: byte := 0x2E

  datatype MetainfoError =
    | Decode(error: DecodeError)
    | MissingField(field: string)
    | InvalidFieldType(field: string)
    | InvalidPiecesLength(byteLength: nat)
    | InvalidPieceLength
    | NegativeFileLength(declared: int)
    | PathTraversal(field: string)

  datatype FileEntry = FileEntry(length: u64, path: seq<Bytes>)

  datatype FileLayout = Single(length: u64) | Multi(files: seq<FileEntry>)
  {
    /** The lengths of the files in torrent order. */
    function Lengths(): seq<nat> {
      match this
      case Single(length) => [length as nat]
      case Multi(files) => seq(|files|, i requires 0 <= i < |files| => files[i].length as nat)
    }
  }

  datatype Info = Info(pieceLength: u32, pieces: seq<Hash>, name: Bytes, files: FileLayout, totalLength: u64)

  datatype Metainfo = Metainfo(
    infoHash: Hash,
    info: Info,
    announce: Option<Bytes>,
    announceList: Option<seq<seq<Bytes>>>,
    creationDate: Option<i64>,
    comment: Option<Bytes>,
    createdBy: Option<Bytes>)

  // ------------------------------------------------------------ parse_info

  function Sum(xs: seq<nat>): nat {
    if xs == [] then 0 else Sum(xs[..|xs| - 1]) + xs[|xs| - 1]
  }

  function DivCeil(a: nat, b: nat): nat
    requires b > 0
  {
    (a + b - 1) / b
  }

  function ParseLength(v: BValue, field: string): Result<u64, MetainfoError> {
    match v.Get(KEY_LENGTH)
    case Some(Int(n)) => if n < 0 then Err(NegativeFileLength(n)) else Ok(n)
    case _ => Err(MissingField(field))
  }

  /** The strings of a list that are text: path components, or the URLs of a tier. */
  function Components(path: seq<BValue>): seq<Bytes> {
    if path == [] then []
    else
      match path[0].AsStr()
      case Some(c) => [c] + Components(path[1..])
      case None => Components(path[1..])
  }

  predicate SafeComponent(c: Bytes) {
    c != [] && c != [DOT, DOT] && SLASH !in c && BACKSLASH !in c
  }

  function ParseFile(f: BValue): Result<FileEntry, MetainfoError> {
    match ParseLength(f, "files[].length")
    case Err(e) => Err(e)
    case Ok(length) =>
      match f.Get(KEY_PATH)
      case Some(List(path)) =>
        if exists c :: c in Components(path) && !SafeComponent(c) then Err(PathTraversal("files[].path"))
        else Ok(FileEntry(length, Components(path)))
      case _ => Err(MissingField("files[].path"))
  }

  function ParseFiles(files: seq<BValue>): Result<seq<FileEntry>, MetainfoError> {
    if files == [] then Ok([])
    else
      match ParseFile(files[0])
      case Err(e) => Err(e)
      case Ok(f) =>
        match ParseFiles(files[1..])
        case Err(e) => Err(e)
        case Ok(rest) => Ok([f] + rest)
  }

  function ParseLayout(val: BValue): Result<FileLayout, MetainfoError> {
    match val.Get(KEY_FILES)
    case Some(List(files)) =>
      (match ParseFiles(files)
       case Ok(entries) => Ok(Multi(entries))
       case Err(e) => Err(e))
    case Some(_) => Err(InvalidFieldType("files"))
    case None =>
      match ParseLength(val, "length")
      case Ok(length) => Ok(Single(length))
      case Err(e) => Err(e)
  }

  function Chunks(raw: Bytes): seq<Hash> {
    seq(|raw| / 20, i requires 0 <= i < |raw| / 20 => raw[20 * i..20 * i + 20])
  }

  predicate SafeName(name: Bytes) {
    name != [] && SLASH !in name && BACKSLASH !in name && !Contains(name, [DOT, DOT])
  }

  /** The sum of the file lengths in 64-bit arithmetic: it wraps. */
  function TotalLength(files: FileLayout): u64 {
    Wrap64(Sum(files.Lengths()))
  }

  function ParseInfo(val: BValue): Result<Info, MetainfoError> {
    if !val.Dict? then Err(InvalidFieldType("info"))
    else match val.Get(KEY_PIECE_LENGTH)
    case Some(Int(pieceLength)) =>
      if pieceLength <= 0 || pieceLength > MAX_PIECE_LENGTH then Err(InvalidPieceLength)
      else (match val.Get(KEY_PIECES)
        case Some(Bytes(raw)) =>
          if raw == [] || |raw| % 20 != 0 then Err(InvalidPiecesLength(|raw|))
          else (match val.Get(KEY_NAME)
            case Some(Bytes(name)) =>
              if !Utf8(name) then Err(MissingField("name"))
              else if !SafeName(name) then Err(PathTraversal("name"))
              else (match ParseLayout(val)
                case Err(e) => Err(e)
                case Ok(files) =>
                  var total := TotalLength(files);
                  var pieces := Chunks(raw);
                  if total == 0 || DivCeil(total, pieceLength) != |pieces| then Err(InvalidPieceLength)
                  else Ok(Info(pieceLength, pieces, name, files, total)))
            case _ => Err(MissingField("name")))
        case _ => Err(MissingField("pieces")))
    case _ => Err(MissingField("piece length"))
  }

  /** The file loop, pushing entries until one is rejected. */
  method ReadFiles(files: seq<BValue>) returns (r: Result<seq<FileEntry>, MetainfoError>)
    ensures r == ParseFiles(files)
  {
    var entries: seq<FileEntry> := [];
    assert files[0..] == files;
    assert forall rest: seq<FileEntry> :: entries + rest == rest;
    for i := 0 to |files|
      invariant ParseFiles(files) == match ParseFiles(files[i..])
                                     case Ok(rest) => Ok(entries + rest)
                                     case Err(e) => Err(e)
    {
      assert files[i..][1..] == files[i + 1..];
      match ParseFile(files[i])
      case Err(e) => return Err(e);
      case Ok(f) =>
        assert forall rest: seq<FileEntry> :: entries + ([f] + rest) == entries + [f] + rest;
        entries := entries + [f];
    }
    assert entries + [] == entries;
    r := Ok(entries);
  }

  // ------------------------------------------------------- info-hash walk

  datatype ByteRange = ByteRange(start: nat, end: nat)

  /** The byte range of the value under the first "info" key, from entry position pos on. */
  function WalkInfo(data: Bytes, pos: nat): (r: Result<ByteRange, MetainfoError>)
    requires pos <= |data|
    ensures r.Ok? ==> r.value.start <= r.value.end <= |data|
    decreases |data| - pos
  {
    if pos == |data| || data[pos] == CHAR_E then Err(MissingField("info"))
    else
      match DecodeValue(data[pos..], 0, 0)
      case Failure(e) => Err(Decode(e))
      case Success(key, keyLength) =>
        var keyEnd := pos + keyLength;
        match DecodeValue(data[keyEnd..], 0, 0)
        case Failure(e) => Err(Decode(e))
        case Success(_, valueLength) =>
          if key == BValue.Bytes(KEY_INFO) then Ok(ByteRange(keyEnd, keyEnd + valueLength))
          else WalkInfo(data, keyEnd + valueLength)
  }

  function InfoRange(data: Bytes): (r: Result<ByteRange, MetainfoError>)
    ensures r.Ok? ==> r.value.start <= r.value.end <= |data|
  {
    if data == [] || data[0] != CHAR_D then Err(InvalidFieldType("root")) else WalkInfo(data, 1)
  }

  /** `compute_info_hash`: a fresh decoder per key and per value, over the rest of the bytes. */
  method ComputeInfoHash(sha1: Bytes -> Hash, data: Bytes) returns (r: Result<Hash, MetainfoError>)
    ensures match InfoRange(data)
            case Ok(range) => r == Ok(sha1(data[range.start..range.end]))
            case Err(e) => r == Err(e)
  {
    hide DecodeValue;
    if data == [] || data[0] != CHAR_D {
      return Err(InvalidFieldType("root"));
    }
    var pos := 1;
    while true
      invariant pos <= |data| && InfoRange(data) == WalkInfo(data, pos)
      decreases |data| - pos
    {
      if pos >= |data| {
        return Err(MissingField("info"));
      }
      if data[pos] == CHAR_E {
        break;
      }
      var keyDecoder := new Decoder(data[pos..]);
      var key := keyDecoder.Decode();
      if key.Err? {
        return Err(Decode(key.error));
      }
      var keyEnd := pos + key.value.end;
      var valueDecoder := new Decoder(data[keyEnd..]);
      var val := valueDecoder.Decode();
      if val.Err? {
        return Err(Decode(val.error));
      }
      var valEnd := keyEnd + val.value.end;
      if key.value.value.AsBytes() == Some(KEY_INFO) {
        return Ok(sha1(data[keyEnd..valEnd]));
      }
      pos := valEnd;
    }
    r := Err(MissingField("info"));
  }

  // ------------------------------------------------------------- metainfo

  function Tiers(tiers: seq<BValue>): seq<seq<Bytes>> {
    if tiers == [] then []
    else
      match tiers[0].AsList()
      case Some(urls) => [Components(urls)] + Tiers(tiers[1..])
      case None => Tiers(tiers[1..])
  }

  function TextField(root: BValue, key: Bytes): Option<Bytes> {
    match root.Get(key)
    case Some(v) => v.AsStr()
    case None => None
  }

  /** `from_bytes`: parse a whole .torrent file; bytes after the root dictionary are ignored. */
  function FromBytes(sha1: Bytes -> Hash, data: Bytes): Result<Metainfo, MetainfoError> {
    match DecodeValue(data, 0, 0)
    case Failure(e) => Err(Decode(e))
    case Success(root, _) =>
      if !root.Dict? then Err(InvalidFieldType("root"))
      else match InfoRange(data)
      case Err(e) => Err(e)
      case Ok(range) =>
        match root.Get(KEY_INFO)
        case None => Err(MissingField("info"))
        case Some(infoValue) =>
          match ParseInfo(infoValue)
          case Err(e) => Err(e)
          case Ok(info) =>
            var announceList := match root.Get(KEY_ANNOUNCE_LIST)
              case Some(List(tiers)) => Some(Tiers(tiers))
              case _ => None;
            var creationDate := match root.Get(KEY_CREATION_DATE)
              case Some(Int(n)) => Some(n)
              case _ => None;
            Ok(Metainfo(sha1(data[range.start..range.end]), info, TextField(root, KEY_ANNOUNCE), announceList,
                        creationDate, TextField(root, KEY_COMMENT), TextField(root, KEY_CREATED_BY)))
  }

  /** `from_info_bytes`: what a magnet session builds from the raw info dictionary. */
  function FromInfoBytes(raw: Bytes, infoHash: Hash, trackers: seq<Bytes>): Result<Metainfo, MetainfoError> {
    match DecodeValue(raw, 0, 0)
    case Failure(e) => Err(Decode(e))
    case Success(v, _) =>
      match ParseInfo(v)
      case Err(e) => Err(e)
      case Ok(info) =>
        var announce := if trackers == [] then None else Some(trackers[0]);
        var announceList := if |trackers| > 1 then Some([trackers]) else None;
        Ok(Metainfo(infoHash, info, announce, announceList, None, None, None))
  }

  function StringValues(xs: seq<Bytes>): seq<BValue> {
    seq(|xs|, i requires 0 <= i < |xs| => BValue.Bytes(xs[i]))
  }

  /** The root dictionary a magnet download is stored under. */
  function WrappedEntries(info: BValue, trackers: seq<Bytes>): seq<Entry> {
    var d0 := Insert([], KEY_INFO, info);
    var d1 := if trackers == [] then d0 else Insert(d0, KEY_ANNOUNCE, BValue.Bytes(trackers[0]));
    if |trackers| > 1 then Insert(d1, KEY_ANNOUNCE_LIST, List([List(StringValues(trackers))])) else d1
  }

  function TorrentBytesFromInfo(raw: Bytes, trackers: seq<Bytes>): Result<Bytes, MetainfoError> {
    match DecodeValue(raw, 0, 0)
    case Failure(e) => Err(Decode(e))
    case Success(info, _) => Ok(Encode(Dict(WrappedEntries(info, trackers))))
  }

  method BuildTorrentBytes(raw: Bytes, trackers: seq<Bytes>) returns (r: Result<Bytes, MetainfoError>)
    ensures r == TorrentBytesFromInfo(raw, trackers)
  {
    hide DecodeValue, Encode, Insert;
    var decoder := new Decoder(raw);
    var decoded := decoder.Decode();
    if decoded.Err? {
      return Err(Decode(decoded.error));
    }
    var dict: seq<Entry> := [];
    dict := Insert(dict, KEY_INFO, decoded.value.value);
    if |trackers| > 0 {
      dict := Insert(dict, KEY_ANNOUNCE, BValue.Bytes(trackers[0]));
    }
    if |trackers| > 1 {
      dict := Insert(dict, KEY_ANNOUNCE_LIST, List([List(StringValues(trackers))]));
    }
    var buf := new ByteBuffer([]);
    EncodeTo(Dict(dict), buf);
    assert [] + Encode(Dict(dict)) == Encode(Dict(dict));
    r := Ok(buf.bytes);
  }

  // --------------------------------------------------------- tracker_urls

  /** The elements of xs in order, each kept at its first occurrence. */
  function Dedup<T(==)>(xs: seq<T>): seq<T> {
    if xs == [] then []
    else
      var last := xs[|xs| - 1];
      var front := Dedup(xs[..|xs| - 1]);
      if last in front then front else front + [last]
  }

  function Flatten<T>(xss: seq<seq<T>>): seq<T> {
    if xss == [] then [] else Flatten(xss[..|xss| - 1]) + xss[|xss| - 1]
  }

  function TrackerUrls(m: Metainfo): seq<Bytes> {
    var listed := match m.announceList case Some(tiers) => Dedup(Flatten(tiers)) case None => [];
    match m.announce
    case Some(a) => if a in listed then listed else [a] + listed
    case None => listed
  }

  lemma DedupSnoc<T>(xs: seq<T>, x: T)
    ensures Dedup(xs + [x]) == if x in Dedup(xs) then Dedup(xs) else Dedup(xs) + [x]
  {
    assert (xs + [x])[..|xs + [x]| - 1] == xs;
  }

  lemma FlattenSnoc<T>(xss: seq<seq<T>>, i: nat)
    requires i < |xss|
    ensures Flatten(xss[..i + 1]) == Flatten(xss[..i]) + xss[i]
  {
    assert xss[..i + 1][..i] == xss[..i];
  }

  lemma EmptyUrls()
    ensures Dedup<Bytes>([]) == [] && Flatten<Bytes>([]) == []
  {
  }

  /** The nested loops over tiers and urls, with the set of urls already pushed. */
  method CollectTrackerUrls(m: Metainfo) returns (urls: seq<Bytes>)
    ensures urls == TrackerUrls(m)
  {
    hide Dedup, Flatten;
    EmptyUrls();
    urls := [];
    var seen: set<Bytes> := {};
    if m.announceList.Some? {
      var tiers := m.announceList.value;
      for i := 0 to |tiers|
        invariant urls == Dedup(Flatten(tiers[..i]))
        invariant seen == set u | u in urls
      {
        ghost var before := Flatten(tiers[..i]);
        assert before + tiers[i][..0] == before;
        for j := 0 to |tiers[i]|
          invariant urls == Dedup(before + tiers[i][..j])
          invariant seen == set u | u in urls
        {
          var url := tiers[i][j];
          assert before + tiers[i][..j + 1] == before + tiers[i][..j] + [url];
          DedupSnoc(before + tiers[i][..j], url);
          if url !in seen {
            seen := seen + {url};
            urls := urls + [url];
          }
        }
        assert tiers[i][..|tiers[i]|] == tiers[i];
        FlattenSnoc(tiers, i);
      }
      assert tiers[..|tiers|] == tiers;
    }
    if m.announce.Some? && m.announce.value !in seen {
      urls := [m.announce.value] + urls;
    }
  }
}
