# A verified model of the BitTorrent engine

This project models the parts of the engine where state, arithmetic and parsing meet, and proves what they promise:

- the download core: the piece picker and its bitfields, the mapping from pieces to file spans, the disk tasks, the
  rebuild of progress from the files on disk, and the session's event handlers as a state machine over peer events;
- bencode, and the code that relies on its byte positions: the info hash, the file a magnet download is stored as, and
  the metadata messages;
- the metadata download of a magnet link;
- the peer-wire messages and their framing as a streaming parser;
- the routing table of the DHT and the iterative get-peers lookup under arbitrary replies.

Code that works in place is modelled by classes and methods with loops (`Decoder`, `ByteBuffer`, `Bitfield`,
`PieceProgress`, `PiecePicker`, `FileMapping`, `Disk`, `TorrentSession`, `MetadataBuffer`, `MetadataDownload`,
`RoutingTable`). Each of their methods is proved against a function on values, and the theorems are lemmas about those
functions and about whole runs of them. The functions are themselves held to laws that do not mention them: literal
bytes on the wire, histories of what happened, contents under their keys. SHA-1 is a parameter `sha1`, any function from bytes to hashes. Where the code
draws at random or iterates over a hash map the specification is a relation, and the proofs hold for every choice.

The files, from the bottom up:

| files | content |
|---|---|
| `Wrappers`, `ByteStrings`, `Decimal`, `Buffers`, `Counting`, `Sorting`, `Address` | bytes, numerals, byte buffers, sorting |
| `Bencode`, `BencodeDecoder`, `BencodeRoundTrip`, `BencodeLaws`, `BencodeBounds`, `BencodePrefix`, `WireFormat` | decoder and encoder, and what relates them |
| `Metainfo`, `MetainfoLaws`, `MetainfoContents`, `MagnetWrapLaws`, `MagnetDepth`, `InfoLengths` | torrent files, info hash, magnet wrap, piece lengths |
| `Extension`, `MetadataSpec`, `MetadataBuffer` | metadata messages and their download |
| `PeerMessage`, `PeerCodec` | messages and framing |
| `NodeId`, `RoutingTable`, `Lookup`, `LookupHistory` | distances, buckets, the lookup |
| `DiskSpans`, `DiskMapping` | file spans over a flat array, the disk |
| `Bitfield`, `PieceProgress`, `PickerSpec`, `PickerLaws`, `PickerRuns`, `PiecePicker` | the picker |
| `SessionSpec`, `SessionLaws`, `SessionHistory`, `PipelineLaws`, `AvailabilityLaws`, `Resume`, `ProgressLaws`, `SessionReassembly`, `TorrentSession` | the session |

What the proofs turned up about the code:

- The info hash covers the first value written under `info`, while the parsed tree keeps the last
  (`MetainfoLaws.RepeatedInfoDisagrees`); the two agree exactly when these values are equal.
- A magnet download can start and yet be stored as a file that cannot be read again: wrapping nests the info dictionary
  one level deeper than the decoder goes. The stored file is readable exactly when the dictionary is nested at most 63
  deep, and there are at most 1,000,000 trackers (`MagnetWrapLaws.WrappedFileParses`, with a dictionary of depth 64 in
  `MagnetDepth.DeepInfoIsLost`).
- What is stored hashes the canonical encoding of the info dictionary. Its info hash is that of the received bytes, for
  every hash function, exactly when these were canonical (`MagnetWrapLaws.HashSurvivesIffCanonical`); bytes after the
  dictionary are an input that loses it (`MagnetWrapLaws.TrailingBytesLoseHash`). For one given hash function the two
  hashes differ unless the two byte strings collide.
- `PeerMessage::Unknown` would not survive its own framing: it announces one byte and encodes none
  (`PeerCodec.ReadBackIff`). The engine only receives it and never sends it (src/peer/message.rs:69), so this is a
  limit of the codec and not a fault on the wire.
- One wrong first copy of a metadata piece is final: no later event repairs the buffer
  (`MetadataSpec.WrongCopyIsFinal`).
- A node that fails 256 times in a row is no longer Bad, the 8-bit counter having wrapped (`RoutingTable.BadIff`).
- A block longer than its slot overwrites the blocks after it (`PickerLaws.ConfinedIff`); only the hash check stands
  between that and the disk.
- Availability counters are wrong after a repeated announcement, and only then (`AvailabilityLaws.ExactIffFresh`).
- The comment above `bucket_index` has the order of the buckets reversed: bucket 0 holds the closest ids
  (`NodeId.BucketIsDistanceRange`). The model follows the code.

## Model

| member | source | states |
|---|---|---|
| BencodeRoundTrip.DecodeAfterEncode | src/bencode/encode.rs:11-42 | decoding an encoding followed by any bytes gives the value back and stops exactly at its end |
| BencodeRoundTrip.ValueRoundTrip | src/bencode/decode.rs:108-127 | the same at any position and depth that leaves room for the value's nesting |
| BencodeLaws.RoundTripIff | src/bencode/decode.rs:108-236 | the round trip holds exactly for values nested at most 64 deep with containers of at most 1,000,000 elements and sorted keys |
| BencodeLaws.Normalises | src/bencode/decode.rs:108-236 | whatever was accepted, re-encoding it is no longer than what was read and decodes to the same value |
| BencodeLaws.DecodedValue | src/bencode/decode.rs:108-236 | a decoded value is always within the decoder's own bounds, so it can be re-read |
| BencodeBounds.AcceptedIff | src/bencode/decode.rs:108-236 | the decoder accepts the encoding of a value with sorted keys, whatever follows, exactly when the value is within its bounds |
| BencodePrefix.PrefixFree | src/bencode/encode.rs:11-42 | no encoding is a proper prefix of another: what follows them can be told apart too |
| BencodePrefix.EncodeInjective | src/bencode/encode.rs:11-42 | different values, of any nesting and size, have different encodings |
| BencodeLaws.ValueLocal | src/bencode/decode.rs:61-236 | a successful decode depends only on the bytes it consumed: it survives a shift, other bytes around it and a smaller depth |
| BencodeDecoder.Decoder.Decode | src/bencode/decode.rs:61-69 | gives the value and end that the specification gives, and restores the depth on success and error |
| BencodeDecoder.Decoder.DecodeAny | src/bencode/decode.rs:108-127 | the depth budget, and the choice by first byte, agree with the specification |
| BencodeDecoder.Decoder.DecodeInteger | src/bencode/decode.rs:129-161 | integers of the 64-bit range: a plus sign passes, leading zeros and negative zero are errors |
| BencodeDecoder.Decoder.DecodeString | src/bencode/decode.rs:163-198 | length-prefixed strings, never past the end of the input |
| BencodeDecoder.Decoder.DecodeList | src/bencode/decode.rs:200-213 | list items up to the end marker, with the element limit |
| BencodeDecoder.Decoder.DecodeDict | src/bencode/decode.rs:215-236 | dictionary entries in any order, the last value of a repeated key kept |
| BencodeDecoder.EncodeTo | src/bencode/encode.rs:11-42 | appends exactly the canonical encoding to the buffer |
| Bencode.LookupInsert | src/bencode/value.rs:57-64 | the map laws: the last value inserted under a key is the one found |
| Bencode.InsertSorted | src/bencode/decode.rs:215-236 | insertion keeps the keys sorted and distinct |
| Decimal.NumeralShortest | src/bencode/encode.rs:11-42 | no digit string of the same value is shorter than the canonical one |
| Decimal.SignedRoundTrip | src/bencode/decode.rs:129-161 | every 64-bit integer is read back from its numeral |
| WireFormat.ValueBytes | src/bencode/encode.rs:11-42 | the encoding of each kind of value, mark by mark |
| WireFormat.DigitsAre | src/bencode/encode.rs:11-42 | numerals are decimal, most significant digit first |
| WireFormat.ContainerBytes | src/bencode/encode.rs:11-42 | items follow one another, and entries are their keys and values |
| WireFormat.IntTextIff | src/bencode/decode.rs:129-161 | an integer's text is accepted exactly if it is the numeral itself, or digits after a plus sign: leading zeros and negative zero are refused |
| WireFormat.AnyLengthDigits | src/bencode/decode.rs:163-198 | a string's length may be written with any digits of that value |
| WireFormat.DictInAnyOrder | src/bencode/decode.rs:215-236 | a dictionary may list keys in any order and repeatedly; what is left is what was written last |
| WireFormat.InfoKeys | src/torrent/metainfo.rs:298-400 | the keys of an info dictionary, spelled out |
| WireFormat.FileKeys | src/torrent/metainfo.rs:67-127 | the keys of a torrent file, spelled out |
| MetainfoContents.PieceHashesAre | src/torrent/metainfo.rs:315-332 | the piece hashes have 20 bytes each and are, in order, the bytes under "pieces" |
| MetainfoContents.AcceptedInfoIff | src/torrent/metainfo.rs:298-408 | an info dictionary is accepted exactly when its fields are there and in range and the pieces just cover the total |
| MetainfoContents.ScalarsAre | src/torrent/metainfo.rs:303-342 | piece length and name are the values under their keys |
| MetainfoContents.FilesAre | src/torrent/metainfo.rs:343-390 | one entry for each element under "files", with its length and path, or else the length under "length" |
| MetainfoContents.EntryIff | src/torrent/metainfo.rs:349-377 | a file is accepted exactly with a length that is not negative and a path no component of which is empty, "..", or holds a separator |
| MetainfoContents.TextsAre | src/torrent/metainfo.rs:364-374 | a path of texts is those texts in order |
| MetainfoContents.OthersAreSkipped | src/torrent/metainfo.rs:364-374 | elements that are not text are as if they were not there |
| MetainfoContents.SafeNameIff | src/torrent/metainfo.rs:334-341 | a name is accepted exactly if it is not empty and holds no separator and no ".." |
| MetainfoContents.MetainfoIs | src/torrent/metainfo.rs:67-127 | every field of a parsed torrent file is what stands under its key, and its info hash that of the hashed bytes |
| MetainfoContents.TiersAre | src/torrent/metainfo.rs:90-103 | tiers that are lists are the texts in them, tier for tier |
| MetainfoContents.TrackerUrlsAre | src/torrent/metainfo.rs:139-160 | the listed URLs each once and in order, with the announce URL in front unless it is listed |
| Metainfo.ComputeInfoHash | src/torrent/metainfo.rs:252-296 | the loop over raw keys and values hashes the range the walk specifies |
| MetainfoLaws.InfoHashCoversTreeValue | src/torrent/metainfo.rs:252-296 | on every dictionary the decoder accepts the walk fails only if the tree has no "info"; the hashed range decodes to the tree's value exactly when the first and last value under "info" are equal, as with a single key |
| MetainfoLaws.WalkFindsFirst | src/torrent/metainfo.rs:262-296 | the walk finds the first value written under "info" |
| MetainfoLaws.TreeKeepsLast | src/bencode/decode.rs:215-236 | the tree holds the last value written under a key |
| MetainfoLaws.HashedIsEncoding | src/torrent/metainfo.rs:252-296 | in a canonical file the hashed bytes are the encoding of the "info" value |
| MetainfoLaws.RepeatedInfoDisagrees | src/torrent/metainfo.rs:252-296 | with a repeated "info" key the hash covers the first value and the tree holds the second |
| Metainfo.ReadFiles | src/torrent/metainfo.rs:348-378 | the file loop gives the entries in order, or the first error: a missing field, a negative length or an unsafe path component |
| Metainfo.BuildTorrentBytes | src/torrent/metainfo.rs:173-198 | builds the encoding of the dictionary with info, announce and announce-list |
| Metainfo.CollectTrackerUrls | src/torrent/metainfo.rs:139-160 | the loop over tiers gives the de-duplicated list, with announce in front unless it is listed |
| MagnetWrapLaws.MagnetRoundTrip | src/torrent/metainfo.rs:67-198 | a canonical info dictionary wrapped with trackers parses back to the same info hash, the same Info and the trackers de-duplicated in order |
| MagnetWrapLaws.WrappedFileParses | src/torrent/metainfo.rs:173-198 | for any info dictionary that starts a session, the stored file parses if and only if the dictionary is nested at most 63 deep and there are at most 1,000,000 trackers; it then gives the same session, with the hash of the canonical encoding |
| MagnetDepth.DeepInfoIsLost | src/torrent/metainfo.rs:173-198 | an info dictionary of depth 64 starts a session, and the file stored for it does not parse |
| MagnetDepth.DeepFits | src/bencode/decode.rs:108-127 | that dictionary is in bounds at a depth exactly when its innermost value is at one less |
| MagnetWrapLaws.HashSurvivesIffCanonical | src/torrent/metainfo.rs:168-198 | the info hash parsed from the stored file is that of the received bytes, for every hash function, exactly when these were canonical; for one hash function, as long as the two byte strings do not collide |
| MagnetWrapLaws.TrailingBytesLoseHash | src/torrent/metainfo.rs:173-220 | with bytes after the dictionary the session has the hash of all the bytes, the stored file that of the dictionary alone |
| MagnetWrapLaws.DedupOrder | src/torrent/metainfo.rs:139-160 | de-duplication keeps each URL once, in the order of first appearance |
| MagnetWrapLaws.TrackersSurvive | src/torrent/metainfo.rs:139-160 | the trackers of a wrapped magnet link come back as that list |
| InfoLengths.ParsedInfoLengths | src/torrent/metainfo.rs:235-248 | for every accepted info dictionary the three last-piece computations agree on every index and the piece lengths sum to the total |
| InfoLengths.ParsedMapping | src/torrent/metainfo.rs:400-406 | an accepted info dictionary gives file lengths that the mapping's 64-bit arithmetic can hold where it matters |
| InfoLengths.PieceBounds | src/piece/picker.rs:363-374 | pieces follow each other without gap inside the torrent, each of the computed length |
| InfoLengths.PiecesSum | src/engine/resume.rs:27-38 | the lengths of the first k pieces sum to where piece k starts, and all of them to the total |
| InfoLengths.ReportedIsTotalIff | src/engine/session.rs:440-447 | the reported progress reaches the total exactly when all pieces are done |
| Extension.MetadataRoundTrip | src/peer/extension.rs:142-210 | every metadata message is read back whatever follows it, for every 64-bit total size |
| WireFormat.MetadataBytes | src/peer/extension.rs:142-172 | the text of every metadata message: its kind as a number, its piece and, for data, the total size, and then the data |
| Extension.EncodeMessage | src/peer/extension.rs:142-172 | the header dictionary, then the data, are what is sent |
| MetadataBuffer.MetadataBuffer.OnData | src/engine/magnet_buffer.rs:31-49 | stores the first acceptable copy of a piece in its place, counts it, frees it, and reports completion |
| MetadataBuffer.MetadataBuffer.OnReject | src/engine/magnet_buffer.rs:51-56 | frees the piece for another peer |
| MetadataBuffer.MetadataBuffer.OnPeerLost | src/engine/magnet_buffer.rs:58-64 | frees every piece asked of the lost peer and no other |
| MetadataBuffer.MetadataBuffer.NextRequest | src/engine/magnet_buffer.rs:66-74 | hands out the first piece neither received nor asked for |
| MetadataBuffer.MetadataBuffer.Verify | src/engine/magnet_buffer.rs:80-89 | releases the buffer only if its hash matches |
| MetadataBuffer.RequestMetadataPieces | src/engine/magnet.rs:203-228 | the request loop terminates and asks the peer for the free pieces until a send fails |
| MetadataBuffer.MetadataDownload.HandleEvent | src/engine/magnet.rs:120-166 | the metadata events of the download loop are runs of the specification's steps |
| MetadataBuffer.EventOutcome | src/engine/magnet.rs:120-166 | what each metadata event comes to: copies kept, pieces freed, and all free pieces asked for when there is room |
| MetadataSpec.RunKeepsInv | src/engine/magnet_buffer.rs:18-78 | over every run no received piece is asked for and a first copy is never replaced |
| MetadataSpec.AssignmentEndsIff | src/engine/magnet_buffer.rs:31-74 | an assignment ends exactly at data, a reject or the loss of its peer |
| MetadataSpec.LoopEffect | src/engine/magnet.rs:203-228 | the request loop takes over no piece and, with room for all, leaves none free |
| MetadataSpec.WriteInPlace | src/engine/magnet_buffer.rs:31-49 | copying an accepted piece puts it in place and moves no other |
| MetadataSpec.CompletionDelivers | src/engine/magnet_buffer.rs:18-78 | over every run, whatever is sent, refused or repeated, the complete buffer is the metadata exactly when the first copy accepted of each piece, cut or zero-filled to size, was right |
| MetadataSpec.WrongCopyIsFinal | src/engine/magnet_buffer.rs:31-49 | after one wrong first copy no later event makes the buffer the metadata |
| MetadataSpec.KeepsFirst | src/engine/magnet_buffer.rs:31-49 | what is kept of a piece is the first copy that was not refused for its size |
| PeerMessage.WireLenExact | src/peer/message.rs:190-206 | the announced length is the encoded size, for every message but Unknown |
| PeerMessage.BodyRoundTrip | src/peer/message.rs:67-187 | every message but Unknown decodes back to itself |
| WireFormat.MessageBytes | src/peer/message.rs:67-118 | the body of every message, with its id as a number and its fields in order |
| WireFormat.BodyById | src/peer/message.rs:121-187 | which message each id is read as, and which lengths are errors |
| WireFormat.BigEndianIs | src/peer/message.rs:67-118 | integers go most significant byte first |
| WireFormat.FrameBytes | src/peer/codec.rs:54-68 | a frame is the body's length in four bytes and the body, up to 1 MiB |
| PeerMessage.EncodeMessage | src/peer/message.rs:67-118 | appends exactly the message's bytes |
| PeerMessage.DecodeMessage | src/peer/message.rs:121-187 | reads a frame's payload as the specification does, errors included |
| PeerCodec.Decode | src/peer/codec.rs:20-48 | takes one frame from the buffer, or leaves it waiting, or fails, as the specification does |
| PeerCodec.Encode | src/peer/codec.rs:54-68 | appends one frame, or fails and appends nothing when it is too long |
| PeerCodec.ChunkingIrrelevant | src/peer/codec.rs:20-48 | however a stream is split, the same messages come out up to the same first error, and the same bytes wait |
| PeerCodec.SentIsReceived | src/peer/codec.rs:20-68 | a list of sendable messages, received in any chunks, arrives as the same list |
| PeerCodec.FrameIff | src/peer/codec.rs:20-48 | a message comes out exactly when a whole frame stands in front, and 4 + length bytes are consumed |
| PeerCodec.FrameStable | src/peer/codec.rs:20-48 | bytes that arrive later do not change a frame that has come out |
| PeerCodec.DrainThenFeed | src/peer/codec.rs:20-48 | draining early changes nothing that is delivered later |
| PeerCodec.ReadBackIff | src/peer/codec.rs:20-68 | a frame that can be encoded is read back, whatever follows it, exactly unless the message is Unknown |
| PeerCodec.UnknownStealsNextByte | src/peer/message.rs:190-206 | a frame of Unknown, which the engine never sends, would take the next byte sent after it |
| PeerCodec.ReadChunk | src/peer/codec.rs:20-48 | repeated decoding of a received chunk is the specification's feed |
| NodeId.DistanceTo | src/dht/routing_table.rs:16-22 | the loop computes the XOR distance |
| NodeId.DistanceLeadingZeros | src/dht/routing_table.rs:25-37 | the loop counts the leading zero bits of the distance |
| NodeId.LeadingZerosLocate | src/dht/routing_table.rs:25-37 | leading zeros locate a distance between two powers of two |
| NodeId.BucketIsDistanceRange | src/dht/routing_table.rs:101-109 | bucket b is for exactly the distances in [2^b, 2^(b+1)) |
| NodeId.ArrayOrderIsValueOrder | src/dht/routing_table.rs:198-212 | comparing distance arrays is comparing numbers |
| NodeId.DistanceIsPrefix | src/dht/routing_table.rs:16-22 | two ids are at a distance below 2^(160-k) exactly when their first k bits agree |
| NodeId.DistInjective | src/dht/routing_table.rs:16-22 | no two ids are equally far from a target |
| RoutingTable.RoutingTable.Insert | src/dht/routing_table.rs:112-172 | updates, inserts, replaces a Bad node, or reports a full bucket, as specified |
| RoutingTable.RoutingTable.NoteGood | src/dht/routing_table.rs:175-182 | resets the failures of the one node named |
| RoutingTable.RoutingTable.NoteFailed | src/dht/routing_table.rs:185-195 | counts a failure of the one node named in eight bits; it is Bad while that count is at least three |
| RoutingTable.BadIff | src/dht/routing_table.rs:112-195 | in every reachable table a node is Good exactly when it has not failed since it last answered or was inserted, and Bad exactly when its failures since, modulo 256, are at least three |
| RoutingTable.RoutingTable.Closest | src/dht/routing_table.rs:198-212 | the collected, sorted and truncated list is the specified one |
| RoutingTable.InsertEffect | src/dht/routing_table.rs:112-172 | an insert changes no other node, except that a Bad one of a full bucket may make room |
| RoutingTable.UpdateEffect | src/dht/routing_table.rs:175-195 | a mark changes the named node and nothing else |
| RoutingTable.ReachableTable | src/dht/routing_table.rs:101-195 | every reachable table has at most 8 nodes a bucket, each in its distance range, each id once and never our own |
| RoutingTable.ClosestAreNearest | src/dht/routing_table.rs:198-212 | the result is the nearest non-Bad nodes of the whole table, in strictly increasing distance |
| Lookup.IterativeGetPeers | src/dht/lookup.rs:16-141 | the loops play exactly the specified rounds on any network and return their tokens; what these rounds learn is LookupHistory.LookupLearns |
| Lookup.ReceiveReply | src/dht/lookup.rs:73-116 | one reply, failure or lost task changes candidates, tokens and table as the specification does, which LookupHistory holds to what was told |
| Lookup.LookupCorrect | src/dht/lookup.rs:36-141 | no id is queried twice, at most 60 are, and stopping before the cap means no unqueried candidate is closer than the closest responder |
| Lookup.EveryRoundAsksClosest | src/dht/lookup.rs:36-50 | every round queries the closest candidates not queried before |
| LookupHistory.LookupLearns | src/dht/lookup.rs:36-141 | on any network the candidates are exactly the ids heard of, from the table or a reply, each at the address first given and in the state its query left it; the tokens are one for each reply, in order; the routing table took each reply and each silence; and stopping before the cap means somebody answered at least as close as any id heard of and not asked |
| LookupHistory.RoundFinds | src/dht/lookup.rs:55-116 | a round adds the ids its replies name, and nothing else |
| Lookup.RoundKeeps | src/dht/lookup.rs:55-116 | candidate ids stay distinct and the books consistent, whatever the replies |
| Lookup.RunSplits | src/dht/lookup.rs:36-141 | a run that is not over after some rounds goes on from the state it had then |
| DiskMapping.FileMapping.constructor | src/disk/mapping.rs:28-61 | every file's offset is the 64-bit sum of the lengths before it |
| DiskMapping.FileMapping.PieceSpans | src/disk/mapping.rs:64-105 | the span loop gives exactly the non-empty intersections of the piece with the files, in order |
| DiskSpans.CoverInside | src/disk/mapping.rs:82-105 | spans are non-empty, inside their files and in file order |
| DiskSpans.CoverTotal | src/disk/mapping.rs:82-105 | the spans of a range add up to its length |
| DiskSpans.RangesDisjoint | src/disk/mapping.rs:64-105 | spans of disjoint ranges never overlap |
| DiskSpans.ReadIsFlat | src/disk/io.rs:223-236 | reading spans is reading a range of the flat array of all files |
| DiskSpans.WriteIsFlat | src/disk/io.rs:197-221 | writing spans is writing a range of that array and nothing else |
| DiskMapping.Disk.WriteSpansTo | src/disk/io.rs:197-221 | the write loop puts each part of the data where its span says |
| DiskMapping.Disk.ReadSpansFrom | src/disk/io.rs:223-236 | the read loop fills the buffer with the spans in order |
| DiskMapping.Disk.WritePiece | src/disk/io.rs:141-172 | a piece write changes the flat array at the piece and nowhere else |
| DiskMapping.Disk.ReadPiece | src/disk/io.rs:173-184 | a piece read gives the piece's bytes of the flat array |
| DiskMapping.ReadAfterWrite | src/disk/io.rs:197-236 | a written piece reads back as written, every other piece as before |
| DiskMapping.WritesCommute | src/disk/io.rs:197-221 | writes of different pieces commute on the flat array |
| DiskMapping.FileWritesCommute | src/disk/io.rs:197-221 | and so on the files themselves |
| DiskSpans.FlatInjective | src/disk/mapping.rs:28-61 | files of known lengths are determined by their flat array |
| DiskMapping.PieceSpansTotal | src/disk/mapping.rs:64-105 | the spans of a piece lie inside their files and add up to its length |
| DiskMapping.PieceSpansDisjoint | src/disk/mapping.rs:64-105 | spans of different pieces share no byte |
| Bitfield.Bitfield.Set | src/piece/bitfield.rs:31-36 | adds the index to the set the bits stand for, and keeps the count its size |
| Bitfield.Bitfield.FromBytes | src/piece/bitfield.rs:20-29 | the count is the number of pieces the received bits stand for, padding bits ignored |
| Bitfield.Bitfield.CountSetBits | src/piece/bitfield.rs:62-71 | counts the size of that set |
| Bitfield.BitIsFromTheTop | src/piece/bitfield.rs:31-43 | bit i counts from the most significant bit of byte i / 8 |
| Bitfield.SetAddsIndex | src/piece/bitfield.rs:31-36 | setting one bit of a byte adds exactly its index |
| PieceProgress.PieceProgress.AssignNextBlock | src/piece/picker.rs:73-84 | the cursor scan always finds the least free block a full scan would find |
| PieceProgress.PieceProgress.MarkReceived | src/piece/picker.rs:86-97 | marks a new block and keeps the count of received flags |
| PieceProgress.PieceProgress.MarkUnassigned | src/piece/picker.rs:100-107 | frees a block that was not received, moving the cursor back |
| PieceProgress.PieceProgress.UnreceivedBlocks | src/piece/picker.rs:110-119 | lists exactly the blocks not received, with their lengths, in order |
| PickerLaws.BlocksTile | src/piece/picker.rs:53-65 | block lengths tile the piece |
| PickerLaws.Reassembly | src/piece/picker.rs:283-312 | well-formed blocks in any order and with any duplicates: complete exactly when all have arrived, the data being the first copies in offset order |
| PickerLaws.BlockCompletes | src/piece/picker.rs:283-312 | for a piece that holds past arrivals, as PickerRuns.RunFaithful shows every one does: the next block is a duplicate, progress or the completion exactly by whether it was seen and was the last one |
| PickerRuns.RunFaithful | src/piece/picker.rs:204-335 | over every run of picks, releases, failures, verifications and whole blocks of any pieces, each piece in progress has the contents that the blocks sent since it was last started put into a new piece |
| PickerRuns.HoldsFirstCopies | src/piece/picker.rs:283-312 | so each block of it that was received holds the copy that came first since then |
| PickerRuns.CompletesAtLastBlock | src/piece/picker.rs:283-312 | in every run the next block is a duplicate exactly when it came before since then, and completes the piece exactly when it is the last distinct one, with the first copies in offset order |
| SessionReassembly.SessionIsPickerRun | src/engine/session.rs:301-588 | every session run whose peers send whole blocks is, to its picker, a legal run of picker calls into which the same blocks come |
| SessionReassembly.SessionReassembles | src/engine/session.rs:381-467 | so completion at the last distinct block, with the first copies in offset order, holds in every such session |
| PickerLaws.ConfinedIff | src/piece/picker.rs:283-312 | a block is kept out of the blocks after it exactly when it ends in its own slot or is not copied at all |
| PickerLaws.PickSound | src/piece/picker.rs:204-249 | a pick is an available block, the least of its piece, with exact offset and length; a piece newly started has minimal availability |
| PickerLaws.PickOrderIff | src/piece/picker.rs:204-279 | a piece may be picked exactly if it offers the peer a block and comes first: in progress before new, the least contended, then the rarest |
| PipelineLaws.PickTakesOne | src/piece/picker.rs:204-249 | a pick takes its own block from what is available, adds one peer to its piece, and changes nothing else |
| PickerLaws.PickComplete | src/piece/picker.rs:204-249 | nothing is picked exactly when no block is available |
| PickerLaws.PickKeepsInv | src/piece/picker.rs:204-249 | a pick keeps the invariant, what is had, and availability |
| PickerLaws.BlockKeepsInv | src/piece/picker.rs:283-312 | so does a block, and a completed piece is one we lack, at its full length |
| PickerLaws.VerifiedKeepsInv | src/piece/picker.rs:315-323 | marking a missing piece verified adds it and keeps the counts right |
| PickerLaws.UnassignKeepsInv | src/piece/picker.rs:331-335 | giving a block back keeps the invariant |
| PickerLaws.InProgressIsMissing | src/piece/picker.rs:338-349 | pieces in progress are missing ones, so there are never more of them |
| PickerLaws.EndgameEntry | src/piece/picker.rs:338-349 | endgame starts exactly when every missing piece is in progress, and never ends |
| PickerLaws.EndgameAsks | src/piece/picker.rs:185-200 | any peer is sent exactly the missing blocks of the pieces in progress that it has |
| PickerLaws.EndgameIsEverything | src/piece/picker.rs:185-200 | the requests sent to a full peer are all missing blocks exactly while every missing piece is in progress |
| PiecePicker.PiecePicker.PeerHasBitfield | src/piece/picker.rs:155-161 | counts the peer's pieces up, saturating |
| PiecePicker.PiecePicker.PeerDisconnected | src/piece/picker.rs:170-176 | counts the peer's pieces down, saturating |
| PiecePicker.PiecePicker.PickPiece | src/piece/picker.rs:252-279 | one pass with dice finds a rarest piece to start, or that there is none, also at count 65535 |
| PiecePicker.PiecePicker.ContinuePiece | src/piece/picker.rs:204-230 | a least contended piece with a free block is continued, or none has one |
| PiecePicker.PiecePicker.PickBlock | src/piece/picker.rs:204-249 | makes a legal pick, returns its request, and changes the state as that pick does |
| PiecePicker.PiecePicker.BlockReceived | src/piece/picker.rs:283-312 | the result and the new state are the specified ones, in place |
| PiecePicker.PiecePicker.MarkVerified | src/piece/picker.rs:315-323 | removes the piece, sets its bit, leaves the first mode, and checks for endgame |
| PiecePicker.PiecePicker.PieceFailed | src/piece/picker.rs:326-328 | drops the piece's progress and nothing else |
| PiecePicker.PiecePicker.UnassignBlock | src/piece/picker.rs:331-335 | frees one block in place |
| PiecePicker.PiecePicker.CheckMode | src/piece/picker.rs:338-349 | switches to endgame when as many pieces are in progress as remain |
| PiecePicker.PiecePicker.EndgameRequests | src/piece/picker.rs:185-200 | exactly the unreceived blocks of the in-progress pieces the peer has |
| PiecePicker.PiecePicker.CompleteIffNoneMissing | src/piece/picker.rs:351-353 | complete means that no piece is missing |
| SessionLaws.HaveGrowsByChecked | src/engine/session.rs:381-467 | in one step a piece is added exactly when a block completes it and its bytes match its hash; it was not had, its write is issued, nothing is removed, and no pipeline picks a piece had by then |
| SessionLaws.RunKeepsSafe | src/engine/session.rs:301-588 | over every run: the picker invariant, the books of checked, queued, stored and failed writes, the disk in agreement with them, and no peer's outstanding counter above 256 (endgame requests are not counted) |
| SessionLaws.HadIsForever | src/engine/session.rs:301-588 | what is had stays had, and what was checked stays as it was checked |
| SessionLaws.SettledIsForever | src/engine/session.rs:430-461 | a piece that reached the disk is never written again |
| SessionLaws.HadIsOnDisk | src/engine/session.rs:430-461 | in every reachable state each piece had matches its hash on disk, unless its write is still to come or failed |
| SessionLaws.CompleteIsOnDisk | src/engine/session.rs:598-617 | at completion, the issued writes done and none failed, every piece on disk matches its hash |
| SessionLaws.PicksKeep | src/engine/session.rs:661-707 | filling a pipeline picks only pieces we lack and the peer has, and raises its outstanding counter by no more than the room it had |
| SessionHistory.PeersAreHistory | src/engine/session.rs:318-532 | in every reachable state a peer is known exactly if it was dialed and not lost since, may be asked exactly if its last word since was to unchoke us, and its counter is what is still out to it |
| SessionHistory.EventPeers | src/engine/session.rs:318-532 | what each event does to the known peers, their choking and their counters |
| SessionHistory.FieldsAreHistory | src/engine/session.rs:318-532 | in every reachable state a bitfield is kept for exactly the peers heard of and not lost since, and it holds exactly the pieces the peer announced since, by a set bit, all at once or one by one |
| SessionHistory.EventPending | src/engine/session.rs:381-386 | a request leaves its peer's list exactly when its block comes, or when the peer chokes, connects anew or goes |
| SessionHistory.PicksPending | src/engine/session.rs:683-706 | filling a pipeline appends one request for each that was sent, each a whole block of a piece the peer has and we lack |
| SessionHistory.PendingIsReleased | src/engine/session.rs:731-741 | when a peer chokes us or goes, exactly the blocks in its list that have not come are free again |
| PipelineLaws.SpeakerIsServed | src/engine/session.rs:345-371 | after a peer's own event whose requests all went out, an unchoke in particular, its pipeline is full or it has nothing we could ask it for |
| PipelineLaws.NoWorkLeft | src/engine/session.rs:372-379 | after a choke or disconnect whose requests could all be sent, no unchoked peer with fewer than 64 requests has a block left to ask for |
| PipelineLaws.FillServes | src/engine/session.rs:661-707 | a fill whose requests were all sent leaves the pipeline full or nothing to ask the peer for |
| ProgressLaws.NeverStuck | src/engine/session.rs:301-588 | in every reachable state with a piece missing, whatever sends failed or peers were lost, a peer with every piece has a block free to pick or an endgame request |
| ProgressLaws.RunRoomy | src/piece/picker.rs:338-349 | over every run, outside endgame some missing piece is not in progress yet |
| AvailabilityLaws.RunCovers | src/engine/session.rs:322-366 | with at most 65535 peers no availability count is below the number of peers that hold the piece, despite repeats and replaced bitfields |
| AvailabilityLaws.StepCounts | src/engine/session.rs:322-366 | what each event does to every peer's bitfield and every availability count |
| AvailabilityLaws.RunIsExact | src/piece/picker.rs:155-176 | starting from zero counts, if nobody announces a piece twice, every count is that number |
| AvailabilityLaws.ExactIffFresh | src/engine/session.rs:322-366 | one step keeps exact counts exact if and only if it announces nothing twice |
| Resume.AdoptsExactly | src/engine/resume.rs:45-75 | exactly the readable pieces whose bytes match are adopted, into a sound picker with matching count |
| Resume.VerifyOnDisk | src/engine/resume.rs:45-75 | given which pieces can be read, marks exactly those of them whose bytes match, and returns how many |
| Resume.RestartKeeps | src/engine/resume.rs:45-75 | after any run a restart adopts again every readable piece had, unless its write was still to come or failed |
| Resume.RestartIsLossless | src/engine/resume.rs:45-75 | when all writes succeeded, the next session starts with all that this one had |
| Resume.AdoptedStarts | src/engine/session.rs:183-205 | what is adopted is a sound start for a session, so sessions can be chained |
| TorrentSession.MaxPipeline | src/engine/session.rs:30-37 | 64 without lightspeed or for slow peers, 256 for fast ones, and eight times the throughput, rounded down, in between |
| TorrentSession.StartSession | src/engine/session.rs:147-205 | a started session has exactly the readable pieces that match, if there was existing data, and is a sound start over the files as they are |
| TorrentSession.TorrentSession.FillPipeline | src/engine/session.rs:661-707 | makes a legal series of picks for one peer, to the depth of its given throughput, and sends them exactly as they fit its channel |
| TorrentSession.TorrentSession.RefillAllPeers | src/engine/session.rs:710-728 | fills every connected peer's pipeline once, in any order |
| TorrentSession.TorrentSession.ReleasePeerBlocks | src/engine/session.rs:731-741 | gives a peer's pending blocks back to the picker and empties its list |
| TorrentSession.TorrentSession.CheckPiece | src/engine/session.rs:432-467 | marks a piece verified and issues its write if its hash matches, and gives it up otherwise |
| TorrentSession.TorrentSession.TakeBlock | src/engine/session.rs:381-467 | a block goes through the picker, and a completed piece is checked |
| TorrentSession.TorrentSession.FinishWrite | src/engine/session.rs:449-456 | a settled write changes its piece on disk and no other; a failed one may leave anything there |
| TorrentSession.TorrentSession.Apply | src/engine/session.rs:321-532 | every peer event changes picker, peers, bitfields, pending lists and writes as the state machine says, which SessionHistory, AvailabilityLaws and SessionLaws hold to what happened |
| TorrentSession.TorrentSession.Handle | src/engine/session.rs:318-532 | one turn of the loop on a peer event is a legal step |
| TorrentSession.TorrentSession.SendRequests | src/engine/session.rs:683-706 | requests are picked and sent until enough are out, nothing is left to pick, or one does not fit its peer's channel |
| TorrentSession.TorrentSession.Turn | src/engine/session.rs:301-588 | an event is acted on exactly when it can happen: a peer's while a piece is missing, a connection attempt only to an unknown peer, a settled write only of an issued one; its requests go out exactly as they fit |
| TorrentSession.TorrentSession.Run | src/engine/session.rs:301-617 | the acts are the given events in order, under the given throughputs and channel room, less those that cannot happen in the state they meet; they are a legal run, so all that is proved of runs holds of the objects; once complete and flushed without failure, every piece on disk matches its hash |

## Left out

- Sockets, tasks, channels and timers: connection attempts, peer events, throughputs, channel room and write outcomes are inputs, one moment at a time.
- Messages that change no state of the session: cancels, have broadcasts, interested, and the sending of endgame requests. What endgame requests are is proved of the picker.
- How many blocks a peer is asked for in all: in endgame every missing block is requested of every unchoked peer without being counted, and a choke resets the counter.
- PickerRuns.RunFaithful: requires blocks that come for a piece in progress to be whole; `block_received` marks others received all the same, and what they overwrite is stated in `PickerLaws.ConfinedIff`.
- MagnetWrapLaws.WrappedFileParses: requires the encoded file to fit the 64-bit address space.
- Which peer holds which assigned block: a failed send leaves its block assigned to nobody (src/engine/session.rs:690-700), and pending lists outlive failed pieces, so no equality between the two is claimed.
- `iterative_find_node`: the same loop as `iterative_get_peers` without candidate states, with a simpler stop.
- `set_have`: never called, and it bypasses the verified count.
- KRPC, tokens, the handshake, extended handshake, peer exchange, choker, statistics, progress bars and trackers.
- SHA-1 itself: a function parameter. Collisions are therefore not excluded; a piece is right when its hash is.
- Real files, paths and fsync: a file is a byte sequence at its full, pre-allocated length, known by its index, so two entries with the same path are not modelled as one file.
- Whether a read fails, and whether there is existing data: inputs of `VerifyOnDisk` and `StartSession`.
- Uniformity of random choices: only that every choice the code can make is covered.
- Order of equally contended pieces: the code follows a hash map's order, the specification allows any.
- TorrentSession.TorrentSession.Apply: requires that a bitfield message has a byte for every eight pieces, as `Bitfield::from_bytes` needs; a shorter one makes the original panic.
- TorrentSession.MaxPipeline: over real numbers; a NaN throughput counts as slow in the original and does not occur here.
- Vectors and maps owned by one structure are fields of type `seq` and `map`, so their update in place is a reassignment; in-progress pieces and peer bitfields are objects, and no two share one.
- More than 2^32 - 1 pieces: 32-bit indices would wrap in the original, and such a torrent file is larger than 80 GiB.
- Lookup.IterativeGetPeers: the replies come from a function of round and id, arbitrary but fixed in advance; the peers found on the way are sent to a channel that is not part of this model.
- Routing-table timestamps, and saving the table to a file; the failure counter wraps at 256 as in a release build.
- Sums of file lengths wrap at 2^64 as in a release build.
