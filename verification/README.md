# BQTI: a verified model of its hard cores

BQTI is a BitTorrent client over QUIC with a Kademlia DHT. This project models the parts of it whose correctness is not
visible in one function and proves what they keep over every input, every run and every interleaving:

- **DHT.** Keys and hashed distances (`Xor`, `Keys`), buckets (`KBucket`), the routing table under every interleaving of
  its operations (`RouteTable`), ping-or-replace (`Acknowledge`), the k closest nodes (`Closest`), the iterative node
  lookup against an arbitrary network and the table it leaves (`Lookup`, `LookupTable`), the bounded store (`DhtStore`), the rate limiter (`RateLimiter`), proof of
  work in both its Rust and its C version (`ProofOfWork`).
- **Content.** Files as one flat byte string that is read and written by pieces (`Storage`), the streaming hasher
  (`PieceHash`), building, validating and seeding a version 1 torrent (`Metainfo`), the Merkle root (`Merkle`).
- **Sessions.** The packed bitfield (`BitField`), the request pipeline of a peer (`Pipeline`,
  `PipelineRuns`, `PipelineStall`), the two-party handshake (`Handshake`, `HandshakeInTurn`, `HandshakeApart`), session
  transitions, their cancellation tokens and their workers (`Transition`, `TransitionCalls`, `TransitionWorkers`).
- **Network.** Message framing (`Framing`) and the connection table (`ConnectionManager`, `ConnectionDials`).

Code that updates state in place is a class or a method with loops, proved equal to a function on values; what the
system promises is then proved about those functions, mostly as invariants over sequences of steps. Concurrent code is
a state machine whose steps are the lock sections (for a pipeline, handler calls), and "every run" means every sequence of steps.
SHA, signatures, the clock, the network, ping outcomes, the sizes of short reads and the order of concurrent writes are
parameters, so every theorem holds for all of them.

Where the code does not do what its comments or its design suggest, the model follows the code, a lemma shows a case,
and a theorem says exactly when the promise holds:

- Table entries are unique as keys, not as 32-byte ids: `IdsUniqueIff` (case: `OneIdTwice`).
- The arm of Resume marked unreachable can be reached when calls overlap: `ResumeAbortsIff` (case: `ResumeCanAbort`);
  overlapping pauses can forget where to resume from: `ForgetsIff` (case: `DoublePauseForgets`).
- A side whose opening overlaps its message handlers can be left waiting, or with its own placeholder id for the peer's,
  or merely send a Handshake too many; so can a side two of whose handlers overlap. Which of these happens is told by
  the lock sections that overlap: `HandshakeInTurn.HandshakeOutcome` (cases: `EveryCaseOccurs`) for openings,
  `HandshakeApart.OverlapOutcome` (cases: `EveryOverlapOccurs`) for handlers, `LastWriteDecides` for both at once.
- A frame over 1 MiB can be encoded but not read back: `FrameRoundTrip`.
- A built torrent of size zero does not validate: `BuiltTorrentValidates`.
- A prune is felt by a `get` in the very second of an expiry: `PruneUnseen`; and later through an insertion that would
  have merged with the pruned entry: `PruneShowsIff` (case: `PruneShowsThroughMerge`).
- A piece that arrives from another peer keeps its slot in this peer's pipeline, and so does one whose request failed;
  128 of them stop the peer until the next choke: `StallsIff` (cases: `StallIsReachable`, `FailuresStall`).
- A session can come to rest in a running state with nobody at work: `LiveWorkerIff` (cases: `FailedSeedLeavesNobody`,
  `StolenLeavesNobody`).
- A full bucket causes a second ping although the new node is already in: `AcknowledgeOutcome` says when.
- Two peers that dial each other agree on one connection only if they append the two in opposite orders; otherwise
  they close both: `BothSidesAgreeIff`.
- A bucket split would keep only `depth + 1` nodes in each half, its constructor being given size and depth in the wrong
  order: `SplitLosesIff`; it never happens (`SplitIsUnreachable`).
- A connection that closes before it is appended stays in the table: `DeadInTableIff` (case: `DeadConnectionStays`).
- A Merkle root does not bind the length of its layer: `SameRootIff` (cases: `ZeroPaddingKeepsRoot`,
  `LayerAboveKeepsRoot`); among layers of one length it binds the layer (`RootBindsLayer`).
- The proof-of-work search does not end for every challenge: `SearchEndsIff`.
- The rate limiter lets at most 199 requests through in a 60-second span, and 199 are possible: `AtMost199PerSpan`,
  `BoundIsReached`.

## Model

| member | source | states |
|---|---|---|
| `Bytes.LexIsNumeric` | src/bit_torrent/dht/key_id.rs:80-84 | The order on ids is the order of the big-endian numbers they spell; equal numbers mean equal ids |
| `Xor.XorWords` | src/bit_torrent/dht/key_id.rs:66-68 | Exclusive or of two bytes as machine words has a bit set exactly where the two differ |
| `Keys.KeyDistance` | src/bit_torrent/dht/key_id.rs:62-72 | The loop over the bytes of two ids gives the string the model hashes, and its hash is the distance |
| `Keys.XorBit` | src/bit_torrent/dht/key_id.rs:66-68 | Every bit of that string, of any length: set exactly where the two ids differ |
| `Keys.XorLaws` | src/bit_torrent/dht/key_id.rs:63-70 | That string is symmetric, all zeros only for equal ids, and gives either id back from the other |
| `Keys.DistanceLaws` | src/bit_torrent/dht/key_id.rs:62-72 | Distances are symmetric; a key and itself hash 32 zero bytes; two keys are as far from a target exactly when they have one id or two different strings collide |
| `Keys.RankIsOrder` | src/bit_torrent/dht/key_id.rs:62-84 | One node sorts before another by re-hashed XOR distance exactly when a natural-number rank is lower; ranks tie exactly for equal ids or a collision of the hash |
| `KBucket.KBucket.Insert` | src/bit_torrent/dht/k_bucket.rs:34-46 | The bucket afterwards: a known node moves to the end, a new one is appended if there is room, otherwise nothing changes |
| `KBucket.KBucket.EvictAndInsert` | src/bit_torrent/dht/k_bucket.rs:29-32 | The oldest node is dropped, then the node inserted |
| `KBucket.KBucket.Remove` | src/bit_torrent/dht/k_bucket.rs:48-52 | Exactly the entry with the key goes |
| `KBucket.KBucket.Split` | src/bit_torrent/dht/k_bucket.rs:58-84 | The halves a split makes, with the constructor arguments in the order the code passes them |
| `KBucket.AddedTidy` | src/bit_torrent/dht/k_bucket.rs:34-46 | Inserting keeps the size bound and distinct keys, loses no other node, and puts the node last if it was known or there was room |
| `KBucket.EvictedTidy` | src/bit_torrent/dht/k_bucket.rs:29-46 | Replacing keeps bound and distinctness, brings in nothing else, and leaves the node last |
| `KBucket.RemovedTidy` | src/bit_torrent/dht/k_bucket.rs:48-52 | Afterwards exactly the nodes with another key are left |
| `KBucket.SeenGoesLast` | src/bit_torrent/dht/k_bucket.rs:29-52 | The exact order after insert, evict-and-insert and remove: all other nodes stay in theirs, the node comes last |
| `KBucket.LeastRecentFirst` | src/bit_torrent/dht/k_bucket.rs:29-52 | After every history of a bucket its nodes stand from the least to the most recently seen, each with the address it was last seen with |
| `KBucket.SplitKeepsFirst` | src/bit_torrent/dht/k_bucket.rs:58-84 | Each half of a split holds the first depth + 1 nodes with its bit, in their order |
| `KBucket.SplitLosesIff` | src/bit_torrent/dht/k_bucket.rs:58-84 | A split loses nodes exactly when more than depth + 1 of them agree in the bit |
| `RouteTable.RouteTable.constructor` | src/bit_torrent/dht/route_table.rs:19-36 | 256 empty buckets of size 20, separate objects |
| `RouteTable.RouteTable.GetBucketIndex` | src/bit_torrent/dht/route_table.rs:38-50 | The byte-and-bit scan finds the first set bit of the hashed distance from the host, or 255 if there is none |
| `RouteTable.RouteTable.ScanByte` | src/bit_torrent/dht/route_table.rs:41-47 | One byte of that scan: its first set bit from the most significant down, or none |
| `RouteTable.BucketIndexMeans` | src/bit_torrent/dht/route_table.rs:38-50 | No bit of the hashed distance before the index is set, and the one at the index is, unless none is at all: then it is 255 |
| `RouteTable.LaterBucketIsCloser` | src/bit_torrent/dht/route_table.rs:38-50 | A key that belongs in a later bucket is strictly closer to the host |
| `RouteTable.RouteTable.TryInsert` | src/bit_torrent/dht/route_table.rs:52-82 | Bucket objects and answer are those of the pure table operation: nothing, inserted, split, or the ping of the oldest node |
| `RouteTable.RouteTable.SplitAt` | src/bit_torrent/dht/route_table.rs:68-75 | The split branch replaces one bucket object by two fresh ones, changing no other |
| `RouteTable.RouteTable.Replace` | src/bit_torrent/dht/route_table.rs:84-92 | Only the bucket the node indexes changes, by an eviction |
| `RouteTable.RouteTable.Remove` | src/bit_torrent/dht/route_table.rs:94-102 | Only the bucket the node indexes changes, by a removal |
| `RouteTable.TryAnswers` | src/bit_torrent/dht/route_table.rs:52-82 | Which of the four answers comes, on every table, and what has changed: one bucket, or nothing |
| `RouteTable.HalvedMeans` | src/bit_torrent/dht/route_table.rs:68-75 | Where a split puts the halves and the other buckets |
| `RouteTable.ReplaceChanges` | src/bit_torrent/dht/route_table.rs:84-92 | On a table in order: the oldest goes, the node comes last, the others keep their order, no other bucket changes |
| `RouteTable.RemoveChanges` | src/bit_torrent/dht/route_table.rs:94-102 | On a table in order: the node goes, the others keep their order, no other bucket changes |
| `RouteTable.OfferedIff` | src/bit_torrent/dht/kademlia/mod.rs:256-276 | The nodes a run may replace by are exactly those an insertion has answered with a ping |
| `RouteTable.NeverSplits` | src/bit_torrent/dht/route_table.rs:52-82 | On a table in order an insertion never splits, and does nothing exactly for the host |
| `RouteTable.TryKeeps` | src/bit_torrent/dht/route_table.rs:52-82 | An insertion keeps 256 buckets of at most 20 distinct nodes, each in the bucket its key indexes, the host absent |
| `RouteTable.ReplaceKeeps` | src/bit_torrent/dht/route_table.rs:84-92 | A replacement by any node but the host keeps the same invariant |
| `RouteTable.RemoveKeeps` | src/bit_torrent/dht/route_table.rs:94-102 | A removal keeps it |
| `RouteTable.RunKeeps` | src/bit_torrent/dht/route_table.rs:38-102 | Every interleaving of insertions, removals and replacements by nodes that came back in a Ping keeps it |
| `RouteTable.SplitIsUnreachable` | src/bit_torrent/dht/route_table.rs:68-75 | After any such run from an empty table the split branch is not taken |
| `RouteTable.NoKeyTwice` | src/bit_torrent/dht/route_table.rs:38-102 | No key occurs twice in the whole table |
| `RouteTable.OneIdTwice` | src/bit_torrent/dht/key_id.rs:12-16 | Two keys with one 32-byte id and different public keys both get in |
| `RouteTable.IdsUniqueIff` | src/bit_torrent/dht/route_table.rs:38-102 | All runs over a set of keys keep the 32-byte ids unique if and only if no two of these keys, the host aside, share an id |
| `Acknowledge.Acknowledge` | src/bit_torrent/dht/kademlia/mod.rs:256-276 | The ping-or-replace loop ends for every ping outcome; table and pinged nodes are those of a closed form on one bucket; all other buckets unchanged; the host changes nothing |
| `Acknowledge.NextRound` | src/bit_torrent/dht/kademlia/mod.rs:257-275 | Each round of the loop ends in the closed form or is one failed ping nearer to it; never a third ping |
| `Acknowledge.SecondEviction` | src/bit_torrent/dht/kademlia/mod.rs:256-276 | A bucket full after one replacement has room after the next |
| `Acknowledge.AcknowledgeOutcome` | src/bit_torrent/dht/kademlia/mod.rs:256-276 | No ping unless the bucket is full; the two oldest nodes are pinged, the second exactly when the first failed and the node was absent or the oldest; the node is in its bucket at the end if and only if it was there, there was room, or the first ping failed, and then last unless that ping was answered; of the others exactly those that failed their ping have left; nothing else came in |
| `LookupTable.FailedLeaves` | src/bit_torrent/dht/kademlia/client.rs:310-313 | A node that failed is in no bucket afterwards, and every node with another key is where it was |
| `LookupTable.AnsweredStays` | src/bit_torrent/dht/kademlia/client.rs:323-324 | A node that answered is in its bucket if and only if it was, there was room, or the oldest failed its ping; of the others there exactly those that failed their ping are gone; no other bucket changes |
| `LookupTable.StaysFrom` | src/bit_torrent/dht/kademlia/client.rs:308-324 | From any moment on, a key no request to which ends any more keeps its place unless its node fails a ping, and does not come in |
| `LookupTable.TableOutcome` | src/bit_torrent/dht/kademlia/client.rs:308-324 | For any ends of requests and any pings, which keys the table holds at the end: none that failed; one that answered exactly if it got in and has failed no ping since; any other exactly if it was in and has failed no ping; and nothing else |
| `Closest.SortFacts` | src/bit_torrent/dht/route_table.rs:104-120 | The stable sort by distance sorts and permutes |
| `Closest.SortIds` | src/bit_torrent/dht/route_table.rs:104-120 | It keeps the keys, their number and their distinctness |
| `Closest.TakeIsClosest` | src/bit_torrent/dht/route_table.rs:104-120 | The first k of a sorted list of distinct nodes are the k closest of all of them |
| `Closest.ClosestUpToTies` | src/bit_torrent/dht/route_table.rs:104-120 | Two lists of k closest differ in equally distant keys only |
| `Closest.TableDistinct` | src/bit_torrent/dht/route_table.rs:104-120 | The nodes of a table in order, bucket after bucket, carry distinct keys, none the host's |
| `Closest.GetClosestNodes` | src/bit_torrent/dht/route_table.rs:104-120 | The answer lists the k closest of all table nodes, closest first, without the host |
| `Lookup.NodeLookup` | src/bit_torrent/dht/kademlia/client.rs:267-353 | For every network whose answers name keys of a finite set the lookup terminates; every returned node answered and is named, address included, as the table or an answer named it; the result is the 20 closest of all nodes learnt minus host and failures; the log obeys the request discipline; the table is in order and its keys are told exactly from the table before, the ends of the requests and the pings, as `LookupTable.TableOutcome` states |
| `Lookup.Search` | src/bit_torrent/dht/kademlia/client.rs:283-348 | The loop ends with nothing in flight and the closest 20 candidates asked, by a measure of unasked keys and requests in flight; the table has seen every end, in order |
| `Lookup.Pass` | src/bit_torrent/dht/kademlia/client.rs:283-348 | One whole pass, the end it took applied to the table |
| `Lookup.Round` | src/bit_torrent/dht/kademlia/client.rs:283-348 | One pass, but for the table, keeps the loop invariant and settles the lookup or lowers that measure |
| `Lookup.SendHalf` | src/bit_torrent/dht/kademlia/client.rs:284-306 | Sorting, dropping duplicates and sending: if nothing is in flight afterwards the lookup is settled |
| `Lookup.ReceiveHalf` | src/bit_torrent/dht/kademlia/client.rs:308-338 | Taking the next end of a request strictly lowers the measure |
| `Lookup.Receive` | src/bit_torrent/dht/kademlia/client.rs:308-336 | The next request in flight ends: a failed node leaves the candidates, the unknown nodes of an answer join them |
| `Lookup.ApplyEnd` | src/bit_torrent/dht/kademlia/client.rs:310-324 | The table afterwards: a failed node is nowhere in it; an answering one is exactly if it was, there was room, or the oldest failed its ping |
| `Lookup.AskBatch` | src/bit_torrent/dht/kademlia/client.rs:287-302 | Requests go to the closest unasked candidates while fewer than three are in flight |
| `Lookup.Arrange` | src/bit_torrent/dht/kademlia/client.rs:284-285 | Sorting and deduplication keep the candidate keys |
| `Lookup.DedupKeepsHeads` | src/bit_torrent/dht/kademlia/client.rs:285-285 | Of any list deduplication keeps exactly the first of every stretch of neighbours with one id |
| `Lookup.AskKeeps` | src/bit_torrent/dht/kademlia/client.rs:295-302 | Asking the closest unasked candidate keeps invariant and discipline and uses up one unasked key |
| `Lookup.FailKeeps` | src/bit_torrent/dht/kademlia/client.rs:310-322 | A failure keeps them, and the node is a candidate no more |
| `Lookup.AnswerKeeps` | src/bit_torrent/dht/kademlia/client.rs:323-334 | An answer keeps them, and the candidates are again all nodes learnt minus host and failures |
| `Lookup.Finished` | src/bit_torrent/dht/kademlia/client.rs:338-352 | A settled lookup returns exactly the 20 closest of that pool, all of which answered |
| `Lookup.AtMostThreeInFlight` | src/bit_torrent/dht/kademlia/client.rs:287-302 | At no moment of a lookup are more than three requests in flight |
| `Lookup.NeverAskedTwice` | src/bit_torrent/dht/kademlia/client.rs:288-302 | No key is asked twice, and never the host |
| `Storage.FlatSplit` | src/bit_torrent/chunks/file_handler.rs:63-78 | The flat string splits at each file, whose offset is the sum of the lengths before it |
| `Storage.OverlapIsIntersection` | src/bit_torrent/chunks/file_handler.rs:141-163 | The overlap of a file with a piece is the intersection of their byte ranges, named consistently from the file and from the buffer |
| `Storage.MultiFileHandler.Layout` | src/bit_torrent/chunks/file_handler.rs:63-78 | The accumulated offsets lay the files out as the flat string and sum to its length |
| `Storage.MultiFileHandler.constructor` | src/bit_torrent/chunks/file_handler.rs:92-131 | A handler over the given files is valid |
| `Storage.MultiFileHandler.ReadPiece` | src/bit_torrent/chunks/file_handler.rs:168-199 | Piece i of the flat string, or out of bounds exactly when it starts at or beyond the end |
| `Storage.MultiFileHandler.ReadRange` | src/bit_torrent/chunks/file_handler.rs:176-198 | The loop over the files fills the buffer with the flat string's bytes |
| `Storage.MultiFileHandler.WritePiece` | src/bit_torrent/chunks/file_handler.rs:204-241 | With the per-file writes in any order: one write into the flat string, or out of bounds and nothing changed |
| `Storage.MultiFileHandler.WriteRange` | src/bit_torrent/chunks/file_handler.rs:212-238 | All of a piece's per-file writes, in any order and with repetitions, are that one write |
| `Storage.MultiFileHandler.WriteShare` | src/bit_torrent/chunks/file_handler.rs:217-231 | One per-file write changes its share of its file and nothing else |
| `Storage.WritesAreOneSplice` | src/bit_torrent/chunks/file_handler.rs:204-241 | Writing each file's share of a piece is one splice into the flat string |
| `Storage.WrittenKeepsLayout` | src/bit_torrent/chunks/file_handler.rs:204-241 | And the layout stays what it was |
| `Storage.AnyOrder` | src/bit_torrent/chunks/file_handler.rs:204-241 | After per-file writes of pieces in any order, those of different pieces interleaved, with repetitions: each byte is the data's if its piece was written to its file, and untouched otherwise |
| `Storage.EveryPieceWritten` | src/bit_torrent/chunks/file_handler.rs:204-241 | Once every write that is due to a file has been made, the file is its slice of the data |
| `Storage.Download` | src/bit_torrent/chunks/file_handler.rs:204-241 | A whole download through the handler, every per-file write a task of its own in any interleaving: the files end up as the data |
| `PieceHash.AbsorbKeeps` | src/bit_torrent/torrent/piece_hash.rs:111-124 | One short read keeps: full pieces sent so far, the rest at the front of the buffer |
| `PieceHash.FinishKeeps` | src/bit_torrent/torrent/piece_hash.rs:128-131 | Sending the rest completes the list of pieces |
| `PieceHash.SplitFile` | src/bit_torrent/torrent/piece_hash.rs:106-126 | One file, read in any pattern of short reads, is appended to the string split so far |
| `PieceHash.FileHandle` | src/bit_torrent/torrent/piece_hash.rs:96-134 | Whatever the short reads, the pieces sent are all pieces of the flat string, numbered in order |
| `Metainfo.LengthIsPowerOfTwo` | src/bit_torrent/torrent/metainfo/mod.rs:340-359 | The piece length check accepts exactly the powers of two from 2^14 to 2^27 |
| `Metainfo.ValidatesIff` | src/bit_torrent/torrent/metainfo/v1.rs:188-214 | Any torrent, from wherever, validates if and only if its piece length is such a power, its hashes are whole, there is one for every piece and for nothing else, and it is not empty; the error is that of the first of these that fails |
| `Metainfo.ChunksOfConcat` | src/bit_torrent/torrent/metainfo/v1.rs:275-280 | Cutting concatenated 20-byte hashes gives the hashes back |
| `Metainfo.Build` | src/bit_torrent/torrent/piece_hash.rs:55-93 | The built torrent holds the hashes of the pieces of the flat string, in order, and the length of every file, in order |
| `Metainfo.BuiltTorrentValidates` | src/bit_torrent/torrent/metainfo/v1.rs:188-214 | A built torrent validates if and only if its piece length does and it is not empty |
| `Metainfo.VerifyPieces` | src/bit_torrent/session/state.rs:110-140 | The bits set are exactly the pieces whose bytes hash as expected; an error exactly when there are more hashes than pieces |
| `Metainfo.SeedSame` | src/bit_torrent/session/state.rs:110-140 | Verifying files against the hashes of their own pieces sets every bit |
| `Metainfo.BuildThenSeed` | src/bit_torrent/session/state.rs:110-140 | Hash and read agree: building from files with any short reads and then seeding the same files validates and sets every bit |
| `Metainfo.DownloadThenRead` | src/bit_torrent/chunks/file_handler.rs:168-241 | After a whole download in any interleaving, reading piece i gives piece i of the data, of exactly the size computed for it; any other index is out of bounds |
| `Metainfo.PieceSizeIsLength` | src/bit_torrent/session/session.rs:605-621 | The computed piece size is the length of the piece |
| `Metainfo.SizesSumToTotal` | src/bit_torrent/session/session.rs:605-621 | The sizes of the first n pieces sum to n piece lengths or the total, of all pieces to the total |
| `Merkle.FromPieceHashes` | src/bit_torrent/torrent/merkle.rs:35-64 | The level-by-level loop ends and its result is the root of a recursively defined tree with a zero hash for a missing right sibling |
| `Merkle.FromPieceLayers` | src/bit_torrent/torrent/merkle.rs:10-33 | Empty input and lengths off 32 are errors; otherwise the root over the 32-byte chunks |
| `Merkle.NextLevel` | src/bit_torrent/torrent/merkle.rs:43-58 | Each node of the next level hashes its two children, a missing right one being zero |
| `Merkle.RootIsUnique` | src/bit_torrent/torrent/merkle.rs:35-64 | A layer has one root |
| `Merkle.RootBindsLayer` | src/bit_torrent/torrent/merkle.rs:35-64 | Equal roots over layers of one length: the layers are equal, or the hash collides on the two strings hashed at one and the same node of the two trees |
| `Merkle.RootBindsLayerBytes` | src/bit_torrent/torrent/merkle.rs:10-64 | The same for the encoded layers |
| `Merkle.SameRootIff` | src/bit_torrent/torrent/merkle.rs:35-64 | Layers of any lengths have one root if their trees match level by level, a node missing beside a common parent being the zero hash in the other; and only if they match or collide at one place of both |
| `Merkle.MatchFromTop` | src/bit_torrent/torrent/merkle.rs:42-59 | Equal nodes at the top force a match at every level below, or a collision at one place |
| `Merkle.MatchToTop` | src/bit_torrent/torrent/merkle.rs:42-59 | And a match at every level gives equal nodes at the top |
| `Merkle.ZeroPaddingKeepsRoot` | src/bit_torrent/torrent/merkle.rs:45-56 | On every odd layer of at least three hashes, appending a zero hash keeps the root |
| `Merkle.LayerAboveKeepsRoot` | src/bit_torrent/torrent/merkle.rs:42-59 | Every layer of at least two hashes has the root of the layer of its parents |
| `BitField.OperationsRefineSet` | src/bit_torrent/session/bit_field.rs:32-52 | set and unset on packed bytes are insertion and removal on the set of pieces, and nothing outside the piece count |
| `BitField.RunRefinesSet` | src/bit_torrent/session/bit_field.rs:21-52 | Any sequence of them is that sequence on a set |
| `BitField.EmptyHasNone` | src/bit_torrent/session/bit_field.rs:8-15 | A fresh field has exactly ceil(n/8) bytes and no piece |
| `BitField.DifferenceLists` | src/bit_torrent/session/bit_field.rs:74-96 | From every byte on, the scan lists in ascending order exactly the pieces one side has and the other lacks |
| `BitField.DifferenceIsSetDifference` | src/bit_torrent/session/bit_field.rs:74-96 | For one piece count: exactly the set difference, strictly ascending, stray trailing bits never reported |
| `BitField.DifferenceIgnoresOtherCount` | src/bit_torrent/session/bit_field.rs:74-96 | The other side's piece count plays no part |
| `BitField.QueriesAgree` | src/bit_torrent/session/bit_field.rs:54-64 | count is the size of the set; complete means every piece |
| `BitField.BitField.SetBit` | src/bit_torrent/session/bit_field.rs:32-41 | In place: the set gains the index if it is in range |
| `BitField.BitField.UnsetBit` | src/bit_torrent/session/bit_field.rs:43-52 | In place: the set loses the index |
| `BitField.BitField.HaveBit` | src/bit_torrent/session/bit_field.rs:21-30 | Reads the bit of the piece; false outside the piece count |
| `BitField.BitField.DifferenceWith` | src/bit_torrent/session/bit_field.rs:74-96 | The byte-and-mask scan over both byte strings gives the difference, missing bytes being zero |
| `BitField.OrBit` | src/bit_torrent/session/bit_field.rs:37-40 | Or-ing the mask in sets exactly the one bit |
| `BitField.AndNotBit` | src/bit_torrent/session/bit_field.rs:48-51 | And-ing its complement clears exactly the one bit |
| `Pipeline.Pipeline.FillRequests` | src/bit_torrent/session/bep/pipeline.rs:104-144 | Requests and pending set are those of the pure fill on sets; a choked pipeline asks nothing |
| `Pipeline.TakeSlots` | src/bit_torrent/session/bep/pipeline.rs:121-143 | The loop over the slots asks for the first wanted pieces not pending |
| `Pipeline.Pipeline.OnChoke` | src/bit_torrent/session/bep/pipeline.rs:57-61 | One Choke step of the run model; not interested |
| `Pipeline.Pipeline.OnUnchoke` | src/bit_torrent/session/bep/router.rs:336-338 | Unchoking and the fill that follows are one Unchoke step of the run model |
| `Pipeline.Pipeline.EvaluateInterest` | src/bit_torrent/session/bep/pipeline.rs:45-51 | Interested exactly when the peer has a piece we lack |
| `Pipeline.Pipeline.SetPeerBit` | src/bit_torrent/session/bep/pipeline.rs:99-102 | One step of the run model: the peer's set gains the piece; or, exactly when the byte of the piece did not come with the bitfield, a panic |
| `Pipeline.Pipeline.ClearPiece` | src/bit_torrent/session/bep/pipeline.rs:95-97 | The piece is pending no more |
| `Pipeline.ProcessPiece` | src/bit_torrent/session/bep/router.rs:546-581 | One arrived piece, on the session's and the peer's real fields, is one step of the run model |
| `Pipeline.TakePiece` | src/bit_torrent/session/bep/router.rs:558-580 | The same for a piece not had before |
| `Pipeline.DifferenceIsWanted` | src/bit_torrent/session/bep/pipeline.rs:113-129 | The packed difference lists the pieces the peer has and we lack, in order |
| `Pipeline.RequestsAreNew` | src/bit_torrent/session/bep/pipeline.rs:121-143 | Asked pieces are wanted, not pending, and no more than there are slots |
| `Pipeline.RequestsDistinct` | src/bit_torrent/session/bep/pipeline.rs:121-143 | No piece is asked twice in one fill |
| `Pipeline.RequestsAreEnough` | src/bit_torrent/session/bep/pipeline.rs:121-143 | A fill uses every slot or leaves nothing wanted unasked |
| `Pipeline.LowestFirst` | src/bit_torrent/session/bep/pipeline.rs:121-143 | What is left unasked lies above everything asked |
| `Pipeline.FillKeeps` | src/bit_torrent/session/bep/pipeline.rs:104-144 | A fill keeps at most 128 pending and no piece asked twice since the last choke; it asks only for what the peer has and we lack; unchoked, it fills all slots or leaves no eligible piece unrequested |
| `Pipeline.StepKeeps` | src/bit_torrent/session/bep/router.rs:546-581 | Every handler call keeps this, and every piece it asks for the peer has and we lack |
| `Pipeline.RunKeeps` | src/bit_torrent/session/bep/pipeline.rs:45-144 | Every run of handler calls keeps it |
| `Pipeline.EveryRunKeeps` | src/bit_torrent/session/bep/pipeline.rs:45-144 | From a fresh pipeline, for every peer and session bitfield |
| `PipelineRuns.ChokedStep` | src/bit_torrent/session/bep/pipeline.rs:109-111 | A choked pipeline asks nothing and stays choked until an Unchoke |
| `PipelineRuns.ChokedIsSilent` | src/bit_torrent/session/bep/pipeline.rs:53-61 | Over every run from a fresh pipeline it is choked exactly unless the last Choke or Unchoke was an Unchoke, and as long as it is nothing is asked or pending |
| `PipelineRuns.PendingAccounts` | src/bit_torrent/session/bep/router.rs:546-581 | Every event: exactly the piece delivered now stops being pending, exactly the pieces asked for now begin to be, and a choke empties it |
| `PipelineRuns.RunKnows` | src/bit_torrent/session/bep/router.rs:546-581 | Over every run our pieces are those at first, those that arrived and those other peers gave; the peer's are those of its bitfield and those it announced |
| `PipelineRuns.KeptBusy` | src/bit_torrent/session/bep/pipeline.rs:117-143 | After an Unchoke, or an arrival that does not complete an unchoked download, 128 pieces are pending or all that the peer has and we lack; and the pieces asked for are the lowest |
| `Pipeline.StaleStays` | src/bit_torrent/session/bep/router.rs:558-562 | A pending piece that came from another peer stays pending until a choke |
| `Pipeline.FullOfStale` | src/bit_torrent/session/bep/router.rs:558-562 | With all 128 slots stale no event but a choke asks for anything |
| `Pipeline.StaleSlotsStall` | src/bit_torrent/session/bep/router.rs:558-562 | So over every run without a choke a pipeline with all slots stale asks for nothing again |
| `Pipeline.CoveredStalls` | src/bit_torrent/session/bep/pipeline.rs:121-143 | When every piece is ours or pending nothing is asked in any run without a choke |
| `PipelineStall.StuckStays` | src/bit_torrent/session/bep/router.rs:346-360 | A slot whose piece came from another peer, or whose request failed, stays taken until a choke |
| `PipelineStall.StuckSlotsStall` | src/bit_torrent/session/bep/router.rs:346-360 | So over every run without a choke a pipeline with all slots stuck asks for nothing again |
| `PipelineStall.StallsIff` | src/bit_torrent/session/bep/router.rs:346-360 | Without a choke a pipeline can still come to ask for something if and only if one of its slots is not stuck and some piece is neither ours nor pending |
| `PipelineStall.CanStillAsk` | src/bit_torrent/session/bep/router.rs:546-581 | In that case a run leads to a request, with no piece arriving but for a request in flight |
| `PipelineStall.FlightRunKeeps` | src/bit_torrent/session/bep/router.rs:346-360 | Requests failing and arriving in any order keep the pipeline's invariant |
| `PipelineStall.EachFliesOnce` | src/bit_torrent/session/bep/router.rs:346-360 | From a fresh pipeline without a choke no two requests in flight are for one piece, and a piece that arrives or whose request fails is in flight no more |
| `PipelineStall.FailuresStall` | src/bit_torrent/session/bep/router.rs:528-535 | From a fresh pipeline, with any peer that has more than 128 pieces we lack: when the requests of the first fill all fail the pipeline is stalled |
| `PipelineStall.StallIsReachable` | src/bit_torrent/session/bep/router.rs:558-562 | And likewise when other peers deliver their pieces first |
| `Handshake.BepSession.Discover` | src/bit_torrent/session/session.rs:440-460 | The first step of an opening: only an unknown address is entered as Connecting and dialled; other peers untouched |
| `Handshake.BepSession.InsertOutbound` | src/bit_torrent/session/bep/router.rs:274-281 | Its second step: the placeholder with our own id; our Handshake is the message to send; other peers untouched |
| `Handshake.BepSession.InsertPending` | src/bit_torrent/session/session.rs:530-540 | One lock section: the entry is overwritten, whatever it was; other peers untouched |
| `Handshake.BepSession.InsertPipeline` | src/bit_torrent/session/session.rs:542-551 | One lock section: the entry becomes Active; other peers untouched |
| `Handshake.BepSession.HandleHandshake` | src/bit_torrent/session/bep/router.rs:429-469 | A whole uninterrupted handler: new entry and reply by the state of the entry; other peers untouched |
| `Handshake.BepSession.HandleBitfield` | src/bit_torrent/session/bep/router.rs:471-509 | A whole uninterrupted handler: a pending entry becomes Active with its recorded id; the side that did not open replies; other peers untouched |
| `Handshake.UninterruptedHandler` | src/bit_torrent/session/bep/router.rs:429-509 | The lock sections of the run model, run to the end without interruption, are the whole handler |
| `Handshake.SessionManager.Dispatch` | src/bit_torrent/session/manager.rs:105-146 | A Handshake makes its source known and is handled; any other message is handled exactly if its source is known; other sources untouched |
| `Handshake.LastWriteDecides` | src/bit_torrent/session/bep/router.rs:265-509 | Over every run from the start, with openings and any number of handlers of a side overlapping in any way: a side is Pending exactly when the placeholder or a recording was the last write to its entry, and holds its own id exactly when the placeholder was, or an activation whose id was read from the placeholder; an active entry has the other's bitfield |
| `HandshakeInTurn.TrackOpen` | src/bit_torrent/session/bep/router.rs:265-284 | A side that is sent a Handshake, a Bitfield and perhaps another stays on the course told by its counters when its opening makes a step |
| `HandshakeInTurn.TrackSection` | src/bit_torrent/session/bep/router.rs:429-509 | And when its handler makes one |
| `HandshakeInTurn.FirstOpenerHandles` | src/bit_torrent/session/bep/router.rs:429-509 | So does a side that opened first, whatever order of messages the other's overlap makes it receive, a Bitfield before any Handshake being dropped on first contact and handled otherwise |
| `HandshakeInTurn.CleanHandles` | src/bit_torrent/session/bep/router.rs:429-509 | A pair without harmful overlap stays one, or becomes one in which a single side overlaps and the other opened first |
| `HandshakeInTurn.OverlappingHandles` | src/bit_torrent/session/bep/router.rs:429-509 | And such a pair stays such a pair |
| `HandshakeInTurn.StepKeeps` | src/bit_torrent/session/bep/router.rs:265-509 | Every dispatch, lock section and send, of the opening and of the handlers, on either side, keeps the invariant as long as a side handles one message at a time |
| `HandshakeInTurn.RunKeeps` | src/bit_torrent/session/session.rs:521-567 | Every such run keeps it and has at most 34 steps |
| `HandshakeInTurn.HandshakeOutcome` | src/bit_torrent/session/bep/router.rs:265-509 | One message at a time, openings overlapping in any way, one-sided or simultaneous, each side known to the other from before or not: both end connected after exactly two Handshakes and two Bitfields if and only if each placeholder was in time for the first read and each Handshake for the reply; a side is left Pending, and a side is left with its own id, if and only if the placeholder and the Handshake fell between the named steps |
| `HandshakeInTurn.SettledOverlapping` | src/bit_torrent/session/manager.rs:136-145 | The outcome of every settled state in which a side's opening overlapped; a Bitfield that overtakes its Handshake leaves the other side waiting on first contact, and its own side waiting otherwise |
| `HandshakeInTurn.EveryCaseOccurs` | src/bit_torrent/session/bep/router.rs:265-509 | The placeholder can fall after any number of steps and the Handshake after any later number, as far as the messages sent allow: every case of the outcome is reached |
| `HandshakeInTurn.CanFinish` | src/bit_torrent/session/bep/router.rs:265-509 | Every such run can be finished |
| `HandshakeInTurn.NotStuck` | src/bit_torrent/session/bep/router.rs:265-509 | As long as something is under way a step can be taken |
| `HandshakeApart.CalmTakesSecond` | src/bit_torrent/session/bep/router.rs:429-509 | With openings apart, two handlers come to overlap only between two sides that both opened, and on one of them |
| `HandshakeApart.TangledSteps` | src/bit_torrent/session/bep/router.rs:429-509 | The course of two handlers at once, and of the other side beside it, is kept by every section |
| `HandshakeApart.StepKeeps` | src/bit_torrent/session/bep/router.rs:265-509 | So is the invariant by every step of a run in which no opening overlaps |
| `HandshakeApart.RunKeeps` | src/bit_torrent/session/session.rs:521-567 | Every such run keeps it and has at most 34 steps |
| `HandshakeApart.OverlapOutcome` | src/bit_torrent/session/bep/router.rs:429-509 | Handlers overlapping in any way, no opening overlapping the handlers of its side: both sides end connected after exactly two Handshakes and two Bitfields if and only if on each side the peer was recorded before the handler of the Bitfield read its id; a side is left Pending, and a side is left with its own id, if and only if that handler read and activated between the named sections |
| `HandshakeApart.SettledTangled` | src/bit_torrent/session/bep/router.rs:429-509 | The outcome of every settled state in which handlers overlapped |
| `HandshakeApart.ApartConnects` | src/bit_torrent/session/bep/router.rs:265-509 | If on no side an opening or a handler overlaps another handler, both sides are connected |
| `HandshakeApart.EveryOverlapOccurs` | src/bit_torrent/session/bep/router.rs:429-509 | The handler of a Bitfield can read the id and activate after any numbers of sections of the Handshake's handler: every case is reached |
| `HandshakeApart.OverlapHangs` | src/bit_torrent/session/bep/router.rs:429-509 | One of them: with both openings long finished, one side is left waiting |
| `HandshakeApart.CanFinish` | src/bit_torrent/session/bep/router.rs:265-509 | Every such run can be finished |
| `Transition.SessionState.CancelInner` | src/bit_torrent/session/state.rs:191-201 | Exactly the current state's token is cancelled |
| `Transition.SessionState.SwapState` | src/bit_torrent/session/transition.rs:39-48 | A cancelled session drops (and so cancels) the new state; any other drops the old one |
| `TransitionCalls.CallAlone` | src/bit_torrent/session/state.rs:203-217 | Every call by itself from any state: exactly the nine listed pairs get through; where each leads, kind, path, tokens and workers; what a failure to prepare leaves; any other call changes nothing |
| `TransitionCalls.PauseThenResume` | src/bit_torrent/session/transition.rs:72-90 | Paused and resumed, a session is of the same kind, with the same path, under a new token |
| `TransitionCalls.StatesComeFromCalls` | src/bit_torrent/session/transition.rs:49-178 | Over every interleaving the session downloads only to where a Download asked, seeds only if a Seed asked, pauses only by a Pause and is cancelled only by a Cancel |
| `Transition.MoveKeeps` | src/bit_torrent/session/transition.rs:49-178 | Every lock section of every call keeps: tokens are new and held once, and a token past its swap is cancelled or current |
| `Transition.StepKeeps` | src/bit_torrent/session/transition.rs:49-178 | So does every start of a call and every worker's end; Cancelled stays, no token is un-cancelled |
| `Transition.RunKeeps` | src/bit_torrent/session/transition.rs:49-178 | Over all interleavings of any number of calls |
| `Transition.OneLiveWorker` | src/bit_torrent/session/state.rs:269-273 | At any moment of any run at most one worker holds an uncancelled token, and it is the current state's; in a cancelled session none does |
| `TransitionWorkers.LiveWorkerIff` | src/bit_torrent/session/session.rs:181-191 | A session at rest in a running state has a worker at work if and only if the token of the state was not cancelled by a call that then swapped nothing in, or by its worker, and no other worker took its resources |
| `TransitionWorkers.CrewRunKeeps` | src/bit_torrent/session/session.rs:329-343 | What every interleaving of transitions and of the workers' first lock sections keeps |
| `TransitionWorkers.TakenOnceByKind` | src/bit_torrent/session/session.rs:181-191 | Over every run the resources of a state are taken once, by a worker of its kind, and never change hands |
| `TransitionWorkers.FailedSeedLeavesNobody` | src/bit_torrent/session/transition.rs:127-146 | From the start: seeding is asked of a download and cannot be prepared; the session says it downloads and nobody does |
| `TransitionWorkers.StolenLeavesNobody` | src/bit_torrent/session/session.rs:187-191 | From the start: of two overlapping calls of Resume, the worker of the first takes the resources of the second's state |
| `Transition.ResumeAbortsIff` | src/bit_torrent/session/transition.rs:49-90 | From a paused session a Resume can hit the arm marked unreachable, with no further call started, if and only if some other call under way is not one of those that leave a pause alone |
| `Transition.SafeStays` | src/bit_torrent/session/transition.rs:49-90 | Among quiet calls a Resume stays out of that arm in every interleaving |
| `Transition.Disturb` | src/bit_torrent/session/transition.rs:49-90 | Any other call, run ahead of the re-read, drives it there |
| `Transition.ResumeCanAbort` | src/bit_torrent/session/transition.rs:72-80 | From the start: a paused download, a Resume and a Cancel overlapping, and the arm is hit |
| `Transition.DoublePauseForgets` | src/bit_torrent/session/transition.rs:151-167 | From the start: a download paused twice at once can end in an idle state that cannot be resumed |
| `Transition.ForgetsIff` | src/bit_torrent/session/transition.rs:49-167 | A running session can end, with no further call started, in an idle state that cannot be resumed if and only if a call is about to swap one in, or of two calls one is a pause that has still to read the state and the other a pause that has still to swap |
| `Transition.MindfulStays` | src/bit_torrent/session/transition.rs:49-167 | Without such calls no interleaving forgets |
| `Transition.PairForgets` | src/bit_torrent/session/transition.rs:49-167 | And any two such calls can be interleaved so as to |
| `ConnectionManager.ConnectionManager.AppendConnection` | src/bit_torrent/network/manager.rs:180-204 | The table afterwards and the connection closed: of two to one address the side with the smaller address keeps the old one |
| `ConnectionManager.ConnectionManager.OnDisconnect` | src/bit_torrent/network/manager.rs:152-178 | The callback removes its own connection or nothing |
| `ConnectionManager.ConnectionManager.Disconnect` | src/bit_torrent/network/manager.rs:102-110 | The step of the run model: the connection at the address is removed and closed, if there is one |
| `ConnectionManager.ConnectionManager.TryMark` | src/bit_torrent/network/manager.rs:301-308 | The step of the run model: of concurrent callers exactly the one that finds the address unmarked dials |
| `ConnectionManager.DisconnectFrees` | src/bit_torrent/network/manager.rs:102-110 | The address is free, its connection closed, every other entry as it was |
| `ConnectionManager.ShutdownClosesAll` | src/bit_torrent/network/manager.rs:397-406 | After any run a shutdown leaves no entry, and every connection ever appended is closed or gone by its callback |
| `ConnectionManager.OneSurvives` | src/bit_torrent/network/manager.rs:180-204 | Of any number of connections to one address the first survives on the side with the smaller address, the last on the other; all others are closed |
| `ConnectionManager.BothSidesAgreeIff` | src/bit_torrent/network/manager.rs:180-204 | Two peers that append the same connections keep the same one exactly when the first of the smaller address is the last of the larger; otherwise every one of them is closed |
| `ConnectionDials.DialAlone` | src/bit_torrent/network/manager.rs:284-337 | A dial by itself: nothing if the address is connected or marked; else the new entry, or none if it fails; the mark is gone in either case |
| `ConnectionDials.AcceptAlone` | src/bit_torrent/network/manager.rs:180-204 | An accepted connection by itself: entered, refused or put in the place of the old one |
| `ConnectionDials.MarkedIffDialled` | src/bit_torrent/network/manager.rs:301-334 | Over every run an address is marked if and only if a dial of it is under way |
| `ConnectionManager.AppendClassified` | src/bit_torrent/network/manager.rs:180-204 | Appending keeps: every appended connection is in exactly one of table, closed, gone |
| `ConnectionManager.MoveKeeps` | src/bit_torrent/network/manager.rs:284-337 | Every lock section of a dial or an accept keeps the classes and one dial per address |
| `ConnectionManager.StepKeeps` | src/bit_torrent/network/manager.rs:102-406 | So do disconnects, callbacks and shutdown |
| `ConnectionManager.RunKeeps` | src/bit_torrent/network/manager.rs:102-406 | Over every run |
| `ConnectionManager.EveryRun` | src/bit_torrent/network/manager.rs:102-406 | From an empty manager |
| `ConnectionManager.OneDialPerAddress` | src/bit_torrent/network/manager.rs:284-337 | At any moment at most one dial per address is active, and the address is marked |
| `ConnectionManager.StaleCallbackIsHarmless` | src/bit_torrent/network/manager.rs:152-178 | In every reachable state a stale callback leaves the newer connection in the table |
| `ConnectionManager.DeadConnectionStays` | src/bit_torrent/network/manager.rs:318-327 | The case occurs: accepted, closed, then appended |
| `ConnectionManager.DeadInTableIff` | src/bit_torrent/network/manager.rs:152-204 | Over every run, a connection in the table has had its callback if and only if that callback ran after the connection was made and before it was appended |
| `ConnectionManager.TableIsLive` | src/bit_torrent/network/manager.rs:152-204 | Hence a run in which no callback precedes its append keeps only live connections in the table |
| `ConnectionManager.CalledMeans` | src/bit_torrent/network/manager.rs:152-178 | The recorded callbacks are those the run contains |
| `RateLimiter.RateLimiter.Check` | src/bit_torrent/dht/auth/manager.rs:200-220 | Pruning all keys, then deciding one: the new table and the answer |
| `RateLimiter.PruningIsUnseen` | src/bit_torrent/dht/auth/manager.rs:200-220 | What is live for a key, and every answer it got, is as if it had been alone |
| `RateLimiter.KeysAreIndependent` | src/bit_torrent/dht/auth/manager.rs:200-220 | Two runs with the same requests of a key give that key the same answers, whatever the others send |
| `RateLimiter.FirstHundredOfWindow` | src/bit_torrent/dht/auth/manager.rs:206-219 | A request is accepted exactly when it is among the first 100 of its window, windows being defined from request times alone |
| `RateLimiter.SpanInvariant` | src/bit_torrent/dht/auth/manager.rs:200-220 | What bounds the accepted requests of a span that meets two windows |
| `RateLimiter.AtMost199PerSpan` | src/bit_torrent/dht/auth/manager.rs:200-220 | In any 60-second span of any run a key gets at most 199 requests through |
| `RateLimiter.BoundIsReached` | src/bit_torrent/dht/auth/manager.rs:200-220 | For every key and any start there is a run in which 199 of its requests get through within 60 seconds |
| `DhtStore.DHTStore.InsertEntry` | src/bit_torrent/dht/store.rs:35-60 | The store afterwards: known keys merge and move to the end, new ones are appended, a full store drops its front |
| `DhtStore.DHTStore.PruneExpired` | src/bit_torrent/dht/store.rs:62-65 | Exactly the entries expiring after now stay, in order |
| `DhtStore.DHTStore.Lookup` | src/bit_torrent/dht/store.rs:67-77 | The data of the key unless it is absent or expired |
| `DhtStore.PruneDropsPrefix` | src/bit_torrent/dht/store.rs:62-65 | On an ordered store pruning drops a prefix |
| `DhtStore.PruneUnseen` | src/bit_torrent/dht/store.rs:62-77 | An answer at or after a prune changes if and only if the entry expires in the very second of both; hence never strictly after |
| `DhtStore.InsertKeepsEnd` | src/bit_torrent/dht/store.rs:35-60 | Insertion keeps the store the most recent end of everything ever inserted |
| `DhtStore.PruneKeepsEnd` | src/bit_torrent/dht/store.rs:62-65 | So does pruning |
| `DhtStore.AppliedKeeps` | src/bit_torrent/dht/store.rs:35-65 | So does every operation |
| `DhtStore.StoreIsRecentEnd` | src/bit_torrent/dht/store.rs:35-65 | In every run under a nondecreasing clock |
| `DhtStore.EvictsEarliest` | src/bit_torrent/dht/store.rs:49-60 | Every reachable store has at most 10,000 entries, distinct keys, ordered expiries; an insertion loses another entry only from a full store and only one with the earliest expiry |
| `DhtStore.RecentKeysAreServed` | src/bit_torrent/dht/store.rs:35-77 | A key not expired at the last prune, with fewer than 10,000 distinct keys inserted since, is served exactly until it expires |
| `DhtStore.PruneShowsThroughMerge` | src/bit_torrent/dht/message.rs:65-74 | The case occurs for every key and any two peer sets of which the older is not part of the newer |
| `DhtStore.PruneShowsIff` | src/bit_torrent/dht/store.rs:35-77 | After every run, whether a prune shows after a later insertion: for the key inserted, as long as it lives, if and only if the prune took a peer set that is not all in the new one; for any other key only while the entry taken was still answered; making room in a full store makes no difference |
| `DhtStore.GetOther` | src/bit_torrent/dht/store.rs:35-60 | What an insertion does to the answers for other keys: nothing, but for the one a full store evicts |
| `ProofOfWork.Validate` | src/bit_torrent/dht/auth/pow.rs:191-211 | Accepts exactly when the hash as a big-endian number is below 2^(256-d), for every d up to 256 |
| `ProofOfWork.MeetsDifficulty` | bqti-enclave/src/eapp/bqti.c:95-109 | The C version accepts exactly the same hashes |
| `ProofOfWork.NonzeroByteFails` | src/bit_torrent/dht/auth/pow.rs:196-200 | A nonzero byte among the first d/8 puts the hash at or above the target |
| `ProofOfWork.MaskDecides` | src/bit_torrent/dht/auth/pow.rs:202-208 | With those zero the masked next byte decides |
| `ProofOfWork.Verify` | src/bit_torrent/dht/auth/pow.rs:214-231 | Accepts exactly a signed, correctly computed, hard enough value whose signature checks |
| `ProofOfWork.ProofBindsKey` | src/bit_torrent/dht/auth/pow.rs:214-231 | A proof accepted under two keys of one length shows two strings with one hash |
| `ProofOfWork.PreimageLayout` | src/bit_torrent/dht/auth/pow.rs:181-189 | The string hashed is the key, then challenge and nonce in four big-endian bytes each |
| `ProofOfWork.Prove` | src/bit_torrent/dht/auth/pow.rs:60-81 | Stops at the first solution; a proof it returns is accepted by the verifier for the same key, given matching sign and check; none is returned only if signing failed |
| `ProofOfWork.SearchEndsIff` | src/bit_torrent/dht/auth/pow.rs:60-81 | The search with its wrapping counter ends if and only if some 32-bit nonce solves the challenge |
| `ProofOfWork.SwappedWordIsBigEndian` | bqti-enclave/src/eapp/bqti.c:117-126 | A byte-swapped word on a little-endian machine lies in memory as the big-endian bytes |
| `ProofOfWork.HashSwapped` | bqti-enclave/src/eapp/bqti.c:117-127 | So the enclave hashes the same string as the software prover |
| `ProofOfWork.PowContext.PowCalculate` | bqti-enclave/src/eapp/bqti.c:111-138 | The enclave stops at the same nonce with the same hash |
| `Bytes.Be32RoundTrip` | src/bit_torrent/network/message.rs:63-65 | A 32-bit length is read back from its big-endian bytes |
| `Bytes.Be32OfValue` | src/bit_torrent/network/connection.rs:221-227 | Four bytes are the encoding of the length they spell |
| `Framing.FrameLayout` | src/bit_torrent/network/message.rs:54-70 | Byte by byte: the length, the kind in byte 4, the payload; a keep-alive is four zero bytes |
| `Framing.ParseFailsIff` | src/bit_torrent/network/connection.rs:220-251 | A frame is refused exactly for too few bytes, a length over 1 MiB or an unknown kind, and with which error |
| `Framing.ParseIncoming` | src/bit_torrent/network/connection.rs:220-251 | The reads from the stream give the message and leave the rest that the pure parser does, or its error |
| `Framing.FrameRoundTrip` | src/bit_torrent/network/message.rs:54-83 | A frame followed by anything is read back with that rest left if and only if its length is at most 1 MiB |
| `Framing.LongFrame` | src/bit_torrent/network/message.rs:62-70 | A longer frame, its length cut to 32 bits, never comes back as the message it was made from |
| `Framing.AcceptedFrameReencodes` | src/bit_torrent/network/connection.rs:220-251 | Every accepted frame is the encoding of the message returned |
| `Framing.StreamRoundTrip` | src/bit_torrent/network/connection.rs:220-251 | A concatenation of encoded messages is delivered as that sequence, and then the rest is parsed untouched |
| `Framing.EncodingIsInjective` | src/bit_torrent/network/message.rs:54-70 | Two message sequences with one encoding are the same |

## Left out

- QUIC, TLS, I2P sockets, local IPC, the command line and all output are not modelled.
- SHA-1, SHA-256 and Ed25519 are arbitrary functions; the proof-of-work theorem assumes that the check accepts what the signer of that key signs.
- bencode, magnet links, version 2 torrents, peer exchange, the RPC table and attestation would only add easier members.
- `find_value` is not modelled; it may push a candidate twice.
- Lookup.NodeLookup: termination needs answers that name keys of some finite set, and no other task touches the table meanwhile.
- Acknowledge.Acknowledge: no other task touches the table between its steps.
- ProofOfWork.Prove: is stated for challenges that some 32-bit nonce solves, since the search runs forever on the others (`SearchEndsIff`), and for a difficulty of at most 256.
- ProofOfWork.PowContext.PowCalculate: the same two conditions as ProofOfWork.Prove.
- Storage.MultiFileHandler.ReadPiece: failing and short positioned reads are not modelled; the same holds for positioned writes, and a read error in the hasher counts as the end of the file.
- Sizes, offsets and counters are unbounded integers; only the 32-bit cut of a frame length, 32-bit nonces and the 64-bit piece length check are modelled as machine words.
- BitField.OperationsRefineSet: needs a byte for the piece it sets; without one the code panics, which only Pipeline.Pipeline.SetPeerBit models.
- Metainfo.PieceSizeIsLength: for torrents whose number of hashes fits their size, which validation enforces.
- Pipeline: handler calls are atomic steps; no claim is made that a set bit means verified data on disk.
- Handshake: a side takes up the other's messages in the order they were sent; disconnects, timeouts and a mismatching info hash are not modelled. The outcome for both sides together is stated for runs in which openings overlap or handlers do, not for runs in which both happen; there only Handshake.LastWriteDecides holds.
- TransitionWorkers: what a worker does after it has taken its resources is only that it may stop.
- Transition: a seeding state records the directory of uploads, whatever path was asked to be seeded, as the code does; the linking of the files there and the bitfield a transition installs are not modelled.
- ConnectionManager: the refusal to connect to oneself and wrap-around of connection ids are not modelled.
- RateLimiter.RateLimiter.Check: needs a clock that has not gone back.
