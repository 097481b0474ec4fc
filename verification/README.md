# Datarail, modelled and proved

Datarail moves records from a source to a destination and promises that they arrive once, in order and intact. This
project models the parts of it where that promise is hardest to keep and proves what each of them is for. The command
`dafny verify dfyconfig.toml` checks it.

The modules, by component:

- **Erasure code** (`Gf256`, `GfPolynomial`, `GfLinear`, `Cauchy`, `Erasure`): the table-driven arithmetic of GF(256),
  which is that of polynomials modulo 0x11D, the Cauchy parity matrix, Gauss-Jordan inversion, and a systematic
  (k + m, k) code. Any k of the k + m shards give the data back.
- **Manifest tree and resumable transfer** (`Merkle`, `ChunkResume`): the tree computed level by level is the tree of
  section 2.1 of RFC 6962; a receiver that holds only the root and the count can store only true chunks, or two
  inputs with one digest can be named.
- **Effectively-once gate** (`OnceGate`, `OnceRuns`, `OnceLags`, `OnceRecovery`): watermarks, a reorder horizon that
  seals gaps, garbage collection and checkpoints, over every sequence of admissions.
- **Postgres sink** (`PostgresSink`): any number of concurrent, interrupted and repeated pipeline runs land a
  stream's records exactly once and in order.
- **Durable offsets** (`OffsetLog`, `FileOffsets`, `OffsetRuns`): an append log compacted by an atomic rename, under
  crashes at any byte and on either side of the rename.
- **Kafka record batches** (`WireCodec`, `RecordFormat`, `RecordParser`, `RecordBuilder`, `RecordConsumer`):
  variable-length integers, the v2 and legacy formats, the parser, the builder, and what a consumer of a built batch
  sees.
- **Kafka transactions** (`TxnCoordinator`, `TxnHistory`, `TxnBroker`, `TxnRuns`, `TxnCommits`, `TxnFence`,
  `TxnStaging`): the coordinator and the broker's buffers are locked separately; every call made under one lock is one
  step and the steps interleave freely. `TxnHistory` says what the coordinator answers from the calls alone.
- **Consumer groups** (`GroupCoordinator`, `GroupRuns`, `GroupAnswers`): join windows, generations, where an assignment
  comes from, and exactly when each answer is given.
- **Partition log** (`PartitionLog`, `PartitionStore`, `BrokerLogs`): segments of checksummed frames, the index over
  them, and batches that fail anywhere, in the middle of a frame included. `BrokerLogs` derives from it what the
  transaction model takes an append to do.
- **Key router** (`KeyRouter`): rendezvous hashing and what a membership change moves.

`Bits`, `Bytes`, `Collections` and `Wrappers` hold what several of them share.

## How to read the model

Code that changes state is a class or a method with loops, proved equal to a function of the old state; what the code
promises is then proved of that function, usually over every run of a state machine. A crash, a failing write, a lost
acknowledgement, the order of a hash table and the clock are parameters. Hashes and checksums are arbitrary functions,
so nothing below rests on their strength; where a promise does, the collision is returned, or, for frames written
behind torn bytes, the checksum's rejecting them is a hypothesis. Every lemma turns automatic induction off, so each
proof is the one written down.

Some results say more, or other, than the code's own comments:

- *A commit answered 0 has landed* is false as it stands, in two ways. When another session re-initialises the same
  transactional id after the first has prepared its commit, the new session's abort drops the buffers, and the first
  session's flush finds nothing, succeeds, commits the staged consumer offsets and is answered 0
  (`TxnCommits.SupersededCommitLandsNothing`). And when an earlier append, of a failed attempt or of a plain produce,
  tore in the middle of a frame, the commit appends behind the torn bytes, where no scan finds its records, and is
  answered 0 as well (`TxnCommits.TornCommitLandsNothing`). `TxnCommits.FirstCommitExact` proves that at a first flush
  these are the only ways. `TxnCommits.RetriedCommitLands` says exactly when a commit has landed after failed attempts.
- *The lag is only a retention knob* is false when a key is used again: `OnceLags.LagChangesAnAnswer` is a run of two
  inputs, and `OnceLags.LagFreeExactly` says exactly on which inputs no lag changes an answer. A key that names one
  sequence number meets the condition (`OnceLags.LagIndependent`).
- *Replaying a checkpoint reconstructs the stream exactly* is false below the watermark, where a checkpoint keeps no
  keys: `OnceRecovery.RecoveryForgetsKey` is a run, and `OnceRecovery.RecoversExactly` says exactly which further inputs
  the rebuilt gate answers as the original would.
- *A failed batch never shifts later offsets* is false when the failure left part of a frame in the file: the next
  batch is indexed where a rescan does not find it (`PartitionStore.TornBatchUnindexed`).
  `PartitionStore.TornThenBatch` and `PartitionStore.NextBatchExact` say exactly when it is found. A restart keeps what
  a scan finds and makes the log sound again (`PartitionStore.ReopenHeals`); a batch acknowledged behind torn bytes is
  not found, so the restart drops it.
- A parked SyncGroup compares generations, which wrap to 1 after the largest 32-bit number. The theorem about its
  answer counts join windows instead and so needs no bound; `GroupRuns.GenerationIsEpoch` says when the two agree.

## Model

| member | source | states |
|---|---|---|
| Gf256.BuildTables | crates/datarail-erasure/src/lib.rs:20-37 | the table loop fills EXP and LOG so that they are inverse on all 255 non-zero bytes, and leaves the two unused entries 0 |
| Gf256.ExpCovers | crates/datarail-erasure/src/lib.rs:20-37 | the powers of 2 run through every non-zero byte and return to 1 at the 255th |
| Gf256.OrderIs255 | crates/datarail-erasure/src/lib.rs:20-37 | no earlier power is 1 |
| Gf256.ExpInjective | crates/datarail-erasure/src/lib.rs:20-37 | the first 255 powers are distinct |
| Gf256.ExpLog | crates/datarail-erasure/src/lib.rs:20-39 | EXP of LOG is the identity on non-zero bytes |
| Gf256.LogExp | crates/datarail-erasure/src/lib.rs:20-39 | LOG of EXP is the identity below 255 |
| Gf256.MulIsDoublings | crates/datarail-erasure/src/lib.rs:43-49 | multiplying through the tables is doubling LOG(a) times modulo the polynomial, for every a but 0 |
| Gf256.MulCommutative | crates/datarail-erasure/src/lib.rs:43-49 | multiplication is commutative |
| Gf256.MulAssociative | crates/datarail-erasure/src/lib.rs:43-49 | multiplication is associative |
| Gf256.MulAdd | crates/datarail-erasure/src/lib.rs:43-49 | multiplication distributes over XOR, on both sides |
| Gf256.MulOne | crates/datarail-erasure/src/lib.rs:43-49 | 1 is its unit |
| Gf256.MulZero | crates/datarail-erasure/src/lib.rs:43-49 | a product is 0 only when a factor is |
| Gf256.AddLaws | crates/datarail-erasure/src/lib.rs:43-49 | XOR is a group in which every element is its own inverse |
| Gf256.MulInv | crates/datarail-erasure/src/lib.rs:54-57 | gf_inv gives the inverse of every non-zero byte |
| GfPolynomial.MulIsPolynomial | crates/datarail-erasure/src/lib.rs:20-49 | multiplying through the tables is multiplying polynomials over GF(2) and taking the remainder modulo x^8 + x^4 + x^3 + x^2 + 1 |
| Cauchy.PointsDiffer | crates/datarail-erasure/src/lib.rs:104-121 | the 255 evaluation points are distinct, so no matrix entry divides by zero |
| Cauchy.CauchyEntry | crates/datarail-erasure/src/lib.rs:104-121 | every entry of the parity matrix is the inverse of the sum of its row's point i and its column's point m + j |
| Cauchy.CauchyKernel | crates/datarail-erasure/src/lib.rs:104-121 | r parity rows together annihilate no vector with r or fewer non-zero coordinates but zero: every square submatrix of the parity matrix is non-singular |
| Erasure.New | crates/datarail-erasure/src/lib.rs:104-121 | refuses exactly k < 1, m < 1 and k + m > 255 |
| Erasure.Encode | crates/datarail-erasure/src/lib.rs:150-170 | the m parity shards are the code shards k .. k + m of the data; a wrong count and ragged shards are the two errors |
| Erasure.Combine | crates/datarail-erasure/src/lib.rs:150-170 | the byte loop computes the linear form at every position |
| Erasure.DataShardIsData | crates/datarail-erasure/src/lib.rs:174-182 | the code is systematic: the first k code shards are the data |
| Erasure.ReducingSwap | crates/datarail-erasure/src/lib.rs:227-263 | a row swap keeps "right half times the matrix is the left half" and the kernel |
| Erasure.ReducingScale | crates/datarail-erasure/src/lib.rs:227-263 | scaling a row keeps both |
| Erasure.ReducingEliminate | crates/datarail-erasure/src/lib.rs:227-263 | eliminating a row keeps both |
| Erasure.FindPivot | crates/datarail-erasure/src/lib.rs:227-263 | finds the first row with a non-zero entry in the column, or there is none |
| Erasure.ReduceColumn | crates/datarail-erasure/src/lib.rs:227-263 | one more column becomes a unit column and the invariant is kept |
| Erasure.NoPivot | crates/datarail-erasure/src/lib.rs:227-263 | a column without pivot exhibits a non-zero vector the matrix sends to zero |
| Erasure.Invert | crates/datarail-erasure/src/lib.rs:227-263 | fails exactly on singular matrices; what it returns is an inverse on both sides |
| Erasure.InvertibleNotSingular | crates/datarail-erasure/src/lib.rs:227-263 | a matrix with an inverse is not singular, so the two outcomes exclude each other |
| Erasure.ChosenNonSingular | crates/datarail-erasure/src/lib.rs:174-223 | the rows of any k distinct code shards are independent: the code is MDS |
| Erasure.Validate | crates/datarail-erasure/src/lib.rs:190-223 | the error is that of the first malformed survivor |
| Erasure.Reconstruct | crates/datarail-erasure/src/lib.rs:190-223 | on well-formed survivors it succeeds, and returns the only data they are code shards of; each error has its cause |
| Erasure.RoundTrip | crates/datarail-erasure/src/lib.rs:104-263 | encode, keep any k or more distinct shards in any order, reconstruct: the data comes back, for every k, m >= 1 with k + m <= 255 |
| Merkle.NodeInputInjective | crates/datarail-manifest/src/lib.rs:33-39 | a node's hash input determines both children |
| Merkle.ReduceLevel | crates/datarail-manifest/src/lib.rs:263-276 | the pairing loop computes the level above, promoting an odd last node |
| Merkle.ComputeRoot | crates/datarail-manifest/src/lib.rs:279-288 | the level loop computes the root; no leaves hash the empty input |
| Merkle.RootIsTreeHash | crates/datarail-manifest/src/lib.rs:263-288 | for every leaf list the root is that of the recursive split at the largest power of two (RFC 6962 section 2.1) |
| Merkle.BuildProof | crates/datarail-manifest/src/lib.rs:189-219 | the proof loop collects the sibling at every level; an index past the end is the error |
| Merkle.ProofVerifies | crates/datarail-manifest/src/lib.rs:189-219 | every inclusion proof recomputes the root |
| Merkle.PathReachesRoot | crates/datarail-manifest/src/lib.rs:292-302 | folding a leaf's own path gives the root of its level |
| Merkle.FollowPath | crates/datarail-manifest/src/lib.rs:292-311 | any path that recomputes the root, honest or not, either descends the honest tree to a leaf or meets two different inputs with one digest |
| ChunkResume.LeafInputInjective | crates/datarail-manifest/src/lib.rs:525-532 | a chunk's leaf input determines its index, the number of chunks, and its bytes |
| ChunkResume.LeafInputIsNoNode | crates/datarail-manifest/src/lib.rs:525-532 | a leaf input is never a node input |
| ChunkResume.SplitAndCommit | crates/datarail-manifest/src/lib.rs:587-610 | the pieces, the root over their leaves, and a verifying proof for each; every piece but the last has the chunk size, the last one at most that and at least one byte, and an empty payload is one empty piece |
| ChunkResume.ChunksConcat | crates/datarail-manifest/src/lib.rs:587-610 | the chunks in order are the payload, the empty one included |
| ChunkResume.ChunksSized | crates/datarail-manifest/src/lib.rs:587-610 | every chunk but the last has exactly the chunk size (at least 1), the last is shorter or equal but not empty |
| ChunkResume.ChunkReceiver.constructor | crates/datarail-manifest/src/lib.rs:615-634 | every slot starts empty |
| ChunkResume.ChunkReceiver.Accept | crates/datarail-manifest/src/lib.rs:637-650 | stores the piece exactly when every check passes, and names the first that fails |
| ChunkResume.ChunkReceiver.Missing | crates/datarail-manifest/src/lib.rs:660-662 | the empty slots, all of them, ascending |
| ChunkResume.ChunkReceiver.Reassemble | crates/datarail-manifest/src/lib.rs:674-683 | the stored chunks in order, exactly when none is missing |
| ChunkResume.AcceptedIsTrue | crates/datarail-manifest/src/lib.rs:637-650 | a piece accepted by a receiver that holds the root and any count is the true chunk at its index and the count is true, or a collision between the sender's inputs and this offer's is returned |
| ChunkResume.SlotsAreTrue | crates/datarail-manifest/src/lib.rs:637-650 | after any offers in any order, every filled slot is the true chunk unless some offer was such a forgery |
| ChunkResume.ReassemblesPayload | crates/datarail-manifest/src/lib.rs:587-683 | a receiver that has become complete reassembles exactly the payload |
| ChunkResume.HonestPieceAccepted | crates/datarail-manifest/src/lib.rs:637-650 | the sender's own pieces always pass |
| ChunkResume.ResumeCompletes | crates/datarail-manifest/src/lib.rs:637-683 | a chunk once offered honestly is in its slot, unchanged, whatever else is offered before and after without a forgery |
| OnceGate.Once.constructor | crates/datarail-once/src/lib.rs:117-135 | a new gate knows no stream |
| OnceGate.Once.Admit | crates/datarail-once/src/lib.rs:145-207 | the decision and the whole new state of the gate; only the named stream changes |
| OnceGate.Once.AdmitTo | crates/datarail-once/src/lib.rs:149-204 | reject, record, advance and collect for one stream |
| OnceGate.Once.DrainRun | crates/datarail-once/src/lib.rs:171-194 | the drain loop removes exactly the contiguous run and ends past it |
| OnceGate.Once.SealGaps | crates/datarail-once/src/lib.rs:171-194 | the sealing loop terminates and brings the parked set within the horizon |
| OnceGate.Once.CollectBelow | crates/datarail-once/src/lib.rs:196-204 | the collection loop |
| OnceGate.DrainFacts | crates/datarail-once/src/lib.rs:171-194 | what draining drops is exactly the run it stepped over |
| OnceGate.SealFacts | crates/datarail-once/src/lib.rs:171-194 | sealing forgets no parked number without passing it |
| OnceGate.RoomShrinks | crates/datarail-once/src/lib.rs:171-194 | each sealing step comes closer to the largest parked number, so the loop ends |
| OnceGate.CollectIndexed | crates/datarail-once/src/lib.rs:196-204 | collection drops only entries below the new floor, and their keys with them |
| OnceGate.AdmitSound | crates/datarail-once/src/lib.rs:145-207 | every admission keeps the index, the parked set and the watermark consistent |
| OnceGate.Once.RestoreWatermark | crates/datarail-once/src/lib.rs:256-269 | the restored stream's whole state |
| OnceGate.Once.Checkpoints | crates/datarail-once/src/lib.rs:237-251 | one checkpoint per stream: its watermark and exactly its entries at or above it, ascending |
| OnceRuns.AtMostOnce | crates/datarail-once/src/lib.rs:145-207 | in every run no (stream, number) is delivered twice, whatever the keys, the lag or the sealing |
| OnceRuns.RunAccounts | crates/datarail-once/src/lib.rs:145-207 | in every run the delivered numbers at or above the watermark are exactly the parked ones |
| OnceRuns.DeliveredExactly | crates/datarail-once/src/lib.rs:145-207 | when no gap was sealed, the delivered numbers are exactly those below the watermark and the parked ones |
| OnceRuns.FewParkedSealNothing | crates/datarail-once/src/lib.rs:171-194 | a run in which fewer than 2^20 numbers are parked at any time seals no gap |
| OnceRuns.HorizonSeals | crates/datarail-once/src/lib.rs:171-194 | with 2^20 numbers parked, one more out of order seals the lowest gap |
| OnceRuns.EveryOfferDelivered | crates/datarail-once/src/lib.rs:145-207 | when a key names one number and never 2^20 are parked, exactly the numbers offered are delivered, in any order and repetition |
| OnceRuns.WatermarkBounded | crates/datarail-once/src/lib.rs:145-207 | the watermark never passes a bound on the numbers admitted, so the counters do not overflow |
| OnceLags.LagFreeExactly | crates/datarail-once/src/lib.rs:145-207 | every two lags answer every input alike if and only if no input that is neither below the watermark nor parked, and whose key is no parked number's, carries a key delivered on its stream before |
| OnceLags.ReuseDiffers | crates/datarail-once/src/lib.rs:149-204 | the first such input is delivered under lag 0 and refused under a lag above every number |
| OnceLags.EagerOnlyParked | crates/datarail-once/src/lib.rs:196-204 | under lag 0 the index is exactly the parked numbers, in every run |
| OnceLags.KeepsEveryKey | crates/datarail-once/src/lib.rs:196-204 | under a lag above every number every delivered key is still known, in every run |
| OnceLags.KeptExactly | crates/datarail-once/src/lib.rs:196-204 | in every run the index is exactly the delivered numbers that the watermark has not passed by more than the lag |
| OnceLags.LagIndependent | crates/datarail-once/src/lib.rs:75-80 | when a key names one number, gates with any two lags answer alike on every run |
| OnceLags.LagChangesAnAnswer | crates/datarail-once/src/lib.rs:149-204 | a key used for two numbers is answered differently under lags 0 and 1 |
| OnceRuns.RecoveredAnswersAlike | crates/datarail-once/src/lib.rs:237-269 | when a key names one number, a gate rebuilt from checkpoints, under any lag, answers every further input as the original would |
| OnceRuns.GateRecovers | crates/datarail-once/src/lib.rs:237-269 | restoring all of a gate's checkpoints rebuilds every stream: its watermark, its parked set, and the keys of exactly the numbers from the watermark on |
| OnceRecovery.RecoversExactly | crates/datarail-once/src/lib.rs:233-269 | under the same lag the rebuilt gate answers all further inputs as the original would if and only if none that gets past the watermark and the parked numbers carries a key the original still knows from a number below the checkpointed watermark |
| OnceRecovery.DroppedDiffers | crates/datarail-once/src/lib.rs:145-207 | the first such input is refused by the original and delivered by the rebuilt gate |
| OnceRecovery.TrailsStep | crates/datarail-once/src/lib.rs:145-207 | while the two decide alike, the rebuilt stream stays the original without the keys from before the checkpoint, collection included |
| OnceRecovery.RecoveryForgetsKey | crates/datarail-once/src/lib.rs:233-251 | after number 0 under lag 1, its key on number 1 is refused by the original and delivered by the gate rebuilt from its checkpoint |
| OnceRuns.StreamRecovers | crates/datarail-once/src/lib.rs:237-269 | restoring a fresh stream's watermark and replaying its entries rebuilds its watermark, its parked set and the parked keys, and no other key |
| PostgresSink.Postgres.TxnBody | crates/datarail-connectors/src/postgres_sink.rs:165-200 | in the working copy: nothing if the watermark is already reached, else the records past it and the new watermark |
| PostgresSink.Postgres.CommitAt | crates/datarail-connectors/src/postgres_sink.rs:353-372 | succeeds exactly when nothing interferes, the watermark fits and no record holds a zero byte; then, and when only the acknowledgement is lost, the watermark is reached; refused or failed at any statement, nothing is committed |
| PostgresSink.Pipeline.ShipBatch | crates/datarail-cli/src/main.rs:788-892 | what the destination has taken is committed at the run's cumulative count; an empty, duplicate or dead-lettered batch counts nothing; a failure on the way commits nothing, and after a failed acknowledgement what was taken waits for the next batch |
| PostgresSink.LandedExact | crates/datarail-connectors/src/postgres_sink.rs:165-200 | landing any slice that starts at or below the watermark repeats and skips nothing, and never lowers the watermark |
| PostgresSink.AlwaysExactlyOnce | crates/datarail-cli/src/main.rs:1463-1488 | in every reachable world, with runs concurrent, restarted, cut into any batches and stopped anywhere, a stream's rows are its first `watermark` source records, each once and in order |
| PostgresSink.ShippedHasLanded | crates/datarail-cli/src/main.rs:1463-1488 | what a run has shipped successfully is among the rows, so a finished run has landed its source |
| PostgresSink.FineShipLands | crates/datarail-connectors/src/postgres_sink.rs:353-372 | in every reachable world, a batch that nothing happens to and the sink accepts advances its run by the batch, and the watermark reaches the run's count |
| PostgresSink.UndisturbedRunLands | crates/datarail-cli/src/main.rs:1463-1488 | a run that is not disturbed, whatever other runs do meanwhile, ships all its batches and has them among the rows; once it has shipped its source the rows are the source |
| OffsetLog.ReplayFile | crates/datarail-offsets/src/lib.rs:210-224 | the replay loop: the map, the record count and the intact length |
| OffsetLog.ParseEncoded | crates/datarail-offsets/src/lib.rs:230-314 | a record parses back whatever follows it |
| OffsetLog.ParseTorn | crates/datarail-offsets/src/lib.rs:297-314 | a record cut at any byte does not parse |
| OffsetLog.DamageDetected | crates/datarail-offsets/src/lib.rs:297-314 | a record of the same length field with other bytes does not parse, or its body has the original's checksum; a wrong checksum never parses |
| OffsetLog.ReplayPuts | crates/datarail-offsets/src/lib.rs:210-224 | a log of records cut anywhere replays to a prefix of them, and to all when uncut |
| OffsetLog.ReplayTruncated | crates/datarail-offsets/src/lib.rs:129-155 | cutting any file at its intact length loses nothing it replayed to |
| OffsetLog.ListMap | crates/datarail-offsets/src/lib.rs:261-293 | a rewrite lists every group once with its offset |
| FileOffsets.OffsetFile.Open | crates/datarail-offsets/src/lib.rs:129-155 | replays the log, cuts a torn tail, and is in service |
| FileOffsets.OffsetFile.EncodePuts | crates/datarail-offsets/src/lib.rs:230-240 | fails exactly when some group name does not fit its length field |
| FileOffsets.OffsetFile.CommitMany | crates/datarail-offsets/src/lib.rs:174-186 | the new map, the new disk, and every disk state on the way; a name too long fails with nothing written |
| FileOffsets.OffsetFile.RewriteMap | crates/datarail-offsets/src/lib.rs:261-293 | temporary file, sync, rename, directory sync: the disk states and the result; a name that does not fit fails before the rename |
| FileOffsets.OffsetFile.RestoreMany | crates/datarail-offsets/src/lib.rs:192-205 | captured values are put back by one atomic replacement; it fails exactly when a restored name does not fit the format, and then the log and the map are as they were |
| FileOffsets.RestoreUndoes | crates/datarail-offsets/src/lib.rs:159-205 | restoring a snapshot undoes any later commits to its groups |
| FileOffsets.CommittedLive | crates/datarail-offsets/src/lib.rs:245-251 | after a commit memory and disk agree; the log holds one record for each group if it had at least 1024 and more than 4 for each, else all that were appended, so it stays under 1024 or at 4 for each group |
| FileOffsets.CommitRecovers | crates/datarail-offsets/src/lib.rs:174-293 | whatever state of a commit or its compaction a crash hits, the log recovers the old map and a prefix of the puts |
| FileOffsets.RewriteRecovers | crates/datarail-offsets/src/lib.rs:261-293 | a crash on either side of the rename recovers the old map or the new one, never a mixture |
| FileOffsets.OpenedLive | crates/datarail-offsets/src/lib.rs:129-155 | reopening any file makes memory and disk agree |
| FileOffsets.RepairRecovers | crates/datarail-offsets/src/lib.rs:129-155 | a crash during the repair recovers the same |
| OffsetRuns.ReopenRecoversAcknowledged | crates/datarail-offsets/src/lib.rs:129-325 | over every run of commits, replacements, crashes and reopenings, reopening recovers the map after a prefix of the issued changes that has every acknowledged one |
| OffsetRuns.ServesHistory | crates/datarail-offsets/src/lib.rs:129-325 | while up, the store serves exactly the history, and its log replays to it |
| OffsetRuns.AcknowledgedStays | crates/datarail-offsets/src/lib.rs:129-325 | an acknowledged change stays in every later history, at its place |
| WireCodec.Reader.Take | crates/datarail-kafka/src/codec.rs:42-53 | the next n bytes, or an end-of-input error with the cursor where it was |
| WireCodec.Reader.Int | crates/datarail-kafka/src/codec.rs:99-125 | a big-endian two's complement number |
| WireCodec.Reader.Groups | crates/datarail-kafka/src/codec.rs:135-145 | the continuation loop as it ORs the groups in, bits shifted past 64 lost, too many groups refused; the result is below 2^64 |
| WireCodec.Reader.TakeVarint | crates/datarail-kafka/src/codec.rs:153-166 | five groups at most, and below 2^32 |
| WireCodec.Reader.TakeVarlong | crates/datarail-kafka/src/codec.rs:172-176 | ten groups at most |
| WireCodec.Writer.Uvarint | crates/datarail-kafka/src/codec.rs:366-380 | the group loop writes the LEB128 form |
| WireCodec.IntReads | crates/datarail-kafka/src/codec.rs:99-125 | every w-byte signed number reads back, wherever it stands |
| WireCodec.VarintReads | crates/datarail-kafka/src/codec.rs:162-166 | every 32-bit number written zig-zag as a varint reads back |
| WireCodec.VarlongReads | crates/datarail-kafka/src/codec.rs:172-176 | every 64-bit number written zig-zag as a varlong reads back |
| WireCodec.BeDigits | crates/datarail-kafka/src/codec.rs:99-125 | byte i is the i-th base-256 digit, most significant first |
| WireCodec.LebDigits | crates/datarail-kafka/src/codec.rs:366-380 | byte i is the i-th base-128 digit, least significant first, with the high bit on all but the last, which is not 0 in a longer form |
| WireCodec.OverlongRefused | crates/datarail-kafka/src/codec.rs:135-176 | five, for a varlong ten, continuation bytes are refused as overlong, fewer at the end of input as an early end |
| WireCodec.GroupsDisjoint | crates/datarail-kafka/src/codec.rs:137-139 | OR-ing a group into the groups before it is adding it, up to the tenth |
| WireCodec.ZigZagIsWord | crates/datarail-kafka/src/codec.rs:383-392 | shift and exclusive or of every 32-bit and 64-bit number is the zig-zag numbering, non-negative to even and negative to odd |
| WireCodec.UnZigZagIsWord | crates/datarail-kafka/src/codec.rs:162-176 | the reader's shift and exclusive or inverts that numbering on every word |
| WireCodec.ZigZagWordRoundTrip | crates/datarail-kafka/src/codec.rs:162-176 | the two shift-and-xor codes undo each other on every 32-bit and 64-bit number |
| WireCodec.Writer.PutVarint | crates/datarail-kafka/src/codec.rs:383-386 | writes the zig-zag number of every 32-bit number in LEB128 form |
| WireCodec.Writer.PutVarlong | crates/datarail-kafka/src/codec.rs:389-392 | the same for 64 bits |
| RecordParser.TakeRecords | crates/datarail-kafka/src/produce.rs:309-327 | the record loop: the values that are not null, in order |
| RecordParser.TakeHeaders | crates/datarail-kafka/src/produce.rs:319-324 | the header loop |
| RecordParser.TakeV2 | crates/datarail-kafka/src/produce.rs:235-305 | checksum over the covered bytes first, then the fields, the records and the producer coordinate |
| RecordParser.TakeLegacy | crates/datarail-kafka/src/produce.rs:337-357 | one magic 0 or 1 message |
| RecordParser.TakeEntry | crates/datarail-kafka/src/produce.rs:194-219 | dispatch on the magic byte; an unknown one is refused |
| RecordParser.ParseBlob | crates/datarail-kafka/src/produce.rs:189-224 | the blob loop |
| RecordParser.ParsesEverything | crates/datarail-kafka/src/produce.rs:189-357 | any sequence of uncompressed v2 batches and legacy messages parses to the end: every non-null value in order, and a producer coordinate exactly when the blob is one idempotent v2 batch |
| RecordParser.CorruptRejected | crates/datarail-kafka/src/produce.rs:241-260 | a batch whose checksum disagrees, whatever its bytes and whatever stands before and after, rejects the whole blob as corrupt |
| RecordParser.CompressedRejected | crates/datarail-kafka/src/produce.rs:262-296 | a compressed batch anywhere in a blob rejects the blob |
| RecordParser.UnknownMagicRejected | crates/datarail-kafka/src/produce.rs:194-219 | so does an entry whose magic is not 0, 1 or 2 |
| RecordParser.CompressedMessageRejected | crates/datarail-kafka/src/produce.rs:337-357 | so does a compressed legacy message |
| RecordBuilder.Build | crates/datarail-kafka/src/produce.rs:134-178 | the built bytes are the wire form of a non-idempotent, uncompressed batch of the values; `RecordConsumer.ConsumerSees` says what is read from them |
| RecordBuilder.ParseInvertsBuild | crates/datarail-kafka/src/produce.rs:134-224 | any run of built batches parses to all their values in order and no producer coordinate |
| RecordConsumer.BatchReadsBack | crates/datarail-kafka/src/produce.rs:134-178 | a consumer that checks every length and the checksum reads from any v2 batch each header field and each record's offset, time, key and value |
| RecordConsumer.ConsumerSees | crates/datarail-kafka/src/produce.rs:131-178 | from a built batch it reads value i at base offset + i with no key, the last offset as that of the last value, and no producer identity |
| TxnCoordinator.Coordinator.constructor | crates/datarail-kafka/src/txn.rs:121-126 | an empty coordinator |
| TxnCoordinator.Coordinator.InitProducerId | crates/datarail-kafka/src/txn.rs:135-158 | a bumped epoch, or a fresh producer id when there is none or the epoch is spent; the old transaction and its claims are gone |
| TxnCoordinator.Coordinator.CheckProduce | crates/datarail-kafka/src/txn.rs:166-181 | accepts only the current pair, in an open transaction, on an enrolled partition; `TxnHistory.CheckExact` says from the calls when that is |
| TxnCoordinator.Coordinator.AddPartitionsToTxn | crates/datarail-kafka/src/txn.rs:193-224 | enrolls and claims all partitions, or none when one is claimed by another |
| TxnCoordinator.Coordinator.AddOffsetsToTxn | crates/datarail-kafka/src/txn.rs:227-245 | opens the transaction and names its group, if the pair is current |
| TxnCoordinator.Coordinator.StageTxnOffsets | crates/datarail-kafka/src/txn.rs:248-265 | stages offsets, if the pair is current |
| TxnCoordinator.Coordinator.PrepareEnd | crates/datarail-kafka/src/txn.rs:271-320 | changes nothing; names the partitions, and the staged offsets for a commit only |
| TxnCoordinator.Coordinator.FinishTxn | crates/datarail-kafka/src/txn.rs:325-333 | resets and releases, unless the pair is no longer current |
| TxnCoordinator.ClaimsAlwaysAgree | crates/datarail-kafka/src/txn.rs:95-333 | after any calls the claim table is exactly the enrolled partitions |
| TxnCoordinator.OneTransactionPerPartition | crates/datarail-kafka/src/txn.rs:95-333 | after any calls no partition is in two transactions |
| TxnCoordinator.NeverIssuedTwice | crates/datarail-kafka/src/txn.rs:135-158 | over any calls no (producer id, epoch) is answered twice, the epoch's overflow included |
| TxnCoordinator.StaleRefused | crates/datarail-kafka/src/txn.rs:166-333 | a pair that is not current is refused by every call, and changes nothing |
| TxnCoordinator.FencedForever | crates/datarail-kafka/src/txn.rs:135-158 | a superseded pair is never current again, whatever is called |
| TxnHistory.PartsAreHistory | crates/datarail-kafka/src/txn.rs:135-333 | after any calls a transaction's partitions are exactly those its holder enrolled since it last began or ended |
| TxnHistory.OpenIsHistory | crates/datarail-kafka/src/txn.rs:135-333 | it is open exactly when its holder enrolled partitions or a group since then |
| TxnHistory.StagedIsHistory | crates/datarail-kafka/src/txn.rs:248-265 | its staged offsets are exactly those its holder staged since then, in order |
| TxnHistory.GroupIsHistory | crates/datarail-kafka/src/txn.rs:227-265 | its group is the one its holder named last since then |
| TxnHistory.CheckExact | crates/datarail-kafka/src/txn.rs:166-181 | after any calls a produce is accepted if and only if the pair is current and its holder enrolled the partition in this transaction; 47 exactly when the pair is not current, else 48 |
| TxnHistory.CodesExact | crates/datarail-kafka/src/txn.rs:193-320 | AddPartitionsToTxn and EndTxn succeed if and only if the pair is current and no partition is another's, respectively the transaction was opened; each refusal has its code |
| TxnHistory.InitExact | crates/datarail-kafka/src/txn.rs:135-158 | InitProducerId answers the next epoch below 32767 and else a fresh id with epoch 0, ends the open transaction, fences the old pair, and leaves every other id alone |
| TxnBroker.Broker.ProduceInto | crates/datarail-cli/src/main.rs:1109-1128 | the partition after a batch of any possible fate: the records found, whether the next frame would be lost behind torn bytes, and the index length, whose old value a success answers |
| TxnBroker.Broker.BufferTxn | crates/datarail-cli/src/main.rs:1232-1260 | buffers under (producer id, epoch, partition) and answers index length plus buffer length; refused, it changes nothing |
| TxnBroker.Broker.CommitTxn | crates/datarail-cli/src/main.rs:1262-1282 | in any table order: on success every partition has taken exactly its buffer, whole unless its file was torn, and this epoch's and older buffers are gone; on failure each partition has taken it and has no buffer, or has some or nothing of it and the buffer |
| TxnBroker.Broker.AbortTxn | crates/datarail-cli/src/main.rs:1284-1289 | drops this producer's buffers up to the epoch, and nothing else |
| BrokerLogs.AppendDurableRefines | crates/datarail-cli/src/kafka_store.rs:108-135 | whatever append_durable makes of a batch, on any disk the writer can leave behind, is an append of a fate the broker model allows: the same records found, the same index length, torn exactly when the disk is not ready |
| TxnRuns.StepKeepsInv | crates/datarail-kafka/src/serve.rs:585-936 | every step of every request keeps: buffers hold only the current transaction's records, logs and committed consumer offsets only attempted commits', and an unfinished transaction not superseded still has what it accepted |
| TxnRuns.RunInv | crates/datarail-kafka/src/serve.rs:585-936 | every reachable world keeps it |
| TxnRuns.FlushKeepsAccepted | crates/datarail-cli/src/main.rs:1262-1289 | a flush drops an older incarnation's buffers only after that one was superseded |
| TxnFence.StepKeepsFence | crates/datarail-kafka/src/serve.rs:585-936 | every step of every request keeps: what is buffered, or checked and about to be, is for a partition its transaction has enrolled |
| TxnFence.BuffersEnrolled | crates/datarail-kafka/src/serve.rs:585-836 | in every run a current transaction has a buffer only for partitions it has enrolled, although check and buffering are separate steps |
| TxnFence.OneWriterPerPartition | crates/datarail-kafka/src/serve.rs:585-836 | in every run at most one current transaction has records buffered for a partition |
| TxnStaging.StepKeepsStaged | crates/datarail-kafka/src/serve.rs:839-936 | every step keeps: a commit under way, while its pair is current, carries all the staged offsets |
| TxnStaging.AnsweredSettlesAll | crates/datarail-kafka/src/serve.rs:379-395 | in every run a commit about to be answered, its pair current, has committed every offset its holder staged, for the group it named |
| TxnCommits.OnlyThroughOwnCommit | crates/datarail-kafka/src/serve.rs:839-936 | a transactional record is in a log only if its own transaction's commit was prepared while its own pair was current, even with a re-init between check and buffer |
| TxnCommits.AbortedAddsNothing | crates/datarail-kafka/src/serve.rs:839-876 | a transaction whose EndTxn attempts are all aborts adds nothing to any log |
| TxnCommits.FirstCommitExact | crates/datarail-kafka/src/serve.rs:839-876 | at a transaction's first flush, the answered commit has put all it accepted on a partition into the log as one run if and only if no later incarnation had completed its InitProducerId and the partition's file did not end in torn bytes |
| TxnCommits.OffsetsOnlyThroughOwnCommit | crates/datarail-kafka/src/serve.rs:379-395 | a consumer offset is committed only with its own transaction's commit, prepared while its pair was current and with that offset staged |
| TxnCommits.RetriedCommitLands | crates/datarail-kafka/src/serve.rs:839-876 | after any number of failed attempts, interleaved with anything: superseded, the answered commit's buffer is in the log as one contiguous run in order if and only if it was before; else the flush m that finished with it appended all but the lost first records, some being lost if and only if the file was torn then, and the run is there if and only if it was before m or the log then ended in just the lost records; each appended record stands where LandsWherePromised says, for good |
| TxnCommits.LandsExactly | crates/datarail-cli/src/main.rs:1262-1282 | from the flush that finished with the buffer on, whatever else happens, the log holds the run if and only if it held it then or ended in the records that flush lost |
| TxnCommits.AppendedLog | crates/datarail-cli/src/main.rs:1262-1282 | a commit flush that is done with a partition appends its buffer but for a first part, which is empty if and only if the file was not torn |
| TxnCommits.LandsWherePromised | crates/datarail-cli/src/main.rs:1232-1282 | at every commit flush that is done with a partition, failed attempts included, each record not lost lands past the offset buffer_txn answered by what the log gained in between, less the records lost and less what the index had counted too many; with index and log in step and no torn bytes, at that offset if and only if the log gained nothing |
| TxnCommits.SupersededCommitLandsNothing | crates/datarail-kafka/src/serve.rs:585-594 | a run of twelve steps in which a commit is answered, its staged offset is committed and every log stays empty |
| TxnCommits.TornCommitLandsNothing | crates/datarail-cli/src/main.rs:1262-1282 | a run of twelve steps in which an attempt tears, the retry is answered unsuperseded, its staged offset is committed and every log stays empty |
| GroupCoordinator.FirstId | crates/datarail-kafka/src/coordinator.rs:95-101 | the least member id in byte order |
| GroupCoordinator.Coordinator.constructor | crates/datarail-kafka/src/coordinator.rs:161-168 | no groups yet |
| GroupCoordinator.Coordinator.ExpireStale | crates/datarail-kafka/src/coordinator.rs:86-104 | exactly the silent members go; an empty group is reset, a lost leader replaced |
| GroupCoordinator.Coordinator.RegisterMember | crates/datarail-kafka/src/coordinator.rs:180-229 | the member is in, without assignment, and a window is open: the open one, or a new generation in which nobody has an assignment |
| GroupCoordinator.Coordinator.ChooseProtocol | crates/datarail-kafka/src/coordinator.rs:108-120 | the first member's first protocol that all support, else its first |
| GroupCoordinator.Coordinator.TryClose | crates/datarail-kafka/src/coordinator.rs:261-294 | closes a due window and says whether the generation is settled |
| GroupCoordinator.Coordinator.AnswerJoin | crates/datarail-kafka/src/coordinator.rs:296-316 | generation, protocol and leader as settled; the leader alone gets every member's subscription |
| GroupCoordinator.Coordinator.SubmitSync | crates/datarail-kafka/src/coordinator.rs:327-366 | only the leader's non-empty assignments are taken, for members only, the last for each counting |
| GroupCoordinator.Coordinator.PollSync | crates/datarail-kafka/src/coordinator.rs:369-413 | what a parked SyncGroup answers, that it gives up at its deadline, or that it stays parked |
| GroupCoordinator.Coordinator.Heartbeat | crates/datarail-kafka/src/coordinator.rs:424-445 | refreshes a living member and answers by generation and phase |
| GroupCoordinator.Coordinator.LeaveGroup | crates/datarail-kafka/src/coordinator.rs:448-474 | the member goes; the rest start a new generation without assignments |
| GroupRuns.AfterInv | crates/datarail-kafka/src/coordinator.rs:86-474 | after any calls every member's assignment is exactly the last one the leader of the time sent for it since the last window opened, or none |
| GroupRuns.SyncAnswersLeader | crates/datarail-kafka/src/coordinator.rs:320-420 | a SyncGroup answered NONE at generation n returns the leader's last bytes for this member in the current epoch, whose generation is n, or nothing when it was named in none |
| GroupRuns.FollowerChangesNothing | crates/datarail-kafka/src/coordinator.rs:347-359 | what a member that is not the leader submits leaves the group as it is |
| GroupRuns.GenerationIsEpoch | crates/datarail-kafka/src/coordinator.rs:220-227 | until it wraps, the generation is the number of windows opened |
| GroupAnswers.ExpireExact | crates/datarail-kafka/src/coordinator.rs:86-104 | exactly the members whose last heartbeat is less than a session timeout old stay, unchanged; a group left empty is Empty, and a leader that went is replaced by the first member |
| GroupAnswers.ProtocolExact | crates/datarail-kafka/src/coordinator.rs:108-120 | when some protocol of the first member is everyone's, the earliest such is chosen; when none is, its first |
| GroupAnswers.JoinExact | crates/datarail-kafka/src/coordinator.rs:180-229 | a join puts in just the one member, fresh, with its timeout and protocols; it enters the open window unchanged, or opens one with the next generation and nobody assigned |
| GroupAnswers.WindowCloses | crates/datarail-kafka/src/coordinator.rs:261-294 | a window closes at its deadline and not before; then the first member leads and the protocol is chosen |
| GroupAnswers.SubmitServesAll | crates/datarail-kafka/src/coordinator.rs:327-366 | after the leader's assignments every member's SyncGroup is answered 0: with the bytes sent for it, else with what it had |
| GroupAnswers.PollExact | crates/datarail-kafka/src/coordinator.rs:369-413 | a SyncGroup waits if and only if its generation is current and its member has no assignment yet in a group that is not stable; 27 exactly for another generation, 25 exactly for an unknown member |
| GroupAnswers.BeatExact | crates/datarail-kafka/src/coordinator.rs:424-445 | exactly when a heartbeat is answered 0, 22, 25 and 27 |
| GroupAnswers.BeatKeepsAlive | crates/datarail-kafka/src/coordinator.rs:424-445 | a member that beats in time is not expired for a further session timeout |
| GroupAnswers.LeaveExact | crates/datarail-kafka/src/coordinator.rs:448-474 | when a member leaves others behind, all of them lose their assignments in a new window, their SyncGroups of the old generation are answered 27, and a leader that left is replaced |
| GroupAnswers.LeaderAlwaysMember | crates/datarail-kafka/src/coordinator.rs:86-474 | after any calls the leader, if there is one, is a member |
| PartitionStore.SealedLog.constructor | crates/datarail-cli/src/kafka_store.rs:82-86 | on any files: the last is cut where it stops reading as frames, the index is a scan, and segments roll at the given size but at least 1024 bytes |
| PartitionStore.ValidLen | crates/datarail-replaylog/src/lib.rs:308-342 | the scan loop over one file's frames |
| PartitionStore.OpensAnything | crates/datarail-replaylog/src/lib.rs:129-159 | any files whose intact frames end before the next file starts, corrupt or torn anywhere, open to a log on which the next batch will be found |
| PartitionStore.SealedLog.ScanStarts | crates/datarail-cli/src/kafka_store.rs:57-64 | the scan loop over the segments, past bad frames to the next segment |
| PartitionLog.ScanFindsAll | crates/datarail-cli/src/kafka_store.rs:57-64 | a scan finds every record of every segment, whatever bytes follow them in their files |
| PartitionLog.DamagedUnread | crates/datarail-replaylog/src/lib.rs:308-342 | a frame of the same length field with other bytes is not read, or its bytes have the original's checksum; a wrong checksum is never read |
| PartitionStore.SealedLog.Append | crates/datarail-replaylog/src/lib.rs:178-194 | a frame written whole and the end advanced, or any part of it written and the end not, in a new segment when the active one is full; a full segment that does not sync, and a new one that does not open, leave the files as they are; an oversize record changes nothing |
| PartitionStore.RollsExactly | crates/datarail-replaylog/src/lib.rs:178-194 | a frame starts a new segment, named by its offset, if and only if the active one has reached the limit; else it goes to the end of the last one |
| PartitionStore.SegmentsBounded | crates/datarail-replaylog/src/lib.rs:178-194 | no batch, failing anywhere or not, leaves the active segment longer than the limit plus one largest frame |
| PartitionStore.SealedLog.AppendDurable | crates/datarail-cli/src/kafka_store.rs:108-135 | files, index and answer after a batch that succeeds, meets an oversize record, tears in a frame, cannot start a segment, fails to sync, or fails and cannot be rescanned |
| PartitionStore.BatchKeeps | crates/datarail-cli/src/kafka_store.rs:108-135 | whatever becomes of a batch, the log has gained exactly the records that were given offsets, and a scan finds them at those offsets |
| PartitionStore.IndexIsRescan | crates/datarail-cli/src/kafka_store.rs:108-135 | the index after a batch is what a full rescan finds if and only if it succeeded, or was rescanned, or had added nothing |
| PartitionStore.BatchAnywhere | crates/datarail-cli/src/kafka_store.rs:108-135 | any batch on any disk the writer can leave behind: on a ready disk nothing written is lost; on another the first frame written is, with every frame up to the first that starts a new file, and all after it are found at the offsets given out |
| PartitionStore.Stuck | crates/datarail-replaylog/src/lib.rs:178-194 | while frames land behind torn bytes a scan finds none of them, and the first in a new file and all after it are found |
| PartitionStore.NextBatchExact | crates/datarail-replaylog/src/lib.rs:178-194 | a successful batch leaves the index equal to a rescan if and only if nothing but records was in the active file, or frames lost behind torn bytes had filled it; exactly then a restart keeps the batch whole |
| PartitionStore.TornThenBatch | crates/datarail-replaylog/src/lib.rs:178-194 | a torn write never leaves the segment full, so the next successful batch is found if and only if no byte of the torn frame got out |
| PartitionStore.TornBatchUnindexed | crates/datarail-cli/src/kafka_store.rs:108-135 | one torn byte, then a successful batch: the index has its record, a read of its offset serves nothing, a rescan finds none, and reopening leaves the log empty |
| PartitionStore.ReopenHeals | crates/datarail-replaylog/src/lib.rs:129-159 | reopening cuts off whatever follows the last record a scan finds, keeps exactly the records a scan finds, and the next batch will be found |
| PartitionStore.SealedLog.ReadSealedFrom | crates/datarail-cli/src/kafka_store.rs:147-222 | the last segment that starts at or before the record, read frame by frame up to the cap or the first bad frame |
| PartitionLog.ReadsRun | crates/datarail-cli/src/kafka_store.rs:147-222 | past the end nothing; else a non-empty contiguous run from that record, inside its own segment, under the cap before its last record, ended only by the cap or the end of that segment's records |
| PartitionLog.Found | crates/datarail-cli/src/kafka_store.rs:171-177 | the last segment that starts at or before a record is the one that holds it |
| KeyRouter.FoldFold | crates/datarail-keyrouter/src/lib.rs:21-28 | x ^ (x >> 33) undoes itself on every 64-bit word |
| KeyRouter.MixBijective | crates/datarail-keyrouter/src/lib.rs:21-28 | mix64 has an inverse on both sides |
| KeyRouter.NoTies | crates/datarail-keyrouter/src/lib.rs:43-45 | two nodes of equal weight for a key are the same node |
| KeyRouter.KeysDiffer | crates/datarail-keyrouter/src/lib.rs:43-45 | for one node different keys have different weights |
| KeyRouter.WeightOnto | crates/datarail-keyrouter/src/lib.rs:43-45 | for one node every weight is some key's |
| KeyRouter.Router.constructor | crates/datarail-keyrouter/src/lib.rs:57-59 | no nodes |
| KeyRouter.Router.AddNode | crates/datarail-keyrouter/src/lib.rs:72-78 | the node is in the set, once; true only if it was not |
| KeyRouter.Router.RemoveNode | crates/datarail-keyrouter/src/lib.rs:81-88 | the node is out and no other; true only if it was in |
| KeyRouter.Router.RouteKeyhash | crates/datarail-keyrouter/src/lib.rs:111-126 | the node every other node weighs less than, or none without nodes; every node gets some key (`KeyRouter.EveryNodeOwns`) |
| KeyRouter.Router.RankKeyhash | crates/datarail-keyrouter/src/lib.rs:137-145 | the nodes, strictly falling in weight |
| KeyRouter.Replay | crates/datarail-keyrouter/src/lib.rs:63-88 | adds and removes in any order leave exactly the node set they describe |
| KeyRouter.RouteUnique | crates/datarail-keyrouter/src/lib.rs:111-126 | routing depends on the node set alone |
| KeyRouter.EveryNodeOwns | crates/datarail-keyrouter/src/lib.rs:43-126 | every node of any set owns some key |
| KeyRouter.AddMovesToNew | crates/datarail-keyrouter/src/lib.rs:72-126 | adding a node moves keys only to it |
| KeyRouter.RemoveMovesOwned | crates/datarail-keyrouter/src/lib.rs:81-126 | removing a node moves only the keys it owned |
| KeyRouter.RemoveMovesToSecond | crates/datarail-keyrouter/src/lib.rs:81-145 | the ranking's first is the owner, and when it leaves its keys go to the second |

## Left out

- Hashes, signatures, encryption and checksums: arbitrary functions here; a checksum has only its width.
- Sockets, TLS, SASL, HTTP, command-line parsing, metrics and the request envelopes around the modelled calls.
- Compressed record batches: the parser is modelled with the compression feature off, where they are refused.
- Machine words are numbers: a shift is a multiplication or division by a power of two, and OR and exclusive or are
  defined bit by bit.
- Signed tree heads, acknowledgements and receipts of the manifest: signatures over the values modelled here.
- The watermark signature and the file-backed variant of the effectively-once gate.
- Restoring a watermark into a stream that already has traffic: the code restores fresh streams, and
  `OnceRuns.RestoreGate` replays entries only into a consistent one.
- The sequence-numbered and the plain sink paths: easier variants of the landed-count path.
- Runs in which the destination dead-letters a batch: `PostgresSink.Pipeline.ShipBatch` says what such a batch does, and
  the sources of the run model are the records both contracts accept.
- PostgresSink.Postgres.TxnBody: the database is one table and one watermark table with atomic, serialised
  transactions; SQL, COPY and the advisory lock are taken at that word.
- An offset write that fails and is not followed by a reopening: a failed write is modelled as a crash.
- FileOffsets.OffsetFile.CommitMany: group names are given as byte strings that pass the UTF-8 test, as the Rust type
  guarantees.
- TxnBroker.Broker.ProduceInto: sealing, the content contract and the store's errors are one parameter, the batch's
  fate; which fates the store allows is proved in `BrokerLogs`.
- A broker restart in the middle of a transaction: the coordinator and the buffers are held in memory and start empty.
- TxnCommits.RetriedCommitLands: does not say that nothing lands twice; a failed append can leave records in the log
  that a retry appends again.
- TxnRuns.StepKeepsInv: each incarnation has one request in flight at a time, as a producer client does.
- Progress of a parked JoinGroup, and one leader per generation: the code promises neither when members expire.
- GroupCoordinator.Coordinator.TryClose: one turn of the wait; parking, waking and the wait's length are not modelled.
- A directory that cannot be read or synced when a log is opened.
- PartitionStore.NextBatchExact: takes the checksum to reject torn bytes followed by other frames; a checksum that
  accepts them by chance makes a rescan find a record nobody wrote.
- PartitionStore.BatchAnywhere, `PartitionStore.Stuck`, `PartitionStore.TornThenBatch` and
  `BrokerLogs.AppendDurableRefines`: under the same hypothesis.
- Wrap-around of 64-bit counters and ids; the 16-bit epoch's overflow is modelled.
- The FNV hash of key bytes: routing is over any key hash.
