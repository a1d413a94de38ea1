# mirbft ordering core in Dafny

This project models four sequential pieces of the mirbft BFT ordering library
and proves properties of them.

- **The persisted log** (`persisted.go`), module `PersistedLog`. A node keeps
  its P-set (prepared digests by sequence number), its Q-set (preprepared
  digests by sequence number and epoch), its C-set (checkpoints by sequence
  number) and its last committed sequence number.
  - Additions guard their invariants and each returns the one record to
    persist.
  - `truncate` prunes the sets below a watermark.
  - `loadPersisted` rebuilds the sets from durable storage and keeps the three
    newest checkpoints.
  - `constructEpochChange` builds the epoch-change proof. It holds the sorted
    checkpoints, and the Q- and P-entries of the three checkpoint intervals
    above the highest stable checkpoint.
- **A bucket of the ordering pipeline** (`internal/bucket.go`), module
  `Buckets`.
  - It holds the sequences between the watermarks.
  - Its leader cuts proposals into batches.
  - It drains batches into Preprepares numbered consecutively from
    `NextAssigned`, keeping a margin of five checkpoint intervals below the
    high watermark.
- **The per-client request window** (`client_window.go`), module
  `ClientWindows`. This is a fixed array of request slots indexed by
  `reqNo - lowWatermark`, plus a one-shot waiter. Garbage collection slides
  the window past the committed prefix.
- **The test engine's commit buffer and encoders** (`testengine/recorder.go`),
  module `Recorder`.
  - `NodeState.Commit` places out-of-order commits into a buffer. It drains
    the contiguous prefix into a running hash, emits the checkpoints among
    them and shifts the rest left.
  - There is an 8-byte little-endian `uint64` codec.
  - There is the deterministic request payload of a test client.

Two shared modules support them:

- `Common` holds `uint64` as a subset type, with Go's wrap-around `+`, `-`
  and `*` written out. It also holds bytes, `Option`, and `Outcome`. An
  `Outcome` separates a Go error return (`Error`) from a Go panic (`Panic`).
- `Sorting` models Go's `sort.Slice` by an explicit key. Sorting a
  permutation of items with distinct keys always yields the same canonical
  sequence.

How the Go code is modelled:

- Every Go panic is a `Panic` result, with the exact condition under which it
  happens stated in the contract, never a precondition.
- A loop over a Go map picks its next key with `:|`, so the contract holds for
  every iteration order.
- In `constructEpochChange`, the iteration order matters. There it is an
  explicit parameter `order` that enumerates the keys of the C-set.
- Objects whose fields the Go code updates are classes: `Persisted`,
  `Bucket`, `Sequence`, `ClientWindow`, `ClientWaiter` and `NodeState`. Each
  method is proved against a specification function.

Where the code's own comments and counters point to another intent, the
model follows what the code does:

- `Propose` (internal/bucket.go:80-86) resets `Queue` and `SizeBytes` after
  every call. A proposal below the cut size is therefore dropped, not
  accumulated into a later batch, as the running `SizeBytes += len(data)`
  (internal/bucket.go:81) suggests. `Propose`'s contract states this.
- `addPEntry` panics when the stored epoch is `>=` the new one, so epochs at a
  sequence number must strictly increase.
- The comment and the by-sequence-number sort at persisted.go:217-220 aim
  at a checkpoint list that does not depend on map iteration order. As
  written, it does (see "## Findings").
- The Preprepare carries the fields internal/bucket.go:103-108 fills in. The
  generated message types are not followed.
- The bound of `DrainQueue`, `HighWatermark - 5*CheckpointInterval`, is a
  `uint64` subtraction that can wrap. The model keeps the wrap, and
  `DrainPastHighWhenWrapped` shows a Preprepare above the high watermark.
  `DrainKeepsMargin` shows the margin holds when the subtraction does not
  wrap.
- The loop at internal/bucket.go:62 counts in `uint64` and never ends when
  the high watermark is 2^64 - 1. The model's loop stops after the high
  watermark in every case (see "## Findings").
- `newRequestWindow(low, high)` with low = high + 1 yields a window with no
  slots, because `int(high-low)+1` wraps to 0. The model keeps that window.
  Every `allocate` and `request` on it aborts, by a watermark check or by an
  index out of range.

## Model

| member | source | states |
|---|---|---|
| PersistedLog.Load | persisted.go:19-21 | storage yields its records in index order, then end of log or the read error |
| PersistedLog.ReplayInvariant | persisted.go:45-66 | replaying records never yields an error, and a replay that completes leaves every map keyed by its entries' sequence numbers (and epochs) and every checkpoint with a network configuration |
| PersistedLog.ReplayStopsAtPanic | persisted.go:55-64 | a replay that aborts on some prefix aborts the whole load the same way: later records are never applied |
| PersistedLog.TruncateBounds | persisted.go:166-185 | after truncating at `w` no P- or Q-entry is at or below `w` and no checkpoint is below `w` |
| PersistedLog.TruncateKeepsAbove | persisted.go:166-185 | truncation keeps every P- and Q-entry above `w` and every checkpoint at or above `w`, unchanged |
| PersistedLog.TruncateIdempotent | persisted.go:166-185 | truncating twice at the same watermark equals truncating once |
| PersistedLog.TruncateInvariant | persisted.go:166-185 | truncation preserves the keying invariant and configured checkpoints |
| PersistedLog.LoadKeepsNewestCheckpoints | persisted.go:74-84 | truncating at the load watermark keeps exactly the three newest checkpoints (all of them if fewer), and the last committed sequence number is the newest checkpoint, above every other |
| PersistedLog.KeepNewestOfSorted | persisted.go:78-84 | with the checkpoints sorted by sequence number, the third-newest (or oldest) is the truncation point and the last is the newest checkpoint |
| PersistedLog.RestoredFacts | persisted.go:33-87 | a successful load restores well-keyed, configured sets whose last committed number is a stored checkpoint above every replayed checkpoint |
| PersistedLog.Persisted.constructor | persisted.go:34-39 | a new log has three empty sets and last committed 0 |
| PersistedLog.Persisted.LoadPersisted | persisted.go:33-87 | the load succeeds, fails or aborts exactly as the replay-then-truncate specification `Restored` does, and on success yields exactly its sets and last committed number |
| PersistedLog.Persisted.ReplayStorage | persisted.go:45-66 | loads records by increasing index until end of log: on a read failure, the wrapped error; on an unset record type, the abort; else the replayed sets |
| PersistedLog.Persisted.KeepNewestCheckpoints | persisted.go:68-84 | sorts the checkpoints, truncates and sets last committed as `KeepNewest` specifies; aborts (index out of range) without checkpoints |
| PersistedLog.Persisted.CollectCheckpoints | persisted.go:68-73 | collects every checkpoint of the C-set exactly once |
| PersistedLog.Persisted.SortedCheckpoints | persisted.go:68-76 | the collected checkpoints sorted: their sequence numbers are the ascending enumeration of the C-set's keys |
| PersistedLog.Persisted.TruncateAt | persisted.go:78-84 | truncation at the third-newest or oldest sorted checkpoint and last committed at the newest, as `KeepNewest` specifies |
| PersistedLog.Persisted.AddPEntry | persisted.go:89-110 | aborts iff the stored P-entry at that sequence number has an epoch `>=` the new one; otherwise that key maps to the new entry, nothing else changes, and the action persists exactly that entry |
| PersistedLog.Persisted.AddQEntry | persisted.go:112-134 | sets the entry at (seqNo, epoch), keeping other epochs at that seqNo and all other seqNos; the action persists exactly that entry |
| PersistedLog.Persisted.AddCEntry | persisted.go:136-156 | aborts iff the network configuration is missing, so every stored checkpoint is configured; otherwise stores it and persists exactly that entry |
| PersistedLog.Persisted.SetLastCommitted | persisted.go:158-164 | succeeds iff the new number is last committed + 1 (in uint64 arithmetic), and then takes it |
| PersistedLog.Persisted.Truncate | persisted.go:166-185 | the three deletion loops, for any map iteration order, leave exactly `TruncateSets` of the old sets |
| PersistedLog.Persisted.DropPrepared | persisted.go:167-172 | the first loop: P-entries at or below `w` go, with the Q-entries at the same sequence numbers |
| PersistedLog.Persisted.DropPreprepared | persisted.go:174-178 | the second loop: the remaining Q-entries at or below `w` go |
| PersistedLog.Persisted.DropCheckpoints | persisted.go:180-184 | the third loop: checkpoints strictly below `w` go |
| PersistedLog.ScanHighest | persisted.go:195-207 | the scan's anchor exists iff some checkpoint is stable; it is the highest stable one, with its own value and network configuration |
| PersistedLog.ScanOthers | persisted.go:195-207 | the checkpoints the scan appends are stored checkpoints with their stored values, none is the anchor, and their sequence numbers are distinct |
| PersistedLog.ScanKeepsUnstable | persisted.go:204-206 | every checkpoint that is not stable is appended by the scan |
| PersistedLog.EpochChangeCheckpoints | persisted.go:187-222 | as written, the proof never errors; it aborts when no checkpoint is stable, succeeds when one is (given configured checkpoints), and then carries the new epoch and strictly ascending stored checkpoints that include the anchor and every unstable checkpoint |
| PersistedLog.ScannedCheckpoints | persisted.go:195-208 | the scanned checkpoints plus the anchor are distinct stored checkpoints covering every unstable one |
| PersistedLog.SortedCheckpoints | persisted.go:217-222 | sorting these checkpoints by sequence number yields a strictly ascending list that keeps the anchor and every unstable checkpoint |
| PersistedLog.SortedIncreasing | persisted.go:218-220 | checkpoints with distinct sequence numbers sort into strictly ascending order |
| PersistedLog.MembersKeepSeqNos | persisted.go:218-222 | a reordering that keeps every checkpoint keeps every sequence number it carried |
| PersistedLog.EpochChangeDependsOnOrder | persisted.go:195-207 | as written: with two stable checkpoints 10 and 20, visiting 10 first drops checkpoint 10 from the proof, visiting 20 first keeps it |
| PersistedLog.EpochChangeAscending | persisted.go:195-222 | as written, the proof built visiting 10 then 20 succeeds without checkpoint 10 |
| PersistedLog.EpochChangeDescending | persisted.go:195-222 | as written, the proof built visiting 20 then 10 succeeds with checkpoint 10 |
| PersistedLog.ScanAscending | persisted.go:195-207 | the as-written scan in order 10, 20 replaces the anchor 10 by 20 and forgets 10 |
| PersistedLog.ScanDescending | persisted.go:195-207 | the as-written scan in order 20, 10 keeps 10 among the other checkpoints |
| PersistedLog.ScanFixedSameAnchor | persisted.go:201-203 | the corrected scan picks the same anchor and configuration as the code |
| PersistedLog.ScanFixedKeepsAll | persisted.go:195-208 | the corrected scan yields every checkpoint of the C-set exactly once, with its stored value |
| PersistedLog.FixedCheckpointsCanonical | persisted.go:217-222 | with the corrected scan, the sorted checkpoints are the canonical list of all checkpoints, whatever the order |
| PersistedLog.EpochChangeFixedDeterministic | persisted.go:187-263 | corrected: two map iteration orders yield the identical proof, whose checkpoints are all checkpoints in ascending order |
| PersistedLog.EpochChangeFixedOutcome | persisted.go:187-222 | corrected: the proof aborts iff no checkpoint is stable (given configured checkpoints), never errors, and carries the new epoch and a valid checkpoint list |
| PersistedLog.AllCheckpoints | persisted.go:217-222 | one checkpoint per C-set key, with its stored value, in ascending sequence-number order |
| PersistedLog.AllCheckpointsProof | persisted.go:217-222 | all checkpoints in ascending order include the anchor and every unstable checkpoint |
| PersistedLog.Persisted.ConstructEpochChange | persisted.go:187-263 | builds exactly the corrected proof `EpochChangeOfFixed`: the scan, the two aborts, the sorted checkpoints and the entry window |
| PersistedLog.Persisted.ScanInOrder | persisted.go:195-208 | the scan loop over the C-set in the given order, with the correction applied |
| PersistedLog.Persisted.WindowEntries | persisted.go:224-260 | the window loop from the anchor up to the bound yields exactly `QWindow` and `PWindow` |
| PersistedLog.Persisted.EntriesAt | persisted.go:225-258 | one sequence number of the window: its Q-entries in epoch order, then its P-entry, and nothing for a number without Q-entries |
| PersistedLog.Persisted.QEntriesOf | persisted.go:230-247 | the Q-entries of one sequence number as set entries, in ascending epoch order |
| PersistedLog.Persisted.SortedQEntries | persisted.go:230-239 | the Q-entries at one sequence number sorted: their epochs are the ascending enumeration of its epochs |
| PersistedLog.Persisted.CollectQEntries | persisted.go:230-235 | collects every Q-entry at one sequence number exactly once |
| PersistedLog.SetEntriesOf | persisted.go:241-247 | one set entry per Q-entry, in order, carrying its sequence number, epoch and digest |
| PersistedLog.QSetEntries | persisted.go:241-247 | one Q-set entry per Q-entry, in order |
| PersistedLog.QEntriesSorted | persisted.go:237-247 | the sorted Q-entries at a sequence number become exactly `QEntriesAt` |
| PersistedLog.QEntriesAtSound | persisted.go:230-247 | every Q-set entry emitted for `n` is a stored Q-entry at `n`, in strictly ascending epoch order |
| PersistedLog.QEntriesAtComplete | persisted.go:230-247 | every stored Q-entry at `n` is emitted |
| PersistedLog.QWindowSound | persisted.go:224-247 | every Q-set entry of the proof is a stored Q-entry inside the window |
| PersistedLog.QWindowComplete | persisted.go:224-247 | every stored Q-entry inside the window is in the proof |
| PersistedLog.QWindowOrdered | persisted.go:224-247 | the Q-set entries are ordered by sequence number, then epoch |
| PersistedLog.PWindowMembers | persisted.go:249-258 | P-set entries are stored P-entries inside the window, emitted for every sequence number that also has Q-entries, in ascending order |
| PersistedLog.WindowStep | persisted.go:224-260 | one step of the window loop appends that number's Q-entries and P-entry; a number without Q-entries contributes nothing |
| PersistedLog.EpochEntries | persisted.go:241-247 | one set entry per epoch, with the stored digest |
| Sorting.SortBy | persisted.go:74-76 | `sort.Slice` by key: a sorted permutation of the input, keeping distinct keys distinct |
| Sorting.SortByCanonical | persisted.go:217-220 | sorting items with distinct keys yields the ascending enumeration of the key set, whatever the input order |
| Sorting.SortedElems | persisted.go:217-220 | the canonical ascending enumeration of a set of keys |
| Sorting.StrictlyIncreasingUnique | persisted.go:217-220 | two strictly ascending sequences with the same elements are equal |
| Buckets.Sequence.constructor | internal/bucket.go:64 | a new sequence carries its number and bucket, in state `Unknown` (the zero state) |
| Buckets.Bucket.constructor | internal/bucket.go:38-49 | leader from the configuration's bucket map, `NextAssigned` at the low watermark, the other cursors at zero, one fresh sequence in state `Unknown` per number between the watermarks, nothing pending |
| Buckets.Bucket.MoveWatermarks | internal/bucket.go:51-69 | afterwards a key is present iff it was present and not below the low watermark, or lies between the watermarks; kept keys keep their sequence objects, new ones are fresh and `Unknown`; the other cursors, the queue and the configuration are unchanged; the drain then runs as `Drain` specifies, and emits nothing on a follower |
| Buckets.Bucket.DropBelowLow | internal/bucket.go:56-60 | exactly the keys below the low watermark go, for any iteration order |
| Buckets.Bucket.CreateUpToHigh | internal/bucket.go:62-66 | every number between the watermarks gets a sequence, also when the high watermark is 2^64 - 1; existing ones are kept, missing ones are fresh, in state `Unknown`, numbered and in this bucket |
| Buckets.Bucket.GoLoopNeverExitsAtTop | internal/bucket.go:62 | with the high watermark at 2^64 - 1, the Go loop as written has not stopped after any number of iterations |
| Buckets.Bucket.GoLoopExitsBelowTop | internal/bucket.go:62 | below 2^64 - 1, the Go loop stops within one iteration per number from its counter to the high watermark |
| Buckets.Bucket.Propose | internal/bucket.go:75-89 | aborts iff this node does not lead the bucket; otherwise the queue and size are reset and the queue plus the proposal becomes one pending batch only when the size reaches the cut size, then the drain runs; the sequences and the other cursors are unchanged |
| Buckets.Bucket.DrainQueue | internal/bucket.go:91-119 | the loop yields exactly `Drain` of the old cursor and pending batches |
| Buckets.DrainFacts | internal/bucket.go:98-116 | the drain pops k batches from the front in order, emits one Preprepare for each with consecutive sequence numbers from the old cursor, the epoch and the bucket, never above the bound; the cursor rises by exactly k, and it stops only when nothing is pending or the cursor passed the bound |
| Buckets.DrainPops | internal/bucket.go:114-115 | the batches popped and the cursor advance, by induction |
| Buckets.DrainNumbers | internal/bucket.go:99-112 | the Preprepares emitted, by induction |
| Buckets.DrainNothing | internal/bucket.go:98 | with nothing pending, nothing is emitted and nothing changes |
| Buckets.DrainKeepsMargin | internal/bucket.go:94-98 | when `5 * CheckpointInterval` does not exceed the high watermark, no Preprepare lies within five checkpoint intervals of it |
| Buckets.DrainPastHighWhenWrapped | internal/bucket.go:98 | when the bound wraps, a batch is assigned a sequence number above the high watermark |
| Buckets.Bucket.Status | internal/bucket.go:164-176 | aborts iff the allocation length is negative or a number in the window has no sequence; otherwise id, leader flag, cursor and pending count, and one state per number from the low watermark |
| Common.Int64 | internal/bucket.go:165 | Go's `int` conversion of a uint64: the same value modulo 2^64, within the signed range |
| Buckets.StatusLengthInOrder | internal/bucket.go:165-167 | with ordered watermarks, `Status` reports high - low + 1 states, for the numbers between the watermarks |
| ClientWindows.ClientWaiter.constructor | client_window.go:41-45 | a waiter carries the watermarks and is not expired |
| Common.SlotCount | client_window.go:40 | `int(high-low)+1` in 64-bit arithmetic: high - low + 1 when the span fits Go's `int`, zero exactly when low is high + 1, negative (so `make` panics) otherwise |
| ClientWindows.ClientWindow.constructor | client_window.go:36-47 | `SlotCount(low, high)` empty slots (none when low is high + 1) and a fresh, unexpired waiter with the same watermarks |
| ClientWindows.RetiredPrefix | client_window.go:54-69 | the length of the longest prefix of slots that are committed at or below `maxSeqNo` |
| ClientWindows.StatusCode | client_window.go:119-127 | 0 iff the slot is empty, 2 iff it holds a committed request, else 1 |
| ClientWindows.Shifted | client_window.go:50-73 | the new slot array: same length, slot k is old slot k + j, the last j slots empty |
| ClientWindows.CollectIdempotent | client_window.go:49-80 | collecting again with the same bound retires nothing |
| ClientWindows.ShiftRetired | client_window.go:50-69 | the loop aborts iff a retired slot has sequence number 0; otherwise it counts the retired prefix and fills a fresh array with the shifted slots |
| ClientWindows.ClientWindow.GarbageCollect | client_window.go:49-80 | aborts (changing nothing) iff a retired slot has sequence number 0; otherwise both watermarks rise by the retired count, the slots shift by it, the old waiter keeps its watermarks and is expired, and a fresh one with the new watermarks replaces it |
| ClientWindows.ClientWindow.Allocate | client_window.go:82-101 | aborts iff the number is outside the window, the window has no slots (index out of range), or its slot holds another digest; otherwise that slot holds the new unordered request and no other slot changes |
| ClientWindows.ClientWindow.RequestAt | client_window.go:103-115 | aborts iff the number is outside the window or the window has no slots (index out of range); otherwise the slot at `reqNo - low` |
| ClientWindows.ClientWindow.Status | client_window.go:117-136 | the watermarks and one `StatusCode` per slot, in order |
| Common.SpanKeptByShift | client_window.go:71-72 | moving both watermarks by the same amount keeps their distance |
| Recorder.Uint64ToBytes | testengine/recorder.go:26-30 | eight bytes, least significant first, decoding back to the value |
| Recorder.BytesToUint64 | testengine/recorder.go:32-34 | aborts iff fewer than eight bytes; reads the first eight little-endian |
| Recorder.Uint64RoundTrip | testengine/recorder.go:26-34 | decoding an encoded value gives it back |
| Recorder.BytesRoundTrip | testengine/recorder.go:26-34 | encoding the decoded value gives back the first eight bytes |
| Recorder.DecodeEncode | testengine/recorder.go:26-34 | little-endian decoding inverts encoding for values that fit |
| Recorder.EncodeDecode | testengine/recorder.go:26-34 | little-endian encoding inverts decoding |
| Recorder.FromLittleEndianBound | testengine/recorder.go:32-34 | n bytes decode below 256^n |
| Recorder.RequestByReqNo | testengine/recorder.go:48-64 | none iff the number is past the total; otherwise the client id, the number, and the payload id ++ "-" ++ the eight-byte encoding of the number |
| Recorder.RequestPayloadsDistinct | testengine/recorder.go:48-64 | two different request numbers of one client have different payloads |
| Recorder.NodeState.constructor | testengine/recorder.go:66-72 | nothing committed, an empty buffer and an empty hash |
| Recorder.NodeState.Commit | testengine/recorder.go:74-121 | aborts iff some commit is at or below the last committed number, leaving the commits before it placed; otherwise every commit is placed, the filled prefix is delivered in order (hash, count, checkpoints, last committed), the rest shifts to the front, `Value` is the hash sum, and the buffer stays aligned |
| Recorder.NodeState.PlaceAll | testengine/recorder.go:75-84 | the placement loop: places every commit, or stops at the first one at or below the last committed number |
| Recorder.NodeState.PlaceAt | testengine/recorder.go:79-83 | grows the buffer with empty slots and stores the commit at offset seqNo - last - 1 |
| Recorder.NodeState.DeliverPrefix | testengine/recorder.go:88-108 | drains exactly the longest filled prefix, delivering each commit in order |
| Recorder.NodeState.DeliverOne | testengine/recorder.go:95-107 | one drained commit: digests hashed, count raised, a checkpoint if flagged, last committed set |
| Recorder.NodeState.WriteDigests | testengine/recorder.go:95-98 | the digests are written to the hash in order and the count rises by their number |
| Recorder.NodeState.ShiftOut | testengine/recorder.go:110-115 | the buffer loses its first i slots, the rest keep their order |
| Recorder.PlaceOneUntouched | testengine/recorder.go:79-83 | placing a commit fills its own offset and leaves every other slot as it was (empty if new) |
| Recorder.PlaceOneAligned | testengine/recorder.go:79-83 | placing keeps slot k empty or holding the commit for last + k + 1 |
| Recorder.PlacedAligned | testengine/recorder.go:75-84 | the placement loop keeps the buffer aligned |
| Recorder.PlacedPresent | testengine/recorder.go:75-84 | after placement, every commit's slot is filled |
| Recorder.PlacedUntouched | testengine/recorder.go:75-84 | placement changes only the slots of the placed commits |
| Recorder.PlacedLast | testengine/recorder.go:75-84 | the last placed commit sits in its slot |
| Recorder.FilledPrefix | testengine/recorder.go:88-94 | the number of filled slots before the first empty one |
| Recorder.DrainedConsecutive | testengine/recorder.go:88-108 | the drained commits carry consecutive sequence numbers from last + 1 |
| Recorder.RemainderAligned | testengine/recorder.go:110-115 | the shifted remainder is aligned to the new last committed number and starts with an empty slot |
| Recorder.DrainAdvances | testengine/recorder.go:107 | the last committed number rises by exactly the number drained |
| Recorder.DeliverAllHashed | testengine/recorder.go:95-98 | the hash input is the old one followed by every drained digest in order |
| Recorder.DeliverAllLength | testengine/recorder.go:97 | the count rises by the number of drained digests (uint64) |
| Recorder.DeliverAllCheckpoints | testengine/recorder.go:100-105 | the checkpoints emitted are exactly the flagged drained commits, in drain order |
| Recorder.DeliverAllCheckpointsExact | testengine/recorder.go:100-105 | the checkpoints a run emits are exactly, in order, one per flagged commit, each carrying the sum of everything hashed up to and including that commit |
| Recorder.DeliverAllCheckpointValues | testengine/recorder.go:100-105 | each emitted checkpoint's value is the sum of everything hashed up to and including its commit |
| Recorder.NewCheckpointValue | testengine/recorder.go:100-105 | the checkpoint of a commit carries the sum after its digests |
| Recorder.DeliverAllLast | testengine/recorder.go:107 | last committed becomes the last drained commit's number; draining nothing changes nothing |
| Recorder.ConcatAppend | testengine/recorder.go:95-98 | hashing two digest runs equals hashing their concatenation |

## Left out

- Storage I/O: `Storage` is the list of its records followed by end of log or a read failure; `Load` reads it.
- The protobuf types of mirbftpb/mirbft.pb.go (marshalling, sizes) are not part of this model. Only the fields the core reads are kept, as datatypes.
- `EpochConfig`, `Sequence`, `NewSequence`, `consumer.Actions` and the `checkpointTracker` are not part of this model. The configuration keeps only the fields the bucket reads. A sequence is an object with a number, a bucket and a state. The tracker is the predicate `stable`.
- The bucket routers `ApplyPreprepare`, `ApplyDigestResult`, `ApplyValidateResult`, `ApplyPrepare` and `ApplyCommit` (internal/bucket.go:121-154) only forward to `Sequence` methods outside this model.
- `Recorder`, `Recording.Step` and the other simulation plumbing of testengine/recorder.go (event scheduling, latencies, contexts) are left out.
- `RecorderClient.LastNodeReqNoSend`, `ClientConfig.TxLatency` and `ClientConfig.MaxInFlight` are carried but unused, as in `RequestByReqNo`.
- Hashing: the hasher is the byte sequence written to it, and `Sum` is the function parameter `sum`.
- Go channels: the waiter's `close` is the flag `expired`. Closing an already closed channel cannot arise, because a waiter is expired only when it is replaced.
- Pointers and aliasing: requests, checkpoints and entries are values. The model does not capture mutation of a request through a shared pointer, such as its state and sequence number being set by code outside client_window.go. The epoch configuration shared between a bucket and the node is a value the bucket holds.
- Panic messages built with `fmt.Sprintf` are shortened to fixed text. The model keeps the abort condition, not the formatted numbers.
- The unused `config` parameter of `loadPersisted`, the `networkConfig` and `myConfig` fields of `persisted`, and the unused `node` parameter of `NodeState.Commit` are dropped.
- The `pSet == nil` / `qSet == nil` / `cSet == nil` re-initialisations in the `add*` methods cannot arise in the model, which never holds a nil map.
- PersistedLog.Persisted.ConstructEpochChange: requires the sets to be well keyed (each entry stored under its own sequence number and epoch). `persisted` keeps this invariant, and the window loop reads the entries through it.
- PersistedLog.Persisted.ConstructEpochChange: implements the corrected checkpoint scan. The scan as written is modelled by `ScanCheckpoints` and `EpochChangeOf` (see "## Findings").
- PersistedLog.Persisted.ReplayStorage: counts the load index as an unbounded `nat` rather than a `uint64`. A log of 2^64 records cannot arise.
- Buckets.Bucket.Propose: `SizeBytes` is an unbounded `int`. Go's `int` overflow on a sum of lengths beyond 2^63 is not modelled.
- ClientWindows.ClientWindow.constructor: requires `SlotCount(low, high)`, Go's `int(high-low)+1`, to be non-negative. Otherwise `make` panics with a negative length. The zero-slot window at low == high + 1 is modelled.
- ClientWindows.ShiftRetired: requires the slot count to fit Go's `int`, which the window invariant guarantees.

## Findings

| source | as written | input that shows it | evidently intended | confidence | as-written member | corrected member |
|---|---|---|---|---|---|---|
| persisted.go:195-207 | a stable checkpoint that is displaced as the highest stable one is neither kept as the anchor nor appended to `checkpoints`, so the proof's checkpoint list depends on map iteration order | C-set with stable checkpoints 10 and 20: iterating 10 then 20 drops checkpoint 10; iterating 20 then 10 keeps it | every checkpoint other than the anchor is appended, so the proof is the same for every iteration order, as the sort at persisted.go:217-220 intends | not executed | PersistedLog.EpochChangeDependsOnOrder | PersistedLog.EpochChangeFixedDeterministic |
| internal/bucket.go:62-66 | `for i := LowWatermark; i <= HighWatermark; i++` counts in uint64, so at a high watermark of 2^64 - 1 `i++` wraps to 0 and the test `i <= HighWatermark` never fails | HighWatermark = 2^64 - 1, any LowWatermark: `MoveWatermarks` (and `NewBucket`) never return | create a sequence for every number from the low to the high watermark, then stop | not executed | Buckets.Bucket.GoLoopNeverExitsAtTop | Buckets.Bucket.CreateUpToHigh |
