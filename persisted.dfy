/**
 * The persisted log of a node (persisted.go): the P-set, the Q-set and the
 * C-set, each keyed by sequence number, and the last committed sequence
 * number. Entries are added one at a time, each addition returning the
 * record to append to durable storage; the sets are pruned below a
 * watermark; on restart they are rebuilt by replaying storage; and an
 * epoch-change proof is built from them.
 */
module PersistedLog {
  import opened Common
  import opened Sorting

  /** The network configuration snapshot carried by a checkpoint entry. */
  datatype NetworkConfig = NetworkConfig(checkpointInterval: u64)

  /** "I prepared `digest` at `seqNo` in `epoch`." */
  datatype PEntry = PEntry(seqNo: u64, epoch: u64, digest: seq<byte>)

  /** "I preprepared `digest` at `seqNo` in `epoch`." */
  datatype QEntry = QEntry(seqNo: u64, epoch: u64, digest: seq<byte>)

  /** A checkpoint; `networkConfig` is `None` where Go holds a nil pointer. */
  datatype CEntry = CEntry(seqNo: u64, checkpointValue: seq<byte>, networkConfig: Option<NetworkConfig>)

  /** One record of durable storage; `Unset` is a record whose type field is not set. */
  datatype Record = PRecord(pEntry: PEntry) | QRecord(qEntry: QEntry) | CRecord(cEntry: CEntry) | Unset

  /** The side effect returned by an addition: the records to persist. */
  datatype Actions = Actions(persisted: seq<Record>)

  /** Durable storage as read back on restart: its records, then end of log or a read failure. */
  datatype StorageEnd = EndOfLog | ReadFailure(message: string)
  datatype Storage = Storage(records: seq<Record>, end: StorageEnd)

  /** The answer of `Storage.Load(index)`. */
  datatype Loaded = Entry(record: Record) | EOF | LoadError(message: string)

  function Load(storage: Storage, index: nat): (l: Loaded)
    ensures l.Entry? <==> index < |storage.records|
    ensures l.Entry? ==> l.record == storage.records[index]
    ensures l.EOF? <==> index >= |storage.records| && storage.end.EndOfLog?
  {
    if index < |storage.records| then Entry(storage.records[index])
    else match storage.end
      case EndOfLog => EOF
      case ReadFailure(m) => LoadError(m)
  }

  /** The three sets of the log, as a value. */
  datatype LogSets = LogSets(pSet: map<u64, PEntry>, qSet: map<u64, map<u64, QEntry>>, cSet: map<u64, CEntry>)

  const EmptySets := LogSets(map[], map[], map[])

  /** Every entry sits under its own sequence number (and, in the Q-set, its own epoch). */
  ghost predicate WellKeyed(s: LogSets)
  {
    PKeyed(s.pSet) && QKeyed(s.qSet) && CKeyed(s.cSet)
  }

  ghost predicate PKeyed(pSet: map<u64, PEntry>)
  {
    forall n :: n in pSet ==> pSet[n].seqNo == n
  }

  ghost predicate QKeyed(qSet: map<u64, map<u64, QEntry>>)
  {
    forall n, e :: n in qSet && e in qSet[n] ==> qSet[n][e].seqNo == n && qSet[n][e].epoch == e
  }

  ghost predicate CKeyed(cSet: map<u64, CEntry>)
  {
    forall n :: n in cSet ==> cSet[n].seqNo == n
  }

  /** Every stored checkpoint carries a network configuration. */
  ghost predicate CheckpointsConfigured(s: LogSets)
  {
    forall n :: n in s.cSet ==> s.cSet[n].networkConfig.Some?
  }

  // ---------------------------------------------------------------------
  // The additions as functions on values (used to specify replay)

  /** `addPEntry`: aborts unless the new entry's epoch exceeds that of the entry it replaces. */
  function AddP(s: LogSets, e: PEntry): Outcome<LogSets>
  {
    if e.seqNo in s.pSet && s.pSet[e.seqNo].epoch >= e.epoch then Panic("dev sanity test, remove me")
    else Ok(s.(pSet := s.pSet[e.seqNo := e]))
  }

  /** `addQEntry`: stores the entry under its sequence number and epoch. */
  function AddQ(s: LogSets, e: QEntry): LogSets
  {
    var bySeq := if e.seqNo in s.qSet then s.qSet[e.seqNo] else map[];
    s.(qSet := s.qSet[e.seqNo := bySeq[e.epoch := e]])
  }

  /** `addCEntry`: aborts when the checkpoint carries no network configuration. */
  function AddC(s: LogSets, e: CEntry): Outcome<LogSets>
  {
    if e.networkConfig.None? then Panic("network config must be set")
    else Ok(s.(cSet := s.cSet[e.seqNo := e]))
  }

  /** Applies one storage record, as the replay loop of `loadPersisted` does. */
  function ApplyRecord(s: LogSets, r: Record): Outcome<LogSets>
  {
    match r
    case PRecord(e) => AddP(s, e)
    case QRecord(e) => Ok(AddQ(s, e))
    case CRecord(e) => AddC(s, e)
    case Unset => Panic("unrecognized data type")
  }

  /** Replays `records` in index order into empty sets, stopping at the first abort. */
  function Replay(records: seq<Record>): Outcome<LogSets>
  {
    if records == [] then Ok(EmptySets)
    else
      match Replay(records[..|records| - 1])
      case Ok(s) => ApplyRecord(s, records[|records| - 1])
      case Error(m) => Error(m)
      case Panic(m) => Panic(m)
  }

  /** A replay never reports a storage error, and what it builds is well keyed and configured. */
  lemma {:induction false} ReplayInvariant(records: seq<Record>)
    ensures !Replay(records).Error?
    ensures Replay(records).Ok? ==> WellKeyed(Replay(records).value) && CheckpointsConfigured(Replay(records).value)
  {
    if records != [] {
      ReplayInvariant(records[..|records| - 1]);
    }
  }

  /** A replay that aborts on a prefix of the records aborts the same way on all of them. */
  lemma {:induction false} ReplayStopsAtPanic(records: seq<Record>, k: nat)
    requires k <= |records| && Replay(records[..k]).Panic?
    ensures Replay(records) == Replay(records[..k])
    decreases |records| - k
  {
    if k < |records| {
      var front := records[..|records| - 1];
      assert front[..k] == records[..k];
      ReplayStopsAtPanic(front, k);
    } else {
      assert records[..k] == records;
    }
  }

  /** `truncate`: drops P- and Q-entries at or below `w` and checkpoints strictly below it. */
  function TruncateSets(s: LogSets, w: u64): LogSets
  {
    LogSets(map n | n in s.pSet && n > w :: s.pSet[n],
            map n | n in s.qSet && n > w :: s.qSet[n],
            map n | n in s.cSet && n >= w :: s.cSet[n])
  }

  /** After truncation nothing at or below the watermark is left, except a checkpoint exactly at it. */
  lemma TruncateBounds(s: LogSets, w: u64)
    ensures forall n :: n in TruncateSets(s, w).pSet ==> n > w
    ensures forall n :: n in TruncateSets(s, w).qSet ==> n > w
    ensures forall n :: n in TruncateSets(s, w).cSet ==> n >= w
  {
  }

  /** Truncation keeps every entry above the watermark, unchanged. */
  lemma TruncateKeepsAbove(s: LogSets, w: u64)
    ensures forall n :: n in s.pSet && n > w ==> n in TruncateSets(s, w).pSet && TruncateSets(s, w).pSet[n] == s.pSet[n]
    ensures forall n :: n in s.qSet && n > w ==> n in TruncateSets(s, w).qSet && TruncateSets(s, w).qSet[n] == s.qSet[n]
    ensures forall n :: n in s.cSet && n >= w ==> n in TruncateSets(s, w).cSet && TruncateSets(s, w).cSet[n] == s.cSet[n]
  {
  }

  /** Truncating twice at the same watermark is truncating once. */
  lemma TruncateIdempotent(s: LogSets, w: u64)
    ensures TruncateSets(TruncateSets(s, w), w) == TruncateSets(s, w)
  {
  }

  /** Truncation keeps the sets well keyed and configured. */
  lemma TruncateInvariant(s: LogSets, w: u64)
    ensures WellKeyed(s) ==> WellKeyed(TruncateSets(s, w))
    ensures CheckpointsConfigured(s) ==> CheckpointsConfigured(TruncateSets(s, w))
  {
  }

  // ---------------------------------------------------------------------
  // Restart: where loadPersisted truncates

  function CheckpointSeqNo(c: CEntry): int
  {
    c.seqNo
  }

  /** The truncation point of `loadPersisted`: the third-newest checkpoint when there are three, else the oldest. */
  function LoadWatermark(seqNos: seq<int>): int
    requires |seqNos| > 0
  {
    if |seqNos| >= 3 then seqNos[|seqNos| - 3] else seqNos[0]
  }

  /**
   * Truncating at `LoadWatermark` of the ascending checkpoint sequence numbers
   * keeps exactly the three newest checkpoints (all of them when there are
   * fewer than three), and the newest one is the largest.
   */
  lemma {:induction false} LoadKeepsNewestCheckpoints(s: LogSets, w: u64)
    requires s.cSet != map[]
    requires w == LoadWatermark(SortedElems(s.cSet.Keys))
    ensures var e := SortedElems(s.cSet.Keys);
      && var kept := if |e| >= 3 then e[|e| - 3..] else e;
      && (forall n :: n in TruncateSets(s, w).cSet <==> n in kept)
      && e[|e| - 1] in s.cSet
      && (forall n :: n in s.cSet ==> n <= e[|e| - 1])
  {
    var e := SortedElems(s.cSet.Keys);
    var start := if |e| >= 3 then |e| - 3 else 0;
    SuffixFromThreshold(e, start);
    assert e[start..] == (if |e| >= 3 then e[|e| - 3..] else e);
    LastIsMax(e);
  }

  /** Read off checkpoints sorted by sequence number, the truncation point and the newest checkpoint. */
  lemma WatermarkOfSorted(checkpoints: seq<CEntry>, e: seq<int>)
    requires |checkpoints| > 0 && Keys(checkpoints, CheckpointSeqNo) == e
    ensures LoadWatermark(e) == if |checkpoints| >= 3 then checkpoints[|checkpoints| - 3].seqNo else checkpoints[0].seqNo
    ensures e[|e| - 1] == checkpoints[|checkpoints| - 1].seqNo
  {
  }

  /** `KeepNewest`, read off the checkpoints sorted by sequence number. */
  lemma KeepNewestOfSorted(s: LogSets, checkpoints: seq<CEntry>)
    requires |checkpoints| > 0 && Keys(checkpoints, CheckpointSeqNo) == SortedElems(s.cSet.Keys)
    ensures KeepNewest(s) == Ok((TruncateSets(s, if |checkpoints| >= 3 then checkpoints[|checkpoints| - 3].seqNo else checkpoints[0].seqNo),
                                 checkpoints[|checkpoints| - 1].seqNo))
  {
    var e := SortedElems(s.cSet.Keys);
    WatermarkOfSorted(checkpoints, e);
    assert |s.cSet.Keys| == |e| > 0;
  }

  /** In an ascending sequence, the elements from position `start` on are those not below `e[start]`. */
  lemma SuffixFromThreshold(e: seq<int>, start: nat)
    requires StrictlyIncreasing(e) && start < |e|
    ensures forall n :: n in e[start..] <==> n in e && n >= e[start]
  {
    forall n | n in e && n >= e[start]
      ensures n in e[start..]
    {
      var i :| 0 <= i < |e| && e[i] == n;
      assert e[start..][i - start] == n;
    }
  }

  /** The last element of a non-empty ascending sequence is its maximum. */
  lemma LastIsMax(e: seq<int>)
    requires StrictlyIncreasing(e) && |e| > 0
    ensures e[|e| - 1] in e && forall n :: n in e ==> n <= e[|e| - 1]
  {
  }

  // ---------------------------------------------------------------------
  // Restart

  /** The error `loadPersisted` reports when the storage cannot be read: the cause, wrapped with context. */
  function LoadFailure(cause: string): string
  {
    "failed to load persisted from Storage: " + cause
  }

  /**
   * What `loadPersisted` rebuilds from storage: the replayed sets truncated at
   * `LoadWatermark` of the ascending checkpoint sequence numbers, and the
   * newest checkpoint as last committed. A replay that aborts aborts the load,
   * a storage failure is an error, and a log without checkpoints aborts on the
   * out-of-range index.
   */
  ghost function Restored(storage: Storage): Outcome<(LogSets, u64)>
  {
    match Replay(storage.records)
    case Panic(m) => Panic(m)
    case Error(m) => Error(m)
    case Ok(s) =>
      if storage.end.ReadFailure? then Error(LoadFailure(storage.end.message))
      else KeepNewest(s)
  }

  /**
   * The end of `loadPersisted` on the replayed sets `s`: truncation at
   * `LoadWatermark` of the ascending checkpoint sequence numbers, with the
   * newest checkpoint as last committed; without checkpoints the index is
   * out of range.
   */
  ghost function KeepNewest(s: LogSets): Outcome<(LogSets, u64)>
  {
    if s.cSet == map[] then Panic("index out of range")
    else
      var e := SortedElems(s.cSet.Keys);
      var w := LoadWatermark(e);
      assert w in s.cSet.Keys && e[|e| - 1] in s.cSet.Keys;
      Ok((TruncateSets(s, w), e[|e| - 1]))
  }

  /** A load that succeeds restores well-keyed, configured sets whose newest checkpoint is last committed. */
  lemma RestoredFacts(storage: Storage)
    requires Restored(storage).Ok?
    ensures var (s, last) := Restored(storage).value;
      && WellKeyed(s) && CheckpointsConfigured(s)
      && last in s.cSet
      && (forall n :: n in Replay(storage.records).value.cSet ==> n <= last)
  {
    var full := Replay(storage.records).value;
    ReplayInvariant(storage.records);
    var e := SortedElems(full.cSet.Keys);
    TruncateInvariant(full, LoadWatermark(e));
    LoadKeepsNewestCheckpoints(full, LoadWatermark(e));
    assert e[|e| - 1] in TruncateSets(full, LoadWatermark(e)).cSet by {
      if |e| >= 3 {
        assert e[|e| - 3..][2] == e[|e| - 1];
      }
    }
  }

  // ---------------------------------------------------------------------
  // Epoch change

  datatype Checkpoint = Checkpoint(seqNo: u64, value: seq<byte>)
  datatype SetEntry = SetEntry(seqNo: u64, epoch: u64, digest: seq<byte>)
  datatype EpochChange = EpochChange(newEpoch: u64, checkpoints: seq<Checkpoint>, qSet: seq<SetEntry>, pSet: seq<SetEntry>)

  function CheckpointKey(c: Checkpoint): int
  {
    c.seqNo
  }

  function QEpoch(q: QEntry): int
  {
    q.epoch
  }

  function QSetEntry(q: QEntry): SetEntry
  {
    SetEntry(q.seqNo, q.epoch, q.digest)
  }

  function PSetEntry(p: PEntry): SetEntry
  {
    SetEntry(p.seqNo, p.epoch, p.digest)
  }

  /** The Q-entries `qs` as epoch-change set entries, in the same order. */
  function QSetEntries(qs: seq<QEntry>): (r: seq<SetEntry>)
    ensures |r| == |qs|
    ensures forall i :: 0 <= i < |qs| ==> r[i] == QSetEntry(qs[i])
  {
    seq(|qs|, i requires 0 <= i < |qs| => QSetEntry(qs[i]))
  }

  /** The loop of `constructEpochChange` that appends the sorted Q-entries as set entries. */
  method SetEntriesOf(entries: seq<QEntry>) returns (out: seq<SetEntry>)
    ensures out == QSetEntries(entries)
  {
    out := [];
    for i := 0 to |entries|
      invariant |out| == i
      invariant forall j :: 0 <= j < i ==> out[j] == QSetEntry(entries[j])
    {
      out := out + [QSetEntry(entries[i])];
    }
  }

  /** `order` lists every key of `keys` exactly once: one possible map iteration order. */
  ghost predicate Enumerates(order: seq<u64>, keys: set<u64>)
  {
    && (forall i, j :: 0 <= i < j < |order| ==> order[i] != order[j])
    && (forall n :: n in order <==> n in keys)
  }

  /** The state of the checkpoint scan of `constructEpochChange`; `None` stands for a nil pointer. */
  datatype Scan = Scan(highest: Option<Checkpoint>, config: Option<NetworkConfig>, others: seq<Checkpoint>)

  /**
   * The checkpoint scan, visiting the keys of `cSet` in `order`: a stable
   * checkpoint above the highest so far replaces it (and takes its network
   * configuration), every other checkpoint is appended to `others`.
   */
  function ScanCheckpoints(cSet: map<u64, CEntry>, stable: u64 -> bool, order: seq<u64>): Scan
    requires forall n :: n in order ==> n in cSet
  {
    if order == [] then Scan(None, None, [])
    else
      var sc := ScanCheckpoints(cSet, stable, order[..|order| - 1]);
      var n := order[|order| - 1];
      var cp := Checkpoint(n, cSet[n].checkpointValue);
      if stable(n) && (sc.highest.None? || sc.highest.value.seqNo < n) then Scan(Some(cp), cSet[n].networkConfig, sc.others)
      else Scan(sc.highest, sc.config, sc.others + [cp])
  }

  /** The anchor of the scan is the highest stable checkpoint, with its own configuration, whatever the order. */
  lemma {:induction false} ScanHighest(cSet: map<u64, CEntry>, stable: u64 -> bool, order: seq<u64>)
    requires forall n :: n in order ==> n in cSet
    ensures var sc := ScanCheckpoints(cSet, stable, order);
      && (sc.highest.Some? <==> exists n :: n in order && stable(n))
      && (sc.highest.Some? ==>
            var h := sc.highest.value.seqNo;
            && h in order && stable(h)
            && sc.highest.value == Checkpoint(h, cSet[h].checkpointValue)
            && sc.config == cSet[h].networkConfig
            && (forall n :: n in order && stable(n) ==> n <= h))
  {
    if order != [] {
      var prefix := order[..|order| - 1];
      ScanHighest(cSet, stable, prefix);
      assert forall m :: m in order <==> m in prefix || m == order[|order| - 1];
    }
  }

  /**
   * The checkpoints the scan sets aside are checkpoints of `cSet` with
   * distinct sequence numbers, none of them the anchor's.
   */
  lemma {:induction false} ScanOthers(cSet: map<u64, CEntry>, stable: u64 -> bool, order: seq<u64>)
    requires forall n :: n in order ==> n in cSet
    requires forall i, j :: 0 <= i < j < |order| ==> order[i] != order[j]
    ensures forall i :: 0 <= i < |ScanCheckpoints(cSet, stable, order).others| ==>
      var c := ScanCheckpoints(cSet, stable, order).others[i];
      c.seqNo in order && c == Checkpoint(c.seqNo, cSet[c.seqNo].checkpointValue)
    ensures ScanCheckpoints(cSet, stable, order).highest.Some? ==>
      var h := ScanCheckpoints(cSet, stable, order).highest.value.seqNo;
      h in order && forall i :: 0 <= i < |ScanCheckpoints(cSet, stable, order).others| ==> ScanCheckpoints(cSet, stable, order).others[i].seqNo != h
    ensures DistinctKeys(ScanCheckpoints(cSet, stable, order).others, CheckpointKey)
  {
    if order != [] {
      var prefix := order[..|order| - 1];
      var n := order[|order| - 1];
      ScanOthers(cSet, stable, prefix);
      assert forall m :: m in order <==> m in prefix || m == n;
      assert n !in prefix;
    }
  }

  /** Every checkpoint that is not stable is among those the scan sets aside. */
  lemma {:induction false} ScanKeepsUnstable(cSet: map<u64, CEntry>, stable: u64 -> bool, order: seq<u64>)
    requires forall n :: n in order ==> n in cSet
    ensures forall n :: n in order && !stable(n) ==>
      exists i :: 0 <= i < |ScanCheckpoints(cSet, stable, order).others| && ScanCheckpoints(cSet, stable, order).others[i].seqNo == n
  {
    if order != [] {
      var prefix := order[..|order| - 1];
      var n := order[|order| - 1];
      ScanKeepsUnstable(cSet, stable, prefix);
      var before := ScanCheckpoints(cSet, stable, prefix).others;
      var after := ScanCheckpoints(cSet, stable, order).others;
      assert before <= after;
      forall m | m in order && !stable(m)
        ensures exists i :: 0 <= i < |after| && after[i].seqNo == m
      {
        if m == n {
          assert after[|after| - 1].seqNo == m;
        } else {
          assert m in prefix;
          var i :| 0 <= i < |before| && before[i].seqNo == m;
          assert after[i] == before[i];
        }
      }
      assert after == ScanCheckpoints(cSet, stable, order).others;
    }
  }

  /**
   * The epoch-change proof `constructEpochChange` builds from the sets `s`
   * with the keys of the C-set visited in `order`, as written: see
   * `EpochChangeDependsOnOrder` for what this costs.
   */
  ghost function EpochChangeOf(s: LogSets, newEpoch: u64, stable: u64 -> bool, order: seq<u64>): Outcome<EpochChange>
    requires Enumerates(order, s.cSet.Keys)
  {
    EpochChangeFrom(s, newEpoch, ScanCheckpoints(s.cSet, stable, order))
  }

  /**
   * The proof built around the result `sc` of a checkpoint scan: it aborts
   * without an anchor or without the anchor's configuration; otherwise it
   * holds the scanned checkpoints sorted by sequence number and the Q- and
   * P-entries from the anchor up to three checkpoint intervals beyond it
   * (a bound computed in uint64 arithmetic).
   */
  ghost function EpochChangeFrom(s: LogSets, newEpoch: u64, sc: Scan): Outcome<EpochChange>
  {
    if sc.highest.None? then Panic("this should never happen")
    else if sc.config.None? then Panic("this should really never happen")
    else
      var anchor := sc.highest.value.seqNo;
      var bound := Add64(anchor, Mul64(sc.config.value.checkpointInterval, 3));
      Ok(EpochChange(newEpoch, SortBy(sc.others + [sc.highest.value], CheckpointKey),
                     QWindow(s.qSet, anchor, bound), PWindow(s, anchor, bound)))
  }

  /** The Q-entries at `n`, in ascending epoch order. */
  ghost function QEntriesAt(qSet: map<u64, map<u64, QEntry>>, n: u64): seq<SetEntry>
  {
    if n !in qSet then []
    else
      var epochs := SortedElems(qSet[n].Keys);
      SortedElemsIn(qSet[n].Keys);
      EpochEntries(n, qSet[n], epochs)
  }

  lemma SortedElemsIn(s: set<u64>)
    ensures forall i :: 0 <= i < |SortedElems(s)| ==> SortedElems(s)[i] in s
  {
    var r := SortedElems(s);
    forall i | 0 <= i < |r|
      ensures r[i] in s
    {
      assert r[i] in r;
    }
  }

  /** The Q-entries of `byEpoch` (those at sequence number `n`) for the listed epochs, in that order. */
  function EpochEntries(n: u64, byEpoch: map<u64, QEntry>, epochs: seq<u64>): (r: seq<SetEntry>)
    requires forall e :: e in epochs ==> e in byEpoch
    ensures |r| == |epochs|
    ensures forall i :: 0 <= i < |epochs| ==> r[i] == SetEntry(n, epochs[i], byEpoch[epochs[i]].digest)
  {
    if epochs == [] then []
    else EpochEntries(n, byEpoch, epochs[..|epochs| - 1]) + [SetEntry(n, epochs[|epochs| - 1], byEpoch[epochs[|epochs| - 1]].digest)]
  }

  /** The concatenation of `block(n)` for the sequence numbers `n` in `[lo, hi)`, in ascending order. */
  ghost function Blocks<T>(block: u64 -> seq<T>, lo: u64, hi: u64): seq<T>
    decreases hi - lo
  {
    if hi <= lo then [] else Blocks(block, lo, hi - 1) + block(hi - 1)
  }

  /** Position `i` of `Blocks` is position `k` of the block of some `n` of the range. */
  lemma {:induction false} BlocksLocate<T>(block: u64 -> seq<T>, lo: u64, hi: u64, i: nat) returns (n: u64, k: nat)
    requires i < |Blocks(block, lo, hi)|
    ensures lo <= n < hi && k < |block(n)| && Blocks(block, lo, hi)[i] == block(n)[k]
    decreases hi - lo
  {
    var front := Blocks(block, lo, hi - 1);
    if i < |front| {
      n, k := BlocksLocate(block, lo, hi - 1, i);
    } else {
      n, k := hi - 1, i - |front|;
    }
  }

  /** Of two positions of `Blocks`, the earlier comes from an earlier block, or earlier in the same block. */
  lemma {:induction false} BlocksLocatePair<T>(block: u64 -> seq<T>, lo: u64, hi: u64, i: nat, j: nat) returns (n1: u64, k1: nat, n2: u64, k2: nat)
    requires i < j < |Blocks(block, lo, hi)|
    ensures lo <= n1 < hi && k1 < |block(n1)| && Blocks(block, lo, hi)[i] == block(n1)[k1]
    ensures lo <= n2 < hi && k2 < |block(n2)| && Blocks(block, lo, hi)[j] == block(n2)[k2]
    ensures n1 < n2 || (n1 == n2 && k1 < k2)
    decreases hi - lo
  {
    var front := Blocks(block, lo, hi - 1);
    if j < |front| {
      n1, k1, n2, k2 := BlocksLocatePair(block, lo, hi - 1, i, j);
    } else if i < |front| {
      n1, k1 := BlocksLocate(block, lo, hi - 1, i);
      n2, k2 := hi - 1, j - |front|;
    } else {
      n1, k1, n2, k2 := hi - 1, i - |front|, hi - 1, j - |front|;
    }
  }

  /** Every element of the block of every `n` of the range has a position in `Blocks`. */
  lemma {:induction false} BlocksPosition<T>(block: u64 -> seq<T>, lo: u64, hi: u64, n: u64, k: nat) returns (i: nat)
    requires lo <= n < hi && k < |block(n)|
    ensures i < |Blocks(block, lo, hi)| && Blocks(block, lo, hi)[i] == block(n)[k]
    decreases hi - lo
  {
    if n < hi - 1 {
      i := BlocksPosition(block, lo, hi - 1, n, k);
    } else {
      i := |Blocks(block, lo, hi - 1)| + k;
    }
  }

  /** The Q-entries of the sequence numbers in `[lo, hi)`, by sequence number, then epoch. */
  ghost function QWindow(qSet: map<u64, map<u64, QEntry>>, lo: u64, hi: u64): seq<SetEntry>
  {
    Blocks((n: u64) => QEntriesAt(qSet, n), lo, hi)
  }

  /** The P-entry at `n`, when `n` also has Q-entries. */
  ghost function PEntryAt(s: LogSets, n: u64): seq<SetEntry>
  {
    if n in s.qSet && n in s.pSet then [SetEntry(n, s.pSet[n].epoch, s.pSet[n].digest)] else []
  }

  /** The P-entries of the sequence numbers in `[lo, hi)` that also have Q-entries, by sequence number. */
  ghost function PWindow(s: LogSets, lo: u64, hi: u64): seq<SetEntry>
  {
    Blocks((n: u64) => PEntryAt(s, n), lo, hi)
  }

  /** Extending a window by its next sequence number appends that number's entries. */
  lemma WindowStep(s: LogSets, lo: u64, n: u64)
    requires lo <= n < TWO_TO_THE_64 - 1
    ensures QWindow(s.qSet, lo, n + 1) == QWindow(s.qSet, lo, n) + QEntriesAt(s.qSet, n)
    ensures PWindow(s, lo, n + 1) == PWindow(s, lo, n) + PEntryAt(s, n)
    ensures n !in s.qSet ==> QEntriesAt(s.qSet, n) == [] && PEntryAt(s, n) == []
  {
  }

  /** `x` is the set entry of a Q-entry of `qSet`. */
  ghost predicate QEntryIn(qSet: map<u64, map<u64, QEntry>>, x: SetEntry)
  {
    x.seqNo in qSet && x.epoch in qSet[x.seqNo] && x.digest == qSet[x.seqNo][x.epoch].digest
  }

  /** `x` comes before `y` in the order of the proof's Q-set: by sequence number, then by epoch. */
  predicate QEntryBefore(x: SetEntry, y: SetEntry)
  {
    x.seqNo < y.seqNo || (x.seqNo == y.seqNo && x.epoch < y.epoch)
  }

  /** `x` is the set entry of a P-entry of `s` whose sequence number also has Q-entries. */
  ghost predicate PEntryIn(s: LogSets, x: SetEntry)
  {
    x.seqNo in s.qSet && x.seqNo in s.pSet && x.epoch == s.pSet[x.seqNo].epoch && x.digest == s.pSet[x.seqNo].digest
  }

  /** At one sequence number: only that number's Q-entries, in strictly ascending epoch order. */
  lemma QEntriesAtSound(qSet: map<u64, map<u64, QEntry>>, n: u64)
    ensures forall i :: 0 <= i < |QEntriesAt(qSet, n)| ==> QEntriesAt(qSet, n)[i].seqNo == n && QEntryIn(qSet, QEntriesAt(qSet, n)[i])
    ensures forall i, j :: 0 <= i < j < |QEntriesAt(qSet, n)| ==> QEntriesAt(qSet, n)[i].epoch < QEntriesAt(qSet, n)[j].epoch
  {
    if n in qSet {
      var at := QEntriesAt(qSet, n);
      var epochs := SortedElems(qSet[n].Keys);
      forall i | 0 <= i < |at|
        ensures at[i].epoch == epochs[i] && at[i].seqNo == n
      {
        assert epochs[i] in epochs;
      }
    }
  }

  /** At one sequence number: every Q-entry of that number. */
  lemma QEntriesAtComplete(qSet: map<u64, map<u64, QEntry>>, n: u64)
    ensures forall e :: n in qSet && e in qSet[n] ==> SetEntry(n, e, qSet[n][e].digest) in QEntriesAt(qSet, n)
  {
    if n in qSet {
      var at := QEntriesAt(qSet, n);
      var epochs := SortedElems(qSet[n].Keys);
      forall e | e in qSet[n]
        ensures SetEntry(n, e, qSet[n][e].digest) in at
      {
        var i :| 0 <= i < |epochs| && epochs[i] == e;
        assert at[i] == SetEntry(n, e, qSet[n][e].digest);
      }
    }
  }

  /** The Q-entries at `n` sorted by epoch, as set entries, are `QEntriesAt(qSet, n)`. */
  lemma QEntriesSorted(qSet: map<u64, map<u64, QEntry>>, n: u64, entries: seq<QEntry>)
    requires QKeyed(qSet) && n in qSet
    requires Keys(entries, QEpoch) == SortedElems(qSet[n].Keys)
    requires forall i :: 0 <= i < |entries| ==> entries[i].epoch in qSet[n] && entries[i] == qSet[n][entries[i].epoch]
    ensures QSetEntries(entries) == QEntriesAt(qSet, n)
  {
    var out := QSetEntries(entries);
    var at := QEntriesAt(qSet, n);
    forall i | 0 <= i < |out|
      ensures out[i] == at[i]
    {
      assert Keys(entries, QEpoch)[i] == entries[i].epoch;
    }
  }

  /** The Q-set part of the proof holds only Q-entries of the window. */
  lemma QWindowSound(qSet: map<u64, map<u64, QEntry>>, lo: u64, hi: u64)
    ensures forall i :: 0 <= i < |QWindow(qSet, lo, hi)| ==>
      lo <= QWindow(qSet, lo, hi)[i].seqNo < hi && QEntryIn(qSet, QWindow(qSet, lo, hi)[i])
  {
    forall i | 0 <= i < |QWindow(qSet, lo, hi)|
      ensures lo <= QWindow(qSet, lo, hi)[i].seqNo < hi && QEntryIn(qSet, QWindow(qSet, lo, hi)[i])
    {
      var n, k := BlocksLocate((n: u64) => QEntriesAt(qSet, n), lo, hi, i);
      QEntriesAtSound(qSet, n);
    }
  }

  /** The Q-set part of the proof holds every Q-entry of the window. */
  lemma QWindowComplete(qSet: map<u64, map<u64, QEntry>>, lo: u64, hi: u64)
    ensures forall n, e :: lo <= n < hi && n in qSet && e in qSet[n] ==> SetEntry(n, e, qSet[n][e].digest) in QWindow(qSet, lo, hi)
  {
    forall n, e | lo <= n < hi && n in qSet && e in qSet[n]
      ensures SetEntry(n, e, qSet[n][e].digest) in QWindow(qSet, lo, hi)
    {
      QEntriesAtComplete(qSet, n);
      var k :| 0 <= k < |QEntriesAt(qSet, n)| && QEntriesAt(qSet, n)[k] == SetEntry(n, e, qSet[n][e].digest);
      var i := BlocksPosition((n: u64) => QEntriesAt(qSet, n), lo, hi, n, k);
    }
  }

  /** The Q-set part of the proof is ordered by sequence number, then by epoch, without repetition. */
  lemma QWindowOrdered(qSet: map<u64, map<u64, QEntry>>, lo: u64, hi: u64)
    ensures forall i, j :: 0 <= i < j < |QWindow(qSet, lo, hi)| ==> QEntryBefore(QWindow(qSet, lo, hi)[i], QWindow(qSet, lo, hi)[j])
  {
    forall i, j | 0 <= i < j < |QWindow(qSet, lo, hi)|
      ensures QEntryBefore(QWindow(qSet, lo, hi)[i], QWindow(qSet, lo, hi)[j])
    {
      var n1, k1, n2, k2 := BlocksLocatePair((n: u64) => QEntriesAt(qSet, n), lo, hi, i, j);
      QEntriesAtSound(qSet, n1);
      QEntriesAtSound(qSet, n2);
    }
  }

  /**
   * The P-set part of the proof holds, for each sequence number of the window
   * that has Q-entries, its P-entry when there is one, in ascending order.
   */
  lemma PWindowMembers(s: LogSets, lo: u64, hi: u64)
    ensures forall i :: 0 <= i < |PWindow(s, lo, hi)| ==> lo <= PWindow(s, lo, hi)[i].seqNo < hi && PEntryIn(s, PWindow(s, lo, hi)[i])
    ensures forall n :: lo <= n < hi && n in s.qSet && n in s.pSet ==> SetEntry(n, s.pSet[n].epoch, s.pSet[n].digest) in PWindow(s, lo, hi)
    ensures forall i, j :: 0 <= i < j < |PWindow(s, lo, hi)| ==> PWindow(s, lo, hi)[i].seqNo < PWindow(s, lo, hi)[j].seqNo
  {
    var block := (n: u64) => PEntryAt(s, n);
    forall i | 0 <= i < |PWindow(s, lo, hi)|
      ensures lo <= PWindow(s, lo, hi)[i].seqNo < hi && PEntryIn(s, PWindow(s, lo, hi)[i])
    {
      var n, k := BlocksLocate(block, lo, hi, i);
    }
    forall n | lo <= n < hi && n in s.qSet && n in s.pSet
      ensures SetEntry(n, s.pSet[n].epoch, s.pSet[n].digest) in PWindow(s, lo, hi)
    {
      var i := BlocksPosition(block, lo, hi, n, 0);
    }
    forall i, j | 0 <= i < j < |PWindow(s, lo, hi)|
      ensures PWindow(s, lo, hi)[i].seqNo < PWindow(s, lo, hi)[j].seqNo
    {
      var n1, k1, n2, k2 := BlocksLocatePair(block, lo, hi, i, j);
    }
  }

  /**
   * The checkpoints of the proof: the function aborts when no checkpoint is
   * stable, and succeeds when one is and every checkpoint is configured; the
   * checkpoints it emits are checkpoints of the C-set, in strictly ascending
   * order, including the anchor (the highest stable one) and every checkpoint
   * that is not stable.
   */
  lemma EpochChangeCheckpoints(s: LogSets, newEpoch: u64, stable: u64 -> bool, order: seq<u64>)
    requires Enumerates(order, s.cSet.Keys)
    ensures !EpochChangeOf(s, newEpoch, stable, order).Error?
    ensures (forall n :: n in s.cSet ==> !stable(n)) ==> EpochChangeOf(s, newEpoch, stable, order).Panic?
    ensures CheckpointsConfigured(s) && (exists n :: n in s.cSet && stable(n)) ==> EpochChangeOf(s, newEpoch, stable, order).Ok?
    ensures EpochChangeOf(s, newEpoch, stable, order).Ok? ==>
      && EpochChangeOf(s, newEpoch, stable, order).value.newEpoch == newEpoch
      && ProofCheckpoints(s, stable, EpochChangeOf(s, newEpoch, stable, order).value.checkpoints)
  {
    ScanHighest(s.cSet, stable, order);
    var sc := ScanCheckpoints(s.cSet, stable, order);
    if sc.highest.Some? && sc.config.Some? {
      ScannedCheckpoints(s, stable, order);
      SortedCheckpoints(s, stable, sc.others + [sc.highest.value]);
    }
  }

  /** What the scan hands to the sort: the set-aside checkpoints, then the anchor. */
  lemma ScannedCheckpoints(s: LogSets, stable: u64 -> bool, order: seq<u64>)
    requires Enumerates(order, s.cSet.Keys)
    requires ScanCheckpoints(s.cSet, stable, order).highest.Some?
    ensures var sc := ScanCheckpoints(s.cSet, stable, order);
      var all := sc.others + [sc.highest.value];
      && DistinctKeys(all, CheckpointKey)
      && (forall i :: 0 <= i < |all| ==> all[i].seqNo in s.cSet && all[i].value == s.cSet[all[i].seqNo].checkpointValue)
      && (forall n :: n in s.cSet && !stable(n) ==> exists i :: 0 <= i < |all| && all[i].seqNo == n)
  {
    ScanHighest(s.cSet, stable, order);
    ScanOthers(s.cSet, stable, order);
    ScanKeepsUnstable(s.cSet, stable, order);
    var sc := ScanCheckpoints(s.cSet, stable, order);
    var all := sc.others + [sc.highest.value];
    forall n | n in s.cSet && !stable(n)
      ensures exists i :: 0 <= i < |all| && all[i].seqNo == n
    {
      var i :| 0 <= i < |sc.others| && sc.others[i].seqNo == n;
      assert all[i] == sc.others[i];
    }
  }

  /**
   * `cps` are checkpoints of the C-set, in strictly ascending order,
   * including the anchor (the highest stable one) and every checkpoint that is
   * not stable.
   */
  ghost predicate ProofCheckpoints(s: LogSets, stable: u64 -> bool, cps: seq<Checkpoint>)
  {
    && StrictlyIncreasing(Keys(cps, CheckpointKey))
    && (forall i :: 0 <= i < |cps| ==> cps[i].seqNo in s.cSet && cps[i].value == s.cSet[cps[i].seqNo].checkpointValue)
    && (exists i :: 0 <= i < |cps| && stable(cps[i].seqNo) && forall n :: n in s.cSet && stable(n) ==> n <= cps[i].seqNo)
    && (forall n :: n in s.cSet && !stable(n) ==> exists i :: 0 <= i < |cps| && cps[i].seqNo == n)
  }

  lemma SortedCheckpoints(s: LogSets, stable: u64 -> bool, all: seq<Checkpoint>)
    requires |all| > 0 && DistinctKeys(all, CheckpointKey)
    requires forall i :: 0 <= i < |all| ==> all[i].seqNo in s.cSet && all[i].value == s.cSet[all[i].seqNo].checkpointValue
    requires stable(all[|all| - 1].seqNo) && forall n :: n in s.cSet && stable(n) ==> n <= all[|all| - 1].seqNo
    requires forall n :: n in s.cSet && !stable(n) ==> exists i :: 0 <= i < |all| && all[i].seqNo == n
    ensures ProofCheckpoints(s, stable, SortBy(all, CheckpointKey))
  {
    SortedIncreasing(all);
    SortByPreserves(all, CheckpointKey,
      (c: Checkpoint) => c.seqNo in s.cSet && c.value == s.cSet[c.seqNo].checkpointValue);
    var cps := SortBy(all, CheckpointKey);
    var anchor := all[|all| - 1];
    assert anchor in cps;
    var k :| 0 <= k < |cps| && cps[k] == anchor;
    assert stable(cps[k].seqNo) && forall n :: n in s.cSet && stable(n) ==> n <= cps[k].seqNo;
    MembersKeepSeqNos(s, stable, all, cps);
  }

  /** Sorting checkpoints with distinct sequence numbers orders them strictly. */
  lemma SortedIncreasing(all: seq<Checkpoint>)
    requires DistinctKeys(all, CheckpointKey)
    ensures StrictlyIncreasing(Keys(SortBy(all, CheckpointKey), CheckpointKey))
  {
    var cps := SortBy(all, CheckpointKey);
    var ks := Keys(cps, CheckpointKey);
    forall i, j | 0 <= i < j < |ks|
      ensures ks[i] < ks[j]
    {
      assert CheckpointKey(cps[i]) != CheckpointKey(cps[j]);
    }
  }

  /** Every sequence number that `all` carries, `cps` carries too when it holds all of `all`. */
  lemma MembersKeepSeqNos(s: LogSets, stable: u64 -> bool, all: seq<Checkpoint>, cps: seq<Checkpoint>)
    requires forall i :: 0 <= i < |all| ==> all[i] in cps
    requires forall n :: n in s.cSet && !stable(n) ==> exists i :: 0 <= i < |all| && all[i].seqNo == n
    ensures forall n :: n in s.cSet && !stable(n) ==> exists i :: 0 <= i < |cps| && cps[i].seqNo == n
  {
    forall n | n in s.cSet && !stable(n)
      ensures exists i :: 0 <= i < |cps| && cps[i].seqNo == n
    {
      var j :| 0 <= j < |all| && all[j].seqNo == n;
      assert all[j] in cps;
      var i :| 0 <= i < |cps| && cps[i] == all[j];
    }
  }

  // ---------------------------------------------------------------------
  // The order dependence of the checkpoint scan, and its correction

  /**
   * As written, the scan forgets a stable checkpoint that a higher stable
   * checkpoint later displaces as the anchor, so the checkpoints of the
   * proof depend on the iteration order of the C-set: two stable
   * checkpoints visited in ascending order yield only the higher one,
   * visited in descending order they yield both.
   */
  lemma EpochChangeDependsOnOrder()
    ensures var s := LogSets(map[], map[], TwoCheckpoints());
      && Enumerates([10, 20], s.cSet.Keys) && Enumerates([20, 10], s.cSet.Keys)
      && EpochChangeOf(s, 1, AllStable, [10, 20]).Ok?
      && Checkpoint(10, [1]) !in EpochChangeOf(s, 1, AllStable, [10, 20]).value.checkpoints
      && EpochChangeOf(s, 1, AllStable, [20, 10]).Ok?
      && Checkpoint(10, [1]) in EpochChangeOf(s, 1, AllStable, [20, 10]).value.checkpoints
  {
    TwoCheckpointsOrders();
    EpochChangeAscending();
    EpochChangeDescending();
  }

  lemma TwoCheckpointsOrders()
    ensures Enumerates([10, 20], TwoCheckpoints().Keys) && Enumerates([20, 10], TwoCheckpoints().Keys)
  {
  }

  lemma EpochChangeAscending()
    requires Enumerates([10, 20], TwoCheckpoints().Keys)
    ensures EpochChangeOf(LogSets(map[], map[], TwoCheckpoints()), 1, AllStable, [10, 20]).Ok?
    ensures Checkpoint(10, [1]) !in EpochChangeOf(LogSets(map[], map[], TwoCheckpoints()), 1, AllStable, [10, 20]).value.checkpoints
  {
    ScanAscending();
    var only := [Checkpoint(20, [2])];
    var cps := SortBy(only, CheckpointKey);
    forall i | 0 <= i < |cps|
      ensures cps[i].seqNo == 20
    {
      assert cps[i] in only;
    }
  }

  lemma EpochChangeDescending()
    requires Enumerates([20, 10], TwoCheckpoints().Keys)
    ensures EpochChangeOf(LogSets(map[], map[], TwoCheckpoints()), 1, AllStable, [20, 10]).Ok?
    ensures Checkpoint(10, [1]) in EpochChangeOf(LogSets(map[], map[], TwoCheckpoints()), 1, AllStable, [20, 10]).value.checkpoints
  {
    ScanDescending();
    var all := [Checkpoint(10, [1])] + [Checkpoint(20, [2])];
    assert all[0] in SortBy(all, CheckpointKey);
  }

  /** Two configured checkpoints, at sequence numbers 10 and 20. */
  function TwoCheckpoints(): map<u64, CEntry>
  {
    map[10 := CEntry(10, [1], Some(NetworkConfig(5))), 20 := CEntry(20, [2], Some(NetworkConfig(5)))]
  }

  /** Visited in ascending order, the lower stable checkpoint is displaced and lost. */
  lemma ScanAscending()
    ensures ScanCheckpoints(TwoCheckpoints(), AllStable, [10, 20]) == Scan(Some(Checkpoint(20, [2])), Some(NetworkConfig(5)), [])
  {
    var order: seq<u64> := [10, 20];
    assert order[..1] == [10] && [10][..0] == [];
  }

  /** Visited in descending order, the lower stable checkpoint is kept. */
  lemma ScanDescending()
    ensures ScanCheckpoints(TwoCheckpoints(), AllStable, [20, 10]) == Scan(Some(Checkpoint(20, [2])), Some(NetworkConfig(5)), [Checkpoint(10, [1])])
  {
    var order: seq<u64> := [20, 10];
    assert order[..1] == [20] && [20][..0] == [];
  }

  /** A checkpoint tracker that holds every checkpoint stable. */
  predicate AllStable(n: u64)
  {
    true
  }

  /**
   * The corrected scan: a stable checkpoint displaced as the anchor joins the
   * other checkpoints instead of being forgotten.
   */
  function ScanCheckpointsFixed(cSet: map<u64, CEntry>, stable: u64 -> bool, order: seq<u64>): Scan
    requires forall n :: n in order ==> n in cSet
  {
    if order == [] then Scan(None, None, [])
    else
      var sc := ScanCheckpointsFixed(cSet, stable, order[..|order| - 1]);
      var n := order[|order| - 1];
      var cp := Checkpoint(n, cSet[n].checkpointValue);
      if stable(n) && (sc.highest.None? || sc.highest.value.seqNo < n) then
        Scan(Some(cp), cSet[n].networkConfig, sc.others + (if sc.highest.Some? then [sc.highest.value] else []))
      else Scan(sc.highest, sc.config, sc.others + [cp])
  }

  /** The proof `constructEpochChange` is meant to build: the one around the corrected scan. */
  ghost function EpochChangeOfFixed(s: LogSets, newEpoch: u64, stable: u64 -> bool, order: seq<u64>): Outcome<EpochChange>
    requires Enumerates(order, s.cSet.Keys)
  {
    EpochChangeFrom(s, newEpoch, ScanCheckpointsFixed(s.cSet, stable, order))
  }

  /** The correction changes nothing about the anchor and its configuration. */
  lemma {:induction false} ScanFixedSameAnchor(cSet: map<u64, CEntry>, stable: u64 -> bool, order: seq<u64>)
    requires forall n :: n in order ==> n in cSet
    ensures ScanCheckpointsFixed(cSet, stable, order).highest == ScanCheckpoints(cSet, stable, order).highest
    ensures ScanCheckpointsFixed(cSet, stable, order).config == ScanCheckpoints(cSet, stable, order).config
  {
    if order != [] {
      ScanFixedSameAnchor(cSet, stable, order[..|order| - 1]);
    }
  }

  /** Everything the corrected scan has seen: the set-aside checkpoints, then the anchor if any. */
  function Scanned(sc: Scan): seq<Checkpoint>
  {
    sc.others + if sc.highest.Some? then [sc.highest.value] else []
  }

  /**
   * The corrected scan keeps every visited checkpoint exactly once, with its
   * value from the C-set.
   */
  lemma {:induction false} ScanFixedKeepsAll(cSet: map<u64, CEntry>, stable: u64 -> bool, order: seq<u64>)
    requires forall n :: n in order ==> n in cSet
    requires forall i, j :: 0 <= i < j < |order| ==> order[i] != order[j]
    ensures forall i :: 0 <= i < |Scanned(ScanCheckpointsFixed(cSet, stable, order))| ==>
      var c := Scanned(ScanCheckpointsFixed(cSet, stable, order))[i];
      c.seqNo in order && c == Checkpoint(c.seqNo, cSet[c.seqNo].checkpointValue)
    ensures forall n :: n in order ==>
      exists i :: 0 <= i < |Scanned(ScanCheckpointsFixed(cSet, stable, order))| && Scanned(ScanCheckpointsFixed(cSet, stable, order))[i].seqNo == n
    ensures DistinctKeys(Scanned(ScanCheckpointsFixed(cSet, stable, order)), CheckpointKey)
  {
    if order != [] {
      var prefix := order[..|order| - 1];
      var n := order[|order| - 1];
      ScanFixedKeepsAll(cSet, stable, prefix);
      assert n !in prefix;
      var sc := ScanCheckpointsFixed(cSet, stable, prefix);
      var before := Scanned(sc);
      var cp := Checkpoint(n, cSet[n].checkpointValue);
      // either way the new checkpoint is inserted: last, or just in front of the anchor
      var at := if stable(n) && (sc.highest.None? || sc.highest.value.seqNo < n) then |before| else |sc.others|;
      assert Scanned(ScanCheckpointsFixed(cSet, stable, order)) == before[..at] + [cp] + before[at..];
      ScannedInsert(cSet, prefix, n, before, cp, at);
      assert order == prefix + [n];
    }
  }

  /** Inserting the checkpoint of a new sequence number `n` keeps the properties of `ScanFixedKeepsAll`. */
  lemma ScannedInsert(cSet: map<u64, CEntry>, prefix: seq<u64>, n: u64, before: seq<Checkpoint>, cp: Checkpoint, at: nat)
    requires n in cSet && cp == Checkpoint(n, cSet[n].checkpointValue) && n !in prefix && at <= |before|
    requires forall m :: m in prefix ==> m in cSet
    requires forall i :: 0 <= i < |before| ==>
      before[i].seqNo in prefix && before[i] == Checkpoint(before[i].seqNo, cSet[before[i].seqNo].checkpointValue)
    requires forall m :: m in prefix ==> exists i :: 0 <= i < |before| && before[i].seqNo == m
    requires DistinctKeys(before, CheckpointKey)
    ensures var after := before[..at] + [cp] + before[at..];
      && (forall i :: 0 <= i < |after| ==>
            after[i].seqNo in prefix + [n] && after[i] == Checkpoint(after[i].seqNo, cSet[after[i].seqNo].checkpointValue))
      && (forall m :: m in prefix + [n] ==> exists i :: 0 <= i < |after| && after[i].seqNo == m)
      && DistinctKeys(after, CheckpointKey)
  {
    var after := before[..at] + [cp] + before[at..];
    InsertAtElements(cp, before, at);
    forall i | 0 <= i < |before|
      ensures CheckpointKey(before[i]) != CheckpointKey(cp)
    {
      assert before[i].seqNo in prefix;
    }
    InsertAtDistinct(cp, before, CheckpointKey, at);
    forall i | 0 <= i < |after|
      ensures after[i].seqNo in prefix + [n] && after[i] == Checkpoint(after[i].seqNo, cSet[after[i].seqNo].checkpointValue)
    {
      if after[i] != cp {
        var j :| 0 <= j < |before| && before[j] == after[i];
      }
    }
    forall m | m in prefix + [n]
      ensures exists i :: 0 <= i < |after| && after[i].seqNo == m
    {
      if m == n {
        assert after[at] == cp;
      } else {
        var j :| 0 <= j < |before| && before[j].seqNo == m;
        assert before[j] in after;
      }
    }
  }

  /** All checkpoints of the C-set, in ascending order of sequence number. */
  ghost function AllCheckpoints(cSet: map<u64, CEntry>): (r: seq<Checkpoint>)
    ensures |r| == |cSet.Keys|
    ensures forall i :: 0 <= i < |r| ==> r[i].seqNo == SortedElems(cSet.Keys)[i]
    ensures forall i :: 0 <= i < |r| ==> r[i].seqNo in cSet && r[i].value == cSet[r[i].seqNo].checkpointValue
  {
    SortedElemsIn(cSet.Keys);
    var e: seq<u64> := SortedElems(cSet.Keys);
    seq(|e|, i requires 0 <= i < |e| => Checkpoint(e[i], cSet[e[i]].checkpointValue))
  }

  /**
   * With the correction, the checkpoints of the proof are all checkpoints
   * of the C-set in ascending order, whatever the iteration order.
   */
  lemma FixedCheckpointsCanonical(cSet: map<u64, CEntry>, stable: u64 -> bool, order: seq<u64>)
    requires Enumerates(order, cSet.Keys)
    requires ScanCheckpointsFixed(cSet, stable, order).highest.Some?
    ensures SortBy(ScanCheckpointsFixed(cSet, stable, order).others + [ScanCheckpointsFixed(cSet, stable, order).highest.value], CheckpointKey)
            == AllCheckpoints(cSet)
  {
    var sc := ScanCheckpointsFixed(cSet, stable, order);
    var all := Scanned(sc);
    ScanFixedKeepsAll(cSet, stable, order);
    ScannedKeys(cSet, order, all);
    SortedAll(cSet, all);
  }

  /** Sorting the checkpoints of every key of the C-set, each once, yields `AllCheckpoints`. */
  lemma SortedAll(cSet: map<u64, CEntry>, all: seq<Checkpoint>)
    requires DistinctKeys(all, CheckpointKey)
    requires forall k :: k in Keys(all, CheckpointKey) <==> k in cSet.Keys
    requires forall i :: 0 <= i < |all| ==> all[i].seqNo in cSet && all[i] == Checkpoint(all[i].seqNo, cSet[all[i].seqNo].checkpointValue)
    ensures SortBy(all, CheckpointKey) == AllCheckpoints(cSet)
  {
    SortByCanonical(all, CheckpointKey, cSet.Keys);
    SortedDrawn(cSet, all);
    CheckpointsByKeys(cSet, SortBy(all, CheckpointKey));
  }

  /** Sorting keeps checkpoints drawn from the C-set drawn from it. */
  lemma SortedDrawn(cSet: map<u64, CEntry>, all: seq<Checkpoint>)
    requires forall i :: 0 <= i < |all| ==> all[i].seqNo in cSet && all[i] == Checkpoint(all[i].seqNo, cSet[all[i].seqNo].checkpointValue)
    ensures forall i :: 0 <= i < |SortBy(all, CheckpointKey)| ==>
      var c := SortBy(all, CheckpointKey)[i];
      c.seqNo in cSet && c == Checkpoint(c.seqNo, cSet[c.seqNo].checkpointValue)
  {
    SortByPreserves(all, CheckpointKey, (c: Checkpoint) => c.seqNo in cSet && c == Checkpoint(c.seqNo, cSet[c.seqNo].checkpointValue));
  }

  /** Checkpoints of the C-set whose keys are those of the C-set in ascending order are `AllCheckpoints`. */
  lemma CheckpointsByKeys(cSet: map<u64, CEntry>, cps: seq<Checkpoint>)
    requires Keys(cps, CheckpointKey) == SortedElems(cSet.Keys)
    requires forall i :: 0 <= i < |cps| ==> cps[i].seqNo in cSet && cps[i] == Checkpoint(cps[i].seqNo, cSet[cps[i].seqNo].checkpointValue)
    ensures cps == AllCheckpoints(cSet)
  {
    var expected := AllCheckpoints(cSet);
    assert |cps| == |expected|;
    forall i | 0 <= i < |cps|
      ensures cps[i] == expected[i]
    {
      assert Keys(cps, CheckpointKey)[i] == SortedElems(cSet.Keys)[i];
    }
  }

  /** Checkpoints listing the keys of `order` list the keys of the C-set. */
  lemma ScannedKeys(cSet: map<u64, CEntry>, order: seq<u64>, all: seq<Checkpoint>)
    requires Enumerates(order, cSet.Keys)
    requires forall i :: 0 <= i < |all| ==> all[i].seqNo in order
    requires forall n :: n in order ==> exists i :: 0 <= i < |all| && all[i].seqNo == n
    ensures forall k :: k in Keys(all, CheckpointKey) <==> k in cSet.Keys
  {
    forall k
      ensures k in Keys(all, CheckpointKey) <==> k in cSet.Keys
    {
      if k in Keys(all, CheckpointKey) {
        var i :| 0 <= i < |all| && Keys(all, CheckpointKey)[i] == k;
        assert all[i].seqNo in order;
      }
      if k in cSet.Keys {
        var n: u64 := k;
        assert n in order;
        var i :| 0 <= i < |all| && all[i].seqNo == n;
        assert Keys(all, CheckpointKey)[i] == k;
      }
    }
  }

  /**
   * With the correction, `constructEpochChange` is what its comments promise:
   * deterministic. Its result does not depend on the iteration order, and on
   * success the proof holds every checkpoint of the C-set in ascending order.
   */
  lemma EpochChangeFixedDeterministic(s: LogSets, newEpoch: u64, stable: u64 -> bool, order1: seq<u64>, order2: seq<u64>)
    requires Enumerates(order1, s.cSet.Keys) && Enumerates(order2, s.cSet.Keys)
    ensures EpochChangeOfFixed(s, newEpoch, stable, order1) == EpochChangeOfFixed(s, newEpoch, stable, order2)
    ensures EpochChangeOfFixed(s, newEpoch, stable, order1).Ok? ==>
      EpochChangeOfFixed(s, newEpoch, stable, order1).value.checkpoints == AllCheckpoints(s.cSet)
  {
    ScanFixedSameAnchor(s.cSet, stable, order1);
    ScanFixedSameAnchor(s.cSet, stable, order2);
    ScanHighest(s.cSet, stable, order1);
    ScanHighest(s.cSet, stable, order2);
    var sc1 := ScanCheckpointsFixed(s.cSet, stable, order1);
    var sc2 := ScanCheckpointsFixed(s.cSet, stable, order2);
    if sc1.highest.Some? {
      assert sc1.highest.value.seqNo in order2;
      assert sc2.highest.value.seqNo in order1;
      assert sc1.highest == sc2.highest;
      FixedCheckpointsCanonical(s.cSet, stable, order1);
      FixedCheckpointsCanonical(s.cSet, stable, order2);
    }
  }

  /**
   * With the correction, the proof aborts exactly when no checkpoint is
   * stable or the anchor lacks a configuration, and never reports an error.
   */
  lemma EpochChangeFixedOutcome(s: LogSets, newEpoch: u64, stable: u64 -> bool, order: seq<u64>)
    requires Enumerates(order, s.cSet.Keys)
    ensures !EpochChangeOfFixed(s, newEpoch, stable, order).Error?
    ensures (forall n :: n in s.cSet ==> !stable(n)) <==> ScanCheckpointsFixed(s.cSet, stable, order).highest.None?
    ensures (forall n :: n in s.cSet ==> !stable(n)) ==> EpochChangeOfFixed(s, newEpoch, stable, order).Panic?
    ensures CheckpointsConfigured(s) && (exists n :: n in s.cSet && stable(n)) ==> EpochChangeOfFixed(s, newEpoch, stable, order).Ok?
    ensures EpochChangeOfFixed(s, newEpoch, stable, order).Ok? ==>
      && EpochChangeOfFixed(s, newEpoch, stable, order).value.newEpoch == newEpoch
      && ProofCheckpoints(s, stable, EpochChangeOfFixed(s, newEpoch, stable, order).value.checkpoints)
  {
    ScanFixedSameAnchor(s.cSet, stable, order);
    ScanHighest(s.cSet, stable, order);
    var sc := ScanCheckpointsFixed(s.cSet, stable, order);
    if sc.highest.Some? && sc.config.Some? {
      FixedCheckpointsCanonical(s.cSet, stable, order);
      AllCheckpointsProof(s, stable, sc.highest.value.seqNo);
    }
  }

  /** All checkpoints, in ascending order, make a proof around any highest stable anchor. */
  lemma AllCheckpointsProof(s: LogSets, stable: u64 -> bool, anchor: u64)
    requires anchor in s.cSet && stable(anchor)
    requires forall n :: n in s.cSet && stable(n) ==> n <= anchor
    ensures ProofCheckpoints(s, stable, AllCheckpoints(s.cSet))
  {
    var cps := AllCheckpoints(s.cSet);
    var e := SortedElems(s.cSet.Keys);
    assert forall i :: 0 <= i < |cps| ==> Keys(cps, CheckpointKey)[i] == e[i];
    assert Keys(cps, CheckpointKey) == e;
    forall n | n in s.cSet
      ensures exists i :: 0 <= i < |cps| && cps[i].seqNo == n
    {
      var i :| 0 <= i < |e| && e[i] == n;
      assert cps[i].seqNo == n;
    }
  }

  // ---------------------------------------------------------------------
  // The log

  class Persisted {
    var pSet: map<u64, PEntry>
    var qSet: map<u64, map<u64, QEntry>>
    var cSet: map<u64, CEntry>
    var lastCommitted: u64

    function Sets(): LogSets
      reads this
    {
      LogSets(pSet, qSet, cSet)
    }

    ghost predicate Valid()
      reads this
    {
      WellKeyed(Sets()) && CheckpointsConfigured(Sets())
    }

    constructor ()
      ensures Sets() == EmptySets && lastCommitted == 0
      ensures Valid()
    {
      pSet, qSet, cSet := map[], map[], map[];
      lastCommitted := 0;
    }

    /** `addPEntry` (persisted.go). */
    method AddPEntry(e: PEntry) returns (r: Outcome<Actions>)
      modifies this
      ensures r.Panic? <==> e.seqNo in old(pSet) && old(pSet)[e.seqNo].epoch >= e.epoch
      ensures r.Panic? ==> pSet == old(pSet)
      ensures r.Ok? ==> pSet == old(pSet)[e.seqNo := e] && r.value == Actions([PRecord(e)])
      ensures !r.Error?
      ensures qSet == old(qSet) && cSet == old(cSet) && lastCommitted == old(lastCommitted)
      ensures ApplyRecord(old(Sets()), PRecord(e)) == if r.Ok? then Ok(Sets()) else Panic(r.reason)
      ensures old(Valid()) ==> Valid()
    {
      if e.seqNo in pSet && pSet[e.seqNo].epoch >= e.epoch {
        return Panic("dev sanity test, remove me");
      }
      pSet := pSet[e.seqNo := e];
      return Ok(Actions([PRecord(e)]));
    }

    /** `addQEntry` (persisted.go). */
    method AddQEntry(e: QEntry) returns (r: Actions)
      modifies this
      ensures e.seqNo in qSet && qSet[e.seqNo] == (if e.seqNo in old(qSet) then old(qSet)[e.seqNo] else map[])[e.epoch := e]
      ensures forall n :: n != e.seqNo ==> (n in qSet <==> n in old(qSet)) && (n in qSet ==> qSet[n] == old(qSet)[n])
      ensures r == Actions([QRecord(e)])
      ensures pSet == old(pSet) && cSet == old(cSet) && lastCommitted == old(lastCommitted)
      ensures Ok(Sets()) == ApplyRecord(old(Sets()), QRecord(e))
      ensures old(Valid()) ==> Valid()
    {
      var qSeqMap: map<u64, QEntry>;
      if e.seqNo in qSet {
        qSeqMap := qSet[e.seqNo];
      } else {
        qSeqMap := map[];
      }
      qSet := qSet[e.seqNo := qSeqMap[e.epoch := e]];
      return Actions([QRecord(e)]);
    }

    /** `addCEntry` (persisted.go). */
    method AddCEntry(e: CEntry) returns (r: Outcome<Actions>)
      modifies this
      ensures r.Panic? <==> e.networkConfig.None?
      ensures r.Panic? ==> cSet == old(cSet)
      ensures r.Ok? ==> cSet == old(cSet)[e.seqNo := e] && r.value == Actions([CRecord(e)])
      ensures !r.Error?
      ensures pSet == old(pSet) && qSet == old(qSet) && lastCommitted == old(lastCommitted)
      ensures ApplyRecord(old(Sets()), CRecord(e)) == if r.Ok? then Ok(Sets()) else Panic(r.reason)
      ensures old(Valid()) ==> Valid()
    {
      if e.networkConfig.None? {
        return Panic("network config must be set");
      }
      cSet := cSet[e.seqNo := e];
      return Ok(Actions([CRecord(e)]));
    }

    /**
     * `loadPersisted` (persisted.go): replays the stored records in index
     * order, then keeps the three newest checkpoints (all of them when there
     * are fewer) and what lies above the oldest one kept, and takes the newest
     * checkpoint as last committed. It restores exactly `Restored(storage)`,
     * aborting and failing as that does.
     */
    static method LoadPersisted(storage: Storage) returns (r: Outcome<Persisted>)
      ensures r.Ok? <==> Restored(storage).Ok?
      ensures r.Error? ==> Restored(storage) == Error(r.message)
      ensures r.Panic? ==> Restored(storage) == Panic(r.reason)
      ensures r.Ok? ==> fresh(r.value) && r.value.Valid()
      ensures r.Ok? ==> (r.value.Sets(), r.value.lastCommitted) == Restored(storage).value
    {
      var p := new Persisted();
      var replayed := p.ReplayStorage(storage);
      if replayed.Error? {
        return Error(replayed.message);
      } else if replayed.Panic? {
        return Panic(replayed.reason);
      }
      ReplayInvariant(storage.records);
      var kept := p.KeepNewestCheckpoints();
      if kept.Panic? {
        return Panic(kept.reason);
      }
      return Ok(p);
    }

    /**
     * The end of `loadPersisted`: sorts the checkpoints by sequence number,
     * truncates at the third-newest (or the oldest) and takes the newest as
     * last committed; without checkpoints, the index is out of range.
     */
    method KeepNewestCheckpoints() returns (r: Outcome<()>)
      requires Valid()
      modifies this
      ensures !r.Error?
      ensures KeepNewest(old(Sets())) == if r.Ok? then Ok((Sets(), lastCommitted)) else Panic(r.reason)
      ensures r.Ok? ==> Valid()
    {
      var checkpoints := SortedCheckpoints();
      if |checkpoints| == 0 {
        return Panic("index out of range");
      }
      TruncateAt(checkpoints);
      return Ok(());
    }

    /** The checkpoints of the C-set sorted by sequence number, as `sort.Slice` leaves them. */
    method SortedCheckpoints() returns (checkpoints: seq<CEntry>)
      requires CKeyed(cSet)
      ensures Keys(checkpoints, CheckpointSeqNo) == SortedElems(cSet.Keys)
    {
      checkpoints := CollectCheckpoints();
      SortByCanonical(checkpoints, CheckpointSeqNo, cSet.Keys);
      checkpoints := SortBy(checkpoints, CheckpointSeqNo);
    }

    /** The replay loop of `loadPersisted`, into empty sets. */
    method ReplayStorage(storage: Storage) returns (r: Outcome<()>)
      requires Sets() == EmptySets
      modifies this
      ensures r.Ok? ==> storage.end.EndOfLog? && Replay(storage.records) == Ok(Sets())
      ensures r.Error? ==> && Replay(storage.records).Ok? && storage.end.ReadFailure?
                           && r.message == LoadFailure(storage.end.message)
      ensures r.Panic? ==> Replay(storage.records) == Panic(r.reason)
    {
      var records := storage.records;
      var index: nat := 0;
      while true
        invariant index <= |records|
        invariant Replay(records[..index]) == Ok(Sets())
        decreases |records| - index
      {
        var data := Load(storage, index);
        if data.EOF? {
          break;
        }
        if data.LoadError? {
          assert records[..index] == records;
          return Error(LoadFailure(data.message));
        }
        assert records[..index + 1][..index] == records[..index];
        match data.record {
          case PRecord(e) =>
            var added := AddPEntry(e);
            if added.Panic? {
              ReplayStopsAtPanic(records, index + 1);
              return Panic(added.reason);
            }
          case QRecord(e) =>
            var _ := AddQEntry(e);
          case CRecord(e) =>
            var added := AddCEntry(e);
            if added.Panic? {
              ReplayStopsAtPanic(records, index + 1);
              return Panic(added.reason);
            }
          case Unset =>
            ReplayStopsAtPanic(records, index + 1);
            return Panic("unrecognized data type");
        }
        index := index + 1;
      }
      assert records[..index] == records;
      return Ok(());
    }

    /** The values of the C-set, in map iteration order. */
    method CollectCheckpoints() returns (cs: seq<CEntry>)
      requires CKeyed(cSet)
      ensures DistinctKeys(cs, CheckpointSeqNo)
      ensures forall k :: k in Keys(cs, CheckpointSeqNo) <==> k in cSet.Keys
      ensures forall i :: 0 <= i < |cs| ==> cs[i].seqNo in cSet && cs[i] == cSet[cs[i].seqNo]
    {
      cs := [];
      var keys := cSet.Keys;
      while keys != {}
        invariant keys <= cSet.Keys
        invariant forall i :: 0 <= i < |cs| ==> cs[i].seqNo in cSet && cs[i].seqNo !in keys && cs[i] == cSet[cs[i].seqNo]
        invariant forall n :: n in cSet ==> n in keys || n in Keys(cs, CheckpointSeqNo)
        invariant DistinctKeys(cs, CheckpointSeqNo)
        decreases keys
      {
        EmptyOrHasElement(keys);
        var seqNo :| seqNo in keys;
        assert Keys(cs + [cSet[seqNo]], CheckpointSeqNo) == Keys(cs, CheckpointSeqNo) + [seqNo];
        cs := cs + [cSet[seqNo]];
        keys := keys - {seqNo};
      }
      forall k | k in Keys(cs, CheckpointSeqNo)
        ensures k in cSet.Keys
      {
        var i :| 0 <= i < |cs| && Keys(cs, CheckpointSeqNo)[i] == k;
      }
    }

    /**
     * The end of `loadPersisted`, given the checkpoints sorted by sequence
     * number: truncates at the third-newest (or the oldest) and takes the
     * newest as last committed.
     */
    method TruncateAt(checkpoints: seq<CEntry>)
      requires Valid() && |checkpoints| > 0
      requires Keys(checkpoints, CheckpointSeqNo) == SortedElems(cSet.Keys)
      modifies this
      ensures Valid()
      ensures KeepNewest(old(Sets())) == Ok((Sets(), lastCommitted))
    {
      KeepNewestOfSorted(Sets(), checkpoints);
      if |checkpoints| >= 3 {
        Truncate(checkpoints[|checkpoints| - 3].seqNo);
      } else {
        Truncate(checkpoints[0].seqNo);
      }
      lastCommitted := checkpoints[|checkpoints| - 1].seqNo;
    }

    /**
     * `constructEpochChange` (persisted.go), with the checkpoint scan
     * corrected as `ScanCheckpointsFixed` says. `order` is the iteration order
     * of the C-set, `stable` what the checkpoint tracker reports.
     */
    method ConstructEpochChange(newEpoch: u64, stable: u64 -> bool, order: seq<u64>) returns (r: Outcome<EpochChange>)
      requires WellKeyed(Sets()) && Enumerates(order, cSet.Keys)
      ensures r == EpochChangeOfFixed(Sets(), newEpoch, stable, order)
    {
      var sc := ScanInOrder(stable, order);
      if sc.highest.None? {
        return Panic("this should never happen");
      }
      if sc.config.None? {
        return Panic("this should really never happen");
      }
      // ordered by sequence number, so the list does not depend on map iteration order
      var checkpoints := SortBy(sc.others + [sc.highest.value], CheckpointKey);
      var anchor := sc.highest.value.seqNo;
      var bound := Add64(anchor, Mul64(sc.config.value.checkpointInterval, 3));
      var qEntries, pEntries := WindowEntries(anchor, bound);
      return Ok(EpochChange(newEpoch, checkpoints, qEntries, pEntries));
    }

    /** The checkpoint scan of `constructEpochChange`, corrected, visiting the C-set in `order`. */
    method ScanInOrder(stable: u64 -> bool, order: seq<u64>) returns (sc: Scan)
      requires forall n :: n in order ==> n in cSet
      ensures sc == ScanCheckpointsFixed(cSet, stable, order)
    {
      var highest: Option<Checkpoint> := None;
      var config: Option<NetworkConfig> := None;
      var checkpoints: seq<Checkpoint> := [];
      for i := 0 to |order|
        invariant Scan(highest, config, checkpoints) == ScanCheckpointsFixed(cSet, stable, order[..i])
      {
        var seqNo := order[i];
        var cp := Checkpoint(seqNo, cSet[seqNo].checkpointValue);
        if stable(seqNo) && (highest.None? || highest.value.seqNo < seqNo) {
          if highest.Some? {
            checkpoints := checkpoints + [highest.value];
          }
          highest := Some(cp);
          config := cSet[seqNo].networkConfig;
        } else {
          checkpoints := checkpoints + [cp];
        }
        assert order[..i + 1][..i] == order[..i];
      }
      assert order[..|order|] == order;
      return Scan(highest, config, checkpoints);
    }

    /** The window loop of `constructEpochChange`: the Q- and P-entries of the sequence numbers in `[lo, hi)`. */
    method WindowEntries(lo: u64, hi: u64) returns (qEntries: seq<SetEntry>, pEntries: seq<SetEntry>)
      requires QKeyed(qSet)
      ensures qEntries == QWindow(qSet, lo, hi)
      ensures pEntries == PWindow(Sets(), lo, hi)
    {
      qEntries, pEntries := [], [];
      ghost var s := Sets();
      var seqNo := lo;
      while seqNo < hi
        invariant lo <= seqNo && (seqNo <= hi || seqNo == lo)
        invariant qEntries == QWindow(s.qSet, lo, seqNo)
        invariant pEntries == PWindow(s, lo, seqNo)
        decreases hi - seqNo
      {
        WindowStep(s, lo, seqNo);
        var q, p := EntriesAt(seqNo);
        qEntries := qEntries + q;
        pEntries := pEntries + p;
        seqNo := seqNo + 1;
      }
    }

    /** One step of the window loop: the Q-entries at `n` and, when there are any, its P-entry. */
    method EntriesAt(n: u64) returns (q: seq<SetEntry>, p: seq<SetEntry>)
      requires QKeyed(qSet)
      ensures q == QEntriesAt(qSet, n)
      ensures p == PEntryAt(Sets(), n)
    {
      q, p := [], [];
      if n in qSet {
        q := QEntriesOf(n);
        if n in pSet {
          var pEntry := pSet[n];
          p := [SetEntry(n, pEntry.epoch, pEntry.digest)];
        }
      }
    }

    /** The Q-entries at `n`, sorted by epoch and turned into set entries. */
    method QEntriesOf(n: u64) returns (out: seq<SetEntry>)
      requires QKeyed(qSet) && n in qSet
      ensures out == QEntriesAt(qSet, n)
    {
      var entries := SortedQEntries(n);
      out := SetEntriesOf(entries);
      QEntriesSorted(qSet, n, entries);
    }

    /** The Q-entries at `n` sorted by epoch, as `sort.Slice` leaves them. */
    method SortedQEntries(n: u64) returns (entries: seq<QEntry>)
      requires QKeyed(qSet) && n in qSet
      ensures Keys(entries, QEpoch) == SortedElems(qSet[n].Keys)
      ensures forall i :: 0 <= i < |entries| ==> entries[i].epoch in qSet[n] && entries[i] == qSet[n][entries[i].epoch]
    {
      var byEpoch := qSet[n];
      entries := CollectQEntries(n);
      SortByCanonical(entries, QEpoch, byEpoch.Keys);
      SortByPreserves(entries, QEpoch, (q: QEntry) => q.epoch in byEpoch && q == byEpoch[q.epoch]);
      entries := SortBy(entries, QEpoch);
    }

    /** The values of the Q-entries at `n`, in map iteration order. */
    method CollectQEntries(n: u64) returns (qs: seq<QEntry>)
      requires QKeyed(qSet) && n in qSet
      ensures DistinctKeys(qs, QEpoch)
      ensures forall k :: k in Keys(qs, QEpoch) <==> k in qSet[n].Keys
      ensures forall i :: 0 <= i < |qs| ==> qs[i].epoch in qSet[n] && qs[i] == qSet[n][qs[i].epoch]
    {
      var byEpoch := qSet[n];
      qs := [];
      var keys := byEpoch.Keys;
      while keys != {}
        invariant keys <= byEpoch.Keys
        invariant forall i :: 0 <= i < |qs| ==> qs[i].epoch in byEpoch && qs[i].epoch !in keys && qs[i] == byEpoch[qs[i].epoch]
        invariant forall e :: e in byEpoch ==> e in keys || e in Keys(qs, QEpoch)
        invariant DistinctKeys(qs, QEpoch)
        decreases keys
      {
        EmptyOrHasElement(keys);
        var epoch :| epoch in keys;
        assert Keys(qs + [byEpoch[epoch]], QEpoch) == Keys(qs, QEpoch) + [epoch];
        qs := qs + [byEpoch[epoch]];
        keys := keys - {epoch};
      }
      forall k | k in Keys(qs, QEpoch)
        ensures k in byEpoch.Keys
      {
        var i :| 0 <= i < |qs| && Keys(qs, QEpoch)[i] == k;
      }
    }

    /** `setLastCommitted` (persisted.go): commits advance by exactly one, in uint64 arithmetic. */
    method SetLastCommitted(seqNo: u64) returns (r: Outcome<()>)
      modifies this`lastCommitted
      ensures r.Panic? <==> Add64(old(lastCommitted), 1) != seqNo
      ensures !r.Error?
      ensures lastCommitted == if r.Ok? then seqNo else old(lastCommitted)
    {
      if Add64(lastCommitted, 1) != seqNo {
        return Panic("dev sanity test, remove me: lastCommitted >= seqNo");
      }
      lastCommitted := seqNo;
      return Ok(());
    }

    /** `truncate` (persisted.go): three passes over the keys, in map iteration order. */
    method Truncate(lowWatermark: u64)
      modifies this
      ensures Sets() == TruncateSets(old(Sets()), lowWatermark)
      ensures lastCommitted == old(lastCommitted)
      ensures old(Valid()) ==> Valid()
    {
      ghost var s0 := Sets();
      DropPrepared(lowWatermark);
      DropPreprepared(lowWatermark);
      DropCheckpoints(lowWatermark);
      assert Sets() == TruncateSets(s0, lowWatermark);
      TruncateInvariant(s0, lowWatermark);
    }

    /** The first pass of `truncate`: P-entries at or below the watermark go, with the Q-entries at the same sequence number. */
    method DropPrepared(w: u64)
      modifies this`pSet, this`qSet
      ensures pSet == TruncateSets(old(Sets()), w).pSet
      ensures forall n :: n in qSet <==> n in old(qSet) && (n !in old(pSet) || n > w)
      ensures forall n :: n in qSet ==> qSet[n] == old(qSet)[n]
    {
      var keys := pSet.Keys;
      while keys != {}
        invariant keys <= pSet.Keys
        invariant forall n :: n in pSet <==> n in old(pSet) && (n in keys || n > w)
        invariant forall n :: n in pSet ==> pSet[n] == old(pSet)[n]
        invariant forall n :: n in qSet <==> n in old(qSet) && (n !in old(pSet) || n in keys || n > w)
        invariant forall n :: n in qSet ==> qSet[n] == old(qSet)[n]
        decreases keys
      {
        EmptyOrHasElement(keys);
        var seqNo :| seqNo in keys;
        if seqNo <= w {
          pSet := pSet - {seqNo};
          qSet := qSet - {seqNo};
        }
        keys := keys - {seqNo};
      }
    }

    /** The second pass of `truncate`: the remaining Q-entries at or below the watermark go. */
    method DropPreprepared(w: u64)
      modifies this`qSet
      ensures qSet == TruncateSets(old(Sets()), w).qSet
    {
      var keys := qSet.Keys;
      while keys != {}
        invariant keys <= qSet.Keys
        invariant forall n :: n in qSet <==> n in old(qSet) && (n in keys || n > w)
        invariant forall n :: n in qSet ==> qSet[n] == old(qSet)[n]
        decreases keys
      {
        EmptyOrHasElement(keys);
        var seqNo :| seqNo in keys;
        if seqNo <= w {
          qSet := qSet - {seqNo};
        }
        keys := keys - {seqNo};
      }
    }

    /** The third pass of `truncate`: checkpoints strictly below the watermark go. */
    method DropCheckpoints(w: u64)
      modifies this`cSet
      ensures cSet == TruncateSets(old(Sets()), w).cSet
    {
      var keys := cSet.Keys;
      while keys != {}
        invariant keys <= cSet.Keys
        invariant forall n :: n in cSet <==> n in old(cSet) && (n in keys || n >= w)
        invariant forall n :: n in cSet ==> cSet[n] == old(cSet)[n]
        decreases keys
      {
        EmptyOrHasElement(keys);
        var seqNo :| seqNo in keys;
        if seqNo < w {
          cSet := cSet - {seqNo};
        }
        keys := keys - {seqNo};
      }
    }
  }
}
