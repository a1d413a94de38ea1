/**
 * One bucket of the ordering pipeline (internal/bucket.go): the sequences of
 * the bucket between the watermarks, the cursor of the next sequence number
 * to assign, and, when this node leads the bucket, the batches waiting for a
 * sequence number. The leader cuts proposals into batches and assigns them
 * consecutive sequence numbers, keeping a margin of five checkpoint
 * intervals below the high watermark.
 */
module Buckets {
  import opened Common

  type Batch = seq<seq<byte>>

  /**
   * The parts of the epoch configuration a bucket reads. The configuration
   * is shared with the rest of the node, which moves the watermarks and then
   * calls `MoveWatermarks`.
   */
  datatype EpochConfig = EpochConfig(
    number: u64,
    lowWatermark: u64,
    highWatermark: u64,
    checkpointInterval: u64,
    buckets: map<u64, u64>,   // bucket → leading node
    myId: u64,
    cutSizeBytes: int)

  /** The Preprepare a leader broadcasts for a batch. */
  datatype Preprepare = Preprepare(epoch: u64, seqNo: u64, batch: Batch, bucket: u64)

  datatype BucketStatus = BucketStatus(id: u64, leader: bool, nextAssigned: u64, batchesPending: nat, sequences: seq<SequenceState>)

  /**
   * The agreement state of one sequence number. Its protocol logic lies
   * outside this model; a bucket only creates sequences and reads their state.
   */
  class Sequence {
    const seqNo: u64
    const bucket: u64
    var state: SequenceState

    constructor (seqNo: u64, bucket: u64)
      ensures this.seqNo == seqNo && this.bucket == bucket
      ensures state == Unknown
    {
      this.seqNo := seqNo;
      this.bucket := bucket;
      state := Unknown;
    }
  }

  // ---------------------------------------------------------------------
  // Draining the pending batches, as a function

  /** What `DrainQueue` leaves behind: the broadcast Preprepares, the next sequence number, the batches still pending. */
  datatype Drained = Drained(broadcast: seq<Preprepare>, nextAssigned: u64, pending: seq<Batch>)

  /** The last sequence number `DrainQueue` may assign: five checkpoint intervals below the high watermark, in uint64 arithmetic. */
  function AssignBound(config: EpochConfig): u64
  {
    Sub64(config.highWatermark, Mul64(5, config.checkpointInterval))
  }

  /**
   * Assigns `next`, `next + 1`, … (wrapping at 2^64) to the pending batches
   * from the front while the number to assign does not exceed `bound`.
   */
  function Drain(epoch: u64, bucket: u64, next: u64, bound: u64, pending: seq<Batch>): Drained
    decreases |pending|
  {
    if next <= bound && |pending| > 0 then
      var rest := Drain(epoch, bucket, Add64(next, 1), bound, pending[1..]);
      Drained([Preprepare(epoch, next, pending[0], bucket)] + rest.broadcast, rest.nextAssigned, rest.pending)
    else Drained([], next, pending)
  }

  /**
   * Draining pops some number k of batches off the front of the queue, in
   * order, and emits one Preprepare for each: consecutive sequence numbers
   * from `next` (modulo 2^64), never above `bound`, with the given epoch and
   * bucket. The cursor advances by exactly k. It stops only when the queue is
   * empty or the cursor has passed the bound.
   */
  lemma DrainFacts(epoch: u64, bucket: u64, next: u64, bound: u64, pending: seq<Batch>)
    ensures var d := Drain(epoch, bucket, next, bound, pending);
      && |d.broadcast| <= |pending|
      && d.pending == pending[|d.broadcast|..]
      && (forall i :: 0 <= i < |d.broadcast| ==>
            d.broadcast[i] == Preprepare(epoch, (next + i) % TWO_TO_THE_64, pending[i], bucket))
      && (forall i :: 0 <= i < |d.broadcast| ==> d.broadcast[i].seqNo <= bound)
      && d.nextAssigned == (next + |d.broadcast|) % TWO_TO_THE_64
      && (d.pending == [] || d.nextAssigned > bound)
  {
    DrainPops(epoch, bucket, next, bound, pending);
    DrainNumbers(epoch, bucket, next, bound, pending);
  }

  /** Draining pops batches off the front, advances the cursor by as many, and stops only when it must. */
  lemma {:induction false} DrainPops(epoch: u64, bucket: u64, next: u64, bound: u64, pending: seq<Batch>)
    ensures var d := Drain(epoch, bucket, next, bound, pending);
      && |d.broadcast| <= |pending|
      && d.pending == pending[|d.broadcast|..]
      && d.nextAssigned == (next + |d.broadcast|) % TWO_TO_THE_64
      && (d.pending == [] || d.nextAssigned > bound)
    decreases |pending|
  {
    if next <= bound && |pending| > 0 {
      var next' := Add64(next, 1);
      DrainPops(epoch, bucket, next', bound, pending[1..]);
      var rest := Drain(epoch, bucket, next', bound, pending[1..]);
      assert (next' + |rest.broadcast|) % TWO_TO_THE_64 == (next + 1 + |rest.broadcast|) % TWO_TO_THE_64;
      assert pending[1..][|rest.broadcast|..] == pending[|rest.broadcast| + 1..];
    }
  }

  /** The i-th Preprepare of a drain carries the i-th batch and the number `next + i`, which is within the bound. */
  lemma {:induction false} DrainNumbers(epoch: u64, bucket: u64, next: u64, bound: u64, pending: seq<Batch>)
    ensures var d := Drain(epoch, bucket, next, bound, pending);
      && |d.broadcast| <= |pending|
      && (forall i :: 0 <= i < |d.broadcast| ==>
            d.broadcast[i] == Preprepare(epoch, (next + i) % TWO_TO_THE_64, pending[i], bucket))
      && (forall i :: 0 <= i < |d.broadcast| ==> d.broadcast[i].seqNo <= bound)
    decreases |pending|
  {
    if next <= bound && |pending| > 0 {
      var next' := Add64(next, 1);
      DrainNumbers(epoch, bucket, next', bound, pending[1..]);
      var rest := Drain(epoch, bucket, next', bound, pending[1..]);
      var d := Drain(epoch, bucket, next, bound, pending);
      assert d.broadcast == [Preprepare(epoch, next, pending[0], bucket)] + rest.broadcast;
      forall i | 1 <= i < |d.broadcast|
        ensures d.broadcast[i] == Preprepare(epoch, (next + i) % TWO_TO_THE_64, pending[i], bucket)
      {
        assert d.broadcast[i] == rest.broadcast[i - 1];
        SuccessorShift(next, i);
      }
    }
  }

  /** Counting `i - 1` on from `next + 1` reaches `next + i`, modulo 2^64. */
  lemma SuccessorShift(next: u64, i: nat)
    requires i >= 1
    ensures (Add64(next, 1) + (i - 1)) % TWO_TO_THE_64 == (next + i) % TWO_TO_THE_64
  {
    if next + 1 == TWO_TO_THE_64 {
      assert Add64(next, 1) + (i - 1) == next + i - TWO_TO_THE_64;
    }
  }

  /** Nothing is pending, so draining emits nothing and changes nothing. */
  lemma DrainNothing(epoch: u64, bucket: u64, next: u64, bound: u64)
    ensures Drain(epoch, bucket, next, bound, []) == Drained([], next, [])
  {
  }

  /**
   * When the margin does not wrap around, no Preprepare gets a sequence
   * number within five checkpoint intervals of the high watermark.
   */
  lemma DrainKeepsMargin(config: EpochConfig, bucket: u64, next: u64, pending: seq<Batch>)
    requires 5 * config.checkpointInterval <= config.highWatermark
    ensures forall i :: 0 <= i < |Drain(config.number, bucket, next, AssignBound(config), pending).broadcast| ==>
      Drain(config.number, bucket, next, AssignBound(config), pending).broadcast[i].seqNo
        <= config.highWatermark - 5 * config.checkpointInterval
  {
    DrainFacts(config.number, bucket, next, AssignBound(config), pending);
  }

  /**
   * When the margin does wrap around (a high watermark below five checkpoint
   * intervals), the bound lies far above the high watermark: a batch can be
   * assigned a sequence number beyond it.
   */
  lemma DrainPastHighWhenWrapped()
    ensures var config := EpochConfig(0, 0, 9, 2, map[], 0, 0);
      && Drain(config.number, 0, 10, AssignBound(config), [[]]).broadcast == [Preprepare(0, 10, [], 0)]
      && 10 > config.highWatermark
  {
  }

  // ---------------------------------------------------------------------
  // The bucket

  class Bucket {
    var epochConfig: EpochConfig
    var leader: u64
    const id: u64
    /** The active sequences, by sequence number. */
    var sequences: map<u64, Sequence>
    var nextAssigned: u64
    var nextPreprepare: u64
    var nextPrepare: u64
    var nextCommit: u64
    // set only when this node leads the bucket
    var queue: seq<seq<byte>>
    var sizeBytes: int
    var pending: seq<Batch>

    /** Every sequence sits under its own number, in this bucket. */
    ghost predicate Keyed()
      reads this, sequences.Values
    {
      forall n :: n in sequences ==> sequences[n].seqNo == n && sequences[n].bucket == id
    }

    /** A bucket this node does not lead never holds pending batches. */
    ghost predicate FollowerIdle()
      reads this
    {
      !IAmLeader() ==> pending == []
    }

    /** `IAmLeader` (internal/bucket.go). */
    function IAmLeader(): bool
      reads this
    {
      leader == epochConfig.myId
    }

    /**
     * `NewBucket` (internal/bucket.go): the leader is the one the configuration
     * names for the bucket (node 0 when it names none), assignment starts at
     * the low watermark, and the watermarks are moved once.
     */
    constructor (config: EpochConfig, bucketID: u64)
      ensures epochConfig == config && id == bucketID
      ensures leader == if bucketID in config.buckets then config.buckets[bucketID] else 0
      ensures nextAssigned == config.lowWatermark && pending == [] && queue == [] && sizeBytes == 0
      ensures nextPreprepare == 0 && nextPrepare == 0 && nextCommit == 0
      ensures forall n :: n in sequences <==> config.lowWatermark <= n <= config.highWatermark
      ensures forall n :: n in sequences ==> fresh(sequences[n]) && sequences[n].state == Unknown
      ensures Keyed() && FollowerIdle()
    {
      epochConfig := config;
      leader := if bucketID in config.buckets then config.buckets[bucketID] else 0;
      id := bucketID;
      sequences := map[];
      nextAssigned := config.lowWatermark;
      nextPreprepare, nextPrepare, nextCommit := 0, 0, 0;
      queue, sizeBytes, pending := [], 0, [];
      new;
      var _ := MoveWatermarks();
    }

    /**
     * `MoveWatermarks` (internal/bucket.go): drops the sequences below the low
     * watermark, creates those missing up to the high watermark, keeps every
     * other sequence object as it is, then drains the queue.
     */
    method MoveWatermarks() returns (actions: seq<Preprepare>)
      modifies this
      ensures forall n :: n in sequences <==>
        (n in old(sequences) && n >= epochConfig.lowWatermark) || epochConfig.lowWatermark <= n <= epochConfig.highWatermark
      ensures forall n :: n in old(sequences) && n in sequences ==> sequences[n] == old(sequences)[n]
      ensures forall n :: n in sequences && n !in old(sequences) ==> fresh(sequences[n]) && sequences[n].state == Unknown
      ensures old(Keyed()) ==> Keyed()
      ensures epochConfig == old(epochConfig) && leader == old(leader)
      ensures queue == old(queue) && sizeBytes == old(sizeBytes)
      ensures nextPreprepare == old(nextPreprepare) && nextPrepare == old(nextPrepare) && nextCommit == old(nextCommit)
      ensures Drained(actions, nextAssigned, pending) ==
        Drain(epochConfig.number, id, old(nextAssigned), AssignBound(epochConfig), old(pending))
      ensures old(FollowerIdle()) ==> FollowerIdle()
      ensures old(FollowerIdle()) && !IAmLeader() ==> actions == []
    {
      DropBelowLow();
      CreateUpToHigh();
      actions := DrainQueue();
      DrainFacts(epochConfig.number, id, old(nextAssigned), AssignBound(epochConfig), old(pending));
      if !IAmLeader() && old(pending) == [] {
        DrainNothing(epochConfig.number, id, old(nextAssigned), AssignBound(epochConfig));
      }
    }

    /** The first loop of `MoveWatermarks`: sequences below the low watermark go. */
    method DropBelowLow()
      modifies this`sequences
      ensures forall n :: n in sequences <==> n in old(sequences) && n >= epochConfig.lowWatermark
      ensures forall n :: n in sequences ==> sequences[n] == old(sequences)[n]
    {
      var keys := sequences.Keys;
      while keys != {}
        invariant keys <= sequences.Keys
        invariant forall n :: n in sequences <==> n in old(sequences) && (n in keys || n >= epochConfig.lowWatermark)
        invariant forall n :: n in sequences ==> sequences[n] == old(sequences)[n]
        decreases keys
      {
        EmptyOrHasElement(keys);
        var seqNo :| seqNo in keys;
        if seqNo < epochConfig.lowWatermark {
          sequences := sequences - {seqNo};
        }
        keys := keys - {seqNo};
      }
    }

    /**
     * The second loop of `MoveWatermarks`: a new sequence for every number up
     * to the high watermark that has none. The counter runs over `int`, so the
     * loop also ends when the high watermark is 2^64 - 1, where the Go loop's
     * uint64 counter wraps around (`GoLoopNeverExitsAtTop`).
     */
    method CreateUpToHigh()
      modifies this`sequences
      ensures forall n :: n in sequences <==> n in old(sequences) || epochConfig.lowWatermark <= n <= epochConfig.highWatermark
      ensures forall n :: n in old(sequences) ==> sequences[n] == old(sequences)[n]
      ensures forall n :: n in sequences && n !in old(sequences) ==>
        fresh(sequences[n]) && sequences[n].seqNo == n && sequences[n].bucket == id && sequences[n].state == Unknown
    {
      var low, high := epochConfig.lowWatermark, epochConfig.highWatermark;
      if high < low {
        return;
      }
      for i: int := low to high + 1
        invariant forall n :: n in sequences <==> n in old(sequences) || low <= n < i
        invariant forall n :: n in old(sequences) ==> sequences[n] == old(sequences)[n]
        invariant forall n :: n in sequences && n !in old(sequences) ==>
          fresh(sequences[n]) && sequences[n].seqNo == n && sequences[n].bucket == id && sequences[n].state == Unknown
      {
        var seqNo: u64 := i;
        if seqNo !in sequences {
          var s := new Sequence(seqNo, id);
          sequences := sequences[seqNo := s];
        }
      }
    }

    /** Whether the Go loop `for i := ...; i <= high; i++` has stopped within `fuel` more iterations. */
    static predicate GoLoopExits(i: u64, high: u64, fuel: nat)
      decreases fuel
    {
      if i > high then true
      else if fuel == 0 then false
      else GoLoopExits(Add64(i, 1), high, fuel - 1)
    }

    /** At a high watermark of 2^64 - 1 the Go loop runs forever: `i++` wraps to 0, which passes the test again. */
    static lemma {:induction false} GoLoopNeverExitsAtTop(i: u64, fuel: nat)
      ensures !GoLoopExits(i, TWO_TO_THE_64 - 1, fuel)
      decreases fuel
    {
      if fuel > 0 {
        GoLoopNeverExitsAtTop(Add64(i, 1), fuel - 1);
      }
    }

    /** Below that, the Go loop stops after one iteration per number from `i` to the high watermark. */
    static lemma {:induction false} GoLoopExitsBelowTop(i: u64, high: u64, fuel: nat)
      requires high < TWO_TO_THE_64 - 1
      requires high + 1 - i <= fuel
      ensures GoLoopExits(i, high, fuel)
      decreases fuel
    {
      if i <= high {
        GoLoopExitsBelowTop(Add64(i, 1), high, fuel - 1);
      }
    }

    /**
     * `Propose` (internal/bucket.go): only the leader may propose. The data
     * joins the queue; the queue becomes a pending batch only when its size
     * reaches the cut size, and is then emptied either way, so a smaller
     * proposal is dropped. The queue is drained after.
     */
    method Propose(data: seq<byte>) returns (r: Outcome<seq<Preprepare>>)
      modifies this
      ensures r.Panic? <==> !old(IAmLeader())
      ensures !r.Error?
      ensures r.Panic? ==> pending == old(pending) && queue == old(queue) && sizeBytes == old(sizeBytes) && nextAssigned == old(nextAssigned)
      ensures r.Ok? ==> queue == [] && sizeBytes == 0
      ensures r.Ok? ==>
        var cut := if old(sizeBytes) + |data| >= epochConfig.cutSizeBytes then [old(queue) + [data]] else [];
        Drained(r.value, nextAssigned, pending) ==
          Drain(epochConfig.number, id, old(nextAssigned), AssignBound(epochConfig), old(pending) + cut)
      ensures sequences == old(sequences) && epochConfig == old(epochConfig) && leader == old(leader)
      ensures nextPreprepare == old(nextPreprepare) && nextPrepare == old(nextPrepare) && nextCommit == old(nextCommit)
      ensures old(FollowerIdle()) ==> FollowerIdle()
    {
      if !IAmLeader() {
        return Panic("I cannot propose data in a bucket for which  I'm not the leader");
      }
      queue := queue + [data];
      sizeBytes := sizeBytes + |data|;
      if sizeBytes >= epochConfig.cutSizeBytes {
        pending := pending + [queue];
      }
      ghost var cut := pending;
      queue := [];
      sizeBytes := 0;
      var actions := DrainQueue();
      assert cut == old(pending) + if old(sizeBytes) + |data| >= epochConfig.cutSizeBytes then [old(queue) + [data]] else [];
      return Ok(actions);
    }

    /**
     * `DrainQueue` (internal/bucket.go): assigns consecutive sequence numbers
     * to the pending batches from the front, one Preprepare each, while the
     * next number lies within the margin below the high watermark.
     */
    method DrainQueue() returns (actions: seq<Preprepare>)
      modifies this`nextAssigned, this`pending
      ensures Drained(actions, nextAssigned, pending) ==
        Drain(epochConfig.number, id, old(nextAssigned), AssignBound(epochConfig), old(pending))
    {
      actions := [];
      var bound := AssignBound(epochConfig);
      ghost var total := Drain(epochConfig.number, id, nextAssigned, bound, pending);
      while nextAssigned <= bound && |pending| > 0
        invariant total.broadcast == actions + Drain(epochConfig.number, id, nextAssigned, bound, pending).broadcast
        invariant total.nextAssigned == Drain(epochConfig.number, id, nextAssigned, bound, pending).nextAssigned
        invariant total.pending == Drain(epochConfig.number, id, nextAssigned, bound, pending).pending
        decreases |pending|
      {
        var preprepare := Preprepare(epochConfig.number, nextAssigned, pending[0], id);
        ghost var rest := Drain(epochConfig.number, id, Add64(nextAssigned, 1), bound, pending[1..]);
        assert Drain(epochConfig.number, id, nextAssigned, bound, pending).broadcast == [preprepare] + rest.broadcast;
        assert actions + ([preprepare] + rest.broadcast) == (actions + [preprepare]) + rest.broadcast;
        actions := actions + [preprepare];
        nextAssigned := Add64(nextAssigned, 1);
        pending := pending[1..];
      }
    }

    /**
     * `Status` (internal/bucket.go): the state of every sequence from the low
     * watermark up, as many as `int(high - low) + 1` in Go's 64-bit
     * arithmetic, plus the leader flag, the cursor and the number of pending
     * batches. A negative length aborts the allocation; a missing sequence
     * aborts on the nil dereference.
     */
    method Status() returns (r: Outcome<BucketStatus>)
      ensures r.Panic? <==>
        StatusLength(epochConfig) < 0 ||
        exists i :: 0 <= i < StatusLength(epochConfig) && Add64(epochConfig.lowWatermark, i) !in sequences
      ensures !r.Error?
      ensures r.Ok? ==>
        && r.value.id == id && r.value.leader == IAmLeader()
        && r.value.nextAssigned == nextAssigned && r.value.batchesPending == |pending|
        && |r.value.sequences| == StatusLength(epochConfig)
        && forall i :: 0 <= i < |r.value.sequences| ==>
             r.value.sequences[i] == sequences[Add64(epochConfig.lowWatermark, i)].state
    {
      var length := StatusLength(epochConfig);
      if length < 0 {
        return Panic("makeslice: len out of range");
      }
      var states := new SequenceState[length](_ => Unknown);
      for i := 0 to length
        invariant forall j :: 0 <= j < i ==> Add64(epochConfig.lowWatermark, j) in sequences
        invariant forall j :: 0 <= j < i ==> states[j] == sequences[Add64(epochConfig.lowWatermark, j)].state
      {
        var seqNo := Add64(epochConfig.lowWatermark, i);
        if seqNo !in sequences {
          return Panic("invalid memory address or nil pointer dereference");
        }
        states[i] := sequences[seqNo].state;
      }
      return Ok(BucketStatus(id, IAmLeader(), nextAssigned, |pending|, states[..]));
    }
  }

  /** The length `Status` allocates: `int(high - low) + 1`, in 64-bit arithmetic. */
  function StatusLength(config: EpochConfig): int
  {
    SlotCount(config.lowWatermark, config.highWatermark)
  }

  /** With the watermarks in order, `Status` reports one state per sequence number between them. */
  lemma StatusLengthInOrder(config: EpochConfig)
    requires config.lowWatermark <= config.highWatermark
    requires config.highWatermark - config.lowWatermark < 0x7FFF_FFFF_FFFF_FFFF
    ensures StatusLength(config) == config.highWatermark - config.lowWatermark + 1
    ensures forall i :: 0 <= i < StatusLength(config) ==>
      config.lowWatermark <= Add64(config.lowWatermark, i) <= config.highWatermark
  {
  }
}
