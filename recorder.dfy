/**
 * The test engine's view of a node (testengine/recorder.go): an eight-byte
 * little-endian codec for request numbers, the deterministic request
 * payloads of a simulated client, and the reorder buffer that turns commits
 * arriving out of order into an in-order hash chain with checkpoints.
 */
module Recorder {
  import opened Common

  // ---------------------------------------------------------------------
  // Little-endian codec
  // ---------------------------------------------------------------------

  function Pow256(n: nat): (p: nat)
    ensures p > 0
  {
    if n == 0 then 1 else 256 * Pow256(n - 1)
  }

  /** The `n` low-order base-256 digits of `v`, least significant first. */
  function LittleEndian(v: nat, n: nat): (b: seq<byte>)
    ensures |b| == n
  {
    if n == 0 then [] else [v % 256] + LittleEndian(v / 256, n - 1)
  }

  /** The number whose base-256 digits, least significant first, are `b`. */
  function FromLittleEndian(b: seq<byte>): nat
  {
    if |b| == 0 then 0 else b[0] + 256 * FromLittleEndian(b[1..])
  }

  lemma {:induction false} FromLittleEndianBound(b: seq<byte>)
    ensures FromLittleEndian(b) < Pow256(|b|)
  {
    if |b| > 0 {
      FromLittleEndianBound(b[1..]);
    }
  }

  /** Decoding undoes encoding for every value the digits can hold. */
  lemma {:induction false} DecodeEncode(v: nat, n: nat)
    requires v < Pow256(n)
    ensures FromLittleEndian(LittleEndian(v, n)) == v
  {
    if n > 0 {
      DecodeEncode(v / 256, n - 1);
      assert LittleEndian(v, n)[1..] == LittleEndian(v / 256, n - 1);
    }
  }

  /** Encoding undoes decoding: no two byte strings decode alike. */
  lemma {:induction false} EncodeDecode(b: seq<byte>)
    ensures LittleEndian(FromLittleEndian(b), |b|) == b
  {
    if |b| > 0 {
      EncodeDecode(b[1..]);
      var v := FromLittleEndian(b);
      assert v % 256 == b[0] && v / 256 == FromLittleEndian(b[1..]);
    }
  }

  /** `uint64ToBytes`: the eight bytes of `v`, least significant first. */
  function Uint64ToBytes(v: u64): (b: seq<byte>)
    ensures |b| == 8
    ensures b[0] == v % 256
    ensures FromLittleEndian(b) == v
  {
    DecodeEncode(v, 8);
    LittleEndian(v, 8)
  }

  /**
   * `bytesToUint64`: the value of the first eight bytes read least
   * significant first; aborts when fewer than eight bytes are given.
   */
  function BytesToUint64(b: seq<byte>): (r: Outcome<u64>)
    ensures r.Panic? <==> |b| < 8
    ensures !r.Error?
  {
    if |b| < 8 then Panic("index out of range")
    else
      FromLittleEndianBound(b[..8]);
      Ok(FromLittleEndian(b[..8]))
  }

  lemma Uint64RoundTrip(v: u64)
    ensures BytesToUint64(Uint64ToBytes(v)) == Ok(v)
  {
    assert Uint64ToBytes(v)[..8] == Uint64ToBytes(v);
  }

  lemma BytesRoundTrip(b: seq<byte>)
    requires |b| >= 8
    ensures Uint64ToBytes(BytesToUint64(b).value) == b[..8]
  {
    EncodeDecode(b[..8]);
  }

  // ---------------------------------------------------------------------
  // Client request payloads
  // ---------------------------------------------------------------------

  /** A simulated client: its identity and how many requests it sends. */
  datatype ClientConfig = ClientConfig(id: seq<byte>, txLatency: u64, maxInFlight: int, total: u64)

  const DASH: byte := 45

  /**
   * `RequestByReqNo`: nothing once every request has been sent; otherwise
   * the request whose payload is the client identity, a dash and the
   * request number's eight bytes.
   */
  function RequestByReqNo(config: ClientConfig, reqNo: u64): (r: Option<RequestData>)
    ensures r.None? <==> reqNo > config.total
    ensures r.Some? ==> r.value.clientId == config.id && r.value.reqNo == reqNo
    ensures r.Some? ==>
      && |r.value.data| == |config.id| + 9
      && r.value.data[..|config.id|] == config.id
      && r.value.data[|config.id|] == DASH
      && BytesToUint64(r.value.data[|config.id| + 1..]) == Ok(reqNo)
  {
    if reqNo > config.total then None
    else
      var data := config.id + [DASH] + Uint64ToBytes(reqNo);
      assert data[|config.id| + 1..] == Uint64ToBytes(reqNo);
      Uint64RoundTrip(reqNo);
      Some(RequestData(config.id, reqNo, data))
  }

  /** A client never sends the same payload for two request numbers. */
  lemma RequestPayloadsDistinct(config: ClientConfig, a: u64, b: u64)
    requires a <= config.total && b <= config.total && a != b
    ensures RequestByReqNo(config, a).value.data != RequestByReqNo(config, b).value.data
  {
    var n := |config.id| + 1;
    assert BytesToUint64(RequestByReqNo(config, a).value.data[n..]) == Ok(a);
    assert BytesToUint64(RequestByReqNo(config, b).value.data[n..]) == Ok(b);
  }

  // ---------------------------------------------------------------------
  // Commit reorder buffer: specification
  // ---------------------------------------------------------------------

  /** A committed batch: its sequence number, its requests' digests, and whether it ends a checkpoint interval. */
  datatype Commit = Commit(seqNo: u64, requestDigests: seq<seq<byte>>, checkpoint: bool)

  /** A checkpoint observed by the test engine: its sequence number and the hash chain value there. */
  datatype Checkpoint = Checkpoint(seqNo: u64, value: seq<byte>)

  /** Slot `k` is empty or holds the commit for sequence number `last + k + 1`. */
  predicate Aligned(buffer: seq<Option<Commit>>, last: u64)
  {
    forall k :: 0 <= k < |buffer| && buffer[k].Some? ==> buffer[k].value.seqNo == last + k + 1
  }

  predicate AllAbove(commits: seq<Commit>, last: u64)
  {
    forall k :: 0 <= k < |commits| ==> commits[k].seqNo > last
  }

  /** The buffer after the commit has been stored at its slot, with empty slots appended as needed. */
  function PlaceOne(buffer: seq<Option<Commit>>, last: u64, c: Commit): (placed: seq<Option<Commit>>)
    requires c.seqNo > last
    ensures |placed| == if |buffer| > c.seqNo - last then |buffer| else c.seqNo - last + 1
  {
    var index := c.seqNo - last;
    Grow(buffer, index + 1)[index - 1 := Some(c)]
  }

  /** The buffer after storing each of `commits` in turn. */
  function Placed(buffer: seq<Option<Commit>>, last: u64, commits: seq<Commit>): seq<Option<Commit>>
    requires AllAbove(commits, last)
  {
    if |commits| == 0 then buffer
    else PlaceOne(Placed(buffer, last, commits[..|commits| - 1]), last, commits[|commits| - 1])
  }

  lemma PlacedStep(buffer: seq<Option<Commit>>, last: u64, commits: seq<Commit>, t: nat)
    requires t < |commits| && AllAbove(commits[..t + 1], last)
    ensures AllAbove(commits[..t], last)
    ensures Placed(buffer, last, commits[..t + 1]) == PlaceOne(Placed(buffer, last, commits[..t]), last, commits[t])
  {
    assert commits[..t + 1][..t] == commits[..t];
  }

  /** The length of the longest prefix of occupied slots. */
  function FilledPrefix(buffer: seq<Option<Commit>>): (i: nat)
    ensures i <= |buffer|
    ensures forall k :: 0 <= k < i ==> buffer[k].Some?
    ensures i < |buffer| ==> buffer[i].None?
  {
    if |buffer| == 0 || buffer[0].None? then 0 else 1 + FilledPrefix(buffer[1..])
  }

  /** The commits held by a run of occupied slots. */
  function Unwrapped(slots: seq<Option<Commit>>): (cs: seq<Commit>)
    requires forall k :: 0 <= k < |slots| ==> slots[k].Some?
    ensures |cs| == |slots|
    ensures forall k :: 0 <= k < |slots| ==> slots[k] == Some(cs[k])
  {
    if |slots| == 0 then [] else Unwrapped(slots[..|slots| - 1]) + [slots[|slots| - 1].value]
  }

  lemma UnwrappedStep(slots: seq<Option<Commit>>, i: nat)
    requires i < |slots| && forall k :: 0 <= k <= i ==> slots[k].Some?
    ensures Unwrapped(slots[..i + 1]) == Unwrapped(slots[..i]) + [slots[i].value]
  {
    assert slots[..i + 1][..i] == slots[..i];
  }

  /** The bytes written to the hasher for a list of digests, in order. */
  function Concat(digests: seq<seq<byte>>): seq<byte>
  {
    if |digests| == 0 then [] else Concat(digests[..|digests| - 1]) + digests[|digests| - 1]
  }

  /** A uint64 counter after `n` increments. */
  function AddCount(length: u64, n: nat): u64
  {
    (length + n) % TWO_TO_THE_64
  }

  /** What the node has accumulated: hashed bytes, request count, last commit, checkpoints emitted. */
  datatype Progress = Progress(hashed: seq<byte>, length: u64, lastCommitted: u64, checkpoints: seq<Checkpoint>)

  /** Delivering one commit in order. */
  function Deliver(p: Progress, c: Commit, sum: seq<byte> -> seq<byte>): Progress
  {
    var hashed := p.hashed + Concat(c.requestDigests);
    Progress(
      hashed,
      AddCount(p.length, |c.requestDigests|),
      c.seqNo,
      if c.checkpoint then p.checkpoints + [Checkpoint(c.seqNo, sum(hashed))] else p.checkpoints)
  }

  /** Delivering a run of commits in order. */
  function DeliverAll(p: Progress, cs: seq<Commit>, sum: seq<byte> -> seq<byte>): Progress
  {
    if |cs| == 0 then p else Deliver(DeliverAll(p, cs[..|cs| - 1], sum), cs[|cs| - 1], sum)
  }

  /** All request digests of a run of commits, flattened in order. */
  function AllDigests(cs: seq<Commit>): seq<seq<byte>>
  {
    if |cs| == 0 then [] else AllDigests(cs[..|cs| - 1]) + cs[|cs| - 1].requestDigests
  }

  /** The sequence numbers of the commits flagged as checkpoints, in order. */
  function FlaggedSeqNos(cs: seq<Commit>): seq<u64>
  {
    if |cs| == 0 then []
    else FlaggedSeqNos(cs[..|cs| - 1]) + (if cs[|cs| - 1].checkpoint then [cs[|cs| - 1].seqNo] else [])
  }

  function SeqNos(checkpoints: seq<Checkpoint>): (s: seq<u64>)
    ensures |s| == |checkpoints|
    ensures forall k :: 0 <= k < |s| ==> s[k] == checkpoints[k].seqNo
  {
    if |checkpoints| == 0 then [] else SeqNos(checkpoints[..|checkpoints| - 1]) + [checkpoints[|checkpoints| - 1].seqNo]
  }

  // ---------------------------------------------------------------------
  // Commit reorder buffer: properties
  // ---------------------------------------------------------------------

  lemma ConcatAppend(a: seq<seq<byte>>, b: seq<seq<byte>>)
    ensures Concat(a + b) == Concat(a) + Concat(b)
    decreases |b|
  {
    if |b| > 0 {
      ConcatAppend(a, b[..|b| - 1]);
      assert (a + b)[..|a + b| - 1] == a + b[..|b| - 1];
    } else {
      assert a + b == a;
    }
  }

  lemma AddCountTwice(length: u64, m: nat, n: nat)
    ensures AddCount(AddCount(length, m), n) == AddCount(length, m + n)
  {
  }

  /** Delivering a run writes all its request digests to the hasher, in order. */
  lemma {:induction false} DeliverAllHashed(p: Progress, cs: seq<Commit>, sum: seq<byte> -> seq<byte>)
    ensures DeliverAll(p, cs, sum).hashed == p.hashed + Concat(AllDigests(cs))
  {
    if |cs| > 0 {
      var init := cs[..|cs| - 1];
      DeliverAllHashed(p, init, sum);
      ConcatAppend(AllDigests(init), cs[|cs| - 1].requestDigests);
    }
  }

  /** Delivering a run advances the request counter, modulo 2^64, by the number of its requests. */
  lemma {:induction false} DeliverAllLength(p: Progress, cs: seq<Commit>, sum: seq<byte> -> seq<byte>)
    ensures DeliverAll(p, cs, sum).length == AddCount(p.length, |AllDigests(cs)|)
  {
    if |cs| > 0 {
      var init := cs[..|cs| - 1];
      DeliverAllLength(p, init, sum);
      AddCountTwice(p.length, |AllDigests(init)|, |cs[|cs| - 1].requestDigests|);
    }
  }

  /** Delivering a run emits one checkpoint per flagged commit, in delivery order. */
  lemma {:induction false} DeliverAllCheckpoints(p: Progress, cs: seq<Commit>, sum: seq<byte> -> seq<byte>)
    ensures SeqNos(DeliverAll(p, cs, sum).checkpoints) == SeqNos(p.checkpoints) + FlaggedSeqNos(cs)
  {
    if |cs| > 0 {
      var init := cs[..|cs| - 1];
      var c := cs[|cs| - 1];
      DeliverAllCheckpoints(p, init, sum);
      var before := DeliverAll(p, init, sum).checkpoints;
      var after := Deliver(DeliverAll(p, init, sum), c, sum).checkpoints;
      if c.checkpoint {
        assert after[..|after| - 1] == before;
      }
    }
  }

  /** After a non-empty run, the last delivered commit is the run's last. */
  lemma DeliverAllLast(p: Progress, cs: seq<Commit>, sum: seq<byte> -> seq<byte>)
    ensures |cs| > 0 ==> DeliverAll(p, cs, sum).lastCommitted == cs[|cs| - 1].seqNo
    ensures |cs| == 0 ==> DeliverAll(p, cs, sum) == p
  {
  }

  /** The checkpoint a flagged commit at position `m` of a run would carry. */
  function CheckpointAt(p: Progress, cs: seq<Commit>, m: nat, sum: seq<byte> -> seq<byte>): Checkpoint
    requires m < |cs|
  {
    Checkpoint(cs[m].seqNo, sum(p.hashed + Concat(AllDigests(cs[..m + 1]))))
  }

  /** Every checkpoint a run emits carries the hash of everything written up to and including its own commit. */
  lemma {:induction false} DeliverAllCheckpointValues(p: Progress, cs: seq<Commit>, sum: seq<byte> -> seq<byte>)
    ensures forall x :: x in DeliverAll(p, cs, sum).checkpoints ==>
      x in p.checkpoints || exists m :: 0 <= m < |cs| && cs[m].checkpoint && x == CheckpointAt(p, cs, m, sum)
  {
    if |cs| > 0 {
      var init := cs[..|cs| - 1];
      DeliverAllCheckpointValues(p, init, sum);
      forall x | x in DeliverAll(p, cs, sum).checkpoints && x !in p.checkpoints
        ensures exists m :: 0 <= m < |cs| && cs[m].checkpoint && x == CheckpointAt(p, cs, m, sum)
      {
        assert cs == init + [cs[|cs| - 1]];
        CheckpointValueStep(p, init, cs[|cs| - 1], sum, x);
      }
    }
  }

  lemma CheckpointValueStep(p: Progress, init: seq<Commit>, c: Commit, sum: seq<byte> -> seq<byte>, x: Checkpoint)
    requires x !in p.checkpoints
    requires forall y :: y in DeliverAll(p, init, sum).checkpoints ==>
      y in p.checkpoints || exists m :: 0 <= m < |init| && init[m].checkpoint && y == CheckpointAt(p, init, m, sum)
    requires x in DeliverAll(p, init + [c], sum).checkpoints
    ensures exists m :: 0 <= m < |init| + 1 && (init + [c])[m].checkpoint && x == CheckpointAt(p, init + [c], m, sum)
  {
    var cs := init + [c];
    assert cs[..|cs| - 1] == init;
    var before := DeliverAll(p, init, sum);
    if x in before.checkpoints {
      var m :| 0 <= m < |init| && init[m].checkpoint && x == CheckpointAt(p, init, m, sum);
      assert init[..m + 1] == cs[..m + 1];
      assert x == CheckpointAt(p, cs, m, sum);
    } else {
      assert c.checkpoint && x == Checkpoint(c.seqNo, sum(before.hashed + Concat(c.requestDigests)));
      NewCheckpointValue(p, init, c, sum);
    }
  }

  lemma NewCheckpointValue(p: Progress, init: seq<Commit>, c: Commit, sum: seq<byte> -> seq<byte>)
    ensures Checkpoint(c.seqNo, sum(DeliverAll(p, init, sum).hashed + Concat(c.requestDigests)))
      == CheckpointAt(p, init + [c], |init|, sum)
  {
    var cs := init + [c];
    DeliverAllHashed(p, init, sum);
    ConcatAppend(AllDigests(init), c.requestDigests);
    assert cs[..|init| + 1] == cs;
    assert cs[..|cs| - 1] == init;
    assert AllDigests(cs) == AllDigests(init) + c.requestDigests;
    calc {
      DeliverAll(p, init, sum).hashed + Concat(c.requestDigests);
      p.hashed + Concat(AllDigests(init)) + Concat(c.requestDigests);
      p.hashed + Concat(AllDigests(cs));
      p.hashed + Concat(AllDigests(cs[..|init| + 1]));
    }
  }

  /**
   * The checkpoints a run emits, read off the run itself: the `CheckpointAt`
   * of each flagged position, in order.
   */
  function EmittedCheckpoints(p: Progress, cs: seq<Commit>, sum: seq<byte> -> seq<byte>): seq<Checkpoint>
  {
    if |cs| == 0 then []
    else EmittedCheckpoints(p, cs[..|cs| - 1], sum) + (if cs[|cs| - 1].checkpoint then [CheckpointAt(p, cs, |cs| - 1, sum)] else [])
  }

  /** Delivering a run appends exactly its emitted checkpoints, in order, to those already emitted. */
  lemma {:induction false} DeliverAllCheckpointsExact(p: Progress, cs: seq<Commit>, sum: seq<byte> -> seq<byte>)
    ensures DeliverAll(p, cs, sum).checkpoints == p.checkpoints + EmittedCheckpoints(p, cs, sum)
  {
    if |cs| > 0 {
      var init := cs[..|cs| - 1];
      var c := cs[|cs| - 1];
      DeliverAllCheckpointsExact(p, init, sum);
      if c.checkpoint {
        assert cs == init + [c];
        NewCheckpointValue(p, init, c, sum);
      }
    }
  }

  /** Storing one commit keeps the other slots and appends only empty ones. */
  lemma PlaceOneUntouched(buffer: seq<Option<Commit>>, last: u64, c: Commit)
    requires c.seqNo > last
    ensures |PlaceOne(buffer, last, c)| >= |buffer|
    ensures PlaceOne(buffer, last, c)[c.seqNo - last - 1] == Some(c)
    ensures forall k :: 0 <= k < |PlaceOne(buffer, last, c)| && k != c.seqNo - last - 1 ==>
      PlaceOne(buffer, last, c)[k] == if k < |buffer| then buffer[k] else None
  {
  }

  lemma PlaceOneAligned(buffer: seq<Option<Commit>>, last: u64, c: Commit)
    requires Aligned(buffer, last) && c.seqNo > last
    ensures Aligned(PlaceOne(buffer, last, c), last)
  {
    PlaceOneUntouched(buffer, last, c);
  }

  /** Storing commits above `last` keeps the buffer aligned. */
  lemma {:induction false} PlacedAligned(buffer: seq<Option<Commit>>, last: u64, commits: seq<Commit>)
    requires Aligned(buffer, last) && AllAbove(commits, last)
    ensures Aligned(Placed(buffer, last, commits), last)
  {
    if |commits| > 0 {
      PlacedAligned(buffer, last, commits[..|commits| - 1]);
      PlaceOneAligned(Placed(buffer, last, commits[..|commits| - 1]), last, commits[|commits| - 1]);
    }
  }

  /** Every stored commit occupies the slot of its sequence number. */
  lemma {:induction false} PlacedPresent(buffer: seq<Option<Commit>>, last: u64, commits: seq<Commit>)
    requires AllAbove(commits, last)
    ensures |Placed(buffer, last, commits)| >= |buffer|
    ensures forall k :: 0 <= k < |commits| ==>
      commits[k].seqNo - last - 1 < |Placed(buffer, last, commits)|
      && Placed(buffer, last, commits)[commits[k].seqNo - last - 1].Some?
  {
    if |commits| > 0 {
      var init := commits[..|commits| - 1];
      var c := commits[|commits| - 1];
      PlacedPresent(buffer, last, init);
      var before := Placed(buffer, last, init);
      PlaceOneUntouched(before, last, c);
      forall k | 0 <= k < |commits|
        ensures commits[k].seqNo - last - 1 < |Placed(buffer, last, commits)|
        ensures Placed(buffer, last, commits)[commits[k].seqNo - last - 1].Some?
      {
        if k < |init| {
          assert commits[k] == init[k];
          assert before[init[k].seqNo - last - 1].Some?;
        }
      }
    }
  }

  predicate SeqNoIn(commits: seq<Commit>, seqNo: int)
  {
    exists m :: 0 <= m < |commits| && commits[m].seqNo == seqNo
  }

  /** Slots of sequence numbers no stored commit carries keep their content, or are empty where the buffer grew. */
  lemma {:induction false} PlacedUntouched(buffer: seq<Option<Commit>>, last: u64, commits: seq<Commit>)
    requires AllAbove(commits, last)
    ensures |Placed(buffer, last, commits)| >= |buffer|
    ensures forall k :: 0 <= k < |Placed(buffer, last, commits)| && !SeqNoIn(commits, last + k + 1) ==>
      Placed(buffer, last, commits)[k] == if k < |buffer| then buffer[k] else None
  {
    if |commits| > 0 {
      var init := commits[..|commits| - 1];
      PlacedUntouched(buffer, last, init);
      PlaceOneUntouched(Placed(buffer, last, init), last, commits[|commits| - 1]);
      forall n | SeqNoIn(init, n)
        ensures SeqNoIn(commits, n)
      {
        var m :| 0 <= m < |init| && init[m].seqNo == n;
        assert commits[m] == init[m];
      }
    }
  }

  /** The last commit stored for a sequence number is the one its slot holds. */
  lemma PlacedLast(buffer: seq<Option<Commit>>, last: u64, commits: seq<Commit>)
    requires AllAbove(commits, last) && |commits| > 0
    ensures Placed(buffer, last, commits)[commits[|commits| - 1].seqNo - last - 1] == Some(commits[|commits| - 1])
  {
    PlaceOneUntouched(Placed(buffer, last, commits[..|commits| - 1]), last, commits[|commits| - 1]);
  }

  /**
   * The occupied prefix of an aligned buffer holds commits with consecutive
   * sequence numbers right after `last`.
   */
  lemma DrainedConsecutive(buffer: seq<Option<Commit>>, last: u64)
    requires Aligned(buffer, last)
    ensures last + FilledPrefix(buffer) < TWO_TO_THE_64
    ensures forall m :: 0 <= m < FilledPrefix(buffer) ==>
      Unwrapped(buffer[..FilledPrefix(buffer)])[m].seqNo == last + m + 1
  {
    var i := FilledPrefix(buffer);
    if i > 0 {
      assert buffer[i - 1].value.seqNo == last + i;
    }
    var cs := Unwrapped(buffer[..i]);
    forall m | 0 <= m < i
      ensures cs[m].seqNo == last + m + 1
    {
      assert buffer[..i][m] == buffer[m];
    }
  }

  /**
   * What remains of an aligned buffer after its occupied prefix is aligned
   * again, counted from the last commit of the prefix, and starts with an
   * empty slot.
   */
  lemma RemainderAligned(buffer: seq<Option<Commit>>, last: u64)
    requires Aligned(buffer, last)
    requires last + FilledPrefix(buffer) < TWO_TO_THE_64
    ensures Aligned(buffer[FilledPrefix(buffer)..], (last + FilledPrefix(buffer)) as u64)
    ensures FilledPrefix(buffer) < |buffer| ==> buffer[FilledPrefix(buffer)] == None
  {
    var i := FilledPrefix(buffer);
    var rest := buffer[i..];
    forall k | 0 <= k < |rest| && rest[k].Some?
      ensures rest[k].value.seqNo == last + i + k + 1
    {
      assert rest[k] == buffer[i + k];
    }
  }

  /** Delivering the occupied prefix moves the last committed sequence number forward by its length. */
  lemma DrainAdvances(buffer: seq<Option<Commit>>, p: Progress, sum: seq<byte> -> seq<byte>)
    requires Aligned(buffer, p.lastCommitted)
    ensures DeliverAll(p, Unwrapped(buffer[..FilledPrefix(buffer)]), sum).lastCommitted
      == p.lastCommitted + FilledPrefix(buffer)
  {
    DrainedConsecutive(buffer, p.lastCommitted);
    DeliverAllLast(p, Unwrapped(buffer[..FilledPrefix(buffer)]), sum);
  }

  // ---------------------------------------------------------------------
  // Commit reorder buffer: the node state
  // ---------------------------------------------------------------------

  /**
   * The test engine's record of one node: the last commit delivered in
   * order, the commits waiting for a gap to close, the bytes written to the
   * hasher (whose digest function is `sum`), the hash value after the last
   * call, and the number of requests delivered.
   */
  class NodeState {
    var lastCommittedSeqNo: u64
    var outstandingCommits: seq<Option<Commit>>
    var hashed: seq<byte>
    const sum: seq<byte> -> seq<byte>
    var value: seq<byte>
    var length: u64

    /** Every waiting commit sits at the slot of its sequence number. */
    ghost predicate Valid()
      reads this
    {
      Aligned(outstandingCommits, lastCommittedSeqNo)
    }

    constructor(sum: seq<byte> -> seq<byte>)
      ensures Valid()
      ensures lastCommittedSeqNo == 0 && outstandingCommits == [] && hashed == []
      ensures value == [] && length == 0 && this.sum == sum
    {
      lastCommittedSeqNo := 0;
      outstandingCommits := [];
      hashed := [];
      this.sum := sum;
      value := [];
      length := 0;
    }

    ghost function Accumulated(): Progress
      reads this
    {
      Progress(hashed, length, lastCommittedSeqNo, [])
    }

    /**
     * `Commit`: stores each commit at the slot of its sequence number
     * (aborting, with the earlier ones stored, at the first that is already
     * delivered), then delivers the occupied prefix in order, shifts the
     * rest to the front and records the hash value.
     */
    method Commit(commits: seq<Commit>) returns (r: Outcome<seq<Checkpoint>>)
      requires Valid()
      modifies this
      ensures Valid()
      ensures !r.Error?
      ensures r.Panic? <==> !AllAbove(commits, old(lastCommittedSeqNo))
      ensures r.Panic? ==>
        exists t :: 0 <= t < |commits| && commits[t].seqNo <= lastCommittedSeqNo
          && AllAbove(commits[..t], lastCommittedSeqNo)
          && outstandingCommits == Placed(old(outstandingCommits), lastCommittedSeqNo, commits[..t])
      ensures r.Panic? ==>
        lastCommittedSeqNo == old(lastCommittedSeqNo) && hashed == old(hashed)
        && length == old(length) && value == old(value)
      ensures r.Ok? ==>
        var placed := Placed(old(outstandingCommits), old(lastCommittedSeqNo), commits);
        var drained := Unwrapped(placed[..FilledPrefix(placed)]);
        && Progress(hashed, length, lastCommittedSeqNo, r.value) == DeliverAll(old(Accumulated()), drained, sum)
        && outstandingCommits == placed[FilledPrefix(placed)..]
        && value == sum(hashed)
    {
      var ok := PlaceAll(commits);
      if !ok {
        return Panic("trying to commit an already committed seqno");
      }
      ghost var placed := outstandingCommits;
      DrainedConsecutive(placed, lastCommittedSeqNo);
      RemainderAligned(placed, lastCommittedSeqNo);
      ghost var start := Accumulated();
      assert start == old(Accumulated());
      DrainAdvances(placed, start, sum);
      var i, results := DeliverPrefix();
      ghost var delivered := Progress(hashed, length, lastCommittedSeqNo, results);
      assert delivered == DeliverAll(start, Unwrapped(placed[..FilledPrefix(placed)]), sum);
      ShiftOut(i);
      value := sum(hashed);
      r := Ok(results);
      assert Progress(hashed, length, lastCommittedSeqNo, r.value) == delivered;
    }

    /** The placement loop of `Commit`. */
    method PlaceAll(commits: seq<Commit>) returns (ok: bool)
      requires Valid()
      modifies this`outstandingCommits
      ensures Valid()
      ensures ok <==> AllAbove(commits, lastCommittedSeqNo)
      ensures ok ==> outstandingCommits == Placed(old(outstandingCommits), lastCommittedSeqNo, commits)
      ensures !ok ==>
        exists t :: 0 <= t < |commits| && commits[t].seqNo <= lastCommittedSeqNo
          && AllAbove(commits[..t], lastCommittedSeqNo)
          && outstandingCommits == Placed(old(outstandingCommits), lastCommittedSeqNo, commits[..t])
    {
      for t := 0 to |commits|
        invariant AllAbove(commits[..t], lastCommittedSeqNo)
        invariant outstandingCommits == Placed(old(outstandingCommits), lastCommittedSeqNo, commits[..t])
        invariant Valid()
      {
        var commit := commits[t];
        if commit.seqNo <= lastCommittedSeqNo {
          assert commits[t].seqNo <= lastCommittedSeqNo;
          return false;
        }
        PlacedStep(old(outstandingCommits), lastCommittedSeqNo, commits, t);
        PlaceAt(commit);
      }
      assert commits[..|commits|] == commits;
      ok := true;
    }

    /** One step of the placement loop: grow the buffer with empty slots as needed, then store the commit. */
    method PlaceAt(commit: Commit)
      requires Valid() && commit.seqNo > lastCommittedSeqNo
      modifies this`outstandingCommits
      ensures Valid()
      ensures outstandingCommits == PlaceOne(old(outstandingCommits), lastCommittedSeqNo, commit)
    {
      var index := commit.seqNo - lastCommittedSeqNo;
      while index >= |outstandingCommits|
        invariant |old(outstandingCommits)| <= |outstandingCommits|
        invariant |outstandingCommits| <= if index + 1 > |old(outstandingCommits)| then index + 1 else |old(outstandingCommits)|
        invariant outstandingCommits == Grow(old(outstandingCommits), |outstandingCommits|)
        decreases index - |outstandingCommits|
      {
        outstandingCommits := outstandingCommits + [None];
      }
      outstandingCommits := outstandingCommits[index - 1 := Some(commit)];
      PlaceOneAligned(old(outstandingCommits), lastCommittedSeqNo, commit);
    }

    /**
     * The delivery loop of `Commit`: walks the occupied prefix of the
     * buffer, writing each commit's request digests to the hasher,
     * counting them, emitting a checkpoint for each flagged commit and
     * advancing the last committed sequence number.
     */
    method DeliverPrefix() returns (i: nat, results: seq<Checkpoint>)
      modifies this`hashed, this`length, this`lastCommittedSeqNo
      ensures i == FilledPrefix(outstandingCommits)
      ensures Progress(hashed, length, lastCommittedSeqNo, results)
        == DeliverAll(old(Accumulated()), Unwrapped(outstandingCommits[..i]), sum)
    {
      i := 0;
      results := [];
      while i < |outstandingCommits|
        invariant i <= FilledPrefix(outstandingCommits)
        invariant Progress(hashed, length, lastCommittedSeqNo, results)
          == DeliverAll(old(Accumulated()), Unwrapped(outstandingCommits[..i]), sum)
        decreases |outstandingCommits| - i
      {
        if outstandingCommits[i].None? {
          break;
        }
        var commit := outstandingCommits[i].value;
        UnwrappedStep(outstandingCommits, i);
        results := DeliverOne(commit, results);
        i := i + 1;
      }
    }

    /** One step of the delivery loop. */
    method DeliverOne(commit: Commit, results: seq<Checkpoint>) returns (results': seq<Checkpoint>)
      modifies this`hashed, this`length, this`lastCommittedSeqNo
      ensures Progress(hashed, length, lastCommittedSeqNo, results')
        == Deliver(old(Progress(hashed, length, lastCommittedSeqNo, results)), commit, sum)
    {
      WriteDigests(commit.requestDigests);
      results' := results;
      if commit.checkpoint {
        results' := results' + [Checkpoint(commit.seqNo, sum(hashed))];
      }
      lastCommittedSeqNo := commit.seqNo;
    }

    /** The inner loop of the delivery: each digest goes to the hasher and counts one request. */
    method WriteDigests(digests: seq<seq<byte>>)
      modifies this`hashed, this`length
      ensures hashed == old(hashed) + Concat(digests)
      ensures length == AddCount(old(length), |digests|)
    {
      for r := 0 to |digests|
        invariant hashed == old(hashed) + Concat(digests[..r])
        invariant length == AddCount(old(length), r)
      {
        hashed := hashed + digests[r];
        length := Add64(length, 1);
        assert digests[..r + 1][..r] == digests[..r];
      }
      assert digests[..|digests|] == digests;
    }

    /** The shifting loop of `Commit`: moves every slot after the delivered prefix to the front. */
    method ShiftOut(i: nat)
      requires i <= |outstandingCommits|
      modifies this`outstandingCommits
      ensures outstandingCommits == old(outstandingCommits)[i..]
    {
      var k := 0;
      for j := i to |outstandingCommits|
        invariant k == j - i
        invariant |outstandingCommits| == |old(outstandingCommits)|
        invariant forall m :: 0 <= m < k ==> outstandingCommits[m] == old(outstandingCommits)[i + m]
        invariant forall m :: k <= m < |outstandingCommits| ==> outstandingCommits[m] == old(outstandingCommits)[m]
      {
        outstandingCommits := outstandingCommits[k := outstandingCommits[j]];
        k := k + 1;
      }
      outstandingCommits := outstandingCommits[..k];
    }
  }

  function Grow(buffer: seq<Option<Commit>>, n: nat): seq<Option<Commit>>
  {
    if n <= |buffer| then buffer else buffer + seq(n - |buffer|, _ => None)
  }
}
