/**
 * The per-client request window of a replica (client_window.go): a fixed
 * number of request slots covering the client's request numbers from the low
 * to the high watermark, and a one-shot waiter through which clients learn
 * that the window has moved.
 */
module ClientWindows {
  import opened Common

  /** Largest value of Go's int on a 64-bit platform. */
  const MAX_INT: int := 0x7FFF_FFFF_FFFF_FFFF

  /**
   * One allocated slot: the request, its digest, how far it has got in the
   * agreement, and the sequence number it was ordered at (0 while unordered).
   */
  datatype Request = Request(requestData: RequestData, digest: seq<byte>, state: SequenceState, seqNo: u64)

  /** What `status` reports: the watermarks and one code per slot. */
  datatype RequestWindowStatus = RequestWindowStatus(lowWatermark: u64, highWatermark: u64, allocation: seq<u64>)

  /**
   * The waiter handed to throttled clients. Closing its channel is modelled
   * by setting `expired`; clients holding the object observe the change.
   */
  class ClientWaiter {
    const lowWatermark: u64
    const highWatermark: u64
    var expired: bool

    constructor(lowWatermark: u64, highWatermark: u64)
      ensures this.lowWatermark == lowWatermark && this.highWatermark == highWatermark
      ensures !expired
    {
      this.lowWatermark := lowWatermark;
      this.highWatermark := highWatermark;
      expired := false;
    }
  }

  /** A slot that garbage collection may retire: committed at or below `maxSeqNo`. */
  predicate Retired(slot: Option<Request>, maxSeqNo: u64)
  {
    slot.Some? && slot.value.state == Committed && slot.value.seqNo <= maxSeqNo
  }

  /** The length of the longest prefix of retirable slots. */
  function RetiredPrefix(slots: seq<Option<Request>>, maxSeqNo: u64): (j: nat)
    ensures j <= |slots|
    ensures forall k :: 0 <= k < j ==> Retired(slots[k], maxSeqNo)
    ensures j < |slots| ==> !Retired(slots[j], maxSeqNo)
  {
    if |slots| == 0 || !Retired(slots[0], maxSeqNo) then 0
    else 1 + RetiredPrefix(slots[1..], maxSeqNo)
  }

  /** Some retirable slot of the prefix was never given a sequence number. */
  predicate RetiresUnordered(slots: seq<Option<Request>>, maxSeqNo: u64)
  {
    exists k :: 0 <= k < RetiredPrefix(slots, maxSeqNo) && slots[k].Some? && slots[k].value.seqNo == 0
  }

  /** The summary code of one slot: 0 empty, 2 committed, 1 anything else. */
  function StatusCode(slot: Option<Request>): (c: u64)
    ensures c <= 2
    ensures c == 0 <==> slot.None?
    ensures c == 2 <==> slot.Some? && slot.value.state == Committed
  {
    match slot
    case None => 0
    case Some(request) => if request.state == Committed then 2 else 1
  }

  /**
   * The slots after retiring the first `j`: the rest moved to the front,
   * empty slots behind them, the same number of slots in all.
   */
  function Shifted(slots: seq<Option<Request>>, j: nat): (shifted: seq<Option<Request>>)
    requires j <= |slots|
    ensures |shifted| == |slots|
    ensures forall k :: 0 <= k < |slots| - j ==> shifted[k] == slots[k + j]
    ensures forall k :: |slots| - j <= k < |slots| ==> shifted[k] == None
  {
    slots[j..] + seq(j, _ => None)
  }

  /** Collecting twice with the same bound retires nothing the second time. */
  lemma CollectIdempotent(slots: seq<Option<Request>>, maxSeqNo: u64)
    ensures RetiredPrefix(Shifted(slots, RetiredPrefix(slots, maxSeqNo)), maxSeqNo) == 0
  {
    var j := RetiredPrefix(slots, maxSeqNo);
    var shifted := Shifted(slots, j);
    if j < |slots| {
      assert shifted[0] == slots[j];
    } else if |slots| > 0 {
      assert shifted[0] == None;
    }
  }

  /**
   * The loop of `garbageCollect`: walks the slots, counting the retired
   * prefix and copying every slot after it to the front of a fresh array;
   * aborts at a retired slot that carries sequence number 0.
   */
  method ShiftRetired(requests: array<Option<Request>>, maxSeqNo: u64) returns (r: Outcome<(array<Option<Request>>, u64)>)
    requires requests.Length <= MAX_INT
    ensures r.Panic? <==> RetiresUnordered(requests[..], maxSeqNo)
    ensures !r.Error?
    ensures r.Ok? ==> fresh(r.value.0) && r.value.1 as int == RetiredPrefix(requests[..], maxSeqNo)
    ensures r.Ok? ==> r.value.0[..] == Shifted(requests[..], RetiredPrefix(requests[..], maxSeqNo))
  {
    ghost var p := RetiredPrefix(requests[..], maxSeqNo);
    var newRequests := new Option<Request>[requests.Length](_ => None);
    var i: nat := 0;
    var j: u64 := 0;
    var copying := false;
    for t := 0 to requests.Length
      invariant t <= p ==> !copying && j as int == t && i == 0
      invariant t > p ==> copying && j as int == p && i == t - p
      invariant forall k :: 0 <= k < i ==> newRequests[k] == requests[p + k]
      invariant forall k :: i <= k < newRequests.Length ==> newRequests[k] == None
      invariant forall k :: 0 <= k < t && k < p ==> requests[k].value.seqNo != 0
    {
      var request := requests[t];
      if request.None? || request.value.state != Committed || request.value.seqNo > maxSeqNo {
        copying := true;
      }
      if copying {
        newRequests[i] := request;
        i := i + 1;
      } else {
        if request.value.seqNo == 0 {
          return Panic("this should be initialized if here");
        }
        j := j + 1;
      }
    }
    assert newRequests[..] == Shifted(requests[..], p);
    r := Ok((newRequests, j));
  }

  class ClientWindow {
    var lowWatermark: u64
    var highWatermark: u64
    var requests: array<Option<Request>>
    var clientWaiter: ClientWaiter

    /**
     * As many slots as Go's `int(high-low)+1` allocates (one per request
     * number of the window, or none when `low` is `high + 1`), and a live
     * waiter carrying the current watermarks.
     */
    ghost predicate Valid()
      reads this, clientWaiter
    {
      && SlotCount(lowWatermark, highWatermark) >= 0
      && requests.Length == SlotCount(lowWatermark, highWatermark)
      && clientWaiter.lowWatermark == lowWatermark
      && clientWaiter.highWatermark == highWatermark
      && !clientWaiter.expired
    }

    ghost function Slots(): seq<Option<Request>>
      reads this, requests
    {
      requests[..]
    }

    /** A request number the window covers. */
    predicate InWindow(reqNo: u64)
      reads this
    {
      lowWatermark <= reqNo <= highWatermark
    }

    /** `newRequestWindow`: all slots empty, a fresh waiter. */
    constructor(lowWatermark: u64, highWatermark: u64)
      requires SlotCount(lowWatermark, highWatermark) >= 0
      ensures Valid()
      ensures this.lowWatermark == lowWatermark && this.highWatermark == highWatermark
      ensures fresh(requests) && fresh(clientWaiter)
      ensures requests.Length == SlotCount(lowWatermark, highWatermark)
      ensures forall k :: 0 <= k < requests.Length ==> requests[k] == None
    {
      this.lowWatermark := lowWatermark;
      this.highWatermark := highWatermark;
      requests := new Option<Request>[SlotCount(lowWatermark, highWatermark)](_ => None);
      clientWaiter := new ClientWaiter(lowWatermark, highWatermark);
    }

    /**
     * `garbageCollect`: retires the longest prefix of slots committed at or
     * below `maxSeqNo`, moves both watermarks up by its length, shifts the
     * remaining slots to the front of a new array and replaces the waiter
     * after expiring the old one. Aborts, changing nothing, when a retired
     * slot carries sequence number 0.
     */
    method GarbageCollect(maxSeqNo: u64) returns (r: Outcome<()>)
      requires Valid()
      modifies this, clientWaiter
      ensures Valid()
      ensures r.Panic? <==> RetiresUnordered(old(Slots()), maxSeqNo)
      ensures !r.Error?
      ensures r.Panic? ==> unchanged(this) && unchanged(clientWaiter)
      ensures r.Ok? ==>
        && lowWatermark == Add64(old(lowWatermark), RetiredPrefix(old(Slots()), maxSeqNo))
        && highWatermark == Add64(old(highWatermark), RetiredPrefix(old(Slots()), maxSeqNo))
      ensures r.Ok? ==> fresh(requests) && Slots() == Shifted(old(Slots()), RetiredPrefix(old(Slots()), maxSeqNo))
      ensures r.Ok? ==> old(clientWaiter).expired && fresh(clientWaiter)
      ensures r.Ok? ==>
        && old(clientWaiter).lowWatermark == old(clientWaiter.lowWatermark)
        && old(clientWaiter).highWatermark == old(clientWaiter.highWatermark)
    {
      var shifted := ShiftRetired(requests, maxSeqNo);
      if shifted.Panic? {
        return Panic(shifted.reason);
      }
      var (newRequests, j) := shifted.value;
      SpanKeptByShift(lowWatermark, highWatermark, j);
      lowWatermark := Add64(lowWatermark, j);
      highWatermark := Add64(highWatermark, j);
      requests := newRequests;
      clientWaiter.expired := true;
      clientWaiter := new ClientWaiter(lowWatermark, highWatermark);
      r := Ok(());
    }

    /**
     * `allocate`: aborts for a request number outside the window, for any
     * number when the window has no slots (the index is out of range), or
     * when its slot already holds a request with another digest; otherwise
     * the slot holds a fresh, unordered request and no other slot changes.
     */
    method Allocate(requestData: RequestData, digest: seq<byte>) returns (r: Outcome<()>)
      requires Valid()
      modifies requests
      ensures Valid()
      ensures !r.Error?
      ensures r.Panic? <==>
        || !old(InWindow(requestData.reqNo))
        || requests.Length == 0
        || (old(requests[requestData.reqNo - lowWatermark]).Some?
            && old(requests[requestData.reqNo - lowWatermark]).value.digest != digest)
      ensures r.Panic? ==> Slots() == old(Slots())
      ensures r.Ok? ==>
        Slots() == old(Slots())[requestData.reqNo - lowWatermark := Some(Request(requestData, digest, Unknown, 0))]
    {
      var reqNo := requestData.reqNo;
      if reqNo > highWatermark {
        return Panic("unexpected: reqNo above the high watermark");
      }
      if reqNo < lowWatermark {
        return Panic("unexpected: reqNo below the low watermark");
      }
      var offset := reqNo - lowWatermark;
      if offset >= requests.Length {
        return Panic("index out of range");
      }
      if requests[offset].Some? && requests[offset].value.digest != digest {
        return Panic("two different requests for the same reqno");
      }
      requests[offset] := Some(Request(requestData, digest, Unknown, 0));
      r := Ok(());
    }

    /**
     * `request` (named `RequestAt` here, beside the datatype): the slot of
     * `reqNo`; aborts outside the window, and for any number when the window
     * has no slots.
     */
    method RequestAt(reqNo: u64) returns (r: Outcome<Option<Request>>)
      requires Valid()
      ensures !r.Error?
      ensures r.Panic? <==> !InWindow(reqNo) || requests.Length == 0
      ensures r.Ok? ==> r.value == requests[reqNo - lowWatermark]
    {
      if reqNo > highWatermark {
        return Panic("unexpected: reqNo above the high watermark");
      }
      if reqNo < lowWatermark {
        return Panic("unexpected: reqNo below the low watermark");
      }
      var offset := reqNo - lowWatermark;
      if offset >= requests.Length {
        return Panic("index out of range");
      }
      r := Ok(requests[offset]);
    }

    /** `status`: the watermarks and the code of every slot, in order. */
    method Status() returns (s: RequestWindowStatus)
      ensures s.lowWatermark == lowWatermark && s.highWatermark == highWatermark
      ensures |s.allocation| == requests.Length
      ensures forall k :: 0 <= k < requests.Length ==> s.allocation[k] == StatusCode(requests[k])
    {
      var codes := new u64[requests.Length](_ => 0);
      for i := 0 to requests.Length
        invariant forall k :: 0 <= k < i ==> codes[k] == StatusCode(requests[k])
        invariant forall k :: i <= k < codes.Length ==> codes[k] == 0
      {
        var request := requests[i];
        if request.None? {
          continue;
        }
        if request.value.state == Committed {
          codes[i] := 2;
        } else {
          codes[i] := 1;
        }
      }
      s := RequestWindowStatus(lowWatermark, highWatermark, codes[..]);
    }
  }
}
