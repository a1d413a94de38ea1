/**
 * Shared vocabulary of the ordering core: fixed-width integers with Go's
 * wrap-around arithmetic, bytes, the outcome of an operation that may abort,
 * and the per-sequence agreement states.
 */
module Common {

  const TWO_TO_THE_64: int := 0x1_0000_0000_0000_0000

  /** Go's uint64. */
  type u64 = x: int | 0 <= x < TWO_TO_THE_64

  /** Go's byte. */
  type byte = x: int | 0 <= x < 256

  /** uint64 addition, wrapping around at 2^64. */
  function Add64(a: u64, b: u64): u64
  {
    if a + b < TWO_TO_THE_64 then a + b else a + b - TWO_TO_THE_64
  }

  /** uint64 subtraction, wrapping around below zero. */
  function Sub64(a: u64, b: u64): u64
  {
    if b <= a then a - b else a - b + TWO_TO_THE_64
  }

  /** uint64 multiplication, keeping the low 64 bits. */
  function Mul64(a: u64, b: u64): u64
  {
    (a * b) % TWO_TO_THE_64
  }

  /** Go's `int(x)` for a uint64 `x`: the same 64 bits read as a signed integer. */
  function Int64(x: u64): (r: int)
    ensures -0x8000_0000_0000_0000 <= r < 0x8000_0000_0000_0000
    ensures r % TWO_TO_THE_64 == x
  {
    if x < 0x8000_0000_0000_0000 then x else x - TWO_TO_THE_64
  }

  /**
   * Go's `int(high-low)+1` on 64-bit words: the number of slots allocated for
   * the request numbers from `low` to `high`. It is negative (and `make`
   * panics) when the span does not fit Go's `int`, and it is zero exactly when
   * `low` is `high + 1` in uint64 arithmetic.
   */
  function SlotCount(low: u64, high: u64): (n: int)
    ensures n < 0x8000_0000_0000_0000
    ensures Sub64(high, low) < 0x7FFF_FFFF_FFFF_FFFF ==> n == Sub64(high, low) + 1
    ensures n == 0 <==> low == Add64(high, 1)
    ensures n >= 0 <==> Sub64(high, low) < 0x7FFF_FFFF_FFFF_FFFF || low == Add64(high, 1)
  {
    Int64(Add64(Sub64(high, low), 1))
  }

  /** A shift of both ends of a window by the same amount keeps its span. */
  lemma SpanKeptByShift(low: u64, high: u64, j: u64)
    ensures Sub64(Add64(high, j), Add64(low, j)) == Sub64(high, low)
  {
  }

  /**
   * Lets a caller holding `s != {}` pick an element with `:|`; the disjunction
   * is what the solver needs to connect set equality with membership.
   */
  lemma EmptyOrHasElement(s: set<int>)
    ensures s == {} || exists x :: x in s
  {
    if forall x :: x !in s {
      assert s == {};
    }
  }

  datatype Option<+T> = None | Some(value: T)

  /**
   * The result of an operation of the core: either it completes with a value,
   * reports an error to its caller (a Go error return), or aborts the node
   * (a Go panic, a contract violation by the caller).
   */
  datatype Outcome<+T> = Ok(value: T) | Error(message: string) | Panic(reason: string)

  /** A request as a client submits it: who sent it, its number and its payload. */
  datatype RequestData = RequestData(clientId: seq<byte>, reqNo: u64, data: seq<byte>)

  /** The agreement states of one sequence number, in their forward order. */
  datatype SequenceState = Unknown | Preprepared | Digested | Validated | Prepared | Committed
}
