/** The machine words, timing constants and sequence-number comparison of AODV.h. */
module Aodv {

  const WORD := 0x1_0000_0000
  const HALF := 0x8000_0000

  type u32 = x: int | 0 <= x < 0x1_0000_0000
  type u8 = x: int | 0 <= x < 0x100

  // Configuration parameters; times are in milliseconds.
  const ACTIVE_ROUTE_TIMEOUT: u32 := 3000
  const ALLOWED_HELLO_LOSS: u32 := 2
  const RREQ_RETRIES: u32 := 2
  const TIMEOUT_BUFFER: u32 := 2
  const TTL_START: u32 := 1
  const TTL_INCREMENT: u32 := 2
  const TTL_THRESHOLD: u32 := 7
  const HELLO_INTERVAL: u32 := 1000
  const NET_DIAMETER: u32 := 35
  const NODE_TRAVERSAL_TIME: u32 := 40
  const NET_TRAVERSAL_TIME: u32 := 2 * NODE_TRAVERSAL_TIME * NET_DIAMETER
  const DELETE_PERIOD: u32 := 5 * ACTIVE_ROUTE_TIMEOUT
  const MY_ROUTE_TIMEOUT: u32 := 2 * ACTIVE_ROUTE_TIMEOUT
  const PATH_DISCOVERY_TIME: u32 := 2 * NET_TRAVERSAL_TIME

  function RingTraversalTime(ttl: nat): nat {
    2 * NODE_TRAVERSAL_TIME * (ttl + TIMEOUT_BUFFER)
  }

  /** Unsigned 32-bit truncation. */
  function Wrap(x: int): u32 {
    x % WORD
  }

  lemma WrapAdd(x: int, y: int)
    ensures Wrap(Wrap(x) + y) == Wrap(x + y)
  {
    var q := x / WORD;
    assert x + y == Wrap(x) + y + q * WORD;
    assert (Wrap(x) + y + q * WORD) / WORD == (Wrap(x) + y) / WORD + q;
  }

  /** Unsigned 32-bit increment. */
  function Incr(x: u32): u32 {
    if x == WORD - 1 then 0 else x + 1
  }

  /** The `(int32_t)` cast. */
  function Int32(x: u32): int {
    if x < HALF then x else x - WORD
  }

  /** A difference of two int32 values, wrapped back into int32. */
  function WrapSigned(d: int): int
    requires -WORD < d < WORD
  {
    if d >= HALF then d - WORD else if d < -HALF then d + WORD else d
  }

  /** `seq_compare`: negative when x is older than y in serial arithmetic. */
  function SeqCompare(x: u32, y: u32): int {
    WrapSigned(Int32(x) - Int32(y))
  }

  /** The comparison of two unbounded counters survives truncation exactly when they
      are less than half a word apart (the lower end included): section 6.1 of RFC 3561. */
  lemma SeqCompareIsDifference(a: int, b: int)
    ensures SeqCompare(Wrap(a), Wrap(b)) == a - b <==> -HALF <= a - b < HALF
  {
    SeqCompareCongruent(a, b);
  }

  lemma SeqCompareCongruent(a: int, b: int)
    ensures exists k: int :: SeqCompare(Wrap(a), Wrap(b)) == a - b + k * WORD
    ensures -HALF <= SeqCompare(Wrap(a), Wrap(b)) < HALF
  {
    var p, q := a / WORD, b / WORD;
    var d := SeqCompare(Wrap(a), Wrap(b)) - (Wrap(a) - Wrap(b));
    assert Wrap(a) == a - p * WORD && Wrap(b) == b - q * WORD;
    var c := if d == 0 then 0 else if d == WORD then 1 else -1;
    assert SeqCompare(Wrap(a), Wrap(b)) == a - b + (c - p + q) * WORD;
  }

  /** Before rollover, numbers in one half-word window compare like integers. */
  lemma SeqCompareInWindow(x: u32, y: u32)
    requires -HALF < x - y < HALF
    ensures SeqCompare(x, y) == x - y
  {
  }

  /** The sign of the comparison of counters in one window, across any number of rollovers. */
  lemma SeqCompareSign(a: int, b: int)
    requires -HALF < a - b < HALF
    ensures SeqCompare(Wrap(a), Wrap(b)) < 0 <==> a < b
    ensures SeqCompare(Wrap(a), Wrap(b)) == 0 <==> a == b
    ensures Wrap(a) == Wrap(b) <==> a == b
  {
    SeqCompareIsDifference(a, b);
  }

  /** Outside a window the order is not even transitive: three numbers each newer than the next. */
  lemma SeqCompareCycle()
    ensures exists x: u32, y: u32, z: u32 ::
              SeqCompare(x, y) < 0 && SeqCompare(y, z) < 0 && SeqCompare(z, x) < 0
  {
    var x: u32, y: u32, z: u32 := 0, 0x6000_0000, 0xC000_0000;
    assert SeqCompare(x, y) < 0 && SeqCompare(y, z) < 0 && SeqCompare(z, x) < 0;
  }
}
