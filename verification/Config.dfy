/** Machine types and the build constants of the snooper firmware. */
module Config {

  type byte = x: int | 0 <= x < 256
  type uint32 = x: int | 0 <= x < 0x1_0000_0000

  const UINT32_RANGE := 0x1_0000_0000

  const MAX_PACKET_SIZE := 1024
  const SERIAL_TIMEOUT := 60000
  const INTERBYTE_TIMEOUT := 500
  const CMD_QUEUE_SIZE := 32
  const TX_QUEUE_SIZE := 32
  const AVRC_QUEUE_SIZE := 32

  /** What millis() returns at true time `t`: the low 32 bits. */
  function Millis(t: nat): uint32 {
    t % UINT32_RANGE
  }

  /** C subtraction of two 32-bit unsigned values. */
  function Elapsed(now: uint32, since: uint32): uint32 {
    (now - since) % UINT32_RANGE
  }

  /** Wrapped subtraction recovers the true difference exactly when it fits in 32 bits. */
  lemma ElapsedIsTrueTime(now: nat, since: nat)
    requires since <= now
    ensures Elapsed(Millis(now), Millis(since)) == (now - since) % UINT32_RANGE
    ensures Elapsed(Millis(now), Millis(since)) == now - since <==> now - since < UINT32_RANGE
  {
    var q, p := now / UINT32_RANGE, since / UINT32_RANGE;
    assert now == q * UINT32_RANGE + Millis(now) && since == p * UINT32_RANGE + Millis(since);
    SameRemainder(Millis(now) - Millis(since), now - since, p - q);
  }

  /** Numbers that differ by a multiple of 2^32 have the same low 32 bits. */
  lemma SameRemainder(a: int, b: int, k: int)
    requires a == b + k * UINT32_RANGE
    ensures a % UINT32_RANGE == b % UINT32_RANGE
  {
    var qa, qb := a / UINT32_RANGE, b / UINT32_RANGE;
    assert a % UINT32_RANGE - b % UINT32_RANGE == (qb + k - qa) * UINT32_RANGE;
  }
}
