/** Fixed-width integers of the LED sequencer: the millisecond clock is a
    `uint64_t`, the displayed index a `uint32_t`, sequence entries a C++ `int`. */
module Words {

  const TWO_TO_64: int := 0x1_0000_0000_0000_0000
  const TWO_TO_32: int := 0x1_0000_0000
  const TWO_TO_31: int := 0x8000_0000

  /** A `uint64_t` millisecond timestamp. */
  type Time = t: int | 0 <= t < TWO_TO_64

  /** A `uint32_t`. */
  type U32 = x: int | 0 <= x < TWO_TO_32

  /** `now - since` computed in `uint64_t`: the plain difference on a monotonic
      clock, wrapped modulo 2^64 when `since` is later than `now`. */
  function Elapsed(now: Time, since: Time): (r: Time)
    ensures since <= now ==> r == now - since
    ensures now < since ==> r == now - since + TWO_TO_64
    ensures r == 0 <==> now == since
  {
    (now - since) % TWO_TO_64
  }

  /** Conversion of a C++ `int` to `uint32_t`: the value modulo 2^32. */
  function ToU32(v: int): (r: U32)
    ensures 0 <= v < TWO_TO_32 ==> r == v
    ensures -TWO_TO_32 <= v < 0 ==> r == v + TWO_TO_32
  {
    v % TWO_TO_32
  }

  /** Conversion of a `uint32_t` to a C++ `int` (two's complement). */
  function ToI32(u: U32): (r: int)
    ensures -TWO_TO_31 <= r < TWO_TO_31
    ensures ToU32(r) == u
    ensures u < TWO_TO_31 ==> r == u
  {
    if u < TWO_TO_31 then u else u - TWO_TO_32
  }
}
