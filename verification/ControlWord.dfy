/** The packed control word `ctl_` of ThreadPool: two state bits over thirty count bits. */
module ControlWord {

  const COUNT_LIMIT: int := 0x4000_0000
  const COUNT_MASK: int := 0x3FFF_FFFF
  const RUNNING: int := 0x4000_0000
  const SHUTDOWN: int := 0

  /** Two's complement wrap-around of a 32-bit signed integer. */
  function Wrap32(x: int): int {
    (x + 0x8000_0000) % 0x1_0000_0000 - 0x8000_0000
  }

  /** `ctl & kCountMask`; Euclidean remainder is the bit mask for negative words too. */
  function NumActive(ctl: int): (n: int)
    ensures 0 <= n <= COUNT_MASK
  {
    ctl % COUNT_LIMIT
  }

  /** `ctl & ~kCountMask` */
  function StateBits(ctl: int): int {
    ctl - ctl % COUNT_LIMIT
  }

  predicate IsRunning(ctl: int) {
    StateBits(ctl) == RUNNING
  }

  predicate IsShutdown(ctl: int) {
    StateBits(ctl) == SHUTDOWN
  }

  function Increment(ctl: int): int {
    Wrap32(ctl + 1)
  }

  function Decrement(ctl: int): int {
    Wrap32(ctl - 1)
  }

  /** `kShutdown | (ctl & kCountMask)` */
  function ToShutdown(ctl: int): int {
    SHUTDOWN + NumActive(ctl)
  }

  /** A word with the given state and count. */
  function Pack(running: bool, count: int): int {
    (if running then RUNNING else SHUTDOWN) + count
  }

  lemma PackUnpack(running: bool, count: int)
    requires 0 <= count <= COUNT_MASK
    ensures NumActive(Pack(running, count)) == count
    ensures IsRunning(Pack(running, count)) == running
    ensures IsShutdown(Pack(running, count)) == !running
    ensures ToShutdown(Pack(running, count)) == Pack(false, count)
    ensures count < COUNT_MASK ==> Increment(Pack(running, count)) == Pack(running, count + 1)
    ensures count > 0 ==> Decrement(Pack(running, count)) == Pack(running, count - 1)
  {
  }

  // The bit operations of the source, on thirty count bits under either of the two states.

  lemma MasksWhenShutdown(low: bv30)
    ensures (low as bv32) & 0x3FFF_FFFF == low as bv32 && (low as bv32) & !0x3FFF_FFFF == 0
    ensures 0 | ((low as bv32) & 0x3FFF_FFFF) == low as bv32
  {
  }

  lemma MasksWhenRunning(low: bv30)
    ensures ((low as bv32) + 0x4000_0000) & 0x3FFF_FFFF == low as bv32
    ensures ((low as bv32) + 0x4000_0000) & !0x3FFF_FFFF == 0x4000_0000
    ensures 0 | (((low as bv32) + 0x4000_0000) & 0x3FFF_FFFF) == low as bv32
  {
  }

  lemma Values(low: bv30)
    ensures (low as bv32) as int == low as int
    ensures ((low as bv32) + 0x4000_0000) as int == low as int + 0x4000_0000
  {
  }

  lemma CountBound(low: bv30)
    ensures 0 <= low as int <= COUNT_MASK
  {
  }

  lemma Readings(count: int)
    requires 0 <= count <= COUNT_MASK
    ensures NumActive(count) == count && StateBits(count) == 0
    ensures NumActive(count + 0x4000_0000) == count && StateBits(count + 0x4000_0000) == 0x4000_0000
    ensures ToShutdown(count + 0x4000_0000) == count
  {
  }

  /** On every word with the state SHUTDOWN, the masks of the source are what the functions above compute. */
  lemma BitTestsShutdown(low: bv30)
    ensures var w := low as bv32;
      NumActive(w as int) == (w & 0x3FFF_FFFF) as int && StateBits(w as int) == (w & !0x3FFF_FFFF) as int
  {
    hide NumActive, StateBits;
    MasksWhenShutdown(low);
    Values(low);
    CountBound(low);
    Readings(low as int);
  }

  /** The same on every word with the state RUNNING, and for the word that `shutdown` swaps in. */
  lemma BitTestsRunning(low: bv30)
    ensures var w := (low as bv32) + 0x4000_0000;
      && NumActive(w as int) == (w & 0x3FFF_FFFF) as int && StateBits(w as int) == (w & !0x3FFF_FFFF) as int
      && ToShutdown(w as int) == (0 | (w & 0x3FFF_FFFF)) as int
  {
    hide NumActive, StateBits, ToShutdown;
    MasksWhenRunning(low);
    Values(low);
    CountBound(low);
    Readings(low as int);
  }
}
