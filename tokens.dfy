/**
 * The values that travel between pipeline stages, and the unsigned 32-bit
 * counters used by the barrier and the cycle counter.
 */
module Tokens {

  /** A latch value: a real work item, or one of the three reserved control
      values (`noop`, `something` and `terminate` in the C++ code, where they
      are the addresses 0x1, 0x2 and nullptr). */
  datatype Token = Payload(id: nat) | Noop | Something | Terminate

  /** `unsigned int`: the width of the barrier's counters and of `t_`. */
  newtype u32 = x: int | 0 <= x < 0x1_0000_0000

  const MaxU32: u32 := 0xFFFF_FFFF

  /** `++x` on an unsigned int: wraps from the largest value to 0. */
  function Inc(x: u32): (r: u32)
    ensures x < MaxU32 ==> r as int == x as int + 1
    ensures x == MaxU32 ==> r == 0
  {
    if x == MaxU32 then 0 else x + 1
  }

  /** `--x` on an unsigned int: wraps from 0 to the largest value. */
  function Dec(x: u32): (r: u32)
    ensures x > 0 ==> r as int == x as int - 1
    ensures x == 0 ==> r == MaxU32
  {
    if x == 0 then MaxU32 else x - 1
  }

  lemma IncDecInverse(x: u32)
    ensures Dec(Inc(x)) == x && Inc(Dec(x)) == x
  {
  }
}
