/** Cursor ids are Paxos instance ids: unsigned 64-bit integers whose largest value is the
    "no cursor" sentinel written -1 in the source. Arithmetic on them wraps. */
module CursorId {

  const TWO_64: int := 0x1_0000_0000_0000_0000

  type u64 = x: int | 0 <= x < 0x1_0000_0000_0000_0000

  /** UINT64_MAX, also phxpaxos::NoCheckpoint. */
  const NO_CURSOR: u64 := 0xFFFF_FFFF_FFFF_FFFF

  function Inc(x: u64): u64 { (x + 1) % TWO_64 }

  function Dec(x: u64): u64 { if x == 0 then NO_CURSOR else x - 1 }

  /** The first instance id after `x`; the sentinel stands for "before everything". */
  function After(x: u64): nat { if x == NO_CURSOR then 0 else x + 1 }
}
