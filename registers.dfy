/**
 * Bit-level logic on the MX25L512's one-byte status register (SR) and
 * configuration register (CR): the masked match that stops an auto-poll,
 * the read-modify-write that sets QUADEN, the MODIFY_REG of the dummy-cycle
 * field, POSITION_VAL, and the WIP test of BSP_QSPI_GetStatus.
 */
module Registers {

  type Byte = bv8

  /** A mask with exactly one bit set, as the MX25L512_SR_* flags are. */
  predicate SingleBit(m: Byte)
  {
    m != 0 && m & (m - 1) == 0
  }

  /** The stop condition of an AND-mode auto-poll: `(reg & mask) == (match & mask)`. */
  predicate PollMatches(reg: Byte, mask: Byte, target: Byte)
  {
    reg & mask == target & mask
  }

  /** `reg |= bits`: every bit of `bits` is set, every other bit keeps its value. */
  function SetBits(reg: Byte, bits: Byte): (r: Byte)
    ensures r & bits == bits
    ensures r & !bits == reg & !bits
  {
    reg | bits
  }

  /**
   * MODIFY_REG(reg, clearMask, setMask): clear the bits of `clearMask`, then
   * OR in `setMask`. When `setMask` lies inside `clearMask`, the field takes
   * the value `setMask` and every bit outside the field is preserved.
   */
  function ModifyReg(reg: Byte, clearMask: Byte, setMask: Byte): (r: Byte)
    ensures setMask & !clearMask == 0 ==>
              r & clearMask == setMask && r & !clearMask == reg & !clearMask
  {
    (reg & !clearMask) | setMask
  }

  /**
   * Whatever the masks, MODIFY_REG sets every bit of `setMask` and keeps
   * every bit outside both masks.
   */
  lemma ModifyRegAnyMasks(reg: Byte, clearMask: Byte, setMask: Byte)
    ensures ModifyReg(reg, clearMask, setMask) & setMask == setMask
    ensures ModifyReg(reg, clearMask, setMask) & !(clearMask | setMask) == reg & !(clearMask | setMask)
  {
  }

  /** The byte with only bit `p` set. */
  function Bit(p: nat): Byte
    requires p < 8
  {
    (1 as Byte) << p
  }

  /**
   * POSITION_VAL(m): the index of the lowest set bit of a non-zero mask.
   */
  function LowestSetBit(m: Byte): (p: nat)
    requires m != 0
    ensures p < 8
    ensures m & Bit(p) != 0
    ensures m & (Bit(p) - 1) == 0
  {
    if m & 1 != 0 then 0
    else if m & 2 != 0 then 1
    else if m & 4 != 0 then 2
    else if m & 8 != 0 then 3
    else if m & 16 != 0 then 4
    else if m & 32 != 0 then 5
    else if m & 64 != 0 then 6
    else 7
  }

  /**
   * The value QSPI_DummyCyclesCfg writes into the configuration register:
   * MODIFY_REG(cr, field, value << POSITION_VAL(field)), truncated to a byte.
   */
  function SetField(cr: Byte, field: Byte, value: Byte): (r: Byte)
    requires field != 0
    ensures (value << LowestSetBit(field)) & !field == 0 ==>
              r & field == value << LowestSetBit(field) && r & !field == cr & !field
  {
    ModifyReg(cr, field, value << LowestSetBit(field))
  }

  /**
   * The poll of QSPI_EnterMemory_QPI (mask QUADEN | WIP, match QUADEN)
   * stops exactly when QUADEN is set and WIP is clear; in particular a
   * register with both bits set never stops it.
   */
  lemma QuadPollCondition(reg: Byte, quaden: Byte, wip: Byte)
    requires SingleBit(quaden) && SingleBit(wip) && quaden != wip
    ensures PollMatches(reg, quaden | wip, quaden) <==> reg & quaden != 0 && reg & wip == 0
  {
    assert quaden & wip == 0;
  }

  /** The ready poll (mask WIP, match 0) stops exactly when WIP is clear. */
  lemma ReadyPollCondition(reg: Byte, wip: Byte)
    ensures PollMatches(reg, wip, 0) <==> reg & wip == 0
  {
  }

  /** A poll whose match equals its single-bit mask stops exactly when that bit is set. */
  lemma BitSetPollCondition(reg: Byte, bit: Byte)
    requires SingleBit(bit)
    ensures PollMatches(reg, bit, bit) <==> reg & bit != 0
  {
  }
}
