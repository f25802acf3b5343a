/**
 * The STM32 HAL QSPI peripheral as the driver sees it: each call either
 * returns HAL_OK or fails, and a receive or auto-poll also yields bytes.
 * The answers are an oracle, a finite list of replies consumed one per
 * call; the bus keeps a ghost trace of every call and its outcome.
 * HAL_GetTick reads a separate list of clock readings.
 */
module Transport {
  import opened Registers
  import opened FlashConfig
  import opened Protocol

  /** The peripheral's answer to one call: a failure, or HAL_OK with the bytes it clocked in. */
  datatype Reply = Nak | Ack(bytes: seq<Byte>)

  /**
   * The index of the first status reading that stops an AND-mode auto-poll,
   * or |regs| when none does before the timeout.
   */
  function FirstMatch(regs: seq<Byte>, mask: Byte, target: Byte): (k: nat)
    ensures k <= |regs|
    ensures forall j | 0 <= j < k :: !PollMatches(regs[j], mask, target)
    ensures k < |regs| ==> PollMatches(regs[k], mask, target)
  {
    if regs == [] then 0
    else if PollMatches(regs[0], mask, target) then 0
    else 1 + FirstMatch(regs[1..], mask, target)
  }

  /** HAL_Delay and the pin teardown return nothing, cannot fail and take no reply. */
  predicate Silent(op: BusOp)
  {
    op.Delay? || op.PinTeardown?
  }

  /**
   * The outcome of `op` when the peripheral's next answers are `replies`: a
   * receive of n bytes succeeds with exactly n bytes; an auto-poll succeeds
   * with the first status reading that matches and times out when none
   * does; every other call succeeds on any acknowledgement. A call with no
   * reply left fails.
   */
  function Answer(op: BusOp, replies: seq<Reply>): (o: Outcome)
    ensures Silent(op) ==> o == Done
    ensures !Silent(op) && (replies == [] || replies[0].Nak?) ==> o.Failed?
    ensures op.Receive? && !o.Failed? ==> o.Got? && |o.bytes| == op.count
    ensures op.Poll? && !o.Failed? ==> o.Got? && |o.bytes| == 1 && PollMatches(o.bytes[0], op.mask, op.target)
    ensures op.Poll? && o.Failed? && replies != [] && replies[0].Ack? ==>
              forall r | r in replies[0].bytes :: !PollMatches(r, op.mask, op.target)
  {
    if Silent(op) then Done
    else if replies == [] || replies[0].Nak? then Failed
    else match op
      case Receive(n, _) =>
        if |replies[0].bytes| == n then Got(replies[0].bytes) else Failed
      case Poll(mask, target, _) =>
        var regs := replies[0].bytes;
        var k := FirstMatch(regs, mask, target);
        if k < |regs| then Got([regs[k]]) else Failed
      case _ => Done
  }

  /** The replies left after `op`. */
  function Remaining(op: BusOp, replies: seq<Reply>): (rest: seq<Reply>)
    ensures |rest| <= |replies|
    ensures !Answer(op, replies).Failed? && !Silent(op) ==> |rest| < |replies|
  {
    if Silent(op) || replies == [] then replies else replies[1..]
  }

  /** The bytes a call hands back to the driver. */
  function BytesOf(o: Outcome): seq<Byte>
  {
    if o.Got? then o.bytes else []
  }

  /**
   * The k-th HAL_GetTick result (from 0) of a bus whose clock readings still
   * to come are `clock` and whose last reading was `now`: the k-th reading
   * while there is one, afterwards the last reading again.
   */
  function Reading(clock: seq<nat>, now: nat, k: nat): (t: nat)
    ensures t < U32_LIMIT
    ensures k < |clock| ==> t == clock[k] % U32_LIMIT
    ensures clock == [] ==> t == now % U32_LIMIT
  {
    if k < |clock| then clock[k] % U32_LIMIT
    else if clock != [] then clock[|clock| - 1] % U32_LIMIT
    else now % U32_LIMIT
  }

  /** The clock readings still to come after k HAL_GetTick calls. */
  function Unread(clock: seq<nat>, k: nat): (rest: seq<nat>)
    ensures |rest| == if k < |clock| then |clock| - k else 0
    ensures forall j | 0 <= j < |rest| :: rest[j] == clock[k + j]
  {
    if k < |clock| then clock[k..] else []
  }

  /**
   * After k > 0 calls the bus stands at (Unread(clock, k), Reading(clock, now, k - 1));
   * the next HAL_GetTick answers Reading(clock, now, k) and leaves Unread(clock, k + 1).
   */
  lemma NextReading(clock: seq<nat>, now: nat, k: nat)
    requires k > 0
    ensures Unread(clock, k) != [] ==>
              Unread(clock, k)[0] % U32_LIMIT == Reading(clock, now, k) && Unread(clock, k)[1..] == Unread(clock, k + 1)
    ensures Unread(clock, k) == [] ==>
              Reading(clock, now, k - 1) % U32_LIMIT == Reading(clock, now, k) && Unread(clock, k + 1) == []
  {
  }

  class Bus {
    /** The answers to the calls still to come. */
    var replies: seq<Reply>
    /** The HAL_GetTick readings still to come, and the last one taken. */
    var clock: seq<nat>
    var now: nat
    /** Every call issued so far, with its outcome. */
    ghost var trace: seq<Event>

    constructor (replies: seq<Reply>, clock: seq<nat>)
      ensures this.replies == replies && this.clock == clock && now == 0 && trace == []
    {
      this.replies := replies;
      this.clock := clock;
      now := 0;
      trace := [];
    }

    /** One HAL call: its outcome is Answer(op, replies), and it is appended to the trace. */
    method Call(op: BusOp) returns (ok: bool, bytes: seq<Byte>, ghost ev: Event)
      modifies this
      ensures ev == Event(op, Answer(op, old(replies)))
      ensures trace == old(trace) + [ev]
      ensures replies == Remaining(op, old(replies))
      ensures ok == !ev.outcome.Failed? && bytes == BytesOf(ev.outcome)
      ensures clock == old(clock) && now == old(now)
    {
      var o := Answer(op, replies);
      ev := Event(op, o);
      trace := trace + [ev];
      replies := Remaining(op, replies);
      ok := !o.Failed?;
      bytes := BytesOf(o);
    }

    /**
     * HAL_GetTick: the next clock reading as a 32-bit counter value; once
     * the readings run out the clock stands still.
     */
    method GetTick() returns (t: nat)
      modifies this
      ensures t < U32_LIMIT
      ensures old(clock) != [] ==> t == old(clock)[0] % U32_LIMIT && clock == old(clock)[1..]
      ensures old(clock) == [] ==> t == old(now) % U32_LIMIT && clock == []
      ensures now == t
      ensures replies == old(replies) && trace == old(trace)
    {
      if clock != [] {
        now := clock[0] % U32_LIMIT;
        clock := clock[1..];
      } else {
        now := now % U32_LIMIT;
      }
      t := now;
    }
  }
}
