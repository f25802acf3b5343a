/**
 * The MX25L512 BSP driver: one method per function of the C file, issuing
 * its HAL calls through a Bus in the order the C code does and returning
 * the same status codes. Each method hands back, as a ghost value, the run
 * of bus events it produced, and promises that this run follows the
 * function's script up to the first failure, that it is exactly what the
 * bus recorded, and which status each way of stopping yields.
 *
 * A C function that returns at its first failing HAL call is written as a
 * chain of steps that each run only while `ok` holds: once a call fails,
 * the later ones are skipped and the error status is returned at the end,
 * which issues the same calls as the early return. Beside the chain,
 * `done` is the part of the script covered so far.
 */
module Driver {
  import opened Registers
  import opened FlashConfig
  import opened Paging
  import opened Protocol
  import opened Transport

  /** HAL_MAX_DELAY: a timeout of this value never expires. */
  const HAL_MAX_DELAY: nat := 0xFFFF_FFFF

  /** `HAL_GetTick() - Tickstart` in 32-bit unsigned arithmetic. */
  function Elapsed(start: nat, tick: nat): (e: nat)
    requires start < U32_LIMIT && tick < U32_LIMIT
    ensures e < U32_LIMIT
    ensures tick >= start ==> e == tick - start
    ensures tick < start ==> e == U32_LIMIT - start + tick
  {
    (tick + U32_LIMIT - start) % U32_LIMIT
  }

  /** The give-up test of waitForFlashbusy for FLASH_STATUSE_TIMEOUT = `timeout`. */
  predicate TimedOut(timeout: nat, elapsed: nat)
  {
    timeout != HAL_MAX_DELAY && (elapsed > timeout || timeout == 0)
  }

  /**
   * The ticks waitForFlashbusy measures against its i-th status read (from
   * 0) on a bus whose clock stood at (`clock`, `now`) when it was called:
   * the reading taken after that read minus the start reading.
   */
  function Waited(clock: seq<nat>, now: nat, i: nat): (e: nat)
    ensures e < U32_LIMIT
  {
    Elapsed(Reading(clock, now, 0), Reading(clock, now, i + 1))
  }

  /**
   * A status read after a busy status that was still in time: the
   * waitForFlashbusy loop's record of reads extends by it.
   */
  lemma PollRecorded(c: Config, runs: seq<seq<Event>>, statuses: seq<Status>, clock: seq<nat>, now: nat,
                     sub: seq<Event>, st: Status)
    requires |runs| == |statuses| > 0
    requires forall i | 0 <= i < |runs| ::
               Follows(runs[i], StatusScript()) && statuses[i] == StatusResult(runs[i], c)
    requires forall i | 0 <= i < |statuses| - 1 :: statuses[i] == Busy && !TimedOut(c.statusTimeout, Waited(clock, now, i))
    requires statuses[|statuses| - 1] == Busy && !TimedOut(c.statusTimeout, Waited(clock, now, |statuses| - 1))
    requires Follows(sub, StatusScript()) && st == StatusResult(sub, c)
    ensures Flatten(runs + [sub]) == Flatten(runs) + sub
    ensures forall i | 0 <= i < |runs + [sub]| ::
              Follows((runs + [sub])[i], StatusScript()) && (statuses + [st])[i] == StatusResult((runs + [sub])[i], c)
    ensures forall i | 0 <= i < |statuses + [st]| - 1 ::
              (statuses + [st])[i] == Busy && !TimedOut(c.statusTimeout, Waited(clock, now, i))
  {
    assert (runs + [sub])[..|runs|] == runs;
  }

  /**
   * A clock whose readings are all the same never lets waitForFlashbusy give up when
   * FLASH_STATUSE_TIMEOUT is not 0: every status read is measured at 0 ticks.
   */
  lemma StoppedClock(c: Config, clock: seq<nat>, now: nat, i: nat)
    requires c.statusTimeout > 0
    requires forall k | 0 <= k < |clock| :: clock[k] == clock[0]
    ensures Waited(clock, now, i) == 0
    ensures !TimedOut(c.statusTimeout, Waited(clock, now, i))
  {
    var t := Reading(clock, now, 0);
    assert Reading(clock, now, i + 1) == t;
  }

  class Mx25l {
    /** The QSPI peripheral (QSPIHandle and the HAL behind it). */
    const bus: Bus
    /**
     * The header constants. Each method requires only the facts of
     * Config.Valid() that its own contract needs.
     */
    const cfg: Config

    constructor (bus: Bus, cfg: Config)
      ensures this.bus == bus && this.cfg == cfg
    {
      this.bus := bus;
      this.cfg := cfg;
    }

    /**
     * One HAL call, the first of a function's sequence: the one-event run it
     * records follows the one-operation script.
     */
    method Issue(op: BusOp) returns (ok: bool, bytes: seq<Byte>, ghost ev: Event, ghost run: seq<Event>)
      modifies bus
      ensures run == [ev] && ev.op == op && bus.trace == old(bus.trace) + run
      ensures Follows(run, [op]) && (ok <==> Completed(run, [op]))
      ensures ok == !ev.outcome.Failed? && bytes == BytesOf(ev.outcome)
      ensures ByteOf(ev) == (if |bytes| == 1 then bytes[0] else 0)
      ensures ok && op.Receive? ==> |bytes| == op.count
      ensures ok && op.Poll? ==> |bytes| == 1 && PollMatches(bytes[0], op.mask, op.target)
      ensures Silent(op) ==> ok
      ensures |bus.replies| <= |old(bus.replies)|
      ensures ok && !Silent(op) ==> |bus.replies| < |old(bus.replies)|
      ensures bus.clock == old(bus.clock) && bus.now == old(bus.now)
    {
      ok, bytes, ev := bus.Call(op);
      Single(ev);
      run := [ev];
    }

    /** One HAL call made as a whole segment of a longer chain. */
    method Call(op: BusOp) returns (ok: bool, ghost run: seq<Event>)
      modifies bus
      ensures bus.trace == old(bus.trace) + run
      ensures Follows(run, [op]) && (ok <==> Completed(run, [op]))
    {
      var bytes; ghost var ev;
      ok, bytes, ev, run := Issue(op);
    }

    /**
     * The next HAL call `op` of a function that stops at its first failure:
     * issued when every call of `run` succeeded (`ok`), skipped otherwise.
     * `run` is what the function recorded after the trace `t0` and `done`
     * the part of its script it followed; the call extends both by one.
     */
    method Next(ok: bool, op: BusOp, ghost t0: seq<Event>, ghost done: seq<BusOp>, ghost run: seq<Event>)
        returns (ok': bool, bytes: seq<Byte>, ghost ev: Event, ghost run': seq<Event>)
      requires bus.trace == t0 + run
      requires Follows(run, done) && (ok <==> Completed(run, done))
      modifies bus
      ensures bus.trace == t0 + run'
      ensures Follows(run', done + [op]) && (ok' <==> Completed(run', done + [op]))
      ensures ok ==> run' == run + [ev] && ev.op == op
      ensures ok ==> ok' == !ev.outcome.Failed? && bytes == BytesOf(ev.outcome)
      ensures !ok ==> !ok' && run' == run
      ensures ok' && op.Receive? ==> |bytes| == op.count
    {
      if ok {
        ghost var one;
        ok', bytes, ev, one := Issue(op);
        Sequence(run, done, one, [op]);
        AppendAssoc(t0, run, one);
        run' := run + one;
      } else {
        ok', bytes, ev, run' := false, [], Event(op, Failed), run;
        Abort(run, done, [op]);
      }
    }

    // -------------------------------------------------------------------
    // Static helpers of the C file
    // -------------------------------------------------------------------

    /** QSPI_WriteEnable. */
    method WriteEnable() returns (s: Status, ghost run: seq<Event>)
      modifies bus
      ensures bus.trace == old(bus.trace) + run
      ensures Follows(run, WriteEnableScript())
      ensures s == Ok <==> Completed(run, WriteEnableScript())
      ensures s == Ok || s == Error
      ensures s == Ok ==> |run| == 2 && ByteOf(run[1]) & WREN_BIT != 0
    {
      ghost var T0 := bus.trace;
      var ok, got; ghost var ev;
      ok, got, ev, run := Issue(WRITE_ENABLE);
      ghost var done := [WRITE_ENABLE];
      ok, got, ev, run := Next(ok, Poll(WREN_BIT, WREN_BIT, DefaultTimeout), T0, done, run);
      s := if ok then Ok else Error;
      if ok {
        PollsMatched(run, WriteEnableScript());
        assert run[1].op == Poll(WREN_BIT, WREN_BIT, DefaultTimeout);
        BitSetPollCondition(ByteOf(run[1]), WREN_BIT);
      }
    }

    /** QSPI_AutoPollingMemReady. */
    method AutoPollingMemReady(timeout: Timeout) returns (s: Status, ghost run: seq<Event>)
      modifies bus
      ensures bus.trace == old(bus.trace) + run
      ensures Follows(run, ReadyScript(cfg, timeout))
      ensures s == Ok <==> Completed(run, ReadyScript(cfg, timeout))
      ensures s == Ok || s == Error
      ensures s == Ok ==> |run| == 1 && ByteOf(run[0]) & cfg.wip == 0
    {
      var ok, got; ghost var ev;
      ok, got, ev, run := Issue(Poll(cfg.wip, 0, timeout));
      s := if ok then Ok else Error;
      if ok {
        PollsMatched(run, ReadyScript(cfg, timeout));
        ReadyPollCondition(ByteOf(run[0]), cfg.wip);
      }
    }

    /** The reset-enable / reset-memory pair QSPI_ResetMemory sends on `lines`. */
    method SendResetPair(lines: Lines) returns (ok: bool, ghost run: seq<Event>)
      modifies bus
      ensures bus.trace == old(bus.trace) + run
      ensures Follows(run, ResetPairScript(lines)) && (ok <==> Completed(run, ResetPairScript(lines)))
    {
      ghost var T0 := bus.trace;
      var op := Cmd(Instruction(ResetEnable, lines), DefaultTimeout);
      var got; ghost var ev;
      ok, got, ev, run := Issue(op);
      ok, got, ev, run := Next(ok, Cmd(Instruction(Opcode.ResetMemory, lines), DefaultTimeout), T0, [op], run);
    }

    /**
     * A one-byte register read: the instruction `op`, then the reception of
     * the byte `reg` (0 when either call failed). A completed read consumed
     * at least one reply of the bus.
     */
    method ReadRegister(op: Opcode) returns (ok: bool, reg: Byte, ghost run: seq<Event>)
      modifies bus
      ensures bus.trace == old(bus.trace) + run
      ensures Follows(run, ReadRegScript(op)) && (ok <==> Completed(run, ReadRegScript(op)))
      ensures |run| > 1 ==> reg == ByteOf(run[1])
      ensures 1 <= |run| <= 2 && (ok ==> |run| == 2)
    {
      ghost var T0 := bus.trace;
      var first := Cmd(RegisterRead(op), DefaultTimeout);
      var bytes; ghost var ev;
      ok, bytes, ev, run := Issue(first);
      reg := 0;
      if ok {
        ghost var one;
        ok, bytes, ev, one := Issue(Receive(1, DefaultTimeout));
        Sequence(run, [first], one, [Receive(1, DefaultTimeout)]);
        AppendAssoc(T0, run, one);
        run := run + one;
        if ok {
          reg := bytes[0];
        }
      } else {
        Abort(run, [first], [Receive(1, DefaultTimeout)]);
      }
    }

    /** A write of `bytes` into the status/configuration registers, then the 40 ms write cycle. */
    method WriteRegisters(bytes: seq<Byte>) returns (ok: bool, ghost run: seq<Event>)
      modifies bus
      ensures bus.trace == old(bus.trace) + run
      ensures Follows(run, WriteRegsScript(bytes)) && (ok <==> Completed(run, WriteRegsScript(bytes)))
    {
      ghost var T0 := bus.trace;
      var op := Cmd(RegisterWrite(|bytes|), DefaultTimeout);
      var got; ghost var ev;
      ok, got, ev, run := Issue(op);
      ghost var done := [op];
      op := Transmit(bytes, DefaultTimeout);
      ok, got, ev, run := Next(ok, op, T0, done, run);
      done := done + [op];
      ok, got, ev, run := Next(ok, Delay(40), T0, done, run);
    }

    /** The reset stage of QSPI_ResetMemory: both reset pairs, the 1000 ms delay, the WIP poll. */
    method ResetStage() returns (ok: bool, ghost run: seq<Event>)
      modifies bus
      ensures bus.trace == old(bus.trace) + run
      ensures Follows(run, ResetStageScript(cfg)) && (ok <==> Completed(run, ResetStageScript(cfg)))
    {
      ghost var T0 := bus.trace;
      var ok1; ghost var r1;
      ok1, r1 := SendResetPair(FourLines);

      var ok2 := false;
      ghost var r2: seq<Event> := [];
      if ok1 {
        ok2, r2 := SendResetPair(OneLine);
      }

      var ok3 := false;
      ghost var r3: seq<Event> := [];
      if ok2 {
        var got; ghost var ev;
        ok3, got, ev, r3 := Issue(Delay(1000));
      }

      ok := false;
      ghost var r4: seq<Event> := [];
      if ok3 {
        var got; ghost var ev;
        ok, got, ev, r4 := Issue(Poll(cfg.wip, 0, DefaultTimeout));
      }
      run := r1 + r2 + r3 + r4;
      Chain4(T0, r1, ResetPairScript(FourLines), ok1, r2, ResetPairScript(OneLine), ok2,
             r3, [Delay(1000)], ok3, r4, [Poll(cfg.wip, 0, DefaultTimeout)], ok, ResetStageScript(cfg));
    }

    /**
     * The quad-enable stage of QSPI_ResetMemory. `read` is the status byte
     * it read (0 when it stopped before); the byte it writes back is `read`
     * with QUADEN set.
     */
    method EnableQuad() returns (ok: bool, ghost read: Byte, ghost run: seq<Event>)
      modifies bus
      ensures bus.trace == old(bus.trace) + run
      ensures Follows(run, QuadEnableScript(cfg, read)) && (ok <==> Completed(run, QuadEnableScript(cfg, read)))
      ensures |run| > 1 ==> read == ByteOf(run[1])
    {
      ghost var T0 := bus.trace;
      var ok1, reg; ghost var r1;
      ok1, reg, r1 := ReadRegister(ReadStatusReg);

      var ok2 := false;
      ghost var r2: seq<Event> := [];
      if ok1 {
        ok2, r2 := Call(WRITE_ENABLE);
      }

      var ok3 := false;
      ghost var r3: seq<Event> := [];
      if ok2 {
        ok3, r3 := Call(Poll(cfg.wren, cfg.wren, DefaultTimeout));
      }

      // Set QUADEN (non-volatile) in the status byte read above and write it back.
      ok := false;
      ghost var r4: seq<Event> := [];
      if ok3 {
        ok, r4 := WriteRegisters([SetBits(reg, cfg.quaden)]);
      }
      run := r1 + r2 + r3 + r4;
      read := if |run| > 1 then ByteOf(run[1]) else 0;
      if ok1 {
        assert |r1| == 2 && run[1] == r1[1];
        assert read == reg;
      }
      Chain4(T0, r1, ReadRegScript(ReadStatusReg), ok1, r2, [WRITE_ENABLE], ok2,
             r3, [Poll(cfg.wren, cfg.wren, DefaultTimeout)], ok3,
             r4, WriteRegsScript([SetBits(read, cfg.quaden)]), ok, QuadEnableScript(cfg, read));
    }

    /**
     * QSPI_ResetMemory. `read` is the status byte it read (0 when it stopped
     * before the read); the byte it writes back is that value with QUADEN set.
     */
    method ResetMemory() returns (s: Status, ghost read: Byte, ghost run: seq<Event>)
      modifies bus
      ensures bus.trace == old(bus.trace) + run
      ensures Follows(run, ResetScript(cfg, read))
      ensures s == Ok <==> Completed(run, ResetScript(cfg, read))
      ensures s == Ok || s == Error
      ensures |run| > 7 ==> read == ByteOf(run[7])
    {
      ghost var T0 := bus.trace;
      var ok1; ghost var r1;
      ok1, r1 := ResetStage();
      var ok2 := false;
      ghost var r2: seq<Event> := [];
      read := 0;
      if ok1 {
        ok2, read, r2 := EnableQuad();
      }
      run := r1 + r2;
      Chain2(T0, r1, ResetStageScript(cfg), ok1, r2, QuadEnableScript(cfg, read), ok2, ResetScript(cfg, read));
      s := if ok2 then Ok else Error;
      if |run| > 7 {
        assert |ResetStageScript(cfg)| == 6;
        assert ok1 && |r1| == 6;
        assert run[7] == r2[1];
      }
    }

    /** QSPI_EnterMemory_QPI. */
    method EnterMemoryQpi() returns (s: Status, ghost run: seq<Event>)
      modifies bus
      ensures bus.trace == old(bus.trace) + run
      ensures Follows(run, EnterQuadScript(cfg))
      ensures s == Ok <==> Completed(run, EnterQuadScript(cfg))
      ensures s == Ok || s == Error
      ensures s == Ok ==> |run| == 2 && PollMatches(ByteOf(run[1]), cfg.quaden | cfg.wip, cfg.quaden)
      ensures s == Ok && cfg.Valid() ==> ByteOf(run[1]) & cfg.quaden != 0 && ByteOf(run[1]) & cfg.wip == 0
    {
      ghost var T0 := bus.trace;
      var op := Cmd(Instruction(EnterQuad, FourLines), DefaultTimeout);
      var ok, got; ghost var ev;
      ok, got, ev, run := Issue(op);
      ghost var done := [op];
      op := Poll(cfg.quaden | cfg.wip, cfg.quaden, DefaultTimeout);
      ok, got, ev, run := Next(ok, op, T0, done, run);
      s := if ok then Ok else Error;
      if ok {
        PollsMatched(run, EnterQuadScript(cfg));
        assert run[1].op == op;
        if cfg.Valid() {
          QuadPollCondition(ByteOf(run[1]), cfg.quaden, cfg.wip);
        }
      }
    }

    /** QSPI_ExitMemory_QPI. */
    method ExitMemoryQpi() returns (s: Status, ghost run: seq<Event>)
      modifies bus
      ensures bus.trace == old(bus.trace) + run
      ensures Follows(run, ExitQuadScript())
      ensures s == Ok <==> Completed(run, ExitQuadScript())
      ensures s == Ok || s == Error
      ensures |run| == 1
    {
      var ok, got; ghost var ev;
      ok, got, ev, run := Issue(Cmd(Instruction(ExitQuad, OneLine), DefaultTimeout));
      s := if ok then Ok else Error;
    }

    /** QSPI_EnterFourBytesAddress. */
    method EnterFourBytesAddress() returns (s: Status, ghost run: seq<Event>)
      modifies bus
      ensures bus.trace == old(bus.trace) + run
      ensures Follows(run, FourByteScript(cfg))
      ensures s == Ok <==> Completed(run, FourByteScript(cfg))
      ensures s == Ok || s == Error
    {
      ghost var T0, done := bus.trace, WriteEnableScript();
      var st, sub := WriteEnable();
      run := sub;
      var ok := st == Ok;
      var op := Cmd(Instruction(Enter4ByteAddress, OneLine), DefaultTimeout);
      var got; ghost var ev;
      ok, got, ev, run := Next(ok, op, T0, done, run);
      done := done + [op];
      if ok {
        st, sub := AutoPollingMemReady(DefaultTimeout);
        Sequence(run, done, sub, ReadyScript(cfg, DefaultTimeout));
        AppendAssoc(T0, run, sub);
        run := run + sub;
        ok := st == Ok;
      } else {
        Abort(run, done, ReadyScript(cfg, DefaultTimeout));
      }
      s := if ok then Ok else Error;
    }

    /**
     * QSPI_DummyCyclesCfg. `sr` and `cr` are the status and configuration
     * bytes it read (0 when it stopped before reading them).
     */
    method DummyCyclesCfg() returns (s: Status, ghost sr: Byte, ghost cr: Byte, ghost run: seq<Event>)
      requires cfg.nbDummy != 0
      modifies bus
      ensures bus.trace == old(bus.trace) + run
      ensures Follows(run, DummyScript(cfg, sr, cr))
      ensures s == Ok <==> Completed(run, DummyScript(cfg, sr, cr))
      ensures s == Ok || s == Error
      ensures |run| > 1 ==> sr == ByteOf(run[1])
      ensures |run| > 3 ==> cr == ByteOf(run[3])
    {
      ghost var T0 := bus.trace;
      var ok1, reg0;
      ghost var r1;
      ok1, reg0, r1 := ReadRegister(ReadStatusReg);

      var ok2 := false;
      var reg1: Byte := 0;
      ghost var r2: seq<Event> := [];
      if ok1 {
        ok2, reg1, r2 := ReadRegister(ReadCfgReg);
      }

      var ok3 := false;
      ghost var r3: seq<Event> := [];
      if ok2 {
        var st;
        st, r3 := WriteEnable();
        ok3 := st == Ok;
      }

      // Write SR unchanged and CR with the new number of dummy cycles.
      var ok4 := false;
      ghost var r4: seq<Event> := [];
      if ok3 {
        ok4, r4 := WriteRegisters([reg0, DummyConfig(cfg, reg1)]);
      }
      run := r1 + r2 + r3 + r4;
      sr := if |run| > 1 then ByteOf(run[1]) else 0;
      cr := if |run| > 3 then ByteOf(run[3]) else 0;
      if ok1 {
        assert |r1| == 2 && run[1] == r1[1];
        assert sr == reg0;
      }
      if ok2 {
        assert |r1 + r2| == 4 && run[3] == r2[1];
        assert cr == reg1;
      }
      Chain4(T0, r1, ReadRegScript(ReadStatusReg), ok1, r2, ReadRegScript(ReadCfgReg), ok2,
             r3, WriteEnableScript(), ok3, r4, WriteRegsScript([sr, DummyConfig(cfg, cr)]), ok4, DummyScript(cfg, sr, cr));
      s := if ok4 then Ok else Error;
    }

    // -------------------------------------------------------------------
    // Public BSP functions
    // -------------------------------------------------------------------

    /** The peripheral half of BSP_QSPI_Init: HAL_QSPI_DeInit, then HAL_QSPI_Init. */
    method Restart() returns (ok: bool, ghost run: seq<Event>)
      modifies bus
      ensures bus.trace == old(bus.trace) + run
      ensures Follows(run, RestartScript()) && (ok <==> Completed(run, RestartScript()))
    {
      ghost var T0 := bus.trace;
      var got; ghost var ev;
      ok, got, ev, run := Issue(PeripheralDeInit);
      ok, got, ev, run := Next(ok, PeripheralInit, T0, [PeripheralDeInit], run);
    }

    /**
     * The mode settings of BSP_QSPI_Init after the reset; `sr` and `cr` are
     * the bytes DummyCyclesCfg received, events 7 and 9 of the run.
     */
    method SetModes() returns (ok: bool, ghost sr: Byte, ghost cr: Byte, ghost run: seq<Event>)
      requires cfg.nbDummy != 0
      modifies bus
      ensures bus.trace == old(bus.trace) + run
      ensures Follows(run, ModeScript(cfg, sr, cr))
      ensures ok <==> Completed(run, ModeScript(cfg, sr, cr))
      ensures |run| > 7 ==> sr == ByteOf(run[7])
      ensures |run| > 9 ==> cr == ByteOf(run[9])
    {
      ghost var T0 := bus.trace;
      var st; ghost var r1;
      st, r1 := EnterMemoryQpi();
      var ok1 := st == Ok;

      var ok2 := false;
      ghost var r2: seq<Event> := [];
      if ok1 {
        st, r2 := EnterFourBytesAddress();
        ok2 := st == Ok;
      }

      ok := false;
      ghost var r3: seq<Event> := [];
      sr, cr := 0, 0;
      if ok2 {
        st, sr, cr, r3 := DummyCyclesCfg();
        ok := st == Ok;
      }
      run := r1 + r2 + r3;
      Chain3(T0, r1, EnterQuadScript(cfg), ok1, r2, FourByteScript(cfg), ok2,
             r3, DummyScript(cfg, sr, cr), ok, ModeScript(cfg, sr, cr));
      ModeBytes(cfg, r1, ok1, r2, ok2, r3, sr, cr);
    }

    /**
     * The memory half of BSP_QSPI_Init: QSPI_ResetMemory, QSPI_EnterMemory_QPI,
     * QSPI_EnterFourBytesAddress and QSPI_DummyCyclesCfg, each only when the
     * previous one returned QSPI_OK. `reg`, `sr` and `cr` are the register
     * bytes the first and last of these read, events 7, 20 and 22 of the run.
     */
    method Setup() returns (ok: bool, ghost reg: Byte, ghost sr: Byte, ghost cr: Byte, ghost run: seq<Event>)
      requires cfg.nbDummy != 0
      modifies bus
      ensures bus.trace == old(bus.trace) + run
      ensures Follows(run, SetupScript(cfg, reg, sr, cr))
      ensures ok <==> Completed(run, SetupScript(cfg, reg, sr, cr))
      ensures |run| > 7 ==> reg == ByteOf(run[7])
      ensures |run| > 20 ==> sr == ByteOf(run[20])
      ensures |run| > 22 ==> cr == ByteOf(run[22])
    {
      ghost var T0 := bus.trace;
      var st; ghost var r1;
      st, reg, r1 := ResetMemory();
      var ok1 := st == Ok;

      ok := false;
      ghost var r2: seq<Event> := [];
      sr, cr := 0, 0;
      if ok1 {
        ok, sr, cr, r2 := SetModes();
      }
      run := r1 + r2;
      Chain2(T0, r1, ResetScript(cfg, reg), ok1, r2, ModeScript(cfg, sr, cr), ok, SetupScript(cfg, reg, sr, cr));
      SetupBytes(cfg, r1, ok1, r2, reg, sr, cr);
    }

    /**
     * BSP_QSPI_Init: QSPI_ERROR when HAL DeInit or Init fails (the run then
     * has at most those two calls), QSPI_NOT_SUPPORTED when a later step
     * fails, QSPI_OK only when the whole sequence completed. `reg` is the
     * status byte QSPI_ResetMemory read (event 9 of the run), `sr` and `cr`
     * the bytes QSPI_DummyCyclesCfg read (events 22 and 24).
     */
    method Init() returns (s: Status, ghost reg: Byte, ghost sr: Byte, ghost cr: Byte,
                           ghost run: seq<Event>)
      requires cfg.nbDummy != 0
      modifies bus
      ensures bus.trace == old(bus.trace) + run
      ensures Follows(run, InitScript(cfg, reg, sr, cr))
      ensures s == Ok <==> Completed(run, InitScript(cfg, reg, sr, cr))
      ensures s == Error <==> !Completed(run, InitScript(cfg, reg, sr, cr)) && |run| <= 2
      ensures s == NotSupported <==> !Completed(run, InitScript(cfg, reg, sr, cr)) && |run| > 2
      ensures |run| > 9 ==> reg == ByteOf(run[9])
      ensures |run| > 22 ==> sr == ByteOf(run[22])
      ensures |run| > 24 ==> cr == ByteOf(run[24])
    {
      ghost var T0 := bus.trace;
      var ok1; ghost var r1;
      ok1, r1 := Restart();
      var ok2 := false;
      ghost var r2: seq<Event> := [];
      reg, sr, cr := 0, 0, 0;
      if ok1 {
        ok2, reg, sr, cr, r2 := Setup();
      }
      run := r1 + r2;
      InitRun(T0, r1, ok1, r2, ok2, cfg, reg, sr, cr);
      InitBytes(r1, ok1, r2, reg, sr, cr);
      s := if ok2 then Ok else if ok1 then NotSupported else Error;
    }

    // -------------------------------------------------------------------
    // The public functions of the C file after BSP_QSPI_Init
    // -------------------------------------------------------------------

    /**
     * BSP_QSPI_DeInit: QSPI_NOT_SUPPORTED when leaving QPI mode fails,
     * QSPI_ERROR when HAL DeInit fails, otherwise the pins are released and
     * QSPI_OK is returned.
     */
    method DeInit() returns (s: Status, ghost run: seq<Event>)
      modifies bus
      ensures bus.trace == old(bus.trace) + run
      ensures Follows(run, DeInitScript())
      ensures s == Ok <==> Completed(run, DeInitScript())
      ensures s == NotSupported <==> !Completed(run, DeInitScript()) && |run| == 1
      ensures s == Error <==> !Completed(run, DeInitScript()) && |run| == 2
    {
      ghost var T0 := bus.trace;
      var st; ghost var r1;
      st, r1 := ExitMemoryQpi();
      var ok1 := st == Ok;

      var ok2 := false;
      ghost var r2: seq<Event> := [];
      if ok1 {
        ok2, r2 := Call(PeripheralDeInit);
      }

      // BSP_QSPI_MspDeInit returns nothing: the teardown cannot fail.
      var ok3 := false;
      ghost var r3: seq<Event> := [];
      if ok2 {
        var got; ghost var ev;
        ok3, got, ev, r3 := Issue(PinTeardown);
      }
      run := r1 + r2 + r3;
      Chain3(T0, r1, ExitQuadScript(), ok1, r2, [PeripheralDeInit], ok2, r3, [PinTeardown], ok3, DeInitScript());
      s := if ok3 then Ok else if ok1 then Error else NotSupported;
      FollowsOutcome(r1, ExitQuadScript());
      if ok1 {
        assert |r1| == 1;
        if !ok2 {
          FollowsOutcome(r2, [PeripheralDeInit]);
        }
      }
    }

    /** BSP_QSPI_ReadID: on QSPI_OK, `id` holds the three bytes received. */
    method ReadId() returns (s: Status, id: seq<Byte>, ghost run: seq<Event>)
      modifies bus
      ensures bus.trace == old(bus.trace) + run
      ensures Follows(run, ReadIdScript())
      ensures s == Ok <==> Completed(run, ReadIdScript())
      ensures s == Ok || s == Error
      ensures s == Ok ==> |id| == 3 && id == BytesOf(run[1].outcome)
    {
      ghost var T0 := bus.trace;
      var first := Cmd(Command(Opcode.ReadId, OneLine, NoAddress, 0, Data(OneLine, 3)), Millis(5000));
      var ok, got; ghost var ev;
      ok, got, ev, run := Issue(first);
      ok, id, ev, run := Next(ok, Receive(3, Millis(5000)), T0, [first], run);
      s := if ok then Ok else Error;
    }

    /** BSP_QSPI_Read: on QSPI_OK, `data` holds the `size` bytes received from `readAddr`. */
    method Read(readAddr: nat, size: nat) returns (s: Status, data: seq<Byte>, ghost run: seq<Event>)
      modifies bus
      ensures bus.trace == old(bus.trace) + run
      ensures Follows(run, ReadScript(readAddr, size))
      ensures s == Ok <==> Completed(run, ReadScript(readAddr, size))
      ensures s == Ok || s == Error
      ensures s == Ok ==> |data| == size && data == BytesOf(run[1].outcome)
    {
      ghost var T0 := bus.trace;
      var first := Cmd(Addressed(Opcode.Read, readAddr, Data(OneLine, size)), DefaultTimeout);
      var ok, got; ghost var ev;
      ok, got, ev, run := Issue(first);
      ok, data, ev, run := Next(ok, Receive(size, DefaultTimeout), T0, [first], run);
      s := if ok then Ok else Error;
    }

    /** One pass of the do-while loop of BSP_QSPI_Write: program `bytes` at `addr`. */
    method ProgramChunk(addr: nat, bytes: seq<Byte>) returns (ok: bool, ghost run: seq<Event>)
      modifies bus
      ensures bus.trace == old(bus.trace) + run
      ensures Follows(run, ChunkScript(cfg, Chunk(addr, |bytes|), bytes))
      ensures ok <==> Completed(run, ChunkScript(cfg, Chunk(addr, |bytes|), bytes))
    {
      ghost var T0 := bus.trace;
      var st; ghost var r1;
      st, r1 := WriteEnable();
      var ok1 := st == Ok;

      var ok2 := false;
      ghost var r2: seq<Event> := [];
      if ok1 {
        ok2, r2 := Call(Cmd(ProgramCommand(Chunk(addr, |bytes|)), DefaultTimeout));
      }

      var ok3 := false;
      ghost var r3: seq<Event> := [];
      if ok2 {
        ok3, r3 := Call(Transmit(bytes, DefaultTimeout));
      }

      ok := false;
      ghost var r4: seq<Event> := [];
      if ok3 {
        st, r4 := AutoPollingMemReady(DefaultTimeout);
        ok := st == Ok;
      }
      run := r1 + r2 + r3 + r4;
      Chain4(T0, r1, WriteEnableScript(), ok1, r2, [Cmd(ProgramCommand(Chunk(addr, |bytes|)), DefaultTimeout)], ok2,
             r3, [Transmit(bytes, DefaultTimeout)], ok3, r4, ReadyScript(cfg, DefaultTimeout), ok,
             ChunkScript(cfg, Chunk(addr, |bytes|), bytes));
    }

    /**
     * BSP_QSPI_Write of `size` bytes of `data` at `writeAddr`: the run
     * follows WriteScript, so it programs exactly the chunks of the write
     * plan, and QSPI_OK means every chunk was programmed and polled ready.
     */
    method Write(data: seq<Byte>, writeAddr: nat, size: nat) returns (s: Status, ghost run: seq<Event>)
      requires cfg.pageSize > 0
      requires size <= |data|
      requires writeAddr + size < U32_LIMIT
      modifies bus
      ensures bus.trace == old(bus.trace) + run
      ensures Follows(run, WriteScript(cfg, writeAddr, size, data))
      ensures s == Ok <==> Completed(run, WriteScript(cfg, writeAddr, size, data))
      ensures s == Ok || s == Error
    {
      var page := cfg.pageSize;
      var currentSize: nat := FirstChunkSize(writeAddr, size, page);
      var currentAddr := writeAddr;
      var endAddr := writeAddr + size;
      var offset := 0;

      ghost var plan := Plan(writeAddr, size, page);
      PlanSum(writeAddr, size, page);
      ghost var done: seq<Chunk> := [];
      run := [];
      // do { ... } while (current_addr < end_addr): the test comes after each pass.
      while true
        invariant writeAddr <= currentAddr <= endAddr && offset == currentAddr - writeAddr
        invariant currentAddr + currentSize <= endAddr && (currentSize == 0 ==> currentAddr == endAddr)
        invariant plan == done + ChunksFrom(currentAddr, currentSize, endAddr, page)
        invariant SumSizes(done) == offset
        invariant Completed(run, ProgramScript(cfg, done, data))
        invariant bus.trace == old(bus.trace) + run
        decreases endAddr - currentAddr
      {
        ghost var chunk, done0 := Chunk(currentAddr, currentSize), done;
        ghost var cur0, n0 := currentAddr, currentSize;
        var ok, sub := WritePass(data, writeAddr, size, currentAddr, currentSize, offset, plan, done, run);
        AppendAssoc(old(bus.trace), run, sub);
        if !ok {
          return Error, run + sub;
        }
        run := run + sub;
        done := done + [chunk];
        currentAddr := currentAddr + currentSize;
        offset := offset + currentSize;
        currentSize := if currentAddr + page > endAddr then endAddr - currentAddr else page;
        if currentAddr >= endAddr {
          break;
        }
        PlanAdvance(plan, done0, cur0, n0, endAddr, page, done, currentAddr, currentSize);
      }
      s := Ok;
    }

    /**
     * One pass of the BSP_QSPI_Write loop: program Chunk(addr, n) with the
     * `n` bytes of `data` from `offset`. Before it, `run` completed the passes
     * for `done`, the chunks of the plan before `addr`. When the pass
     * succeeds, `run + sub` completes the passes for `done` and the new chunk;
     * when it fails, `run + sub` has failed the whole write.
     */
    method WritePass(data: seq<Byte>, writeAddr: nat, size: nat, addr: nat, n: nat, offset: nat,
                     ghost plan: seq<Chunk>, ghost done: seq<Chunk>, ghost run: seq<Event>)
      returns (ok: bool, ghost sub: seq<Event>)
      requires cfg.pageSize > 0 && size <= |data|
      requires plan == Plan(writeAddr, size, cfg.pageSize)
      requires writeAddr <= addr && addr + n <= writeAddr + size && (n == 0 ==> addr == writeAddr + size)
      requires offset == addr - writeAddr
      requires plan == done + ChunksFrom(addr, n, writeAddr + size, cfg.pageSize)
      requires SumSizes(done) == offset
      requires Completed(run, ProgramScript(cfg, done, data))
      modifies bus
      ensures bus.trace == old(bus.trace) + sub
      ensures SumSizes(done + [Chunk(addr, n)]) == offset + n
      ensures ok ==> Completed(run + sub, ProgramScript(cfg, done + [Chunk(addr, n)], data))
      ensures ok && addr + n == writeAddr + size ==> plan == done + [Chunk(addr, n)]
      ensures !ok ==> Follows(run + sub, WriteScript(cfg, writeAddr, size, data))
                      && !Completed(run + sub, WriteScript(cfg, writeAddr, size, data))
    {
      var bytes := data[offset..offset + n];
      assert |bytes| == n;
      ok, sub := ProgramChunk(addr, bytes);
      WriteTurn(cfg, writeAddr, size, data, plan, writeAddr + size, cfg.pageSize, done, addr, n, offset, run, sub);
    }

    /** BSP_QSPI_Erase_Sector. */
    method EraseSector(sectorAddress: nat) returns (s: Status, ghost run: seq<Event>)
      modifies bus
      ensures bus.trace == old(bus.trace) + run
      ensures Follows(run, EraseScript(cfg, SectorErase, sectorAddress))
      ensures s == Ok <==> Completed(run, EraseScript(cfg, SectorErase, sectorAddress))
      ensures s == Ok || s == Error
    {
      s, run := Erase(SectorErase, sectorAddress);
    }

    /** BSP_QSPI_Erase_Block. */
    method EraseBlock(blockAddress: nat) returns (s: Status, ghost run: seq<Event>)
      modifies bus
      ensures bus.trace == old(bus.trace) + run
      ensures Follows(run, EraseScript(cfg, BlockErase64K, blockAddress))
      ensures s == Ok <==> Completed(run, EraseScript(cfg, BlockErase64K, blockAddress))
      ensures s == Ok || s == Error
    {
      s, run := Erase(BlockErase64K, blockAddress);
    }

    /** The body BSP_QSPI_Erase_Sector and BSP_QSPI_Erase_Block share, with their instruction `op`. */
    method Erase(op: Opcode, addr: nat) returns (s: Status, ghost run: seq<Event>)
      modifies bus
      ensures bus.trace == old(bus.trace) + run
      ensures Follows(run, EraseScript(cfg, op, addr))
      ensures s == Ok <==> Completed(run, EraseScript(cfg, op, addr))
      ensures s == Ok || s == Error
    {
      ghost var T0 := bus.trace;
      var st; ghost var r1;
      st, r1 := WriteEnable();
      var ok1 := st == Ok;

      var ok2 := false;
      ghost var r2: seq<Event> := [];
      if ok1 {
        ok2, r2 := Call(Cmd(Addressed(op, addr, NoData), DefaultTimeout));
      }

      var ok3 := false;
      ghost var r3: seq<Event> := [];
      if ok2 {
        st, r3 := AutoPollingMemReady(SectorEraseMaxTime);
        ok3 := st == Ok;
      }
      run := r1 + r2 + r3;
      Chain3(T0, r1, WriteEnableScript(), ok1, r2, [Cmd(Addressed(op, addr, NoData), DefaultTimeout)], ok2,
             r3, ReadyScript(cfg, SectorEraseMaxTime), ok3, EraseScript(cfg, op, addr));
      s := if ok3 then Ok else Error;
    }

    /** BSP_QSPI_Erase_Chip: returns as soon as the bulk erase instruction is accepted. */
    method EraseChip() returns (s: Status, ghost run: seq<Event>)
      modifies bus
      ensures bus.trace == old(bus.trace) + run
      ensures Follows(run, ChipEraseScript())
      ensures s == Ok <==> Completed(run, ChipEraseScript())
      ensures s == Ok || s == Error
    {
      ghost var T0 := bus.trace;
      var st; ghost var r1;
      st, r1 := WriteEnable();
      var ok1 := st == Ok;

      var ok2 := false;
      ghost var r2: seq<Event> := [];
      if ok1 {
        ok2, r2 := Call(Cmd(Instruction(BulkErase, OneLine), DefaultTimeout));
      }
      run := r1 + r2;
      Chain2(T0, r1, WriteEnableScript(), ok1, r2, [Cmd(Instruction(BulkErase, OneLine), DefaultTimeout)], ok2,
             ChipEraseScript());
      s := if ok2 then Ok else Error;
    }

    /**
     * BSP_QSPI_GetStatus. A status read that got as far as the WIP test
     * consumed a reply of the bus, and none reads the clock.
     */
    method GetStatus() returns (s: Status, ghost run: seq<Event>)
      modifies bus
      ensures bus.trace == old(bus.trace) + run
      ensures Follows(run, StatusScript())
      ensures s == StatusResult(run, cfg)
      ensures |bus.replies| <= |old(bus.replies)|
      ensures s == Busy ==> |bus.replies| < |old(bus.replies)|
      ensures bus.clock == old(bus.clock) && bus.now == old(bus.now)
    {
      ghost var T0 := bus.trace;
      var first := Cmd(RegisterRead(ReadStatusReg), DefaultTimeout);
      var ok, bytes; ghost var ev;
      ok, bytes, ev, run := Issue(first);
      if !ok {
        Abort(run, [first], [Receive(1, DefaultTimeout)]);
        return Error, run;
      }
      ghost var one;
      ok, bytes, ev, one := Issue(Receive(1, DefaultTimeout));
      Sequence(run, [first], one, [Receive(1, DefaultTimeout)]);
      AppendAssoc(T0, run, one);
      run := run + one;
      if !ok {
        return Error, run;
      }
      var reg := bytes[0];
      if reg & cfg.wip == 0 {
        s := Ok;
      } else {
        s := Busy;
      }
    }

    /** BSP_QSPI_EnableMemoryMappedMode. */
    method EnableMemoryMappedMode() returns (s: Status, ghost run: seq<Event>)
      modifies bus
      ensures bus.trace == old(bus.trace) + run
      ensures Follows(run, MemoryMappedScript(cfg))
      ensures s == Ok <==> Completed(run, MemoryMappedScript(cfg))
      ensures s == Ok || s == Error
    {
      var ok;
      ok, run := Call(MapMemory(QpiRead4ByteAddress, OneLine, FourLines, Address32, FourLines,
                                cfg.dummyCyclesReadQuadIo, false));
      s := if ok then Ok else Error;
    }

    /**
     * The deadline test inside waitForFlashbusy's loop after its k-th status
     * read: unless the timeout is HAL_MAX_DELAY, take the k-th reading of a
     * clock that stood at (`clock0`, `now0`) when the loop started and
     * compare the ticks elapsed since `tickStart`, its first reading, with
     * FLASH_STATUSE_TIMEOUT.
     */
    method Expired(tickStart: nat, ghost clock0: seq<nat>, ghost now0: nat, ghost k: nat) returns (expired: bool)
      requires k > 0 && tickStart == Reading(clock0, now0, 0)
      requires cfg.statusTimeout != HAL_MAX_DELAY ==>
                 bus.clock == Unread(clock0, k) && bus.now == Reading(clock0, now0, k - 1)
      modifies bus
      ensures expired == TimedOut(cfg.statusTimeout, Waited(clock0, now0, k - 1))
      ensures cfg.statusTimeout == HAL_MAX_DELAY ==> bus.clock == old(bus.clock) && bus.now == old(bus.now)
      ensures cfg.statusTimeout != HAL_MAX_DELAY ==>
                bus.clock == Unread(clock0, k + 1) && bus.now == Reading(clock0, now0, k)
      ensures bus.trace == old(bus.trace) && bus.replies == old(bus.replies)
    {
      expired := false;
      if cfg.statusTimeout != HAL_MAX_DELAY {
        NextReading(clock0, now0, k);
        var tick := bus.GetTick();
        var e := Elapsed(tickStart, tick);
        expired := e > cfg.statusTimeout || cfg.statusTimeout == 0;
      }
    }

    /**
     * waitForFlashbusy: read the status until it is not QSPI_BUSY, giving up
     * with QSPI_BUSY once more than FLASH_STATUSE_TIMEOUT ticks have passed
     * since the start. `statuses` are the GetStatus results in order; the
     * ticks measured against the i-th are Waited(clock, now, i) for the
     * clock the bus had on entry. Every status but the last was busy and in
     * time; the result is QSPI_OK exactly when the last status was not busy
     * (a failed status read included), and QSPI_BUSY exactly when it was
     * busy and the reading after it was too late. Unless the timeout is
     * HAL_MAX_DELAY, one reading was taken at the start and one after each
     * busy status.
     */
    method WaitForFlashBusy() returns (s: Status, ghost runs: seq<seq<Event>>, ghost statuses: seq<Status>)
      modifies bus
      ensures bus.trace == old(bus.trace) + Flatten(runs)
      ensures |runs| == |statuses| > 0
      ensures forall i | 0 <= i < |runs| ::
                Follows(runs[i], StatusScript()) && statuses[i] == StatusResult(runs[i], cfg)
      ensures forall i | 0 <= i < |statuses| - 1 ::
                statuses[i] == Busy && !TimedOut(cfg.statusTimeout, Waited(old(bus.clock), old(bus.now), i))
      ensures s == Ok <==> statuses[|statuses| - 1] != Busy
      ensures s == Busy <==>
                statuses[|statuses| - 1] == Busy &&
                TimedOut(cfg.statusTimeout, Waited(old(bus.clock), old(bus.now), |statuses| - 1))
      ensures s == Ok || s == Busy
    {
      ghost var clock0, now0 := bus.clock, bus.now;
      var tickStart := bus.GetTick();
      var st, sub := GetStatus();
      runs, statuses := [sub], [st];
      assert Flatten(runs) == Flatten([]) + sub;
      while st == Busy
        invariant |runs| == |statuses| > 0
        invariant tickStart == Reading(clock0, now0, 0)
        invariant cfg.statusTimeout != HAL_MAX_DELAY ==>
                    bus.clock == Unread(clock0, |statuses|) && bus.now == Reading(clock0, now0, |statuses| - 1)
        invariant bus.trace == old(bus.trace) + Flatten(runs)
        invariant forall i | 0 <= i < |runs| ::
                    Follows(runs[i], StatusScript()) && statuses[i] == StatusResult(runs[i], cfg)
        invariant forall i | 0 <= i < |statuses| - 1 ::
                    statuses[i] == Busy && !TimedOut(cfg.statusTimeout, Waited(clock0, now0, i))
        invariant st == statuses[|statuses| - 1]
        decreases |bus.replies| + (if st == Busy then 1 else 0)
      {
        var expired := Expired(tickStart, clock0, now0, |statuses|);
        if expired {
          return Busy, runs, statuses;
        }
        st, sub := GetStatus();
        PollRecorded(cfg, runs, statuses, clock0, now0, sub, st);
        runs, statuses := runs + [sub], statuses + [st];
      }
      s := Ok;
    }
  }
}
