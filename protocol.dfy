/**
 * The command protocol of the MX25L512 driver as data: the bus operations
 * the driver issues (one per HAL call), the events a transport records, the
 * operation sequence ("script") each driver function issues when every step
 * succeeds, and what it means for a run to follow a script and to stop at
 * the first failure.
 */
module Protocol {
  import opened Registers
  import opened FlashConfig
  import opened Paging

  /** The BSP return codes QSPI_OK, QSPI_ERROR, QSPI_BUSY and QSPI_NOT_SUPPORTED. */
  datatype Status = Ok | Error | Busy | NotSupported

  /** The instructions the driver sends; their byte values live in the chip header. */
  datatype Opcode =
    | ReadId | Read | PageProgram | SectorErase | BlockErase64K | BulkErase
    | ReadStatusReg | ReadCfgReg | WriteStatusCfgReg | WriteEnable
    | ResetEnable | ResetMemory | Enter4ByteAddress | EnterQuad | ExitQuad
    | QpiRead4ByteAddress

  datatype Lines = OneLine | FourLines

  datatype AddressSize = Address24 | Address32

  datatype AddressPhase = NoAddress | Address(lines: Lines, width: AddressSize, value: nat)

  /** The data phase of a command and its NbData. */
  datatype DataPhase = NoData | Data(lines: Lines, count: nat)

  /** The fields of QSPI_CommandTypeDef the driver sets (DDR, SIOO and alternate bytes are always off). */
  datatype Command = Command(
    instruction: Opcode,
    instructionLines: Lines,
    address: AddressPhase,
    dummyCycles: nat,
    data: DataPhase)

  /** HAL_QPSI_TIMEOUT_DEFAULT_VALUE, MX25L512_SECTOR_ERASE_MAX_TIME, or a literal number of milliseconds. */
  datatype Timeout = DefaultTimeout | SectorEraseMaxTime | Millis(ms: nat)

  /**
   * One call into the HAL. Every auto-poll of this driver reads the status
   * register with a one-line command, one status byte, interval 0x10 and
   * automatic stop, in AND match mode; only its mask, match value and
   * timeout vary, so only those are recorded.
   */
  datatype BusOp =
    | PeripheralDeInit                                  // HAL_QSPI_DeInit
    | PeripheralInit                                    // HAL_QSPI_Init
    | PinTeardown                                       // BSP_QSPI_MspDeInit
    | Cmd(cmd: Command, timeout: Timeout)               // HAL_QSPI_Command
    | Transmit(bytes: seq<Byte>, timeout: Timeout)      // HAL_QSPI_Transmit
    | Receive(count: nat, timeout: Timeout)             // HAL_QSPI_Receive
    | Poll(mask: Byte, target: Byte, timeout: Timeout)  // HAL_QSPI_AutoPolling
    | MapMemory(instruction: Opcode, instructionLines: Lines, addressLines: Lines,
                width: AddressSize, dataLines: Lines, dummyCycles: nat,
                timeoutCounter: bool)                   // HAL_QSPI_MemoryMapped
    | Delay(ms: nat)                                    // HAL_Delay

  /** How a call ended: it failed, it succeeded, or it succeeded and produced bytes. */
  datatype Outcome = Failed | Done | Got(bytes: seq<Byte>)

  datatype Event = Event(op: BusOp, outcome: Outcome)

  // ---------------------------------------------------------------------
  // Runs and scripts
  // ---------------------------------------------------------------------

  /**
   * What HAL_QSPI_AutoPolling promises when it returns HAL_OK: it stopped on
   * a status byte that matched. A call that failed, or any other call,
   * promises nothing about its bytes.
   */
  predicate PollAnswered(e: Event)
  {
    e.op.Poll? && !e.outcome.Failed? ==>
      e.outcome.Got? && |e.outcome.bytes| == 1 && PollMatches(e.outcome.bytes[0], e.op.mask, e.op.target)
  }

  /**
   * The i-th call of the run is the script's i-th operation and it did not
   * fail (for an auto-poll: it saw a matching status byte).
   */
  predicate Succeeded(run: seq<Event>, script: seq<BusOp>, i: nat)
    requires i < |run| && i < |script|
  {
    run[i].op == script[i] && !run[i].outcome.Failed? && PollAnswered(run[i])
  }

  /**
   * The run is a successful prefix of the script: its calls are the
   * script's first ones and none failed. Stated call by call from the end,
   * so that a proof about one more call unfolds one step only.
   */
  predicate InProgress(run: seq<Event>, script: seq<BusOp>)
    decreases |run|
  {
    && |run| <= |script|
    && (run != [] ==>
          InProgress(run[..|run| - 1], script) && Succeeded(run, script, |run| - 1))
  }

  /** InProgress, call by call. */
  lemma {:induction false} InProgressAll(run: seq<Event>, script: seq<BusOp>)
    ensures InProgress(run, script) <==>
              |run| <= |script| && forall i | 0 <= i < |run| :: Succeeded(run, script, i)
    decreases |run|
  {
    if run != [] {
      var p := run[..|run| - 1];
      InProgressAll(p, script);
      forall i | 0 <= i < |p| && |run| <= |script|
        ensures Succeeded(p, script, i) == Succeeded(run, script, i)
      {
        assert p[i] == run[i];
      }
    }
  }

  /** Every operation of the script was issued, in order, and none failed. */
  predicate Completed(run: seq<Event>, script: seq<BusOp>)
  {
    |run| == |script| && InProgress(run, script)
  }

  /**
   * The run issued the script's operations in order and stopped either at
   * the end of the script or right after the first operation that failed.
   */
  predicate Follows(run: seq<Event>, script: seq<BusOp>)
  {
    || Completed(run, script)
    || (&& 0 < |run| <= |script|
        && InProgress(run[..|run| - 1], script)
        && run[|run| - 1].op == script[|run| - 1]
        && run[|run| - 1].outcome.Failed?)
  }

  /** A run that follows a non-empty script completed it exactly when its last call did not fail. */
  lemma FollowsOutcome(run: seq<Event>, script: seq<BusOp>)
    requires Follows(run, script) && |script| > 0
    ensures |run| > 0
    ensures Completed(run, script) <==> !run[|run| - 1].outcome.Failed?
  {
  }

  /**
   * Every auto-poll of a run that follows a script and did not fail
   * received a status byte that matched the poll's mask and target.
   */
  lemma PollsMatched(run: seq<Event>, script: seq<BusOp>)
    requires Follows(run, script)
    ensures forall i | 0 <= i < |run| && run[i].op.Poll? && !run[i].outcome.Failed? ::
              run[i].outcome.Got? && PollMatches(ByteOf(run[i]), run[i].op.mask, run[i].op.target)
  {
    if Completed(run, script) {
      InProgressAll(run, script);
      forall i | 0 <= i < |run|
        ensures PollAnswered(run[i])
      {
        assert Succeeded(run, script, i);
      }
    } else {
      var p := run[..|run| - 1];
      InProgressAll(p, script);
      forall i | 0 <= i < |p|
        ensures PollAnswered(run[i])
      {
        assert p[i] == run[i] && Succeeded(p, script, i);
      }
    }
  }

  /** A single call follows the one-step script of its own operation. */
  lemma Single(ev: Event)
    requires PollAnswered(ev)
    ensures Follows([ev], [ev.op])
    ensures Completed([ev], [ev.op]) <==> !ev.outcome.Failed?
  {
    assert [ev][..0] == [];
  }

  /** A successful prefix stays one for any script that agrees with its own on the run's length. */
  lemma {:induction false} Prefix(run: seq<Event>, script: seq<BusOp>, other: seq<BusOp>)
    requires InProgress(run, script) && |run| <= |other|
    requires forall i | 0 <= i < |run| :: script[i] == other[i]
    ensures InProgress(run, other)
  {
    InProgressAll(run, script);
    InProgressAll(run, other);
    assert forall i | 0 <= i < |run| :: Succeeded(run, script, i) == Succeeded(run, other, i);
  }

  /** A successful prefix followed by a successful run of the sub-procedure the script calls next. */
  lemma {:induction false} Concat(a: seq<Event>, b: seq<Event>, sub: seq<BusOp>, script: seq<BusOp>)
    requires InProgress(a, script) && InProgress(b, sub) && |a| + |b| <= |script|
    requires forall j | 0 <= j < |b| :: sub[j] == script[|a| + j]
    ensures InProgress(a + b, script)
  {
    InProgressAll(a, script);
    InProgressAll(b, sub);
    InProgressAll(a + b, script);
    forall i | 0 <= i < |a + b|
      ensures Succeeded(a + b, script, i)
    {
      if i < |a| {
        assert (a + b)[i] == a[i];
        assert Succeeded(a, script, i);
      } else {
        assert (a + b)[i] == b[i - |a|];
        assert Succeeded(b, sub, i - |a|);
      }
    }
  }

  /** A completed procedure followed by another: the pair follows the joined script, and completes it exactly when the second completes. */
  lemma Sequence(r1: seq<Event>, s1: seq<BusOp>, r2: seq<Event>, s2: seq<BusOp>)
    requires Completed(r1, s1) && Follows(r2, s2)
    ensures Follows(r1 + r2, s1 + s2)
    ensures Completed(r1 + r2, s1 + s2) <==> Completed(r2, s2)
  {
    var r, s := r1 + r2, s1 + s2;
    Prefix(r1, s1, s);
    assert forall j | 0 <= j < |s2| :: s2[j] == s[|r1| + j];
    if Completed(r2, s2) {
      Concat(r1, r2, s2, s);
    } else {
      var k := |r2| - 1;
      Concat(r1, r2[..k], s2, s);
      assert r[..|r| - 1] == r1 + r2[..k];
      assert r[|r| - 1] == r2[k];
    }
  }

  /** A procedure that stopped at a failure stops the whole script there. */
  lemma Abort(run: seq<Event>, s1: seq<BusOp>, s2: seq<BusOp>)
    requires Follows(run, s1) && !Completed(run, s1)
    ensures Follows(run, s1 + s2) && !Completed(run, s1 + s2)
  {
    var k := |run| - 1;
    Prefix(run[..k], s1, s1 + s2);
    assert (s1 + s2)[k] == s1[k];
  }

  /**
   * One more step of a procedure that stops at its first failure: the run
   * `sub` of the segment `seg`, issued only when the run so far completed
   * `done` (`ok`), and empty otherwise.
   */
  lemma Join(t0: seq<Event>, run: seq<Event>, done: seq<BusOp>, ok: bool,
             sub: seq<Event>, seg: seq<BusOp>, ok': bool)
    requires Follows(run, done) && (ok <==> Completed(run, done))
    requires ok ==> Follows(sub, seg) && (ok' <==> Completed(sub, seg))
    requires !ok ==> sub == [] && !ok'
    ensures Follows(run + sub, done + seg) && (ok' <==> Completed(run + sub, done + seg))
    ensures (t0 + run) + sub == t0 + (run + sub)
    ensures ok ==> |run| == |done|
    ensures !ok ==> run + sub == run
  {
    if ok {
      Sequence(run, done, sub, seg);
    } else {
      assert run + sub == run;
      Abort(run, done, seg);
    }
    AppendAssoc(t0, run, sub);
  }

  /**
   * Four segments run one after another, each only when the previous one
   * completed: together they follow the joined script, and complete it
   * exactly when the last segment completes. `script` names the joined
   * script as the caller's contract spells it.
   */
  lemma Chain4(t0: seq<Event>,
               r1: seq<Event>, s1: seq<BusOp>, ok1: bool,
               r2: seq<Event>, s2: seq<BusOp>, ok2: bool,
               r3: seq<Event>, s3: seq<BusOp>, ok3: bool,
               r4: seq<Event>, s4: seq<BusOp>, ok4: bool, script: seq<BusOp>)
    requires script == s1 + s2 + s3 + s4
    requires Follows(r1, s1) && (ok1 <==> Completed(r1, s1))
    requires ok1 ==> Follows(r2, s2) && (ok2 <==> Completed(r2, s2))
    requires !ok1 ==> r2 == [] && !ok2
    requires ok2 ==> Follows(r3, s3) && (ok3 <==> Completed(r3, s3))
    requires !ok2 ==> r3 == [] && !ok3
    requires ok3 ==> Follows(r4, s4) && (ok4 <==> Completed(r4, s4))
    requires !ok3 ==> r4 == [] && !ok4
    ensures Follows(r1 + r2 + r3 + r4, script)
    ensures ok4 <==> Completed(r1 + r2 + r3 + r4, script)
    ensures (((t0 + r1) + r2) + r3) + r4 == t0 + (r1 + r2 + r3 + r4)
  {
    Join(t0, r1, s1, ok1, r2, s2, ok2);
    Join(t0, r1 + r2, s1 + s2, ok2, r3, s3, ok3);
    Join(t0, r1 + r2 + r3, s1 + s2 + s3, ok3, r4, s4, ok4);
    AppendAssoc(t0, r1, r2);
    AppendAssoc(t0, r1 + r2, r3);
    AppendAssoc(t0, r1 + r2 + r3, r4);
  }

  /** Three segments, each run only when the one before it completed. */
  lemma Chain3(t0: seq<Event>,
               r1: seq<Event>, s1: seq<BusOp>, ok1: bool,
               r2: seq<Event>, s2: seq<BusOp>, ok2: bool,
               r3: seq<Event>, s3: seq<BusOp>, ok3: bool, script: seq<BusOp>)
    requires script == s1 + s2 + s3
    requires Follows(r1, s1) && (ok1 <==> Completed(r1, s1))
    requires ok1 ==> Follows(r2, s2) && (ok2 <==> Completed(r2, s2))
    requires !ok1 ==> r2 == [] && !ok2
    requires ok2 ==> Follows(r3, s3) && (ok3 <==> Completed(r3, s3))
    requires !ok2 ==> r3 == [] && !ok3
    ensures Follows(r1 + r2 + r3, script)
    ensures ok3 <==> Completed(r1 + r2 + r3, script)
    ensures ((t0 + r1) + r2) + r3 == t0 + (r1 + r2 + r3)
  {
    Join(t0, r1, s1, ok1, r2, s2, ok2);
    Join(t0, r1 + r2, s1 + s2, ok2, r3, s3, ok3);
    AppendAssoc(t0, r1, r2);
    AppendAssoc(t0, r1 + r2, r3);
  }

  /** Two segments, the second run only when the first completed. */
  lemma Chain2(t0: seq<Event>,
               r1: seq<Event>, s1: seq<BusOp>, ok1: bool,
               r2: seq<Event>, s2: seq<BusOp>, ok2: bool, script: seq<BusOp>)
    requires script == s1 + s2
    requires Follows(r1, s1) && (ok1 <==> Completed(r1, s1))
    requires ok1 ==> Follows(r2, s2) && (ok2 <==> Completed(r2, s2))
    requires !ok1 ==> r2 == [] && !ok2
    ensures Follows(r1 + r2, script)
    ensures ok2 <==> Completed(r1 + r2, script)
    ensures (t0 + r1) + r2 == t0 + (r1 + r2)
    ensures ok1 ==> |r1| == |s1|
  {
    Join(t0, r1, s1, ok1, r2, s2, ok2);
  }

  /**
   * Where a two-segment run stopped: past the first segment's operations
   * exactly when the first segment completed and the second was started.
   */
  lemma StoppedAfterFirst(r1: seq<Event>, s1: seq<BusOp>, ok1: bool, r2: seq<Event>, s2: seq<BusOp>)
    requires Follows(r1, s1) && (ok1 <==> Completed(r1, s1))
    requires ok1 ==> Follows(r2, s2) && |s2| > 0
    requires !ok1 ==> r2 == []
    ensures ok1 <==> |r1 + r2| > |s1|
  {
    if ok1 {
      FollowsOutcome(r2, s2);
    }
  }

  /**
   * Where the k-th event of a two-segment run comes from: an index inside
   * the first segment's script falls in the first run; an index past it
   * means the first segment completed and the event is the second run's.
   */
  lemma Locate(r1: seq<Event>, s1: seq<BusOp>, ok1: bool, r2: seq<Event>, k: nat)
    requires Follows(r1, s1) && (ok1 <==> Completed(r1, s1))
    requires !ok1 ==> r2 == []
    requires k < |r1 + r2|
    ensures k < |s1| ==> k < |r1| && (r1 + r2)[k] == r1[k]
    ensures k >= |s1| ==> ok1 && |r1| == |s1| && k - |s1| < |r2| && (r1 + r2)[k] == r2[k - |s1|]
  {
  }

  /**
   * A byte the second segment received at its index k is the byte at
   * index |s1| + k of the two-segment run.
   */
  lemma ByteInSecond(r1: seq<Event>, s1: seq<BusOp>, ok1: bool, r2: seq<Event>, off: nat, k: nat, b: Byte)
    requires Follows(r1, s1) && (ok1 <==> Completed(r1, s1)) && (!ok1 ==> r2 == [])
    requires |s1| == off
    requires |r2| > k ==> b == ByteOf(r2[k])
    ensures |r1 + r2| > off + k ==> b == ByteOf((r1 + r2)[off + k])
  {
    if |r1 + r2| > off + k {
      Locate(r1, s1, ok1, r2, off + k);
    }
  }

  /** A byte the first segment received at an index inside its script keeps that index in the two-segment run. */
  lemma ByteInFirst(r1: seq<Event>, s1: seq<BusOp>, ok1: bool, r2: seq<Event>, k: nat, b: Byte)
    requires Follows(r1, s1) && (ok1 <==> Completed(r1, s1)) && (!ok1 ==> r2 == [])
    requires k < |s1|
    requires |r1| > k ==> b == ByteOf(r1[k])
    ensures |r1 + r2| > k ==> b == ByteOf((r1 + r2)[k])
  {
    if |r1 + r2| > k {
      Locate(r1, s1, ok1, r2, k);
    }
  }

  /** Appending runs one after another does not depend on how they are grouped. */
  lemma AppendAssoc<T>(a: seq<T>, b: seq<T>, c: seq<T>)
    ensures (a + b) + c == a + (b + c)
  {
  }

  /** The runs of a repeated procedure, one after another. */
  function Flatten(runs: seq<seq<Event>>): seq<Event>
  {
    if runs == [] then [] else Flatten(runs[..|runs| - 1]) + runs[|runs| - 1]
  }

  // ---------------------------------------------------------------------
  // Commands
  // ---------------------------------------------------------------------

  /** A bare instruction: no address, no dummy cycles, no data. */
  function Instruction(op: Opcode, lines: Lines): Command
  {
    Command(op, lines, NoAddress, 0, NoData)
  }

  /** A one-byte register read on one line (READ_STATUS_REG_CMD, READ_CFG_REG_CMD). */
  function RegisterRead(op: Opcode): Command
  {
    Command(op, OneLine, NoAddress, 0, Data(OneLine, 1))
  }

  /** WRITE_STATUS_CFG_REG_CMD with `count` data bytes. */
  function RegisterWrite(count: nat): Command
  {
    Command(WriteStatusCfgReg, OneLine, NoAddress, 0, Data(OneLine, count))
  }

  /** An addressed one-line command, with the 24-bit address size the driver sets. */
  function Addressed(op: Opcode, addr: nat, data: DataPhase): Command
  {
    Command(op, OneLine, Address(OneLine, Address24, addr), 0, data)
  }

  /** The program command of one chunk (PAGE_PROG_CMD, Address, NbData). */
  function ProgramCommand(c: Chunk): Command
  {
    Addressed(PageProgram, c.addr, Data(OneLine, c.size))
  }

  /** The WREN mask QSPI_WriteEnable writes as a literal. */
  const WREN_BIT: Byte := 0x02

  const WRITE_ENABLE: BusOp := Cmd(Instruction(WriteEnable, OneLine), DefaultTimeout)

  // ---------------------------------------------------------------------
  // Scripts: what each driver function issues when every call succeeds.
  // Each is written as the sequence of the steps the C function takes, one
  // `+` per step, so that a run can be matched against it step by step.
  // ---------------------------------------------------------------------

  /** QSPI_WriteEnable: the write-enable instruction, then a poll until bit 0x02 is set. */
  function WriteEnableScript(): seq<BusOp>
  {
    [WRITE_ENABLE] + [Poll(WREN_BIT, WREN_BIT, DefaultTimeout)]
  }

  /** QSPI_AutoPollingMemReady: a poll until WIP is clear. */
  function ReadyScript(c: Config, t: Timeout): seq<BusOp>
  {
    [Poll(c.wip, 0, t)]
  }

  /** The reset-enable / reset-memory instruction pair QSPI_ResetMemory sends on `lines`. */
  function ResetPairScript(lines: Lines): seq<BusOp>
  {
    [Cmd(Instruction(ResetEnable, lines), DefaultTimeout)]
    + [Cmd(Instruction(ResetMemory, lines), DefaultTimeout)]
  }

  /** A one-byte register read: the read instruction `op`, then the reception of one byte. */
  function ReadRegScript(op: Opcode): seq<BusOp>
  {
    [Cmd(RegisterRead(op), DefaultTimeout)] + [Receive(1, DefaultTimeout)]
  }

  /** A write of `bytes` into the status/configuration registers, then the 40 ms write cycle. */
  function WriteRegsScript(bytes: seq<Byte>): seq<BusOp>
  {
    [Cmd(RegisterWrite(|bytes|), DefaultTimeout)]
    + [Transmit(bytes, DefaultTimeout)]
    + [Delay(40)]
  }

  /**
   * The reset stage of QSPI_ResetMemory: the reset pair on four lines, the
   * same pair on one line, the 1000 ms delay and a poll until WIP is clear.
   */
  function ResetStageScript(c: Config): seq<BusOp>
  {
    ResetPairScript(FourLines)
    + ResetPairScript(OneLine)
    + [Delay(1000)]
    + [Poll(c.wip, 0, DefaultTimeout)]
  }

  /**
   * The quad-enable stage of QSPI_ResetMemory, given the status byte `reg`
   * it reads: the one-byte status read, an inline write-enable polled with
   * MX25L512_SR_WREN, and the one-byte status write of `reg | QUADEN`.
   */
  function QuadEnableScript(c: Config, reg: Byte): seq<BusOp>
  {
    ReadRegScript(ReadStatusReg)
    + [WRITE_ENABLE]
    + [Poll(c.wren, c.wren, DefaultTimeout)]
    + WriteRegsScript([SetBits(reg, c.quaden)])
  }

  /** QSPI_ResetMemory: the reset stage, then the quad-enable stage. */
  function ResetScript(c: Config, reg: Byte): seq<BusOp>
  {
    ResetStageScript(c) + QuadEnableScript(c, reg)
  }

  /** QSPI_EnterMemory_QPI: ENTER_QUAD_CMD on four lines, then a poll for QUADEN set and WIP clear. */
  function EnterQuadScript(c: Config): seq<BusOp>
  {
    [Cmd(Instruction(EnterQuad, FourLines), DefaultTimeout)]
    + [Poll(c.quaden | c.wip, c.quaden, DefaultTimeout)]
  }

  /** QSPI_ExitMemory_QPI: EXIT_QUAD_CMD on one line, with no poll. */
  function ExitQuadScript(): seq<BusOp>
  {
    [Cmd(Instruction(ExitQuad, OneLine), DefaultTimeout)]
  }

  /** QSPI_EnterFourBytesAddress: write-enable, the instruction, then a ready poll. */
  function FourByteScript(c: Config): seq<BusOp>
  {
    WriteEnableScript()
    + [Cmd(Instruction(Enter4ByteAddress, OneLine), DefaultTimeout)]
    + ReadyScript(c, DefaultTimeout)
  }

  /** QSPI_DummyCyclesCfg up to the write-enable: read SR, read CR, write-enable. */
  function DummyHead(): seq<BusOp>
  {
    ReadRegScript(ReadStatusReg)
    + ReadRegScript(ReadCfgReg)
    + WriteEnableScript()
  }

  /** The configuration byte QSPI_DummyCyclesCfg writes back for a read value `cr`. */
  function DummyConfig(c: Config, cr: Byte): Byte
    requires c.nbDummy != 0
  {
    SetField(cr, c.nbDummy, c.dummyCyclesReadQuad)
  }

  /**
   * With the header's constants, the configuration byte written back has
   * DUMMY_CYCLES_READ_QUAD in the NB_DUMMY field and every other bit of CR
   * as it was read.
   */
  lemma DummyConfigField(c: Config, cr: Byte)
    requires c.Valid()
    ensures DummyConfig(c, cr) & c.nbDummy == c.dummyCyclesReadQuad << LowestSetBit(c.nbDummy)
    ensures DummyConfig(c, cr) & !c.nbDummy == cr & !c.nbDummy
  {
  }

  /** QSPI_DummyCyclesCfg: the head, then the two-byte write of SR unchanged and CR updated. */
  function DummyScript(c: Config, sr: Byte, cr: Byte): seq<BusOp>
    requires c.nbDummy != 0
  {
    DummyHead() + WriteRegsScript([sr, DummyConfig(c, cr)])
  }

  /** The peripheral half of BSP_QSPI_Init: HAL DeInit, then HAL Init. */
  function RestartScript(): seq<BusOp>
  {
    [PeripheralDeInit] + [PeripheralInit]
  }

  /** The mode settings BSP_QSPI_Init makes after the reset: QPI mode, 4-byte addressing, dummy cycles. */
  function ModeScript(c: Config, sr: Byte, cr: Byte): seq<BusOp>
    requires c.nbDummy != 0
  {
    EnterQuadScript(c) + FourByteScript(c) + DummyScript(c, sr, cr)
  }

  /** The memory half of BSP_QSPI_Init: reset, QPI mode, 4-byte addressing, dummy cycles. */
  function SetupScript(c: Config, reg: Byte, sr: Byte, cr: Byte): seq<BusOp>
    requires c.nbDummy != 0
  {
    ResetScript(c, reg) + ModeScript(c, sr, cr)
  }

  /** The memory half of BSP_QSPI_Init opens with RESET_ENABLE_CMD sent on four lines. */
  lemma SetupStartsWithReset(c: Config, reg: Byte, sr: Byte, cr: Byte)
    requires c.nbDummy != 0
    ensures |SetupScript(c, reg, sr, cr)| > 0
    ensures SetupScript(c, reg, sr, cr)[0] == Cmd(Instruction(ResetEnable, FourLines), DefaultTimeout)
  {
    assert ResetStageScript(c)[0] == ResetPairScript(FourLines)[0];
  }

  /**
   * How the run of BSP_QSPI_Init is put together: the two HAL calls, then,
   * only when both succeeded, the run of the memory setup.
   */
  lemma InitRun(t0: seq<Event>, r1: seq<Event>, ok1: bool, r2: seq<Event>, ok2: bool,
                c: Config, reg: Byte, sr: Byte, cr: Byte)
    requires c.nbDummy != 0
    requires Follows(r1, RestartScript()) && (ok1 <==> Completed(r1, RestartScript()))
    requires ok1 ==> Follows(r2, SetupScript(c, reg, sr, cr)) && (ok2 <==> Completed(r2, SetupScript(c, reg, sr, cr)))
    requires !ok1 ==> r2 == [] && !ok2
    ensures (t0 + r1) + r2 == t0 + (r1 + r2)
    ensures Follows(r1 + r2, InitScript(c, reg, sr, cr))
    ensures ok2 <==> Completed(r1 + r2, InitScript(c, reg, sr, cr))
    ensures ok1 <==> |r1 + r2| > 2
  {
    Chain2(t0, r1, RestartScript(), ok1, r2, SetupScript(c, reg, sr, cr), ok2, InitScript(c, reg, sr, cr));
    SetupStartsWithReset(c, reg, sr, cr);
    StoppedAfterFirst(r1, RestartScript(), ok1, r2, SetupScript(c, reg, sr, cr));
  }

  /** The bytes the memory setup received move two places further into the run of BSP_QSPI_Init. */
  lemma InitBytes(r1: seq<Event>, ok1: bool, r2: seq<Event>, reg: Byte, sr: Byte, cr: Byte)
    requires Follows(r1, RestartScript()) && (ok1 <==> Completed(r1, RestartScript()))
    requires !ok1 ==> r2 == []
    requires |r2| > 7 ==> reg == ByteOf(r2[7])
    requires |r2| > 20 ==> sr == ByteOf(r2[20])
    requires |r2| > 22 ==> cr == ByteOf(r2[22])
    ensures |r1 + r2| > 9 ==> reg == ByteOf((r1 + r2)[9])
    ensures |r1 + r2| > 22 ==> sr == ByteOf((r1 + r2)[22])
    ensures |r1 + r2| > 24 ==> cr == ByteOf((r1 + r2)[24])
  {
    ByteInSecond(r1, RestartScript(), ok1, r2, 2, 7, reg);
    ByteInSecond(r1, RestartScript(), ok1, r2, 2, 20, sr);
    ByteInSecond(r1, RestartScript(), ok1, r2, 2, 22, cr);
  }

  /**
   * The bytes QSPI_DummyCyclesCfg received move six places further into the
   * run of the mode settings, past QPI entry and 4-byte addressing.
   */
  lemma ModeBytes(c: Config, r1: seq<Event>, ok1: bool, r2: seq<Event>, ok2: bool, r3: seq<Event>,
                  sr: Byte, cr: Byte)
    requires Follows(r1, EnterQuadScript(c)) && (ok1 <==> Completed(r1, EnterQuadScript(c)))
    requires ok1 ==> Follows(r2, FourByteScript(c)) && (ok2 <==> Completed(r2, FourByteScript(c)))
    requires !ok1 ==> r2 == [] && !ok2
    requires !ok2 ==> r3 == []
    requires |r3| > 1 ==> sr == ByteOf(r3[1])
    requires |r3| > 3 ==> cr == ByteOf(r3[3])
    ensures |r1 + r2 + r3| > 7 ==> sr == ByteOf((r1 + r2 + r3)[7])
    ensures |r1 + r2 + r3| > 9 ==> cr == ByteOf((r1 + r2 + r3)[9])
  {
    Join([], r1, EnterQuadScript(c), ok1, r2, FourByteScript(c), ok2);
    ModeHeadLength(c);
    ByteInSecond(r1 + r2, EnterQuadScript(c) + FourByteScript(c), ok2, r3, 6, 1, sr);
    ByteInSecond(r1 + r2, EnterQuadScript(c) + FourByteScript(c), ok2, r3, 6, 3, cr);
  }

  /**
   * The status byte QSPI_ResetMemory read stays at index 7 of the run of the
   * memory setup; the bytes of the mode settings move 13 places further.
   */
  lemma SetupBytes(c: Config, r1: seq<Event>, ok1: bool, r2: seq<Event>, reg: Byte, sr: Byte, cr: Byte)
    requires Follows(r1, ResetScript(c, reg)) && (ok1 <==> Completed(r1, ResetScript(c, reg)))
    requires !ok1 ==> r2 == []
    requires |r1| > 7 ==> reg == ByteOf(r1[7])
    requires |r2| > 7 ==> sr == ByteOf(r2[7])
    requires |r2| > 9 ==> cr == ByteOf(r2[9])
    ensures |r1 + r2| > 7 ==> reg == ByteOf((r1 + r2)[7])
    ensures |r1 + r2| > 20 ==> sr == ByteOf((r1 + r2)[20])
    ensures |r1 + r2| > 22 ==> cr == ByteOf((r1 + r2)[22])
  {
    ResetScriptLength(c, reg);
    ByteInFirst(r1, ResetScript(c, reg), ok1, r2, 7, reg);
    ByteInSecond(r1, ResetScript(c, reg), ok1, r2, 13, 7, sr);
    ByteInSecond(r1, ResetScript(c, reg), ok1, r2, 13, 9, cr);
  }

  /** QSPI_ResetMemory issues 13 operations: six in the reset stage, seven in the quad-enable stage. */
  lemma ResetScriptLength(c: Config, reg: Byte)
    ensures |ResetScript(c, reg)| == 13
  {
  }

  /** QPI entry and 4-byte addressing issue 6 operations before the dummy-cycle configuration. */
  lemma ModeHeadLength(c: Config)
    ensures |EnterQuadScript(c) + FourByteScript(c)| == 6
  {
  }

  /** BSP_QSPI_Init: the peripheral half, then the memory half. */
  function InitScript(c: Config, reg: Byte, sr: Byte, cr: Byte): seq<BusOp>
    requires c.nbDummy != 0
  {
    RestartScript() + SetupScript(c, reg, sr, cr)
  }

  /** BSP_QSPI_DeInit: leave QPI mode, HAL DeInit, pin and clock teardown. */
  function DeInitScript(): seq<BusOp>
  {
    ExitQuadScript() + [PeripheralDeInit] + [PinTeardown]
  }

  /** BSP_QSPI_ReadID: a three-byte read with a 5000 ms timeout. */
  function ReadIdScript(): seq<BusOp>
  {
    [Cmd(Command(ReadId, OneLine, NoAddress, 0, Data(OneLine, 3)), Millis(5000))]
    + [Receive(3, Millis(5000))]
  }

  /** BSP_QSPI_Read: one addressed read of `size` bytes. */
  function ReadScript(addr: nat, size: nat): seq<BusOp>
  {
    [Cmd(Addressed(Read, addr, Data(OneLine, size)), DefaultTimeout)]
    + [Receive(size, DefaultTimeout)]
  }

  /** One pass of the BSP_QSPI_Write loop: write-enable, program command, data, ready poll. */
  function ChunkScript(c: Config, chunk: Chunk, bytes: seq<Byte>): seq<BusOp>
  {
    WriteEnableScript()
    + [Cmd(ProgramCommand(chunk), DefaultTimeout)]
    + [Transmit(bytes, DefaultTimeout)]
    + ReadyScript(c, DefaultTimeout)
  }

  /** The passes for `chunks`, each transmitting the next `size` bytes of `data`. */
  function ProgramScript(c: Config, chunks: seq<Chunk>, data: seq<Byte>): seq<BusOp>
    requires SumSizes(chunks) <= |data|
  {
    if chunks == [] then []
    else ChunkScript(c, chunks[0], data[..chunks[0].size])
           + ProgramScript(c, chunks[1..], data[chunks[0].size..])
  }

  /** The passes for `a` then `b` are the passes for `a + b`, the data pointer moved past `a`'s bytes. */
  lemma {:induction false} ProgramScriptAppend(c: Config, a: seq<Chunk>, b: seq<Chunk>, data: seq<Byte>)
    requires SumSizes(a) + SumSizes(b) <= |data|
    ensures SumSizes(a + b) == SumSizes(a) + SumSizes(b)
    ensures ProgramScript(c, a + b, data)
            == ProgramScript(c, a, data) + ProgramScript(c, b, data[SumSizes(a)..])
  {
    if a == [] {
      assert a + b == b;
      assert data[0..] == data;
    } else {
      var n := a[0].size;
      var head := ChunkScript(c, a[0], data[..n]);
      assert (a + b)[0] == a[0] && (a + b)[1..] == a[1..] + b;
      ProgramScriptAppend(c, a[1..], b, data[n..]);
      assert data[n..][SumSizes(a[1..])..] == data[SumSizes(a)..];
      assert ProgramScript(c, a + b, data) == head + ProgramScript(c, a[1..] + b, data[n..]);
      assert ProgramScript(c, a, data) == head + ProgramScript(c, a[1..], data[n..]);
      AppendAssoc(head, ProgramScript(c, a[1..], data[n..]), ProgramScript(c, b, data[SumSizes(a)..]));
    }
  }

  /**
   * One more pass of the write loop: after a run that completed the passes
   * for `done`, a run of the next chunk's pass (sending the next
   * `chunk.size` bytes of `data`) extends it to the passes for `done + [chunk]`,
   * completed exactly when that pass completed.
   */
  lemma ProgramStep(c: Config, done: seq<Chunk>, chunk: Chunk, data: seq<Byte>, k: nat,
                    run: seq<Event>, sub: seq<Event>)
    requires SumSizes(done) == k && k + chunk.size <= |data|
    requires Completed(run, ProgramScript(c, done, data))
    requires Follows(sub, ChunkScript(c, chunk, data[k..k + chunk.size]))
    ensures SumSizes(done + [chunk]) == k + chunk.size
    ensures Follows(run + sub, ProgramScript(c, done + [chunk], data))
    ensures Completed(run + sub, ProgramScript(c, done + [chunk], data))
            <==> Completed(sub, ChunkScript(c, chunk, data[k..k + chunk.size]))
  {
    var bytes := data[k..k + chunk.size];
    ProgramScriptAppend(c, done, [chunk], data);
    assert data[k..][..chunk.size] == bytes;
    assert ProgramScript(c, [chunk], data[k..]) == ChunkScript(c, chunk, bytes) + ProgramScript(c, [], data[k..][chunk.size..]);
    assert ProgramScript(c, [chunk], data[k..]) == ChunkScript(c, chunk, bytes);
    Sequence(run, ProgramScript(c, done, data), sub, ChunkScript(c, chunk, bytes));
  }

  /** A run that failed during the passes for `cs` has failed the passes for `cs + rest` too. */
  lemma ProgramAbort(c: Config, cs: seq<Chunk>, rest: seq<Chunk>, data: seq<Byte>, run: seq<Event>)
    requires SumSizes(cs) + SumSizes(rest) <= |data|
    requires Follows(run, ProgramScript(c, cs, data)) && !Completed(run, ProgramScript(c, cs, data))
    ensures SumSizes(cs + rest) == SumSizes(cs) + SumSizes(rest)
    ensures Follows(run, ProgramScript(c, cs + rest, data)) && !Completed(run, ProgramScript(c, cs + rest, data))
  {
    ProgramScriptAppend(c, cs, rest, data);
    Abort(run, ProgramScript(c, cs, data), ProgramScript(c, rest, data[SumSizes(cs)..]));
  }


  /** BSP_QSPI_Write of `size` bytes of `data` at `writeAddr`. */
  function WriteScript(c: Config, writeAddr: nat, size: nat, data: seq<Byte>): seq<BusOp>
    requires c.pageSize > 0 && size <= |data|
  {
    PlanSum(writeAddr, size, c.pageSize);
    ProgramScript(c, Plan(writeAddr, size, c.pageSize), data)
  }

  /**
   * One turn of the BSP_QSPI_Write loop. Before it, the chunks of the plan
   * split into those done (`done`, programmed by `run`, holding the first
   * `cur - writeAddr` bytes) and those from Chunk(cur, n) on; the turn runs
   * the pass `sub` for Chunk(cur, n) with the next `n` bytes of `data`.
   * After it, Chunk(cur, n) has joined `done`; when the pass failed, the
   * whole run has failed the write.
   */
  lemma WriteTurn(c: Config, writeAddr: nat, size: nat, data: seq<Byte>, plan: seq<Chunk>, end: nat, page: nat,
                  done: seq<Chunk>, cur: nat, n: nat, k: nat, run: seq<Event>, sub: seq<Event>)
    requires page == c.pageSize && page > 0 && size <= |data|
    requires end == writeAddr + size && plan == Plan(writeAddr, size, page)
    requires writeAddr <= cur && cur + n <= end && (n == 0 ==> cur == end) && k == cur - writeAddr
    requires plan == done + ChunksFrom(cur, n, end, page)
    requires SumSizes(done) == k
    requires Completed(run, ProgramScript(c, done, data))
    requires Follows(sub, ChunkScript(c, Chunk(cur, n), data[k..k + n]))
    ensures cur + n == end ==> plan == done + [Chunk(cur, n)]
    ensures SumSizes(done + [Chunk(cur, n)]) == k + n
    ensures Completed(sub, ChunkScript(c, Chunk(cur, n), data[k..k + n]))
            ==> Completed(run + sub, ProgramScript(c, done + [Chunk(cur, n)], data))
    ensures !Completed(sub, ChunkScript(c, Chunk(cur, n), data[k..k + n]))
            ==> Follows(run + sub, WriteScript(c, writeAddr, size, data))
                && !Completed(run + sub, WriteScript(c, writeAddr, size, data))
  {
    var chunk := Chunk(cur, n);
    PlanStep(plan, done, cur, n, end, page);
    ProgramStep(c, done, chunk, data, k, run, sub);
    if !Completed(sub, ChunkScript(c, chunk, data[k..k + n])) {
      TurnAbort(c, writeAddr, size, data, plan, end, page, done + [chunk], cur, n, run + sub);
    }
  }

  /** A loop turn whose pass failed: the passes so far have failed the whole write. */
  lemma TurnAbort(c: Config, writeAddr: nat, size: nat, data: seq<Byte>, plan: seq<Chunk>, end: nat, page: nat,
                  cs: seq<Chunk>, cur: nat, n: nat, run: seq<Event>)
    requires page == c.pageSize && page > 0 && size <= |data|
    requires end == writeAddr + size && plan == Plan(writeAddr, size, page)
    requires cur + n <= end
    requires cur + n < end ==> plan == cs + ChunksFrom(cur + n, NextChunkSize(cur + n, end, page), end, page)
    requires cur + n == end ==> plan == cs
    requires SumSizes(cs) <= size
    requires Follows(run, ProgramScript(c, cs, data)) && !Completed(run, ProgramScript(c, cs, data))
    ensures Follows(run, WriteScript(c, writeAddr, size, data))
    ensures !Completed(run, WriteScript(c, writeAddr, size, data))
  {
    if cur + n < end {
      WriteAbort(c, writeAddr, size, data, cs, ChunksFrom(cur + n, NextChunkSize(cur + n, end, page), end, page), run);
    } else {
      assert plan == cs + [];
      WriteAbort(c, writeAddr, size, data, cs, [], run);
    }
  }

  /** A run that failed during the first passes of the write plan has failed the write. */
  lemma WriteAbort(c: Config, writeAddr: nat, size: nat, data: seq<Byte>,
                   cs: seq<Chunk>, rest: seq<Chunk>, run: seq<Event>)
    requires c.pageSize > 0 && size <= |data|
    requires Plan(writeAddr, size, c.pageSize) == cs + rest && SumSizes(cs) <= size
    requires Follows(run, ProgramScript(c, cs, data)) && !Completed(run, ProgramScript(c, cs, data))
    ensures Follows(run, WriteScript(c, writeAddr, size, data))
    ensures !Completed(run, WriteScript(c, writeAddr, size, data))
  {
    PlanSum(writeAddr, size, c.pageSize);
    SumSizesAppend(cs, rest);
    ProgramAbort(c, cs, rest, data, run);
  }

  /**
   * BSP_QSPI_Erase_Sector and BSP_QSPI_Erase_Block: write-enable, the
   * addressed erase instruction, a ready poll with the sector-erase timeout
   * (the block erase uses the same timeout).
   */
  function EraseScript(c: Config, op: Opcode, addr: nat): seq<BusOp>
  {
    WriteEnableScript()
    + [Cmd(Addressed(op, addr, NoData), DefaultTimeout)]
    + ReadyScript(c, SectorEraseMaxTime)
  }

  /** BSP_QSPI_Erase_Chip: write-enable and BULK_ERASE_CMD; no ready poll follows. */
  function ChipEraseScript(): seq<BusOp>
  {
    WriteEnableScript() + [Cmd(Instruction(BulkErase, OneLine), DefaultTimeout)]
  }

  /** BSP_QSPI_GetStatus: a one-byte status register read. */
  function StatusScript(): seq<BusOp>
  {
    ReadRegScript(ReadStatusReg)
  }

  /** BSP_QSPI_EnableMemoryMappedMode: quad-address, quad-data reads, timeout counter off. */
  function MemoryMappedScript(c: Config): seq<BusOp>
  {
    [MapMemory(QpiRead4ByteAddress, OneLine, FourLines, Address32, FourLines,
               c.dummyCyclesReadQuadIo, false)]
  }

  /** The WIP test of BSP_QSPI_GetStatus: QSPI_OK when WIP is clear, QSPI_BUSY when it is set. */
  function RegisterStatus(reg: Byte, wip: Byte): (s: Status)
    ensures s == Ok <==> reg & wip == 0
    ensures s == Busy <==> reg & wip != 0
  {
    if reg & wip == 0 then Ok else Busy
  }

  /**
   * What BSP_QSPI_GetStatus returns after the run `run` of StatusScript():
   * QSPI_ERROR unless both calls succeeded, otherwise the WIP test of the
   * byte received.
   */
  function StatusResult(run: seq<Event>, c: Config): Status
  {
    if Completed(run, StatusScript()) then RegisterStatus(ByteOf(run[1]), c.wip) else Error
  }

  /** The byte a successful one-byte receive or poll produced, 0 otherwise. */
  function ByteOf(e: Event): Byte
  {
    if e.outcome.Got? && |e.outcome.bytes| == 1 then e.outcome.bytes[0] else 0
  }
}
