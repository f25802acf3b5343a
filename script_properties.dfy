/**
 * What the driver's command sequences guarantee: every instruction that
 * changes the flash or its registers is preceded by a confirmed write-enable;
 * every page program carries exactly its NbData bytes and is followed by a
 * ready poll; and BSP_QSPI_Write issues exactly the write plan, sending the
 * caller's bytes once each, in order.
 */
module ScriptProperties {
  import opened Registers
  import opened FlashConfig
  import opened Paging
  import opened Protocol

  /** Instructions the chip only accepts with the write-enable latch set. */
  predicate Mutating(op: BusOp)
  {
    op.Cmd? && op.cmd.instruction in {PageProgram, SectorErase, BlockErase64K, BulkErase,
                                       WriteStatusCfgReg, Enter4ByteAddress}
  }

  /** A poll that waits for the write-enable latch: the literal 0x02 or MX25L512_SR_WREN. */
  predicate WrenPoll(op: BusOp, c: Config)
  {
    op == Poll(WREN_BIT, WREN_BIT, DefaultTimeout) || op == Poll(c.wren, c.wren, DefaultTimeout)
  }

  /** Every mutating instruction comes right after a write-enable and a poll that confirmed it. */
  predicate WriteEnabled(script: seq<BusOp>, c: Config)
  {
    forall i | 0 <= i < |script| && Mutating(script[i]) ::
      2 <= i && script[i - 2] == WRITE_ENABLE && WrenPoll(script[i - 1], c)
  }

  lemma WriteEnabledConcat(a: seq<BusOp>, b: seq<BusOp>, c: Config)
    requires WriteEnabled(a, c) && WriteEnabled(b, c)
    ensures WriteEnabled(a + b, c)
  {
    var s := a + b;
    forall i | 0 <= i < |s| && Mutating(s[i])
      ensures 2 <= i && s[i - 2] == WRITE_ENABLE && WrenPoll(s[i - 1], c)
    {
      if i >= |a| {
        var j := i - |a|;
        assert s[i] == b[j];
        assert s[i - 2] == b[j - 2] && s[i - 1] == b[j - 1];
      } else {
        assert s[i] == a[i] && s[i - 2] == a[i - 2] && s[i - 1] == a[i - 1];
      }
    }
  }

  /** The only register write of QSPI_ResetMemory comes after its inline write-enable. */
  lemma ResetWriteEnabled(c: Config, reg: Byte)
    ensures WriteEnabled(ResetScript(c, reg), c)
  {
    var t := ResetScript(c, reg);
    forall i | 0 <= i < |t| && Mutating(t[i])
      ensures 2 <= i && t[i - 2] == WRITE_ENABLE && WrenPoll(t[i - 1], c)
    {
      assert i == 10;
    }
  }

  lemma FourByteWriteEnabled(c: Config)
    ensures WriteEnabled(FourByteScript(c), c)
  {
    var t := FourByteScript(c);
    forall i | 0 <= i < |t| && Mutating(t[i])
      ensures 2 <= i && t[i - 2] == WRITE_ENABLE && WrenPoll(t[i - 1], c)
    {
      assert i == 2;
    }
  }

  lemma DummyWriteEnabled(c: Config, sr: Byte, cr: Byte)
    requires c.nbDummy != 0
    ensures WriteEnabled(DummyScript(c, sr, cr), c)
  {
    var t := DummyScript(c, sr, cr);
    forall i | 0 <= i < |t| && Mutating(t[i])
      ensures 2 <= i && t[i - 2] == WRITE_ENABLE && WrenPoll(t[i - 1], c)
    {
      assert i == 6;
    }
  }

  /** The 4-byte-address entry and the configuration write after the reset are write-enabled. */
  lemma ModeWriteEnabled(c: Config, sr: Byte, cr: Byte)
    requires c.nbDummy != 0
    ensures WriteEnabled(ModeScript(c, sr, cr), c)
  {
    var quad := EnterQuadScript(c);
    assert !Mutating(quad[0]) && !Mutating(quad[1]);
    FourByteWriteEnabled(c);
    DummyWriteEnabled(c, sr, cr);
    WriteEnabledConcat(quad, FourByteScript(c), c);
    WriteEnabledConcat(quad + FourByteScript(c), DummyScript(c, sr, cr), c);
  }

  /** The status and configuration writes and the 4-byte-address entry of BSP_QSPI_Init are write-enabled. */
  lemma InitWriteEnabled(c: Config, reg: Byte, sr: Byte, cr: Byte)
    requires c.nbDummy != 0
    ensures WriteEnabled(InitScript(c, reg, sr, cr), c)
  {
    var pre := RestartScript();
    assert !Mutating(pre[0]) && !Mutating(pre[1]);
    ResetWriteEnabled(c, reg);
    ModeWriteEnabled(c, sr, cr);
    WriteEnabledConcat(ResetScript(c, reg), ModeScript(c, sr, cr), c);
    WriteEnabledConcat(pre, SetupScript(c, reg, sr, cr), c);
  }

  lemma ChunkWriteEnabled(c: Config, chunk: Chunk, bytes: seq<Byte>)
    ensures WriteEnabled(ChunkScript(c, chunk, bytes), c)
  {
    var t := ChunkScript(c, chunk, bytes);
    forall i | 0 <= i < |t| && Mutating(t[i])
      ensures 2 <= i && t[i - 2] == WRITE_ENABLE && WrenPoll(t[i - 1], c)
    {
      assert i == 2;
    }
  }

  lemma {:induction false} ProgramWriteEnabled(c: Config, chunks: seq<Chunk>, data: seq<Byte>)
    requires SumSizes(chunks) <= |data|
    ensures WriteEnabled(ProgramScript(c, chunks, data), c)
  {
    if chunks != [] {
      ChunkWriteEnabled(c, chunks[0], data[..chunks[0].size]);
      ProgramWriteEnabled(c, chunks[1..], data[chunks[0].size..]);
      WriteEnabledConcat(ChunkScript(c, chunks[0], data[..chunks[0].size]),
                         ProgramScript(c, chunks[1..], data[chunks[0].size..]), c);
    }
  }

  /** Every page program of BSP_QSPI_Write is write-enabled. */
  lemma WriteWriteEnabled(c: Config, writeAddr: nat, size: nat, data: seq<Byte>)
    requires c.pageSize > 0 && size <= |data|
    ensures WriteEnabled(WriteScript(c, writeAddr, size, data), c)
  {
    PlanCovers(writeAddr, size, c.pageSize);
    ProgramWriteEnabled(c, Plan(writeAddr, size, c.pageSize), data);
  }

  /** Sector, block and chip erase are write-enabled. */
  lemma EraseWriteEnabled(c: Config, op: Opcode, addr: nat)
    ensures WriteEnabled(EraseScript(c, op, addr), c)
    ensures WriteEnabled(ChipEraseScript(), c)
  {
    var t := EraseScript(c, op, addr);
    forall i | 0 <= i < |t| && Mutating(t[i])
      ensures 2 <= i && t[i - 2] == WRITE_ENABLE && WrenPoll(t[i - 1], c)
    {
      assert i == 2;
    }
    var u := ChipEraseScript();
    forall i | 0 <= i < |u| && Mutating(u[i])
      ensures 2 <= i && u[i - 2] == WRITE_ENABLE && WrenPoll(u[i - 1], c)
    {
      assert i == 2;
    }
  }

  // ---------------------------------------------------------------------
  // Page programs
  // ---------------------------------------------------------------------

  predicate IsProgram(op: BusOp)
  {
    op.Cmd? && op.cmd.instruction == PageProgram && op.cmd.address.Address? && op.cmd.data.Data?
  }

  /**
   * Every page program is followed by the transmit of exactly NbData bytes
   * and then by a poll until WIP is clear, before anything else is issued.
   */
  predicate ProgramsSettle(script: seq<BusOp>, c: Config)
  {
    forall i | 0 <= i < |script| && IsProgram(script[i]) ::
      && i + 2 < |script|
      && script[i + 1].Transmit? && |script[i + 1].bytes| == script[i].cmd.data.count
      && script[i + 2] == Poll(c.wip, 0, DefaultTimeout)
  }

  lemma ProgramsSettleConcat(a: seq<BusOp>, b: seq<BusOp>, c: Config)
    requires ProgramsSettle(a, c) && ProgramsSettle(b, c)
    ensures ProgramsSettle(a + b, c)
  {
    var s := a + b;
    forall i | 0 <= i < |s| && IsProgram(s[i])
      ensures i + 2 < |s|
      ensures s[i + 1].Transmit? && |s[i + 1].bytes| == s[i].cmd.data.count
      ensures s[i + 2] == Poll(c.wip, 0, DefaultTimeout)
    {
      if i >= |a| {
        var j := i - |a|;
        assert s[i] == b[j] && s[i + 1] == b[j + 1] && s[i + 2] == b[j + 2];
      } else {
        assert s[i] == a[i] && s[i + 1] == a[i + 1] && s[i + 2] == a[i + 2];
      }
    }
  }

  /** The page programs a script issues, as (address, NbData) chunks, in order. */
  function ProgramCommands(script: seq<BusOp>): seq<Chunk>
  {
    if script == [] then []
    else (if IsProgram(script[0])
          then [Chunk(script[0].cmd.address.value, script[0].cmd.data.count)] else [])
         + ProgramCommands(script[1..])
  }

  /** The bytes a script transmits, concatenated in order. */
  function Transmitted(script: seq<BusOp>): seq<Byte>
  {
    if script == [] then []
    else (if script[0].Transmit? then script[0].bytes else []) + Transmitted(script[1..])
  }

  lemma {:induction false} ProgramCommandsConcat(a: seq<BusOp>, b: seq<BusOp>)
    ensures ProgramCommands(a + b) == ProgramCommands(a) + ProgramCommands(b)
  {
    if a != [] {
      assert (a + b)[1..] == a[1..] + b;
      ProgramCommandsConcat(a[1..], b);
    } else {
      assert a + b == b;
    }
  }

  lemma {:induction false} TransmittedConcat(a: seq<BusOp>, b: seq<BusOp>)
    ensures Transmitted(a + b) == Transmitted(a) + Transmitted(b)
  {
    if a != [] {
      assert (a + b)[1..] == a[1..] + b;
      TransmittedConcat(a[1..], b);
    } else {
      assert a + b == b;
    }
  }

  /** What a single operation contributes to ProgramCommands and Transmitted. */
  lemma SingleIssues(op: BusOp)
    ensures ProgramCommands([op])
            == if IsProgram(op) then [Chunk(op.cmd.address.value, op.cmd.data.count)] else []
    ensures Transmitted([op]) == if op.Transmit? then op.bytes else []
  {
    assert [op][1..] == [];
  }

  /** One pass of the write loop programs its chunk, sends its bytes and lets the program settle. */
  lemma ChunkProgram(c: Config, chunk: Chunk, bytes: seq<Byte>)
    requires |bytes| == chunk.size
    ensures ProgramCommands(ChunkScript(c, chunk, bytes)) == [chunk]
    ensures Transmitted(ChunkScript(c, chunk, bytes)) == bytes
    ensures ProgramsSettle(ChunkScript(c, chunk, bytes), c)
  {
    var enable, poll := WRITE_ENABLE, Poll(WREN_BIT, WREN_BIT, DefaultTimeout);
    var program, send := Cmd(ProgramCommand(chunk), DefaultTimeout), Transmit(bytes, DefaultTimeout);
    var ready := Poll(c.wip, 0, DefaultTimeout);
    SingleIssues(enable);
    SingleIssues(poll);
    SingleIssues(program);
    SingleIssues(send);
    SingleIssues(ready);
    ChunkCommands(enable, poll, program, send, ready);
    ChunkTransmits(enable, poll, program, send, ready);
    ChunkSettles(c, chunk, bytes);
  }

  lemma ChunkCommands(a: BusOp, b: BusOp, c: BusOp, d: BusOp, e: BusOp)
    ensures ProgramCommands([a] + [b] + [c] + [d] + [e])
            == ProgramCommands([a]) + ProgramCommands([b]) + ProgramCommands([c])
               + ProgramCommands([d]) + ProgramCommands([e])
  {
    ProgramCommandsConcat([a], [b]);
    ProgramCommandsConcat([a] + [b], [c]);
    ProgramCommandsConcat([a] + [b] + [c], [d]);
    ProgramCommandsConcat([a] + [b] + [c] + [d], [e]);
  }

  lemma ChunkTransmits(a: BusOp, b: BusOp, c: BusOp, d: BusOp, e: BusOp)
    ensures Transmitted([a] + [b] + [c] + [d] + [e])
            == Transmitted([a]) + Transmitted([b]) + Transmitted([c]) + Transmitted([d]) + Transmitted([e])
  {
    TransmittedConcat([a], [b]);
    TransmittedConcat([a] + [b], [c]);
    TransmittedConcat([a] + [b] + [c], [d]);
    TransmittedConcat([a] + [b] + [c] + [d], [e]);
  }

  lemma ChunkSettles(c: Config, chunk: Chunk, bytes: seq<Byte>)
    requires |bytes| == chunk.size
    ensures ProgramsSettle(ChunkScript(c, chunk, bytes), c)
  {
    var t := ChunkScript(c, chunk, bytes);
    forall i | 0 <= i < |t| && IsProgram(t[i])
      ensures i + 2 < |t|
      ensures t[i + 1].Transmit? && |t[i + 1].bytes| == t[i].cmd.data.count
      ensures t[i + 2] == Poll(c.wip, 0, DefaultTimeout)
    {
      assert i == 2;
    }
  }

  /** Taking n bytes and then m more is taking n + m. */
  lemma TakeTwice(data: seq<Byte>, n: nat, m: nat)
    requires n + m <= |data|
    ensures data[..n] + data[n..][..m] == data[..n + m]
  {
  }

  /**
   * The program passes for `chunks` issue exactly those chunks, transmit the
   * first SumSizes(chunks) bytes of `data` in order, and let every program
   * settle.
   */
  lemma {:induction false} ProgramScriptIssues(c: Config, chunks: seq<Chunk>, data: seq<Byte>)
    requires SumSizes(chunks) <= |data|
    ensures ProgramCommands(ProgramScript(c, chunks, data)) == chunks
    ensures Transmitted(ProgramScript(c, chunks, data)) == data[..SumSizes(chunks)]
    ensures ProgramsSettle(ProgramScript(c, chunks, data), c)
  {
    if chunks != [] {
      var n := chunks[0].size;
      var head := ChunkScript(c, chunks[0], data[..n]);
      var tail := ProgramScript(c, chunks[1..], data[n..]);
      ChunkProgram(c, chunks[0], data[..n]);
      ProgramScriptIssues(c, chunks[1..], data[n..]);
      ProgramCommandsConcat(head, tail);
      TransmittedConcat(head, tail);
      ProgramsSettleConcat(head, tail, c);
      assert chunks == [chunks[0]] + chunks[1..];
      TakeTwice(data, n, SumSizes(chunks[1..]));
    }
  }

  /**
   * BSP_QSPI_Write issues exactly the write plan (so no page program crosses
   * a page boundary, and the programs cover [writeAddr, writeAddr + size)
   * contiguously), sends pData[0 .. size) once each and in order, gives every
   * program exactly its NbData bytes, and polls for WIP clear after each.
   */
  lemma WriteScriptIssuesPlan(c: Config, writeAddr: nat, size: nat, data: seq<Byte>)
    requires c.pageSize > 0 && size <= |data|
    ensures var s := WriteScript(c, writeAddr, size, data);
      && ProgramCommands(s) == Plan(writeAddr, size, c.pageSize)
      && (forall ch | ch in ProgramCommands(s) :: WithinPage(ch, c.pageSize))
      && Transmitted(s) == data[..size]
      && ProgramsSettle(s, c)
  {
    PlanCovers(writeAddr, size, c.pageSize);
    PlanWithinPages(writeAddr, size, c.pageSize);
    ProgramScriptIssues(c, Plan(writeAddr, size, c.pageSize), data);
  }

  /**
   * Sector and block erase wait for WIP clear with the erase timeout; chip
   * erase returns right after the BULK_ERASE instruction, with no poll.
   */
  lemma EraseWaits(c: Config, op: Opcode, addr: nat)
    ensures var s := EraseScript(c, op, addr);
      s[|s| - 1] == Poll(c.wip, 0, SectorEraseMaxTime)
      && s[|s| - 2] == Cmd(Addressed(op, addr, NoData), DefaultTimeout)
    ensures var s := ChipEraseScript();
      s[|s| - 1] == Cmd(Instruction(BulkErase, OneLine), DefaultTimeout)
      && forall i | 0 <= i < |s| :: !s[i].Poll? || s[i] == Poll(WREN_BIT, WREN_BIT, DefaultTimeout)
  {
  }
}
