# MX25L512 QSPI flash driver, modelled in Dafny

This project models the board-support driver for the Macronix MX25L512
serial NOR flash on an STM32 QSPI peripheral
(`QUARD_SPI/Drivers/BSP/Refrance_drv/MX25L_QSPI_Flash.c`) and proves
properties of the model.

The driver is a sequence of HAL calls with some arithmetic and bit logic
around them. The model follows that split:

- `registers.dfy` (module `Registers`) holds the bit logic on the status
  register (SR) and the configuration register (CR):
  - the masked auto-poll match `(reg & mask) == (match & mask)`;
  - the `reg |= QUADEN` read-modify-write;
  - `MODIFY_REG` of the dummy-cycle field and `POSITION_VAL`;
  - the WIP test.
- `config.dfy` (module `FlashConfig`) holds the header constants as a
  `Config` value, with the assumptions the driver relies on, and the
  geometry `BSP_QSPI_GetInfo` derives from them.
- `paging.dfy` (module `Paging`) holds the address arithmetic of
  `BSP_QSPI_Write`: the sequence of `(Address, NbData)` chunks its do-while
  loop issues. It proves that the chunks stay inside one page each, are
  contiguous, and cover the write exactly.
- `protocol.dfy` (module `Protocol`) holds the bus operations, the events
  they leave in a trace, and one *script* per driver function: the calls
  that function makes when every call succeeds. A run *follows* a script
  when it matches the script call by call and stops right after its first
  failure. A run *completes* the script when it covers the whole script
  with no failure. A call succeeds only as the HAL promises: an auto-poll
  that returns HAL_OK has read a status byte that matched its mask and
  target.
- `transport.dfy` (module `Transport`) holds the HAL as a class `Bus`. Its
  answers come from a finite list of replies. It keeps a ghost trace of every
  call. `HAL_GetTick` reads from a list of clock readings.
- `script_properties.dfy` (module `ScriptProperties`) proves what the
  scripts guarantee:
  - every program, erase, register write and 4-byte-address entry comes
    right after a write-enable and a poll that confirmed it;
  - `BSP_QSPI_Write` issues exactly the chunk plan and sends the caller's
    bytes once each, in order;
  - chip erase has no ready poll.
- `driver.dfy` (module `Driver`) holds the class `Mx25l`, with one method per
  C function. Each method issues its HAL calls through the `Bus` and returns
  the C status code. Each method proves three things:
  - its run is exactly what the bus recorded;
  - the run follows the function's script;
  - which status each way of stopping yields.

  `BSP_QSPI_Write` and `waitForFlashbusy` keep their loops.

## Model

| member | source | states |
|---|---|---|
| Registers.SetBits | QUARD_SPI/Drivers/BSP/Refrance_drv/MX25L_QSPI_Flash.c:681 | `reg \| QUADEN` has every QUADEN bit set and every other bit as read |
| Registers.ModifyReg | QUARD_SPI/Drivers/BSP/Refrance_drv/MX25L_QSPI_Flash.c:815-816 | when the set mask lies inside the cleared field, the field takes the set mask and every bit outside the field is preserved |
| Registers.ModifyRegAnyMasks | QUARD_SPI/Drivers/BSP/Refrance_drv/MX25L_QSPI_Flash.c:815-816 | for any masks, MODIFY_REG sets every bit of the set mask and keeps every bit outside both masks |
| Registers.LowestSetBit | QUARD_SPI/Drivers/BSP/Refrance_drv/MX25L_QSPI_Flash.c:816 | POSITION_VAL of a non-zero mask is a bit index below 8 whose bit is in the mask, with no lower bit in the mask |
| Registers.SetField | QUARD_SPI/Drivers/BSP/Refrance_drv/MX25L_QSPI_Flash.c:815-816 | when the shifted dummy-cycle value fits the NB_DUMMY field, CR's field holds that value and every other CR bit keeps its value |
| Registers.QuadPollCondition | QUARD_SPI/Drivers/BSP/Refrance_drv/MX25L_QSPI_Flash.c:864-865 | for single-bit, distinct QUADEN and WIP, the QPI poll matches iff QUADEN is set and WIP is clear, so QUADEN=1 with WIP=1 never matches |
| Registers.BitSetPollCondition | QUARD_SPI/Drivers/BSP/Refrance_drv/MX25L_QSPI_Flash.c:1033-1034 | a poll whose match equals its single-bit mask (0x02, or SR_WREN at lines 653-654) matches iff that bit is set |
| Registers.ReadyPollCondition | QUARD_SPI/Drivers/BSP/Refrance_drv/MX25L_QSPI_Flash.c:1073-1074 | the ready poll (mask WIP, match 0) matches iff WIP is clear |
| FlashConfig.GetInfo | QUARD_SPI/Drivers/BSP/Refrance_drv/MX25L_QSPI_Flash.c:417-426 | the sizes are copied; the sector and page counts are the largest counts whose total does not exceed the flash size (floor division) |
| FlashConfig.WholeUnits | QUARD_SPI/Drivers/BSP/Refrance_drv/MX25L_QSPI_Flash.c:421-423 | unsigned division: `q*d <= n < q*d + d` |
| FlashConfig.GeometryExact | QUARD_SPI/Drivers/BSP/Refrance_drv/MX25L_QSPI_Flash.c:417-426 | when sector and page sizes divide the flash size, size = sector size × sector count = page size × page count |
| Paging.FirstChunkSize | QUARD_SPI/Drivers/BSP/Refrance_drv/MX25L_QSPI_Flash.c:191-196 | the first chunk is at most Size, stays inside the page of WriteAddr, and is either all of Size or exactly the rest of that page |
| Paging.NextChunkSize | QUARD_SPI/Drivers/BSP/Refrance_drv/MX25L_QSPI_Flash.c:244-246 | a later chunk is at most a page, does not pass end_addr, and is a whole page or exactly what is left |
| Paging.NextChunkSizeAsWritten | QUARD_SPI/Drivers/BSP/Refrance_drv/MX25L_QSPI_Flash.c:244-246 | the 32-bit comparison as written agrees with NextChunkSize whenever `current_addr + PAGE_SIZE` fits in 32 bits |
| Paging.AsWrittenOverrunsEnd | QUARD_SPI/Drivers/BSP/Refrance_drv/MX25L_QSPI_Flash.c:244-247 | with the 32-bit sum, the write of 0x170 bytes at 0xFFFF_FE80 (256-byte pages) gets a full-page second chunk that passes end_addr, and `current_addr` wraps to 0, below end_addr |
| Paging.ChunksFromStep | QUARD_SPI/Drivers/BSP/Refrance_drv/MX25L_QSPI_Flash.c:215-247 | one do-while turn: the current chunk, then the chunks from the next address when it is below end_addr, else none |
| Paging.PlanStep | QUARD_SPI/Drivers/BSP/Refrance_drv/MX25L_QSPI_Flash.c:242-247 | after issuing the current chunk, the remaining plan is the chunks from the next address, or nothing once end_addr is reached |
| Paging.PlanAdvance | QUARD_SPI/Drivers/BSP/Refrance_drv/MX25L_QSPI_Flash.c:242-247 | the loop's update of current_addr and current_size keeps "plan = chunks done ++ chunks from current" |
| Paging.PlanCovers | QUARD_SPI/Drivers/BSP/Refrance_drv/MX25L_QSPI_Flash.c:191-247 | the plan is non-empty, starts with the first chunk at WriteAddr, is contiguous, ends at WriteAddr + Size and its sizes sum to Size |
| Paging.PlanSum | QUARD_SPI/Drivers/BSP/Refrance_drv/MX25L_QSPI_Flash.c:199-200 | the chunk sizes of the plan sum to Size |
| Paging.PlanSizes | QUARD_SPI/Drivers/BSP/Refrance_drv/MX25L_QSPI_Flash.c:244-246 | every chunk after the first is non-empty and is a whole page or the remainder before end_addr |
| Paging.PlanWithinPages | QUARD_SPI/Drivers/BSP/Refrance_drv/MX25L_QSPI_Flash.c:191-246 | no chunk of the plan crosses a page boundary |
| Paging.FirstChunkAligned | QUARD_SPI/Drivers/BSP/Refrance_drv/MX25L_QSPI_Flash.c:191-196 | a first chunk shorter than Size ends on a page boundary |
| Paging.EmptyWritePlan | QUARD_SPI/Drivers/BSP/Refrance_drv/MX25L_QSPI_Flash.c:215-247 | a write of Size 0 still issues exactly one program, with NbData 0 (do-while) |
| Paging.OffsetsFollowAddresses | QUARD_SPI/Drivers/BSP/Refrance_drv/MX25L_QSPI_Flash.c:242-243 | pData advances with the address: the bytes before chunk k number `Address_k - WriteAddr` |
| Paging.SumSizesAppend | QUARD_SPI/Drivers/BSP/Refrance_drv/MX25L_QSPI_Flash.c:242-243 | the bytes of two chunk lists add up |
| Protocol.RegisterStatus | QUARD_SPI/Drivers/BSP/Refrance_drv/MX25L_QSPI_Flash.c:405-409 | QSPI_OK iff WIP is clear in the byte read, QSPI_BUSY iff it is set |
| Protocol.SetupStartsWithReset | QUARD_SPI/Drivers/BSP/Refrance_drv/MX25L_QSPI_Flash.c:55-57 | the memory half of init opens with RESET_ENABLE on four lines, so a run past the HAL calls has issued it |
| Protocol.ProgramScriptAppend | QUARD_SPI/Drivers/BSP/Refrance_drv/MX25L_QSPI_Flash.c:215-247 | the passes for `a ++ b` are the passes for `a`, then those for `b` with pData moved past `a`'s bytes |
| Protocol.ProgramStep | QUARD_SPI/Drivers/BSP/Refrance_drv/MX25L_QSPI_Flash.c:215-247 | appending one pass to a completed run follows the longer pass list, and completes it iff the pass completed |
| Protocol.ProgramAbort | QUARD_SPI/Drivers/BSP/Refrance_drv/MX25L_QSPI_Flash.c:219-240 | a run that failed during the first passes has failed every longer pass list |
| Protocol.WriteTurn | QUARD_SPI/Drivers/BSP/Refrance_drv/MX25L_QSPI_Flash.c:215-247 | one loop turn moves the current chunk to the chunks done; a failed pass has failed the whole write |
| Protocol.TurnAbort | QUARD_SPI/Drivers/BSP/Refrance_drv/MX25L_QSPI_Flash.c:219-247 | a loop turn whose pass failed leaves a run that follows the write's script and has not completed it, whether or not more chunks were due |
| Protocol.PollsMatched | QUARD_SPI/Drivers/BSP/Refrance_drv/MX25L_QSPI_Flash.c:1033-1034 | in every run that follows a script, each auto-poll that did not fail received a status byte matching its mask and target (the polls at lines 653-654, 864-865 and 1073-1074 included) |
| Protocol.WriteAbort | QUARD_SPI/Drivers/BSP/Refrance_drv/MX25L_QSPI_Flash.c:219-240 | a run that failed during a prefix of the plan follows the write's script and has not completed it |
| ScriptProperties.ResetWriteEnabled | QUARD_SPI/Drivers/BSP/Refrance_drv/MX25L_QSPI_Flash.c:609-698 | the SR write of QSPI_ResetMemory comes right after WRITE_ENABLE and a WREN poll |
| ScriptProperties.FourByteWriteEnabled | QUARD_SPI/Drivers/BSP/Refrance_drv/MX25L_QSPI_Flash.c:706-738 | ENTER_4_BYTE_ADDR comes right after a confirmed write-enable |
| ScriptProperties.DummyWriteEnabled | QUARD_SPI/Drivers/BSP/Refrance_drv/MX25L_QSPI_Flash.c:745-834 | the SR/CR write of QSPI_DummyCyclesCfg comes right after a confirmed write-enable |
| ScriptProperties.ModeWriteEnabled | QUARD_SPI/Drivers/BSP/Refrance_drv/MX25L_QSPI_Flash.c:60-73 | QPI entry, 4-byte addressing and dummy-cycle configuration together are write-enabled |
| ScriptProperties.InitWriteEnabled | QUARD_SPI/Drivers/BSP/Refrance_drv/MX25L_QSPI_Flash.c:31-76 | every mutating instruction of BSP_QSPI_Init comes right after a confirmed write-enable |
| ScriptProperties.ChunkWriteEnabled | QUARD_SPI/Drivers/BSP/Refrance_drv/MX25L_QSPI_Flash.c:219-229 | each page program comes right after a confirmed write-enable |
| ScriptProperties.ProgramWriteEnabled | QUARD_SPI/Drivers/BSP/Refrance_drv/MX25L_QSPI_Flash.c:215-247 | a list of program passes is write-enabled |
| ScriptProperties.WriteWriteEnabled | QUARD_SPI/Drivers/BSP/Refrance_drv/MX25L_QSPI_Flash.c:186-250 | every page program of BSP_QSPI_Write is write-enabled |
| ScriptProperties.EraseWriteEnabled | QUARD_SPI/Drivers/BSP/Refrance_drv/MX25L_QSPI_Flash.c:257-370 | sector, block and chip erase are write-enabled |
| ScriptProperties.ChunkProgram | QUARD_SPI/Drivers/BSP/Refrance_drv/MX25L_QSPI_Flash.c:215-240 | one pass issues exactly its chunk, transmits exactly its bytes, and follows the program with its NbData bytes and a WIP-clear poll |
| ScriptProperties.ProgramScriptIssues | QUARD_SPI/Drivers/BSP/Refrance_drv/MX25L_QSPI_Flash.c:215-247 | program passes issue exactly their chunks and transmit the first SumSizes bytes of pData in order, each program settling |
| ScriptProperties.WriteScriptIssuesPlan | QUARD_SPI/Drivers/BSP/Refrance_drv/MX25L_QSPI_Flash.c:186-250 | BSP_QSPI_Write issues exactly the plan, every program inside one page, sends pData[0..Size) once each in order, and polls WIP clear after each |
| ScriptProperties.EraseWaits | QUARD_SPI/Drivers/BSP/Refrance_drv/MX25L_QSPI_Flash.c:273-288 | sector/block erase end with the erase instruction then a WIP-clear poll; chip erase ends with BULK_ERASE and polls nothing but WREN (lines 353-369) |
| Driver.Elapsed | QUARD_SPI/Drivers/BSP/Refrance_drv/MX25L_QSPI_Flash.c:1097 | `HAL_GetTick() - Tickstart` in uint32: the difference, or the wrapped difference when the tick counter overflowed |
| Driver.PollRecorded | QUARD_SPI/Drivers/BSP/Refrance_drv/MX25L_QSPI_Flash.c:1093 | a further status read extends the loop's record of reads and busy statuses |
| Driver.StoppedClock | QUARD_SPI/Drivers/BSP/Refrance_drv/MX25L_QSPI_Flash.c:1092-1101 | on a clock whose readings are all the same, every status read is measured at 0 ticks, so a non-zero FLASH_STATUSE_TIMEOUT never expires |
| Transport.NextReading | QUARD_SPI/Drivers/BSP/Refrance_drv/MX25L_QSPI_Flash.c:1096 | after k > 0 calls the bus stands at the readings after the first k and at reading k - 1; the next HAL_GetTick answers reading k (the k-th clock entry modulo 2^32, or the last reading again once the list is used up) and leaves the readings after it |
| Driver.Mx25l.WriteEnable | QUARD_SPI/Drivers/BSP/Refrance_drv/MX25L_QSPI_Flash.c:1011-1049 | issues WRITE_ENABLE then a 0x02/0x02 poll, stopping at the first failure; QSPI_OK iff both completed, else QSPI_ERROR; on QSPI_OK the polled status byte has WREN (0x02) set |
| Driver.Mx25l.AutoPollingMemReady | QUARD_SPI/Drivers/BSP/Refrance_drv/MX25L_QSPI_Flash.c:1057-1085 | one poll for WIP clear with the caller's timeout; QSPI_OK iff the poll succeeded, and then the status byte it read has WIP clear |
| Driver.Mx25l.ResetMemory | QUARD_SPI/Drivers/BSP/Refrance_drv/MX25L_QSPI_Flash.c:545-699 | the 4-line reset pair, the 1-line pair, 1000 ms, a WIP poll, the SR read, write-enable with a WREN poll, the write of `SR \| QUADEN` (the byte read, as the ghost `read`), 40 ms; stops at the first failure; QSPI_OK iff all completed |
| Driver.Mx25l.EnterMemoryQpi | QUARD_SPI/Drivers/BSP/Refrance_drv/MX25L_QSPI_Flash.c:841-881 | ENTER_QUAD on four lines then the QUADEN\|WIP / QUADEN poll; QSPI_OK iff both completed, and then the status byte read matched, which for single-bit distinct QUADEN and WIP means QUADEN set and WIP clear (so QUADEN=1 with WIP=1 never gives QSPI_OK) |
| Driver.Mx25l.ExitMemoryQpi | QUARD_SPI/Drivers/BSP/Refrance_drv/MX25L_QSPI_Flash.c:888-910 | a single EXIT_QUAD instruction, no poll; QSPI_OK iff it succeeded |
| Driver.Mx25l.EnterFourBytesAddress | QUARD_SPI/Drivers/BSP/Refrance_drv/MX25L_QSPI_Flash.c:706-738 | write-enable, ENTER_4_BYTE_ADDR, ready poll, stopping at the first failure; QSPI_OK iff all completed |
| Driver.Mx25l.DummyCyclesCfg | QUARD_SPI/Drivers/BSP/Refrance_drv/MX25L_QSPI_Flash.c:745-834 | reads SR and CR (the ghost `sr`, `cr` are the bytes received, events 1 and 3 of the run), write-enables, writes two bytes: SR as read and `DummyConfig(cr)`, the MODIFY_REG of CR; QSPI_OK iff all completed |
| Protocol.DummyConfigField | QUARD_SPI/Drivers/BSP/Refrance_drv/MX25L_QSPI_Flash.c:815-816 | for header constants satisfying `Config.Valid()`, the CR byte written back holds `DUMMY_CYCLES_READ_QUAD << POSITION_VAL(NB_DUMMY)` in the NB_DUMMY field and every other bit as read |
| Driver.Mx25l.SetModes | QUARD_SPI/Drivers/BSP/Refrance_drv/MX25L_QSPI_Flash.c:60-73 | QPI entry, 4-byte addressing, dummy cycles in order, stopping at the first failure; `sr` and `cr` are the bytes received at events 7 and 9 of the run |
| Driver.Mx25l.Setup | QUARD_SPI/Drivers/BSP/Refrance_drv/MX25L_QSPI_Flash.c:55-73 | reset, then the mode settings only if the reset returned QSPI_OK; `reg` is the byte received at event 7, `sr` and `cr` those at events 20 and 22 |
| Driver.Mx25l.Init | QUARD_SPI/Drivers/BSP/Refrance_drv/MX25L_QSPI_Flash.c:31-76 | HAL DeInit, HAL Init, reset, QPI, 4-byte address, dummy cycles in order, stopping at the first failure; QSPI_OK iff all completed, QSPI_ERROR iff it stopped within the two HAL calls, QSPI_NOT_SUPPORTED iff it stopped later; the register bytes of the script are those received at events 9, 22 and 24 |
| Protocol.InitRun | QUARD_SPI/Drivers/BSP/Refrance_drv/MX25L_QSPI_Flash.c:31-76 | the HAL calls then, only when both succeeded, the memory setup make a run of BSP_QSPI_Init, which has gone past the HAL calls iff both succeeded |
| Protocol.InitBytes | QUARD_SPI/Drivers/BSP/Refrance_drv/MX25L_QSPI_Flash.c:31-57 | a byte the memory setup received at index k is the byte at index k + 2 of the run of BSP_QSPI_Init |
| Protocol.SetupBytes | QUARD_SPI/Drivers/BSP/Refrance_drv/MX25L_QSPI_Flash.c:55-73 | the SR byte QSPI_ResetMemory read stays at index 7; the bytes of the mode settings move 13 places further |
| Protocol.ModeBytes | QUARD_SPI/Drivers/BSP/Refrance_drv/MX25L_QSPI_Flash.c:60-73 | the bytes QSPI_DummyCyclesCfg read move 6 places further, past QPI entry and 4-byte addressing |
| Protocol.ByteInSecond | QUARD_SPI/Drivers/BSP/Refrance_drv/MX25L_QSPI_Flash.c:55-73 | a byte the second of two chained steps received at index k is the byte at index |first script| + k of the whole run |
| Protocol.ByteInFirst | QUARD_SPI/Drivers/BSP/Refrance_drv/MX25L_QSPI_Flash.c:55-73 | a byte the first of two chained steps received at an index inside its script keeps that index in the whole run |
| Driver.Mx25l.DeInit | QUARD_SPI/Drivers/BSP/Refrance_drv/MX25L_QSPI_Flash.c:82-99 | exit QPI, HAL DeInit, pin teardown; QSPI_NOT_SUPPORTED iff the exit failed, QSPI_ERROR iff HAL DeInit failed, QSPI_OK iff all completed |
| Driver.Mx25l.ReadId | QUARD_SPI/Drivers/BSP/Refrance_drv/MX25L_QSPI_Flash.c:105-137 | READ_ID command then a 3-byte receive (5000 ms); on QSPI_OK the id is the three bytes received |
| Driver.Mx25l.Read | QUARD_SPI/Drivers/BSP/Refrance_drv/MX25L_QSPI_Flash.c:145-176 | addressed READ command then a Size-byte receive; on QSPI_OK the data are the Size bytes received |
| Driver.Mx25l.ProgramChunk | QUARD_SPI/Drivers/BSP/Refrance_drv/MX25L_QSPI_Flash.c:215-240 | one loop pass: write-enable, program command with Address and NbData, transmit, ready poll, stopping at the first failure |
| Driver.Mx25l.Write | QUARD_SPI/Drivers/BSP/Refrance_drv/MX25L_QSPI_Flash.c:186-250 | the run follows the write's script (the plan's passes in order, each with its slice of pData) up to the first failure; QSPI_OK iff the whole plan completed, else QSPI_ERROR |
| Driver.Mx25l.EraseSector | QUARD_SPI/Drivers/BSP/Refrance_drv/MX25L_QSPI_Flash.c:257-291 | write-enable, SECTOR_ERASE at the address, ready poll with the erase timeout; QSPI_OK iff all completed |
| Driver.Mx25l.EraseBlock | QUARD_SPI/Drivers/BSP/Refrance_drv/MX25L_QSPI_Flash.c:299-333 | as EraseSector with BLOCK_ERASE_64K |
| Driver.Mx25l.EraseChip | QUARD_SPI/Drivers/BSP/Refrance_drv/MX25L_QSPI_Flash.c:339-370 | write-enable then BULK_ERASE, with no ready poll; QSPI_OK iff both completed |
| Driver.Mx25l.GetStatus | QUARD_SPI/Drivers/BSP/Refrance_drv/MX25L_QSPI_Flash.c:376-410 | a one-byte SR read; QSPI_ERROR on a failed call, else the WIP test of the byte received |
| Driver.Mx25l.EnableMemoryMappedMode | QUARD_SPI/Drivers/BSP/Refrance_drv/MX25L_QSPI_Flash.c:432-458 | one memory-mapped configuration call with the quad-I/O 4-byte read; QSPI_OK iff it succeeded |
| Driver.Mx25l.Expired | QUARD_SPI/Drivers/BSP/Refrance_drv/MX25L_QSPI_Flash.c:1095-1101 | with HAL_MAX_DELAY, no tick is taken and it never expires; otherwise it takes the next clock reading and expires iff the ticks since the start reading exceed FLASH_STATUSE_TIMEOUT or the timeout is 0 |
| Driver.Mx25l.WaitForFlashBusy | QUARD_SPI/Drivers/BSP/Refrance_drv/MX25L_QSPI_Flash.c:1091-1104 | the trace is a list of status reads, each read's status its GetStatus result; all but the last were busy and in time, measured by `Waited` on the clock readings; QSPI_OK iff the last was not busy (QSPI_ERROR included), QSPI_BUSY iff it was busy and the reading after it was more than FLASH_STATUSE_TIMEOUT ticks past the start reading |

## Left out

- The HAL itself (`HAL_QSPI_Init`, `DeInit`, `Command`, `Transmit`, `Receive`, `AutoPolling`, `MemoryMapped`) is a library outside this file. `Transport.Bus` stands in for it and takes its answers from a list of replies. An auto-poll succeeds only with a status byte that matches. Once the reply list runs out, every further call fails, except the delays and the pin teardown.
- The `QSPIHandle.Init` field values and the `POSITION_VAL` flash-size encoding (lines 42-49) configure the peripheral and have no behaviour to state. HAL Init is one bus operation.
- `BSP_QSPI_MspInit` (lines 467-509) and `QSPI_OutDrvStrengthCfg` (lines 912-1004) are commented out.
- `BSP_QSPI_MspDeInit` (lines 518-538) only touches GPIO, NVIC and the reset and clock macros. It is one `PinTeardown` event that cannot fail.
- The `printf` calls of `BSP_QSPI_ReadID` have no effect on its results.
- `HAL_Delay` is a `Delay` event in the trace. Real time passes only through `HAL_GetTick`, which reads the next value from a list of clock readings.
- The opcode values, the SR/CR masks and the timeouts live in a header that is not part of this model. Opcodes are an enumeration and timeouts are symbolic. The masks and sizes are fields of `FlashConfig.Config`. Each method requires only the fields' facts that its proof needs.
- The address field of read, program and erase commands is recorded as `QSPI_ADDRESS_24_BITS` with the full address, as the code sets it. The model does not truncate it to 24 bits and does not claim it agrees with the 4-byte mode that init enters.
- Driver.Mx25l.Write: requires `WriteAddr + Size < 2^32` (end_addr fits in 32 bits). It also requires `Size` not to exceed the caller's buffer. With end_addr in range the only wrap-around left is the one under Findings, which the model corrects.
- Memory-mapped mode is one configuration call. The hardware-paced reads that follow it are not modelled.
- A simulated chip (memory contents and status byte) is not modelled. Program and erase effects on the array are therefore not stated. Polls take their status bytes from the replies.
- An early `return` at the first failure is modelled as later steps that are skipped while `ok` is false. These steps issue the same calls and return the same status.
- Driver.Mx25l.ResetMemory, Driver.Mx25l.DummyCyclesCfg, Driver.Mx25l.SetModes, Driver.Mx25l.Setup, Driver.Mx25l.Init: the register bytes they read are ghost outputs (`read` or `reg`, `sr`, `cr`), and the scripts are stated in terms of them. Each contract ties each byte to the one received at its position in the run, whenever the run reaches that position.
- Driver.Mx25l.WaitForFlashBusy: the contract does not state how many clock readings the whole loop consumed; Expired states that each deadline test takes exactly one.
- Driver.Mx25l.WaitForFlashBusy: termination comes from the finite reply list. Each busy status consumes a reply. A HAL that answered forever without the timeout passing would loop forever in C.

## Findings

| source | as written | input that shows it | evidently intended | confidence | as-written member | corrected member |
|---|---|---|---|---|---|---|
| QUARD_SPI/Drivers/BSP/Refrance_drv/MX25L_QSPI_Flash.c:244-246 | `(current_addr + MX25L512_PAGE_SIZE) > end_addr` is computed in uint32 and wraps near the top of the address space | PAGE_SIZE 256, WriteAddr 0xFFFF_FE80, Size 0x170: end_addr 0xFFFF_FFF0 fits, but the second chunk at 0xFFFF_FF00 gets NbData 256 (16 bytes past end_addr) and current_addr wraps to 0, so the loop continues from address 0 | the last chunk is `end_addr - current_addr`, so no program passes end_addr | not executed | Paging.NextChunkSizeAsWritten, Paging.AsWrittenOverrunsEnd | Paging.NextChunkSize, Paging.PlanSizes, Paging.PlanWithinPages, Paging.PlanCovers |
