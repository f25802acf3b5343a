/**
 * The MX25L512 header constants the driver depends on, held as parameters
 * (the header itself is not part of this model), and the device geometry
 * that BSP_QSPI_GetInfo derives from them.
 */
module FlashConfig {
  import opened Registers

  /** One more than the largest value of a C `uint32_t`. */
  const U32_LIMIT: nat := 0x1_0000_0000

  datatype Config = Config(
    flashSize: nat,               // MX25L512_FLASH_SIZE
    subsectorSize: nat,           // MX25L512_SUBSECTOR_SIZE
    pageSize: nat,                // MX25L512_PAGE_SIZE
    wip: Byte,                    // MX25L512_SR_WIP
    wren: Byte,                   // MX25L512_SR_WREN
    quaden: Byte,                 // MX25L512_SR_QUADEN
    nbDummy: Byte,                // MX25L512_CR_NB_DUMMY, the dummy-cycle field of CR
    dummyCyclesReadQuad: Byte,    // MX25L512_DUMMY_CYCLES_READ_QUAD
    dummyCyclesReadQuadIo: nat,   // MX25L512_DUMMY_CYCLES_READ_QUAD_IO
    statusTimeout: nat)           // FLASH_STATUSE_TIMEOUT
  {
    /**
     * What the driver assumes of its header constants: a page, single-bit
     * SR flags, and a dummy-cycle count that fits the NB_DUMMY field of CR
     * once shifted to the field's position.
     */
    predicate Valid()
    {
      && 0 < pageSize < U32_LIMIT
      && 0 < subsectorSize
      && statusTimeout < U32_LIMIT
      && SingleBit(wip) && SingleBit(wren) && SingleBit(quaden)
      && quaden != wip
      && nbDummy != 0
      && (dummyCyclesReadQuad << LowestSetBit(nbDummy)) & !nbDummy == 0
    }
  }

  /** The header constants of a real part; Valid() is all the driver relies on. */
  type ValidConfig = c: Config | c.Valid()
    witness Config(0x400_0000, 0x1000, 0x100, 0x01, 0x02, 0x40, 0xC0, 0x03, 10, 5000)

  /** QSPI_Info as BSP_QSPI_GetInfo fills it in. */
  datatype Info = Info(
    flashSize: nat,
    eraseSectorSize: nat,
    eraseSectorsNumber: nat,
    progPageSize: nat,
    progPagesNumber: nat)

  /**
   * BSP_QSPI_GetInfo: the sizes are copied, the counts are how many whole
   * erase sectors and whole program pages fit in the flash (unsigned
   * division rounds down).
   */
  function GetInfo(c: Config): (info: Info)
    requires c.Valid()
    ensures info.flashSize == c.flashSize
    ensures info.eraseSectorSize == c.subsectorSize && info.progPageSize == c.pageSize
    ensures info.eraseSectorsNumber * c.subsectorSize <= c.flashSize
            < info.eraseSectorsNumber * c.subsectorSize + c.subsectorSize
    ensures info.progPagesNumber * c.pageSize <= c.flashSize
            < info.progPagesNumber * c.pageSize + c.pageSize
  {
    Info(c.flashSize, c.subsectorSize, WholeUnits(c.flashSize, c.subsectorSize),
         c.pageSize, WholeUnits(c.flashSize, c.pageSize))
  }

  /** `n / d` in unsigned arithmetic: the number of whole units of size `d` in `n`. */
  function WholeUnits(n: nat, d: nat): (q: nat)
    requires d > 0
    ensures q * d <= n < q * d + d
  {
    DivBounds(n, d);
    n / d
  }

  lemma DivBounds(n: nat, d: nat)
    requires d > 0
    ensures (n / d) * d <= n < (n / d) * d + d
  {
    assert n == (n / d) * d + n % d;
  }

  /**
   * When the sector and page sizes divide the flash size (as they do for
   * the MX25L512), the geometry is exact:
   * flashSize = sectorSize * sectorCount = pageSize * pageCount.
   */
  lemma GeometryExact(c: Config)
    requires c.Valid()
    requires c.flashSize % c.subsectorSize == 0 && c.flashSize % c.pageSize == 0
    ensures var info := GetInfo(c);
      && info.flashSize == info.eraseSectorSize * info.eraseSectorsNumber
      && info.flashSize == info.progPageSize * info.progPagesNumber
  {
    var info := GetInfo(c);
    assert info.eraseSectorsNumber == c.flashSize / c.subsectorSize;
    assert info.progPagesNumber == c.flashSize / c.pageSize;
    assert c.flashSize == c.subsectorSize * (c.flashSize / c.subsectorSize) + c.flashSize % c.subsectorSize;
    assert c.flashSize == c.pageSize * (c.flashSize / c.pageSize) + c.flashSize % c.pageSize;
  }
}
