/**
 * The memory bank: a device whose geometry and per-access cycle cost are
 * derived once, when it is built, from its port counts, line count, data
 * type and cycle constants; and the SRAM and DRAM presets.
 *
 * The header does this arithmetic in `int`, with `ceil`, `log2` and `round`
 * from the C math library. Here every step is exact integer arithmetic:
 * `ceil(log2(n))` is the least `k` with 2^k >= n, and the `round` and `ceil`
 * calls, which are applied to quotients already truncated by `int / int`,
 * leave them unchanged.
 */
module Memories {
  import opened MachineInts
  import opened Units
  import opened Devices

  datatype MemOp = Read | Write

  /** Bits per datum for a type tag: an exact match on the four known tags, 1 for any other. */
  function DataSize(dtype: string): (bits: nat)
    ensures bits == 32 <==> dtype == "f32" || dtype == "f16"
    ensures bits == 8 <==> dtype == "f8"
    ensures bits == 4 <==> dtype == "f4"
    ensures bits == 1 <==> dtype !in {"f32", "f16", "f8", "f4"}
  {
    if dtype == "f32" then 32
    else if dtype == "f16" then 32
    else if dtype == "f8" then 8
    else if dtype == "f4" then 4
    else 1
  }

  function Pow2(k: nat): (p: nat)
    ensures p >= 1
  {
    if k == 0 then 1 else 2 * Pow2(k - 1)
  }

  /** `ceil(log2(n))`: the least `k` with 2^k >= n. */
  function CeilLog2(n: nat): (k: nat)
    requires n >= 1
    ensures Pow2(k) >= n
    ensures k > 0 ==> Pow2(k - 1) < n
  {
    if n == 1 then 0 else 1 + CeilLog2((n + 1) / 2)
  }

  lemma {:induction false} Pow2Monotone(i: nat, j: nat)
    requires i <= j
    ensures Pow2(i) <= Pow2(j)
  {
    if i < j {
      Pow2Monotone(i, j - 1);
    }
  }

  /** No smaller exponent than `CeilLog2(n)` reaches `n`. */
  lemma {:induction false} CeilLog2IsLeast(n: nat, j: nat)
    requires n >= 1 && Pow2(j) >= n
    ensures CeilLog2(n) <= j
  {
    var k := CeilLog2(n);
    if k > j {
      Pow2Monotone(j, k - 1);
    }
  }

  /** At a power of two, `ceil(log2(n))` is exactly the exponent. */
  lemma {:induction false} CeilLog2OfPow2(k: nat)
    ensures CeilLog2(Pow2(k)) == k
  {
    var c := CeilLog2(Pow2(k));
    CeilLog2IsLeast(Pow2(k), k);
    if c < k {
      Pow2Monotone(c, k - 1);
    }
  }

  /** `address_size`: enough bits to number `dlines` lines, and 1 for zero lines. */
  function AddressSize(dlines: nat): (bits: nat)
    ensures dlines == 0 ==> bits == 1
    ensures dlines >= 1 ==> Pow2(bits) >= dlines && (bits == 0 || Pow2(bits - 1) < dlines)
  {
    if dlines == 0 then 1 else CeilLog2(dlines)
  }

  /** The width of one line: a valid bit, the address bits and the data bits. */
  function LineWidth(dlines: nat, dtype: string): (w: nat)
    ensures w >= DataSize(dtype) + 1
    ensures dlines >= 1 ==> Pow2(w - DataSize(dtype) - 1) >= dlines
    ensures dlines == 0 ==> w == DataSize(dtype) + 2
  {
    1 + AddressSize(dlines) + DataSize(dtype)
  }

  /** The fields a memory bank computes when it is built. */
  datatype MemoryTiming = MemoryTiming(
    readPorts: Int32,
    writePorts: Int32,
    dataLines: Int32,
    dataSize: Int32,
    totalSize: Int32,
    totalVolume: Int32,
    defaultVolume: Int32,
    cyclesPerData: Int32,
    minCycles: Int32,
    cycles: Int32)

  /**
   * The construction arithmetic is defined: a non-zero default volume to
   * divide by, a line count whose `log2` converts back to `int` (not
   * negative), and no `int` overflow in the total volume or in the scaled
   * cycle count.
   */
  predicate ConfigDefined(deVol: Int32, dlines: Int32, dtype: string, cycPerData: Int32) {
    deVol != 0 && dlines >= 0 &&
    IsInt32(LineWidth(dlines, dtype) * dlines) &&
    IsInt32(cycPerData * TruncDiv(LineWidth(dlines, dtype) * dlines, deVol))
  }

  /** When the total volume fits in an `int`, so does the line width. */
  lemma LineWidthFits(dlines: Int32, dtype: string, cycPerData: Int32, deVol: Int32)
    requires ConfigDefined(deVol, dlines, dtype, cycPerData)
    ensures IsInt32(LineWidth(dlines, dtype))
  {
    var w := LineWidth(dlines, dtype);
    if dlines >= 1 {
      MulSign(w, dlines - 1);
      assert w * dlines == w + w * (dlines - 1);
    }
  }

  /**
   * The fields of a memory bank built from ports `rp`/`wp`, default volume
   * `deVol`, `dlines` lines of type `dtype`, `cycPerData` cycles per default
   * volume and a floor of `minCyc` cycles.
   */
  function Configure(rp: Int32, wp: Int32, deVol: Int32, dlines: Int32, dtype: string,
                     cycPerData: Int32, minCyc: Int32): (m: MemoryTiming)
    requires ConfigDefined(deVol, dlines, dtype, cycPerData)
    ensures m.readPorts == rp && m.writePorts == wp && m.dataLines == dlines && m.defaultVolume == deVol
    ensures m.cyclesPerData == cycPerData && m.minCycles == minCyc
    ensures m.dataSize == DataSize(dtype)
    ensures m.totalSize == 1 + AddressSize(dlines) + m.dataSize == LineWidth(dlines, dtype)
    ensures m.totalVolume == m.totalSize * dlines
    ensures m.cycles >= minCyc && m.cycles >= cycPerData * TruncDiv(m.totalVolume, deVol)
    ensures m.cycles == minCyc || m.cycles == cycPerData * TruncDiv(m.totalVolume, deVol)
  {
    var totalSize := LineWidth(dlines, dtype);
    LineWidthFits(dlines, dtype, cycPerData, deVol);
    var totalVolume := totalSize * dlines;
    var scaled := cycPerData * TruncDiv(totalVolume, deVol);
    MemoryTiming(rp, wp, dlines, DataSize(dtype), totalSize, totalVolume, deVol, cycPerData, minCyc,
                 if scaled < minCyc then minCyc else scaled)
  }

  /** The access for `op` is limited by a port count rather than `ENOUGH`. */
  predicate PortBounded(m: MemoryTiming, op: MemOp) {
    if op == Read then m.readPorts != ENOUGH else m.writePorts != ENOUGH
  }

  /**
   * `getReadOrWriteCycles` is defined: where it divides by the read-port
   * count, that count is not zero, the `int` quotient does not overflow, and
   * its product with `cycles` (computed in `double`) converts back to `int`
   * without leaving the `int` range.
   */
  predicate AccessDefined(m: MemoryTiming, dlines: Int32, op: MemOp) {
    PortBounded(m, op) ==>
      m.readPorts != 0 &&
      IsInt32(TruncDiv(dlines, m.readPorts)) &&
      IsInt32(TruncDiv(dlines, m.readPorts) * m.cycles)
  }

  /**
   * The cycles to read or write `dlines` lines: the base `cycles` when the
   * port count for `op` is `ENOUGH`; otherwise `cycles` once per group of
   * read ports, for reads and writes alike.
   */
  function ReadOrWriteCycles(m: MemoryTiming, dlines: Int32, op: MemOp): (r: Int32)
    requires AccessDefined(m, dlines, op)
    ensures !PortBounded(m, op) ==> r == m.cycles
    ensures PortBounded(m, op) && dlines >= 0 && m.readPorts > 0 ==> r == (dlines / m.readPorts) * m.cycles
  {
    if !PortBounded(m, op) then m.cycles else TruncDiv(dlines, m.readPorts) * m.cycles
  }

  // ---------------------------------------------------------------------
  // Presets
  // ---------------------------------------------------------------------

  /** SRAM's default volume, `10 KB`. */
  const SRAM_VOLUME: Int32 := KbAsInt(10)

  /** DRAM's default volume as the header writes it, `512 MB` in `int`. */
  const DRAM_VOLUME: Int32 := MbAsInt(512)

  /** The fields of an SRAM bank: unlimited ports, `10 KB`, 5 cycles per default volume, at least 2. */
  function SramTiming(dlines: Int32, dtype: string): (m: MemoryTiming)
    requires ConfigDefined(SRAM_VOLUME, dlines, dtype, 5)
    ensures m.readPorts == ENOUGH && m.writePorts == ENOUGH && m.cycles >= 2
  {
    Configure(ENOUGH, ENOUGH, SRAM_VOLUME, dlines, dtype, 5, 2)
  }

  class Memory {
    /** The timeline this bank reserves accesses on. */
    const device: Device
    /** The geometry and cycle cost fixed at construction. */
    const timing: MemoryTiming

    constructor (id: U64, rp: Int32, wp: Int32, deVol: Int32, dlines: Int32, dtype: string,
                 cycPerData: Int32, minCyc: Int32)
      requires ConfigDefined(deVol, dlines, dtype, cycPerData)
      ensures fresh(device) && device.uid == id && device.events == [Event(0, 0)]
      ensures timing == Configure(rp, wp, deVol, dlines, dtype, cycPerData, minCyc)
    {
      device := new Device(id);
      timing := Configure(rp, wp, deVol, dlines, dtype, cycPerData, minCyc);
    }

    /** An SRAM bank. */
    constructor Sram(id: U64, dlines: Int32, dtype: string)
      requires ConfigDefined(SRAM_VOLUME, dlines, dtype, 5)
      ensures fresh(device) && device.uid == id && device.events == [Event(0, 0)]
      ensures timing == SramTiming(dlines, dtype)
    {
      device := new Device(id);
      timing := SramTiming(dlines, dtype);
    }
  }
}
