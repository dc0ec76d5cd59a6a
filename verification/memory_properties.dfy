/**
 * What the memory bank's derived geometry and access costs satisfy,
 * including the places where the header's formulas are not what their
 * names suggest.
 */
module MemoryProperties {
  import opened MachineInts
  import opened Units
  import opened Memories

  // ---------------------------------------------------------------------
  // Data and address widths
  // ---------------------------------------------------------------------

  /** More lines never need fewer address bits, once there is at least one line. */
  lemma AddressSizeMonotone(a: nat, b: nat)
    requires 1 <= a <= b
    ensures AddressSize(a) <= AddressSize(b)
  {
    CeilLog2IsLeast(a, CeilLog2(b));
  }

  /** 1024 lines need 10 address bits; one line needs none, while zero lines get 1. */
  lemma AddressSizeExamples()
    ensures AddressSize(1024) == 10
    ensures AddressSize(1) == 0 && AddressSize(0) == 1
  {
    CeilLog2OfPow2(10);
    assert Pow2(10) == 1024;
  }

  // ---------------------------------------------------------------------
  // Construction
  // ---------------------------------------------------------------------

  /**
   * An SRAM bank of 1024 `f32` lines: 43-bit lines, 44032 bits in all, which
   * is less than the 10485760-bit default volume, so the cycle count is the
   * floor of 2.
   */
  lemma SramF32Example()
    ensures ConfigDefined(SRAM_VOLUME, 1024, "f32", 5)
    ensures SramTiming(1024, "f32").totalSize == 43
    ensures SramTiming(1024, "f32").totalVolume == 44032
    ensures SramTiming(1024, "f32").cycles == 2
  {
    AddressSizeExamples();
    Units.TenKbFits();
  }

  /** The same bank with an unknown type tag: 1 data bit, 12-bit lines, still the floor of 2 cycles. */
  lemma SramUnknownTagExample()
    ensures ConfigDefined(SRAM_VOLUME, 1024, "bf16", 5)
    ensures SramTiming(1024, "bf16").dataSize == 1
    ensures SramTiming(1024, "bf16").totalSize == 12
    ensures SramTiming(1024, "bf16").totalVolume == 12288
    ensures SramTiming(1024, "bf16").cycles == 2
  {
    AddressSizeExamples();
    Units.TenKbFits();
  }

  lemma {:induction false} MulMonotone(a: nat, b: nat, c: nat, d: nat)
    requires a <= b && c <= d
    ensures a * c <= b * d
  {
    assert a * c <= a * d by {
      assert a * d - a * c == a * (d - c);
    }
    assert a * d <= b * d by {
      assert b * d - a * d == (b - a) * d;
    }
  }

  lemma {:induction false} DivMonotone(a: nat, b: nat, d: nat)
    requires a <= b && d > 0
    ensures a / d <= b / d
  {
    if a / d > b / d {
      assert d * (a / d) + a % d == a;
      assert d * (b / d) + b % d == b;
      MulMonotone(b / d + 1, a / d, d, d);
    }
  }

  /**
   * With a non-negative cycle cost per default volume, a bank with more
   * lines never costs fewer cycles per access.
   */
  lemma {:induction false} CyclesMonotoneInLines(rp: Int32, wp: Int32, deVol: Int32, a: Int32, b: Int32,
                                                 dtype: string, cycPerData: Int32, minCyc: Int32)
    requires 0 <= a <= b && cycPerData >= 0 && deVol > 0
    requires ConfigDefined(deVol, a, dtype, cycPerData) && ConfigDefined(deVol, b, dtype, cycPerData)
    ensures Configure(rp, wp, deVol, a, dtype, cycPerData, minCyc).cycles
         <= Configure(rp, wp, deVol, b, dtype, cycPerData, minCyc).cycles
  {
    var va, vb := LineWidth(a, dtype) * a, LineWidth(b, dtype) * b;
    VolumeMonotone(a, b, dtype);
    ScaledMonotone(cycPerData, va, vb, deVol);
    FloorMonotone(cycPerData * TruncDiv(va, deVol), cycPerData * TruncDiv(vb, deVol), minCyc,
                  Configure(rp, wp, deVol, a, dtype, cycPerData, minCyc).cycles,
                  Configure(rp, wp, deVol, b, dtype, cycPerData, minCyc).cycles);
  }

  /**
   * The total volume grows with the line count. Zero lines get one address
   * bit more than one line does, but their volume is zero.
   */
  lemma VolumeMonotone(a: nat, b: nat, dtype: string)
    requires a <= b
    ensures 0 <= LineWidth(a, dtype) * a <= LineWidth(b, dtype) * b
  {
    var wa, wb := LineWidth(a, dtype), LineWidth(b, dtype);
    if a == 0 {
      assert wa * a == 0;
      MulMonotone(0, wb, 0, b);
    } else {
      AddressSizeMonotone(a, b);
      assert wa <= wb;
      MulMonotone(0, wa, 0, a);
      MulMonotone(wa, wb, a, b);
    }
  }

  lemma FloorMonotone(sa: int, sb: int, floor: int, ca: int, cb: int)
    requires sa <= sb
    requires ca >= floor && ca >= sa && (ca == floor || ca == sa)
    requires cb >= floor && cb >= sb && (cb == floor || cb == sb)
    ensures ca <= cb
  {
  }

  lemma ScaledMonotone(cycPerData: nat, va: nat, vb: nat, deVol: int)
    requires va <= vb && deVol > 0
    ensures cycPerData * TruncDiv(va, deVol) <= cycPerData * TruncDiv(vb, deVol)
  {
    DivMonotone(va, vb, deVol);
    MulMonotone(cycPerData, cycPerData, va / deVol, vb / deVol);
  }

  // ---------------------------------------------------------------------
  // Access cycles
  // ---------------------------------------------------------------------

  /** With `ENOUGH` ports for the operation, the line count makes no difference. */
  lemma UnlimitedPortsIgnoreLines(m: MemoryTiming, a: Int32, b: Int32, op: MemOp)
    requires !PortBounded(m, op)
    ensures ReadOrWriteCycles(m, a, op) == ReadOrWriteCycles(m, b, op) == m.cycles
  {
  }

  /** Every SRAM access, read or write, of any number of lines costs the bank's base cycles. */
  lemma SramAccessIsBaseCycles(dlines: Int32, dtype: string, lines: Int32, op: MemOp)
    requires ConfigDefined(SRAM_VOLUME, dlines, dtype, 5)
    ensures ReadOrWriteCycles(SramTiming(dlines, dtype), lines, op) == SramTiming(dlines, dtype).cycles
  {
  }

  /**
   * A negative line count on bounded ports rounds the number of port groups
   * toward zero, as C++ `int` division does, not toward minus infinity.
   */
  lemma NegativeLinesRoundTowardZero(m: MemoryTiming, dlines: Int32, op: MemOp)
    requires PortBounded(m, op) && AccessDefined(m, dlines, op)
    requires dlines < 0 && m.readPorts > 0
    ensures ReadOrWriteCycles(m, dlines, op) == -(Abs(dlines) / m.readPorts) * m.cycles
  {
    assert TruncDiv(dlines, m.readPorts) == -(Abs(dlines) / Abs(m.readPorts));
  }

  /**
   * With bounded read and write ports, a write costs exactly what a read
   * does: the write path divides by the read-port count, so the write-port
   * count plays no part.
   */
  lemma WriteDividesByReadPorts(m: MemoryTiming, dlines: Int32, otherWritePorts: Int32)
    requires m.readPorts != ENOUGH && m.writePorts != ENOUGH && otherWritePorts != ENOUGH
    requires AccessDefined(m, dlines, Read)
    ensures ReadOrWriteCycles(m, dlines, Write) == ReadOrWriteCycles(m, dlines, Read)
    ensures ReadOrWriteCycles(m, dlines, Write) == ReadOrWriteCycles(m.(writePorts := otherWritePorts), dlines, Write)
  {
  }

  /**
   * With `ENOUGH` read ports but bounded write ports, a write divides the
   * line count by -1: writing a positive number of lines on a bank with a
   * positive cycle count costs a negative number of cycles.
   */
  lemma BoundedWriteWithUnlimitedReadIsNegative(m: MemoryTiming, dlines: Int32)
    requires m.readPorts == ENOUGH && m.writePorts != ENOUGH
    requires dlines > 0 && m.cycles > 0
    requires AccessDefined(m, dlines, Write)
    ensures ReadOrWriteCycles(m, dlines, Write) == -dlines * m.cycles
    ensures ReadOrWriteCycles(m, dlines, Write) < 0
  {
  }

  // ---------------------------------------------------------------------
  // DRAM
  // ---------------------------------------------------------------------

  /**
   * `512 MB` overflows `int` and wraps to 0, so building a DRAM bank divides
   * by zero whatever its line count and type: no DRAM bank is well defined.
   */
  lemma DramPresetUndefined(dlines: Int32, dtype: string)
    ensures DRAM_VOLUME == 0
    ensures !ConfigDefined(DRAM_VOLUME, dlines, dtype, 40)
  {
    Units.FiveHundredTwelveMbWrapsToZero();
  }
}
