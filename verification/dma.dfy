/**
 * The DMA engine: a device with a fixed transfer rate and warm-up latency,
 * and the formula that turns a data volume into a cycle count.
 */
module DmaTiming {
  import opened MachineInts
  import opened Units
  import opened Devices

  /** The ceiling of `a / b` for a positive divisor. */
  function CeilDiv(a: int, b: int): (q: int)
    requires b > 0
    ensures (q - 1) * b < a <= q * b
  {
    var q := (a + b - 1) / b;
    var r := (a + b - 1) % b;
    assert a + b - 1 == q * b + r && 0 <= r < b;
    assert (q - 1) * b == q * b - b;
    q
  }

  class Dma {
    /** The timeline this engine reserves transfers on. */
    const device: Device
    /** Volume moved per cycle: `10 KB`. */
    const transferRate: int := 10 * KB
    /** Cycles of bus request and grant before a transfer starts. */
    const warmupCycles: int := 2

    constructor (id: U64)
      ensures fresh(device) && device.uid == id && device.events == [Event(0, 0)]
    {
      device := new Device(id);
    }

    /**
     * The cycles a transfer of `volume` takes: the warm-up plus the number
     * of whole cycles needed to move `volume` at `transferRate` per cycle,
     * rounding a partial cycle up.
     */
    function TransferCycles(volume: Int32): (cycles: int)
      ensures (cycles - warmupCycles - 1) * transferRate < volume <= (cycles - warmupCycles) * transferRate
    {
      warmupCycles + CeilDiv(volume, transferRate)
    }
  }

  /** With the default rate and warm-up: 2 cycles for nothing, 3 for up to one cycle's volume. */
  lemma DefaultTransferCycles(d: Dma, volume: Int32)
    ensures d.TransferCycles(0) == 2
    ensures 0 < volume <= 10485760 ==> d.TransferCycles(volume) == 3
  {
  }

  /** A whole number `k` of cycles' worth of volume takes `2 + k` cycles. */
  lemma WholeCyclesTransfer(d: Dma, k: int)
    requires IsInt32(k * 10485760)
    ensures d.TransferCycles(k * 10485760) == 2 + k
  {
  }

  /** Twenty-five cycles' worth of volume takes the warm-up plus 25 cycles. */
  lemma TwentyFiveCyclesExample(d: Dma)
    ensures d.TransferCycles(25 * d.transferRate) == d.warmupCycles + 25
  {
    WholeCyclesTransfer(d, 25);
  }

  /** A larger volume never takes fewer cycles. */
  lemma TransferCyclesMonotone(d: Dma, v1: Int32, v2: Int32)
    requires v1 <= v2
    ensures d.TransferCycles(v1) <= d.TransferCycles(v2)
  {
  }
}
