/**
 * The header's unit macros and its "unlimited" sentinel. Each unit macro is
 * a chain of `*1024` factors ending in `*1`, so a quantity such as `10 KB`
 * is the product `10 * KB`. A byte is 1024 bits in this convention.
 */
module Units {
  import opened MachineInts

  const BIT: int := 1
  const BYTE: int := 1024 * BIT
  const KB: int := 1024 * BYTE
  const MB: int := 1024 * KB
  const GB: int := 1024 * MB

  /** The port-count sentinel meaning "unlimited storage/transmission bandwidth". */
  const ENOUGH: int := -1

  /**
   * `n KB` written in a context of type `int`: the multiplications are done
   * left to right in 32-bit arithmetic, so an overflowing product wraps.
   */
  function KbAsInt(n: Int32): (r: Int32)
    ensures IsInt32(n * KB) ==> r == n * KB
  {
    var k := WrapInt32(n * 1024);
    var m := WrapInt32(k * 1024);
    assert IsInt32(n * KB) ==> k == n * 1024 && m == n * KB;
    WrapInt32(m * 1)
  }

  /** `n MB` written in a context of type `int`, evaluated as `KbAsInt` is. */
  function MbAsInt(n: Int32): (r: Int32)
    ensures IsInt32(n * MB) ==> r == n * MB
  {
    var k := WrapInt32(n * 1024);
    var m := WrapInt32(k * 1024);
    var g := WrapInt32(m * 1024);
    assert IsInt32(n * MB) ==> -2 <= n <= 1 && k == n * 1024 && m == n * KB && g == n * MB;
    WrapInt32(g * 1)
  }

  /** `10 KB` fits in an `int`: 10 * 1024 * 1024 = 10485760. */
  lemma TenKbFits()
    ensures KbAsInt(10) == 10 * KB == 10485760
  {
  }

  /**
   * `512 MB` does not fit: 512 * 1024 * 1024 * 1024 = 2^39, which wraps to 0
   * in 32-bit arithmetic.
   */
  lemma FiveHundredTwelveMbWrapsToZero()
    ensures 512 * MB == 0x80_0000_0000
    ensures !IsInt32(512 * MB)
    ensures MbAsInt(512) == 0
  {
  }
}
