/** The C++ integer conversions that the modelled code depends on, written out on
    unbounded integers, and the optional value used for results that may be absent. */
module MachineInts {

  datatype Option<+T> = None | Some(value: T)

  const TWO_31: int := 0x8000_0000
  const TWO_32: int := 0x1_0000_0000
  const TWO_63: int := 0x8000_0000_0000_0000
  const TWO_64: int := 0x1_0000_0000_0000_0000

  /** The largest time, in 64-bit nanoseconds. */
  const TIME_MAX: int := TWO_63 - 1

  /** Conversion to `int`: reduce modulo 2^32 into the signed range. */
  function ToInt32(x: int): (r: int)
    ensures -TWO_31 <= r < TWO_31
    ensures -TWO_31 <= x < TWO_31 ==> r == x
  {
    var m := x % TWO_32;
    if m < TWO_31 then m else m - TWO_32
  }

  /** Conversion to `size_t` or `uint64_t`: reduce modulo 2^64. */
  function ToUInt64(x: int): (r: nat)
    ensures r < TWO_64
    ensures 0 <= x < TWO_64 ==> r == x
  {
    x % TWO_64
  }

  /** Signed 64-bit addition, as the clock types do it. */
  function Add64(a: int, b: int): int {
    var m := (a + b) % TWO_64;
    if m < TWO_63 then m else m - TWO_64
  }

  lemma Add64Exact(a: int, b: int)
    requires -TWO_63 <= a + b < TWO_63
    ensures Add64(a, b) == a + b
  {
  }

  /** Values that differ by a multiple of 2^32 convert to the same `int`. */
  lemma ToInt32Congruent(a: int, b: int, k: int)
    requires a == b + k * TWO_32
    ensures ToInt32(a) == ToInt32(b)
  {
    assert a / TWO_32 == b / TWO_32 + k;
  }

  lemma ToInt32Offset(x: int) returns (k: int)
    ensures ToInt32(x) == x + k * TWO_32
  {
    k := -(x / TWO_32) - (if x % TWO_32 < TWO_31 then 0 else 1);
  }

  lemma ToUInt64Congruent(a: int, b: int, k: int)
    requires a == b + k * TWO_64
    ensures ToUInt64(a) == ToUInt64(b)
  {
    assert a / TWO_64 == b / TWO_64 + k;
  }

  lemma ToUInt64Offset(x: int) returns (k: int)
    ensures ToUInt64(x) == x + k * TWO_64
  {
    k := -(x / TWO_64);
  }
}
