/** C#'s `int`: 32-bit two's complement, with unchecked (wrapping) arithmetic. */
module Int32 {

  const MinInt32: int := -0x8000_0000
  const MaxInt32: int := 0x7FFF_FFFF

  newtype int32 = x: int | -0x8000_0000 <= x < 0x8000_0000

  /** The low 32 bits of x, read as a signed value. */
  function Wrap(x: int): (r: int32)
    ensures (r as int - x) % 0x1_0000_0000 == 0
    ensures MinInt32 <= x <= MaxInt32 ==> r as int == x
  {
    ((x - MinInt32) % 0x1_0000_0000 + MinInt32) as int32
  }

  /** `a + b` in an unchecked context. */
  function Add(a: int32, b: int32): int32 {
    Wrap(a as int + b as int)
  }

  /** `a - b` in an unchecked context. */
  function Sub(a: int32, b: int32): int32 {
    Wrap(a as int - b as int)
  }

  /** Unchecked `+=` is the exact sum whenever the sum fits. */
  lemma AddExact(a: int32, b: int32)
    requires MinInt32 <= a as int + b as int <= MaxInt32
    ensures Add(a, b) as int == a as int + b as int
  {
  }

  /** Subtracting and then adding back the same amount restores the value, overflow or not. */
  lemma {:induction false} SubThenAdd(a: int32, b: int32)
    ensures Add(Sub(a, b), b) == a
  {
    var d := Sub(a, b) as int - (a as int - b as int);
    assert d % 0x1_0000_0000 == 0;
    var s := Sub(a, b) as int + b as int;
    assert (Wrap(s) as int - s) % 0x1_0000_0000 == 0;
    assert s - a as int == d;
    WrapUnique(Wrap(s) as int, a as int);
  }

  /** Two in-range values that agree modulo 2^32 are equal. */
  lemma WrapUnique(x: int, y: int)
    requires MinInt32 <= x <= MaxInt32 && MinInt32 <= y <= MaxInt32
    requires (x - y) % 0x1_0000_0000 == 0
    ensures x == y
  {
  }
}
