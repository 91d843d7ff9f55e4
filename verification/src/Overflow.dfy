/** Fixed-width integers and the guarded arithmetic of math/overflow.go. The wrap-around of
    the machine operators is written out; the contracts say what the guards achieve. */
module Overflow {

  const TWO_64: int := 0x1_0000_0000_0000_0000
  const TWO_32: int := 0x1_0000_0000
  const MAX_UINT64: int := 0xFFFF_FFFF_FFFF_FFFF
  const MAX_INT64: int := 0x7FFF_FFFF_FFFF_FFFF
  const MIN_INT64: int := -0x8000_0000_0000_0000
  const MAX_INT32: int := 0x7FFF_FFFF
  const MIN_INT32: int := -0x8000_0000

  type uint64 = x: int | 0 <= x <= MAX_UINT64
  type int64 = x: int | MIN_INT64 <= x <= MAX_INT64
  type int32 = x: int | MIN_INT32 <= x <= MAX_INT32

  datatype Checked<T> = Fits(value: T) | Overflows

  /** The machine operators: reduce modulo the width. */
  function Wrap64(x: int): (r: uint64)
    ensures 0 <= x <= MAX_UINT64 ==> r == x
  {
    x % TWO_64
  }

  function WrapInt64(x: int): (r: int64)
    ensures MIN_INT64 <= x <= MAX_INT64 ==> r == x
    ensures MAX_INT64 < x <= MAX_INT64 + TWO_64 ==> r == x - TWO_64
    ensures MIN_INT64 - TWO_64 <= x < MIN_INT64 ==> r == x + TWO_64
  {
    var m := x % TWO_64;
    if m > MAX_INT64 then m - TWO_64 else m
  }

  function WrapInt32(x: int): (r: int32)
    ensures MIN_INT32 <= x <= MAX_INT32 ==> r == x
    ensures MAX_INT32 < x <= MAX_INT32 + TWO_32 ==> r == x - TWO_32
    ensures MIN_INT32 - TWO_32 <= x < MIN_INT32 ==> r == x + TWO_32
  {
    var m := x % TWO_32;
    if m > MAX_INT32 then m - TWO_32 else m
  }

  /** The ideal saturating value that the gas totals are measured against. */
  function Cap(x: nat): (r: uint64)
    ensures r <= x
    ensures x <= MAX_UINT64 ==> r == x
  {
    if x <= MAX_UINT64 then x else MAX_UINT64
  }

  function AddUint64WithErr(a: uint64, b: uint64): (r: Checked<uint64>)
    ensures r == if a + b <= MAX_UINT64 then Fits(a + b) else Overflows
  {
    var s := Wrap64(a + b);
    if s >= a && s >= b then Fits(s) else Overflows
  }

  function AddUint64(a: uint64, b: uint64): (r: uint64)
    ensures r == Cap(a + b)
  {
    match AddUint64WithErr(a, b)
    case Fits(s) => s
    case Overflows => MAX_UINT64
  }

  function AddInt64(a: int64, b: int64): (r: int64)
    ensures r == if MIN_INT64 <= a + b <= MAX_INT64 then a + b else MAX_INT64
  {
    var res := WrapInt64(a + b);
    if (res > a) == (b > 0) then res else MAX_INT64
  }

  function SubUint64(a: uint64, b: uint64): (r: uint64)
    ensures a >= b ==> r + b == a
    ensures a <= b ==> r == 0
  {
    if a < b then 0 else a - b
  }

  /** The division test `a == res / b` accepts exactly the products that fit. */
  function MulUint64WithErr(a: uint64, b: uint64): (r: Checked<uint64>)
    ensures r == if a * b <= MAX_UINT64 then Fits(a * b) else Overflows
  {
    ProductNonNegative(a, b);
    var res := Wrap64(a * b);
    if a == 0 || b == 0 || a == res / b then
      DivisionGuard(a, b, res);
      Fits(res)
    else
      ExactDivision(a, b);
      Overflows
  }

  lemma ProductNonNegative(a: nat, b: nat)
    ensures 0 <= a * b
  {
  }

  lemma ExactDivision(a: nat, b: nat)
    ensures b != 0 ==> (a * b) / b == a
  {
    if b != 0 {
      var q, r := (a * b) / b, (a * b) % b;
      assert (a - q) * b == r;
      if a - q >= 1 {
        ScaleMonotone(1, a - q, b);
      } else if a - q <= -1 {
        ScaleMonotone(a - q, -1, b);
      }
    }
  }

  lemma ScaleMonotone(x: int, y: int, b: nat)
    requires x <= y
    ensures x * b <= y * b
  {
  }

  lemma DivisionGuard(a: uint64, b: uint64, res: uint64)
    requires 0 <= a * b && res == Wrap64(a * b)
    requires a == 0 || b == 0 || a == res / b
    ensures a * b <= MAX_UINT64 && res == a * b
  {
    if a == 0 || b == 0 {
      assert a * b == 0;
    } else {
      assert (res / b) * b <= res;
    }
  }

  function MulUint64(a: uint64, b: uint64): (r: uint64)
    ensures r == if a * b <= MAX_UINT64 then a * b else MAX_UINT64
  {
    match MulUint64WithErr(a, b)
    case Fits(s) => s
    case Overflows => MAX_UINT64
  }

  function AddInt32WithError(a: int32, b: int32): (r: Checked<int32>)
    ensures r == if MIN_INT32 <= a + b <= MAX_INT32 then Fits(a + b) else Overflows
  {
    var res := WrapInt32(a + b);
    if (res > a) == (b > 0) then Fits(res) else Overflows
  }

  /** On overflow in either direction the result is the largest int32. */
  function AddInt32(a: int32, b: int32): (r: int32)
    ensures r == if MIN_INT32 <= a + b <= MAX_INT32 then a + b else MAX_INT32
  {
    match AddInt32WithError(a, b)
    case Fits(s) => s
    case Overflows => MAX_INT32
  }

  function SubInt(a: int64, b: int64): (r: int64)
    ensures r == if MIN_INT64 <= a - b <= MAX_INT64 then a - b else MIN_INT64
  {
    var res := WrapInt64(a - b);
    if (res < a) == (b > 0) then res else MIN_INT64
  }
}
