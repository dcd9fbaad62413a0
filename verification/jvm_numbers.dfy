/** Fixed-width JVM integer arithmetic on top of Dafny's unbounded `int`:
    the value ranges of `Int` and `Long`, two's-complement wrap-around, and
    the truncating division the JVM performs. */
module JvmNumbers {

  const INT_MIN: int := -0x8000_0000
  const INT_MAX: int := 0x7fff_ffff
  const LONG_MIN: int := -0x8000_0000_0000_0000
  const LONG_MAX: int := 0x7fff_ffff_ffff_ffff

  /** Values of Kotlin `Int` (32-bit signed). */
  type Int32 = x: int | INT_MIN <= x <= INT_MAX

  /** Values of Kotlin `Long` (64-bit signed). */
  type Int64 = x: int | LONG_MIN <= x <= LONG_MAX

  /** The 32-bit two's-complement value congruent to `x`: what an `Int`
      expression evaluates to after overflow. */
  function Wrap32(x: int): (r: Int32)
    ensures (r - x) % 0x1_0000_0000 == 0
    ensures INT_MIN <= x <= INT_MAX ==> r == x
  {
    var m := x % 0x1_0000_0000;
    if m <= INT_MAX then m else m - 0x1_0000_0000
  }

  /** One `result = 31 * result + field` step of a `hashCode`, in `Int`
      arithmetic. */
  function HashStep(h: Int32, field: Int32): Int32 {
    Wrap32(31 * h + field)
  }

  /** The 64-bit two's-complement value congruent to `x`: what a `Long`
      expression evaluates to after overflow. */
  function Wrap64(x: int): (r: Int64)
    ensures (r - x) % 0x1_0000_0000_0000_0000 == 0
    ensures LONG_MIN <= x <= LONG_MAX ==> r == x
  {
    var m := x % 0x1_0000_0000_0000_0000;
    if m <= LONG_MAX then m else m - 0x1_0000_0000_0000_0000
  }

  /** JVM integer division: the quotient is rounded toward zero (Dafny's `/`
      is Euclidean and rounds a negative dividend down instead). */
  function TruncDiv(a: int, b: int): (q: int)
    requires b > 0
    ensures a >= 0 ==> q * b <= a < q * b + b
    ensures a < 0 ==> q * b - b < a <= q * b
    ensures (a >= 0 ==> q >= 0) && (a <= 0 ==> q <= 0)
  {
    if a >= 0 then a / b else -((-a) / b)
  }

  /** `Long.compareTo` / `Int.compareTo`: -1, 0 or 1. */
  function CompareNumbers(a: int, b: int): (r: int)
    ensures r == 0 <==> a == b
    ensures r < 0 <==> a < b
    ensures r > 0 <==> a > b
    ensures -1 <= r <= 1
  {
    if a < b then -1 else if a == b then 0 else 1
  }

  /** Division truncates where Euclidean division would not: the two agree
      unless the dividend is negative and not a multiple of the divisor, and
      then the JVM's quotient is one greater (-1 / 10 is 0 on the JVM and -1
      in Dafny). */
  lemma TruncDivDiffersFromEuclidean(a: int, b: int)
    requires b > 0
    ensures a >= 0 || a % b == 0 ==> TruncDiv(a, b) == a / b
    ensures a < 0 && a % b != 0 ==> TruncDiv(a, b) == a / b + 1
  {
    if a < 0 {
      var q, r := (-a) / b, (-a) % b;
      if r == 0 {
        DivUnique(a, b, -q, 0);
      } else {
        DivUnique(a, b, -q - 1, b - r);
      }
    }
  }

  /** Euclidean division has one quotient and remainder. */
  lemma DivUnique(a: int, b: int, q: int, r: int)
    requires b > 0 && 0 <= r < b && a == q * b + r
    ensures a / b == q && a % b == r
  {
    var d := a / b - q;
    assert d * b == r - a % b;
  }
}
