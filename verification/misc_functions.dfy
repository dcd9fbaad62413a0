/** `MiscFunctions.convertFromUniversalTimeTicks`: .NET universal-time
    ticks (100 ns units since 0001-01-01) to Unix seconds, in `Long`
    arithmetic. */
module MiscFunctions {
  import opened JvmNumbers

  /** Ticks at the Unix epoch. */
  const EPOCH_TICKS: int := 621355968000000000

  /** Ticks per second. */
  const TICKS_PER_SECOND: int := 10000000

  /** `(ticks - 621355968000000000L) / 10000000`: a 64-bit subtraction (which
      wraps) followed by a division that truncates toward zero. */
  function ConvertFromUniversalTimeTicks(ticks: Int64): (seconds: Int64)
    ensures ticks >= LONG_MIN + EPOCH_TICKS ==>
      seconds == TruncDiv(ticks - EPOCH_TICKS, TICKS_PER_SECOND)
    ensures ticks < LONG_MIN + EPOCH_TICKS ==>
      seconds == TruncDiv(ticks - EPOCH_TICKS + 0x1_0000_0000_0000_0000, TICKS_PER_SECOND)
  {
    TruncDiv(Wrap64(ticks - EPOCH_TICKS), TICKS_PER_SECOND)
  }

  /** The tick count of every whole Unix second, before or after the epoch
      (the epoch itself is second 0), converts back to that second, as long
      as the subtraction does not wrap. */
  lemma WholeSecondsRoundTrip(s: int)
    requires LONG_MIN + EPOCH_TICKS <= EPOCH_TICKS + TICKS_PER_SECOND * s <= LONG_MAX
    ensures ConvertFromUniversalTimeTicks(EPOCH_TICKS + TICKS_PER_SECOND * s) == s
  {
    if s >= 0 {
      DivUnique(TICKS_PER_SECOND * s, TICKS_PER_SECOND, s, 0);
    } else {
      DivUnique(TICKS_PER_SECOND * -s, TICKS_PER_SECOND, -s, 0);
    }
  }

  /** Whole seconds after the epoch convert exactly; the sub-second
      remainder is dropped. */
  lemma WholeSeconds(k: nat, r: nat)
    requires r < TICKS_PER_SECOND
    requires EPOCH_TICKS + TICKS_PER_SECOND * k + r <= LONG_MAX
    ensures ConvertFromUniversalTimeTicks(EPOCH_TICKS + TICKS_PER_SECOND * k + r) == k
  {
    var d := TICKS_PER_SECOND * k + r;
    assert d / TICKS_PER_SECOND == k;
  }

  /** Before the epoch, division rounds toward zero: one tick early is
      still second 0, and a tick past one second early is second -1 (a
      Euclidean division would give -1 and -2). */
  lemma TruncatesTowardZero()
    ensures ConvertFromUniversalTimeTicks(EPOCH_TICKS - 1) == 0
    ensures ConvertFromUniversalTimeTicks(EPOCH_TICKS - TICKS_PER_SECOND - 1) == -1
    ensures (-1) / TICKS_PER_SECOND == -1 && (-TICKS_PER_SECOND - 1) / TICKS_PER_SECOND == -2
  {
  }

  /** Truncating division is monotone. */
  lemma TruncDivMonotone(a: int, b: int, d: int)
    requires d > 0 && a <= b
    ensures TruncDiv(a, d) <= TruncDiv(b, d)
  {
    if a >= 0 {
      DivMonotone(a, b, d);
    } else if b < 0 {
      DivMonotone(-b, -a, d);
    }
  }

  lemma DivMonotone(a: nat, b: nat, d: nat)
    requires d > 0 && a <= b
    ensures a / d <= b / d
  {
    if a / d > b / d {
      var qa, qb := a / d, b / d;
      assert d * qa <= a;
      assert b < d * qb + d;
      assert d * qa >= d * (qb + 1) by { MulMonotone(d, qb + 1, qa); }
      assert false;
    }
  }

  lemma {:induction false} MulMonotone(d: nat, x: nat, y: nat)
    requires x <= y
    ensures d * x <= d * y
    decreases y - x
  {
    if x < y {
      MulMonotone(d, x, y - 1);
      assert d * y == d * (y - 1) + d;
    }
  }

  /** On the range where the subtraction does not wrap, later ticks never
      give an earlier second. */
  lemma Monotone(t1: Int64, t2: Int64)
    requires LONG_MIN + EPOCH_TICKS <= t1 <= t2
    ensures ConvertFromUniversalTimeTicks(t1) <= ConvertFromUniversalTimeTicks(t2)
  {
    TruncDivMonotone(t1 - EPOCH_TICKS, t2 - EPOCH_TICKS, TICKS_PER_SECOND);
  }

  /** Below `Long.MIN_VALUE + EPOCH_TICKS` the subtraction wraps around and
      the earliest tick values convert to large positive seconds. */
  lemma WrapsBelowRange()
    ensures ConvertFromUniversalTimeTicks(LONG_MIN) > 0
    ensures ConvertFromUniversalTimeTicks(LONG_MIN) > ConvertFromUniversalTimeTicks(EPOCH_TICKS)
  {
  }
}
