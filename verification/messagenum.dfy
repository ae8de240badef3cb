/** `nextMessageNum`, identical in both appenders: a per-appender counter,
    starting at 0, that cycles through 1..maxMessagesPerDay.  It is never
    reset by the calendar, whatever its name says. */
module MessageNum {

  const IntMin: int := -0x8000_0000
  const IntMax: int := 0x7fff_ffff

  predicate IsInt(x: int)
  {
    IntMin <= x <= IntMax
  }

  /** Java `int` arithmetic: the value modulo 2^32, read as two's complement. */
  function WrapInt(x: int): (r: int)
    ensures IsInt(r)
    ensures IsInt(x) ==> r == x
  {
    var m := (x - IntMin) % 0x1_0000_0000;
    m + IntMin
  }

  /** The Java method as written: `messageNum++` on an `int`, then back to
      1 when past the maximum.  Returns the new counter, which is also the
      number handed out. */
  function NextAsWritten(counter: int, maxPerDay: int): int
  {
    var n := WrapInt(counter + 1);
    if n > maxPerDay then 1 else n
  }

  /** With `maxMessagesPerDay == Integer.MAX_VALUE` the increment overflows
      once the counter reaches the maximum, and the next number handed out
      is negative instead of 1. */
  lemma OverflowAtIntMax()
    ensures NextAsWritten(IntMax, IntMax) == IntMin
  {
  }

  /** The counter with the wrap the method evidently intends: back to 1
      once the maximum has been handed out, with no overflow. */
  function Next(counter: int, maxPerDay: int): (r: int)
    ensures IsInt(counter) && IsInt(maxPerDay) ==> IsInt(r)
    ensures 1 <= maxPerDay && 0 <= counter <= maxPerDay ==> 1 <= r <= maxPerDay
    ensures maxPerDay < 1 ==> counter < maxPerDay || r == 1
  {
    if counter >= maxPerDay then 1 else counter + 1
  }

  /** Away from the overflow the corrected counter is exactly the Java one. */
  lemma NextAgreesBelowIntMax(counter: int, maxPerDay: int)
    requires IsInt(counter) && IsInt(maxPerDay) && counter < IntMax
    ensures Next(counter, maxPerDay) == NextAsWritten(counter, maxPerDay)
  {
  }

  /** The counter after `k` calls starting from `counter`. */
  function Advance(counter: int, k: nat, maxPerDay: int): int
  {
    if k == 0 then counter else Next(Advance(counter, k - 1, maxPerDay), maxPerDay)
  }

  /** One call followed by k more is k + 1 calls. */
  lemma {:induction false} AdvanceAfterNext(counter: int, k: nat, maxPerDay: int)
    ensures Advance(Next(counter, maxPerDay), k, maxPerDay) == Advance(counter, k + 1, maxPerDay)
  {
    if k > 0 {
      AdvanceAfterNext(counter, k - 1, maxPerDay);
    }
  }

  /** Starting within [0, max], the counter stays within it, and every
      number handed out lies in [1, max]. */
  lemma {:induction false} AdvanceInRange(counter: int, k: nat, maxPerDay: int)
    ensures 1 <= maxPerDay && 0 <= counter <= maxPerDay ==>
      && 0 <= Advance(counter, k, maxPerDay) <= maxPerDay
      && (k >= 1 ==> 1 <= Advance(counter, k, maxPerDay))
  {
    if k > 0 {
      AdvanceInRange(counter, k - 1, maxPerDay);
    }
  }

  /** Every number handed out by the first `n` calls lies in [1, max]. */
  lemma AdvanceAllInRange(counter: int, n: nat, maxPerDay: int)
    ensures 1 <= maxPerDay && 0 <= counter <= maxPerDay ==>
      forall k :: 1 <= k <= n ==> 1 <= Advance(counter, k, maxPerDay) <= maxPerDay
  {
    forall k | 1 <= k <= n
      ensures 1 <= maxPerDay && 0 <= counter <= maxPerDay ==> 1 <= Advance(counter, k, maxPerDay) <= maxPerDay
    {
      AdvanceInRange(counter, k, maxPerDay);
    }
  }

  /** From the initial 0, the k-th call (counting from 1) hands out
      `(k - 1) % max + 1`: 1, 2, ..., max, 1, 2, ... */
  lemma {:induction false} AdvanceFromZero(k: nat, maxPerDay: int)
    requires maxPerDay >= 1
    ensures Advance(0, k, maxPerDay) == if k == 0 then 0 else (k - 1) % maxPerDay + 1
  {
    if k > 1 {
      AdvanceFromZero(k - 1, maxPerDay);
      var prev := Advance(0, k - 1, maxPerDay);
      assert Advance(0, k, maxPerDay) == Next(prev, maxPerDay);
      ModStep(k - 2, maxPerDay);
      assert prev == (k - 2) % maxPerDay + 1;
    }
  }

  /** Euclidean remainder of a successor. */
  lemma ModStep(a: nat, m: int)
    requires m >= 1
    ensures (a + 1) % m == if a % m == m - 1 then 0 else a % m + 1
  {
    var q, r := a / m, a % m;
    assert a == q * m + r;
    if r == m - 1 {
      assert a + 1 == (q + 1) * m;
      ModOfMultiple(q + 1, m);
    } else {
      assert a + 1 == q * m + (r + 1);
      ModUnique(a + 1, m, q, r + 1);
    }
  }

  lemma ModUnique(x: int, m: int, q: int, r: int)
    requires m >= 1 && 0 <= r < m && x == q * m + r
    ensures x % m == r
  {
    var q', r' := x / m, x % m;
    assert x == q' * m + r';
    var d := q - q';
    assert d * m == q * m - q' * m;
    assert d * m == r' - r;
    if d > 0 {
      MulAtLeast(d, m);
    } else if d < 0 {
      assert (-d) * m == -(d * m);
      MulAtLeast(-d, m);
    }
  }

  lemma MulAtLeast(a: int, m: int)
    requires a >= 1 && m >= 1
    ensures a * m >= m
  {
    assert a * m == (a - 1) * m + m;
    assert (a - 1) * m >= 0;
  }

  lemma ModOfMultiple(q: int, m: int)
    requires m >= 1
    ensures (q * m) % m == 0
  {
    ModUnique(q * m, m, q, 0);
  }

  /** The numbers handed out by `count` successive calls from `counter`. */
  function Handed(counter: int, count: nat, maxPerDay: int): (r: seq<int>)
    ensures |r| == count
  {
    seq(count, i requires 0 <= i < count => Advance(counter, i + 1, maxPerDay))
  }

  /** With a maximum of 3, five calls hand out 1, 2, 3, 1, 2. */
  lemma WrapExample()
    ensures Handed(0, 5, 3) == [1, 2, 3, 1, 2]
  {
    forall i | 0 <= i < 5
      ensures Handed(0, 5, 3)[i] == [1, 2, 3, 1, 2][i]
    {
      AdvanceFromZero(i + 1, 3);
    }
  }

  /** Without a positive maximum every call hands out 1. */
  lemma {:induction false} NonPositiveMaxAlwaysOne(counter: int, k: nat, maxPerDay: int)
    requires maxPerDay < 1 && 0 <= counter && k >= 1
    ensures Advance(counter, k, maxPerDay) == 1
  {
    if k > 1 {
      NonPositiveMaxAlwaysOne(counter, k - 1, maxPerDay);
    }
  }
}
