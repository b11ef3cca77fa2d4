/** The scheduler clock and the conversions between metric time and quantums
    (Kernel/Sources/driver/MonotonicClock.c). */
module MonotonicClocks {
  import opened Arithmetic


  const ONE_SECOND_IN_NANOS := 1_000_000_000
  const INT32_MAX := 0x7fff_ffff
  const INT32_MIN := -0x8000_0000

  datatype TimeInterval = TimeInterval(sec: int, nsec: int)

  /** The metric length of an interval. */
  function Nanos(t: TimeInterval): int {
    t.sec * ONE_SECOND_IN_NANOS + t.nsec
  }

  predicate Canonical(t: TimeInterval) {
    0 <= t.nsec < ONE_SECOND_IN_NANOS
  }

  predicate IsInt32(x: int) {
    INT32_MIN <= x <= INT32_MAX
  }

  /** Conversion to a 32-bit integer: keeps the low 32 bits. */
  function Int32(x: int): (r: int)
    ensures IsInt32(r)
    ensures IsInt32(x) ==> r == x
  {
    (x + 0x8000_0000) % 0x1_0000_0000 - 0x8000_0000
  }

  /** C division: truncates toward zero. */
  function TruncDiv(a: int, b: int): int
    requires b > 0
  {
    if a >= 0 then a / b else -((-a) / b)
  }

  datatype Rounding = TowardsZero | AwayFromZero

  /** Quantums_MakeFromTimeInterval. */
  function ToQuantums(nsPerQuantum: int, t: TimeInterval, rounding: Rounding): int
    requires nsPerQuantum > 0
  {
    var nanos := Nanos(t);
    var quants := TruncDiv(nanos, nsPerQuantum);
    match rounding
    case TowardsZero => Int32(quants)
    case AwayFromZero =>
      if quants * nsPerQuantum < nanos then Int32(Int32(quants) + 1) else Int32(quants)
  }

  /** TimeInterval_MakeFromQuantums. */
  function FromQuantums(nsPerQuantum: int, quants: int): TimeInterval
    requires nsPerQuantum > 0
  {
    var ns := quants * nsPerQuantum;
    var secs := Int32(TruncDiv(ns, ONE_SECOND_IN_NANOS));
    TimeInterval(secs, ns - secs * ONE_SECOND_IN_NANOS)
  }

  /** `q` is the first quantum whose start is not before `nanos`. */
  predicate IsCeiling(q: int, nanos: int, nsPerQuantum: int) {
    (q - 1) * nsPerQuantum < nanos <= q * nsPerQuantum
  }

  /** The first quantum at or after a point in time. */
  function FirstQuantumAt(nanos: int, nsPerQuantum: int): (q: int)
    requires nsPerQuantum > 0
    ensures IsCeiling(q, nanos, nsPerQuantum)
  {
    -((-nanos) / nsPerQuantum)
  }

  lemma CeilingUnique(q: int, r: int, nanos: int, nsPerQuantum: int)
    requires nsPerQuantum > 0
    requires IsCeiling(q, nanos, nsPerQuantum) && IsCeiling(r, nanos, nsPerQuantum)
    ensures q == r
  {
    if q < r {
      MulMonotone(q, r - 1, nsPerQuantum);
    } else if r < q {
      MulMonotone(r, q - 1, nsPerQuantum);
    }
  }

  lemma CeilingFromRemainder(q: int, r: int, n: int)
    requires n > 0 && -n < r < n
    ensures IsCeiling(if r > 0 then q + 1 else q, q * n + r, n)
  {
    assert (q + 1) * n == q * n + n && (q - 1) * n == q * n - n;
  }

  lemma RoundedQuotient(nanos: int, n: int)
    requires n > 0
    ensures var q := TruncDiv(nanos, n);
            IsCeiling(if q * n < nanos then q + 1 else q, nanos, n)
  {
    var q := TruncDiv(nanos, n);
    var r := nanos - q * n;
    if nanos < 0 {
      assert (-((-nanos) / n)) * n == -((-nanos) / n * n);
    }
    CeilingFromRemainder(q, r, n);
  }

  /** Rounding away from zero yields the first quantum that starts at or after the
      given time exactly when that quantum number fits the 32-bit quantum type.
      Negative times are covered: there the result is the ceiling too. */
  lemma ConversionIsCeiling(nsPerQuantum: int, t: TimeInterval)
    requires nsPerQuantum > 0
    ensures var q := ToQuantums(nsPerQuantum, t, AwayFromZero);
            IsCeiling(q, Nanos(t), nsPerQuantum) <==>
            IsInt32(FirstQuantumAt(Nanos(t), nsPerQuantum))
  {
    var nanos := Nanos(t);
    var quants := TruncDiv(nanos, nsPerQuantum);
    var ceiling := FirstQuantumAt(nanos, nsPerQuantum);
    var q := ToQuantums(nsPerQuantum, t, AwayFromZero);
    RoundedQuotient(nanos, nsPerQuantum);
    var c := if quants * nsPerQuantum < nanos then quants + 1 else quants;
    CeilingUnique(c, ceiling, nanos, nsPerQuantum);
    WrappedSuccessor(quants);
    assert q == Int32(c);
    if IsCeiling(q, nanos, nsPerQuantum) {
      CeilingUnique(q, ceiling, nanos, nsPerQuantum);
    }
  }

  lemma WrappedSuccessor(x: int)
    ensures Int32(Int32(x) + 1) == Int32(x + 1)
  {
    var k := (x + 0x8000_0000) / 0x1_0000_0000;
    assert Int32(x) == x - k * 0x1_0000_0000;
  }

  /** The time a quantum starts converts back to that quantum, in either rounding. */
  lemma QuantumRoundTrip(nsPerQuantum: int, quants: int, rounding: Rounding)
    requires 0 < nsPerQuantum <= ONE_SECOND_IN_NANOS
    requires IsInt32(quants)
    ensures Nanos(FromQuantums(nsPerQuantum, quants)) == quants * nsPerQuantum
    ensures ToQuantums(nsPerQuantum, FromQuantums(nsPerQuantum, quants), rounding) == quants
    ensures quants >= 0 ==> Canonical(FromQuantums(nsPerQuantum, quants))
  {
    var ns := quants * nsPerQuantum;
    ExactQuotient(quants, nsPerQuantum);
    if quants >= 0 {
      MulMonotone(nsPerQuantum, ONE_SECOND_IN_NANOS, quants);
      assert ns / ONE_SECOND_IN_NANOS <= quants;
    }
  }

  lemma ExactQuotient(q: int, n: int)
    requires n > 0
    ensures TruncDiv(q * n, n) == q
  {
    if q >= 0 {
      assert q * n >= 0;
      QuotientOfMultiple(q, n);
    } else {
      assert q * n == -((-q) * n);
      assert (-q) * n > 0;
      QuotientOfMultiple(-q, n);
    }
  }

  lemma QuotientOfMultiple(q: nat, n: int)
    requires n > 0
    ensures (q * n) / n == q
  {
    var d := (q * n) / n;
    assert q * n == d * n + (q * n) % n;
    assert (q - d) * n == (q * n) % n;
    if q - d >= 1 {
      MulMonotone(1, q - d, n);
    } else if q - d <= -1 {
      MulMonotone(q - d, -1, n);
    }
  }

  /** The clock object.  `current_time` and `current_quantum` count the same ticks. */
  class MonotonicClock {
    var currentTime: TimeInterval
    var currentQuantum: int
    const nsPerQuantum: int

    ghost predicate Valid()
      reads this
    {
      && 0 < nsPerQuantum <= ONE_SECOND_IN_NANOS
      && Canonical(currentTime)
      && Nanos(currentTime) == currentQuantum * nsPerQuantum
    }

    constructor (quantumDurationNs: int)
      requires 0 < quantumDurationNs <= ONE_SECOND_IN_NANOS
      ensures Valid() && currentQuantum == 0 && nsPerQuantum == quantumDurationNs
    {
      currentTime := TimeInterval(0, 0);
      currentQuantum := 0;
      nsPerQuantum := quantumDurationNs;
    }

    /** One quantum interrupt: metric time keeps equal to quantums times duration. */
    method OnInterrupt()
      requires Valid()
      modifies this
      ensures Valid()
      ensures currentQuantum == old(currentQuantum) + 1
      ensures Nanos(currentTime) == old(Nanos(currentTime)) + nsPerQuantum
    {
      assert (currentQuantum + 1) * nsPerQuantum == currentQuantum * nsPerQuantum + nsPerQuantum;
      currentQuantum := currentQuantum + 1;
      currentTime := currentTime.(nsec := currentTime.nsec + nsPerQuantum);
      if currentTime.nsec >= ONE_SECOND_IN_NANOS {
        currentTime := TimeInterval(currentTime.sec + 1, currentTime.nsec - ONE_SECOND_IN_NANOS);
      }
    }
  }
}
