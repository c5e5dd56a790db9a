/** What a generic JSON number keeps of an integer: its nearest float64, ties to even. */
module Float64 {
  import opened Basics

  const MANTISSA := 0x20_0000_0000_0000  // 2^53

  /** The least `e` with n < 2^53 * 2^e: how many low bits do not fit. */
  function Excess(n: nat): (e: nat)
    ensures n < MANTISSA * Pow2(e)
    ensures e > 0 ==> n >= MANTISSA * Pow2(e - 1)
  {
    if n < MANTISSA then 0 else 1 + Excess(n / 2)
  }

  /** Rounding to a multiple of `unit`. */
  function RoundTo(n: nat, unit: nat): nat
    requires unit > 0
  {
    var q, r := n / unit, n % unit;
    (if 2 * r < unit || (2 * r == unit && q % 2 == 0) then q else q + 1) * unit
  }

  function Nearest(n: nat): nat
  {
    RoundTo(n, Pow2(Excess(n)))
  }

  function NearestInt(i: int): int
  {
    if i < 0 then 0 - Nearest(-i) else Nearest(i)
  }

  /** Integers up to 2^53 are exact; in particular every uint32 is. */
  lemma Exact(n: nat)
    requires n < MANTISSA
    ensures Nearest(n) == n
  {
    assert Excess(n) == 0 && Pow2(0) == 1;
  }

  lemma PowerSplit(j: nat, k: nat)
    requires j <= k
    ensures Pow2(k) == Pow2(j) * Pow2(k - j)
    decreases k
  {
    if j < k {
      PowerSplit(j, k - 1);
      assert Pow2(k) == 2 * (Pow2(j) * Pow2(k - 1 - j)) == Pow2(j) * (2 * Pow2(k - 1 - j));
    }
  }

  lemma PowerMonotone(j: nat, k: nat)
    requires j <= k
    ensures Pow2(j) <= Pow2(k)
    decreases k
  {
    if j < k {
      PowerMonotone(j, k - 1);
    }
  }

  lemma RoundMultiple(q: nat, unit: nat)
    requires unit > 0
    ensures RoundTo(q * unit, unit) == q * unit
  {
    QuotientAndRemainder(q * unit, unit, q, 0);
  }

  /** `m` is a multiple of the unit at most half a unit away from `n`, and from the middle the even one. */
  predicate IsNearest(n: nat, unit: nat, m: nat)
    requires unit > 0
  {
    var q := m / unit;
    && m == q * unit
    && 2 * n - unit <= 2 * m <= 2 * n + unit
    && (2 * m == 2 * n - unit || 2 * m == 2 * n + unit ==> q % 2 == 0)
  }

  /** Going down or up from `low`, the multiple below `n`, by the rule for the remainder. */
  lemma Halfway(n: nat, unit: nat, q: nat, low: nat, r: nat, up: nat, m: nat)
    requires n == low + r && r < unit
    requires up == if 2 * r < unit || (2 * r == unit && q % 2 == 0) then q else q + 1
    requires m == if up == q then low else low + unit
    ensures 2 * n - unit <= 2 * m <= 2 * n + unit
    ensures 2 * m == 2 * n - unit || 2 * m == 2 * n + unit ==> up % 2 == 0
  {
  }

  lemma NextMultiple(q: nat, unit: nat, up: nat)
    requires up == q || up == q + 1
    ensures up * unit == if up == q then q * unit else q * unit + unit
  {
  }

  lemma DividesInto(n: nat, unit: nat, q: nat, r: nat)
    requires unit > 0 && q == n / unit && r == n % unit
    ensures n == q * unit + r && r < unit
  {
  }

  lemma RoundsBy(n: nat, unit: nat, q: nat, low: nat, r: nat, up: nat, m: nat)
    requires low == q * unit && n == low + r && r < unit && m == up * unit
    requires up == if 2 * r < unit || (2 * r == unit && q % 2 == 0) then q else q + 1
    ensures IsNearest(n, unit, m)
  {
    NextMultiple(q, unit, up);
    Halfway(n, unit, q, low, r, up, m);
    NearestBy(n, unit, up, m);
  }

  lemma RoundsToNearest(n: nat, unit: nat)
    requires unit > 0
    ensures IsNearest(n, unit, RoundTo(n, unit))
  {
    var q, r := n / unit, n % unit;
    DividesInto(n, unit, q, r);
    var up := if 2 * r < unit || (2 * r == unit && q % 2 == 0) then q else q + 1;
    RoundsBy(n, unit, q, q * unit, r, up, up * unit);
  }

  lemma NearestBy(n: nat, unit: nat, up: nat, m: nat)
    requires unit > 0 && m == up * unit
    requires 2 * n - unit <= 2 * m <= 2 * n + unit
    requires 2 * m == 2 * n - unit || 2 * m == 2 * n + unit ==> up % 2 == 0
    ensures IsNearest(n, unit, m)
  {
    QuotientAndRemainder(m, unit, up, 0);
  }

  /** The unit is the place of the last of the 53 bits that a number keeps. */
  lemma NearestIsNearest(n: nat)
    ensures n < MANTISSA * Pow2(Excess(n))
    ensures Excess(n) > 0 ==> n >= MANTISSA * Pow2(Excess(n) - 1)
    ensures IsNearest(n, Pow2(Excess(n)), Nearest(n))
  {
    RoundsToNearest(n, Pow2(Excess(n)));
  }

  lemma TimesMonotone(a: nat, b: nat, c: nat)
    requires a <= b
    ensures a * c <= b * c
  {
  }

  lemma TimesAssociative(a: nat, b: nat, c: nat)
    ensures a * (b * c) == a * c * b
  {
  }

  lemma NearestOfMultiple(n: nat, q: nat)
    requires n == q * Pow2(Excess(n))
    ensures Nearest(n) == n
  {
    RoundMultiple(q, Pow2(Excess(n)));
  }

  lemma Regroup(m: nat, k: nat, e: nat, rest: nat, n: nat) returns (q: nat)
    requires k == e * rest && n == m * k
    ensures n == q * e
  {
    TimesAssociative(m, e, rest);
    q := m * rest;
  }

  /** A multiple of a power of two is one of every smaller power. */
  lemma MultipleOf(m: nat, k: nat, e: nat, n: nat) returns (q: nat)
    requires e <= k && n == m * Pow2(k)
    ensures n == q * Pow2(e)
  {
    PowerSplit(e, k);
    q := Regroup(m, Pow2(k), Pow2(e), Pow2(k - e), n);
  }

  lemma FewBits(m: nat, k: nat, n: nat)
    requires n == m * Pow2(k) && Excess(n) <= k
    ensures Nearest(n) == n
  {
    var q := MultipleOf(m, k, Excess(n), n);
    NearestOfMultiple(n, q);
  }

  lemma NextPower(k: nat, n: nat)
    requires n <= MANTISSA * Pow2(k) && Excess(n) > k
    ensures Nearest(n) == n
  {
    var e := Excess(n);
    PowerMonotone(k, e - 1);
    assert Pow2(e) == 2 * Pow2(e - 1);
    NearestOfMultiple(n, MANTISSA / 2);
  }

  /** A number with at most 53 significant bits is a float64 already. */
  lemma Representable(m: nat, k: nat, n: nat)
    requires m <= MANTISSA && n == m * Pow2(k)
    ensures Nearest(n) == n
  {
    TimesMonotone(m, MANTISSA, Pow2(k));
    if Excess(n) <= k {
      FewBits(m, k, n);
    } else {
      NextPower(k, n);
    }
  }

  lemma QuotientBound(n: nat, unit: nat)
    requires unit > 0 && n < MANTISSA * unit
    ensures n / unit < MANTISSA
  {
    assert n == n / unit * unit + n % unit;
    if n / unit >= MANTISSA {
      TimesMonotone(MANTISSA, n / unit, unit);
    }
  }

  /** Reading and writing again changes nothing more. */
  lemma NearestIdempotent(n: nat)
    ensures Nearest(Nearest(n)) == Nearest(n)
  {
    var unit := Pow2(Excess(n));
    var q, r := n / unit, n % unit;
    QuotientBound(n, unit);
    Representable(if 2 * r < unit || (2 * r == unit && q % 2 == 0) then q else q + 1, Excess(n), Nearest(n));
  }
}
