/** Converting 64-bit integers to doubles and back. */
module Doubles {
  import opened Decimal

  const TWO_53: int := 0x20_0000_0000_0000
  const TWO_62: int := 0x4000_0000_0000_0000
  const TWO_63: int := 0x8000_0000_0000_0000

  /** The distance between the doubles around a whole number, at least 1. */
  function Ulp(n: nat): (u: nat)
    ensures 1 <= u && n < TWO_53 * u
    ensures u > 1 ==> TWO_53 * u <= 2 * n
  {
    if n < TWO_53 then 1 else 2 * Ulp(n / 2)
  }

  /** The nearest multiple of u, the even one of two. */
  function Nearest(n: nat, u: nat): int
    requires u >= 1
  {
    var q, r := n / u, n % u;
    if 2 * r < u || (2 * r == u && q % 2 == 0) then q * u else q * u + u
  }

  /** The double an integer converts to. */
  function Double(n: int): int {
    if n < 0 then -Nearest(-n, Ulp(-n)) else Nearest(n, Ulp(n))
  }

  /** Below 2^53 every whole number is a double, so only the larger ones leave gaps. */
  predicate IsDouble(x: real) {
    -(TWO_53 as real) < x < TWO_53 as real || (x == x.Floor as real && Double(x.Floor) == x.Floor)
  }

  function Truncated(x: real): int {
    if x >= 0.0 then x.Floor else -(-x).Floor
  }

  /** A conversion to int64 drops the fraction; what it gives past that range the language leaves
      open. */
  function ToInt64(open: real -> int64, x: real): int64 {
    if IsInt64(Truncated(x)) then Truncated(x) else open(x)
  }

  lemma TruncationIsMonotone(x: real, y: real)
    requires x <= y
    ensures Truncated(x) <= Truncated(y)
  {
  }

  /** Truncation goes towards zero and drops less than one. */
  lemma TruncationDropsTheFraction(x: real)
    ensures x >= 0.0 ==> Truncated(x) as real <= x < (Truncated(x) + 1) as real
    ensures x <= 0.0 ==> (Truncated(x) - 1) as real < x <= Truncated(x) as real
  {
  }

  /** A conversion is off by half the distance between doubles at most, and takes the even one of two
      as near. */
  lemma DoubleIsNearest(n: nat)
    ensures 2 * (Double(n) - n) <= Ulp(n) && 2 * (n - Double(n)) <= Ulp(n)
    ensures Double(0 - n) == -Double(n)
    ensures Double(TWO_53 + 1) == TWO_53 && Double(TWO_53 + 3) == TWO_53 + 4
  {
    var u := Ulp(n);
    assert n == n / u * u + n % u;
    assert Ulp(TWO_53 + 1) == 2 && Ulp(TWO_53 + 3) == 2 by {
      assert Ulp((TWO_53 + 1) / 2) == 1 && Ulp((TWO_53 + 3) / 2) == 1;
    }
    hide Ulp;
  }

  lemma {:induction false} UlpGrows(n: nat, m: nat)
    requires n <= m
    ensures Ulp(n) == Ulp(m) || 2 * Ulp(n) <= Ulp(m)
  {
    if TWO_53 <= n {
      UlpGrows(n / 2, m / 2);
    }
  }

  lemma {:induction false} Multiples(q: nat, k: nat, u: nat)
    requires q < k
    ensures q * u + u <= k * u
  {
    assert k * u == (k - 1) * u + u;
    if q + 1 < k {
      Multiples(q, k - 1, u);
    }
  }

  lemma NearestIsWithin(n: nat, u: nat, k: nat)
    requires u >= 1
    ensures n < k * u ==> Nearest(n, u) <= k * u
    ensures k * u <= n ==> k * u <= Nearest(n, u)
  {
    var q, r := n / u, n % u;
    assert n == q * u + r;
    if q < k {
      Multiples(q, k, u);
    } else if k < q {
      Multiples(k, q, u);
    }
  }

  lemma NearestIsMonotone(n: nat, m: nat, u: nat)
    requires u >= 1 && n <= m
    ensures Nearest(n, u) <= Nearest(m, u)
  {
    var q, k := n / u, m / u;
    assert n == q * u + n % u && m == k * u + m % u;
    if q < k {
      Multiples(q, k, u);
    } else if k < q {
      Multiples(k, q, u);
    }
  }

  lemma NaturalsAreMonotone(n: nat, m: nat)
    requires n <= m
    ensures Nearest(n, Ulp(n)) <= Nearest(m, Ulp(m))
  {
    var u, v := Ulp(n), Ulp(m);
    UlpGrows(n, m);
    if u == v {
      NearestIsMonotone(n, m, u);
    } else {
      hide Nearest, Ulp;
      NearestIsWithin(n, u, TWO_53);
      NearestIsWithin(m, v, TWO_53 / 2);
    }
  }

  lemma DoubleIsMonotone(n: int, m: int)
    requires n <= m
    ensures Double(n) <= Double(m)
  {
    hide Nearest, Ulp;
    if n >= 0 {
      NaturalsAreMonotone(n, m);
    } else if m < 0 {
      NaturalsAreMonotone(-m, -n);
    } else {
      NearestIsWithin(-n, Ulp(-n), 0);
      NearestIsWithin(m, Ulp(m), 0);
    }
  }

  /** A conversion loses less than half. */
  lemma DoubleIsNear(n: int)
    requires n > 0
    ensures n < 2 * Double(n)
  {
    var u := Ulp(n);
    assert n == n / u * u + n % u;
  }

  /** It gains no more than as much again. */
  lemma DoubleIsNotFar(n: int)
    requires n > 0
    ensures Double(n) <= 2 * n
  {
    var u := Ulp(n);
    assert n == n / u * u + n % u;
  }

  lemma SmallNumbersAreExact(n: int)
    requires -TWO_53 <= n <= TWO_53
    ensures Double(n) == n
  {
    assert Ulp(TWO_53) == 2 by {
      assert Ulp(TWO_53 / 2) == 1;
    }
  }

  function TwoTo(k: nat): nat { if k == 0 then 1 else 2 * TwoTo(k - 1) }

  lemma {:induction false} UlpAt(n: nat, k: nat)
    requires k > 0 && TWO_53 * TwoTo(k - 1) <= n < TWO_53 * TwoTo(k)
    ensures Ulp(n) == TwoTo(k)
  {
    if k > 1 {
      UlpAt(n / 2, k - 1);
    }
  }

  /** Under 2^62 doubles are 512 apart, and 1024 under 2^63. */
  lemma UlpsOfTheTop(n: nat)
    ensures TWO_62 / 2 <= n < TWO_62 ==> Ulp(n) == 512
    ensures TWO_62 <= n < TWO_63 ==> Ulp(n) == 1024
  {
    assert TwoTo(8) == 256 && TwoTo(9) == 512 && TwoTo(10) == 1024;
    if TWO_62 / 2 <= n < TWO_62 {
      UlpAt(n, 9);
    } else if TWO_62 <= n < TWO_63 {
      UlpAt(n, 10);
    }
  }

  /** Where conversions round up to the next power of two. */
  lemma TheTop()
    ensures Double(TWO_63 - 513) == TWO_63 - 1024 == Double(TWO_63 - 1024)
    ensures Double(TWO_63 - 512) == TWO_63 == Double(TWO_63 - 1)
    ensures Double(TWO_62 - 257) == TWO_62 - 512
    ensures Double(TWO_62 - 256) == TWO_62
    ensures Double(1) == 1 && Double(-1) == -1
  {
    UlpsOfTheTop(TWO_63 - 1024);
    UlpsOfTheTop(TWO_63 - 513);
    UlpsOfTheTop(TWO_63 - 512);
    UlpsOfTheTop(TWO_63 - 1);
    UlpsOfTheTop(TWO_62 - 257);
    UlpsOfTheTop(TWO_62 - 256);
    assert Ulp(1) == 1;
    hide Ulp;
  }

  /** No double lies between the last one under 2^63 and 2^63. */
  lemma LastUnderTheTop(x: real)
    requires IsDouble(x) && x < TWO_63 as real
    ensures x <= (TWO_63 - 1024) as real
  {
    TheTop();
    if TWO_53 as real <= x {
      if x.Floor <= TWO_63 - 513 {
        DoubleIsMonotone(x.Floor, TWO_63 - 513);
      } else {
        DoubleIsMonotone(TWO_63 - 512, x.Floor);
      }
    }
  }
}
