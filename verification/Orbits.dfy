/** Iterating an injective function, and the distances at which a point returns to itself. */
module Orbits {

  function Iterate<T>(f: T -> T, x: T, n: nat): T {
    if n == 0 then x else f(Iterate(f, x, n - 1))
  }

  ghost predicate Injective<T(!new)>(f: T -> T) {
    forall x, y :: f(x) == f(y) ==> x == y
  }

  lemma {:induction false} IterateAdd<T>(f: T -> T, x: T, a: nat, b: nat)
    ensures Iterate(f, Iterate(f, x, a), b) == Iterate(f, x, a + b)
  {
    if b > 0 {
      IterateAdd(f, x, a, b - 1);
    }
  }

  lemma {:induction false} IterateInjective<T(!new)>(f: T -> T, x: T, y: T, n: nat)
    requires Injective(f) && Iterate(f, x, n) == Iterate(f, y, n)
    ensures x == y
  {
    if n > 0 {
      IterateInjective(f, x, y, n - 1);
    }
  }

  lemma {:induction false} IterateFixed<T>(f: T -> T, x: T, n: nat)
    requires f(x) == x
    ensures Iterate(f, x, n) == x
  {
    if n > 0 {
      IterateFixed(f, x, n - 1);
    }
  }

  /** If `g` turns one step into two and fixes the start, it doubles the number of steps. */
  lemma {:induction false} IterateDoubles<T(!new)>(f: T -> T, g: T -> T, x: T, n: nat)
    requires forall c :: g(f(c)) == f(f(g(c)))
    requires g(x) == x
    ensures g(Iterate(f, x, n)) == Iterate(f, x, 2 * n)
  {
    if n > 0 {
      IterateDoubles(f, g, x, n - 1);
      assert Iterate(f, x, 2 * n - 1) == f(Iterate(f, x, 2 * n - 2));
    }
  }

  lemma SevenDoublings<T(!new)>(f: T -> T, g: T -> T, x: T, n: nat)
    requires forall c :: g(f(c)) == f(f(g(c)))
    requires g(x) == x && n == 128
    ensures Iterate(f, x, n) == g(g(g(g(g(g(g(f(x))))))))
  {
    var k := 1;
    assert Iterate(f, x, k) == f(Iterate(f, x, k - 1));
    IterateDoubles(f, g, x, k);
    IterateDoubles(f, g, x, 2 * k);
    IterateDoubles(f, g, x, 4 * k);
    IterateDoubles(f, g, x, 8 * k);
    IterateDoubles(f, g, x, 16 * k);
    IterateDoubles(f, g, x, 32 * k);
    IterateDoubles(f, g, x, 64 * k);
  }

  /** `x` is back at itself after `n` steps. */
  predicate Returns<T(==)>(f: T -> T, x: T, n: nat) {
    Iterate(f, x, n) == x
  }

  lemma ReturnsSum<T>(f: T -> T, x: T, a: nat, b: nat)
    requires Returns(f, x, a) && Returns(f, x, b)
    ensures Returns(f, x, a + b)
  {
    IterateAdd(f, x, a, b);
  }

  lemma ReturnsDifference<T(!new)>(f: T -> T, x: T, a: nat, b: nat)
    requires Injective(f) && b <= a && Returns(f, x, a) && Returns(f, x, b)
    ensures Returns(f, x, a - b)
  {
    IterateAdd(f, x, a - b, b);
    IterateInjective(f, Iterate(f, x, a - b), x, b);
  }

  lemma {:induction false} ReturnsModulo<T(!new)>(f: T -> T, x: T, a: nat, b: nat)
    requires Injective(f) && b > 0 && Returns(f, x, a)
    ensures Returns(f, x, b) ==> Returns(f, x, a % b)
    decreases a
  {
    if b <= a {
      ModuloStep(a, b);
      if Returns(f, x, b) {
        ReturnsDifference(f, x, a, b);
        ReturnsModulo(f, x, a - b, b);
      }
    } else {
      assert a % b == a;
    }
  }

  lemma ModuloStep(a: nat, b: nat)
    requires 0 < b <= a
    ensures (a - b) % b == a % b
  {
    var q, r := a / b, a % b;
    assert a - b == b * (q - 1) + r;
    QuotientRemainder(a - b, b, q - 1, r);
  }

  lemma QuotientRemainder(a: int, b: nat, q: int, r: nat)
    requires a == b * q + r && r < b
    ensures a % b == r
  {
    var q', r' := a / b, a % b;
    assert a == b * q' + r';
    if q > q' {
      AtLeast(b, q - q');
    } else if q < q' {
      AtLeast(b, q' - q);
    }
  }

  lemma AtLeast(b: nat, k: int)
    requires k >= 1
    ensures b * k >= b
  {
  }

  ghost predicate Prime(p: nat) {
    p >= 2 && forall d, q: nat :: 2 <= d < p ==> q * d != p
  }

  /** A smaller return distance would reduce a prime one down to a fixed point. */
  lemma {:induction false} NoEarlyReturn<T(!new)>(f: T -> T, x: T, p: nat, d: nat)
    requires Injective(f) && f(x) != x && Prime(p) && Returns(f, x, p) && 1 <= d < p
    ensures !Returns(f, x, d)
  {
    if d == 1 {
      assert Iterate(f, x, 1) == f(Iterate(f, x, 0));
    } else {
      assert (p / d) * d != p;
      NoEarlyReturn(f, x, p, p % d);
      ReturnsModulo(f, x, p, d);
    }
  }

  lemma {:induction false} ReturnsAtMultiples<T>(f: T -> T, x: T, p: nat, d: nat)
    requires p > 0 && d % p == 0 && Returns(f, x, p)
    ensures Returns(f, x, d)
  {
    if d >= p {
      ModuloStep(d, p);
      ReturnsAtMultiples(f, x, p, d - p);
      ReturnsSum(f, x, d - p, p);
    } else {
      assert d % p == d;
    }
  }

  /** A moving point with a prime return distance returns exactly at its multiples. */
  lemma PrimePeriod<T(!new)>(f: T -> T, x: T, p: nat, d: nat)
    requires Injective(f) && f(x) != x && Prime(p) && Returns(f, x, p)
    ensures Returns(f, x, d) <==> d % p == 0
  {
    if d % p == 0 {
      ReturnsAtMultiples(f, x, p, d);
    } else {
      NoEarlyReturn(f, x, p, d % p);
      if Returns(f, x, d) {
        ReturnsModulo(f, x, d, p);
      }
    }
  }
}
