/** Multiplication, division and powers by repeated addition and subtraction, so that proofs about
    mixed-radix numbers stay linear. The bridging lemmas tie them to the built-in operators. */
module Arithmetic {
  function Times(n: nat, d: nat): nat {
    if n == 0 then 0 else d + Times(n - 1, d)
  }

  function Quot(a: nat, d: nat): nat
    requires d > 0
  {
    if a < d then 0 else 1 + Quot(a - d, d)
  }

  function Rem(a: nat, d: nat): (r: nat)
    requires d > 0
    ensures r < d
  {
    if a < d then a else Rem(a - d, d)
  }

  function Pow(base: nat, exponent: nat): nat {
    if exponent == 0 then 1 else Times(base, Pow(base, exponent - 1))
  }

  lemma {:induction false} TimesIsProduct(n: nat, d: nat)
    ensures Times(n, d) == n * d
  {
    if n > 0 {
      TimesIsProduct(n - 1, d);
      assert n * d == d + (n - 1) * d;
    }
  }

  lemma {:induction false} DivisionIsQuot(a: nat, d: nat)
    requires d > 0
    ensures a / d == Quot(a, d) && a % d == Rem(a, d)
  {
    if a < d {
      SmallQuotient(a, d);
    } else {
      DivisionIsQuot(a - d, d);
      QuotientStep(a, d);
    }
  }

  lemma {:induction false} SmallQuotient(a: nat, d: nat)
    requires a < d
    ensures a / d == 0 && a % d == a
  {
  }

  lemma {:induction false} QuotientStep(a: nat, d: nat)
    requires 0 < d <= a
    ensures a / d == (a - d) / d + 1 && a % d == (a - d) % d
  {
    var q := (a - d) / d;
    assert a == (q + 1) * d + (a - d) % d;
    UniqueQuotient(a, d, q + 1, (a - d) % d);
  }

  lemma {:induction false} UniqueQuotient(x: nat, d: nat, q: int, r: nat)
    requires d > 0 && x == q * d + r && r < d
    ensures x / d == q && x % d == r
  {
    var e := x / d - q;
    assert e * d == r - x % d;
    assert e == 0 || e * d >= d || e * d <= 0 - d;
  }

  lemma {:induction false} TimesSucc(n: nat, d: nat)
    ensures Times(n, d + 1) == Times(n, d) + n
  {
    if n > 0 {
      TimesSucc(n - 1, d);
    }
  }

  lemma {:induction false} TimesCommutes(n: nat, d: nat)
    ensures Times(n, d) == Times(d, n)
    decreases n + d
  {
    if n > 0 && d > 0 {
      TimesSucc(d, n - 1);
      TimesCommutes(n - 1, d);
    } else if d > 0 {
      TimesCommutes(0, d - 1);
    } else if n > 0 {
      TimesCommutes(n - 1, 0);
    }
  }

  lemma {:induction false} PowPositive(base: nat, exponent: nat)
    requires base > 0
    ensures Pow(base, exponent) > 0
  {
    if exponent > 0 {
      PowPositive(base, exponent - 1);
    }
  }

  /** Whole multiples of the divisor only add to the quotient. */
  lemma {:induction false} QuotAdd(n: nat, x: nat, d: nat)
    requires d > 0
    ensures Quot(Times(n, d) + x, d) == n + Quot(x, d)
    ensures Rem(Times(n, d) + x, d) == Rem(x, d)
  {
    if n > 0 {
      QuotAdd(n - 1, x, d);
      assert Times(n, d) + x - d == Times(n - 1, d) + x;
    }
  }

  lemma {:induction false} QuotBelow(x: nat, d: nat, n: nat)
    requires d > 0 && x < Times(n, d)
    ensures Quot(x, d) < n
  {
    if x >= d {
      QuotBelow(x - d, d, n - 1);
    }
  }

  lemma {:induction false} QuotRem(x: nat, d: nat)
    requires d > 0
    ensures x == Times(Quot(x, d), d) + Rem(x, d)
  {
    if x >= d {
      QuotRem(x - d, d);
    }
  }

  /** Dividing by `d` and then by `p` is dividing by their product. */
  lemma {:induction false} QuotQuot(k: nat, d: nat, p: nat)
    requires d > 0 && p > 0 && Times(p, d) > 0
    ensures Quot(Quot(k, d), p) == Quot(k, Times(p, d))
    ensures Rem(Quot(k, d), p) == Quot(Rem(k, Times(p, d)), d)
    ensures Rem(k, d) == Rem(Rem(k, Times(p, d)), d)
  {
    var product := Times(p, d);
    if k < product {
      QuotBelow(k, d, p);
    } else {
      QuotAdd(p, k - product, d);
      QuotQuot(k - product, d, p);
      assert Quot(k, d) == p + Quot(k - product, d);
    }
  }
}
