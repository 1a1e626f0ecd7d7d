/** Numbers as digit sequences, most significant digit first. */
module Positional {

  function Pow(b: nat, n: nat): (r: nat)
    ensures b > 0 ==> r > 0
  {
    if n == 0 then 1 else b * Pow(b, n - 1)
  }

  predicate Digits(d: seq<int>, base: nat) {
    forall i | 0 <= i < |d| :: 0 <= d[i] < base
  }

  function Value(d: seq<int>, base: nat): int {
    if d == [] then 0 else Value(d[..|d| - 1], base) * base + d[|d| - 1]
  }

  /** The shortest digits of v: none for zero. */
  function ToDigits(v: nat, base: nat): (d: seq<int>)
    requires base > 1
    ensures Digits(d, base)
    ensures d != [] ==> d[0] != 0
    ensures v > 0 ==> d != []
    decreases v
  {
    if v == 0 then [] else
      DivSmaller(v, base);
      ToDigits(v / base, base) + [v % base]
  }

  lemma DivSmaller(v: nat, base: nat)
    requires v > 0 && base > 1
    ensures v / base < v && (v / base == 0 ==> v % base != 0)
  {
    assert v == v / base * base + v % base;
    if v / base >= v {
      assert v / base * base >= v * 2 by { MulMono(v, v / base, 2, base); }
    }
  }

  lemma MulMono(a: nat, b: nat, c: nat, d: nat)
    requires a <= b && c <= d
    ensures a * c <= b * d
  {
    assert b * d == a * c + a * (d - c) + (b - a) * d;
    assert a * (d - c) >= 0 && (b - a) * d >= 0;
  }

  // ---- Values ----

  lemma {:induction false} ValueBound(d: seq<int>, base: nat)
    requires Digits(d, base) && base > 0
    ensures 0 <= Value(d, base) < Pow(base, |d|)
  {
    if d != [] {
      var init := d[..|d| - 1];
      ValueBound(init, base);
      MulMono(Value(init, base) + 1, Pow(base, |init|), base, base);
      assert (Value(init, base) + 1) * base == Value(init, base) * base + base;
    }
  }

  lemma {:induction false} ValueConcat(x: seq<int>, y: seq<int>, base: nat)
    ensures Value(x + y, base) == Value(x, base) * Pow(base, |y|) + Value(y, base)
  {
    if y == [] {
      assert x + y == x;
    } else {
      var init := y[..|y| - 1];
      assert (x + y)[..|x + y| - 1] == x + init;
      ValueConcat(x, init, base);
      Distribute(Value(x, base), Pow(base, |init|), Value(init, base), base);
    }
  }

  lemma Distribute(v: int, p: int, w: int, b: int)
    ensures (v * p + w) * b == v * (b * p) + w * b
  {
  }

  predicate AllZero(d: seq<int>) {
    forall i | 0 <= i < |d| :: d[i] == 0
  }

  lemma {:induction false} ZeroValue(d: seq<int>, base: nat)
    requires AllZero(d)
    ensures Value(d, base) == 0
  {
    if d != [] {
      ZeroValue(d[..|d| - 1], base);
    }
  }

  lemma LeadingZerosDrop(z: seq<int>, d: seq<int>, base: nat)
    requires AllZero(z)
    ensures Value(z + d, base) == Value(d, base)
  {
    ZeroValue(z, base);
    ValueConcat(z, d, base);
  }

  lemma {:induction false} ValueOfDigits(v: nat, base: nat)
    requires base > 1
    ensures Value(ToDigits(v, base), base) == v
    decreases v
  {
    if v > 0 {
      DivSmaller(v, base);
      ValueOfDigits(v / base, base);
      ValueSnoc(ToDigits(v / base, base), v % base, base);
      DivModParts(v, base);
    }
  }

  lemma ValueSnoc(d: seq<int>, r: int, base: nat)
    ensures Value(d + [r], base) == Value(d, base) * base + r
  {
    assert (d + [r])[..|d|] == d;
  }

  lemma DivModParts(v: nat, base: nat)
    requires base > 0
    ensures v / base * base + v % base == v
  {
  }

  /** Digits without a leading zero are the shortest digits of their value. */
  lemma {:induction false} DigitsOfValue(d: seq<int>, base: nat)
    requires base > 1 && Digits(d, base) && (d != [] ==> d[0] != 0)
    ensures Value(d, base) >= 0 && ToDigits(Value(d, base), base) == d
  {
    ValueBound(d, base);
    if d != [] {
      var init, last := d[..|d| - 1], d[|d| - 1];
      DigitsOfValue(init, base);
      ValueBound(init, base);
      DivModUnique(Value(init, base), base, last);
      if init == [] {
        assert d == [last];
      }
    }
  }

  lemma DivModUnique(q: nat, base: nat, r: nat)
    requires r < base
    ensures (q * base + r) / base == q && (q * base + r) % base == r
  {
    var n := q * base + r;
    var q', r' := n / base, n % base;
    assert n == q' * base + r';
    assert (q - q') * base == r' - r;
    if q > q' {
      MulMono(1, q - q', base, base);
    } else if q < q' {
      MulMono(1, q' - q, base, base);
    }
  }

  // ---- Powers ----

  lemma MulAssociative(a: int, b: int, c: int)
    ensures a * (b * c) == (a * b) * c
  {
  }

  lemma {:induction false} PowAdd(b: nat, m: nat, n: nat)
    ensures Pow(b, m + n) == Pow(b, m) * Pow(b, n)
  {
    if m > 0 {
      PowAdd(b, m - 1, n);
      MulAssociative(b, Pow(b, m - 1), Pow(b, n));
    }
  }

  lemma {:induction false} PowMul(b: nat, m: nat, n: nat)
    ensures Pow(b, m * n) == Pow(Pow(b, m), n)
  {
    if n > 0 {
      PowMul(b, m, n - 1);
      assert m * n == m + m * (n - 1);
      PowAdd(b, m, m * (n - 1));
    } else {
      assert m * n == 0;
    }
  }

  lemma {:induction false} PowBaseMono(a: nat, b: nat, n: nat)
    requires a <= b
    ensures Pow(a, n) <= Pow(b, n)
  {
    if n > 0 {
      PowBaseMono(a, b, n - 1);
      MulMono(a, b, Pow(a, n - 1), Pow(b, n - 1));
    }
  }

  lemma {:induction false} PowBaseStrict(a: nat, b: nat, n: nat)
    requires a < b && n > 0
    ensures Pow(a, n) < Pow(b, n)
  {
    if n == 1 {
      assert Pow(a, 1) == a * Pow(a, 0) && Pow(b, 1) == b * Pow(b, 0);
    } else {
      PowBaseStrict(a, b, n - 1);
      MulMono(a, a, Pow(a, n - 1), Pow(b, n - 1));
      MulMono(a + 1, b, Pow(b, n - 1), Pow(b, n - 1));
      assert (a + 1) * Pow(b, n - 1) == a * Pow(b, n - 1) + Pow(b, n - 1);
    }
  }

  lemma PowExpMono(b: nat, m: nat, n: nat)
    requires b > 0 && m <= n
    ensures Pow(b, m) <= Pow(b, n)
  {
    PowAdd(b, m, n - m);
    MulMono(Pow(b, m), Pow(b, m), 1, Pow(b, n - m));
  }

  lemma PowerAbove(a: nat, m: nat, p: nat, t: nat, k: nat)
    requires Pow(a, t) <= Pow(2, p) && k == p * m
    ensures Pow(Pow(a, m), t) <= Pow(2, k)
  {
    hide Pow;
    SwapPowers(a, m, t);
    PowBaseMono(Pow(a, t), Pow(2, p), m);
    PowMul(2, p, m);
  }

  lemma PowerBelow(b: nat, n: nat, q: nat, t: nat, l: nat)
    requires Pow(2, q) <= Pow(b, t) && l == q * n
    ensures Pow(2, l) <= Pow(Pow(b, n), t)
  {
    hide Pow;
    SwapPowers(b, n, t);
    PowBaseMono(Pow(2, q), Pow(b, t), n);
    PowMul(2, q, n);
  }

  /** A rational bound on a logarithm, cleared of its denominator. */
  lemma PowCompare(a: nat, b: nat, m: nat, n: nat, p: nat, q: nat, t: nat, k: nat, l: nat)
    requires t > 0 && Pow(a, t) <= Pow(2, p) && Pow(2, q) <= Pow(b, t)
    requires k == p * m && l == q * n && k <= l
    ensures Pow(a, m) <= Pow(b, n)
  {
    hide Pow;
    PowerAbove(a, m, p, t, k);
    PowerBelow(b, n, q, t, l);
    CompareThroughPowers(Pow(a, m), Pow(b, n), t, k, l);
  }

  lemma CompareThroughPowers(x: nat, y: nat, t: nat, k: nat, l: nat)
    requires t > 0 && k <= l && Pow(x, t) <= Pow(2, k) && Pow(2, l) <= Pow(y, t)
    ensures x <= y
  {
    PowExpMono(2, k, l);
    if x > y {
      PowBaseStrict(y, x, t);
      assert false;
    }
  }

  lemma SwapPowers(b: nat, m: nat, t: nat)
    ensures Pow(Pow(b, m), t) == Pow(Pow(b, t), m)
  {
    hide Pow;
    PowMul(b, m, t);
    PowMul(b, t, m);
    assert m * t == t * m;
  }
}
