/** Powers of two, and facts about remainders the solver needs spelled out. */
module Arith {
  function Pow2(n: nat): (p: nat)
    ensures p > 0
  {
    if n == 0 then 1 else 2 * Pow2(n - 1)
  }

  lemma AtLeastOne(k: int, m: nat)
    requires k >= 1
    ensures k * m >= m
  {
  }

  /** A remainder is the only number below the divisor that differs from the
      dividend by a multiple of it. */
  lemma ModUnique(x: nat, k: int, r: nat, m: nat)
    requires r < m && x == k * m + r
    ensures x % m == r
  {
    ModOf(x, k, r, m);
  }

  /** The same for a dividend and a multiple of either sign. */
  lemma ModOf(x: int, k: int, r: nat, m: nat)
    requires r < m && x == k * m + r
    ensures x % m == r
  {
    var q, s := x / m, x % m;
    assert x == q * m + s;
    assert (k - q) * m == s - r && (q - k) * m == r - s;
    if k > q {
      AtLeastOne(k - q, m);
    } else if q > k {
      AtLeastOne(q - k, m);
    }
  }

  lemma Turned(q: int, k: int, m: nat, r: nat)
    ensures q * m + r + k * m == (q + k) * m + r
  {
  }

  /** Adding a multiple of the divisor changes no remainder. */
  lemma ModTurn(v: int, k: int, m: nat)
    requires m > 0
    ensures (v + k * m) % m == v % m
  {
    var q, r := v / m, v % m;
    assert v == q * m + r;
    Turned(q, k, m, r);
    ModOf(v + k * m, q + k, r, m);
  }

  lemma ModSmall(x: nat, m: nat)
    requires x < m
    ensures x % m == x
  {
  }

  lemma DivMod(x: nat, m: nat)
    requires m > 0
    ensures x % m < m && (x / m) * m + x % m == x
  {
  }

  lemma DivUnique(x: nat, k: nat, r: nat, m: nat)
    requires r < m && x == k * m + r
    ensures x / m == k
  {
    ModUnique(x, k, r, m);
    DivMod(x, m);
    var d := x / m - k;
    assert d * m == 0;
    if d > 0 {
      AtLeastOne(d, m);
    } else if d < 0 {
      AtLeastOne(-d, m);
    }
  }

  /** Reading back a field of a number put together from three parts. */
  lemma FieldAt(w: nat, high: nat, x: nat, low: nat, k: nat, m: nat)
    requires low < k && x < m && w == (high * m + x) * k + low
    ensures w / k % m == x
  {
    DivUnique(w, high * m + x, low, k);
    ModUnique(high * m + x, high, x, m);
  }

}
