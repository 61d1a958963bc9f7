/** Remainders by a divisor, and bit masks. */
module Modular {

  /** The number of 64-bit values. */
  const W: nat := 0x1_0000_0000_0000_0000

  lemma {:induction false} ModAddMultiple(x: int, k: int, d: int)
    requires 0 < d
    ensures (x + d * k) % d == x % d
    decreases if k < 0 then -k else k
  {
    if k > 0 {
      ModAddMultiple(x, k - 1, d);
      ModPlusOne(x + d * (k - 1), d);
      assert x + d * k == x + d * (k - 1) + d;
    } else if k < 0 {
      ModAddMultiple(x, k + 1, d);
      ModPlusOne(x + d * k, d);
      assert x + d * (k + 1) == x + d * k + d;
    }
  }

  lemma ModPlusOne(x: int, d: int)
    requires 0 < d
    ensures (x + d) % d == x % d
  {
    var q, r := x / d, x % d;
    assert x + d == d * (q + 1) + r;
    QuotientUnique(x + d, d, q + 1, r);
  }

  lemma {:induction false} MulMono(d: int, a: int, b: int)
    requires 0 < d && a < b
    ensures d * a + d <= d * b
    decreases b - a
  {
    assert d * b == d * (b - 1) + d;
    if a < b - 1 {
      MulMono(d, a, b - 1);
    }
  }

  lemma DivUnique(d: int, q: int, r: int, q': int, r': int)
    requires 0 <= r < d && 0 <= r' < d && d * q + r == d * q' + r'
    ensures q == q' && r == r'
  {
    if q < q' {
      MulMono(d, q, q');
    } else if q' < q {
      MulMono(d, q', q);
    }
  }

  lemma DivNonNegative(x: nat, d: nat)
    requires 0 < d
    ensures 0 <= x / d
  {
  }

  /** Quotient, remainder and product of natural numbers. */
  function Div(x: nat, d: nat): nat
    requires 0 < d
  {
    DivNonNegative(x, d);
    x / d
  }

  function Mod(x: nat, d: nat): nat
    requires 0 < d
  {
    x % d
  }

  lemma MulNonNegative(a: int, b: int)
    requires 0 <= a && 0 <= b
    ensures 0 <= a * b
  {
  }

  function Mul(a: nat, b: nat): nat {
    MulNonNegative(a, b);
    a * b
  }

  lemma QuotientUnique(x: int, d: int, q: int, r: int)
    requires 0 < d && 0 <= r < d && x == d * q + r
    ensures x / d == q && x % d == r
  {
    DivUnique(d, q, r, x / d, x % d);
  }

  /** A remainder by a multiple of d keeps the remainder by d. */
  lemma ModMod(x: int, d: int, m: int)
    requires 0 < d && 0 < m
    ensures 0 < d * m
    ensures (x % (d * m)) % d == x % d
  {
    assert 0 < d * m;
    var w := d * m;
    assert x == w * (x / w) + x % w;
    assert w * (x / w) == d * (m * (x / w)) by {
      MulAssoc(d, m, x / w);
    }
    ModAddMultiple(x % w, m * (x / w), d);
  }

  lemma MulAssoc(a: int, b: int, c: int)
    ensures (a * b) * c == a * (b * c)
  {
  }

  /** Numbers less than d apart with equal remainders are equal. */
  lemma ModEqual(x: int, y: int, d: int)
    requires 0 < d && x % d == y % d && 0 <= x - y < d
    ensures x == y
  {
    var a, b := x / d, y / d;
    assert x - y == d * a - d * b;
    if a < b {
      MulMono(d, a, b);
    } else if b < a {
      MulMono(d, b, a);
    }
  }

  function Pow2(k: nat): (p: nat)
    ensures 0 < p
  {
    if k == 0 then 1 else 2 * Pow2(k - 1)
  }

  lemma {:induction false} Pow2Add(a: nat, b: nat)
    ensures Pow2(a + b) == Pow2(a) * Pow2(b)
  {
    if a != 0 {
      Pow2Add(a - 1, b);
      MulAssoc(2, Pow2(a - 1), Pow2(b));
    }
  }

  lemma Pow2Double(k: nat, p: nat)
    requires Pow2(k) == p
    ensures Pow2(k + k) == p * p
  {
    Pow2Add(k, k);
  }

  lemma Pow2Of64()
    ensures Pow2(32) == 0x1_0000_0000
    ensures Pow2(64) == 0x1_0000_0000_0000_0000
  {
    hide Pow2;
    Pow2Of8();
    Pow2Double(8, 256);
    Pow2Double(16, 0x1_0000);
    Pow2Double(32, 0x1_0000_0000);
  }

  lemma Pow2Of8()
    ensures Pow2(8) == 256
  {
  }

  /** Bitwise and. */
  function BitAnd(x: nat, y: nat): nat {
    if x == 0 || y == 0 then 0 else (x % 2) * (y % 2) + 2 * BitAnd(x / 2, y / 2)
  }

  lemma BitAndOdd(x: nat, m: nat)
    requires 0 < m
    ensures BitAnd(x, 2 * m - 1) == x % 2 + 2 * BitAnd(x / 2, m - 1)
  {
  }

  /** Masking with 2^k - 1 is the remainder by 2^k. */
  lemma {:induction false} MaskIsMod(x: nat, k: nat)
    ensures BitAnd(x, Pow2(k) - 1) == x % Pow2(k)
    decreases k
  {
    if k == 0 {
      assert x % 1 == 0;
    } else {
      var m := Pow2(k - 1);
      MaskIsMod(x / 2, k - 1);
      BitAndOdd(x, m);
      HalfMod(x, m);
    }
  }

  lemma HalfMod(x: nat, m: nat)
    requires 0 < m
    ensures x % (2 * m) == x % 2 + 2 * ((x / 2) % m)
  {
    var h := x / 2;
    assert x == 2 * h + x % 2;
    assert h == m * (h / m) + h % m;
    assert 2 * (m * (h / m)) == (2 * m) * (h / m);
    QuotientUnique(x, 2 * m, h / m, 2 * (h % m) + x % 2);
  }
}
