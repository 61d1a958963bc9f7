/** The simulator's PCG32 generator: the state recurrence visits every 64-bit state before it
    repeats, and every 32-bit output occurs equally often in a period. */
module Pcg {
  import opened Modular

  const MULTIPLIER: nat := 6364136223846793005

  // ----- The recurrence -----

  /** The state n steps later, before reduction to 64 bits. */
  function Iter(a: int, c: int, x: int, n: nat): int {
    if n == 0 then x else a * Iter(a, c, x, n - 1) + c
  }

  lemma {:induction false} IterAdd(a: int, c: int, x: int, m: nat, n: nat)
    ensures Iter(a, c, x, m + n) == Iter(a, c, Iter(a, c, x, m), n)
  {
    if n != 0 {
      IterAdd(a, c, x, m, n - 1);
    }
  }

  /** 2^k steps are one affine map with these coefficients. */
  function A(a: int, k: nat): int {
    if k == 0 then a else A(a, k - 1) * A(a, k - 1)
  }

  function C(a: int, c: int, k: nat): int {
    if k == 0 then c else C(a, c, k - 1) * (A(a, k - 1) + 1)
  }

  lemma {:induction false} IterPow(a: int, c: int, x: int, k: nat)
    ensures Iter(a, c, x, Pow2(k)) == A(a, k) * x + C(a, c, k)
    decreases k
  {
    if k == 0 {
      assert Iter(a, c, x, 1) == a * Iter(a, c, x, 0) + c;
    } else {
      var p := Pow2(k - 1);
      var y := Iter(a, c, x, p);
      IterAdd(a, c, x, p, p);
      IterPow(a, c, x, k - 1);
      IterPow(a, c, y, k - 1);
      Compose(A(a, k - 1), C(a, c, k - 1), x);
    }
  }

  lemma Compose(a: int, c: int, x: int)
    ensures a * (a * x + c) + c == (a * a) * x + c * (a + 1)
  {
  }

  /** With a = 1 modulo 4, the multiplier of 2^k steps is 1 modulo 2^(k+2). */
  lemma {:induction false} AForm(a: int, k: nat) returns (t: int)
    requires a % 4 == 1
    ensures A(a, k) == 1 + 4 * (Pow2(k) * t)
  {
    if k == 0 {
      t := a / 4;
    } else {
      var s := AForm(a, k - 1);
      var z := Pow2(k - 1) * s;
      t := s + 2 * (s * z);
      Square(z);
      AssocTwice(Pow2(k - 1), s, z);
      assert Pow2(k) * t == 2 * (Pow2(k - 1) * t);
      assert Pow2(k - 1) * t == Pow2(k - 1) * s + Pow2(k - 1) * (2 * (s * z));
    }
  }

  lemma Square(z: int)
    ensures (1 + 4 * z) * (1 + 4 * z) == 1 + 8 * z + 16 * (z * z)
  {
  }

  lemma AssocTwice(p: int, s: int, z: int)
    ensures p * (2 * (s * z)) == 2 * ((p * s) * z)
  {
  }

  /** With c odd, the increment of 2^k steps is an odd multiple of 2^k. */
  lemma {:induction false} CForm(a: int, c: int, k: nat) returns (d: int)
    requires a % 4 == 1 && c % 2 == 1
    ensures d % 2 == 1 && C(a, c, k) == Pow2(k) * d
  {
    if k == 0 {
      d := c;
    } else {
      var e := CForm(a, c, k - 1);
      var t := AForm(a, k - 1);
      var p := Pow2(k - 1);
      var u := 1 + 2 * (p * t);
      d := e * u;
      OddSuccessor(p * t);
      OddTimesOdd(e, u);
      assert A(a, k - 1) + 1 == 2 * u;
      DoubleBoth(p, e, u);
    }
  }

  lemma OddSuccessor(x: int)
    ensures (1 + 2 * x) % 2 == 1
  {
  }

  lemma DoubleBoth(p: int, e: int, u: int)
    ensures (2 * u) * (p * e) == (p * e) * (2 * u) == (2 * p) * (e * u)
  {
    MulAssoc(p, e, 2 * u);
    MulAssoc(2 * p, e, u);
  }

  lemma OddTimesOdd(x: int, y: int)
    requires x % 2 == 1 && y % 2 == 1
    ensures (x * y) % 2 == 1
  {
    var i, j := x / 2, y / 2;
    assert x == 2 * i + 1 && y == 2 * j + 1;
    assert x * y == 2 * (i * y + j) + 1 by {
      assert (2 * i + 1) * y == 2 * (i * y) + y by { MulAssoc(2, i, y); }
    }
  }

  lemma Regroup(p: int, t: int, e: int, x: int)
    ensures (1 + 4 * (p * t)) * x + p * e == x + p * (e + 4 * (t * x))
  {
  }

  /** 2^k steps move any state by an odd multiple of 2^k. */
  lemma Jump(a: int, c: int, x: int, k: nat) returns (d: int)
    requires a % 4 == 1 && c % 2 == 1
    ensures d % 2 == 1 && Iter(a, c, x, Pow2(k)) == x + Pow2(k) * d
  {
    hide Iter, Pow2, A, C;
    IterPow(a, c, x, k);
    var t := AForm(a, k);
    var e := CForm(a, c, k);
    d := e + 4 * (t * x);
    Regroup(Pow2(k), t, e, x);
    StillOdd(e, t * x);
  }

  lemma StillOdd(e: int, y: int)
    requires e % 2 == 1
    ensures (e + 4 * y) % 2 == 1
  {
  }

  lemma Distribute(p: int, e: int, f: int)
    ensures p * (e + f) == p * e + p * f
  {
  }

  /** Two moves by multiples of p are one. */
  lemma MoveTwice(p: int, x: int, e: int, y: int, f: int, z: int)
    requires y == x + p * e && z == y + p * f
    ensures z == x + p * (e + f)
  {
    Distribute(p, e, f);
  }

  /** m * 2^k steps move any state by 2^k times a number of the same parity as m. */
  lemma {:induction false} Jumps(a: int, c: int, x: int, k: nat, m: nat) returns (d: int)
    requires a % 4 == 1 && c % 2 == 1
    ensures d % 2 == m % 2 && Iter(a, c, x, Mul(Pow2(k), m)) == x + Pow2(k) * d
    decreases m
  {
    hide Pow2, Iter, Mul;
    var p := Pow2(k);
    if m == 0 {
      d := 0;
      NoSteps(p);
      Start(a, c, x);
    } else {
      var e := Jumps(a, c, x, k, m - 1);
      var steps := Mul(p, m - 1);
      var y := Iter(a, c, x, steps);
      var f := Jump(a, c, y, k);
      d := e + f;
      OneMore(p, m);
      IterAdd(a, c, x, steps, p);
      MoveTwice(p, x, e, y, f, Iter(a, c, x, steps + p));
    }
  }

  lemma NoSteps(p: nat)
    ensures Mul(p, 0) == 0 && p * 0 == 0
  {
  }

  lemma OneMore(p: nat, m: nat)
    requires 0 < m
    ensures Mul(p, m) == Mul(p, m - 1) + p
  {
    Distribute(p, m - 1, 1);
  }

  lemma Start(a: int, c: int, x: int)
    ensures Iter(a, c, x, 0) == x
  {
  }

  /** Every positive number is a power of two times an odd number. */
  lemma {:induction false} OddPart(n: nat) returns (k: nat, m: nat)
    requires 0 < n
    ensures n == Pow2(k) * m && m % 2 == 1
  {
    if n % 2 == 1 {
      k, m := 0, n;
    } else {
      k, m := OddPart(n / 2);
      MulAssoc(2, Pow2(k), m);
      k := k + 1;
    }
  }

  lemma {:induction false} Pow2Mono(i: nat, j: nat)
    requires i <= j
    ensures Pow2(i) <= Pow2(j)
    decreases j - i
  {
    if i < j {
      Pow2Mono(i, j - 1);
    }
  }

  /** An odd multiple of 2^k is not a multiple of 2^(k+1). */
  lemma OddMultiple(k: nat, d: int, q: int)
    requires d % 2 == 1
    ensures Pow2(k) * d != Pow2(k + 1) * q
  {
    var p := Pow2(k);
    if p * d == Pow2(k + 1) * q {
      assert Pow2(k + 1) == 2 * p;
      MulAssoc(p, 2, q);
      assert p * d == p * (2 * q);
      if d < 2 * q {
        MulMono(p, d, 2 * q);
      } else {
        MulMono(p, 2 * q, d);
      }
    }
  }

  /** Fewer than 2^64 steps never return to the same state modulo 2^64. */
  lemma NoReturn(a: int, c: int, x: int, n: nat, q: int)
    requires a % 4 == 1 && c % 2 == 1 && 0 < n < W
    ensures Iter(a, c, x, n) != x + W * q
  {
    hide Iter, Pow2;
    Pow2Of64();
    var k, m := OddPart(n);
    if k >= 64 {
      Pow2Mono(64, k);
      MulMono(Pow2(k), 0, m);
    }
    var d := Jumps(a, c, x, k, m);
    Pow2Add(k + 1, 63 - k);
    MulAssoc(Pow2(k + 1), Pow2(63 - k), q);
    OddMultiple(k, d, Pow2(63 - k) * q);
  }

  /** 2^64 steps return to the same state modulo 2^64. */
  lemma Returns(a: int, c: int, x: int) returns (q: int)
    requires a % 4 == 1 && c % 2 == 1
    ensures Iter(a, c, x, W) == x + W * q
  {
    hide Iter, Pow2;
    Pow2Of64();
    q := Jump(a, c, x, 64);
  }

  // ----- 64-bit states -----

  function Next(c: nat, s: nat): (s': nat)
    ensures s' < W
  {
    (s * MULTIPLIER + c) % W
  }

  /** The 64-bit state n steps after s. */
  function After(c: nat, s: nat, n: nat): nat {
    if n == 0 then s else Next(c, After(c, s, n - 1))
  }

  lemma {:induction false} AfterIter(c: nat, s: nat, n: nat)
    requires s < W
    ensures After(c, s, n) == Iter(MULTIPLIER, c, s, n) % W
  {
    if n == 0 {
      assert s % W == s;
    } else {
      var y := Iter(MULTIPLIER, c, s, n - 1);
      AfterIter(c, s, n - 1);
      ReduceFirst(y, c);
    }
  }

  lemma ReduceFirst(y: int, c: int)
    ensures ((y % W) * MULTIPLIER + c) % W == (MULTIPLIER * y + c) % W
  {
  }

  /** No state repeats within a period... */
  lemma Distinct(c: nat, s: nat, i: nat, j: nat)
    requires c % 2 == 1 && s < W && i < j < i + W
    ensures After(c, s, i) != After(c, s, j)
  {
    hide Iter, After;
    AfterIter(c, s, i);
    AfterIter(c, s, j);
    var x := Iter(MULTIPLIER, c, s, i);
    IterAdd(MULTIPLIER, c, s, i, j - i);
    var y := Iter(MULTIPLIER, c, s, j);
    NoReturn(MULTIPLIER, c, x, j - i, y / W - x / W);
  }

  /** ... and the period is 2^64. */
  lemma Period(c: nat, s: nat)
    requires c % 2 == 1 && s < W
    ensures After(c, s, W) == s
  {
    hide Iter, After;
    AfterIter(c, s, W);
    var q := Returns(MULTIPLIER, c, s);
    ModAddMultiple(s, q, W);
    assert s % W == s;
  }

  // ----- Counting -----

  /** The values of f on the first n numbers. */
  ghost function Image(f: nat -> nat, n: nat): set<nat> {
    if n == 0 then {} else Image(f, n - 1) + {f(n - 1)}
  }

  ghost predicate Injective(f: nat -> nat, n: nat) {
    forall i: nat, j: nat :: i < j < n ==> f(i) != f(j)
  }

  lemma {:induction false} ImageMember(f: nat -> nat, n: nat, y: nat)
    ensures y in Image(f, n) <==> exists i: nat :: i < n && f(i) == y
  {
    if n != 0 {
      ImageMember(f, n - 1, y);
    }
  }

  lemma {:induction false} ImageSize(f: nat -> nat, n: nat)
    requires Injective(f, n)
    ensures |Image(f, n)| == n
  {
    if n != 0 {
      ImageSize(f, n - 1);
      ImageMember(f, n - 1, f(n - 1));
    }
  }

  lemma SameSize(a: set<nat>, b: set<nat>)
    requires a <= b && |a| == |b|
    ensures a == b
  {
    assert |b - a| == |b| - |a|;
  }

  /** An injection of the numbers below n into themselves hits all of them. */
  lemma Pigeonhole(f: nat -> nat, n: nat, y: nat)
    requires Injective(f, n) && (forall i: nat :: i < n ==> f(i) < n) && y < n
    ensures exists i: nat :: i < n && f(i) == y
  {
    var id := (i: nat) => i;
    forall z | z in Image(f, n) ensures z in Image(id, n) {
      ImageMember(f, n, z);
      ImageMember(id, n, z);
      assert z < n && id(z) == z;
    }
    ImageSize(f, n);
    ImageSize(id, n);
    SameSize(Image(f, n), Image(id, n));
    ImageMember(id, n, y);
    assert id(y) == y;
    ImageMember(f, n, y);
  }

  /** From any seed and with any odd increment, the 2^64 states before the first repetition are all
      the 64-bit states. */
  lemma FullPeriod(c: nat, s: nat, y: nat)
    requires c % 2 == 1 && s < W && y < W
    ensures exists i: nat :: i < W && After(c, s, i) == y
  {
    hide After;
    var f := (i: nat) => After(c, s, i);
    forall i: nat, j: nat | i < j < W ensures f(i) != f(j) {
      Distinct(c, s, i, j);
    }
    forall i: nat | i < W ensures f(i) < W {
      StateBound(c, s, i);
    }
    Pigeonhole(f, W, y);
    var i: nat :| i < W && f(i) == y;
    assert After(c, s, i) == y;
  }

  lemma StateBound(c: nat, s: nat, i: nat)
    requires s < W
    ensures After(c, s, i) < W
  {
  }
}
