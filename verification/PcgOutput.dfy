/** The PCG32 output function: for fixed top bits a bijection of the middle bits, so every 32-bit
    value is produced by exactly 2^32 of the 2^64 states. */
module PcgOutput {
  import opened Types
  import opened Modular
  import opened Pcg

  // ----- Bitwise operations -----

  function Xor(a: nat, b: nat): nat
    decreases a + b
  {
    if a == 0 && b == 0 then 0 else (a % 2 + b % 2) % 2 + 2 * Xor(a / 2, b / 2)
  }

  function Or(a: nat, b: nat): nat
    decreases a + b
  {
    if a == 0 && b == 0 then 0 else (if a % 2 + b % 2 > 0 then 1 else 0) + 2 * Or(a / 2, b / 2)
  }

  lemma DivDiv(x: nat, m: nat)
    requires 0 < m
    ensures x / (2 * m) == (x / 2) / m
  {
    var h := x / 2;
    assert h == m * (h / m) + h % m;
    assert (2 * m) * (h / m) == 2 * (m * (h / m)) by { MulAssoc(2, m, h / m); }
    QuotientUnique(x, 2 * m, h / m, 2 * (h % m) + x % 2);
  }

  lemma XorUnfold(a: nat, b: nat)
    ensures Xor(a, b) == (a % 2 + b % 2) % 2 + 2 * Xor(a / 2, b / 2)
  {
  }

  lemma {:induction false} XorDiv(a: nat, b: nat, k: nat)
    ensures Div(Xor(a, b), Pow2(k)) == Xor(Div(a, Pow2(k)), Div(b, Pow2(k)))
    decreases k
  {
    hide Xor;
    if k != 0 {
      var m := Pow2(k - 1);
      XorUnfold(a, b);
      assert Xor(a, b) / 2 == Xor(a / 2, b / 2);
      XorDiv(a / 2, b / 2, k - 1);
      DivDiv(a, m);
      DivDiv(b, m);
      DivDiv(Xor(a, b), m);
    }
  }

  lemma {:induction false} XorMod(a: nat, b: nat, k: nat)
    ensures Mod(Xor(a, b), Pow2(k)) == Xor(Mod(a, Pow2(k)), Mod(b, Pow2(k)))
    decreases k
  {
    hide Xor;
    if k == 0 {
      XorUnfold(0, 0);
      XorZero();
    } else {
      var m := Pow2(k - 1);
      XorUnfold(a, b);
      assert Xor(a, b) / 2 == Xor(a / 2, b / 2) && Xor(a, b) % 2 == (a % 2 + b % 2) % 2;
      HalfMod(Xor(a, b), m);
      HalfMod(a, m);
      HalfMod(b, m);
      XorMod(a / 2, b / 2, k - 1);
      var x, y := a % (2 * m), b % (2 * m);
      assert x / 2 == (a / 2) % m && y / 2 == (b / 2) % m && x % 2 == a % 2 && y % 2 == b % 2;
      XorUnfold(x, y);
    }
  }

  lemma XorZero()
    ensures Xor(0, 0) == 0
  {
  }

  lemma {:induction false} XorTwice(a: nat, b: nat)
    ensures Xor(Xor(a, b), b) == a
    decreases a + b
  {
    hide Xor;
    if a == 0 && b == 0 {
      XorZero();
    } else {
      XorTwice(a / 2, b / 2);
      XorUnfold(a, b);
      var x := Xor(a, b);
      assert x / 2 == Xor(a / 2, b / 2) && x % 2 == (a % 2 + b % 2) % 2;
      XorUnfold(x, b);
    }
  }

  lemma XorBound(a: nat, b: nat, k: nat)
    requires a < Pow2(k) && b < Pow2(k)
    ensures Xor(a, b) < Pow2(k)
  {
  }

  lemma OrUnfold(a: nat, b: nat)
    ensures Or(a, b) == (if a % 2 + b % 2 > 0 then 1 else 0) + 2 * Or(a / 2, b / 2)
  {
  }

  /** Or of disjoint bits is addition. */
  lemma {:induction false} OrDisjoint(a: nat, b: nat, k: nat)
    requires a < Pow2(k)
    ensures Or(a, b * Pow2(k)) == a + b * Pow2(k)
    decreases k
  {
    hide Or;
    if k == 0 {
      OrZero(b);
    } else {
      var m := Pow2(k - 1);
      var y := b * (2 * m);
      assert y == 2 * (b * m);
      OrUnfold(a, y);
      OrDisjoint(a / 2, b, k - 1);
    }
  }

  lemma {:induction false} OrZero(b: nat)
    ensures Or(0, b) == b
  {
    if b != 0 {
      OrZero(b / 2);
    }
  }

  lemma {:induction false} OrSame(b: nat)
    ensures Or(b, b) == b
  {
    if b != 0 {
      OrSame(b / 2);
    }
  }

  // ----- Rotation -----

  /** (x >> r) | (x << ((-r) & 31)) on 32 bits. */
  function Rotr(x: nat, r: nat): nat
    requires r < 32
  {
    Or(Div(x, Pow2(r)), Mul(x, Pow2((32 - r) % 32)) % U32)
  }

  function Rotl(v: nat, r: nat): nat
    requires r < 32
  {
    Mul(Mod(v, Pow2(32 - r)), Pow2(r)) + Div(v, Pow2(32 - r))
  }

  /** A rotation moves the low r bits above the others. */
  lemma RotrForm(hi: nat, lo: nat, r: nat)
    requires 0 < r < 32 && lo < Pow2(r) && hi < Pow2(32 - r)
    ensures Rotr(Mul(hi, Pow2(r)) + lo, r) == hi + Mul(lo, Pow2(32 - r))
  {
    hide Pow2, Or, Mul, Div;
    Pow2Add(r, 32 - r);
    Pow2Of64();
    RotrParts(hi, lo, Pow2(r), Pow2(32 - r));
    OrShifted(hi, lo, 32 - r);
  }

  lemma OrShifted(a: nat, b: nat, k: nat)
    requires a < Pow2(k)
    ensures Or(a, Mul(b, Pow2(k))) == a + Mul(b, Pow2(k))
  {
    OrDisjoint(a, b, k);
  }

  /** The two shifted words of a rotation. */
  lemma RotrParts(hi: nat, lo: nat, p: nat, q: nat)
    requires lo < p && 0 < q && p * q == U32
    ensures Div(Mul(hi, p) + lo, p) == hi
    ensures Mul(Mul(hi, p) + lo, q) % U32 == Mul(lo, q)
  {
    var x := Mul(hi, p) + lo;
    QuotientUnique(x, p, hi, lo);
    Expand(hi, p, lo, q);
    LowPart(lo, p, q);
    QuotientUnique(x * q, U32, hi, lo * q);
  }

  lemma Expand(hi: int, p: int, lo: int, q: int)
    ensures (hi * p + lo) * q == (p * q) * hi + lo * q
  {
  }

  lemma LowPart(lo: int, p: int, q: int)
    requires 0 <= lo < p && 0 < q
    ensures 0 <= lo * q < p * q
  {
  }

  /** Two parts below q and p, put together either way, stay below p * q. */
  lemma Together(hi: nat, lo: nat, p: nat, q: nat)
    requires hi < q && lo < p
    ensures Mul(hi, p) + lo < p * q && hi + Mul(lo, q) < p * q
  {
    MulMono(p, hi, q);
    MulMono(q, lo, p);
  }

  lemma QuotientBound(x: nat, p: nat, q: nat)
    requires 0 < p && x < p * q
    ensures Div(x, p) < q
  {
  }

  lemma RotrZero(x: nat)
    requires x < U32
    ensures Rotr(x, 0) == x && Rotl(x, 0) == x
  {
    hide Or;
    Pow2Of64();
    OrSame(x);
    assert Pow2(0) == 1;
    assert Mul(x, 1) == x && Div(x, 1) == x;
  }

  lemma Pow2Of32(r: nat)
    requires r < 32
    ensures Pow2(r) * Pow2(32 - r) == U32
  {
    Pow2Add(r, 32 - r);
    Pow2Of64();
  }

  /** Rotating back restores the value. */
  lemma RotlRotr(x: nat, r: nat)
    requires x < U32 && r < 32
    ensures Rotr(x, r) < U32 && Rotl(Rotr(x, r), r) == x
  {
    hide Pow2, Or, Rotr, Div, Mod, Mul;
    if r == 0 {
      RotrZero(x);
    } else {
      var p, q := Pow2(r), Pow2(32 - r);
      Pow2Of32(r);
      var hi, lo := Div(x, p), Mod(x, p);
      DivMod(x, p);
      QuotientBound(x, p, q);
      RotrForm(hi, lo, r);
      Together(hi, lo, p, q);
      Parts(hi, lo, q);
    }
  }

  lemma DivMod(x: nat, p: nat)
    requires 0 < p
    ensures x == Mul(Div(x, p), p) + Mod(x, p) && Mod(x, p) < p
  {
  }

  /** The parts of hi + lo * q. */
  lemma Parts(hi: nat, lo: nat, q: nat)
    requires hi < q
    ensures Mod(hi + Mul(lo, q), q) == hi && Div(hi + Mul(lo, q), q) == lo
  {
    QuotientUnique(hi + lo * q, q, lo, hi);
  }

  /** Every value is a rotation. */
  lemma RotrRotl(v: nat, r: nat)
    requires v < U32 && r < 32
    ensures Rotl(v, r) < U32 && Rotr(Rotl(v, r), r) == v
  {
    hide Pow2, Or, Rotr, Div, Mod, Mul;
    if r == 0 {
      RotrZero(v);
    } else {
      var p, q := Pow2(r), Pow2(32 - r);
      Pow2Of32(r);
      MulCommutes(p, q);
      var hi, lo := Mod(v, q), Div(v, q);
      DivMod(v, q);
      QuotientBound(v, q, p);
      RotrForm(hi, lo, r);
      Together(hi, lo, p, q);
    }
  }

  lemma MulCommutes(p: int, q: int)
    ensures p * q == q * p
  {
  }

  // ----- The output function -----

  const B14: nat := 0x4000
  const B18: nat := 0x4_0000
  const B27: nat := 0x800_0000
  const B59: nat := 0x800_0000_0000_0000

  lemma Powers()
    ensures Pow2(14) == B14 && Pow2(18) == B18 && Pow2(27) == B27 && Pow2(32) == U32
  {
    hide Pow2;
    Pow2Of8();
    Pow2Small();
    Pow2Add(8, 6);
    Pow2Add(14, 4);
    Pow2Add(18, 9);
    Pow2Of64();
  }

  lemma Pow2Small()
    ensures Pow2(4) == 16 && Pow2(6) == 64 && Pow2(9) == 512
  {
  }

  /** The xor-shifted value: bits 27 to 58 of (s >> 18) ^ s. */
  function XorShifted(s: nat): nat {
    (Xor(s / B18, s) / B27) % U32
  }

  /** One output, from the state before the step. */
  function Output(s: nat): nat
    requires s < W
  {
    Rotr(XorShifted(s), s / B59)
  }

  /** What the xor-shift makes of the middle bits, given the top five. */
  function Mix(top: nat, mid: nat): nat {
    Xor(mid, top * B14 + mid / B18)
  }

  function Unmix(top: nat, v: nat): nat {
    Xor(v, top * B14 + Xor(v / B18, top / 16))
  }

  function Assemble(top: nat, mid: nat, low: nat): nat {
    top * B59 + mid * B27 + low
  }

  lemma {:induction false} XorCommutes(a: nat, b: nat)
    ensures Xor(a, b) == Xor(b, a)
    decreases a + b
  {
    if a != 0 || b != 0 {
      XorCommutes(a / 2, b / 2);
    }
  }

  lemma XorDiv18(a: nat, b: nat)
    ensures Xor(a, b) / B18 == Xor(a / B18, b / B18)
  {
    hide Xor, Pow2;
    Powers();
    XorDiv(a, b, 18);
  }

  lemma XorDiv27(a: nat, b: nat)
    ensures Xor(a, b) / B27 == Xor(a / B27, b / B27)
  {
    hide Xor, Pow2;
    Powers();
    XorDiv(a, b, 27);
  }

  lemma XorMod32(a: nat, b: nat)
    ensures Xor(a, b) % U32 == Xor(a % U32, b % U32)
  {
    hide Xor, Pow2;
    Powers();
    XorMod(a, b, 32);
  }

  lemma Fields(top: nat, mid: nat, low: nat)
    requires top < 32 && mid < U32 && low < B27
    ensures var s := Assemble(top, mid, low);
            && s < W && s / B59 == top && s / B27 == top * U32 + mid && s % B27 == low
            && s / B18 / B27 == top * B14 + mid / B18
  {
  }

  /** The xor-shift depends on the top and middle bits only. */
  lemma XorShiftedMix(top: nat, mid: nat, low: nat)
    requires top < 32 && mid < U32 && low < B27
    ensures XorShifted(Assemble(top, mid, low)) == Mix(top, mid)
  {
    hide Xor, Assemble;
    Fields(top, mid, low);
    var s := Assemble(top, mid, low);
    var u := top * B14 + mid / B18;
    XorDiv27(s / B18, s);
    XorMod32(u, top * U32 + mid);
    XorCommutes(u, mid);
  }

  lemma UpperBits(top: nat, hi: nat)
    requires top < 32 && hi < B14
    ensures (top * B14 + hi) / B18 == top / 16
  {
  }

  lemma UnmixMix(top: nat, mid: nat)
    requires top < 32 && mid < U32
    ensures Unmix(top, Mix(top, mid)) == mid
  {
    hide Xor;
    var hi := mid / B18;
    XorDiv18(mid, top * B14 + hi);
    UpperBits(top, hi);
    XorTwice(hi, top / 16);
    XorTwice(mid, top * B14 + hi);
  }

  lemma MixUnmix(top: nat, v: nat)
    requires top < 32 && v < U32
    ensures Unmix(top, v) < U32 && Mix(top, Unmix(top, v)) == v
  {
    hide Xor, Pow2;
    Powers();
    var hi := Xor(v / B18, top / 16);
    XorBound(v / B18, top / 16, 14);
    UpperBits(top, hi);
    var q := top * B14 + hi;
    XorDiv18(v, q);
    XorTwice(v, q);
    XorBound(v, q, 32);
  }

  // ----- Equidistribution -----

  /** The j-th state whose output is o: j runs over the top five and the low 27 bits. */
  function Preimage(o: nat, j: nat): nat
    requires o < U32 && j < U32
  {
    var top := j / B27;
    Assemble(top, Unmix(top, Rotl(o, top)), j % B27)
  }

  lemma PreimageOutput(o: nat, j: nat)
    requires o < U32 && j < U32
    ensures Preimage(o, j) < W && Output(Preimage(o, j)) == o
    ensures Preimage(o, j) / B59 == j / B27 && Preimage(o, j) % B27 == j % B27
  {
    hide Xor, Pow2, Rotr, Rotl, Mix, Unmix, Assemble, XorShifted;
    var top, low := j / B27, j % B27;
    RotrRotl(o, top);
    MixUnmix(top, Rotl(o, top));
    Fields(top, Unmix(top, Rotl(o, top)), low);
    XorShiftedMix(top, Unmix(top, Rotl(o, top)), low);
  }

  /** Every state with output o is one of them. */
  lemma OutputPreimage(s: nat)
    requires s < W
    ensures Output(s) < U32
    ensures var j := s / B59 * B27 + s % B27; j < U32 && s == Preimage(Output(s), j)
  {
    hide Xor, Pow2, Rotr, Rotl, Mix, Unmix, XorShifted;
    var top, mid, low := s / B59, (s / B27) % U32, s % B27;
    StateFields(s);
    XorShiftedMix(top, mid, low);
    UnmixMix(top, mid);
    MixBound(top, mid);
    RotlRotr(Mix(top, mid), top);
  }

  lemma StateFields(s: nat)
    requires s < W
    ensures var top, mid, low := s / B59, (s / B27) % U32, s % B27;
            && top < 32 && s == Assemble(top, mid, low)
            && (top * B27 + low) / B27 == top && (top * B27 + low) % B27 == low
  {
  }

  lemma MixBound(top: nat, mid: nat)
    requires top < 32 && mid < U32
    ensures Mix(top, mid) < U32
  {
    hide Xor, Pow2;
    Powers();
    XorBound(mid, top * B14 + mid / B18, 32);
  }

  /** For fixed top five bits, equal outputs come from equal bits 27 to 58. */
  lemma OutputInjective(s: nat, t: nat)
    requires s < W && t < W && s / B59 == t / B59 && Output(s) == Output(t)
    ensures s / B27 == t / B27
  {
    hide Output, Preimage;
    OutputPreimage(s);
    OutputPreimage(t);
    PreimageMiddle(Output(s), s, t);
  }

  lemma PreimageMiddle(o: nat, s: nat, t: nat)
    requires s < W && t < W && s / B59 == t / B59 && o < U32
    requires s / B59 * B27 + s % B27 < U32 && t / B59 * B27 + t % B27 < U32
    requires s == Preimage(o, s / B59 * B27 + s % B27) && t == Preimage(o, t / B59 * B27 + t % B27)
    ensures s / B27 == t / B27
  {
    hide Unmix, Rotl;
    StateFields(s);
    StateFields(t);
    var top := s / B59;
    RotrRotl(o, top);
    MixUnmix(top, Rotl(o, top));
    Fields(top, Unmix(top, Rotl(o, top)), s % B27);
    Fields(top, Unmix(top, Rotl(o, top)), t % B27);
  }

  /** The steps of a period, counted from state s, whose output is o. */
  ghost function Hits(c: nat, s: nat, o: nat, n: nat): (h: set<nat>)
    requires s < W
  {
    if n == 0 then {}
    else
      StateBound(c, s, n - 1);
      Hits(c, s, o, n - 1) + if Output(After(c, s, n - 1)) == o then {n - 1} else {}
  }

  lemma {:induction false} HitsMember(c: nat, s: nat, o: nat, n: nat, i: nat)
    requires s < W
    ensures After(c, s, i) < W
    ensures i in Hits(c, s, o, n) <==> i < n && Output(After(c, s, i)) == o
    decreases n
  {
    hide Output, After;
    StateBound(c, s, i);
    if n != 0 {
      StateBound(c, s, n - 1);
      HitsMember(c, s, o, n - 1, i);
    }
  }

  /** The step at which the j-th state with output o comes up. */
  ghost function StepOf(c: nat, s: nat, o: nat, j: nat): (i: nat)
    requires c % 2 == 1 && s < W && o < U32 && j < U32
    ensures i < W && After(c, s, i) == Preimage(o, j)
  {
    PreimageOutput(o, j);
    FullPeriod(c, s, Preimage(o, j));
    var i: nat :| i < W && After(c, s, i) == Preimage(o, j);
    i
  }

  lemma StepsApart(c: nat, s: nat, o: nat, i: nat, j: nat)
    requires c % 2 == 1 && s < W && o < U32 && i < j < U32
    ensures StepOf(c, s, o, i) != StepOf(c, s, o, j)
  {
    hide Output, After, Preimage;
    PreimageOutput(o, i);
    PreimageOutput(o, j);
  }

  lemma StepIsHit(c: nat, s: nat, o: nat, j: nat)
    requires c % 2 == 1 && s < W && o < U32 && j < U32
    ensures StepOf(c, s, o, j) in Hits(c, s, o, W)
  {
    hide Output, After, Preimage, Hits;
    PreimageOutput(o, j);
    HitsMember(c, s, o, W, StepOf(c, s, o, j));
  }

  lemma HitIsStep(c: nat, s: nat, o: nat, i: nat) returns (j: nat)
    requires c % 2 == 1 && s < W && o < U32 && i in Hits(c, s, o, W)
    ensures j < U32 && StepOf(c, s, o, j) == i
  {
    hide Output, After, Preimage, Hits;
    HitsMember(c, s, o, W, i);
    var x := After(c, s, i);
    OutputPreimage(x);
    j := x / B59 * B27 + x % B27;
    var k := StepOf(c, s, o, j);
    if k < i {
      Distinct(c, s, k, i);
    } else if i < k {
      Distinct(c, s, i, k);
    }
  }

  /** In every period, whatever the seed and the odd increment, each 32-bit value is output exactly
      2^32 times. */
  lemma Equidistributed(c: nat, s: nat, o: nat)
    requires c % 2 == 1 && s < W && o < U32
    ensures |Hits(c, s, o, W)| == U32
  {
    hide Hits, StepOf, Image;
    var f: nat -> nat := (j: nat) => if j < U32 then StepOf(c, s, o, j) else 0;
    forall i: nat, j: nat | i < j < U32 ensures f(i) != f(j) {
      StepsApart(c, s, o, i, j);
    }
    ImageSize(f, U32);
    forall i | i in Image(f, U32) ensures i in Hits(c, s, o, W) {
      ImageMember(f, U32, i);
      var j: nat :| j < U32 && f(j) == i;
      StepIsHit(c, s, o, j);
    }
    forall i | i in Hits(c, s, o, W) ensures i in Image(f, U32) {
      var j := HitIsStep(c, s, o, i);
      assert f(j) == i;
      ImageMember(f, U32, i);
    }
    assert Image(f, U32) == Hits(c, s, o, W);
  }

  lemma SeedForm(stream: nat, seed: nat)
    requires seed < W && stream < W
    ensures (2 * stream) % W + 1 < W && ((2 * stream) % W + 1) % 2 == 1
    ensures forall c: nat :: c < W ==> Next(c, 0) == c
  {
  }

  // ----- The output bit by bit -----

  /** Bit i of x. */
  function Bit(x: nat, i: nat): nat {
    x / Pow2(i) % 2
  }

  lemma BitStep(x: nat, i: nat)
    ensures Bit(x, 0) == x % 2
    ensures Bit(x, i + 1) == Bit(x / 2, i)
  {
    DivDiv(x, Pow2(i));
  }

  lemma {:induction false} BitShift(x: nat, j: nat, i: nat)
    ensures Bit(Div(x, Pow2(j)), i) == Bit(x, i + j)
    decreases j
  {
    hide Bit;
    if j > 0 {
      BitShift(x / 2, j - 1, i);
      BitStep(x, i + j - 1);
      DivDiv(x, Pow2(j - 1));
    }
  }

  lemma {:induction false} BitXor(a: nat, b: nat, i: nat)
    ensures Bit(Xor(a, b), i) == (Bit(a, i) + Bit(b, i)) % 2
    decreases i
  {
    hide Bit, Xor;
    var x := Xor(a, b);
    XorUnfold(a, b);
    assert x / 2 == Xor(a / 2, b / 2) && x % 2 == (a % 2 + b % 2) % 2;
    if i == 0 {
      BitStep(a, 0);
      BitStep(b, 0);
      BitStep(x, 0);
    } else {
      BitXor(a / 2, b / 2, i - 1);
      BitStep(a, i - 1);
      BitStep(b, i - 1);
      BitStep(x, i - 1);
    }
  }

  lemma {:induction false} BitLow(x: nat, q: nat, i: nat)
    requires i < q
    ensures Bit(Mod(x, Pow2(q)), i) == Bit(x, i)
    decreases i
  {
    hide Bit;
    var m := Pow2(q - 1);
    var low := x % (2 * m);
    HalfMod(x, m);
    assert low / 2 == (x / 2) % m && low % 2 == x % 2;
    if i == 0 {
      BitStep(x, 0);
      BitStep(low, 0);
    } else {
      BitLow(x / 2, q - 1, i - 1);
      BitStep(x, i - 1);
      BitStep(low, i - 1);
    }
  }

  lemma HalfOfJoin(hi: nat, lo: nat, p: nat)
    ensures var x := hi + Mul(lo, 2 * p); x % 2 == hi % 2 && x / 2 == hi / 2 + Mul(lo, p)
  {
    MulAssoc(2, p, lo);
    assert lo * (2 * p) == 2 * (lo * p);
  }

  lemma {:induction false} BitJoin(hi: nat, lo: nat, q: nat, k: nat)
    requires hi < Pow2(q)
    ensures Bit(hi + Mul(lo, Pow2(q)), k) == if k < q then Bit(hi, k) else Bit(lo, k - q)
    decreases q
  {
    hide Bit;
    if q == 0 {
      assert Mul(lo, 1) == lo;
    } else {
      var p := Pow2(q - 1);
      var x := hi + Mul(lo, 2 * p);
      HalfOfJoin(hi, lo, p);
      if k == 0 {
        BitStep(x, 0);
        BitStep(hi, 0);
      } else {
        BitJoin(hi / 2, lo, q - 1, k - 1);
        BitStep(x, k - 1);
        BitStep(hi, k - 1);
      }
    }
  }

  lemma BitRotr(x: nat, r: nat, k: nat)
    requires x < U32 && r < 32 && k < 32
    ensures Bit(Rotr(x, r), k) == Bit(x, (k + r) % 32)
  {
    hide Bit, Pow2, Rotr, Div, Mod, Mul;
    if r == 0 {
      RotrZero(x);
    } else {
      var p, q := Pow2(r), Pow2(32 - r);
      var hi, lo := Div(x, p), Mod(x, p);
      Pow2Of32(r);
      DivMod(x, p);
      QuotientBound(x, p, q);
      RotrForm(hi, lo, r);
      BitJoin(hi, lo, 32 - r, k);
      if k < 32 - r {
        BitShift(x, r, k);
      } else {
        BitLow(x, r, k + r - 32);
      }
    }
  }

  lemma BitXorShifted(s: nat, m: nat)
    requires m < 32
    ensures Bit(XorShifted(s), m) == (Bit(s, 27 + m) + Bit(s, 45 + m)) % 2
  {
    hide Bit, Pow2, Xor;
    Powers();
    var x := Xor(s / B18, s);
    BitLow(x / B27, 32, m);
    BitShift(x, 27, m);
    BitXor(s / B18, s, m + 27);
    BitShift(s, 18, m + 27);
  }

  /** Bit k of the output: the sum, without carry, of two state bits chosen by the top five bits. */
  lemma OutputBits(s: nat, k: nat)
    requires s < W && k < 32
    ensures s / B59 < 32
    ensures var m := (k + s / B59) % 32;
            Bit(Output(s), k) == (Bit(s, 27 + m) + Bit(s, 45 + m)) % 2
  {
    hide Bit, Rotr, XorShifted;
    var m := (k + s / B59) % 32;
    ShiftedBound(s);
    BitRotr(XorShifted(s), s / B59, k);
    BitXorShifted(s, m);
  }

  lemma ShiftedBound(s: nat)
    requires s < W
    ensures s / B59 < 32 && XorShifted(s) < U32
  {
    hide Xor;
  }

  // ----- The generator object -----

  class Pcg32 {
    var state: nat
    var inc: nat

    ghost predicate Valid()
      reads this
    {
      state < W && inc < W && inc % 2 == 1
    }

    constructor (seed: nat, stream: nat)
      requires seed < W && stream < W
      ensures Valid()
      ensures inc == (2 * stream) % W + 1
      ensures state == ((inc + seed) % W * 6364136223846793005 + inc) % W
    {
      state, inc := 0, 1;
      new;
      SeedRng(seed, stream);
    }

    /** Seed the generator: the increment is made odd, and the seed is mixed in between two steps. */
    method SeedRng(seed: nat, stream: nat)
      requires seed < W && stream < W
      modifies this
      ensures Valid()
      ensures inc == (2 * stream) % W + 1
      ensures state == ((inc + seed) % W * 6364136223846793005 + inc) % W
    {
      hide Output, Bit;
      state := 0;
      SeedForm(stream, seed);
      inc := (2 * stream) % W + 1;
      var discarded := NextUint();
      assert state == inc;
      state := (state + seed) % W;
      discarded := NextUint();
    }

    /** One step. Bit k of the output is the sum, without carry, of bits 27 + m and 45 + m of the old
        state, where m is k rotated by the old state's top five bits. */
    method NextUint() returns (out: nat)
      requires Valid()
      modifies this`state
      ensures Valid()
      ensures out == Output(old(state)) && out < U32
      ensures forall k :: 0 <= k < 32 ==>
                var m := (k + old(state) / B59) % 32;
                Bit(out, k) == (Bit(old(state), 27 + m) + Bit(old(state), 45 + m)) % 2
      ensures state == (old(state) * 6364136223846793005 + inc) % W
    {
      hide Xor, Pow2, Rotr, XorShifted, Bit;
      var oldState := state;
      state := Next(inc, oldState);
      OutputPreimage(oldState);
      forall k | 0 <= k < 32
        ensures var m := (k + oldState / B59) % 32;
                Bit(Output(oldState), k) == (Bit(oldState, 27 + m) + Bit(oldState, 45 + m)) % 2
      {
        OutputBits(oldState, k);
      }
      out := Rotr(XorShifted(oldState), oldState / B59);
    }
  }
}
