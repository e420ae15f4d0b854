/** Bitwise operators of the C code on unbounded naturals, and the arithmetic they amount to. */
module Bits {

  const TWO64: nat := 0x1_0000_0000_0000_0000

  function And(x: nat, y: nat): nat
    decreases x
  {
    if x == 0 then 0 else 2 * And(x / 2, y / 2) + (if x % 2 == 1 && y % 2 == 1 then 1 else 0)
  }

  function Or(x: nat, y: nat): nat
    decreases x + y
  {
    if x + y == 0 then 0 else 2 * Or(x / 2, y / 2) + (if x % 2 + y % 2 == 0 then 0 else 1)
  }

  function Shr(x: nat, s: nat): nat {
    if s == 0 then x else Shr(x / 2, s - 1)
  }

  function Shl(x: nat, s: nat): nat {
    if s == 0 then x else 2 * Shl(x, s - 1)
  }

  function Pow2(k: nat): (r: nat)
    ensures r > 0
  {
    if k == 0 then 1 else 2 * Pow2(k - 1)
  }

  lemma Powers()
    ensures Pow2(9) == 512 && Pow2(12) == 0x1000 && Pow2(21) == 0x20_0000 && Pow2(30) == 0x4000_0000
    ensures Pow2(39) == 0x80_0000_0000 && Pow2(40) == 0x100_0000_0000 && Pow2(64) == TWO64
  {
    PowThree(0); PowThree(3); PowThree(6); PowThree(9); PowThree(12); PowThree(15); PowThree(18);
    PowThree(21); PowThree(24); PowThree(27); PowThree(30); PowThree(33); PowThree(36); PowThree(37);
    PowThree(40); PowThree(43); PowThree(46); PowThree(49); PowThree(52); PowThree(55); PowThree(58); PowThree(61);
  }

  lemma PowThree(k: nat)
    ensures Pow2(k + 3) == 8 * Pow2(k)
  {
    assert Pow2(k + 3) == 2 * Pow2(k + 2) && Pow2(k + 2) == 2 * Pow2(k + 1);
  }

  /** Masking with a shifted mask, then shifting back, is shifting and masking. */
  lemma {:induction false} ShrAndShl(x: nat, m: nat, s: nat)
    ensures Shr(And(x, Shl(m, s)), s) == And(Shr(x, s), m)
  {
    if s > 0 {
      assert And(x, Shl(m, s)) / 2 == And(x / 2, Shl(m, s - 1));
      ShrAndShl(x / 2, m, s - 1);
    }
  }

  lemma {:induction false} AndEven(x: nat, y: nat)
    ensures And(x, 2 * y) == 2 * And(x / 2, y)
  {
    var z := 2 * y;
    assert z / 2 == y && z % 2 == 0;
    if x > 0 {
      assert And(x, z) == 2 * And(x / 2, z / 2);
    }
  }

  lemma {:induction false} AndShl(x: nat, m: nat, s: nat)
    ensures And(x, Shl(m, s)) == Shl(And(Shr(x, s), m), s)
  {
    if s > 0 {
      AndEven(x, Shl(m, s - 1));
      AndShl(x / 2, m, s - 1);
    }
  }

  lemma DivStep(x: nat, p: nat)
    requires p > 0
    ensures x / 2 / p == x / (2 * p)
    ensures 2 * (x / 2 % p) + x % 2 == x % (2 * p)
  {
    var q, r := x / 2 / p, x / 2 % p;
    assert x / 2 == q * p + r;
    assert x == q * (2 * p) + (2 * r + x % 2);
    Quotient(x, 2 * p, q, 2 * r + x % 2);
  }

  lemma Quotient(x: nat, d: nat, q: nat, r: nat)
    requires 0 < d && r < d && x == q * d + r
    ensures x / d == q && x % d == r
  {
    var q', r' := x / d, x % d;
    assert x == q' * d + r';
    assert (q - q') * d == r' - r;
    assert q - q' >= 1 ==> (q - q') * d >= d;
    assert q - q' <= -1 ==> (q - q') * d + d <= 0;
  }

  lemma {:induction false} ShrIsDiv(x: nat, s: nat)
    ensures Shr(x, s) == x / Pow2(s)
  {
    if s > 0 {
      ShrIsDiv(x / 2, s - 1);
      DivStep(x, Pow2(s - 1));
    }
  }

  lemma {:induction false} ShlIsMul(x: nat, s: nat)
    ensures Shl(x, s) == x * Pow2(s)
  {
    if s > 0 {
      ShlIsMul(x, s - 1);
    }
  }

  /** A mask of k ones keeps the remainder modulo 2^k. */
  lemma {:induction false} AndOnes(x: nat, k: nat)
    ensures And(x, Pow2(k) - 1) == x % Pow2(k)
    decreases k
  {
    if k == 0 {
      AndZero(x);
    } else {
      var p := Pow2(k - 1);
      assert (2 * p - 1) / 2 == p - 1 && (2 * p - 1) % 2 == 1;
      AndOnes(x / 2, k - 1);
      DivStep(x, p);
    }
  }

  lemma {:induction false} AndZero(x: nat)
    ensures And(x, 0) == 0
  {
    if x > 0 { AndZero(x / 2); }
  }

  lemma {:induction false} OrZero(x: nat)
    ensures Or(x, 0) == x && Or(0, x) == x
  {
    if x > 0 { OrZero(x / 2); }
  }

  lemma {:induction false} AndOverOr(x: nat, y: nat, m: nat)
    ensures And(Or(x, y), m) == Or(And(x, m), And(y, m))
    decreases x + y
  {
    if x + y > 0 {
      AndOverOr(x / 2, y / 2, m / 2);
      var o, a, b := Or(x, y), And(x, m), And(y, m);
      OrUnfold(x, y);
      AndUnfold(o, m);
      AndUnfold(x, m);
      AndUnfold(y, m);
      OrUnfold(a, b);
      SameNumber(And(o, m), Or(a, b));
    }
  }

  lemma SameNumber(l: nat, r: nat)
    requires l / 2 == r / 2 && l % 2 == r % 2
    ensures l == r
  {
  }

  lemma {:induction false} AndUnfold(x: nat, m: nat)
    ensures And(x, m) / 2 == And(x / 2, m / 2)
    ensures And(x, m) % 2 == if x % 2 == 1 && m % 2 == 1 then 1 else 0
  {
  }

  lemma {:induction false} OrUnfold(x: nat, y: nat)
    ensures Or(x, y) / 2 == Or(x / 2, y / 2)
    ensures Or(x, y) % 2 == if x % 2 == 1 || y % 2 == 1 then 1 else 0
  {
  }

  /** A k-bit mask and its complement split a k-bit word. */
  lemma {:induction false} AndComplement(x: nat, m: nat, k: nat)
    requires x < Pow2(k) && m < Pow2(k)
    ensures And(x, m) + And(x, Pow2(k) - 1 - m) == x
    decreases k
  {
    if k > 0 {
      var c := Pow2(k) - 1 - m;
      ComplementHalves(Pow2(k - 1), m, c);
      AndComplement(x / 2, m / 2, k - 1);
      AndUnfold(x, m);
      AndUnfold(x, c);
    }
  }

  lemma ComplementHalves(p: nat, m: nat, c: nat)
    requires m + c == 2 * p - 1
    ensures m / 2 + c / 2 == p - 1 && m % 2 + c % 2 == 1
  {
  }

  lemma {:induction false} OrIsZero(x: nat, y: nat)
    ensures Or(x, y) == 0 <==> x == 0 && y == 0
    decreases x + y
  {
    if x != 0 || y != 0 {
      OrIsZero(x / 2, y / 2);
    }
  }
}
