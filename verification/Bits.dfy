/** Bitwise `and`, `or`, exclusive or and shifts on natural numbers, digit by digit, and powers of two. */
module Bits {
  function And(x: nat, y: nat): nat {
    if x == 0 then 0 else 2 * And(x / 2, y / 2) + (if x % 2 == 1 && y % 2 == 1 then 1 else 0)
  }

  function Pow2(k: nat): (r: nat)
    ensures r > 0
  {
    if k == 0 then 1 else 2 * Pow2(k - 1)
  }

  lemma Doubles(k: nat)
    ensures Pow2(k + 1) == 2 * Pow2(k)
  {
  }

  lemma {:induction false} PowGrows(a: nat, b: nat)
    requires a <= b
    ensures Pow2(a) <= Pow2(b) && (a < b ==> Pow2(a) < Pow2(b))
  {
    if a < b { PowGrows(a, b - 1); }
  }

  predicate IsPow2(n: nat) {
    n > 0 && (n == 1 || (n % 2 == 0 && IsPow2(n / 2)))
  }

  lemma {:induction false} IsPow2Means(n: nat) returns (k: nat)
    requires IsPow2(n)
    ensures n == Pow2(k)
  {
    if n == 1 {
      k := 0;
    } else {
      k := IsPow2Means(n / 2);
      k := k + 1;
    }
  }

  lemma {:induction false} Pow2Is(k: nat)
    ensures IsPow2(Pow2(k))
  {
    if k > 0 { Pow2Is(k - 1); }
  }

  lemma {:induction false} AndSelf(x: nat)
    ensures And(x, x) == x
  {
    if x > 0 { AndSelf(x / 2); }
  }

  /** `n & (n - 1) == 0` tells the powers of two. */
  lemma {:induction false} DropLowBit(n: nat)
    requires n > 0
    ensures And(n, n - 1) == 0 <==> IsPow2(n)
  {
    if n % 2 == 0 {
      assert (n - 1) / 2 == n / 2 - 1;
      DropLowBit(n / 2);
    } else {
      assert (n - 1) / 2 == n / 2;
      AndSelf(n / 2);
    }
  }

  lemma {:induction false} AndZero(v: nat)
    ensures And(v, 0) == 0
  {
    if v > 0 { AndZero(v / 2); }
  }

  /** `v & (2^k - 1)` is the remainder. */
  lemma {:induction false} Mask(v: nat, k: nat)
    ensures And(v, Pow2(k) - 1) == v % Pow2(k)
  {
    if k == 0 {
      AndZero(v);
    } else {
      var m := Pow2(k - 1);
      Mask(v / 2, k - 1);
      HalfMod(v, m);
      AndOdd(v, m);
    }
  }

  lemma AndOdd(v: nat, m: nat)
    requires m > 0
    ensures And(v, 2 * m - 1) == 2 * And(v / 2, m - 1) + v % 2
  {
    assert (2 * m - 1) / 2 == m - 1;
  }

  lemma HalfMod(v: nat, m: nat)
    requires m > 0
    ensures v % (2 * m) == 2 * (v / 2 % m) + v % 2
  {
    var q, r := v / 2 / m, v / 2 % m;
    assert v / 2 == q * m + r;
    assert v == q * (2 * m) + (2 * r + v % 2);
    DivUnique(v, 2 * m, q, 2 * r + v % 2);
  }

  lemma DivUnique(v: int, m: int, q: int, r: int)
    requires v == q * m + r && 0 <= r < m
    ensures v / m == q && v % m == r
  {
    var d := q - v / m;
    assert d * m == v % m - r;
    assert -m < v % m - r < m;
    assert d >= 1 ==> d * m >= m;
    assert d <= -1 ==> d * m <= -m;
  }

  /** `x & -x == x` in two's complement of width k tells the powers of two. */
  lemma {:induction false} LowBit(x: nat, k: nat)
    requires 0 < x < Pow2(k)
    ensures And(x, Pow2(k) - x) == x <==> IsPow2(x)
  {
    var p, a := Pow2(k - 1), x / 2;
    if x % 2 == 0 {
      assert (2 * p - x) / 2 == p - a;
      LowBit(a, k - 1);
    } else {
      assert (2 * p - x) / 2 == p - 1 - a;
      Complement(a, k - 1);
    }
  }

  /** A number and its complement share no bit. */
  lemma {:induction false} Complement(x: nat, k: nat)
    requires x < Pow2(k)
    ensures And(x, Pow2(k) - 1 - x) == 0
  {
    if x > 0 {
      assert (Pow2(k) - 1 - x) / 2 == Pow2(k - 1) - 1 - x / 2;
      Complement(x / 2, k - 1);
    }
  }

  function Or(x: nat, y: nat): nat {
    if x == 0 && y == 0 then 0 else 2 * Or(x / 2, y / 2) + (if x % 2 == 1 || y % 2 == 1 then 1 else 0)
  }

  lemma {:induction false} OrZero(x: nat)
    ensures Or(x, 0) == x && Or(0, x) == x && Or(x, x) == x
  {
    if x > 0 { OrZero(x / 2); }
  }

  /** `x >> k`, `x << k`, and the low k bits of x. */
  function Shr(x: nat, k: nat): nat {
    if k == 0 then x else Shr(x / 2, k - 1)
  }

  function Shl(x: nat, k: nat): nat {
    if k == 0 then x else 2 * Shl(x, k - 1)
  }

  function Low(x: nat, k: nat): nat {
    if k == 0 then 0 else 2 * Low(x / 2, k - 1) + x % 2
  }

  lemma OrStep(x: nat, y: nat)
    ensures Or(x, y) / 2 == Or(x / 2, y / 2)
    ensures Or(x, y) % 2 == if x % 2 == 1 || y % 2 == 1 then 1 else 0
  {
  }

  /** Shifting and cutting distribute over `or`. */
  lemma {:induction false} OrParts(x: nat, y: nat, k: nat)
    ensures Shr(Or(x, y), k) == Or(Shr(x, k), Shr(y, k))
    ensures Low(Or(x, y), k) == Or(Low(x, k), Low(y, k))
  {
    if k == 0 {
      assert Or(0, 0) == 0;
    } else {
      OrParts(x / 2, y / 2, k - 1);
      OrPart(x, y, k);
    }
  }

  lemma OrPart(x: nat, y: nat, k: nat)
    requires k > 0 && Shr(Or(x / 2, y / 2), k - 1) == Or(Shr(x / 2, k - 1), Shr(y / 2, k - 1))
    requires Low(Or(x / 2, y / 2), k - 1) == Or(Low(x / 2, k - 1), Low(y / 2, k - 1))
    ensures Shr(Or(x, y), k) == Or(Shr(x, k), Shr(y, k)) && Low(Or(x, y), k) == Or(Low(x, k), Low(y, k))
  {
    OrStep(x, y);
    LowStep(x, k);
    LowStep(y, k);
    OrOfDouble(Low(x / 2, k - 1), Low(y / 2, k - 1), x % 2, y % 2);
    hide Or;
    assert Low(Or(x, y), k) == 2 * Low(Or(x, y) / 2, k - 1) + Or(x, y) % 2;
  }

  lemma LowStep(x: nat, k: nat)
    requires k > 0
    ensures Low(x, k) == 2 * Low(x / 2, k - 1) + x % 2
  {
  }

  lemma OrOfDouble(x: nat, y: nat, a: nat, b: nat)
    requires a < 2 && b < 2
    ensures Or(2 * x + a, 2 * y + b) == 2 * Or(x, y) + if a == 1 || b == 1 then 1 else 0
  {
    assert (2 * x + a) / 2 == x && (2 * y + b) / 2 == y;
  }

  lemma {:induction false} Join(x: nat, k: nat)
    ensures x == Shl(Shr(x, k), k) + Low(x, k)
  {
    if k > 0 { Join(x / 2, k - 1); }
  }

  lemma {:induction false} LowBits(x: nat, k: nat)
    ensures Low(x, k) < Pow2(k) && Low(x, k) == And(x, Pow2(k) - 1)
    ensures x < Pow2(k) ==> Low(x, k) == x && Shr(x, k) == 0
  {
    if k == 0 {
      AndZero(x);
    } else {
      LowBits(x / 2, k - 1);
      AndOdd(x, Pow2(k - 1));
    }
  }

  lemma {:induction false} ShiftBack(x: nat, a: nat, b: nat)
    ensures Shr(Shl(x, a), a + b) == Shr(x, b) && Low(Shl(x, a), a) == 0
  {
    if a > 0 {
      ShiftBack(x, a - 1, b);
      assert Shl(x, a) / 2 == Shl(x, a - 1);
    }
  }

  lemma {:induction false} ShiftPart(x: nat, a: nat, b: nat)
    requires a >= b
    ensures Low(Shl(x, a), b) == 0 && Shr(Shl(x, a), b) == Shl(x, a - b)
  {
    if b > 0 {
      ShiftPart(x, a - 1, b - 1);
      assert Shl(x, a) / 2 == Shl(x, a - 1);
    }
  }

  lemma {:induction false} LowLow(x: nat, a: nat, b: nat)
    requires a >= b
    ensures Low(Low(x, a), b) == Low(x, b)
  {
    if b > 0 {
      LowLow(x / 2, a - 1, b - 1);
      assert Low(x, a) / 2 == Low(x / 2, a - 1);
    }
  }

  lemma {:induction false} ShrLow(x: nat, a: nat, b: nat)
    ensures Shr(Low(x, a + b), b) == Low(Shr(x, b), a)
  {
    if b > 0 {
      ShrLow(x / 2, a, b - 1);
      assert Low(x, a + b) / 2 == Low(x / 2, a + b - 1);
    }
  }

  function Xor(x: nat, y: nat): nat {
    if x == 0 && y == 0 then 0 else 2 * Xor(x / 2, y / 2) + (if x % 2 != y % 2 then 1 else 0)
  }

  lemma {:induction false} XorTwice(x: nat, y: nat)
    ensures Xor(Xor(x, y), y) == x
  {
    if x > 0 || y > 0 {
      XorTwice(x / 2, y / 2);
      assert Xor(x, y) / 2 == Xor(x / 2, y / 2);
    }
  }

  lemma {:induction false} XorBelow(x: nat, y: nat, k: nat)
    requires x < Pow2(k) && y < Pow2(k)
    ensures Xor(x, y) < Pow2(k)
  {
    if x > 0 || y > 0 { XorBelow(x / 2, y / 2, k - 1); }
  }

  lemma {:induction false} OrCommutes(x: nat, y: nat)
    ensures Or(x, y) == Or(y, x)
  {
    if x > 0 || y > 0 { OrCommutes(x / 2, y / 2); }
  }

  lemma {:induction false} OrAgain(x: nat, y: nat)
    ensures Or(Or(x, y), y) == Or(x, y)
  {
    if x > 0 || y > 0 {
      OrStep(x, y);
      OrAgain(x / 2, y / 2);
    }
  }

  /** Numbers that share no bit add up. */
  lemma {:induction false} OrAdds(x: nat, y: nat)
    requires And(x, y) == 0
    ensures Or(x, y) == x + y
  {
    if x > 0 { OrAdds(x / 2, y / 2); } else { OrZero(y); }
  }

  lemma {:induction false} ShrShr(x: nat, a: nat, b: nat)
    ensures Shr(Shr(x, a), b) == Shr(x, a + b)
  {
    if a > 0 { ShrShr(x / 2, a - 1, b); }
  }

  // ------------------------------------------------------------------------------------
  // Bit by bit
  // ------------------------------------------------------------------------------------

  predicate Bit(x: nat, k: nat) {
    if k == 0 then x % 2 == 1 else Bit(x / 2, k - 1)
  }

  lemma {:induction false} AndBits(x: nat, y: nat, k: nat)
    ensures Bit(And(x, y), k) <==> Bit(x, k) && Bit(y, k)
  {
    assert And(x, y) / 2 == And(x / 2, y / 2);
    if k > 0 { AndBits(x / 2, y / 2, k - 1); }
  }

  lemma {:induction false} OrBits(x: nat, y: nat, k: nat)
    ensures Bit(Or(x, y), k) <==> Bit(x, k) || Bit(y, k)
  {
    OrStep(x, y);
    if k > 0 { OrBits(x / 2, y / 2, k - 1); }
  }

  lemma {:induction false} XorBits(x: nat, y: nat, k: nat)
    ensures Bit(Xor(x, y), k) <==> Bit(x, k) != Bit(y, k)
  {
    assert Xor(x, y) / 2 == Xor(x / 2, y / 2);
    if k > 0 { XorBits(x / 2, y / 2, k - 1); }
  }

  lemma {:induction false} ShiftBits(x: nat, n: nat, k: nat)
    ensures Bit(Shr(x, n), k) <==> Bit(x, k + n)
    ensures Bit(Shl(x, n), k) <==> k >= n && Bit(x, k - n)
  {
    if n > 0 {
      ShiftBits(x / 2, n - 1, k);
      ShiftLeftBits(x, n, k);
    }
  }

  lemma {:induction false} ShiftLeftBits(x: nat, n: nat, k: nat)
    ensures Bit(Shl(x, n), k) <==> k >= n && Bit(x, k - n)
    decreases n
  {
    if n > 0 {
      assert Shl(x, n) / 2 == Shl(x, n - 1);
      if k > 0 { ShiftLeftBits(x, n - 1, k - 1); }
    }
  }
}
