/** The bitwise operators on numbers, bit by bit, and the arithmetic they amount to. */
module Bits {

  type Byte = b: int | 0 <= b < 0x100

  function Pow2(n: nat): (p: nat)
    ensures p > 0
  {
    if n == 0 then 1 else 2 * Pow2(n - 1)
  }

  function BitOr(x: nat, y: nat): nat
    decreases x + y
  {
    if x == 0 && y == 0 then 0
    else (if x % 2 == 1 || y % 2 == 1 then 1 else 0) + 2 * BitOr(x / 2, y / 2)
  }

  function BitAnd(x: nat, y: nat): nat
    decreases x + y
  {
    if x == 0 && y == 0 then 0
    else (if x % 2 == 1 && y % 2 == 1 then 1 else 0) + 2 * BitAnd(x / 2, y / 2)
  }

  function BitXor(x: nat, y: nat): nat
    decreases x + y
  {
    if x == 0 && y == 0 then 0
    else (if x % 2 != y % 2 then 1 else 0) + 2 * BitXor(x / 2, y / 2)
  }

  /** The complement of a number of `n` bits. */
  function BitNot(x: nat, n: nat): nat {
    BitXor(x, Pow2(n) - 1)
  }

  // ----- powers of two

  lemma {:induction false} Pow2Adds(n: nat, w: nat)
    ensures Pow2(n + w) == Pow2(n) * Pow2(w)
    decreases w
  {
    if w > 0 {
      Pow2Adds(n, w - 1);
      assert Pow2(n + w) == 2 * Pow2(n + (w - 1));
      assert 2 * (Pow2(n) * Pow2(w - 1)) == Pow2(n) * (2 * Pow2(w - 1));
    }
  }

  lemma Pow2Grows(n: nat, m: nat)
    requires n <= m
    ensures Pow2(n) <= Pow2(m)
  {
    Pow2Adds(n, m - n);
    hide Pow2;
    assert Pow2(n) * Pow2(m - n) >= Pow2(n);
  }

  /** The powers that stand in the sources as constants. */
  lemma Powers()
    ensures Pow2(4) == 0x10 && Pow2(8) == 0x100 && Pow2(12) == 0x1000 && Pow2(16) == 0x1_0000
    ensures Pow2(20) == 0x10_0000 && Pow2(23) == 0x80_0000 && Pow2(24) == 0x100_0000 && Pow2(28) == 0x1000_0000
    ensures Pow2(32) == 0x1_0000_0000
  {
    assert Pow2(4) == 16;
    Pow2Adds(4, 4);
    Pow2Adds(8, 4);
    Pow2Adds(8, 8);
    Pow2Adds(16, 4);
    assert Pow2(23) == 8 * Pow2(20);
    Pow2Adds(16, 8);
    Pow2Adds(16, 12);
    Pow2Adds(16, 16);
  }

  // ----- or

  lemma {:induction false} OrWithZero(x: nat)
    ensures BitOr(0, x) == x
  {
    if x > 0 {
      OrWithZero(x / 2);
    }
  }

  /** Or-ing bits into positions that are still free adds them. */
  lemma {:induction false} OrIntoFreeBits(x: nat, y: nat, n: nat)
    requires x < Pow2(n)
    ensures BitOr(x, y * Pow2(n)) == x + y * Pow2(n)
    decreases n
  {
    if n == 0 {
      OrWithZero(y);
    } else {
      var p := Pow2(n - 1);
      assert y * Pow2(n) == 2 * (y * p);
      OrIntoFreeBits(x / 2, y, n - 1);
      var w := y * p;
      assert (2 * w) % 2 == 0 && (2 * w) / 2 == w;
    }
  }

  lemma {:induction false} OrCommutes(x: nat, y: nat)
    ensures BitOr(x, y) == BitOr(y, x)
    decreases x + y
  {
    if x > 0 || y > 0 {
      OrCommutes(x / 2, y / 2);
    }
  }

  /** The same with the field that is put in below the others. */
  lemma OrBelow(x: nat, y: nat, n: nat)
    requires x % Pow2(n) == 0 && y < Pow2(n)
    ensures BitOr(x, y) == x + y
  {
    hide BitOr, Pow2;
    var k := x / Pow2(n);
    assert x == k * Pow2(n);
    OrIntoFreeBits(y, k, n);
    OrCommutes(x, y);
  }

  // ----- and

  lemma {:induction false} AndWithZero(x: nat)
    ensures BitAnd(x, 0) == 0
  {
    if x > 0 {
      AndWithZero(x / 2);
    }
  }

  lemma HalfRemainder(x: nat, p: nat)
    requires p > 0
    ensures x % (2 * p) == x % 2 + 2 * (x / 2 % p)
  {
    var (q, r) := (x / 2 / p, x / 2 % p);
    assert x / 2 == p * q + r;
    var s := x % 2 + 2 * r;
    assert x == (2 * p) * q + s && 0 <= s < 2 * p;
    DivModUnique(x, 2 * p, q, s);
  }

  lemma DivModUnique(x: nat, d: nat, q: nat, r: nat)
    requires d > 0 && x == d * q + r && r < d
    ensures x % d == r && x / d == q
  {
    var (p, s) := (x / d, x % d);
    assert x == d * p + s;
    hide *;
    SameQuotient(d, p, s, q, r);
  }

  lemma SameQuotient(d: nat, p: nat, s: nat, q: nat, r: nat)
    requires r < d && s < d && d * p + s == d * q + r
    ensures p == q && s == r
  {
    if p < q {
      Surplus(d, p, q - p);
    } else if q < p {
      Surplus(d, q, p - q);
    }
  }

  lemma Surplus(d: nat, p: nat, k: nat)
    requires k > 0
    ensures d * (p + k) >= d * p + d
  {
    assert d * (p + k) == d * p + d * k && d * k >= d;
  }

  /** A mask of low bits keeps the remainder. */
  lemma {:induction false} AndLowBits(x: nat, n: nat)
    ensures BitAnd(x, Pow2(n) - 1) == x % Pow2(n)
    decreases n
  {
    if n == 0 {
      AndWithZero(x);
    } else {
      var p := Pow2(n - 1);
      AndLowBits(x / 2, n - 1);
      HalfRemainder(x, p);
      assert (2 * p - 1) % 2 == 1 && (2 * p - 1) / 2 == p - 1;
    }
  }

  /** The multiple of `p` that is not above `x`. */
  function RoundedDown(x: nat, p: nat): nat
    requires p > 0
  {
    x - x % p
  }

  lemma RoundedHalf(x: nat, p: nat)
    requires p > 0
    ensures RoundedDown(x, 2 * p) == 2 * RoundedDown(x / 2, p)
  {
    HalfRemainder(x, p);
    var (r, s) := (x / 2 % p, x % (2 * p));
    assert x == 2 * (x / 2) + x % 2 && s == x % 2 + 2 * r;
  }

  lemma AndEven(x: nat, y: nat)
    ensures BitAnd(x, 2 * y) == 2 * BitAnd(x / 2, y)
  {
    assert (2 * y) % 2 == 0 && (2 * y) / 2 == y;
  }

  lemma AndEvenMask(x: nat, p: nat, q: nat)
    requires p <= q
    ensures BitAnd(x, 2 * q - 2 * p) == 2 * BitAnd(x / 2, q - p)
  {
    AndEven(x, q - p);
    hide BitAnd;
    assert 2 * (q - p) == 2 * q - 2 * p;
  }

  lemma AndAllBits(x: nat, m: nat)
    requires x < Pow2(m)
    ensures Pow2(0) == 1 && BitAnd(x, Pow2(m) - 1) == RoundedDown(x, 1)
  {
    AndLowBits(x, m);
    assert Pow2(0) == 1;
    hide Pow2, BitAnd;
    SmallRemainder(x, Pow2(m));
  }

  lemma SmallRemainder(x: nat, d: nat)
    requires x < d
    ensures x % d == x
  {
  }

  /** A mask of bits `k` to `m` rounds a number of `m` bits down. */
  lemma {:induction false} AndHighBits(x: nat, k: nat, m: nat)
    requires k <= m && x < Pow2(m)
    ensures Pow2(k) <= Pow2(m) && BitAnd(x, Pow2(m) - Pow2(k)) == RoundedDown(x, Pow2(k))
    decreases k
  {
    Pow2Grows(k, m);
    if k == 0 {
      AndAllBits(x, m);
    } else {
      var (p, q) := (Pow2(k - 1), Pow2(m - 1));
      assert Pow2(k) == 2 * p && Pow2(m) == 2 * q;
      assert x / 2 < q;
      hide Pow2, BitAnd, RoundedDown;
      AndHighBits(x / 2, k - 1, m - 1);
      AndEvenMask(x, p, q);
      RoundedHalf(x, p);
    }
  }

  // ----- exclusive or

  lemma {:induction false} XorWithZero(x: nat)
    ensures BitXor(x, 0) == x
  {
    if x > 0 {
      XorWithZero(x / 2);
    }
  }

  /** Exclusive-oring one bit flips it. */
  lemma {:induction false} XorOneBit(x: nat, n: nat)
    ensures x / Pow2(n) % 2 == 1 ==> x >= Pow2(n)
    ensures BitXor(x, Pow2(n)) == if x / Pow2(n) % 2 == 1 then x - Pow2(n) else x + Pow2(n)
    decreases n
  {
    if n == 0 {
      XorWithZero(x / 2);
    } else {
      var p := Pow2(n - 1);
      assert Pow2(n) == 2 * p;
      hide *;
      XorOneBit(x / 2, n - 1);
      HalfQuotient(x, p);
      XorEven(x, p);
    }
  }

  lemma XorEven(x: nat, y: nat)
    ensures BitXor(x, 2 * y) == x % 2 + 2 * BitXor(x / 2, y)
  {
    assert (2 * y) % 2 == 0 && (2 * y) / 2 == y;
  }

  lemma HalfQuotient(x: nat, p: nat)
    requires p > 0
    ensures x / (2 * p) == x / 2 / p
  {
    HalfRemainder(x, p);
    var (q, r) := (x / 2 / p, x / 2 % p);
    assert x / 2 == p * q + r;
    DivModUnique(x, 2 * p, q, x % 2 + 2 * r);
  }

  lemma {:induction false} NotSubtracts(x: nat, n: nat)
    requires x < Pow2(n)
    ensures BitNot(x, n) == Pow2(n) - 1 - x
    decreases n
  {
    if n > 0 {
      var p := Pow2(n - 1);
      NotSubtracts(x / 2, n - 1);
      assert (2 * p - 1) % 2 == 1 && (2 * p - 1) / 2 == p - 1;
    }
  }
}
