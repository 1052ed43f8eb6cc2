/** Bit tricks of blake3_impl.h, over naturals below 2^64: `And` and `Or` are the
    bitwise operators, defined one binary digit at a time. */
module Bits {
  import opened Arith

  const TWO_64: nat := 0x1_0000_0000_0000_0000

  function And(a: nat, b: nat): nat
  {
    if a == 0 || b == 0 then 0 else (if a % 2 == 1 && b % 2 == 1 then 1 else 0) + 2 * And(a / 2, b / 2)
  }

  function Or(a: nat, b: nat): nat
    decreases a + b
  {
    if a == 0 then b else if b == 0 then a
    else (if a % 2 == 1 || b % 2 == 1 then 1 else 0) + 2 * Or(a / 2, b / 2)
  }

  function Pow2(k: nat): (p: nat)
    ensures p > 0
  {
    if k == 0 then 1 else 2 * Pow2(k - 1)
  }

  /** u is a power of two. */
  predicate IsPow2(u: nat) {
    u == 1 || (u > 1 && u % 2 == 0 && IsPow2(u / 2))
  }

  /** The number of 1-bits of x. */
  function PopCount(x: nat): nat {
    if x == 0 then 0 else x % 2 + PopCount(x / 2)
  }

  /** The largest power of two that is at most n. */
  function FloorPow2(n: nat): (u: nat)
    requires n > 0
    ensures IsPow2(u) && u <= n < 2 * u
  {
    if n == 1 then 1 else 2 * FloorPow2(n / 2)
  }

  lemma {:induction false} FloorPow2Unique(n: nat, u: nat)
    requires n > 0 && IsPow2(u) && u <= n < 2 * u
    ensures FloorPow2(n) == u
  {
    if n > 1 {
      FloorPow2Unique(n / 2, u / 2);
    }
  }

  lemma {:induction false} Pow2IsPow2(k: nat)
    ensures IsPow2(Pow2(k))
  {
    if k > 0 { Pow2IsPow2(k - 1); }
  }

  lemma {:induction false} Pow2Add(i: nat, j: nat)
    ensures Pow2(i + j) == Pow2(i) * Pow2(j)
  {
    if i > 0 { Pow2Add(i - 1, j); }
  }

  /** Clearing the lowest set bit removes exactly one 1-bit. */
  lemma {:induction false} ClearLowestBit(x: nat)
    requires x > 0
    ensures And(x, x - 1) < x && PopCount(And(x, x - 1)) == PopCount(x) - 1
  {
    if x % 2 == 1 {
      AndSelf(x / 2);
    } else {
      ClearLowestBit(x / 2);
      assert (x - 1) / 2 == x / 2 - 1;
    }
  }

  lemma {:induction false} AndSelf(x: nat)
    ensures And(x, x) == x
  {
    if x > 0 { AndSelf(x / 2); }
  }

  lemma ModDouble(c: nat, h: nat)
    requires h > 0
    ensures c % (2 * h) == 2 * ((c / 2) % h) + c % 2
    ensures c / (2 * h) == (c / 2) / h
  {
    var q, r := (c / 2) / h, (c / 2) % h;
    DivMod(c / 2, h);
    assert q * (2 * h) == 2 * (q * h);
    DivModUnique(c, 2 * h, q, 2 * r + c % 2);
  }

  lemma AndOdd(a: nat, c: nat)
    ensures And(2 * a + 1, c) == c % 2 + 2 * And(a, c / 2)
  {}

  lemma AndEven(a: nat, c: nat)
    ensures And(c, 2 * a) == 2 * And(c / 2, a)
  {}

  /** Masking with u - 1 is the remainder by a power of two u. */
  lemma {:induction false} AndMaskIsMod(u: nat, c: nat)
    requires IsPow2(u)
    ensures And(u - 1, c) == c % u
  {
    if u > 1 {
      AndMaskIsMod(u / 2, c / 2);
      AndOdd(u / 2 - 1, c);
      ModDouble(c, u / 2);
    }
  }

  lemma DoubleFactor(a: nat, h: nat)
    ensures a * (2 * h) == 2 * (a * h)
  {}

  /** A mask of ones m above the low bits, k = m * p, selects the high part s = q * p of
      the number s + r. */
  lemma {:induction false} AndHighMask(p: nat, q: nat, r: nat, m: nat, k: nat, s: nat)
    requires IsPow2(p) && r < p && And(q, m) == q && k == m * p && s == q * p
    ensures And(s + r, k) == s
  {
    if p > 1 {
      var h := p / 2;
      DoubleFactor(m, h);
      DoubleFactor(q, h);
      AndHighMask(h, q, r / 2, m, m * h, q * h);
      assert (s + r) / 2 == q * h + r / 2;
      AndEven(m * h, s + r);
    }
  }

  lemma {:induction false} AndFullMask(x: nat, j: nat)
    requires x < Pow2(j)
    ensures And(x, Pow2(j) - 1) == x
  {
    if j > 0 {
      AndFullMask(x / 2, j - 1);
      assert (Pow2(j) - 1) / 2 == Pow2(j - 1) - 1;
    }
  }

  lemma OrOne(x: nat)
    ensures Or(x, 1) == if x % 2 == 1 then x else x + 1
  {
    if x > 0 { assert Or(x / 2, 0) == x / 2; }
  }

  /** The portable popcnt loop. */
  method PopCnt(x: nat) returns (count: nat)
    requires x < TWO_64
    ensures count == PopCount(x)
  {
    var y := x;
    count := 0;
    while y != 0
      invariant count + PopCount(y) == PopCount(x)
      decreases y
    {
      ClearLowestBit(y);
      count := count + 1;
      y := And(y, y - 1);
    }
  }

  /** y is x shifted right by c bits. */
  ghost predicate IsShift(x: nat, c: nat, y: nat) {
    Pow2(c) * y <= x < Pow2(c) * (y + 1)
  }

  /** One halving step of highest_one: if any of the i bits above bit i is set, shift by i. */
  method HighestOneStep(ghost x: nat, y: nat, c: nat, i: nat, mask: nat) returns (y': nat, c': nat)
    requires 0 < y < Pow2(i + i) && IsShift(x, c, y)
    requires mask == (Pow2(i) - 1) * Pow2(i)
    ensures 0 < y' < Pow2(i) && IsShift(x, c', y')
  {
    HighPart(y, i, Pow2(i), mask);
    if And(y, mask) != 0 {
      y', c' := y / Pow2(i), c + i;
      ShiftMore(x, c, y, i);
    } else {
      y', c' := y, c;
    }
  }

  lemma ShiftMore(x: nat, c: nat, y: nat, i: nat)
    requires IsShift(x, c, y)
    ensures IsShift(x, c + i, y / Pow2(i))
  {
    var a, p := Pow2(c), Pow2(i);
    assert Pow2(c + i) == a * p by { Pow2Add(c, i); }
    var q := y / p;
    assert q * p <= y < q * p + p by { DivMod(y, p); }
    ScaleBounds(a, p, q, y, x);
  }

  lemma ScaleBounds(c: nat, p: nat, q: nat, y: nat, x: nat)
    requires q * p <= y < q * p + p && c * y <= x < c * (y + 1)
    ensures (c * p) * q <= x < (c * p) * (q + 1)
  {
    assert (c * p) * q == (q * p) * c;
    assert (c * p) * (q + 1) == (q * p + p) * c;
    MulMono(q * p, y, c);
    MulMono(y + 1, q * p + p, c);
  }

  lemma HighPart(y: nat, i: nat, p: nat, mask: nat)
    requires p == Pow2(i) && y < Pow2(i + i) && mask == (p - 1) * p
    ensures And(y, mask) == 0 ==> y < p
    ensures And(y, mask) != 0 ==> 0 < y / p < p
  {
    hide And, Pow2, IsPow2;
    Pow2Add(i, i);
    Pow2IsPow2(i);
    QuotientBounds(y, p);
    AndFullMask(y / p, i);
    DivMod(y, p);
    AndHighMask(p, y / p, y % p, p - 1, mask, y / p * p);
  }

  lemma QuotientBounds(y: nat, p: nat)
    requires p > 0 && y < p * p
    ensures y / p < p
    ensures y / p * p == 0 ==> y < p
    ensures y / p * p != 0 ==> y / p > 0
  {
    DivBelow(y, p, p);
    DivMod(y, p);
  }

  lemma SmallPowers()
    ensures Pow2(1) == 2 && Pow2(2) == 4 && Pow2(4) == 16 && Pow2(8) == 256
    ensures Pow2(16) == 0x1_0000 && Pow2(32) == 0x1_0000_0000 && Pow2(64) == TWO_64
  {
    assert Pow2(8) == 256;
    Pow2Add(8, 8);
    Pow2Add(16, 16);
    Pow2Add(32, 32);
  }

  /** Index of the highest set bit, by binary search over masks. */
  method HighestOne(x: nat) returns (c: nat)
    requires 0 < x < TWO_64
    ensures Pow2(c) == FloorPow2(x) && c < 64
  {
    hide IsPow2, FloorPow2;
    var y := x;
    c := 0;
    SmallPowers();
    y, c := HighestOneStep(x, y, c, 32, 0xffff_ffff_0000_0000);
    y, c := HighestOneStep(x, y, c, 16, 0xffff_0000);
    y, c := HighestOneStep(x, y, c, 8, 0xff00);
    y, c := HighestOneStep(x, y, c, 4, 0xf0);
    y, c := HighestOneStep(x, y, c, 2, 0xc);
    y, c := HighestOneStep(x, y, c, 1, 0x2);
    assert y == 1;
    Pow2IsPow2(c);
    FloorPow2Unique(x, Pow2(c));
    if c >= 64 {
      Pow2Mono(64, c);
      assert false;
    }
  }

  lemma {:induction false} Pow2Mono(i: nat, j: nat)
    requires i <= j
    ensures Pow2(i) <= Pow2(j)
    decreases j
  {
    if i < j { Pow2Mono(i, j - 1); }
  }

  /** Largest power of two at most x, or 1 when x is 0. */
  method RoundDownToPowerOf2(x: nat) returns (u: nat)
    requires x < TWO_64
    ensures u == if x == 0 then 1 else FloorPow2(x)
  {
    OrOne(x);
    var c := HighestOne(Or(x, 1));
    u := Pow2(c);
    if x > 0 {
      FloorPow2Unique(x, u);
    }
  }
}
