/** The nonlinear facts the rest of the project leans on, each proved once. */
module Arith {

  /** Amounts are 256-bit unsigned integers. */
  const TWO_256: nat := 0x1_0000000000000000_0000000000000000_0000000000000000_0000000000000000

  /** And wrap around. */
  function Wrap(x: int): (r: nat)
    ensures 0 <= x < TWO_256 ==> r == x
    ensures r < TWO_256
  {
    x % TWO_256
  }

  lemma WrapBelow(x: nat)
    ensures Wrap(x) <= x
  {
    DivMod(x, TWO_256);
    MulMono2(0, x / TWO_256, 0, TWO_256);
  }

  lemma WrapNegative(x: int)
    requires 0 - TWO_256 < x < 0
    ensures Wrap(x) == x + TWO_256
  {}

  lemma WrapOnce(x: int)
    requires TWO_256 <= x < TWO_256 + TWO_256
    ensures Wrap(x) == x - TWO_256
  {}

  lemma WrapTwice(x: nat, y: nat)
    ensures Wrap(Wrap(x) + y) == Wrap(x + y)
  {
    ModAdd(x, y, TWO_256);
  }

  lemma MulMono(a: int, b: int, c: nat)
    requires a <= b
    ensures a * c <= b * c
  {}

  lemma MulPos(a: int, d: nat)
    requires a >= 1
    ensures a * d >= d
  {
    MulMono(1, a, d);
  }

  lemma QuotientUnique(d: nat, q: int, r: nat, q': int, r': nat)
    requires r < d && r' < d && q * d + r == q' * d + r'
    ensures q == q' && r == r'
  {
    assert (q - q') * d == q * d - q' * d;
    if q > q' {
      MulPos(q - q', d);
      assert false;
    } else if q < q' {
      assert (q' - q) * d == q' * d - q * d;
      MulPos(q' - q, d);
      assert false;
    }
  }

  lemma DivMod(n: nat, d: nat)
    requires d > 0
    ensures n == (n / d) * d + n % d && 0 <= n % d < d
  {}

  lemma DivModUnique(n: nat, d: nat, q: nat, r: nat)
    requires d > 0 && r < d && n == q * d + r
    ensures n / d == q && n % d == r
  {
    DivMod(n, d);
    QuotientUnique(d, n / d, n % d, q, r);
  }

  lemma ModAdd(x: nat, y: nat, d: nat)
    requires d > 0
    ensures (x % d + y) % d == (x + y) % d
  {
    DivMod(x, d);
    DivMod(x % d + y, d);
    ModSum(x, y, d, x / d, x % d, (x % d + y) / d, (x % d + y) % d);
  }

  lemma ModSum(x: nat, y: nat, d: nat, q1: nat, r1: nat, q2: nat, r2: nat)
    requires x == q1 * d + r1 && r1 + y == q2 * d + r2 && r2 < d
    ensures (x + y) % d == r2
  {
    MulDistrib(d, q1, q2);
    DivModUnique(x + y, d, q1 + q2, r2);
  }

  lemma MulMod(q: nat, d: nat)
    requires d > 0
    ensures (q * d) % d == 0 && (q * d) / d == q
  {
    DivModUnique(q * d, d, q, 0);
  }

  lemma DivBelow(y: nat, p: nat, q: nat)
    requires p > 0 && y < p * q
    ensures y / p < q
  {
    DivMod(y, p);
    if y / p >= q {
      MulMono(q, y / p, p);
      assert false;
    }
  }

  lemma MulAssoc(a: int, b: int, c: int)
    ensures (a * b) * c == a * (b * c)
  {}

  lemma MulDistrib(a: int, b: int, c: int)
    ensures a * (b + c) == a * b + a * c
  {}

  lemma MulMono2(a: nat, b: nat, c: nat, d: nat)
    requires a <= b && c <= d
    ensures a * c <= b * d
  {
    MulMono(a, b, c);
    MulMono(c, d, b);
  }

  lemma CancelFactor(a: nat, b: nat, g: nat)
    requires g > 0 && a * g <= b * g
    ensures a <= b
  {
    if a > b { MulMono(b + 1, a, g); }
  }
}
