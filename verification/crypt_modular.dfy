/** 64-bit arithmetic modulo the largest 64-bit prime, and the key exchange on it (lualib-src/lua-crypt.cpp). */
module Modular {
  const W: int := 0x1_0000_0000_0000_0000
  const P: int := 0xffff_ffff_ffff_ffc5
  const G: int := 5

  type Word = x: int | 0 <= x < W

  /** What a 64-bit operation leaves of its exact result. */
  function Wrap(x: int): Word { x % W }

  function Power(a: int, b: nat): int { if b == 0 then 1 else a * Power(a, b - 1) }

  /** Equal up to a multiple of P, and in range: the remainder. */
  lemma Remainder(m: int, x: int, k: int)
    requires 0 <= m < P && m + k * P == x
    ensures x % P == m
  {
    assert x / P == k by { Quotient(m, k); }
  }

  lemma Quotient(m: int, k: int)
    requires 0 <= m < P
    ensures (m + k * P) / P == k && (m + k * P) % P == m
  {
  }

  lemma Halve(a: int, b: int, half: int, bit: int)
    requires b == 2 * half + bit
    ensures a * b == (2 * a) * half + a * bit
  {
  }

  /** mul_mod_p: the exact product modulo P, for every b and every a up to P, although each step wraps at 64 bits. */
  method MulModP(a0: Word, b0: Word) returns (m: Word)
    requires a0 <= P
    ensures m == (a0 * b0) % P && m < P
  {
    var a: Word, b: Word := a0, b0;
    m := 0;
    ghost var k: int := 0;
    while b != 0
      invariant a <= P && m < P && m + a * b + k * P == a0 * b0
      decreases b
    {
      ghost var m1, a1, j1, j2 := m, a, 0, 0;
      if b % 2 == 1 {
        var t := Wrap(P - a);
        if m >= t {
          m := m - t;
          j1 := 1;
        } else {
          m := Wrap(m + a);
        }
      }
      assert m < P && m + j1 * P == m1 + a1 * (b % 2) by { Added(m1, a1, b % 2); }
      if a >= Wrap(P - a) {
        Doubled(a);
        a := Wrap(Wrap(a * 2) - P);
        j2 := 1;
      } else {
        a := Wrap(a * 2);
      }
      assert a <= P && a + j2 * P == 2 * a1 by { Doubled(a1); }
      StepSum(m1, a1, b, k, m, j1, a, j2, b / 2, b % 2);
      k := k + j1 + j2 * (b / 2);
      b := b / 2;
    }
    Remainder(m, a0 * b0, k);
  }

  lemma Added(m: Word, a: Word, bit: int)
    requires a <= P && m < P && 0 <= bit <= 1
    ensures Wrap(P - a) == P - a && a * bit == if bit == 1 then a else 0
    ensures m < P - a ==> Wrap(m + a) == m + a
  {
  }

  /** One round: what is left to multiply and what has been added still make up the product, up to multiples of P. */
  lemma StepSum(m: int, a: int, b: int, k: int, m': int, j1: int, a': int, j2: int, half: int, bit: int)
    requires b == 2 * half + bit && m' + j1 * P == m + a * bit && a' + j2 * P == 2 * a
    ensures m' + a' * half + (k + j1 + j2 * half) * P == m + a * b + k * P
  {
    Halve(a, b, half, bit);
    assert (a' + j2 * P) * half == a' * half + (j2 * half) * P;
    Distribute(k, j1, j2 * half);
  }

  lemma Doubled(a: int)
    requires 0 <= a <= P
    ensures Wrap(P - a) == P - a
    ensures 2 * a < P ==> Wrap(a * 2) == a * 2
    ensures 2 * a >= P ==> Wrap(Wrap(a * 2) - P) == 2 * a - P
  {
  }

  lemma ModMul(x: int, y: int)
    ensures ((x % P) * (y % P)) % P == (x * y) % P
  {
    var i, j, r, s := x / P, y / P, x % P, y % P;
    assert x == r + i * P && y == s + j * P;
    Products(r, s, i, j);
    var z := (r * s) / P;
    assert r * s == (r * s) % P + z * P;
    Remainder((r * s) % P, x * y, z + (i * s + j * r + i * j * P));
  }

  lemma Products(r: int, s: int, i: int, j: int)
    ensures (r + i * P) * (s + j * P) == r * s + (i * s + j * r + i * j * P) * P
  {
    assert (r + i * P) * (s + j * P) == r * s + r * (j * P) + (i * P) * s + (i * P) * (j * P);
    assert r * (j * P) == (j * r) * P && (i * P) * s == (i * s) * P && (i * P) * (j * P) == (i * j * P) * P;
    Distribute(i * s, j * r, i * j * P);
  }

  lemma Distribute(a: int, b: int, c: int)
    ensures (a + b + c) * P == a * P + b * P + c * P
  {
  }

  lemma {:induction false} PowerAdd(a: int, b: nat, c: nat)
    ensures Power(a, b + c) == Power(a, b) * Power(a, c)
    decreases b
  {
    if b > 0 {
      PowerAdd(a, b - 1, c);
      assert a * (Power(a, b - 1) * Power(a, c)) == (a * Power(a, b - 1)) * Power(a, c);
    }
  }

  lemma {:induction false} PowerMod(a: int, b: nat)
    ensures Power(a % P, b) % P == Power(a, b) % P
  {
    if b > 0 {
      PowerMod(a, b - 1);
      ModMul(a % P, Power(a % P, b - 1));
      ModMul(a, Power(a, b - 1));
      Idempotent(a);
    }
  }

  lemma Idempotent(a: int)
    ensures (a % P) % P == a % P
  {
  }

  lemma {:induction false} PowerPower(a: int, b: nat, c: nat)
    ensures Power(Power(a, b), c) == Power(a, b * c)
    decreases c
  {
    if c == 0 {
      assert b * c == 0;
    } else {
      PowerPower(a, b, c - 1);
      assert b * c == b + b * (c - 1);
      PowerAdd(a, b, b * (c - 1));
    }
  }

  /** What powmodp promises; it misses by not reducing a base that equals P when the exponent is 1. */
  function PowSpec(a: int, b: nat): int { if a == P && b == 1 then P else Power(a, b) % P }

  /** pow_mod_p: terminates for every positive exponent. */
  method PowModP(a: Word, b: Word) returns (t: Word)
    requires a <= P && b >= 1
    ensures t == PowSpec(a, b)
    decreases b
  {
    if b == 1 {
      PowerOne(a);
      return a;
    }
    var half := PowModP(a, b / 2);
    t := MulModP(half, half);
    Squared(a, b / 2, half);
    if b % 2 != 0 {
      t := MulModP(t, a);
    }
    PowerHalves(a, b, t);
  }

  /** The exponent from its half, and one more factor when it is odd. */
  lemma PowerHalves(a: int, b: nat, t: int)
    requires b >= 2
    requires var even := Power(a, b / 2 + b / 2) % P; t == if b % 2 != 0 then (even * a) % P else even
    ensures t == Power(a, b) % P
  {
    if b % 2 != 0 {
      var even := Power(a, b / 2 + b / 2);
      ModMul(even % P, a);
      ModMul(even, a);
      Idempotent(even);
      assert Power(a, b) == a * Power(a, b - 1);
      assert a * even == even * a;
    }
  }

  lemma PowerOne(a: int)
    requires 0 <= a <= P
    ensures PowSpec(a, 1) == a
  {
    assert Power(a, 1) == a * Power(a, 0) == a;
  }

  lemma Squared(a: int, b: nat, half: int)
    requires b >= 1 && half == PowSpec(a, b)
    ensures (half * half) % P == Power(a, b + b) % P
  {
    PowerAdd(a, b, b);
    ModMul(Power(a, b), Power(a, b));
    if a == P && b == 1 {
      assert Power(P, 1) == P * Power(P, 0) == P;
    }
  }

  /** powmodp: reduces a base above P first; exact for every 64-bit base and positive exponent but the pair (P, 1). */
  method PowModp(a0: Word, b: Word) returns (r: Word)
    requires b >= 1
    ensures r == if a0 == P && b == 1 then P else Power(a0, b) % P
    ensures r == Power(a0, b) % P <==> !(a0 == P && b == 1)
  {
    var a := a0;
    if a > P {
      a := a % P;
      PowerMod(a0, b);
    }
    r := PowModP(a, b);
    if a0 == P && b == 1 {
      assert Power(P, 1) == P * Power(P, 0) == P;
    }
  }

  /** ldhexchange: the public value of a secret; zero is refused. */
  method Exchange(x: Word) returns (ok: bool, r: Word)
    ensures ok <==> x != 0
    ensures ok ==> r == Power(G, x) % P && r != 0
  {
    if x == 0 { return false, 0; }
    ok := true;
    r := PowModp(G, x);
    PublicNonzero(x);
  }

  /** ldhsecret: the common secret of a public value and a secret. */
  method Secret(y: Word, x: Word) returns (ok: bool, r: Word)
    ensures ok <==> x != 0 && y != 0
    ensures ok ==> (r == Power(y, x) % P <==> !(y == P && x == 1)) && (y == P && x == 1 ==> r == P)
  {
    if y == 0 || x == 0 { return false, 0; }
    ok := true;
    r := PowModp(y, x);
  }

  /** Both sides of the exchange derive the same secret, for every pair of secrets. */
  lemma SameSecret(x: nat, y: nat)
    ensures Power(Power(G, x) % P, y) % P == Power(Power(G, y) % P, x) % P
  {
    PowerMod(Power(G, x), y);
    PowerMod(Power(G, y), x);
    PowerPower(G, x, y);
    PowerPower(G, y, x);
    assert x * y == y * x;
  }

  /** The inverse of G modulo P. */
  const INVERSE: int := 0x6666_6666_6666_664f

  /** No public value is zero, so the other side never refuses it. */
  lemma PublicNonzero(x: nat)
    ensures Power(G, x) % P != 0
  {
    PowerOfProduct(x);
    if Power(G, x) % P == 0 {
      ModMul(Power(G, x), Power(INVERSE, x));
      PowerMod(G * INVERSE, x);
      assert 0 * (Power(INVERSE, x) % P) == 0;
      PowerOfOne(x);
      assert false;
    }
  }

  lemma {:induction false} PowerOfProduct(x: nat)
    ensures Power(G * INVERSE, x) == Power(G, x) * Power(INVERSE, x)
  {
    if x > 0 {
      PowerOfProduct(x - 1);
      var p, q := Power(G, x - 1), Power(INVERSE, x - 1);
      assert (G * INVERSE) * (p * q) == (G * p) * (INVERSE * q);
    }
  }

  lemma {:induction false} PowerOfOne(x: nat)
    ensures Power((G * INVERSE) % P, x) == 1
  {
    assert (G * INVERSE) % P == 1;
    if x > 0 { PowerOfOne(x - 1); }
  }
}
