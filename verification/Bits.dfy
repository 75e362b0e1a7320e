/** Masking, on numbers: x & m for naturals, and what it is for the masks that
    powers of two give. */
module Bits {
  function And(x: nat, m: nat): (r: nat)
    ensures r <= m
  {
    if m == 0 then 0 else (x % 2) * (m % 2) + 2 * And(x / 2, m / 2)
  }

  function Power2(k: nat): (p: nat)
    ensures p >= 1
  {
    if k == 0 then 1 else 2 * Power2(k - 1)
  }

  ghost predicate IsPower2(n: int) {
    exists k: nat :: n == Power2(k)
  }

  /** The low bits are the remainder. */
  lemma {:induction false} AndIsRemainder(x: nat, k: nat)
    ensures And(x, Power2(k) - 1) == x % Power2(k)
  {
    hide And;
    if k > 0 {
      AndIsRemainder(x / 2, k - 1);
      assert Power2(k) == 2 * Power2(k - 1);
      hide Power2;
      OneMoreBit(x, Power2(k - 1), Power2(k));
    } else {
      NoBits(x);
    }
  }

  lemma NoBits(x: nat)
    ensures And(x, 0) == 0 == x % 1
  {
  }

  lemma OneMoreBit(x: nat, p: nat, q: nat)
    requires p >= 1 && q == 2 * p && And(x / 2, p - 1) == (x / 2) % p
    ensures And(x, q - 1) == x % q
  {
    hide And;
    AndDouble(x, p - 1);
    DoubleRemainder(x, p);
  }

  /** A mask with its lowest bit set. */
  lemma AndDouble(x: nat, m: nat)
    ensures And(x, 2 * m + 1) == x % 2 + 2 * And(x / 2, m)
  {
    assert (2 * m + 1) % 2 == 1 && (2 * m + 1) / 2 == m;
  }

  lemma DoubleRemainder(x: nat, p: nat)
    requires p >= 1
    ensures x % (2 * p) == x % 2 + 2 * ((x / 2) % p)
  {
    var q, r := (x / 2) / p, (x / 2) % p;
    Divided(x / 2, p, q, r);
    assert x == 2 * (p * q + r) + x % 2;
    var s := x % 2 + 2 * r;
    assert x == (2 * p) * q + s by {
      assert 2 * (p * q) == (2 * p) * q;
    }
    RemainderIs(x, 2 * p, q, s);
  }

  lemma Divided(x: nat, p: nat, q: nat, r: nat)
    requires p >= 1 && q == x / p && r == x % p
    ensures x == p * q + r && r < p
  {
  }

  lemma Scaled(d: nat, a: nat, b: nat)
    requires a < b
    ensures d * a + d <= d * b
  {
    assert d * b == d * a + d * (b - a);
    assert d * (b - a) == d * (b - a - 1) + d;
  }

  lemma SameQuotient(d: nat, q: nat, s: nat, q': nat, s': nat)
    requires d * q + s == d * q' + s' && s < d && s' < d
    ensures q == q' && s == s'
  {
    if q < q' {
      Scaled(d, q, q');
    } else if q' < q {
      Scaled(d, q', q);
    }
  }

  lemma RemainderIs(x: nat, d: nat, q: nat, s: nat)
    requires d >= 1 && x == d * q + s && s < d
    ensures x % d == s
  {
    var q', s' := x / d, x % d;
    Divided(x, d, q', s');
    SameQuotient(d, q, s, q', s');
  }

  predicate Aligned(x: int, a: int) {
    a > 0 && x % a == 0
  }

  /** Rounding up to a multiple, as the allocator does it. */
  lemma RoundedUp(x: nat, a: nat)
    requires IsPower2(a)
    ensures var m := And(x, a - 1);
      if m == 0 then Aligned(x, a) else Aligned(x - m + a, a) && x < x - m + a < x + a
  {
    hide And, Aligned;
    var q, m := MaskParts(x, a);
    if m == 0 {
      ZeroRemainder(x, a, q);
    } else {
      NextMultiple(x, a, q, m);
    }
  }

  lemma MaskParts(x: nat, a: nat) returns (q: nat, m: nat)
    requires IsPower2(a)
    ensures a >= 1 && m == And(x, a - 1) && x == a * q + m && m < a
  {
    var k :| a == Power2(k);
    AndIsRemainder(x, k);
    hide *;
    q, m := Divide(x, a);
  }

  lemma Divide(x: nat, a: nat) returns (q: nat, m: nat)
    requires a >= 1
    ensures m == x % a && x == a * q + m && m < a
  {
    q, m := x / a, x % a;
  }

  lemma ZeroRemainder(x: nat, a: nat, q: nat)
    requires a >= 1 && x == a * q + 0
    ensures Aligned(x, a)
  {
    RemainderIs(x, a, q, 0);
  }

  lemma NextMultiple(x: nat, a: nat, q: nat, m: nat)
    requires a >= 1 && x == a * q + m && m < a
    ensures Aligned(x - m + a, a)
  {
    var p := a * q;
    assert a * (q + 1) == p + a;
    RemainderIs(x - m + a, a, q + 1, 0);
  }

  lemma DoublePower2(n: nat)
    ensures IsPower2(n) ==> IsPower2(2 * n)
  {
    if k: nat :| n == Power2(k) {
      assert 2 * n == Power2(k + 1);
    }
  }

  /** A mask that is no power of two less one has a zero below its top bit. */
  lemma {:induction false} ZeroBit(m: nat) returns (k: nat)
    requires !IsPower2(m + 1)
    ensures And(Power2(k), m) == 0 && Power2(k) < m
  {
    assert m != 0 by {
      assert Power2(0) == 1;
    }
    if m % 2 == 0 {
      k := 0;
      AndZero(m / 2);
    } else {
      DoublePower2(m / 2 + 1);
      assert 2 * (m / 2 + 1) == m + 1;
      k := ZeroBit(m / 2);
      k := k + 1;
      assert Power2(k) / 2 == Power2(k - 1) && Power2(k) % 2 == 0;
    }
  }

  lemma {:induction false} AndZero(m: nat)
    ensures And(0, m) == 0
  {
    if m > 0 {
      AndZero(m / 2);
    }
  }
}
