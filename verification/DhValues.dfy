/** Diffie-Hellman values: what DH_generate_key and DH_compute_key compute, and dh_pub_is_valid of dh.c. */
module DhValues {
  import opened Wire

  function Pow(b: nat, e: nat): (r: nat) { if e == 0 then 1 else b * Pow(b, e - 1) }

  /** The value of exponent x, and what exponent x makes of the value v. */
  function Public(p: nat, g: nat, x: nat): (r: nat) { if p == 0 then 0 else Pow(g, x) % p }

  function SharedKey(p: nat, x: nat, v: nat): (r: nat) { if p == 0 then 0 else Pow(v, x) % p }

  // ---- both sides compute the same number ----

  /** Quotient and remainder are unique. */
  lemma {:induction false} Unique(n: nat, q: nat, r: nat, p: nat)
    requires p > 0 && n == p * q + r && r < p
    ensures n % p == r
  {
    var a, b := n / p, n % p;
    assert n == p * a + b && 0 <= b < p;
    if a < q {
      Larger(p, a, q);
    } else if q < a {
      Larger(p, q, a);
    }
  }

  lemma {:induction false} Larger(p: nat, a: nat, b: nat)
    requires a < b
    ensures p * b >= p * a + p
  {
    var k := b - a - 1;
    assert b == a + 1 + k;
    assert p * (a + 1 + k) == p * a + p + p * k;
    assert p * k >= 0;
  }

  lemma {:induction false} Multiples(r: nat, k: nat, p: nat)
    requires p > 0
    ensures (p * k + r) % p == r % p
  {
    var q := r / p;
    assert r == p * q + r % p;
    assert p * (k + q) == p * k + p * q;
    Unique(p * k + r, k + q, r % p, p);
  }

  lemma {:induction false} ModMul(a: nat, b: nat, p: nat)
    requires p > 0
    ensures ((a % p) * b) % p == (a * b) % p
  {
    var q, r := a / p, a % p;
    assert a == p * q + r;
    Distributes(p, q, r, b);
    Multiples(r * b, q * b, p);
  }

  lemma {:induction false} Distributes(p: nat, q: nat, r: nat, b: nat)
    ensures (p * q + r) * b == p * (q * b) + r * b
  {
    assert (p * q) * b == p * (q * b);
  }

  lemma {:induction false} PowMod(a: nat, n: nat, p: nat)
    requires p > 0
    ensures Pow(a % p, n) % p == Pow(a, n) % p
  {
    if n > 0 {
      PowMod(a, n - 1, p);
      calc {
        Pow(a % p, n) % p;
        ((a % p) * Pow(a % p, n - 1)) % p;
        { ModMul(a, Pow(a % p, n - 1), p); }
        (a * Pow(a % p, n - 1)) % p;
        { ModRight(a, Pow(a % p, n - 1), Pow(a, n - 1), p); }
        (a * Pow(a, n - 1)) % p;
        Pow(a, n) % p;
      }
    }
  }

  lemma {:induction false} ModRight(a: nat, b: nat, c: nat, p: nat)
    requires p > 0 && b % p == c % p
    ensures (a * b) % p == (a * c) % p
  {
    ModMul(b, a, p);
    ModMul(c, a, p);
    assert a * b == b * a && a * c == c * a;
  }

  lemma {:induction false} Associates(a: nat, b: nat, c: nat)
    ensures a * (b * c) == (a * b) * c
  {
  }

  lemma {:induction false} PowAdd(b: nat, m: nat, n: nat)
    ensures Pow(b, m + n) == Pow(b, m) * Pow(b, n)
  {
    if m > 0 {
      PowAdd(b, m - 1, n);
      Associates(b, Pow(b, m - 1), Pow(b, n));
    }
  }

  lemma {:induction false} PowPow(b: nat, m: nat, n: nat)
    ensures Pow(Pow(b, m), n) == Pow(b, m * n)
  {
    if n > 0 {
      PowPow(b, m, n - 1);
      PowAdd(b, m, m * (n - 1));
      assert m + m * (n - 1) == m * n;
    }
  }

  /** The two sides of an exchange: whatever the modulus and the generator. */
  lemma {:induction false} BothCompute(p: nat, g: nat, x: nat, y: nat)
    ensures SharedKey(p, x, Public(p, g, y)) == SharedKey(p, y, Public(p, g, x))
  {
    if p > 0 {
      PowMod(Pow(g, y), x, p);
      PowMod(Pow(g, x), y, p);
      PowPow(g, y, x);
      PowPow(g, x, y);
      assert x * y == y * x;
    }
  }

  // ---- dh_pub_is_valid ----

  function BitsSet(v: nat): (r: nat) { if v == 0 then 0 else BitsSet(v / 2) + v % 2 }

  predicate ValidPub(p: nat, v: nat) { v > 1 && v + 1 < p && BitsSet(v) > 1 }

  /** Bit i of v, as BN_is_bit_set has it. */
  function Bit(v: nat, i: nat): (r: nat) { if i == 0 then v % 2 else Bit(v / 2, i - 1) }

  /** v without its lowest i bits. */
  function Shifted(v: nat, i: nat): (r: nat) { if i == 0 then v else Shifted(v / 2, i - 1) }

  lemma {:induction false} ShiftedOnce(v: nat, i: nat)
    ensures Shifted(v, i) % 2 == Bit(v, i) && Shifted(v, i) / 2 == Shifted(v, i + 1)
  {
    if i > 0 {
      ShiftedOnce(v / 2, i - 1);
    }
  }

  lemma {:induction false} NothingLeft(v: nat, i: nat)
    requires i >= Bits(v)
    ensures Shifted(v, i) == 0
  {
    if i > 0 {
      NothingLeft(v / 2, i - 1);
    }
  }

  method PubIsValid(p: nat, v: nat) returns (ok: bool)
    ensures ok <==> ValidPub(p, v)
  {
    if v <= 1 {
      return false;
    }
    if v >= p - 1 {
      return false;
    }
    var n, bitsSet := Bits(v), 0;
    for i := 0 to n + 1
      invariant bitsSet + BitsSet(Shifted(v, i)) == BitsSet(v)
    {
      ShiftedOnce(v, i);
      if Bit(v, i) == 1 {
        bitsSet := bitsSet + 1;
      }
    }
    NothingLeft(v, n + 1);
    ok := bitsSet > 1;
  }

  /** One bit set: the value is a power of two, whose logarithm is no secret. */
  lemma {:induction false} OneBit(v: nat) returns (k: nat)
    requires BitsSet(v) == 1
    ensures v == Pow(2, k)
  {
    if v == 1 {
      k := 0;
    } else {
      if v % 2 == 1 {
        NoBits(v / 2);
      }
      var j := OneBit(v / 2);
      k := j + 1;
    }
  }

  lemma {:induction false} NoBits(v: nat)
    ensures BitsSet(v) == 0 <==> v == 0
  {
    if v > 1 {
      NoBits(v / 2);
    }
  }

  lemma {:induction false} PowerHasOneBit(k: nat)
    ensures BitsSet(Pow(2, k)) == 1
  {
    if k > 0 {
      PowerHasOneBit(k - 1);
      assert Pow(2, k) / 2 == Pow(2, k - 1);
    }
  }

  /** A value is valid exactly if it lies strictly between 1 and p - 1 and is no power of two. */
  lemma {:induction false} ValidMeans(p: nat, v: nat)
    ensures ValidPub(p, v) <==> 1 < v && v + 1 < p && forall k: nat :: v != Pow(2, k)
  {
    NoBits(v);
    if 1 < v && BitsSet(v) == 1 {
      var k := OneBit(v);
      assert v == Pow(2, k);
    }
    forall k: nat | v == Pow(2, k)
      ensures BitsSet(v) == 1
    {
      PowerHasOneBit(k);
    }
  }

  /** The exponent zero, for one, never gives a valid value. */
  lemma {:induction false} ZeroInvalid(p: nat, g: nat)
    ensures !ValidPub(p, Public(p, g, 0))
  {
    if p > 1 {
      Unique(1, 0, 1, p);
    }
  }
}
