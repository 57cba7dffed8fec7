/**
 The program's own arithmetic meets what is assumed of it, and everything assumed of two ends can be
 met at once: modular exponentiation, two host keys of which each verifies only its own signatures.
 */
module KexReal {
  import opened Bytes
  import opened MatchList
  import opened KeyBlob
  import opened KexChoose
  import opened KexDerive
  import opened KexRun
  import opened KexAgreement
  import opened KexTheorems
  import opened KexProgress
  import KexExample
  import ChooseDh
  import DhValues

  /** DH_generate_key, DH_compute_key and dh_pub_is_valid. */
  ghost predicate Computes(w: World) {
    && (forall g, x: nat :: w.public(g, x) == DhValues.Public(g.p, g.g, x))
    && (forall g, x: nat, v: nat :: w.shared(g, x, v) == DhValues.SharedKey(g.p, x, v))
    && (forall g, v: nat :: w.valid(g, v) == DhValues.ValidPub(g.p, v))
  }

  /** Whatever the group, the two sides of an exchange compute the same secret. */
  lemma {:induction false} ArithmeticCommutes(d: Deal)
    requires Computes(d.w)
    ensures Commutes(d)
  {
    forall g, x: nat, y: nat
      ensures d.w.shared(g, x, d.w.public(g, y)) == d.w.shared(g, y, d.w.public(g, x))
    {
      DhValues.BothCompute(g.p, g.g, x, y);
    }
  }

  // ---- a world in which everything assumed holds ----

  lemma {:induction false} WithBits(n: nat) returns (v: nat)
    ensures KexRun.Wire.Bits(v) == n && v >= n
  {
    if n == 0 {
      v := 0;
    } else {
      var u := WithBits(n - 1);
      v := 2 * u + 1;
      assert v / 2 == u;
    }
  }

  function Tag(t: KeyType): (r: u8) {
    match t
    case KeyRsa1 => 1
    case KeyRsa => 2
    case KeyDsa => 3
    case KeyUnspec => 0
  }

  function Blank(n: nat): (r: seq<u8>)
    ensures |r| == n
  {
    if n == 0 then [] else Blank(n - 1) + [0]
  }

  function Sample(kex: Name, macLen: nat, g: Grp): (w: World) {
    var p, b := KexExample.Proposal(kex), KexExample.Toy(macLen);
    World(b, false, false, false, [], [], p, p,
          t => [Tag(t)], (t, blob) => blob == [Tag(t)], t => g, [ChooseDh.Group(KexRun.Wire.Bits(g.p), g.g, g.p)],
          (h: Grp, x: nat) => DhValues.Public(h.p, h.g, x), (h: Grp, x: nat, v: nat) => DhValues.SharedKey(h.p, x, v),
          (h: Grp, v: nat) => DhValues.ValidPub(h.p, v),
          t => x => Blank(DigestLen(t)), (server, my, peer) => Negotiate(b, false, server, my, peer),
          (t, f) => Blank(DigestLen(t)), (t, h) => [Tag(t)] + h, (blob, s, h) => s == blob + h)
  }

  /** In it no signature is good under two host keys. */
  lemma {:induction false} SignaturesDiffer(kex: Name, macLen: nat, g: Grp, t: KeyType, u: KeyType, s: seq<u8>, h: seq<u8>)
    requires var w := Sample(kex, macLen, g); w.verify(w.hostKey(t), s, h) && w.verify(w.hostKey(u), s, h)
    ensures t == u
  {
    assert ([Tag(t)] + h)[0] == ([Tag(u)] + h)[0];
  }

  /** All but the room that dh_gen_key asks for. */
  lemma {:induction false} SampleIsFair(kex: Name, macLen: nat, g: Grp, d: Deal)
    requires KexExample.Plain(kex) && |kex| <= 100 && InRange(g) && d.w == Sample(kex, macLen, g) && d.sconf.hostkey == KeyRsa
    ensures Fair(d)
  {
    SampleIsOffered(kex, macLen, g);
    assert Computes(d.w);
    ArithmeticCommutes(d);
    assert Stocked(d.w);
  }

  lemma {:induction false} SampleIsOffered(kex: Name, macLen: nat, g: Grp)
    requires KexExample.Plain(kex) && |kex| <= 100
    ensures var w := Sample(kex, macLen, g);
            Offered(w) && Transcribes(w) && forall t :: Sized(w.digest(t), DigestLen(t))
  {
    KexExample.OthersPlain();
  }

  lemma {:induction false} SampleSettles(kex: Name, macLen: nat, g: Grp) returns (d: Deal)
    requires KexExample.Plain(kex) && ChooseKexType(kex).Some?
    ensures d.w == Sample(kex, macLen, g) && Settled(d) && d.cconf.kex == ChooseKexType(kex).value
    ensures d.sconf.hostkey == KeyRsa && d.cconf.weNeed == if macLen > 24 then macLen else 24
  {
    KexExample.ToyConf(macLen, false, kex, false);
    KexExample.ToyConf(macLen, false, kex, true);
    var w := Sample(kex, macLen, g);
    d := Deal(w, ChooseConf(w.build, false, false, w.clientProp, w.serverProp).value,
              ChooseConf(w.build, false, true, w.serverProp, w.clientProp).value);
  }

  /** There is one group in that world. */
  lemma {:induction false} OneGroup(kex: Name, macLen: nat, g: Grp, d: Deal, h: Grp)
    requires d.w == Sample(kex, macLen, g) && InUse(d, h)
    ensures h == g
  {
    if G(d) {
      var rnd: nat :| GroupFor(d.w, BoundsOf(AskOf(d)), rnd) == Some(h);
      var c := ChooseDh.Selection(BoundsOf(AskOf(d)), d.w.moduli, rnd);
      if c.Chosen? {
        NthOnList(BoundsOf(AskOf(d)), d.w.moduli, ChooseDh.Scan(BoundsOf(AskOf(d)), d.w.moduli).best,
                  rnd % ChooseDh.Scan(BoundsOf(AskOf(d)), d.w.moduli).count);
      }
    }
  }

  // ---- a group whose arithmetic is easy to follow: with q = 2^k - 1, modulus (q + 1) q and generator q^2 ----

  /** q (q - 1) times the modulus is the generator times itself less one. */
  lemma {:induction false} Idempotent(q: nat)
    requires q > 1
    ensures ((q * q) * (q * q)) % ((q + 1) * q) == q * q && q * q < (q + 1) * q
  {
    var p, h, r := (q + 1) * q, q * q, q * (q - 1);
    assert p == h + q;
    calc {
      p * r + h;
      (h + q) * (h - q) + h;
      { Squares(h, q); }
      h * h - h + h;
      h * h;
    }
    DhValues.Unique(h * h, r, h, p);
  }

  lemma {:induction false} Squares(h: nat, q: nat)
    requires h == q * q
    ensures (h + q) * (h - q) == h * h - h
  {
    assert (h + q) * (h - q) == h * h - q * q;
  }

  /** So every power of the generator is the generator. */
  lemma {:induction false} PowersStay(p: nat, h: nat, x: nat)
    requires p > 0 && x > 0 && h < p && (h * h) % p == h
    ensures DhValues.Public(p, h, x) == h
  {
    if x == 1 {
      assert DhValues.Pow(h, 1) == h * DhValues.Pow(h, 0) == h;
      DhValues.Unique(h, 0, h, p);
    } else {
      PowersStay(p, h, x - 1);
      DhValues.ModRight(h, DhValues.Pow(h, x - 1), h, p);
    }
  }

  lemma {:induction false} OddSquare(q: nat)
    requires q > 1 && q % 2 == 1
    ensures DhValues.ValidPub((q + 1) * q, q * q)
  {
    var h, j := q * q, q / 2;
    assert q == 2 * j + 1;
    assert h == 2 * (2 * j * j + 2 * j) + 1;
    assert h % 2 == 1 && h / 2 > 0;
    DhValues.NoBits(h / 2);
    assert (q + 1) * q == h + q;
  }

  /** All ones in binary. */
  lemma {:induction false} Ones(n: nat) returns (q: nat)
    ensures q + 1 == DhValues.Pow(2, n) && KexRun.Wire.Bits(q) == n && (n > 1 ==> q > 1 && q % 2 == 1)
  {
    if n == 0 {
      q := 0;
    } else {
      var u := Ones(n - 1);
      q := 2 * u + 1;
      assert q / 2 == u;
    }
  }

  lemma {:induction false} DoubledBits(u: nat, v: nat)
    requires u > 0 && v == 2 * u
    ensures KexRun.Wire.Bits(v) == KexRun.Wire.Bits(u) + 1
  {
    assert v / 2 == u;
  }

  lemma {:induction false} ShiftedBits(v: nat, n: nat)
    requires v > 0
    ensures DhValues.Pow(2, n) * v > 0 && KexRun.Wire.Bits(DhValues.Pow(2, n) * v) == KexRun.Wire.Bits(v) + n
  {
    if n == 0 {
      assert DhValues.Pow(2, n) * v == v;
    } else {
      ShiftedBits(v, n - 1);
      DhValues.Associates(2, DhValues.Pow(2, n - 1), v);
      DoubledBits(DhValues.Pow(2, n - 1) * v, DhValues.Pow(2, n) * v);
    }
  }

  /** A group of 2k bits in which every exponent but zero has a valid value. */
  lemma {:induction false} EasyGroup(k: nat) returns (g: Grp)
    requires k > 1
    ensures KexRun.Wire.Bits(g.p) == 2 * k
    ensures forall x: nat :: x > 0 ==> DhValues.ValidPub(g.p, DhValues.Public(g.p, g.g, x))
  {
    var q := Ones(k);
    g := Grp((q + 1) * q, q * q);
    ShiftedBits(q, k);
    Idempotent(q);
    OddSquare(q);
    forall x: nat | x > 0
      ensures DhValues.ValidPub(g.p, DhValues.Public(g.p, g.g, x))
    {
      PowersStay(g.p, g.g, x);
    }
  }

  /** What is assumed of two honest ends can be met with either kind of exchange, and keys are established. */
  lemma {:induction false} AssumptionsCanBeMet(gex: bool) returns (d: Deal, n: Net)
    ensures Honest(d) && Settled(d) && Fruitful(d) && G(d) == gex && Computes(d.w)
    ensures Transcribes(d.w) && forall t :: Sized(d.w.digest(t), DigestLen(t))
    ensures forall t, u, s, h :: d.w.verify(d.w.hostKey(t), s, h) && d.w.verify(d.w.hostKey(u), s, h) ==> t == u
    ensures Reachable(d.w, n) && AtRest(gex, n.c, 1) && AtRest(gex, n.s, 1)
  {
    KexExample.KexPlain();
    KexExample.KexTypes();
    var kex := if gex then KexExample.GROUP_EXCHANGE else KexExample.FIXED_GROUP;
    var g := EasyGroup(1024);
    d := SampleSettles(kex, 16, g);
    SampleIsFair(kex, 16, g, d);
    SampleIsOffered(kex, 16, g);
    SampleIsRich(kex, g, d);
    forall t, u, s, h | d.w.verify(d.w.hostKey(t), s, h) && d.w.verify(d.w.hostKey(u), s, h)
      ensures t == u
    {
      SignaturesDiffer(kex, 16, g, t, u, s, h);
    }
    n := KeysCanBeEstablished(d);
  }

  lemma {:induction false} SampleIsRich(kex: Name, g: Grp, d: Deal)
    requires d.w == Sample(kex, 16, g) && KexRun.Wire.Bits(g.p) == 2048 && d.cconf.weNeed == 24
    requires forall x: nat :: x > 0 ==> DhValues.ValidPub(g.p, DhValues.Public(g.p, g.g, x))
    ensures RoomEnough(d) && Fruitful(d) && Computes(d.w)
  {
    var x := WithBits(384);
    forall h | InUse(d, h)
      ensures !Small(d.cconf.weNeed, h) && exists y: nat :: Wide(d, y) && Usable(d, Pair(h, y))
    {
      OneGroup(kex, 16, g, d, h);
      assert Wide(d, x) && Usable(d, Pair(h, x));
    }
  }
}
