/** What kex_dh_hash and kexgex_hash hash: section 8 of RFC 4253 and section 3 of RFC 4419. */
module Transcript {
  import opened Bytes
  import opened SshBuffer
  import opened Wire
  import opened BufferAux

  const SSH2_MSG_KEXINIT: u8 := 20

  /** What a group exchange adds: the request as hashed, and the group. */
  datatype Gex =
    | NoGex
    | OldGex(n: nat, p: nat, g: nat)
    | NewGex(min: nat, n: nat, max: nat, p: nat, g: nat)

  datatype Fields = Fields(
    clientVersion: seq<u8>, serverVersion: seq<u8>,
    clientInit: seq<u8>, serverInit: seq<u8>,
    hostKey: seq<u8>, gex: Gex, clientPub: nat, serverPub: nat, shared: nat)

  function Opening(f: Fields): (r: seq<u8>) {
    EncString(f.clientVersion) + EncString(f.serverVersion) +
    EncString([SSH2_MSG_KEXINIT] + f.clientInit) + EncString([SSH2_MSG_KEXINIT] + f.serverInit)
  }

  function Middle(x: Gex): (r: seq<u8>) {
    match x
    case NoGex => []
    case OldGex(n, p, g) => PutU32(n) + (EncMpint(p) + EncMpint(g))
    case NewGex(min, n, max, p, g) => PutU32(min) + PutU32(n) + PutU32(max) + (EncMpint(p) + EncMpint(g))
  }

  function Numbers(f: Fields): (r: seq<u8>) {
    EncMpint(f.clientPub) + EncMpint(f.serverPub) + EncMpint(f.shared)
  }

  function Closing(f: Fields): (r: seq<u8>) { EncString(f.hostKey) + Middle(f.gex) + Numbers(f) }

  function Hashed(f: Fields): (r: seq<u8>) { Opening(f) + Closing(f) }

  predicate GexEncodable(x: Gex) {
    match x
    case NoGex => true
    case OldGex(n, p, g) => n < U32 && |Magnitude(p)| < U32 && |Magnitude(g)| < U32
    case NewGex(min, n, max, p, g) => min < U32 && n < U32 && max < U32 && |Magnitude(p)| < U32 && |Magnitude(g)| < U32
  }

  /** Every length has a 32-bit form. */
  predicate Encodable(f: Fields) {
    && |f.clientVersion| < U32 && |f.serverVersion| < U32 && |f.hostKey| < U32
    && |f.clientInit| + 1 < U32 && |f.serverInit| + 1 < U32 && GexEncodable(f.gex)
    && |Magnitude(f.clientPub)| < U32 && |Magnitude(f.serverPub)| < U32 && |Magnitude(f.shared)| < U32
  }

  /** The same kind of exchange, which both versions and KEXINIT payloads decide beforehand. */
  predicate SameKind(x: Gex, y: Gex) {
    (x.NoGex? <==> y.NoGex?) && (x.OldGex? <==> y.OldGex?)
  }

  lemma {:induction false} Nest(a: seq<u8>, b: seq<u8>, c: seq<u8>, d: seq<u8>, rest: seq<u8>)
    ensures a + b + c + d + rest == a + (b + (c + (d + rest)))
  {
  }

  lemma {:induction false} Behind(was: seq<u8>, a: seq<u8>, b: seq<u8>, c: seq<u8>, d: seq<u8>)
    ensures was + a + b + c + d == was + (a + b + (c + d))
  {
  }

  lemma {:induction false} OpeningInjective(f: Fields, g: Fields, x: seq<u8>, y: seq<u8>)
    requires Encodable(f) && Encodable(g) && Opening(f) + x == Opening(g) + y
    ensures f.clientVersion == g.clientVersion && f.serverVersion == g.serverVersion
    ensures f.clientInit == g.clientInit && f.serverInit == g.serverInit && x == y
  {
    var k := [SSH2_MSG_KEXINIT];
    var f3, f4 := EncString(k + f.clientInit), EncString(k + f.serverInit);
    var g3, g4 := EncString(k + g.clientInit), EncString(k + g.serverInit);
    var f2, g2 := EncString(f.serverVersion), EncString(g.serverVersion);
    Nest(EncString(f.clientVersion), f2, f3, f4, x);
    Nest(EncString(g.clientVersion), g2, g3, g4, y);
    StringPrefixFree(f.clientVersion, g.clientVersion, f2 + (f3 + (f4 + x)), g2 + (g3 + (g4 + y)));
    StringPrefixFree(f.serverVersion, g.serverVersion, f3 + (f4 + x), g3 + (g4 + y));
    StringPrefixFree(k + f.clientInit, k + g.clientInit, f4 + x, g4 + y);
    StringPrefixFree(k + f.serverInit, k + g.serverInit, x, y);
    assert f.clientInit == (k + f.clientInit)[1..] && f.serverInit == (k + f.serverInit)[1..];
    assert g.clientInit == (k + g.clientInit)[1..] && g.serverInit == (k + g.serverInit)[1..];
  }

  lemma {:induction false} IntPrefixFree(a: nat, b: nat, x: seq<u8>, y: seq<u8>)
    requires a < U32 && b < U32 && PutU32(a) + x == PutU32(b) + y
    ensures a == b && x == y
  {
    PutGetU32(a, x);
    PutGetU32(b, y);
    assert (PutU32(a) + x)[4..] == x && (PutU32(b) + y)[4..] == y;
  }

  lemma {:induction false} Assoc(a: seq<u8>, b: seq<u8>, c: seq<u8>)
    ensures a + b + c == a + (b + c)
  {
  }

  lemma {:induction false} GroupInjective(p: nat, g: nat, q: nat, h: nat, x: seq<u8>, y: seq<u8>)
    requires |Magnitude(p)| < U32 && |Magnitude(g)| < U32 && |Magnitude(q)| < U32 && |Magnitude(h)| < U32
    requires EncMpint(p) + EncMpint(g) + x == EncMpint(q) + EncMpint(h) + y
    ensures p == q && g == h && x == y
  {
    Assoc(EncMpint(p), EncMpint(g), x);
    Assoc(EncMpint(q), EncMpint(h), y);
    MpintPrefixFree(p, q, EncMpint(g) + x, EncMpint(h) + y);
    MpintPrefixFree(g, h, x, y);
  }

  lemma {:induction false} OldInjective(a: Gex, b: Gex, x: seq<u8>, y: seq<u8>)
    requires GexEncodable(a) && GexEncodable(b) && a.OldGex? && b.OldGex? && Middle(a) + x == Middle(b) + y
    ensures a == b && x == y
  {
    var u, v := EncMpint(a.p) + EncMpint(a.g), EncMpint(b.p) + EncMpint(b.g);
    Assoc(PutU32(a.n), u, x);
    Assoc(PutU32(b.n), v, y);
    IntPrefixFree(a.n, b.n, u + x, v + y);
    GroupInjective(a.p, a.g, b.p, b.g, x, y);
  }

  lemma {:induction false} IntsInjective(a1: nat, a2: nat, a3: nat, b1: nat, b2: nat, b3: nat, x: seq<u8>, y: seq<u8>)
    requires a1 < U32 && a2 < U32 && a3 < U32 && b1 < U32 && b2 < U32 && b3 < U32
    requires PutU32(a1) + PutU32(a2) + PutU32(a3) + x == PutU32(b1) + PutU32(b2) + PutU32(b3) + y
    ensures a1 == b1 && a2 == b2 && a3 == b3 && x == y
  {
    Regrouped(PutU32(a1), PutU32(a2), PutU32(a3), x);
    Regrouped(PutU32(b1), PutU32(b2), PutU32(b3), y);
    IntPrefixFree(a1, b1, PutU32(a2) + (PutU32(a3) + x), PutU32(b2) + (PutU32(b3) + y));
    IntPrefixFree(a2, b2, PutU32(a3) + x, PutU32(b3) + y);
    IntPrefixFree(a3, b3, x, y);
  }

  lemma {:induction false} NewInjective(a: Gex, b: Gex, x: seq<u8>, y: seq<u8>)
    requires GexEncodable(a) && GexEncodable(b) && a.NewGex? && b.NewGex? && Middle(a) + x == Middle(b) + y
    ensures a == b && x == y
  {
    var u, v := EncMpint(a.p) + EncMpint(a.g), EncMpint(b.p) + EncMpint(b.g);
    Assoc(PutU32(a.min) + PutU32(a.n) + PutU32(a.max), u, x);
    Assoc(PutU32(b.min) + PutU32(b.n) + PutU32(b.max), v, y);
    IntsInjective(a.min, a.n, a.max, b.min, b.n, b.max, u + x, v + y);
    GroupInjective(a.p, a.g, b.p, b.g, x, y);
  }

  lemma {:induction false} MiddleInjective(a: Gex, b: Gex, x: seq<u8>, y: seq<u8>)
    requires GexEncodable(a) && GexEncodable(b) && SameKind(a, b) && Middle(a) + x == Middle(b) + y
    ensures a == b && x == y
  {
    match a
    case OldGex(_, _, _) => OldInjective(a, b, x, y);
    case NewGex(_, _, _, _, _) => NewInjective(a, b, x, y);
    case NoGex => assert Middle(a) + x == x && Middle(b) + y == y;
  }

  lemma {:induction false} NumbersInjective(f: Fields, g: Fields)
    requires Encodable(f) && Encodable(g) && Numbers(f) == Numbers(g)
    ensures f.clientPub == g.clientPub && f.serverPub == g.serverPub && f.shared == g.shared
  {
    var f3, g3 := EncMpint(f.shared) + [], EncMpint(g.shared) + [];
    assert Numbers(f) == EncMpint(f.clientPub) + EncMpint(f.serverPub) + f3;
    assert Numbers(g) == EncMpint(g.clientPub) + EncMpint(g.serverPub) + g3;
    GroupInjective(f.clientPub, f.serverPub, g.clientPub, g.serverPub, f3, g3);
    MpintPrefixFree(f.shared, g.shared, [], []);
  }

  lemma {:induction false} ClosingInjective(f: Fields, g: Fields)
    requires Encodable(f) && Encodable(g) && SameKind(f.gex, g.gex) && Closing(f) == Closing(g)
    ensures f.hostKey == g.hostKey && f.gex == g.gex
    ensures f.clientPub == g.clientPub && f.serverPub == g.serverPub && f.shared == g.shared
  {
    Assoc(EncString(f.hostKey), Middle(f.gex), Numbers(f));
    Assoc(EncString(g.hostKey), Middle(g.gex), Numbers(g));
    StringPrefixFree(f.hostKey, g.hostKey, Middle(f.gex) + Numbers(f), Middle(g.gex) + Numbers(g));
    MiddleInjective(f.gex, g.gex, Numbers(f), Numbers(g));
    NumbersInjective(f, g);
  }

  /** Two exchanges of one kind hash the same octets only if they agree on every field. */
  lemma {:induction false} HashedInjective(f: Fields, g: Fields)
    requires Encodable(f) && Encodable(g) && SameKind(f.gex, g.gex) && Hashed(f) == Hashed(g)
    ensures f == g
  {
    OpeningInjective(f, g, Closing(f), Closing(g));
    ClosingInjective(f, g);
  }

  /** Fields that certainly fit into one buffer; those of any exchange are far smaller. */
  predicate Moderate(f: Fields) {
    && |f.clientVersion| <= 0x40000 && |f.serverVersion| <= 0x40000
    && |f.clientInit| <= 0x40000 && |f.serverInit| <= 0x40000 && |f.hostKey| <= 0x40000
    && |Magnitude(f.clientPub)| <= 0x40000 && |Magnitude(f.serverPub)| <= 0x40000 && |Magnitude(f.shared)| <= 0x40000
    && (!f.gex.NoGex? ==> |Magnitude(f.gex.p)| <= 0x40000 && |Magnitude(f.gex.g)| <= 0x40000)
  }

  /** The first half of kex_dh_hash, with the faked KEXINIT headers. */
  method PutOpening(b: Buffer, f: Fields) returns (r: Outcome)
    requires b.Valid() && b.Contents() == []
    modifies b, b.buf
    ensures b.Valid() && (b.buf == old(b.buf) || fresh(b.buf))
    ensures r.Pass? ==> b.Contents() == Opening(f)
    ensures Moderate(f) && old(b.alloc) <= 0x10000 ==> r.Pass? && b.alloc <= 0x250000
  {
    r := PutString(b, f.clientVersion);
    if r.Fatal? {
      return;
    }
    assert b.Contents() == EncString(f.clientVersion);
    r := PutString(b, f.serverVersion);
    if r.Fatal? {
      return;
    }
    r := PutInit(b, f.clientInit);
    if r.Fatal? {
      return;
    }
    r := PutInit(b, f.serverInit);
  }

  method PutInit(b: Buffer, init: seq<u8>) returns (r: Outcome)
    requires b.Valid()
    modifies b, b.buf
    ensures b.Valid() && (b.buf == old(b.buf) || fresh(b.buf))
    ensures r.Pass? ==> b.Contents() == old(b.Contents()) + EncString([SSH2_MSG_KEXINIT] + init)
    ensures |init| <= 0x40000 && old(b.alloc) <= 0x900000 ==> r.Pass? && b.alloc <= old(b.alloc) + 0x60000
  {
    r := PutHeader(b, |init|);
    if r.Fatal? {
      return;
    }
    r := PutRaw(b, init);
    Regrouped(old(b.Contents()), PutU32(|init| + 1), [SSH2_MSG_KEXINIT], init);
  }

  /** The fake header of a KEXINIT: its length and its type. */
  method PutHeader(b: Buffer, len: nat) returns (r: Outcome)
    requires b.Valid()
    modifies b, b.buf
    ensures b.Valid() && (b.buf == old(b.buf) || fresh(b.buf))
    ensures r.Pass? ==> b.Contents() == old(b.Contents()) + PutU32(len + 1) + [SSH2_MSG_KEXINIT]
    ensures old(b.alloc) <= 0x900000 ==> r.Pass? && b.alloc <= old(b.alloc) + 0x10010
  {
    r := PutInt(b, len + 1);
    if r.Fatal? {
      return;
    }
    r := PutChar(b, SSH2_MSG_KEXINIT);
  }

  method PutRaw(b: Buffer, data: seq<u8>) returns (r: Outcome)
    requires b.Valid()
    modifies b, b.buf
    ensures b.Valid() && (b.buf == old(b.buf) || fresh(b.buf))
    ensures r.Pass? ==> b.Contents() == old(b.Contents()) + data
    ensures |data| <= 0x40000 && old(b.alloc) <= 0x910010 ==> r.Pass? && b.alloc <= old(b.alloc) + 0x48000
  {
    r := b.Append(data);
  }

  method PutInts(b: Buffer, x: Gex) returns (r: Outcome)
    requires b.Valid() && !x.NoGex?
    modifies b, b.buf
    ensures b.Valid() && (b.buf == old(b.buf) || fresh(b.buf))
    ensures r.Pass? ==>
              b.Contents() == old(b.Contents()) +
                if x.OldGex? then PutU32(x.n) else PutU32(x.min) + PutU32(x.n) + PutU32(x.max)
    ensures old(b.alloc) <= 0x900000 ==> r.Pass? && b.alloc <= old(b.alloc) + 0x20000
  {
    if x.OldGex? {
      r := PutInt(b, x.n);
      return;
    }
    r := PutInt(b, x.min);
    if r.Fatal? {
      return;
    }
    r := PutInt(b, x.n);
    if r.Fatal? {
      return;
    }
    r := PutInt(b, x.max);
    Regrouped(old(b.Contents()), PutU32(x.min), PutU32(x.n), PutU32(x.max));
    Assoc(PutU32(x.min), PutU32(x.n), PutU32(x.max));
  }

  method PutPair(b: Buffer, v: nat, w: nat) returns (r: Outcome)
    requires b.Valid()
    modifies b, b.buf
    ensures b.Valid() && (b.buf == old(b.buf) || fresh(b.buf))
    ensures r.Pass? ==> b.Contents() == old(b.Contents()) + (EncMpint(v) + EncMpint(w))
    ensures |Magnitude(v)| <= 0x40000 && |Magnitude(w)| <= 0x40000 && old(b.alloc) <= 0x800000 ==>
              r.Pass? && b.alloc <= old(b.alloc) + 0xc0000
  {
    r := PutBignum2(b, v);
    if r.Fatal? {
      return;
    }
    r := PutBignum2(b, w);
    Assoc(old(b.Contents()), EncMpint(v), EncMpint(w));
  }

  /** The request and the group, which only kexgex_hash puts in. */
  method PutMiddle(b: Buffer, x: Gex) returns (r: Outcome)
    requires b.Valid()
    modifies b, b.buf
    ensures b.Valid() && (b.buf == old(b.buf) || fresh(b.buf))
    ensures r.Pass? ==> b.Contents() == old(b.Contents()) + Middle(x)
    ensures (!x.NoGex? ==> |Magnitude(x.p)| <= 0x40000 && |Magnitude(x.g)| <= 0x40000) && old(b.alloc) <= 0x700000 ==>
              r.Pass? && b.alloc <= old(b.alloc) + 0xe0000
  {
    if x.NoGex? {
      assert b.Contents() + [] == b.Contents();
      return Pass;
    }
    r := PutInts(b, x);
    if r.Fatal? {
      return;
    }
    r := PutPair(b, x.p, x.g);
    Assoc(old(b.Contents()), if x.OldGex? then PutU32(x.n) else PutU32(x.min) + PutU32(x.n) + PutU32(x.max),
          EncMpint(x.p) + EncMpint(x.g));
  }

  method PutClosing(b: Buffer, f: Fields) returns (r: Outcome)
    requires b.Valid()
    modifies b, b.buf
    ensures b.Valid() && (b.buf == old(b.buf) || fresh(b.buf))
    ensures r.Pass? ==> b.Contents() == old(b.Contents()) + Closing(f)
    ensures Moderate(f) && old(b.alloc) <= 0x250000 ==> r.Pass?
  {
    ghost var was := b.Contents();
    r := PutString(b, f.hostKey);
    if r.Fatal? {
      return;
    }
    r := PutMiddle(b, f.gex);
    if r.Fatal? {
      return;
    }
    r := PutPair(b, f.clientPub, f.serverPub);
    if r.Fatal? {
      return;
    }
    r := PutBignum2(b, f.shared);
    Behind(was, EncString(f.hostKey), Middle(f.gex), EncMpint(f.clientPub) + EncMpint(f.serverPub), EncMpint(f.shared));
  }

  /** kex_dh_hash, and kexgex_hash for a group exchange. */
  method KexHash(f: Fields, digest: seq<u8> -> seq<u8>) returns (r: Outcome, hash: seq<u8>)
    ensures r.Pass? ==> hash == digest(Hashed(f))
    ensures Moderate(f) ==> r.Pass?
  {
    var b := new Buffer();
    hash := [];
    r := PutOpening(b, f);
    if r.Fatal? {
      return;
    }
    r := PutClosing(b, f);
    if r.Pass? {
      hash := digest(b.Contents());
    }
  }
}
