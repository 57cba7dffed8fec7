/** key_save_private_rsa1 and the two loaders, working on buffers in place. */
module AuthFileObject {
  import opened Bytes
  import opened SshBuffer
  import opened Wire
  import opened BufferAux
  import opened AuthFile

  /** Two calls of buffer_put_bignum. */
  method PutTwo(b: Buffer, v: nat, w: nat) returns (r: Outcome)
    requires b.Valid()
    modifies b, b.buf
    ensures b.Valid() && (b.buf == old(b.buf) || fresh(b.buf))
    ensures r.Pass? ==> b.Contents() == old(b.Contents()) + (EncBignum(v) + EncBignum(w))
    ensures Short(v) && Short(w) && old(b.alloc) + 0x40000 <= BUFFER_MAX_LEN ==> r.Pass? && b.alloc <= old(b.alloc) + 0x40000
  {
    if Short(v) && Short(w) {
      ShortOctets(v);
      ShortOctets(w);
    }
    r := PutBignum(b, v);
    if r.Fatal? {
      return;
    }
    r := PutBignum(b, w);
    assert r.Pass? ==> b.Contents() == old(b.Contents()) + (EncBignum(v) + EncBignum(w));
  }

  /** The padding loop. */
  method Pad(b: Buffer) returns (r: Outcome)
    requires b.Valid()
    modifies b, b.buf
    ensures b.Valid() && (b.buf == old(b.buf) || fresh(b.buf))
    ensures r.Pass? ==> b.Contents() == Padded(old(b.Contents()))
    ensures old(b.alloc) + 0x40000 <= BUFFER_MAX_LEN ==> r.Pass?
  {
    ghost var was := b.Contents();
    ghost var n: nat := 0;
    r := Pass;
    while b.Length() % 8 != 0
      invariant b.Valid() && (b.buf == old(b.buf) || fresh(b.buf))
      invariant n <= Lack(|was|) && b.Contents() == was + Zeros(n)
      invariant b.alloc <= old(b.alloc) + n * (1 + BUFFER_ALLOCSZ)
      decreases Lack(|was|) - n
    {
      r := PutChar(b, 0);
      if r.Fatal? {
        return;
      }
      n := n + 1;
      assert b.Contents() == was + Zeros(n);
    }
    assert n == Lack(|was|);
    r := Pass;
  }

  method BuildSecret(k: Rsa1, c0: u8, c1: u8) returns (r: Outcome, b: Buffer)
    ensures fresh(b) && fresh(b.buf) && b.Valid()
    ensures r.Pass? ==> b.Contents() == Padded(Secret(k, c0, c1))
    ensures SecretFits(k) ==> r.Pass?
  {
    b := new Buffer();
    r := b.Append([c0, c1, c0, c1]);
    if r.Fatal? {
      return;
    }
    r := PutTwo(b, k.d, k.iqmp);
    if r.Fatal? {
      return;
    }
    r := PutTwo(b, k.q, k.p);
    if r.Fatal? {
      return;
    }
    assert b.Contents() == Secret(k, c0, c1);
    r := Pad(b);
  }

  /** The loop that stores the identification. */
  method PutId(b: Buffer) returns (r: Outcome)
    requires b.Valid()
    modifies b, b.buf
    ensures b.Valid() && (b.buf == old(b.buf) || fresh(b.buf))
    ensures r.Pass? ==> b.Contents() == old(b.Contents()) + ID
    ensures old(b.alloc) + 0x110000 <= BUFFER_MAX_LEN ==> r.Pass?
    ensures b.alloc <= old(b.alloc) + 0x110000
  {
    ghost var was := b.Contents();
    r := Pass;
    assert was + ID[..0] == was;
    for i := 0 to |ID|
      invariant b.Valid() && (b.buf == old(b.buf) || fresh(b.buf))
      invariant b.Contents() == was + ID[..i] && r.Pass?
      invariant b.alloc <= old(b.alloc) + i * (1 + BUFFER_ALLOCSZ)
    {
      r := PutChar(b, ID[i]);
      if r.Fatal? {
        return;
      }
      assert ID[..i + 1] == ID[..i] + [ID[i]];
      assert b.Contents() == was + ID[..i + 1];
    }
    assert ID[..|ID|] == ID;
  }

  /** The cipher type, the reserved word and the bit count. */
  method PutFixed(b: Buffer, num: u8, bits: nat) returns (r: Outcome)
    requires b.Valid()
    modifies b, b.buf
    ensures b.Valid() && (b.buf == old(b.buf) || fresh(b.buf))
    ensures r.Pass? ==> b.Contents() == old(b.Contents()) + ([num] + PutU32(0) + PutU32(bits))
    ensures old(b.alloc) + 0x40000 <= BUFFER_MAX_LEN ==> r.Pass?
    ensures b.alloc <= old(b.alloc) + 0x40000
  {
    r := PutChar(b, num);
    if r.Fatal? {
      return;
    }
    r := PutInt(b, 0);
    if r.Fatal? {
      return;
    }
    r := PutInt(b, bits);
    assert r.Pass? ==> b.Contents() == old(b.Contents()) + ([num] + PutU32(0) + PutU32(bits));
  }

  method PutPublic(b: Buffer, k: Rsa1, num: u8, comment: seq<u8>) returns (r: Outcome)
    requires b.Valid()
    modifies b, b.buf
    ensures b.Valid() && (b.buf == old(b.buf) || fresh(b.buf))
    ensures r.Pass? ==>
              b.Contents() == old(b.Contents()) + ([num] + PutU32(0) + PutU32(Bits(k.n))) +
                (EncBignum(k.n) + EncBignum(k.e)) + EncString(comment)
    ensures PublicFits(k, comment) && old(b.alloc) + 0x100000 <= BUFFER_MAX_LEN ==>
              r.Pass? && b.alloc <= old(b.alloc) + 0x100000
  {
    r := PutFixed(b, num, Bits(k.n));
    if r.Fatal? {
      return;
    }
    r := PutTwo(b, k.n, k.e);
    if r.Fatal? {
      return;
    }
    r := PutString(b, comment);
  }

  method BuildHead(k: Rsa1, num: u8, comment: seq<u8>) returns (r: Outcome, b: Buffer)
    ensures fresh(b) && fresh(b.buf) && b.Valid()
    ensures r.Pass? ==> b.Contents() == Head(k, num, comment)
    ensures PublicFits(k, comment) ==> r.Pass? && b.alloc <= 0x300000
  {
    b := new Buffer();
    r := PutId(b);
    if r.Fatal? {
      return;
    }
    assert b.Contents() == ID;
    r := PutPublic(b, k, num, comment);
    Regrouped(ID, [num] + PutU32(0) + PutU32(Bits(k.n)), EncBignum(k.n) + EncBignum(k.e), EncString(comment));
  }

  /** key_save_private_rsa1 up to the write. */
  method SavePrivateRsa1(c: Ciphers, k: Rsa1, pass: seq<u8>, comment: seq<u8>, c0: u8, c1: u8)
    returns (r: Outcome, file: seq<u8>)
    requires forall num, x: seq<u8> :: |x| % 8 == 0 ==> |c.encrypt(num, pass, x)| == |x|
    ensures r.Pass? ==> file == Save(c, k, pass, comment, c0, c1)
    ensures PublicFits(k, comment) && SecretFits(k) ==> r.Pass?
  {
    file := [];
    var num := CipherFor(pass);
    var secret, b;
    r, secret := BuildSecret(k, c0, c1);
    if r.Fatal? {
      return;
    }
    r, b := BuildHead(k, num, comment);
    if r.Fatal? {
      return;
    }
    if PublicFits(k, comment) && SecretFits(k) {
      FitsInFile(k, num, comment, c0, c1);
    }
    var data := c.encrypt(num, pass, secret.Contents());
    r := b.Append(data);
    if r.Pass? {
      file := b.Contents();
    }
  }

  lemma {:induction false} OneMore(s: seq<u8>, i: nat)
    requires i < |s|
    ensures s[..i + 1] == s[..i] + [s[i]] && s[i..] == [s[i]] + s[i + 1..]
  {
  }

  lemma {:induction false} Differs(s: seq<u8>, t: seq<u8>, i: nat)
    requires i < |t| <= |s| && s[i] != t[i]
    ensures s[..|t|] != t
  {
    assert s[..|t|][i] == s[i];
  }

  /** The loop that checks and consumes the identification. */
  method MatchId(b: Buffer) returns (ok: bool)
    requires b.Valid() && |b.Contents()| >= |ID|
    modifies b
    ensures b.Valid() && b.buf == old(b.buf) && b.alloc == old(b.alloc)
    ensures ok <==> old(b.Contents())[..|ID|] == ID
    ensures ok ==> b.Contents() == old(b.Contents())[|ID|..]
  {
    ghost var was := b.Contents();
    var id := ID;
    for i := 0 to |id|
      invariant b.Valid() && b.buf == old(b.buf) && b.alloc == old(b.alloc)
      invariant b.Contents() == was[i..] && was[..i] == id[..i]
    {
      OneMore(was, i);
      OneMore(id, i);
      var got, c := b.GetRet(1);
      assert c == [was[i]] && b.Contents() == was[i + 1..];
      if c[0] != id[i] {
        Differs(was, id, i);
        return false;
      }
    }
    assert id[..|id|] == id;
    ok := true;
  }

  method GetTwo(b: Buffer) returns (st: Status, t: Two)
    requires b.Valid()
    modifies b
    ensures b.Valid() && b.buf == old(b.buf) && b.alloc == old(b.alloc)
    ensures Agrees(LoadTwo(old(b.Contents())), st, t, b.Contents())
  {
    t := Two(0, 0);
    var v, w;
    st, v := GetBignumRet(b);
    if st != Ok {
      return Dead, t;
    }
    st, w := GetBignumRet(b);
    if st != Ok {
      return Dead, t;
    }
    t := Two(v, w);
  }

  method GetNumbers(b: Buffer, num: u8) returns (st: Status, h: Public)
    requires b.Valid()
    modifies b
    ensures b.Valid() && b.buf == old(b.buf) && b.alloc == old(b.alloc)
    ensures Agrees(LoadNumbers(num, old(b.Contents())), st, h, b.Contents())
  {
    h := Public(num, 0, 0, []);
    var ne, s;
    st, ne := GetTwo(b);
    if st != Ok {
      return;
    }
    st, s := GetStringRet(b);
    if st != Ok {
      return Dead, h;
    }
    h := Public(num, ne.a, ne.b, s);
  }

  /** The cipher type is kept, the reserved word and the bit count are skipped. */
  method GetFixed(b: Buffer) returns (ok: bool, num: u8)
    requires b.Valid()
    modifies b
    ensures b.Valid() && b.buf == old(b.buf) && b.alloc == old(b.alloc)
    ensures ok <==> |old(b.Contents())| >= 9
    ensures ok ==> num == old(b.Contents())[0] && b.Contents() == old(b.Contents())[9..]
  {
    ghost var was := b.Contents();
    num := 0;
    var c;
    ok, c := b.GetRet(1);
    if !ok {
      return;
    }
    assert was == c + b.Contents();
    num := c[0];
    ok := b.ConsumeRet(4);
    if !ok {
      return;
    }
    ok := b.ConsumeRet(4);
    assert ok ==> b.Contents() == was[9..];
  }

  /** key_load_public_rsa1 once the file is read; the buffer keeps the private part. */
  method LoadPublicRsa1(f: seq<u8>) returns (st: Status, h: Public, b: Buffer)
    ensures fresh(b) && fresh(b.buf) && b.Valid()
    ensures Agrees(LoadPublic(f), st, h, b.Contents())
  {
    h := Public(0, 0, 0, []);
    b := new Buffer();
    if |f| > FILE_MAX {
      return Null, h, b;
    }
    var r := b.Append(f);
    assert r.Pass? && b.Contents() == f;
    if |f| < |ID| {
      return Null, h, b;
    }
    var same := MatchId(b);
    if !same {
      return Null, h, b;
    }
    var ok, num := GetFixed(b);
    if !ok {
      return Dead, h, b;
    }
    assert b.Contents() == f[|ID| + 9..];
    st, h := GetNumbers(b, num);
  }

  method GetSecret(b: Buffer) returns (st: Status, x: Private)
    requires b.Valid()
    modifies b
    ensures b.Valid() && b.buf == old(b.buf) && b.alloc == old(b.alloc)
    ensures Agrees(LoadSecret(old(b.Contents())), st, x, b.Contents())
  {
    ghost var was := b.Contents();
    x := Private(0, 0, 0, 0);
    var ok, c := b.GetRet(4);
    if !ok {
      return Dead, x;
    }
    assert c == was[..4] && b.Contents() == was[4..];
    if c[0] != c[2] || c[1] != c[3] {
      return Null, x;
    }
    var du, qp;
    st, du := GetTwo(b);
    if st != Ok {
      return;
    }
    st, qp := GetTwo(b);
    if st != Ok {
      return;
    }
    x := Private(du.a, du.b, qp.a, qp.b);
  }

  /** The private part is decrypted into a buffer of its own. */
  method DecryptSecret(c: Ciphers, num: u8, pass: seq<u8>, rest: seq<u8>) returns (st: Status, x: Private, b: Buffer)
    requires |c.decrypt(num, pass, rest)| <= FILE_MAX
    ensures fresh(b) && fresh(b.buf) && b.Valid()
    ensures Agrees(LoadSecret(c.decrypt(num, pass, rest)), st, x, b.Contents())
  {
    b := new Buffer();
    var r := b.Append(c.decrypt(num, pass, rest));
    assert r.Pass? && b.Contents() == c.decrypt(num, pass, rest);
    st, x := GetSecret(b);
  }

  /** What is left for the private part is no longer than the file. */
  lemma {:induction false} RestIsShort(f: seq<u8>)
    ensures LoadPublic(f).Done? ==> |LoadPublic(f).rest| <= FILE_MAX
  {
  }

  /** key_load_private_rsa1 once the file is read. */
  method LoadPrivateRsa1(c: Ciphers, f: seq<u8>, pass: seq<u8>) returns (r: Loaded)
    requires forall num, x: seq<u8> :: |x| % 8 == 0 ==> |c.decrypt(num, pass, x)| == |x|
    ensures r == Load(c, f, pass)
  {
    var st, h, b := LoadPublicRsa1(f);
    RestIsShort(f);
    if st == Null {
      return NoKey;
    } else if st == Dead {
      return Died;
    }
    var rest := b.Contents();
    assert LoadPublic(f) == Done(h, rest);
    if !Supported(h.cipher) {
      return NoKey;
    }
    if |rest| % 8 != 0 {
      return Died;
    }
    var x, dec;
    st, x, dec := DecryptSecret(c, h.cipher, pass, rest);
    if st == Null {
      return NoKey;
    } else if st == Dead {
      return Died;
    }
    r := Loaded(Rsa1(h.n, h.e, x.d, x.iqmp, x.q, x.p), h.comment);
  }
}
