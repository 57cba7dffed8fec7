/** The put and get routines of bufaux.c and bufbn.c, working on a buffer in place. */
module BufferAux {
  import opened Bytes
  import opened SshBuffer
  import opened Wire

  /** How a read ended. */
  datatype Status = Ok | Null | Dead

  /** The read of `before` that the specification describes left `after` in the buffer. */
  ghost predicate Agrees<T>(p: Parsed<T>, st: Status, v: T, after: seq<u8>) {
    match p
    case Done(w, rest) => st == Ok && v == w && after == rest
    case Refused => st == Null
    case Aborted => st == Dead
  }

  method PutChar(b: Buffer, v: u8) returns (r: Outcome)
    requires b.Valid()
    modifies b, b.buf
    ensures b.Valid() && (b.buf == old(b.buf) || fresh(b.buf))
    ensures r.Pass? ==> b.Contents() == old(b.Contents()) + [v]
    ensures old(b.alloc) + 1 + BUFFER_ALLOCSZ <= BUFFER_MAX_LEN ==> r.Pass?
    ensures b.alloc <= old(b.alloc) + 1 + BUFFER_ALLOCSZ
  {
    r := b.Append([v]);
  }

  method PutInt(b: Buffer, v: nat) returns (r: Outcome)
    requires b.Valid()
    modifies b, b.buf
    ensures b.Valid() && (b.buf == old(b.buf) || fresh(b.buf))
    ensures r.Pass? ==> b.Contents() == old(b.Contents()) + PutU32(v)
    ensures old(b.alloc) + 4 + BUFFER_ALLOCSZ <= BUFFER_MAX_LEN ==> r.Pass?
    ensures b.alloc <= old(b.alloc) + 4 + BUFFER_ALLOCSZ
  {
    r := b.Append(PutU32(v));
  }

  method PutString(b: Buffer, s: seq<u8>) returns (r: Outcome)
    requires b.Valid()
    modifies b, b.buf
    ensures b.Valid() && (b.buf == old(b.buf) || fresh(b.buf))
    ensures r.Pass? ==> b.Contents() == old(b.Contents()) + EncString(s)
    ensures |s| <= BUFFER_MAX_CHUNK && old(b.alloc) + |s| + 4 + 2 * BUFFER_ALLOCSZ <= BUFFER_MAX_LEN ==> r.Pass?
    ensures b.alloc <= old(b.alloc) + |s| + 4 + 2 * BUFFER_ALLOCSZ
  {
    r := PutInt(b, |s|);
    if r.Fatal? {
      return;
    }
    r := b.Append(s);
    assert r.Pass? ==> b.Contents() == old(b.Contents()) + (PutU32(|s|) + s);
  }

  /** buffer_put_bignum2. */
  method PutBignum2(b: Buffer, v: nat) returns (r: Outcome)
    requires b.Valid()
    modifies b, b.buf
    ensures b.Valid() && (b.buf == old(b.buf) || fresh(b.buf))
    ensures r.Pass? ==> b.Contents() == old(b.Contents()) + EncMpint(v)
    ensures |Magnitude(v)| <= BUFFER_MAX_CHUNK && old(b.alloc) + |Magnitude(v)| + 4 + 2 * BUFFER_ALLOCSZ <= BUFFER_MAX_LEN ==>
              r.Pass?
    ensures b.alloc <= old(b.alloc) + |Magnitude(v)| + 4 + 2 * BUFFER_ALLOCSZ
  {
    if v == 0 {
      r := PutInt(b, 0);
      assert EncMpint(0) == PutU32(0);
      return;
    }
    var buf := [0] + Digits(v);
    var hasnohigh := if buf[1] >= 128 then 0 else 1;
    assert buf[hasnohigh..] == Magnitude(v);
    r := PutString(b, buf[hasnohigh..]);
  }

  /** buffer_put_bignum, with the older 16-bit count. */
  method PutBignum(b: Buffer, v: nat) returns (r: Outcome)
    requires b.Valid()
    modifies b, b.buf
    ensures b.Valid() && (b.buf == old(b.buf) || fresh(b.buf))
    ensures r.Pass? ==> b.Contents() == old(b.Contents()) + EncBignum(v)
    ensures |EncBignum(v)| <= BUFFER_MAX_CHUNK && old(b.alloc) + |EncBignum(v)| + 2 * BUFFER_ALLOCSZ <= BUFFER_MAX_LEN ==>
              r.Pass?
    ensures b.alloc <= old(b.alloc) + |EncBignum(v)| + 2 * BUFFER_ALLOCSZ
  {
    r := b.Append(PutU16(Bits(v)));
    if r.Fatal? {
      return;
    }
    r := b.Append(Digits(v));
    assert r.Pass? ==> b.Contents() == old(b.Contents()) + (PutU16(Bits(v)) + Digits(v));
  }

  /** buffer_get_bignum_ret. */
  method GetBignumRet(b: Buffer) returns (st: Status, v: nat)
    requires b.Valid()
    modifies b
    ensures b.Valid() && b.buf == old(b.buf) && b.alloc == old(b.alloc)
    ensures Agrees(DecBignum(old(b.Contents())), st, v, b.Contents())
    ensures st == Null ==> b.Contents() == if |old(b.Contents())| < 2 then old(b.Contents()) else old(b.Contents())[2..]
  {
    ghost var was := b.Contents();
    v := 0;
    var ok, head := b.GetRet(2);
    if !ok {
      return Null, 0;
    }
    assert head == was[..2];
    var bytes := (Value(head) + 7) / 8;
    if bytes > BIGNUM_MAX {
      return Null, 0;
    }
    if b.Length() < bytes {
      return Null, 0;
    }
    var bin;
    ok, bin := b.GetRet(bytes);
    assert was == head + bin + b.Contents();
    st, v := Ok, Value(bin);
  }

  /** buffer_get_string_ret. */
  method GetStringRet(b: Buffer) returns (st: Status, s: seq<u8>)
    requires b.Valid()
    modifies b
    ensures b.Valid() && b.buf == old(b.buf) && b.alloc == old(b.alloc)
    ensures Agrees(DecString(old(b.Contents())), st, s, b.Contents())
    ensures st == Null ==> |old(b.Contents())| >= 4 && b.Contents() == old(b.Contents())[4..]
    ensures st == Dead ==> b.Contents() == old(b.Contents())
  {
    ghost var was := b.Contents();
    var ok, head := b.GetRet(4);
    if !ok {
      return Dead, [];
    }
    assert head == was[..4];
    var len := Value(head);
    if len > STRING_MAX {
      return Null, [];
    }
    ok, s := b.GetRet(len);
    if !ok {
      return Null, [];
    }
    assert was == head + s + b.Contents();
    st := Ok;
  }

  /** buffer_get_bignum2_ret. */
  method GetBignum2Ret(b: Buffer) returns (st: Status, v: nat)
    requires b.Valid()
    modifies b
    ensures b.Valid() && b.buf == old(b.buf) && b.alloc == old(b.alloc)
    ensures Agrees(DecMpint(old(b.Contents())), st, v, b.Contents())
    ensures st == Null ==> |old(b.Contents())| >= 4
    ensures st == Null ==>
              match DecString(old(b.Contents()))
              case Done(_, rest) => b.Contents() == rest
              case _ => b.Contents() == old(b.Contents())[4..]
    ensures st == Dead ==> b.Contents() == old(b.Contents())
  {
    var bin: seq<u8>;
    st, bin := GetStringRet(b);
    v := 0;
    if st != Ok {
      return;
    }
    if |bin| > 0 && bin[0] >= 128 {
      return Null, 0;
    }
    if |bin| > BIGNUM_MAX {
      return Null, 0;
    }
    v := Value(bin);
  }
}
