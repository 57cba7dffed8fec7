/** Public keys on the wire: key_to_blob and key_from_blob of key.c. */
module KeyBlob {
  import opened Bytes
  import opened SshBuffer
  import opened Wire
  import opened BufferAux

  datatype Key =
    | Rsa1Key(n1: nat, e1: nat)
    | RsaKey(e: nat, n: nat)
    | DsaKey(p: nat, q: nat, g: nat, pub: nat)
    | UnspecKey

  datatype KeyType = KeyRsa1 | KeyRsa | KeyDsa | KeyUnspec

  /** The octets of a string constant. */
  function Ascii(s: string): (r: seq<u8>)
    ensures |r| == |s|
  {
    seq(|s|, i requires 0 <= i < |s| => (s[i] as int % 256) as u8)
  }

  const SSH_RSA: seq<u8> := Ascii("ssh-rsa")
  const SSH_DSS: seq<u8> := Ascii("ssh-dss")

  /** The C string in a block of octets: up to the first zero. */
  function CString(s: seq<u8>): (r: seq<u8>)
    ensures r <= s && 0 !in r
  {
    if s == [] || s[0] == 0 then [] else [s[0]] + CString(s[1..])
  }

  function KeyTypeFromName(name: seq<u8>): (r: KeyType) {
    if name == Ascii("rsa1") then KeyRsa1
    else if name == Ascii("rsa") then KeyRsa
    else if name == Ascii("dsa") then KeyDsa
    else if name == SSH_RSA then KeyRsa
    else if name == SSH_DSS then KeyDsa
    else KeyUnspec
  }

  /** The blob of a key that has one. */
  function Blob(k: Key): (r: seq<u8>)
    requires k.RsaKey? || k.DsaKey?
  {
    match k
    case RsaKey(e, n) => EncString(SSH_RSA) + EncMpint(e) + EncMpint(n)
    case DsaKey(p, q, g, pub) => EncString(SSH_DSS) + EncMpint(p) + EncMpint(q) + EncMpint(g) + EncMpint(pub)
  }

  /** What key_from_blob makes of a blob, and the octets it leaves unread. */
  function FromBlob(b: seq<u8>): (r: Parsed<Key>) {
    match DecString(b)
    case Aborted => Aborted
    case Refused => Refused
    case Done(ktype, b1) =>
      match KeyTypeFromName(CString(ktype))
      case KeyRsa => FromRsa(b1)
      case KeyDsa => FromDsa(b1)
      case KeyUnspec => Done(UnspecKey, b1)
      case KeyRsa1 => Refused
  }

  function FromRsa(b: seq<u8>): (r: Parsed<Key>) {
    match DecMpint(b)
    case Aborted => Aborted
    case Refused => Refused
    case Done(e, b1) =>
      match DecMpint(b1)
      case Aborted => Aborted
      case Refused => Refused
      case Done(n, b2) => Done(RsaKey(e, n), b2)
  }

  function FromDsa(b: seq<u8>): (r: Parsed<Key>) {
    match DecMpint(b)
    case Aborted => Aborted
    case Refused => Refused
    case Done(p, b1) =>
      match DecMpint(b1)
      case Aborted => Aborted
      case Refused => Refused
      case Done(q, b2) =>
        match DecMpint(b2)
        case Aborted => Aborted
        case Refused => Refused
        case Done(g, b3) =>
          match DecMpint(b3)
          case Aborted => Aborted
          case Refused => Refused
          case Done(pub, b4) => Done(DsaKey(p, q, g, pub), b4)
  }

  predicate Fits(v: nat) { |Magnitude(v)| <= BIGNUM_MAX }

  /** Every number of the key is within what buffer_get_bignum2_ret reads. */
  predicate KeyFits(k: Key) {
    match k
    case RsaKey(e, n) => Fits(e) && Fits(n)
    case DsaKey(p, q, g, pub) => Fits(p) && Fits(q) && Fits(g) && Fits(pub)
    case _ => false
  }

  lemma {:induction false} NamesAreDistinct()
    ensures CString(SSH_RSA) == SSH_RSA && CString(SSH_DSS) == SSH_DSS
    ensures KeyTypeFromName(SSH_RSA) == KeyRsa && KeyTypeFromName(SSH_DSS) == KeyDsa
  {
    NoZeros(SSH_RSA);
    NoZeros(SSH_DSS);
    assert SSH_RSA[4] == 'r' as int as u8 && SSH_DSS[4] == 'd' as int as u8;
  }

  lemma {:induction false} NoZeros(s: seq<u8>)
    requires 0 !in s
    ensures CString(s) == s
  {
    if s != [] {
      NoZeros(s[1..]);
    }
  }

  /** Every number can be given a 32-bit length at all. */
  predicate KeyWritable(k: Key) {
    match k
    case RsaKey(e, n) => |Magnitude(e)| < U32 && |Magnitude(n)| < U32
    case DsaKey(p, q, g, pub) =>
      |Magnitude(p)| < U32 && |Magnitude(q)| < U32 && |Magnitude(g)| < U32 && |Magnitude(pub)| < U32
    case _ => false
  }

  lemma {:induction false} RsaBody(k: Key)
    requires k.RsaKey? && KeyWritable(k)
    ensures FromRsa(EncMpint(k.e) + EncMpint(k.n)) == if KeyFits(k) then Done(k, []) else Refused
  {
    var n := EncMpint(k.n);
    MpintRoundTrip(k.e, n);
    assert n == n + [];
    MpintRoundTrip(k.n, []);
  }

  lemma {:induction false} DsaBody(k: Key)
    requires k.DsaKey? && KeyWritable(k)
    ensures FromDsa(EncMpint(k.p) + (EncMpint(k.q) + (EncMpint(k.g) + EncMpint(k.pub)))) ==
            if KeyFits(k) then Done(k, []) else Refused
  {
    var q, g, y := EncMpint(k.q), EncMpint(k.g), EncMpint(k.pub);
    MpintRoundTrip(k.p, q + (g + y));
    MpintRoundTrip(k.q, g + y);
    MpintRoundTrip(k.g, y);
    assert y == y + [];
    MpintRoundTrip(k.pub, []);
  }

  lemma {:induction false} Regroup(h: seq<u8>, a: seq<u8>, b: seq<u8>, c: seq<u8>, d: seq<u8>)
    ensures h + a + b + c + d == h + (a + (b + (c + d)))
  {
  }

  /** A key comes back from its blob with nothing left over, exactly when its numbers are within the limit. */
  lemma {:induction false} BlobRoundTrip(k: Key)
    requires KeyWritable(k)
    ensures FromBlob(Blob(k)) == if KeyFits(k) then Done(k, []) else Refused
  {
    NamesAreDistinct();
    match k
    case RsaKey(e, n) =>
      var body := EncMpint(e) + EncMpint(n);
      assert Blob(k) == EncString(SSH_RSA) + body;
      StringRoundTrip(SSH_RSA, body);
      RsaBody(k);
    case DsaKey(p, q, g, pub) =>
      var body := EncMpint(p) + (EncMpint(q) + (EncMpint(g) + EncMpint(pub)));
      Regroup(EncString(SSH_DSS), EncMpint(p), EncMpint(q), EncMpint(g), EncMpint(pub));
      StringRoundTrip(SSH_DSS, body);
      DsaBody(k);
  }

  // ---- the program's own routines ----

  method PutRsa(b: Buffer, k: Key) returns (r: Outcome)
    requires b.Valid() && k.RsaKey? && b.Contents() == []
    modifies b, b.buf
    ensures b.Valid()
    ensures r.Pass? ==> b.Contents() == Blob(k)
    ensures old(b.alloc) == 4096 && KeyFits(k) ==> r.Pass?
  {
    r := PutString(b, SSH_RSA);
    if r.Fatal? {
      return;
    }
    assert b.Contents() == EncString(SSH_RSA);
    r := PutBignum2(b, k.e);
    if r.Fatal? {
      return;
    }
    r := PutBignum2(b, k.n);
  }

  method PutDsa(b: Buffer, k: Key) returns (r: Outcome)
    requires b.Valid() && k.DsaKey? && b.Contents() == []
    modifies b, b.buf
    ensures b.Valid()
    ensures r.Pass? ==> b.Contents() == Blob(k)
    ensures old(b.alloc) == 4096 && KeyFits(k) ==> r.Pass?
  {
    r := PutString(b, SSH_DSS);
    if r.Fatal? {
      return;
    }
    assert b.Contents() == EncString(SSH_DSS);
    r := PutBignum2(b, k.p);
    if r.Fatal? {
      return;
    }
    r := PutBignum2(b, k.q);
    if r.Fatal? {
      return;
    }
    r := PutBignum2(b, k.g);
    if r.Fatal? {
      return;
    }
    r := PutBignum2(b, k.pub);
  }

  /** key_to_blob answers 0 for keys without a blob, and never aborts for keys it can read back. */
  method KeyToBlob(k: Key) returns (r: Outcome, len: nat, blob: seq<u8>)
    ensures r.Pass? && (k.RsaKey? || k.DsaKey?) ==> blob == Blob(k) && len == |blob|
    ensures !(k.RsaKey? || k.DsaKey?) ==> r.Pass? && len == 0
    ensures KeyFits(k) ==> r.Pass?
  {
    var b := new Buffer();
    r, len, blob := Pass, 0, [];
    if k.DsaKey? {
      r := PutDsa(b, k);
    } else if k.RsaKey? {
      r := PutRsa(b, k);
    } else {
      return;
    }
    if r.Pass? {
      assert b.Contents() == Blob(k);
      len := b.Length();
      blob := b.buf[b.offset..b.end];
    }
  }

  method GetRsa(b: Buffer) returns (st: Status, k: Key)
    requires b.Valid()
    modifies b
    ensures b.Valid() && b.buf == old(b.buf)
    ensures Agrees(FromRsa(old(b.Contents())), st, k, b.Contents())
  {
    var e, n: nat;
    k := UnspecKey;
    st, e := GetBignum2Ret(b);
    if st == Ok {
      st, n := GetBignum2Ret(b);
      if st == Ok {
        k := RsaKey(e, n);
      }
    }
  }

  method GetDsa(b: Buffer) returns (st: Status, k: Key)
    requires b.Valid()
    modifies b
    ensures b.Valid() && b.buf == old(b.buf)
    ensures Agrees(FromDsa(old(b.Contents())), st, k, b.Contents())
  {
    var p, q, g, pub: nat;
    k := UnspecKey;
    st, p := GetBignum2Ret(b);
    if st == Ok {
      st, q := GetBignum2Ret(b);
      if st == Ok {
        st, g := GetBignum2Ret(b);
        if st == Ok {
          st, pub := GetBignum2Ret(b);
          if st == Ok {
            k := DsaKey(p, q, g, pub);
          }
        }
      }
    }
  }

  method GetKey(b: Buffer) returns (st: Status, k: Key)
    requires b.Valid()
    modifies b
    ensures b.Valid() && b.buf == old(b.buf)
    ensures Agrees(FromBlob(old(b.Contents())), st, k, b.Contents())
  {
    k := UnspecKey;
    var ktype;
    st, ktype := GetStringRet(b);
    if st != Ok {
      return;
    }
    match KeyTypeFromName(CString(ktype))
    case KeyRsa => st, k := GetRsa(b);
    case KeyDsa => st, k := GetDsa(b);
    case KeyUnspec => k := UnspecKey;
    case KeyRsa1 => st := Null;
  }

  /** key_from_blob; a blob too large for one buffer ends the process. */
  method KeyFromBlob(blob: seq<u8>) returns (st: Status, k: Key, rlen: nat)
    ensures |blob| > BUFFER_MAX_CHUNK ==> st == Dead
    ensures |blob| <= BUFFER_MAX_CHUNK ==>
              match FromBlob(blob)
              case Done(w, rest) => st == Ok && k == w && rlen == |rest|
              case Refused => st == Null
              case Aborted => st == Dead
  {
    var b := new Buffer();
    k, rlen := UnspecKey, 0;
    var r := b.Append(blob);
    if r.Fatal? {
      return Dead, k, rlen;
    }
    assert b.Contents() == blob;
    st, k := GetKey(b);
    if st == Ok {
      rlen := b.Length();
    }
  }
}
