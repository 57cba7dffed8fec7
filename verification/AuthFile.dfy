/** The SSH1 private key file of authfile.c, as an octet string. */
module AuthFile {
  import opened Bytes
  import opened Wire
  import opened KeyBlob

  const FILE_MAX: nat := 1024 * 1024
  const CIPHER_NONE: u8 := 0
  const CIPHER_DES: u8 := 2
  const CIPHER_3DES: u8 := 3
  const CIPHER_BLOWFISH: u8 := 6

  /** The identification with its terminating NUL. */
  const ID: seq<u8> := Ascii("SSH PRIVATE KEY FILE FORMAT 1.1\n") + [0]

  datatype Rsa1 = Rsa1(n: nat, e: nat, d: nat, iqmp: nat, q: nat, p: nat)

  /** cipher_crypt for a cipher number and a passphrase. */
  datatype Ciphers = Ciphers(
    encrypt: (u8, seq<u8>, seq<u8>) -> seq<u8>,
    decrypt: (u8, seq<u8>, seq<u8>) -> seq<u8>)

  /** All that is assumed of a cipher: on whole blocks it keeps the length and can be undone. */
  ghost predicate Inverts(c: Ciphers, num: u8, pass: seq<u8>) {
    forall x: seq<u8> :: |x| % 8 == 0 ==>
      |c.encrypt(num, pass, x)| == |x| && c.decrypt(num, pass, c.encrypt(num, pass, x)) == x
  }

  /** cipher_by_number has a cipher for this octet. */
  predicate Supported(num: u8) { num == CIPHER_NONE || num == CIPHER_DES || num == CIPHER_3DES || num == CIPHER_BLOWFISH }

  function CipherFor(pass: seq<u8>): (r: u8) { if pass == [] then CIPHER_NONE else CIPHER_3DES }

  function Zeros(n: nat): (r: seq<u8>)
    ensures |r| == n
  {
    if n == 0 then [] else Zeros(n - 1) + [0]
  }

  function Lack(n: nat): (r: nat)
    ensures (n + r) % 8 == 0 && r < 8
  {
    (8 - n % 8) % 8
  }

  function Padded(s: seq<u8>): (r: seq<u8>)
    ensures |r| % 8 == 0
  {
    s + Zeros(Lack(|s|))
  }

  // ---- writing ----

  function Secret(k: Rsa1, c0: u8, c1: u8): (r: seq<u8>) {
    [c0, c1, c0, c1] + (EncBignum(k.d) + EncBignum(k.iqmp)) + (EncBignum(k.q) + EncBignum(k.p))
  }

  function Head(k: Rsa1, num: u8, comment: seq<u8>): (r: seq<u8>) {
    ID + ([num] + PutU32(0) + PutU32(Bits(k.n)) + (EncBignum(k.n) + EncBignum(k.e) + EncString(comment)))
  }

  /** key_save_private_rsa1. */
  function Save(c: Ciphers, k: Rsa1, pass: seq<u8>, comment: seq<u8>, c0: u8, c1: u8): (f: seq<u8>) {
    var num := CipherFor(pass);
    Head(k, num, comment) + c.encrypt(num, pass, Padded(Secret(k, c0, c1)))
  }

  // ---- reading ----

  datatype Public = Public(cipher: u8, n: nat, e: nat, comment: seq<u8>)

  datatype Private = Private(d: nat, iqmp: nat, q: nat, p: nat)

  /** A bignum or string that cannot be read ends the process. */
  function Must<T>(p: Parsed<T>): (r: Parsed<T>) { if p.Done? then p else Aborted }

  datatype Two = Two(a: nat, b: nat)

  /** Two calls of buffer_get_bignum. */
  function LoadTwo(s: seq<u8>): (r: Parsed<Two>) {
    var v := Must(DecBignum(s));
    if !v.Done? then Aborted
    else
      var w := Must(DecBignum(v.rest));
      if !w.Done? then Aborted else Done(Two(v.value, w.value), w.rest)
  }

  function LoadNumbers(num: u8, b: seq<u8>): (r: Parsed<Public>) {
    var ne := LoadTwo(b);
    if !ne.Done? then Aborted
    else
      var s := Must(DecString(ne.rest));
      if !s.Done? then Aborted else Done(Public(num, ne.value.a, ne.value.b, s.value), s.rest)
  }

  /** key_load_public_rsa1, with what is left for the private part. */
  function LoadPublic(f: seq<u8>): (r: Parsed<Public>) {
    if |f| > FILE_MAX || |f| < |ID| || f[..|ID|] != ID then Refused
    else if |f| < |ID| + 9 then Aborted
    else LoadNumbers(f[|ID|], f[|ID| + 9..])
  }

  function LoadSecret(b: seq<u8>): (r: Parsed<Private>) {
    if |b| < 4 then Aborted
    else if b[0] != b[2] || b[1] != b[3] then Refused
    else
      var du := LoadTwo(b[4..]);
      if !du.Done? then Aborted
      else
        var qp := LoadTwo(du.rest);
        if !qp.Done? then Aborted
        else Done(Private(du.value.a, du.value.b, qp.value.a, qp.value.b), qp.rest)
  }

  datatype Loaded = Loaded(key: Rsa1, comment: seq<u8>) | NoKey | Died

  /** key_load_private_rsa1. */
  function Load(c: Ciphers, f: seq<u8>, pass: seq<u8>): (r: Loaded) {
    match LoadPublic(f)
    case Refused => NoKey
    case Aborted => Died
    case Done(h, rest) =>
      if !Supported(h.cipher) then NoKey
      else if |rest| % 8 != 0 then Died
      else
        match LoadSecret(c.decrypt(h.cipher, pass, rest))
        case Refused => NoKey
        case Aborted => Died
        case Done(x, _) => Loaded(Rsa1(h.n, h.e, x.d, x.iqmp, x.q, x.p), h.comment)
  }

  // ---- numbers that fit and numbers that do not ----

  predicate Short(v: nat) { Bits(v) < 0x1_0000 }

  lemma {:induction false} PrefixValue(s: seq<u8>, j: nat)
    requires j <= |s|
    ensures Value(s[..j]) <= Value(s)
  {
    if j < |s| {
      PrefixValue(s[..|s| - 1], j);
      assert s[..|s| - 1][..j] == s[..j];
    } else {
      assert s[..j] == s;
    }
  }

  /** A number too long for the 16-bit count is read back as a smaller one. */
  lemma {:induction false} LongMisread(v: nat, rest: seq<u8>)
    requires !Short(v)
    ensures DecBignum(EncBignum(v) + rest).Done? && DecBignum(EncBignum(v) + rest).value != v
  {
    var t, bytes := Digits(v) + rest, Expected(Bits(v));
    BignumDecodes(v, rest, t, bytes);
    BitsAreOctets(v);
    DigitsValue(v);
    var s := Digits(v);
    assert t[..bytes] == s[..|s| - 1][..bytes];
    PrefixValue(s[..|s| - 1], bytes);
  }

  /** Reading a written number gives that number and the rest, or another number. */
  lemma {:induction false} ReadBack(v: nat, rest: seq<u8>)
    ensures Short(v) ==> DecBignum(EncBignum(v) + rest) == Done(v, rest)
    ensures !Short(v) ==> DecBignum(EncBignum(v) + rest).Done? && DecBignum(EncBignum(v) + rest).value != v
  {
    BignumRoundTrip(v, rest);
    if !Short(v) {
      LongMisread(v, rest);
    }
  }

  // ---- the two parts of the file ----

  predicate PublicFits(k: Rsa1, comment: seq<u8>) { Short(k.n) && Short(k.e) && |comment| <= STRING_MAX }

  predicate SecretFits(k: Rsa1) { Short(k.d) && Short(k.iqmp) && Short(k.q) && Short(k.p) }

  lemma {:induction false} TwoBack(v: nat, w: nat, rest: seq<u8>)
    ensures var r := LoadTwo(EncBignum(v) + EncBignum(w) + rest);
            if Short(v) && Short(w) then r == Done(Two(v, w), rest)
            else r.Aborted? || (r.Done? && r.value != Two(v, w))
  {
    var b := EncBignum(w) + rest;
    assert EncBignum(v) + EncBignum(w) + rest == EncBignum(v) + b;
    ReadBack(v, b);
    if Short(v) {
      ReadBack(w, rest);
    }
  }

  lemma {:induction false} Grouped(a: seq<u8>, b: seq<u8>, c: seq<u8>, d: seq<u8>)
    ensures a + b + c + d == a + b + (c + d)
  {
  }

  /** The public part of a file, once its two numbers and the comment are known to read so. */
  lemma {:induction false} NumbersFrom(k: Rsa1, num: u8, comment: seq<u8>, tail: seq<u8>, s: seq<u8>, b: seq<u8>)
    requires if Short(k.n) && Short(k.e) then LoadTwo(s) == Done(Two(k.n, k.e), b)
             else LoadTwo(s).Aborted? || (LoadTwo(s).Done? && LoadTwo(s).value != Two(k.n, k.e))
    requires if |comment| <= STRING_MAX then DecString(b) == Done(comment, tail) else !DecString(b).Done?
    ensures var r := LoadNumbers(num, s);
            if PublicFits(k, comment) then r == Done(Public(num, k.n, k.e, comment), tail)
            else r.Aborted? || (r.Done? && (r.value.n != k.n || r.value.e != k.e))
  {
  }

  lemma {:induction false} NumbersBack(k: Rsa1, num: u8, comment: seq<u8>, tail: seq<u8>)
    requires |comment| < U32
    ensures var r := LoadNumbers(num, EncBignum(k.n) + EncBignum(k.e) + EncString(comment) + tail);
            if PublicFits(k, comment) then r == Done(Public(num, k.n, k.e, comment), tail)
            else r.Aborted? || (r.Done? && (r.value.n != k.n || r.value.e != k.e))
  {
    var b := EncString(comment) + tail;
    Grouped(EncBignum(k.n), EncBignum(k.e), EncString(comment), tail);
    TwoBack(k.n, k.e, b);
    StringRoundTrip(comment, tail);
    NumbersFrom(k, num, comment, tail, EncBignum(k.n) + EncBignum(k.e) + b, b);
  }

  lemma {:induction false} HeadBack(k: Rsa1, num: u8, comment: seq<u8>, tail: seq<u8>)
    requires |comment| < U32
    ensures var r := LoadPublic(Head(k, num, comment) + tail);
            if |Head(k, num, comment)| + |tail| > FILE_MAX then r.Refused?
            else if PublicFits(k, comment) then r == Done(Public(num, k.n, k.e, comment), tail)
            else r.Aborted? || (r.Done? && (r.value.n != k.n || r.value.e != k.e))
  {
    var f := Head(k, num, comment) + tail;
    var fix := [num] + PutU32(0) + PutU32(Bits(k.n));
    var body := EncBignum(k.n) + EncBignum(k.e) + EncString(comment);
    assert |fix| == 9 && fix[0] == num;
    Skip(ID, fix + body + tail, 9);
    assert f == ID + (fix + body + tail);
    assert f[..|ID|] == ID && f[|ID|] == num;
    assert f[|ID| + 9..] == body + tail;
    NumbersBack(k, num, comment, tail);
  }

  /** The private part, once its four numbers are known to read so. */
  lemma {:induction false} SecretFrom(k: Rsa1, s: seq<u8>, b: seq<u8>, pad: seq<u8>)
    requires |s| >= 4 && s[0] == s[2] && s[1] == s[3]
    requires if Short(k.d) && Short(k.iqmp) then LoadTwo(s[4..]) == Done(Two(k.d, k.iqmp), b)
             else LoadTwo(s[4..]).Aborted? || (LoadTwo(s[4..]).Done? && LoadTwo(s[4..]).value != Two(k.d, k.iqmp))
    requires if Short(k.q) && Short(k.p) then LoadTwo(b) == Done(Two(k.q, k.p), pad)
             else LoadTwo(b).Aborted? || (LoadTwo(b).Done? && LoadTwo(b).value != Two(k.q, k.p))
    ensures var r := LoadSecret(s);
            if SecretFits(k) then r == Done(Private(k.d, k.iqmp, k.q, k.p), pad)
            else r.Aborted? || (r.Done? && r.value != Private(k.d, k.iqmp, k.q, k.p))
  {
  }

  lemma {:induction false} SecretLayout(head: seq<u8>, a: seq<u8>, b: seq<u8>, c: seq<u8>, d: seq<u8>, pad: seq<u8>, s: seq<u8>)
    requires |head| == 4 && s == head + a + b + c + d + pad
    ensures |s| >= 4 && s[..4] == head && s[4..] == a + b + (c + d + pad)
  {
  }

  lemma {:induction false} SecretBack(k: Rsa1, c0: u8, c1: u8, pad: seq<u8>)
    ensures var r := LoadSecret(Secret(k, c0, c1) + pad);
            if SecretFits(k) then r == Done(Private(k.d, k.iqmp, k.q, k.p), pad)
            else r.Aborted? || (r.Done? && r.value != Private(k.d, k.iqmp, k.q, k.p))
  {
    var b, s := EncBignum(k.q) + EncBignum(k.p) + pad, Secret(k, c0, c1) + pad;
    SecretLayout([c0, c1, c0, c1], EncBignum(k.d), EncBignum(k.iqmp), EncBignum(k.q), EncBignum(k.p), pad, s);
    assert s[0] == s[..4][0] && s[1] == s[..4][1] && s[2] == s[..4][2] && s[3] == s[..4][3];
    TwoBack(k.d, k.iqmp, b);
    TwoBack(k.q, k.p, pad);
    SecretFrom(k, s, b, pad);
  }

  lemma {:induction false} PaddedBack(k: Rsa1, c0: u8, c1: u8, x: seq<u8>)
    requires x == Padded(Secret(k, c0, c1))
    ensures var r := LoadSecret(x);
            if SecretFits(k) then r.Done? && r.value == Private(k.d, k.iqmp, k.q, k.p)
            else r.Aborted? || (r.Done? && r.value != Private(k.d, k.iqmp, k.q, k.p))
  {
    SecretBack(k, c0, c1, Zeros(Lack(|Secret(k, c0, c1)|)));
  }

  lemma {:induction false} ShortOctets(v: nat)
    requires Short(v)
    ensures |EncBignum(v)| <= 2 + BIGNUM_MAX
  {
    BitsAreOctets(v);
  }

  /** Whatever fits in its fields fits in the file. */
  lemma {:induction false} FitsInFile(k: Rsa1, num: u8, comment: seq<u8>, c0: u8, c1: u8)
    requires PublicFits(k, comment) && SecretFits(k)
    ensures |Head(k, num, comment)| + |Padded(Secret(k, c0, c1))| <= FILE_MAX
  {
    ShortOctets(k.n);
    ShortOctets(k.e);
    ShortOctets(k.d);
    ShortOctets(k.iqmp);
    ShortOctets(k.q);
    ShortOctets(k.p);
    assert |Secret(k, c0, c1)| <= 4 + 4 * (2 + BIGNUM_MAX);
    assert |Head(k, num, comment)| <= |ID| + 9 + 2 * (2 + BIGNUM_MAX) + 4 + STRING_MAX;
  }

  /** How the results for the two parts combine. */
  lemma {:induction false} Outcomes(c: Ciphers, k: Rsa1, pass: seq<u8>, comment: seq<u8>, f: seq<u8>, x: seq<u8>, tail: seq<u8>)
    requires |tail| % 8 == 0 && c.decrypt(CipherFor(pass), pass, tail) == x
    requires var r := LoadPublic(f);
             if r.Done? && PublicFits(k, comment) then r == Done(Public(CipherFor(pass), k.n, k.e, comment), tail)
             else r.Done? ==> r.value.n != k.n || r.value.e != k.e
    requires var r := LoadSecret(x);
             if SecretFits(k) then r.Done? && r.value == Private(k.d, k.iqmp, k.q, k.p)
             else r.Aborted? || (r.Done? && r.value != Private(k.d, k.iqmp, k.q, k.p))
    ensures Load(c, f, pass) == Loaded(k, comment) <==>
              LoadPublic(f).Done? && PublicFits(k, comment) && SecretFits(k)
  {
  }

  /** What is read from the two parts of a saved file. */
  lemma {:induction false} SavedParts(c: Ciphers, k: Rsa1, pass: seq<u8>, comment: seq<u8>, c0: u8, c1: u8)
    returns (f: seq<u8>, x: seq<u8>, tail: seq<u8>)
    requires Inverts(c, CipherFor(pass), pass) && |comment| < U32
    ensures f == Save(c, k, pass, comment, c0, c1)
    ensures |tail| % 8 == 0 && c.decrypt(CipherFor(pass), pass, tail) == x
    ensures var r := LoadPublic(f);
            if r.Done? && PublicFits(k, comment) then r == Done(Public(CipherFor(pass), k.n, k.e, comment), tail)
            else r.Done? ==> r.value.n != k.n || r.value.e != k.e
    ensures PublicFits(k, comment) && SecretFits(k) ==> LoadPublic(f).Done?
    ensures var r := LoadSecret(x);
            if SecretFits(k) then r.Done? && r.value == Private(k.d, k.iqmp, k.q, k.p)
            else r.Aborted? || (r.Done? && r.value != Private(k.d, k.iqmp, k.q, k.p))
  {
    var num := CipherFor(pass);
    x := Padded(Secret(k, c0, c1));
    tail := c.encrypt(num, pass, x);
    f := Save(c, k, pass, comment, c0, c1);
    assert |tail| == |x| && c.decrypt(num, pass, tail) == x;
    HeadBack(k, num, comment, tail);
    PaddedBack(k, c0, c1, x);
    if PublicFits(k, comment) && SecretFits(k) {
      FitsInFile(k, num, comment, c0, c1);
    }
  }

  // ---- results ----

  /**
   Loading a saved key with the same passphrase gives back all six numbers and the comment
   exactly when each number has at most 65535 bits and the comment at most 256 KB.
   */
  lemma {:induction false} SaveLoad(c: Ciphers, k: Rsa1, pass: seq<u8>, comment: seq<u8>, c0: u8, c1: u8)
    requires Inverts(c, CipherFor(pass), pass) && |comment| < U32
    ensures Load(c, Save(c, k, pass, comment, c0, c1), pass) == Loaded(k, comment) <==>
              PublicFits(k, comment) && SecretFits(k)
  {
    var f, x, tail := SavedParts(c, k, pass, comment, c0, c1);
    Outcomes(c, k, pass, comment, f, x, tail);
  }

  /** The public part can be read without the passphrase, whatever the private part is. */
  lemma {:induction false} SaveLoadPublic(c: Ciphers, k: Rsa1, pass: seq<u8>, comment: seq<u8>, c0: u8, c1: u8)
    requires Inverts(c, CipherFor(pass), pass) && |comment| < U32
    ensures var f := Save(c, k, pass, comment, c0, c1);
            var r := LoadPublic(f);
            r.Done? && r.value.n == k.n && r.value.e == k.e && r.value.comment == comment <==>
              PublicFits(k, comment) && |f| <= FILE_MAX
  {
    var num := CipherFor(pass);
    HeadBack(k, num, comment, c.encrypt(num, pass, Padded(Secret(k, c0, c1))));
  }
}
