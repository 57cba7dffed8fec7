/** CBC mode over any block permutation: ssh_rijndael_cbc of cipher-aes.c. */
module CipherCbc {
  import opened Bytes

  const BLOCK: nat := 16

  /** The two directions of a keyed block cipher. */
  datatype Cipher = Cipher(encrypt: seq<byte> -> seq<byte>, decrypt: seq<byte> -> seq<byte>)

  /** Both directions keep the block length, and each undoes the other. */
  ghost predicate Permutes(k: Cipher) {
    forall b: seq<byte> :: |b| == BLOCK ==>
      && |k.encrypt(b)| == BLOCK && k.decrypt(k.encrypt(b)) == b
      && |k.decrypt(b)| == BLOCK && k.encrypt(k.decrypt(b)) == b
  }

  function Xor(a: seq<byte>, b: seq<byte>): (r: seq<byte>)
    requires |a| == |b|
    ensures |r| == |a|
  {
    seq(|a|, i requires 0 <= i < |a| => Mix(a[i], b[i]))
  }

  lemma {:induction false} XorTwice(a: seq<byte>, b: seq<byte>)
    requires |a| == |b|
    ensures Xor(Xor(a, b), b) == a
  {
  }

  // ---- the mode ----

  /** Block i of an octet string. */
  function At(s: seq<byte>, i: nat): (r: seq<byte>)
    requires BLOCK * i + BLOCK <= |s|
    ensures |r| == BLOCK
  {
    s[BLOCK * i..BLOCK * i + BLOCK]
  }

  /** The block of ciphertext in front of block i. */
  function Prev(iv: seq<byte>, c: seq<byte>, i: nat): (r: seq<byte>)
    requires |iv| == BLOCK && BLOCK * i <= |c|
    ensures |r| == BLOCK
  {
    if i == 0 then iv else At(c, i - 1)
  }

  /** The equation of section 6.2 of NIST SP 800-38A for encryption of block i. */
  predicate EncAt(k: Cipher, iv: seq<byte>, p: seq<byte>, c: seq<byte>, i: nat)
    requires |iv| == BLOCK && |p| == |c| && BLOCK * i + BLOCK <= |p|
  {
    At(c, i) == k.encrypt(Xor(At(p, i), Prev(iv, c, i)))
  }

  /** The equations for n blocks. */
  ghost predicate Enciphers(k: Cipher, iv: seq<byte>, p: seq<byte>, c: seq<byte>, n: nat) {
    |iv| == BLOCK && |p| == |c| == BLOCK * n && forall i: nat :: i < n ==> EncAt(k, iv, p, c, i)
  }

  /** The equation for decryption; the length is that of the permuted block. */
  predicate DecAt(k: Cipher, iv: seq<byte>, c: seq<byte>, p: seq<byte>, i: nat)
    requires |iv| == BLOCK && |p| == |c| && BLOCK * i + BLOCK <= |p|
  {
    |k.decrypt(At(c, i))| == BLOCK && At(p, i) == Xor(k.decrypt(At(c, i)), Prev(iv, c, i))
  }

  ghost predicate Deciphers(k: Cipher, iv: seq<byte>, c: seq<byte>, p: seq<byte>, n: nat) {
    |iv| == BLOCK && |p| == |c| == BLOCK * n && forall i: nat :: i < n ==> DecAt(k, iv, c, p, i)
  }

  /** The IV that a call leaves in the context. */
  function NextIv(iv: seq<byte>, c: seq<byte>, n: nat): (r: seq<byte>)
    requires |iv| == BLOCK && |c| == BLOCK * n
    ensures |r| == BLOCK
  {
    Prev(iv, c, n)
  }

  /** Decryption undoes encryption, and encryption undoes decryption. */
  lemma {:induction false} Dual(k: Cipher, iv: seq<byte>, p: seq<byte>, c: seq<byte>, n: nat)
    requires Permutes(k)
    ensures Enciphers(k, iv, p, c, n) <==> Deciphers(k, iv, c, p, n)
  {
    if |iv| == BLOCK && |p| == |c| == BLOCK * n {
      forall i: nat | i < n
        ensures EncAt(k, iv, p, c, i) <==> DecAt(k, iv, c, p, i)
      {
        BlockDual(k, At(p, i), At(c, i), Prev(iv, c, i));
      }
    }
  }

  lemma {:induction false} BlockDual(k: Cipher, p: seq<byte>, c: seq<byte>, v: seq<byte>)
    requires Permutes(k) && |p| == |c| == |v| == BLOCK
    ensures |k.decrypt(c)| == BLOCK
    ensures c == k.encrypt(Xor(p, v)) <==> p == Xor(k.decrypt(c), v)
  {
    XorTwice(p, v);
    XorTwice(k.decrypt(c), v);
  }

  /** A string of n blocks is known by its blocks. */
  lemma {:induction false} SameBlocks(s: seq<byte>, t: seq<byte>, n: nat)
    requires |s| == |t| == BLOCK * n && forall i: nat :: i < n ==> At(s, i) == At(t, i)
    ensures s == t
  {
    forall j: nat | j < |s|
      ensures s[j] == t[j]
    {
      var i := j / BLOCK;
      assert s[j] == At(s, i)[j - BLOCK * i] && t[j] == At(t, i)[j - BLOCK * i];
    }
  }

  /** The equations determine the ciphertext. */
  lemma {:induction false} OneCiphertext(k: Cipher, iv: seq<byte>, p: seq<byte>, c: seq<byte>, d: seq<byte>, n: nat)
    requires Enciphers(k, iv, p, c, n) && Enciphers(k, iv, p, d, n)
    ensures c == d
  {
    forall i: nat | i < n
      ensures At(c, i) == At(d, i)
    {
      SameUpTo(k, iv, p, c, d, n, i);
    }
    SameBlocks(c, d, n);
  }

  lemma {:induction false} SameUpTo(k: Cipher, iv: seq<byte>, p: seq<byte>, c: seq<byte>, d: seq<byte>, n: nat, i: nat)
    requires Enciphers(k, iv, p, c, n) && Enciphers(k, iv, p, d, n) && i < n
    ensures At(c, i) == At(d, i)
  {
    if i > 0 {
      SameUpTo(k, iv, p, c, d, n, i - 1);
    }
    assert EncAt(k, iv, p, c, i) && EncAt(k, iv, p, d, i);
  }

  /** The equations determine the plaintext. */
  lemma {:induction false} OnePlaintext(k: Cipher, iv: seq<byte>, c: seq<byte>, p: seq<byte>, q: seq<byte>, n: nat)
    requires Deciphers(k, iv, c, p, n) && Deciphers(k, iv, c, q, n)
    ensures p == q
  {
    forall i: nat | i < n
      ensures At(p, i) == At(q, i)
    {
      assert DecAt(k, iv, c, p, i) && DecAt(k, iv, c, q, i);
    }
    SameBlocks(p, q, n);
  }

  // ---- sequences of calls ----

  lemma {:induction false} AtSplit(s: seq<byte>, t: seq<byte>, m: nat, i: nat)
    requires |s| == BLOCK * m && BLOCK * i + BLOCK <= |s + t|
    ensures At(s + t, i) == if i < m then At(s, i) else At(t, i - m)
  {
  }

  lemma {:induction false} PrevSplit(iv: seq<byte>, c: seq<byte>, d: seq<byte>, m: nat, i: nat)
    requires |iv| == BLOCK && |c| == BLOCK * m && BLOCK * i <= |c + d|
    ensures Prev(iv, c + d, i) == if i <= m then Prev(iv, c, i) else Prev(NextIv(iv, c, m), d, i - m)
  {
    if i > 0 {
      AtSplit(c, d, m, i - 1);
    }
  }

  lemma {:induction false} JoinAt(k: Cipher, iv: seq<byte>, p: seq<byte>, c: seq<byte>, m: nat, q: seq<byte>, d: seq<byte>, n: nat, i: nat)
    requires Enciphers(k, iv, p, c, m) && Enciphers(k, NextIv(iv, c, m), q, d, n) && i < m + n
    ensures EncAt(k, iv, p + q, c + d, i)
  {
    AtSplit(p, q, m, i);
    AtSplit(c, d, m, i);
    PrevSplit(iv, c, d, m, i);
    if i >= m {
      assert EncAt(k, NextIv(iv, c, m), q, d, i - m);
    } else {
      assert EncAt(k, iv, p, c, i);
    }
  }

  lemma {:induction false} JoinAll(k: Cipher, iv: seq<byte>, p: seq<byte>, c: seq<byte>, m: nat, q: seq<byte>, d: seq<byte>, n: nat,
                                   w: seq<byte>, x: seq<byte>)
    requires Enciphers(k, iv, p, c, m) && Enciphers(k, NextIv(iv, c, m), q, d, n) && w == p + q && x == c + d
    ensures Enciphers(k, iv, w, x, m + n)
  {
    forall i: nat | i < m + n
      ensures EncAt(k, iv, w, x, i)
    {
      JoinAt(k, iv, p, c, m, q, d, n, i);
    }
  }

  lemma {:induction false} IvJoin(iv: seq<byte>, c: seq<byte>, d: seq<byte>, m: nat, n: nat)
    requires |iv| == BLOCK && |c| == BLOCK * m && |d| == BLOCK * n
    ensures NextIv(iv, c + d, m + n) == NextIv(NextIv(iv, c, m), d, n)
  {
    PrevSplit(iv, c, d, m, m + n);
  }

  /** Two calls, the second with the IV the first left, are one call on the concatenation. */
  lemma {:induction false} CallsJoin(k: Cipher, iv: seq<byte>, p: seq<byte>, c: seq<byte>, m: nat, q: seq<byte>, d: seq<byte>, n: nat)
    requires Enciphers(k, iv, p, c, m) && Enciphers(k, NextIv(iv, c, m), q, d, n)
    ensures Enciphers(k, iv, p + q, c + d, m + n)
    ensures NextIv(iv, c + d, m + n) == NextIv(NextIv(iv, c, m), d, n)
  {
    JoinAll(k, iv, p, c, m, q, d, n, p + q, c + d);
    IvJoin(iv, c, d, m, n);
  }

  /** The same for decryption. */
  lemma {:induction false} DecryptingCallsJoin(k: Cipher, iv: seq<byte>, c: seq<byte>, p: seq<byte>, m: nat, d: seq<byte>, q: seq<byte>, n: nat)
    requires Permutes(k) && Deciphers(k, iv, c, p, m) && Deciphers(k, NextIv(iv, c, m), d, q, n)
    ensures Deciphers(k, iv, c + d, p + q, m + n)
    ensures NextIv(iv, c + d, m + n) == NextIv(NextIv(iv, c, m), d, n)
  {
    Dual(k, iv, p, c, m);
    Dual(k, NextIv(iv, c, m), q, d, n);
    CallsJoin(k, iv, p, c, m, q, d, n);
    Dual(k, iv, p + q, c + d, m + n);
  }

  datatype Call = Call(input: seq<byte>, output: seq<byte>, blocks: nat)

  /** A context that encrypts call after call with the IV it keeps. */
  ghost predicate Sends(k: Cipher, iv: seq<byte>, xs: seq<Call>)
    decreases |xs|
  {
    xs == [] ||
    (Enciphers(k, iv, xs[0].input, xs[0].output, xs[0].blocks) &&
     Sends(k, NextIv(iv, xs[0].output, xs[0].blocks), xs[1..]))
  }

  ghost predicate Receives(k: Cipher, iv: seq<byte>, ys: seq<Call>)
    decreases |ys|
  {
    ys == [] ||
    (Deciphers(k, iv, ys[0].input, ys[0].output, ys[0].blocks) &&
     Receives(k, NextIv(iv, ys[0].input, ys[0].blocks), ys[1..]))
  }

  function Inputs(xs: seq<Call>): (r: seq<byte>) { if xs == [] then [] else xs[0].input + Inputs(xs[1..]) }

  function Outputs(xs: seq<Call>): (r: seq<byte>) { if xs == [] then [] else xs[0].output + Outputs(xs[1..]) }

  function Count(xs: seq<Call>): (r: nat) { if xs == [] then 0 else xs[0].blocks + Count(xs[1..]) }

  /** The IV after the last call. */
  function SendIv(iv: seq<byte>, xs: seq<Call>): (r: seq<byte>)
    requires |iv| == BLOCK && forall x :: x in xs ==> |x.output| == BLOCK * x.blocks
    decreases |xs|
  {
    if xs == [] then iv else SendIv(NextIv(iv, xs[0].output, xs[0].blocks), xs[1..])
  }

  lemma {:induction false} SendsSized(k: Cipher, iv: seq<byte>, xs: seq<Call>)
    requires |iv| == BLOCK && Sends(k, iv, xs)
    ensures forall x :: x in xs ==> |x.output| == BLOCK * x.blocks
    decreases |xs|
  {
    if xs != [] {
      SendsSized(k, NextIv(iv, xs[0].output, xs[0].blocks), xs[1..]);
    }
  }

  /** Any sequence of encrypting calls equals one call on the concatenation and leaves the same IV. */
  lemma {:induction false} SendsAreOneCall(k: Cipher, iv: seq<byte>, xs: seq<Call>)
    requires |iv| == BLOCK && Sends(k, iv, xs)
    ensures Enciphers(k, iv, Inputs(xs), Outputs(xs), Count(xs))
    ensures forall x :: x in xs ==> |x.output| == BLOCK * x.blocks
    ensures SendIv(iv, xs) == NextIv(iv, Outputs(xs), Count(xs))
    decreases |xs|
  {
    SendsSized(k, iv, xs);
    if xs != [] {
      var x := xs[0];
      SendsAreOneCall(k, NextIv(iv, x.output, x.blocks), xs[1..]);
      CallsJoin(k, iv, x.input, x.output, x.blocks, Inputs(xs[1..]), Outputs(xs[1..]), Count(xs[1..]));
    }
  }

  /** The same calls seen from the other end. */
  function Reversed(ys: seq<Call>): (r: seq<Call>)
    ensures |r| == |ys| && forall i: nat :: i < |r| ==> r[i] == Call(ys[i].output, ys[i].input, ys[i].blocks)
  {
    if ys == [] then [] else [Call(ys[0].output, ys[0].input, ys[0].blocks)] + Reversed(ys[1..])
  }

  lemma {:induction false} ReversedParts(ys: seq<Call>)
    ensures Inputs(Reversed(ys)) == Outputs(ys) && Outputs(Reversed(ys)) == Inputs(ys) && Count(Reversed(ys)) == Count(ys)
    decreases |ys|
  {
    if ys != [] {
      ReversedParts(ys[1..]);
      assert Reversed(ys)[1..] == Reversed(ys[1..]);
    }
  }

  /** Decrypting calls are encrypting calls read backwards. */
  lemma {:induction false} ReceivesReversed(k: Cipher, iv: seq<byte>, ys: seq<Call>)
    requires Permutes(k) && |iv| == BLOCK && Receives(k, iv, ys)
    ensures Sends(k, iv, Reversed(ys))
    decreases |ys|
  {
    if ys != [] {
      var y := ys[0];
      Dual(k, iv, y.output, y.input, y.blocks);
      ReceivesReversed(k, NextIv(iv, y.input, y.blocks), ys[1..]);
      assert Reversed(ys)[1..] == Reversed(ys[1..]);
    }
  }

  /** Any sequence of decrypting calls equals one call on the concatenation and leaves the same IV. */
  lemma {:induction false} ReceivesAreOneCall(k: Cipher, iv: seq<byte>, ys: seq<Call>)
    requires Permutes(k) && |iv| == BLOCK && Receives(k, iv, ys)
    ensures Deciphers(k, iv, Inputs(ys), Outputs(ys), Count(ys))
    ensures forall x :: x in Reversed(ys) ==> |x.output| == BLOCK * x.blocks
    ensures SendIv(iv, Reversed(ys)) == NextIv(iv, Inputs(ys), Count(ys))
  {
    ReceivesReversed(k, iv, ys);
    SendsAreOneCall(k, iv, Reversed(ys));
    ReversedParts(ys);
    Dual(k, iv, Outputs(ys), Inputs(ys), Count(ys));
  }

  /** A receiver that starts from the same IV gets back every input, over any number of calls. */
  lemma {:induction false} ReceivesWhatWasSent(k: Cipher, iv: seq<byte>, xs: seq<Call>, ys: seq<Call>, i: nat)
    requires Permutes(k) && |iv| == BLOCK && Sends(k, iv, xs) && Receives(k, iv, ys) && |xs| == |ys| && i < |xs|
    requires forall j: nat :: j < |xs| ==> ys[j].input == xs[j].output && ys[j].blocks == xs[j].blocks
    ensures ys[i].output == xs[i].input
    decreases |xs|
  {
    var x, y := xs[0], ys[0];
    if i == 0 {
      Dual(k, iv, x.input, x.output, x.blocks);
      OnePlaintext(k, iv, x.output, x.input, y.output, x.blocks);
    } else {
      ReceivesWhatWasSent(k, NextIv(iv, x.output, x.blocks), xs[1..], ys[1..], i - 1);
    }
  }

  // ---- ssh_rijndael_cbc ----

  method XorBlock(a: seq<byte>, b: seq<byte>) returns (buf: seq<byte>)
    requires |a| == |b| == BLOCK
    ensures buf == Xor(a, b)
  {
    buf := [];
    for j := 0 to BLOCK
      invariant |buf| == j && forall i: nat :: i < j ==> buf[i] == Mix(a[i], b[i])
    {
      buf := buf + [Mix(a[j], b[j])];
    }
  }

  /** Puts a block in its place and leaves the rest alone. */
  method WriteBlock(dest: array<byte>, i: nat, b: seq<byte>)
    requires BLOCK * i + BLOCK <= dest.Length && |b| == BLOCK
    modifies dest
    ensures At(dest[..], i) == b
    ensures forall m: nat :: m != i && BLOCK * m + BLOCK <= dest.Length ==> At(dest[..], m) == At(old(dest[..]), m)
  {
    for j := 0 to BLOCK
      invariant forall m: nat :: m < j ==> dest[BLOCK * i + m] == b[m]
      invariant forall m: nat :: m < dest.Length && !(BLOCK * i <= m < BLOCK * i + j) ==> dest[m] == old(dest[m])
    {
      dest[BLOCK * i + j] := b[j];
    }
  }

  /** The first n blocks are enciphered. */
  ghost predicate Front(k: Cipher, iv: seq<byte>, p: seq<byte>, c: seq<byte>, n: nat) {
    |iv| == BLOCK && |p| == |c| && BLOCK * n <= |p| && forall i: nat :: i < n ==> EncAt(k, iv, p, c, i)
  }

  /** The blocks from n on are still there. */
  ghost predicate Tail(a: seq<byte>, s: seq<byte>, n: nat) {
    |a| == |s| && forall m: nat :: n <= m && BLOCK * m + BLOCK <= |s| ==> At(a, m) == At(s, m)
  }

  lemma {:induction false} FrontGrows(k: Cipher, iv: seq<byte>, p: seq<byte>, was: seq<byte>, now: seq<byte>, n: nat)
    requires Front(k, iv, p, was, n) && |was| == |now| && BLOCK * n + BLOCK <= |p|
    requires At(now, n) == k.encrypt(Xor(At(p, n), Prev(iv, was, n)))
    requires forall m: nat :: m != n && BLOCK * m + BLOCK <= |now| ==> At(now, m) == At(was, m)
    ensures Front(k, iv, p, now, n + 1)
  {
    forall i: nat | i < n + 1
      ensures EncAt(k, iv, p, now, i)
    {
      assert Prev(iv, now, i) == Prev(iv, was, i);
      if i < n {
        assert EncAt(k, iv, p, was, i);
      }
    }
  }

  /** The blocks in front of n are still there. */
  ghost predicate Unread(a: seq<byte>, s: seq<byte>, n: nat) {
    |a| == |s| && forall m: nat :: m < n && BLOCK * m + BLOCK <= |s| ==> At(a, m) == At(s, m)
  }

  /** The blocks from n on are deciphered. */
  ghost predicate Done(k: Cipher, iv: seq<byte>, c: seq<byte>, p: seq<byte>, n: nat, blocks: nat) {
    |iv| == BLOCK && |p| == |c| == BLOCK * blocks && forall m: nat :: n <= m < blocks ==> DecAt(k, iv, c, p, m)
  }

  lemma {:induction false} UnreadPrev(iv: seq<byte>, a: seq<byte>, s: seq<byte>, i: nat)
    requires |iv| == BLOCK && Unread(a, s, i + 1) && BLOCK * i + BLOCK <= |s|
    ensures Prev(iv, a, i) == Prev(iv, s, i) && At(a, i) == At(s, i)
  {
  }

  lemma {:induction false} DoneGrows(k: Cipher, iv: seq<byte>, c: seq<byte>, was: seq<byte>, now: seq<byte>, i: nat, blocks: nat)
    requires Permutes(k) && Done(k, iv, c, was, i + 1, blocks) && |now| == |was| && i < blocks
    requires |k.decrypt(At(c, i))| == BLOCK && At(now, i) == Xor(k.decrypt(At(c, i)), Prev(iv, c, i))
    requires forall m: nat :: m != i && BLOCK * m + BLOCK <= |now| ==> At(now, m) == At(was, m)
    ensures Done(k, iv, c, now, i, blocks)
  {
    forall m: nat | i <= m < blocks
      ensures DecAt(k, iv, c, now, m)
    {
      if m > i {
        assert DecAt(k, iv, c, was, m);
      }
    }
  }

  class Rijndael {
    const key: Cipher
    var iv: seq<byte>

    ghost predicate Valid()
      reads this
    {
      Permutes(key) && |iv| == BLOCK
    }

    constructor (k: Cipher, v: seq<byte>)
      requires Permutes(k) && |v| == BLOCK
      ensures Valid() && key == k && iv == v
    {
      key, iv := k, v;
    }

    /** One round of the encrypting loop. */
    method EncryptBlock(dest: array<byte>, src: array<byte>, i: nat, cprev: seq<byte>) returns (cnow: seq<byte>)
      requires Valid() && dest.Length == src.Length && BLOCK * i + BLOCK <= src.Length && |cprev| == BLOCK
      modifies dest
      ensures At(dest[..], i) == cnow == key.encrypt(Xor(At(old(src[..]), i), cprev))
      ensures forall m: nat :: m != i && BLOCK * m + BLOCK <= dest.Length ==> At(dest[..], m) == At(old(dest[..]), m)
    {
      var plain := src[BLOCK * i..BLOCK * i + BLOCK];
      assert plain == At(src[..], i);
      var buf := XorBlock(plain, cprev);
      cnow := key.encrypt(buf);
      WriteBlock(dest, i, cnow);
    }

    method EncryptRound(dest: array<byte>, src: array<byte>, i: nat, cprev: seq<byte>, ghost s: seq<byte>)
      returns (cnow: seq<byte>)
      requires Valid() && dest.Length == src.Length && BLOCK * i + BLOCK <= src.Length
      requires cprev == Prev(iv, dest[..], i) && Tail(src[..], s, i) && Front(key, iv, s, dest[..], i)
      modifies dest
      ensures cnow == Prev(iv, dest[..], i + 1) && Tail(src[..], s, i + 1) && Front(key, iv, s, dest[..], i + 1)
    {
      ghost var was := dest[..];
      cnow := EncryptBlock(dest, src, i, cprev);
      FrontGrows(key, iv, s, was, dest[..], i);
    }

    /** The encrypting branch; dest may be src. */
    method CbcEncrypt(dest: array<byte>, src: array<byte>, blocks: nat)
      requires Valid() && dest.Length == src.Length == BLOCK * blocks
      modifies this, dest
      ensures Valid() && Enciphers(key, old(iv), old(src[..]), dest[..], blocks)
      ensures iv == NextIv(old(iv), dest[..], blocks)
    {
      ghost var s := src[..];
      var cprev := iv;
      for i := 0 to blocks
        invariant iv == old(iv) && Valid()
        invariant cprev == Prev(iv, dest[..], i) && Tail(src[..], s, i) && Front(key, iv, s, dest[..], i)
      {
        cprev := EncryptRound(dest, src, i, cprev, s);
      }
      iv := cprev;
    }

    /** One round of the decrypting loop. */
    method DecryptBlock(dest: array<byte>, src: array<byte>, i: nat)
      requires Valid() && dest.Length == src.Length && BLOCK * i + BLOCK <= src.Length
      modifies dest
      ensures At(dest[..], i) == Xor(key.decrypt(At(old(src[..]), i)), Prev(iv, old(src[..]), i))
      ensures forall m: nat :: m != i && BLOCK * m + BLOCK <= dest.Length ==> At(dest[..], m) == At(old(dest[..]), m)
    {
      var cnow := src[BLOCK * i..BLOCK * i + BLOCK];
      var ivp := if i == 0 then iv else src[BLOCK * (i - 1)..BLOCK * i];
      assert cnow == At(src[..], i) && ivp == Prev(iv, src[..], i);
      var plain := XorBlock(key.decrypt(cnow), ivp);
      WriteBlock(dest, i, plain);
    }

    /** Block i is done, and neither the blocks behind it nor the source in front of it are touched. */
    method DecryptRound(dest: array<byte>, src: array<byte>, i: nat, ghost s: seq<byte>, ghost blocks: nat)
      requires Valid() && dest.Length == src.Length == |s| == BLOCK * blocks && i < blocks
      requires Unread(src[..], s, i + 1) && Done(key, iv, s, dest[..], i + 1, blocks)
      modifies dest
      ensures Unread(src[..], s, i) && Done(key, iv, s, dest[..], i, blocks)
    {
      ghost var was := dest[..];
      UnreadPrev(iv, src[..], s, i);
      DecryptBlock(dest, src, i);
      DoneGrows(key, iv, s, was, dest[..], i, blocks);
    }

    /** The decrypting branch, from the last block to the first; dest may be src. */
    method CbcDecrypt(dest: array<byte>, src: array<byte>, blocks: nat)
      requires Valid() && dest.Length == src.Length == BLOCK * blocks
      modifies this, dest
      ensures Valid() && Deciphers(key, old(iv), old(src[..]), dest[..], blocks)
      ensures iv == NextIv(old(iv), old(src[..]), blocks)
    {
      if blocks == 0 {
        return;
      }
      ghost var s := src[..];
      var buf := src[BLOCK * (blocks - 1)..];
      assert buf == At(s, blocks - 1);
      for i := blocks downto 0
        invariant iv == old(iv) && Valid() && Unread(src[..], s, i) && Done(key, iv, s, dest[..], i, blocks)
      {
        DecryptRound(dest, src, i, s, blocks);
      }
      iv := buf;
    }
  }
}
