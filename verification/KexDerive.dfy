/** Key derivation: derive_key and kex_derive_keys of kex.c, section 7.2 of RFC 4253. */
module KexDerive {
  import opened Bytes
  import opened SshBuffer
  import opened Wire
  import opened KexChoose

  /** The negotiated digest; all that is known of it is the length of its output. */
  type Hash = seq<u8> -> seq<u8>

  ghost predicate Sized(hash: Hash, mdsz: nat) {
    mdsz > 0 && forall x :: |hash(x)| == mdsz
  }

  /** The inputs that one exchange fixes. */
  datatype Secret = Secret(hash: Hash, shared: nat, h: seq<u8>, sessionId: seq<u8>, bugDeriveKey: bool)

  /** K || H, or H alone for peers with SSH_BUG_DERIVEKEY. */
  function Common(s: Secret): (r: seq<u8>) {
    (if s.bugDeriveKey then [] else EncMpint(s.shared)) + s.h
  }

  /** K1 || K2 || ... || Kn. */
  function Stream(s: Secret, id: u8, n: nat): (r: seq<u8>) {
    if n == 0 then []
    else if n == 1 then s.hash(Common(s) + [id] + s.sessionId)
    else
      var have := Stream(s, id, n - 1);
      have + s.hash(Common(s) + have)
  }

  /** n times m, by addition. */
  function Times(n: nat, m: nat): (r: nat) {
    if n == 0 then 0 else Times(n - 1, m) + m
  }

  lemma {:induction false} TimesGrows(i: nat, n: nat, m: nat)
    requires i <= n
    ensures Times(i, m) <= Times(n, m)
    decreases n
  {
    if i < n {
      TimesGrows(i, n - 1, m);
    }
  }

  lemma {:induction false} TimesIsProduct(n: nat, m: nat)
    ensures Times(n, m) == n * m
  {
    if n > 0 {
      TimesIsProduct(n - 1, m);
      assert n * m == (n - 1) * m + m;
    }
  }

  lemma {:induction false} StreamLength(s: Secret, mdsz: nat, id: u8, n: nat)
    requires Sized(s.hash, mdsz)
    ensures |Stream(s, id, n)| == Times(n, mdsz)
  {
    if n > 1 {
      StreamLength(s, mdsz, id, n - 1);
    }
  }

  /** A shorter request is the beginning of a longer one. */
  lemma {:induction false} StreamPrefix(s: Secret, id: u8, m: nat, n: nat)
    requires m <= n
    ensures Stream(s, id, m) <= Stream(s, id, n)
    decreases n
  {
    if m < n && n > 1 {
      StreamPrefix(s, id, m, n - 1);
    }
  }

  /** How many digest outputs make `need` octets. */
  function Chunks(need: nat, mdsz: nat): (r: nat)
    requires mdsz > 0
  {
    (need + (mdsz - 1)) / mdsz
  }

  lemma {:induction false} ChunksCover(need: nat, mdsz: nat)
    requires mdsz > 0 && need > 0
    ensures Chunks(need, mdsz) >= 1
    ensures Times(Chunks(need, mdsz), mdsz) == RoundUp(need, mdsz) >= need
    ensures Times(Chunks(need, mdsz) - 1, mdsz) < need
  {
    var n := Chunks(need, mdsz);
    assert n >= 1 by {
      assert need + (mdsz - 1) >= mdsz;
    }
    TimesIsProduct(n, mdsz);
  }

  lemma {:induction false} ChunksGrow(a: nat, b: nat, mdsz: nat)
    requires mdsz > 0 && a <= b
    ensures Chunks(a, mdsz) <= Chunks(b, mdsz)
  {
    var p, q := Chunks(a, mdsz), Chunks(b, mdsz);
    assert a + (mdsz - 1) >= mdsz * p;
    assert b + (mdsz - 1) < mdsz * q + mdsz;
    if q < p {
      LargerProduct(mdsz, q, p);
    }
  }

  lemma {:induction false} LargerProduct(m: nat, q: nat, p: nat)
    requires q < p
    ensures m * p >= m * q + m
  {
    var k := p - q - 1;
    assert m * (q + 1 + k) == m * q + m + m * k;
  }

  /** The key for a smaller need is the beginning of the key for a larger one. */
  lemma {:induction false} NeedPrefix(s: Secret, mdsz: nat, id: u8, a: nat, b: nat)
    requires mdsz > 0 && a <= b
    ensures Stream(s, id, Chunks(a, mdsz)) <= Stream(s, id, Chunks(b, mdsz))
  {
    ChunksGrow(a, b, mdsz);
    StreamPrefix(s, id, Chunks(a, mdsz), Chunks(b, mdsz));
  }

  method WriteChunk(digest: array<u8>, have: nat, chunk: seq<u8>)
    requires have + |chunk| <= digest.Length
    modifies digest
    ensures digest[..have + |chunk|] == old(digest[..have]) + chunk
  {
    forall i | 0 <= i < |chunk| {
      digest[have + i] := chunk[i];
    }
    assert digest[..have] == old(digest[..have]) && digest[have..have + |chunk|] == chunk;
    Cut(digest[..], have, have + |chunk|);
  }

  lemma {:induction false} Cut(d: seq<u8>, i: nat, j: nat)
    requires i <= j <= |d|
    ensures d[..j] == d[..i] + d[i..j]
  {
  }

  lemma {:induction false} StreamStep(s: Secret, id: u8, n: nat)
    requires n >= 1
    ensures Stream(s, id, n + 1) == Stream(s, id, n) + s.hash(Common(s) + Stream(s, id, n))
  {
  }

  /** The digest at the front of the buffer. */
  method FirstDigest(digest: array<u8>, s: Secret, mdsz: nat, id: u8)
    requires Sized(s.hash, mdsz) && mdsz <= digest.Length
    modifies digest
    ensures digest[..mdsz] == Stream(s, id, 1)
  {
    WriteChunk(digest, 0, s.hash(Common(s) + [id] + s.sessionId));
  }

  /** One more digest behind the ones in the buffer. */
  method Extend(digest: array<u8>, s: Secret, mdsz: nat, id: u8, have: nat, ghost n: nat)
    requires Sized(s.hash, mdsz) && n >= 1 && have + mdsz <= digest.Length && digest[..have] == Stream(s, id, n)
    modifies digest
    ensures digest[..have + mdsz] == Stream(s, id, n + 1)
  {
    StreamStep(s, id, n);
    WriteChunk(digest, have, s.hash(Common(s) + digest[..have]));
  }

  /** The hashing of derive_key, into a buffer with room for exactly `last` digests. */
  method FillKey(digest: array<u8>, s: Secret, mdsz: nat, id: u8, need: nat, ghost last: nat)
    requires Sized(s.hash, mdsz) && last >= 1
    requires Times(last, mdsz) == digest.Length >= need && Times(last - 1, mdsz) < need
    modifies digest
    ensures digest[..] == Stream(s, id, last)
  {
    TimesGrows(1, last, mdsz);
    assert Times(1, mdsz) == mdsz;
    FirstDigest(digest, s, mdsz, id);
    var have := mdsz;
    ghost var n := 1;
    while need > have
      invariant 1 <= n <= last && have == Times(n, mdsz) <= digest.Length
      invariant digest[..have] == Stream(s, id, n)
      decreases last - n
    {
      TimesGrows(n + 1, last, mdsz);
      Extend(digest, s, mdsz, id, have, n);
      have := have + mdsz;
      n := n + 1;
    }
    Filled(n, last, mdsz, need);
    assert digest[..] == digest[..have];
  }

  /** As many digests as make the need are all there is room for. */
  lemma {:induction false} Filled(n: nat, last: nat, mdsz: nat, need: nat)
    requires 1 <= n <= last && Times(last - 1, mdsz) < need <= Times(n, mdsz)
    ensures n == last
  {
    if n < last {
      TimesGrows(n, last - 1, mdsz);
    }
  }

  /** derive_key. */
  method DeriveKey(s: Secret, mdsz: nat, id: u8, need: nat) returns (digest: array<u8>)
    requires Sized(s.hash, mdsz) && need > 0
    ensures fresh(digest) && digest.Length == RoundUp(need, mdsz) >= need
    ensures digest[..] == Stream(s, id, Chunks(need, mdsz))
  {
    ChunksCover(need, mdsz);
    digest := new u8[RoundUp(need, mdsz)];
    FillKey(digest, s, mdsz, id, need, Chunks(need, mdsz));
  }

  /** One direction of a session: its algorithms and its three keys. */
  datatype Session = Session(suite: Suite, iv: seq<u8>, key: seq<u8>, mac: seq<u8>)

  const LETTER_A: u8 := 65

  /** Keys 'A' to 'F', as long as the exchange needs. */
  function Key(s: Secret, mdsz: nat, need: nat, i: nat): (r: seq<u8>)
    requires mdsz > 0 && i < 6
  {
    Stream(s, LETTER_A + i as u8, Chunks(need, mdsz))
  }

  /** What kex_derive_keys installs for one mode. */
  function Direction(s: Secret, mdsz: nat, conf: Conf, suite: Suite, ctos: bool): (r: Session)
    requires mdsz > 0
  {
    Session(suite,
            Key(s, mdsz, conf.weNeed, if ctos then 0 else 1),
            Key(s, mdsz, conf.weNeed, if ctos then 2 else 3),
            Key(s, mdsz, conf.weNeed, if ctos then 4 else 5))
  }

  method DeriveKeys(s: Secret, mdsz: nat, conf: Conf, server: bool) returns (inward: Session, outward: Session)
    requires Sized(s.hash, mdsz) && conf.weNeed > 0
    ensures inward == Direction(s, mdsz, conf, conf.inward, server)
    ensures outward == Direction(s, mdsz, conf, conf.outward, !server)
  {
    var keys: seq<seq<u8>> := [];
    var i := 0;
    while i < 6
      invariant 0 <= i <= 6 && |keys| == i
      invariant forall j :: 0 <= j < i ==> keys[j] == Key(s, mdsz, conf.weNeed, j)
    {
      var digest := DeriveKey(s, mdsz, LETTER_A + i as u8, conf.weNeed);
      keys := keys + [digest[..]];
      i := i + 1;
    }
    var ctos := server;
    inward := Session(conf.inward, keys[if ctos then 0 else 1], keys[if ctos then 2 else 3], keys[if ctos then 4 else 5]);
    ctos := !server;
    outward := Session(conf.outward, keys[if ctos then 0 else 1], keys[if ctos then 2 else 3], keys[if ctos then 4 else 5]);
  }

  /** What one side sends with, the other receives with; and every key is long enough for what uses it. */
  lemma {:induction false} DirectionsMatch(s: Secret, mdsz: nat, c: Conf, v: Conf)
    requires Sized(s.hash, mdsz) && Mirrored(c, v) && c.weNeed > 0
    ensures Direction(s, mdsz, c, c.outward, true) == Direction(s, mdsz, v, v.inward, true)
    ensures Direction(s, mdsz, c, c.inward, false) == Direction(s, mdsz, v, v.outward, false)
    ensures forall i: nat :: i < 6 ==> |Key(s, mdsz, c.weNeed, i)| >= c.weNeed
  {
    forall i: nat | i < 6
      ensures |Key(s, mdsz, c.weNeed, i)| >= c.weNeed
    {
      StreamLength(s, mdsz, LETTER_A + i as u8, Chunks(c.weNeed, mdsz));
      ChunksCover(c.weNeed, mdsz);
    }
  }
}
