/** Counter mode over any block function: ssh_ctr_inc and ssh_aes_ctr of cipher-ctr.c. */
module CipherCtr {
  import opened Bytes
  import opened Wire

  const BLOCK: nat := 16

  /** AES_encrypt under a key, from a counter to a block of key stream. */
  type BlockFunction = seq<u8> -> seq<byte>

  ghost predicate Blocks(k: BlockFunction) { forall c: seq<u8> :: |c| == BLOCK ==> |k(c)| == BLOCK }

  // ---- the counter ----

  /** 256 to the power n. */
  function Pow(n: nat): (r: nat)
    ensures r >= 1
  {
    if n == 0 then 1 else 256 * Pow(n - 1)
  }

  /** The next counter, found from the last octet on. */
  function Inc(c: seq<u8>): (r: seq<u8>)
    ensures |r| == |c|
  {
    if c == [] then []
    else
      var n := |c| - 1;
      if c[n] == 255 then Inc(c[..n]) + [0] else c[..n] + [c[n] + 1]
  }

  lemma {:induction false} ValueBound(c: seq<u8>)
    ensures Value(c) < Pow(|c|)
  {
    if c != [] {
      ValueBound(c[..|c| - 1]);
    }
  }

  /** ssh_ctr_inc adds one modulo 256^len to the number in network byte order. */
  lemma {:induction false} IncAddsOne(c: seq<u8>)
    ensures Value(Inc(c)) == if Value(c) + 1 < Pow(|c|) then Value(c) + 1 else 0
  {
    ValueBound(c);
    if c != [] {
      var n := |c| - 1;
      var h := c[..n];
      ValueBound(h);
      if c[n] == 255 {
        IncAddsOne(h);
        ValueAppend(Inc(h), 0);
      } else {
        ValueAppend(h, c[n] + 1);
      }
    }
  }

  /** The counter after n blocks. */
  function Steps(c: seq<u8>, n: nat): (r: seq<u8>)
    ensures |r| == |c|
  {
    if n == 0 then c else Inc(Steps(c, n - 1))
  }

  lemma {:induction false} StepsAdd(c: seq<u8>, m: nat, n: nat)
    ensures Steps(c, m + n) == Steps(Steps(c, m), n)
  {
    if n > 0 {
      StepsAdd(c, m, n - 1);
    }
  }

  lemma {:induction false} StepsValue(c: seq<u8>, n: nat)
    requires n < Pow(|c|)
    ensures Value(Steps(c, n)) == var v := Value(c) + n; if v < Pow(|c|) then v else v - Pow(|c|)
  {
    ValueBound(c);
    if n > 0 {
      StepsValue(c, n - 1);
      IncAddsOne(Steps(c, n - 1));
    }
  }

  /** Section 4 of RFC 4344: no counter comes twice within 256^len blocks. */
  lemma {:induction false} CountersDiffer(c: seq<u8>, m: nat, n: nat)
    requires m < n < Pow(|c|)
    ensures Steps(c, m) != Steps(c, n)
  {
    StepsValue(c, m);
    StepsValue(c, n);
  }

  // ---- the key stream ----

  /** The key stream octet for position i. */
  ghost function Key(k: BlockFunction, c: seq<u8>, i: nat): (r: byte)
    requires Blocks(k) && |c| == BLOCK
  {
    k(Steps(c, i / BLOCK))[i % BLOCK]
  }

  ghost function Crypt(k: BlockFunction, c: seq<u8>, s: seq<byte>): (r: seq<byte>)
    requires Blocks(k) && |c| == BLOCK
    ensures |r| == |s|
  {
    seq(|s|, i requires 0 <= i < |s| => Mix(s[i], Key(k, c, i)))
  }

  /** How many counters a call of that length uses up. */
  function Used(len: nat): (r: nat) { (len + BLOCK - 1) / BLOCK }

  /** Applied twice from the same counter, it is the identity. */
  lemma {:induction false} CryptTwice(k: BlockFunction, c: seq<u8>, s: seq<byte>)
    requires Blocks(k) && |c| == BLOCK
    ensures Crypt(k, c, Crypt(k, c, s)) == s
  {
  }

  lemma {:induction false} KeyShift(k: BlockFunction, c: seq<u8>, m: nat, i: nat)
    requires Blocks(k) && |c| == BLOCK
    ensures Key(k, c, BLOCK * m + i) == Key(k, Steps(c, m), i)
  {
    assert (BLOCK * m + i) / BLOCK == m + i / BLOCK && (BLOCK * m + i) % BLOCK == i % BLOCK;
    StepsAdd(c, m, i / BLOCK);
  }

  lemma {:induction false} CryptSplits(k: BlockFunction, c: seq<u8>, s: seq<byte>, t: seq<byte>, m: nat)
    requires Blocks(k) && |c| == BLOCK && |s| == BLOCK * m
    ensures Crypt(k, c, s + t) == Crypt(k, c, s) + Crypt(k, Steps(c, m), t)
  {
    var a, b := Crypt(k, c, s + t), Crypt(k, c, s) + Crypt(k, Steps(c, m), t);
    forall i: nat | i < |a|
      ensures a[i] == b[i]
    {
      if i >= |s| {
        KeyShift(k, c, m, i - |s|);
      }
    }
  }

  /** Cutting the input at a block boundary changes neither the output nor the final counter. */
  lemma {:induction false} CallsJoin(k: BlockFunction, c: seq<u8>, s: seq<byte>, t: seq<byte>)
    requires Blocks(k) && |c| == BLOCK && |s| % BLOCK == 0
    ensures var d := Steps(c, Used(|s|));
            && Crypt(k, c, s + t) == Crypt(k, c, s) + Crypt(k, d, t)
            && Steps(c, Used(|s + t|)) == Steps(d, Used(|t|))
  {
    var m := |s| / BLOCK;
    assert Used(|s|) == m && Used(|s + t|) == m + Used(|t|);
    CryptSplits(k, c, s, t, m);
    StepsAdd(c, m, Used(|t|));
  }

  lemma {:induction false} Advance(i: nat)
    ensures i % BLOCK == 0 ==> Used(i) == i / BLOCK && Used(i + 1) == Used(i) + 1
    ensures i % BLOCK > 0 ==> Used(i + 1) == Used(i) == i / BLOCK + 1
    ensures (i % BLOCK + 1) % BLOCK == (i + 1) % BLOCK
    ensures (i + 1) % BLOCK > 0 ==> (i + 1) / BLOCK == i / BLOCK
  {
  }

  /** An octet that is full carries into the one in front of it. */
  lemma {:induction false} Carry(c: seq<u8>, tail: seq<u8>)
    requires c != [] && c[|c| - 1] == 255
    ensures Inc(c) + tail == Inc(c[..|c| - 1]) + ([0] + tail)
  {
  }

  /** The octets from i on are still those of s. */
  ghost predicate Ahead(a: seq<byte>, s: seq<byte>, i: nat) {
    |a| == |s| && forall j: nat :: i <= j < |s| ==> a[j] == s[j]
  }

  /** The octets in front of i are done. */
  ghost predicate Behind(k: BlockFunction, c: seq<u8>, s: seq<byte>, d: seq<byte>, i: nat)
    requires Blocks(k) && |c| == BLOCK
  {
    |d| == |s| && i <= |s| && forall j: nat :: j < i ==> d[j] == Mix(s[j], Key(k, c, j))
  }

  lemma {:induction false} AllMixed(k: BlockFunction, c: seq<u8>, s: seq<byte>, d: seq<byte>)
    requires Blocks(k) && |c| == BLOCK && Behind(k, c, s, d, |s|)
    ensures d == Crypt(k, c, s)
  {
  }

  // ---- ssh_aes_ctr ----

  class AesCtr {
    const key: BlockFunction
    const counter: array<u8>

    ghost predicate Valid()
      reads this
    {
      Blocks(key) && counter.Length == BLOCK
    }

    constructor (k: BlockFunction, iv: seq<u8>)
      requires Blocks(k) && |iv| == BLOCK
      ensures Valid() && key == k && counter[..] == iv && fresh(counter)
    {
      key := k;
      counter := new u8[BLOCK](i requires 0 <= i < BLOCK => iv[i]);
    }

    /** ssh_ctr_inc on an array of any length. */
    static method Increment(ctr: array<u8>)
      modifies ctr
      ensures ctr[..] == Inc(old(ctr[..]))
    {
      ghost var c := ctr[..];
      var i := ctr.Length;
      assert c[..i] == c && ctr[i..] == [];
      while i > 0
        invariant 0 <= i <= ctr.Length && ctr[..i] == c[..i]
        invariant Inc(c) == Inc(c[..i]) + ctr[i..]
      {
        i := i - 1;
        assert c[..i + 1][..i] == c[..i] && ctr[i] == c[i];
        if ctr[i] == 255 {
          ctr[i] := 0;
          assert ctr[i..] == [0] + ctr[i + 1..];
          Carry(c[..i + 1], ctr[i + 1..]);
        } else {
          ctr[i] := ctr[i] + 1;
          assert ctr[..] == ctr[..i] + [ctr[i]] + ctr[i + 1..];
          return;
        }
      }
      assert ctr[0..] == ctr[..] && Inc(c[..0]) == [];
    }

    /** ssh_aes_ctr; dest may be src. */
    /** One octet of output; where dest is src, the octets still to be read stay. */
    method MixAt(dest: array<byte>, src: array<byte>, i: nat, x: byte, ghost c: seq<u8>, ghost s: seq<byte>)
      requires Valid() && |c| == BLOCK && i < dest.Length == src.Length && x == Key(key, c, i)
      requires Ahead(src[..], s, i) && Behind(key, c, s, dest[..], i)
      modifies dest
      ensures Ahead(src[..], s, i + 1) && Behind(key, c, s, dest[..], i + 1)
    {
      assert src[i] == src[..][i];
      ghost var was := dest[..];
      dest[i] := Mix(src[i], x);
      assert forall j :: 0 <= j < i ==> dest[..][j] == was[j];
    }

    method NextBlock(n: nat, buf: seq<byte>, ghost c: seq<u8>, ghost i: nat) returns (r: seq<byte>)
      requires Valid() && |c| == BLOCK && n == i % BLOCK && counter[..] == Steps(c, Used(i))
      requires n > 0 ==> buf == key(Steps(c, i / BLOCK))
      modifies counter
      ensures r == key(Steps(c, i / BLOCK)) && |r| == BLOCK && counter[..] == Steps(c, Used(i + 1))
    {
      Advance(i);
      r := buf;
      if n == 0 {
        r := key(counter[..]);
        Increment(counter);
      }
    }

    method Apply(dest: array<byte>, src: array<byte>)
      requires Valid() && dest.Length == src.Length
      requires counter as object != dest as object && counter as object != src as object
      modifies counter, dest
      ensures dest[..] == Crypt(key, old(counter[..]), old(src[..]))
      ensures counter[..] == Steps(old(counter[..]), Used(src.Length))
    {
      ghost var c, s := counter[..], src[..];
      var n, buf := 0, [];
      for i := 0 to src.Length
        invariant n == i % BLOCK && counter[..] == Steps(c, Used(i))
        invariant n > 0 ==> buf == key(Steps(c, i / BLOCK))
        invariant Ahead(src[..], s, i) && Behind(key, c, s, dest[..], i)
      {
        Advance(i);
        buf := NextBlock(n, buf, c, i);
        MixAt(dest, src, i, buf[n], c, s);
        n := (n + 1) % BLOCK;
      }
      AllMixed(key, c, s, dest[..]);
    }
  }
}
