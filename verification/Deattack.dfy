/**
 The CRC compensation detector of deattack.c: a quadratic scan for short packets and an
 open-addressing hash index for long ones.
 */
module Deattack {
  import opened Bytes
  import opened Mask
  import opened Crc32

  const MAX_IDENTICAL: nat := 32
  const SSH_MAXBLOCKS: nat := 32 * 1024
  const SSH_BLOCKSIZE: nat := 8
  const HASH_MINSIZE: nat := 8 * 1024
  const HASH_ENTRYSIZE: nat := 2
  const HASH_UNUSED: nat := 0xffff
  const HASH_MINBLOCKS: nat := 7 * SSH_BLOCKSIZE

  datatype Verdict = Clean | Detected | DosDetected | BadLength

  // ---- check_crc ----

  function Blocks(buf: seq<byte>): (r: nat) { |buf| / 8 }

  function Block(buf: seq<byte>, j: nat): (r: seq<byte>)
    requires 8 * j + 8 <= |buf|
  {
    buf[8 * j..8 * j + 8]
  }

  /** The word sequence 1,0 for each of the first `k` blocks equal to `s`, and 0,0 for each other one. */
  function Pattern(s: seq<byte>, buf: seq<byte>, k: nat): (r: seq<byte>)
    requires 8 * k <= |buf|
  {
    if k == 0 then []
    else Pattern(s, buf, k - 1) + Octets(if Block(buf, k - 1) == s then 1 else 0) + Octets(0)
  }

  /** Changing every occurrence of `s` alike would leave the CRC of the packet as it is. */
  predicate Compensates(s: seq<byte>, buf: seq<byte>) {
    Residue(s, buf, Blocks(buf)) == 0
  }

  method CrcUpdate(a: bv32, b: bv32) returns (r: bv32)
    ensures r == Divide(a, Octets(b))
  {
    var x := b ^ a;
    r := SshCrc32(Octets(x));
    assert Xor(a, b) == x;
    DivideWord(0, x);
    ZeroLeft(x);
    DivideWord(a, b);
  }

  /** The CRC of the first `k` blocks of the pattern. */
  function Residue(s: seq<byte>, buf: seq<byte>, k: nat): (r: bv32)
    requires 8 * k <= |buf|
  {
    Divide(0, Pattern(s, buf, k))
  }

  lemma {:induction false} PatternStep(s: seq<byte>, buf: seq<byte>, c: nat)
    requires 8 * c + 8 <= |buf|
    ensures Residue(s, buf, c + 1) ==
            Divide(Divide(Residue(s, buf, c), Octets(if Block(buf, c) == s then 1 else 0)), Octets(0))
  {
    var p, w := Pattern(s, buf, c), Octets(if Block(buf, c) == s then 1 else 0);
    DivideAppend(0, p, w);
    DivideAppend(0, p + w, Octets(0));
  }

  /** The body of the loop of check_crc. */
  method CheckBlock(crc: bv32, s: seq<byte>, buf: seq<byte>, c: nat) returns (r: bv32)
    requires 8 * c + 8 <= |buf| && crc == Residue(s, buf, c)
    ensures r == Residue(s, buf, c + 1)
  {
    PatternStep(s, buf, c);
    if s == buf[8 * c..8 * c + 8] {
      r := CrcUpdate(crc, 1);
      r := CrcUpdate(r, 0);
    } else {
      r := CrcUpdate(crc, 0);
      r := CrcUpdate(r, 0);
    }
  }

  method CheckCrc(s: seq<byte>, buf: seq<byte>) returns (r: bool)
    requires |buf| % SSH_BLOCKSIZE == 0
    ensures r == Compensates(s, buf)
  {
    var crc: bv32 := 0;
    for c := 0 to |buf| / SSH_BLOCKSIZE
      invariant crc == Residue(s, buf, c)
    {
      crc := CheckBlock(crc, s, buf, c);
    }
    r := crc == 0;
  }

  // ---- what the scans look for, whatever the test of a single block ----

  type Test = seq<byte> -> bool

  /** Block j equals an earlier block. */
  predicate Repeat(buf: seq<byte>, j: nat)
    requires j < Blocks(buf)
  {
    exists i: nat :: i < j && Block(buf, i) == Block(buf, j)
  }

  /** How many of the first `j` blocks repeat an earlier one. */
  function Repeats(buf: seq<byte>, j: nat): (r: nat)
    requires j <= Blocks(buf)
  {
    if j == 0 then 0 else Repeats(buf, j - 1) + if Repeat(buf, j - 1) then 1 else 0
  }

  predicate Bad(buf: seq<byte>, test: Test, j: nat)
    requires j < Blocks(buf)
  {
    Repeat(buf, j) && test(Block(buf, j))
  }

  predicate AnyBad(buf: seq<byte>, test: Test) {
    exists j: nat :: j < Blocks(buf) && Bad(buf, test, j)
  }

  /** A bad block is met before the thirty-third repeat. */
  predicate BadInTime(buf: seq<byte>, test: Test) {
    exists j: nat :: j < Blocks(buf) && Bad(buf, test, j) && Repeats(buf, j) < MAX_IDENTICAL
  }

  /** What detect_attack answers, with `test` for check_crc. */
  function Expected(buf: seq<byte>, test: Test): (r: Verdict) {
    if |buf| > SSH_MAXBLOCKS * SSH_BLOCKSIZE || |buf| % SSH_BLOCKSIZE != 0 then BadLength
    else if |buf| <= HASH_MINBLOCKS then if AnyBad(buf, test) then Detected else Clean
    else if BadInTime(buf, test) then Detected
    else if Repeats(buf, Blocks(buf)) > MAX_IDENTICAL then DosDetected
    else Clean
  }

  lemma {:induction false} RepeatsGrow(buf: seq<byte>, i: nat, j: nat)
    requires i <= j <= Blocks(buf)
    ensures Repeats(buf, i) <= Repeats(buf, j)
    decreases j
  {
    if i < j {
      RepeatsGrow(buf, i, j - 1);
    }
  }

  lemma {:induction false} OneMore(buf: seq<byte>, j: nat)
    requires j < Blocks(buf)
    ensures Repeats(buf, j + 1) == Repeats(buf, j) + if Repeat(buf, j) then 1 else 0
  {
  }

  lemma {:induction false} FewRepeats(buf: seq<byte>, test: Test)
    requires Repeats(buf, Blocks(buf)) <= MAX_IDENTICAL && AnyBad(buf, test)
    ensures BadInTime(buf, test)
  {
    var j: nat :| j < Blocks(buf) && Bad(buf, test, j);
    FewBefore(buf, j, Blocks(buf));
  }

  lemma {:induction false} FewBefore(buf: seq<byte>, j: nat, n: nat)
    requires j < n <= Blocks(buf) && Repeat(buf, j)
    ensures Repeats(buf, j) < Repeats(buf, n)
  {
    OneMore(buf, j);
    RepeatsGrow(buf, j + 1, n);
  }

  /** The index changes nothing but the denial-of-service cut-off. */
  lemma {:induction false} HashAgreesWithQuadratic(buf: seq<byte>, test: Test)
    requires |buf| % SSH_BLOCKSIZE == 0 && |buf| <= SSH_MAXBLOCKS * SSH_BLOCKSIZE
    ensures Expected(buf, test) == Detected ==> AnyBad(buf, test)
    ensures Expected(buf, test) == Clean ==> !AnyBad(buf, test)
    ensures Expected(buf, test) == DosDetected ==>
              |buf| > HASH_MINBLOCKS && Repeats(buf, Blocks(buf)) > MAX_IDENTICAL
    ensures Repeats(buf, Blocks(buf)) <= MAX_IDENTICAL ==>
              Expected(buf, test) == if AnyBad(buf, test) then Detected else Clean
  {
    if Repeats(buf, Blocks(buf)) <= MAX_IDENTICAL && AnyBad(buf, test) {
      FewRepeats(buf, test);
    }
  }

  // ---- the hash index ----

  function GetU32(b: seq<byte>): (r: nat)
    requires |b| == 8
  {
    ((b[0] as nat * 256 + b[1] as nat) * 256 + b[2] as nat) * 256 + b[3] as nat
  }

  /** Where the search for a block starts. */
  function Start(b: seq<byte>, n: nat): (r: nat)
    requires |b| == 8 && n > 0
    ensures r < n
  {
    And(GetU32(b), n - 1)
  }

  /** The slot `k` places after `i`, around the end. */
  function Slot(i: nat, k: nat, n: nat): (r: nat)
    requires i < n && k < n
    ensures r < n
  {
    if i + k < n then i + k else i + k - n
  }

  /** A chain of used slots leads from the block's starting slot to an equal block. */
  ghost predicate Chain(h: seq<nat>, buf: seq<byte>, b: seq<byte>, d: nat)
    requires |b| == 8 && |h| > 0
  {
    && d < |h|
    && (forall k: nat :: k <= d ==> h[Slot(Start(b, |h|), k, |h|)] != HASH_UNUSED)
    && var e := h[Slot(Start(b, |h|), d, |h|)];
       e < Blocks(buf) && Block(buf, e) == b
  }

  ghost predicate Findable(h: seq<nat>, buf: seq<byte>, b: seq<byte>)
    requires |b| == 8 && |h| > 0
  {
    exists d: nat :: Chain(h, buf, b, d)
  }

  /** The table after the first `j` blocks. */
  ghost predicate Indexed(h: seq<nat>, buf: seq<byte>, j: nat)
    requires j <= Blocks(buf)
  {
    && |h| > 0
    && (forall i :: 0 <= i < |h| ==> h[i] == HASH_UNUSED || h[i] < j)
    && (forall q: nat :: q < j ==> Findable(h, buf, Block(buf, q)))
  }

  function UsedCount(h: seq<nat>): (r: nat) {
    if h == [] then 0 else (if h[0] == HASH_UNUSED then 0 else 1) + UsedCount(h[1..])
  }

  lemma {:induction false} UsedCountUpdate(h: seq<nat>, i: nat, j: nat)
    requires i < |h| && j != HASH_UNUSED
    ensures UsedCount(h[i := j]) == UsedCount(h) + if h[i] == HASH_UNUSED then 1 else 0
  {
    var g := h[i := j];
    if i == 0 {
      assert g[1..] == h[1..];
    } else {
      assert g[1..] == h[1..][i - 1 := j];
      UsedCountUpdate(h[1..], i - 1, j);
    }
  }

  lemma {:induction false} FreeSlot(h: seq<nat>) returns (f: nat)
    requires UsedCount(h) < |h|
    ensures f < |h| && h[f] == HASH_UNUSED
  {
    if h[0] == HASH_UNUSED {
      f := 0;
    } else {
      var g := FreeSlot(h[1..]);
      f := g + 1;
    }
  }

  lemma {:induction false} NoneUsed(h: seq<nat>)
    requires forall i :: 0 <= i < |h| ==> h[i] == HASH_UNUSED
    ensures UsedCount(h) == 0
  {
    if h != [] {
      NoneUsed(h[1..]);
    }
  }

  lemma {:induction false} ChainSurvives(h: seq<nat>, buf: seq<byte>, b: seq<byte>, c: nat, i: nat, j: nat)
    requires |b| == 8 && |h| > 0 && Chain(h, buf, b, c)
    requires i < |h| && j < Blocks(buf) && j != HASH_UNUSED
    requires h[i] == HASH_UNUSED || (h[i] < Blocks(buf) && Block(buf, h[i]) == Block(buf, j))
    ensures Chain(h[i := j], buf, b, c)
  {
  }

  /** The first `d` slots of the search for block j are used by other blocks. */
  ghost predicate Searched(h: seq<nat>, buf: seq<byte>, j: nat, d: nat)
    requires j < Blocks(buf) && |h| > 0
  {
    && d < |h|
    && forall k: nat :: k < d ==>
         var e := h[Slot(Start(Block(buf, j), |h|), k, |h|)];
         e < j && Block(buf, e) != Block(buf, j)
  }

  lemma {:induction false} NewChain(h: seq<nat>, buf: seq<byte>, j: nat, d: nat, i: nat)
    requires j < Blocks(buf) <= SSH_MAXBLOCKS && |h| > 0
    requires Searched(h, buf, j, d) && i == Slot(Start(Block(buf, j), |h|), d, |h|)
    ensures Chain(h[i := j], buf, Block(buf, j), d)
  {
    var g, n, b := h[i := j], |h|, Block(buf, j);
    forall k: nat | k <= d
      ensures g[Slot(Start(b, n), k, n)] != HASH_UNUSED
    {
      if k < d {
        assert h[Slot(Start(b, n), k, n)] < j;
      }
    }
  }

  /** `i` is where the search for block j stops: a free slot, or one that holds an equal block. */
  ghost predicate Stops(h: seq<nat>, buf: seq<byte>, j: nat, d: nat, i: nat)
    requires j < Blocks(buf) && |h| > 0
  {
    && Searched(h, buf, j, d) && i == Slot(Start(Block(buf, j), |h|), d, |h|)
    && (h[i] == HASH_UNUSED || (h[i] < j && Block(buf, h[i]) == Block(buf, j)))
  }

  lemma {:induction false} EveryChain(h: seq<nat>, buf: seq<byte>, j: nat, d: nat, i: nat, q: nat)
    requires q <= j < Blocks(buf) <= SSH_MAXBLOCKS && Indexed(h, buf, j) && Stops(h, buf, j, d, i)
    ensures Findable(h[i := j], buf, Block(buf, q))
  {
    if q == j {
      NewChain(h, buf, j, d, i);
    } else {
      var c: nat :| Chain(h, buf, Block(buf, q), c);
      ChainSurvives(h, buf, Block(buf, q), c, i, j);
    }
  }

  /** Writing j where the search for block j stopped extends the index to block j. */
  lemma {:induction false} IndexGrows(h: seq<nat>, buf: seq<byte>, j: nat, d: nat, i: nat)
    requires j < Blocks(buf) <= SSH_MAXBLOCKS && Indexed(h, buf, j) && Stops(h, buf, j, d, i)
    ensures Indexed(h[i := j], buf, j + 1)
  {
    forall q: nat | q < j + 1
      ensures Findable(h[i := j], buf, Block(buf, q))
    {
      EveryChain(h, buf, j, d, i, q);
    }
  }

  /** A search that runs into a free slot has passed every equal block there is. */
  lemma {:induction false} SearchIsComplete(h: seq<nat>, buf: seq<byte>, j: nat, d: nat, q: nat)
    requires q < j < Blocks(buf) && Indexed(h, buf, j) && Searched(h, buf, j, d)
    requires h[Slot(Start(Block(buf, j), |h|), d, |h|)] == HASH_UNUSED
    ensures Block(buf, q) != Block(buf, j)
  {
    var c: nat :| Chain(h, buf, Block(buf, q), c);
    if c >= d {
      assert h[Slot(Start(Block(buf, q), |h|), d, |h|)] != HASH_UNUSED;
    }
  }

  /** Where the search stopped tells whether the block repeats an earlier one. */
  lemma {:induction false} ProbeAnswers(h: seq<nat>, buf: seq<byte>, j: nat, d: nat, i: nat)
    requires j < Blocks(buf) && |h| > 0 && Indexed(h, buf, j) && Stops(h, buf, j, d, i)
    ensures h[i] != HASH_UNUSED <==> Repeat(buf, j)
  {
    if h[i] == HASH_UNUSED {
      forall q: nat | q < j
        ensures Block(buf, q) != Block(buf, j)
      {
        SearchIsComplete(h, buf, j, d, q);
      }
    }
  }

  lemma {:induction false} SearchedMore(h: seq<nat>, buf: seq<byte>, j: nat, d: nat)
    requires j < Blocks(buf) && |h| > 0 && Searched(h, buf, j, d) && d + 1 < |h|
    requires var e := h[Slot(Start(Block(buf, j), |h|), d, |h|)];
             e != HASH_UNUSED && e < j && Block(buf, e) != Block(buf, j)
    ensures Searched(h, buf, j, d + 1)
  {
  }

  lemma {:induction false} SlotNext(i: nat, d: nat, n: nat)
    requires i < n && d + 1 < n
    ensures Slot(i, d + 1, n) == if Slot(i, d, n) + 1 == n then 0 else Slot(i, d, n) + 1
  {
  }

  /** The search for block j is at slot i, d places on, and the free slot f is `far` places on. */
  ghost predicate Probing(g: seq<nat>, buf: seq<byte>, j: nat, d: nat, i: nat, f: nat, far: nat)
    requires j < Blocks(buf) && |g| > 0
  {
    && Indexed(g, buf, j) && Searched(g, buf, j, d) && d <= far < |g| && f < |g| && g[f] == HASH_UNUSED
    && i == Slot(Start(Block(buf, j), |g|), d, |g|) && f == Slot(Start(Block(buf, j), |g|), far, |g|)
  }

  lemma {:induction false} ProbeStarts(g: seq<nat>, buf: seq<byte>, j: nat, f: nat) returns (far: nat)
    requires j < Blocks(buf) && Indexed(g, buf, j) && f < |g| && g[f] == HASH_UNUSED
    ensures Probing(g, buf, j, 0, Start(Block(buf, j), |g|), f, far)
  {
    var i := Start(Block(buf, j), |g|);
    far := if f >= i then f - i else f + |g| - i;
  }

  lemma {:induction false} ProbeGoesOn(g: seq<nat>, buf: seq<byte>, j: nat, d: nat, i: nat, f: nat, far: nat)
    requires j < Blocks(buf) && IsSize(|g|) && Probing(g, buf, j, d, i, f, far)
    requires g[i] != HASH_UNUSED && Block(buf, g[i]) != Block(buf, j)
    ensures d < far && Probing(g, buf, j, d + 1, And(i + 1, |g| - 1), f, far)
  {
    SearchedMore(g, buf, j, d);
    SlotNext(Start(Block(buf, j), |g|), d, |g|);
    NextMasked(i, |g|);
  }

  /** The inner loop of the scan: follow the chain until an equal block or a free slot. */
  method Probe(h: array<nat>, buf: seq<byte>, j: nat) returns (i: nat, ghost d: nat)
    requires j < Blocks(buf) && IsSize(h.Length)
    requires Indexed(h[..], buf, j) && UsedCount(h[..]) < h.Length
    ensures i < h.Length && Stops(h[..], buf, j, d, i)
    ensures h[i] != HASH_UNUSED <==> Repeat(buf, j)
  {
    ghost var g := h[..];
    ghost var f := FreeSlot(g);
    ghost var far := ProbeStarts(g, buf, j, f);
    var n := h.Length;
    var c := buf[8 * j..8 * j + 8];
    i := And(GetU32(c), n - 1);
    d := 0;
    while h[i] != HASH_UNUSED && c != buf[8 * h[i]..8 * h[i] + 8]
      invariant Probing(g, buf, j, d, i, f, far)
      decreases far - d
    {
      ProbeGoesOn(g, buf, j, d, i, f, far);
      i := And(i + 1, n - 1);
      d := d + 1;
    }
    ProbeAnswers(g, buf, j, d, i);
  }

  /** No bad block among the first `j`. */
  predicate CleanUpTo(buf: seq<byte>, test: Test, j: nat)
    requires j <= Blocks(buf)
  {
    forall q: nat :: q < j ==> !Bad(buf, test, q)
  }

  lemma {:induction false} CleanStep(buf: seq<byte>, test: Test, j: nat)
    requires j < Blocks(buf) && CleanUpTo(buf, test, j) && !(Repeat(buf, j) && test(Block(buf, j)))
    ensures CleanUpTo(buf, test, j + 1)
  {
    forall q: nat | q < j + 1
      ensures !Bad(buf, test, q)
    {
    }
  }

  lemma {:induction false} DosVerdict(buf: seq<byte>, test: Test, j: nat)
    requires j < Blocks(buf) && CleanUpTo(buf, test, j)
    requires Repeat(buf, j) && Repeats(buf, j) == MAX_IDENTICAL
    ensures !BadInTime(buf, test) && Repeats(buf, Blocks(buf)) > MAX_IDENTICAL
  {
    LateBad(buf, test, j);
    TooMany(buf, j);
  }

  lemma {:induction false} TooMany(buf: seq<byte>, j: nat)
    requires j < Blocks(buf) && Repeat(buf, j) && Repeats(buf, j) == MAX_IDENTICAL
    ensures Repeats(buf, Blocks(buf)) > MAX_IDENTICAL
  {
    OneMore(buf, j);
    RepeatsGrow(buf, j + 1, Blocks(buf));
  }

  /** With none among the first blocks, a bad block comes after their repeats. */
  lemma {:induction false} LateBad(buf: seq<byte>, test: Test, j: nat)
    requires j < Blocks(buf) && CleanUpTo(buf, test, j) && Repeats(buf, j) >= MAX_IDENTICAL
    ensures !BadInTime(buf, test)
  {
    forall q: nat | q < Blocks(buf) && Bad(buf, test, q)
      ensures Repeats(buf, q) >= MAX_IDENTICAL
    {
      BadIsLate(buf, test, j, q);
      RepeatsGrow(buf, j, q);
    }
  }

  lemma {:induction false} BadIsLate(buf: seq<byte>, test: Test, j: nat, q: nat)
    requires j <= Blocks(buf) && q < Blocks(buf) && CleanUpTo(buf, test, j) && Bad(buf, test, q)
    ensures q >= j
  {
  }

  /** check_crc for block j, with `test` in its place. */
  method CheckAt(buf: seq<byte>, j: nat, ghost test: Test) returns (hit: bool)
    requires |buf| % SSH_BLOCKSIZE == 0 && j < Blocks(buf) && test == (s => Compensates(s, buf))
    ensures hit == test(Block(buf, j))
  {
    hit := CheckCrc(buf[8 * j..8 * j + 8], buf);
  }

  /** One round of the hash-indexed scan; the verdict if it ends here. */
  method HashRound(h: array<nat>, buf: seq<byte>, j: nat, same: nat, ghost test: Test) returns (v: Verdict, now: nat)
    requires |buf| % 8 == 0 && j < Blocks(buf) <= SSH_MAXBLOCKS && j < h.Length && IsSize(h.Length)
    requires test == (s => Compensates(s, buf))
    requires Indexed(h[..], buf, j) && UsedCount(h[..]) <= j
    requires same == Repeats(buf, j) <= MAX_IDENTICAL
    modifies h
    ensures now == Repeats(buf, j + 1)
    ensures v == (if now > MAX_IDENTICAL then DosDetected else if Bad(buf, test, j) then Detected else Clean)
    ensures v.Clean? ==> Indexed(h[..], buf, j + 1) && UsedCount(h[..]) <= j + 1
  {
    var i, d := Probe(h, buf, j);
    OneMore(buf, j);
    now := same;
    if h[i] != HASH_UNUSED {
      now := now + 1;
      if now > MAX_IDENTICAL {
        return DosDetected, now;
      }
      var hit := CheckAt(buf, j, test);
      if hit {
        return Detected, now;
      }
    }
    IndexGrows(h[..], buf, j, d, i);
    UsedCountUpdate(h[..], i, j);
    ghost var g := h[..];
    h[i] := j;
    assert h[..] == g[i := j];
    v := Clean;
  }

  /** What the scan should say. */
  ghost predicate RightVerdict(buf: seq<byte>, test: Test, v: Verdict) {
    v == if BadInTime(buf, test) then Detected
         else if Repeats(buf, Blocks(buf)) > MAX_IDENTICAL then DosDetected else Clean
  }

  /** A scan that ends at block j says the right thing. */
  lemma {:induction false} EndsRight(buf: seq<byte>, test: Test, j: nat, v: Verdict)
    requires j < Blocks(buf) && CleanUpTo(buf, test, j) && Repeats(buf, j) <= MAX_IDENTICAL && !v.Clean?
    requires v == if Repeats(buf, j + 1) > MAX_IDENTICAL then DosDetected else if Bad(buf, test, j) then Detected else Clean
    ensures RightVerdict(buf, test, v)
  {
    OneMore(buf, j);
    if v.DosDetected? {
      DosVerdict(buf, test, j);
    } else {
      assert Bad(buf, test, j) && Repeats(buf, j) < MAX_IDENTICAL;
    }
  }

  /** So does one that gets to the end. */
  lemma {:induction false} CleanIsRight(buf: seq<byte>, test: Test)
    requires CleanUpTo(buf, test, Blocks(buf)) && Repeats(buf, Blocks(buf)) <= MAX_IDENTICAL
    ensures RightVerdict(buf, test, Clean)
  {
  }

  method ClearIndex(h: array<nat>)
    requires h.Length > 0
    modifies h
    ensures UsedCount(h[..]) == 0 && forall i :: 0 <= i < h.Length ==> h[i] == HASH_UNUSED
  {
    forall i | 0 <= i < h.Length {
      h[i] := HASH_UNUSED;
    }
    NoneUsed(h[..]);
  }

  /** The hash-indexed scan over a table with room to spare. */
  method HashScan(h: array<nat>, buf: seq<byte>, ghost test: Test) returns (v: Verdict)
    requires |buf| % 8 == 0 && Blocks(buf) <= SSH_MAXBLOCKS && Blocks(buf) < h.Length && IsSize(h.Length)
    requires test == (s => Compensates(s, buf))
    modifies h
    ensures v == if BadInTime(buf, test) then Detected
                 else if Repeats(buf, Blocks(buf)) > MAX_IDENTICAL then DosDetected else Clean
  {
    ClearIndex(h);
    assert Indexed(h[..], buf, 0);
    v := HashLoop(h, buf, test);
  }

  /** The rounds over the cleared index. */
  method HashLoop(h: array<nat>, buf: seq<byte>, ghost test: Test) returns (v: Verdict)
    requires |buf| % 8 == 0 && Blocks(buf) <= SSH_MAXBLOCKS && Blocks(buf) < h.Length && IsSize(h.Length)
    requires test == (s => Compensates(s, buf))
    requires Indexed(h[..], buf, 0) && UsedCount(h[..]) == 0
    modifies h
    ensures RightVerdict(buf, test, v)
  {
    var j: nat, same: nat := 0, 0;
    while j < |buf| / SSH_BLOCKSIZE
      invariant 0 <= j <= Blocks(buf)
      invariant Indexed(h[..], buf, j) && UsedCount(h[..]) <= j
      invariant same == Repeats(buf, j) <= MAX_IDENTICAL
      invariant CleanUpTo(buf, test, j)
    {
      v, same := HashRound(h, buf, j, same, test);
      if !v.Clean? {
        EndsRight(buf, test, j, v);
        return;
      }
      CleanStep(buf, test, j);
      j := j + 1;
    }
    CleanIsRight(buf, test);
    return Clean;
  }

  /** The inner loop of the plain scan: whether an earlier block equals block c. */
  method Seen(buf: seq<byte>, c: nat) returns (r: bool)
    requires c < Blocks(buf)
    ensures r <==> Repeat(buf, c)
  {
    var d: nat := 0;
    while d < c
      invariant 0 <= d <= c
      invariant forall e: nat :: e < d ==> Block(buf, e) != Block(buf, c)
    {
      if buf[8 * c..8 * c + 8] == buf[8 * d..8 * d + 8] {
        assert Block(buf, d) == Block(buf, c);
        return true;
      }
      d := d + 1;
    }
    r := false;
  }

  /** The plain scan used for short packets. */
  method QuadraticScan(buf: seq<byte>, ghost test: Test) returns (v: Verdict)
    requires |buf| % 8 == 0
    requires test == (s => Compensates(s, buf))
    ensures v == if AnyBad(buf, test) then Detected else Clean
  {
    var c: nat := 0;
    while c < |buf| / SSH_BLOCKSIZE
      invariant 0 <= c <= Blocks(buf)
      invariant CleanUpTo(buf, test, c)
    {
      var seen := Seen(buf, c);
      if seen {
        var hit := CheckAt(buf, c, test);
        if hit {
          assert Bad(buf, test, c);
          return Detected;
        }
      }
      CleanStep(buf, test, c);
      c := c + 1;
    }
    return Clean;
  }

  class Detector {
    var h: array?<nat>
    var n: nat

    ghost predicate Valid()
      reads this
    {
      IsSize(n) && n >= 4096 && (h != null ==> h.Length == n)
    }

    constructor ()
      ensures Valid() && h == null && n == 4096
    {
      h := null;
      n := HASH_MINSIZE / HASH_ENTRYSIZE;
    }

    /** The table is enlarged to at least three slots for every two blocks, and never shrinks. */
    method Install(blocks: nat)
      requires Valid() && blocks <= SSH_MAXBLOCKS
      modifies this
      ensures Valid() && h != null
      ensures n >= old(n) && n >= blocks * 3 / 2 && (n == old(n) || n < 4 * (blocks * 3 / 2))
      ensures old(h) == null || n > old(n) ==> fresh(h)
      ensures old(h) != null && n == old(n) ==> h == old(h)
    {
      var l := n;
      while l < blocks * 3 / 2
        invariant n <= l && IsSize(l)
        invariant l == n || l < 4 * (blocks * 3 / 2)
        decreases blocks * 3 / 2 - l
      {
        l := l * 4;
      }
      if h == null {
        h := new nat[l];
        n := l;
      } else if l > n {
        h := new nat[l];
        n := l;
      }
    }

    /** detect_attack, any number of times with the table kept between calls. */
    method DetectAttack(buf: seq<byte>) returns (v: Verdict)
      requires Valid()
      modifies this, h
      ensures Valid() && n >= old(n)
      ensures v == Expected(buf, s => Compensates(s, buf))
    {
      ghost var test: Test := s => Compensates(s, buf);
      if |buf| > SSH_MAXBLOCKS * SSH_BLOCKSIZE || |buf| % SSH_BLOCKSIZE != 0 {
        return BadLength;
      }
      Install(|buf| / SSH_BLOCKSIZE);
      if |buf| <= HASH_MINBLOCKS {
        v := QuadraticScan(buf, test);
      } else {
        v := HashScan(h, buf, test);
      }
    }
  }
}
