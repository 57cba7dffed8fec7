/**
 The extended buffer of a channel whose extended data is read: nothing but a comparison with the window of
 the peer keeps it from growing, and exactly up to which window that is enough.
 */
module EfdBuffer {
  import opened Bytes
  import opened SshBuffer
  import opened ChannelStep

  /** The largest peer window whose guard alone keeps the extended buffer from giving up. */
  const EFD_LIMIT: nat := BUFFER_MAX_LEN - BUFFER_MAX_CHUNK - CHAN_RBUF

  /** The layout of the buffer and the credit that the peer has granted. */
  datatype Efd = Efd(s: Shape, window: nat)

  /** A read, data sent to the peer, and a window adjustment. */
  datatype Move = Fill(n: nat) | Drain(n: nat) | Credit(n: nat)

  /** channel_pre_open asks for extended data. */
  predicate Wanted(e: Efd)
    requires e.s.offset <= e.s.end
  {
    e.s.end - e.s.offset < e.window
  }

  /** What may happen to a buffer that has not given up, where the peer grants at most w. */
  predicate Can(w: nat, e: Efd, m: Move)
    requires Sane(e.s)
  {
    match m
    case Fill(n) => 0 < n <= CHAN_RBUF && Wanted(e) && !Refuses(e.s, n)
    case Drain(n) => n <= e.s.end - e.s.offset && n <= e.window
    case Credit(n) => e.window + n <= w
  }

  function Do(e: Efd, m: Move): (r: Efd)
    requires Sane(e.s)
  {
    match m
    case Fill(n) => e.(s := Appended(e.s, n))
    case Drain(n) => Efd(e.s.(offset := e.s.offset + n), if n <= e.window then e.window - n else 0)
    case Credit(n) => e.(window := e.window + n)
  }

  /** Every step of the path is possible and leads to the next state. */
  ghost predicate Path(w: nat, es: seq<Efd>) {
    && es != [] && es[0] == Efd(Shape(4096, 0, 0), w)
    && (forall i: nat :: i < |es| ==> Sane(es[i].s))
    && (forall i: nat :: i + 1 < |es| ==> Follows(w, es[i], es[i + 1]))
  }

  ghost predicate Follows(w: nat, e: Efd, f: Efd)
    requires Sane(e.s)
  {
    exists m: Move :: Can(w, e, m) && f == Do(e, m)
  }

  /** A state that a new channel with window w can get to. */
  ghost predicate Reached(w: nat, e: Efd) {
    exists es: seq<Efd> :: Path(w, es) && es[|es| - 1] == e
  }

  lemma {:induction false} ReachedFirst(w: nat)
    ensures Reached(w, Efd(Shape(4096, 0, 0), w))
  {
    var es := [Efd(Shape(4096, 0, 0), w)];
    assert Path(w, es) && es[|es| - 1] == Efd(Shape(4096, 0, 0), w);
  }

  lemma {:induction false} ReachedNext(w: nat, e: Efd, m: Move, f: Efd)
    requires Reached(w, e) && Sane(e.s) && Can(w, e, m) && f == Do(e, m) && Sane(f.s)
    ensures Reached(w, f)
  {
    var es: seq<Efd> :| Path(w, es) && es[|es| - 1] == e;
    var fs := es + [f];
    forall i: nat | i + 1 < |fs|
      ensures Follows(w, fs[i], fs[i + 1])
    {
      if i + 1 < |es| {
        assert Follows(w, es[i], es[i + 1]);
      }
    }
    assert Path(w, fs) && fs[|fs| - 1] == f;
  }

  // ---- up to the limit ----

  ghost predicate Good(w: nat, e: Efd) { Sane(e.s) && Aligned(e.s) && e.window <= w }

  lemma {:induction false} AppendKeeps(s: Shape, n: nat)
    requires Sane(s) && Aligned(s) && !Refuses(s, n)
    ensures Sane(Appended(s, n)) && Aligned(Appended(s, n))
  {
  }

  lemma {:induction false} DoKeeps(w: nat, e: Efd, m: Move)
    requires Good(w, e) && Can(w, e, m)
    ensures Good(w, Do(e, m))
  {
    if m.Fill? {
      AppendKeeps(e.s, m.n);
    }
  }

  lemma {:induction false} PathKeeps(w: nat, es: seq<Efd>, i: nat)
    requires Path(w, es) && i < |es|
    ensures Good(w, es[i])
  {
    if i > 0 {
      PathKeeps(w, es, i - 1);
      assert Follows(w, es[i - 1], es[i - 1 + 1]);
      var m: Move :| Can(w, es[i - 1], m) && es[i] == Do(es[i - 1], m);
      DoKeeps(w, es[i - 1], m);
    }
  }

  lemma {:induction false} EfdFits(s: Shape, w: nat)
    requires Sane(s) && Aligned(s) && s.end - s.offset < w <= EFD_LIMIT
    ensures !Refuses(s, CHAN_RBUF)
  {
    var t := Rewound(s);
    if LastEnd(s, CHAN_RBUF) + CHAN_RBUF >= s.alloc {
      assert s.alloc < BUFFER_MAX_LEN;
      assert s.alloc + BUFFER_ALLOCSZ <= BUFFER_MAX_LEN;
    }
  }

  // ---- beyond it ----

  /** After i full reads, of which the first `gone` octets have been sent. */
  function Filled(i: nat, gone: nat): (r: Shape) { Shape(BUFFER_ALLOCSZ * (i / 2 + 1), gone, i * CHAN_RBUF) }

  lemma {:induction false} FilledNext(i: nat, gone: nat)
    requires 0 < i < 639 && gone < i * CHAN_RBUF && gone <= Min(BUFFER_ALLOCSZ * (i / 2 + 1), BUFFER_MAX_CHUNK)
    ensures Sane(Filled(i, gone)) && !Refuses(Filled(i, gone), CHAN_RBUF)
    ensures Appended(Filled(i, gone), CHAN_RBUF) == Filled(i + 1, gone)
  {
    var j := i / 2;
    var s := Filled(i, gone);
    assert i == 2 * j || i == 2 * j + 1;
    assert RoundUp(BUFFER_ALLOCSZ * (j + 1) + CHAN_RBUF, BUFFER_ALLOCSZ) == BUFFER_ALLOCSZ * (j + 2);
    assert (i + 1) / 2 == if i == 2 * j then j else j + 1;
  }

  lemma {:induction false} FilledSane(i: nat, gone: nat)
    requires 0 < i <= 639 && gone <= i * CHAN_RBUF
    ensures Sane(Filled(i, gone))
  {
    var j := i / 2;
    assert i == 2 * j || i == 2 * j + 1;
  }

  lemma {:induction false} FillsOne(w: nat, i: nat, gone: nat)
    requires 0 < i < 639 && gone < i * CHAN_RBUF && gone <= Min(BUFFER_ALLOCSZ * (i / 2 + 1), BUFFER_MAX_CHUNK)
    requires i * CHAN_RBUF - gone < w && Reached(w, Efd(Filled(i, gone), w))
    ensures Reached(w, Efd(Filled(i + 1, gone), w))
  {
    FilledNext(i, gone);
    FilledSane(i + 1, gone);
    ReachedNext(w, Efd(Filled(i, gone), w), Fill(CHAN_RBUF), Efd(Filled(i + 1, gone), w));
  }

  lemma {:induction false} FillsUp(w: nat, i: nat, k: nat, gone: nat)
    requires 0 < i <= k <= 639 && gone < i * CHAN_RBUF && gone <= Min(BUFFER_ALLOCSZ * (i / 2 + 1), BUFFER_MAX_CHUNK)
    requires k * CHAN_RBUF - gone < w + CHAN_RBUF
    requires Reached(w, Efd(Filled(i, gone), w))
    ensures Reached(w, Efd(Filled(k, gone), w))
    decreases k - i
  {
    if i < k {
      FillsOne(w, i, gone);
      FillsUp(w, i + 1, k, gone);
    }
  }

  lemma {:induction false} FirstFill(w: nat)
    requires w > 0
    ensures Reached(w, Efd(Filled(1, 0), w))
  {
    ReachedFirst(w);
    var e := Efd(Shape(4096, 0, 0), w);
    assert RoundUp(4096 + CHAN_RBUF, BUFFER_ALLOCSZ) == BUFFER_ALLOCSZ;
    assert Appended(e.s, CHAN_RBUF) == Filled(1, 0);
    ReachedNext(w, e, Fill(CHAN_RBUF), Efd(Filled(1, 0), w));
  }

  /** 575 reads, a megabyte sent and credited again, and 64 reads: the next one ends the process. */
  lemma {:induction false} GuardFails(w: nat) returns (e: Efd)
    requires w > EFD_LIMIT
    ensures Reached(w, e) && Sane(e.s) && Wanted(e) && Refuses(e.s, CHAN_RBUF)
  {
    FirstFill(w);
    FillsUp(w, 1, 575, 0);
    var full := Efd(Filled(575, 0), w);
    var sent := Efd(Filled(575, BUFFER_MAX_CHUNK), w - BUFFER_MAX_CHUNK);
    FilledNext(575, 0);
    FilledNext(575, BUFFER_MAX_CHUNK);
    ReachedNext(w, full, Drain(BUFFER_MAX_CHUNK), sent);
    ReachedNext(w, sent, Credit(BUFFER_MAX_CHUNK), Efd(Filled(575, BUFFER_MAX_CHUNK), w));
    FillsUp(w, 575, 639, BUFFER_MAX_CHUNK);
    e := Efd(Filled(639, BUFFER_MAX_CHUNK), w);
    assert e.s == Shape(BUFFER_MAX_LEN, BUFFER_MAX_CHUNK, BUFFER_MAX_LEN - CHAN_RBUF);
    assert RoundUp(BUFFER_MAX_LEN + CHAN_RBUF, BUFFER_ALLOCSZ) > BUFFER_MAX_LEN;
  }

  /**
   Whether extended data, read whenever less than the window of the peer is buffered, can ever make the
   buffer give up: not exactly for windows up to EFD_LIMIT.
   */
  lemma {:induction false} EfdGuardExact(w: nat)
    ensures (forall e: Efd :: Reached(w, e) && Sane(e.s) && Wanted(e) ==> !Refuses(e.s, CHAN_RBUF)) <==> w <= EFD_LIMIT
  {
    if w <= EFD_LIMIT {
      forall e: Efd | Reached(w, e) && Sane(e.s) && Wanted(e)
        ensures !Refuses(e.s, CHAN_RBUF)
      {
        var es: seq<Efd> :| Path(w, es) && es[|es| - 1] == e;
        PathKeeps(w, es, |es| - 1);
        EfdFits(e.s, e.window);
      }
    } else {
      var e := GuardFails(w);
    }
  }
}
