/** What a user of the channel layer can rely on in every run, in both directions. */
module ChannelTheorems {
  import opened Bytes
  import opened ChannelStep
  import opened ChannelNet
  import opened ChannelSafety

  /** Reachable from a freshly opened channel. */
  ghost predicate Reachable(t: Net) {
    exists s: Net, es: seq<Event> :: Init(s) && IsRun(s, es) && After(s, es) == t
  }

  lemma {:induction false} ReachableInv(t: Net)
    requires Reachable(t)
    ensures Inv(t)
  {
    var s: Net, es: seq<Event> :| Init(s) && IsRun(s, es) && After(s, es) == t;
    InitInv(s);
    RunKeepsInv(s, es);
  }

  function Mirror(es: seq<Event>): (r: seq<Event>) {
    if es == [] then [] else [if es[0].AtX? then AtY(es[0].a) else AtX(es[0].a)] + Mirror(es[1..])
  }

  lemma {:induction false} MirrorRun(s: Net, es: seq<Event>)
    requires IsRun(s, es)
    ensures IsRun(Swap(s), Mirror(es)) && After(Swap(s), Mirror(es)) == Swap(After(s, es))
    decreases |es|
  {
    if es != [] {
      MirrorRun(Happen(s, es[0]), es[1..]);
      assert Mirror(es)[1..] == Mirror(es[1..]);
    }
  }

  /** The two ends run the same code, so each statement below also holds from y to x. */
  lemma {:induction false} EitherDirection(t: Net)
    requires Reachable(t)
    ensures Reachable(Swap(t))
  {
    var s: Net, es: seq<Event> :| Init(s) && IsRun(s, es) && After(s, es) == t;
    MirrorRun(s, es);
    assert Init(Swap(s));
  }

  /** Section 5.2 of RFC 4254: the sender never has more credit than the receiver has room. */
  lemma {:induction false} CreditNeverExceeds(t: Net)
    requires Reachable(t)
    ensures t.x.win.remote + |DataIn(t.xy)| + |ExtIn(t.xy)| + AdjustIn(t.yx) <= t.y.win.local <= t.y.win.max < U32
    ensures t.x.win.remote + |DataIn(t.xy)| + |ExtIn(t.xy)| + AdjustIn(t.yx) == t.y.win.local <==> t.y.log.elost == []
    ensures t.y.win.local + |t.y.output| + |ExtBuffered(t.y)| + t.y.win.consumed <= t.y.win.max
    ensures t.y.win.local + |t.y.output| + |ExtBuffered(t.y)| + t.y.win.consumed == t.y.win.max <==> t.y.log.cleared == 0
    ensures t.y.log.cleared > 0 ==> t.y.log.wfail
  {
    ReachableInv(t);
  }

  /** The "rcvd too much data", "big packet", "after EOF", "nonexistent channel" and "close rcvd twice" branches never run. */
  lemma {:induction false} ErrorBranchesUnreachable(t: Net)
    requires Reachable(t) && t.xy != []
    ensures !t.y.kind.Freed? && !t.y.closeRcvd
    ensures var m := t.xy[0];
            && (m.Data? || m.ExtData? ==>
                  t.y.kind.Open? && !t.y.eofRcvd && |m.data| <= t.y.win.local && |m.data| <= t.y.win.lpacket)
            && (m.Data? && !t.y.ostate.OutOpen? ==> t.y.log.wfail)
            && (m.Adjust? ==> t.y.win.remote + m.n < U32)
            && (m.Eof? ==> !t.y.eofRcvd)
  {
    ReachableInv(t);
    var m := t.xy[0];
    assert m in t.xy;
    HeadFits(Swap(t), 1);
    assert t.xy[..1] == [m];
    InFlightOne(m);
  }

  /** Every window update is exact: no u_int operation on a window ever wraps. */
  lemma {:induction false} WindowsNeverWrap(t: Net, a: Action)
    requires Reachable(t) && XEnabled(t, a)
    ensures var u := XStep(t, a);
            && u.x.win.remote + |DataIn(u.xy)| + |ExtIn(u.xy)| + AdjustIn(u.yx)
               == t.x.win.remote + |DataIn(t.xy)| + |ExtIn(t.xy)| + AdjustIn(t.yx)
            && u.y == t.y
            && u.x.win.remote < U32
            && u.x.win.local + |u.x.output| + |ExtBuffered(u.x)| + u.x.win.consumed + u.x.log.cleared == u.x.win.max < U32
  {
    ReachableInv(t);
    XStepKeepsInv(t, a);
  }

  /** Bytes come out in the order they went in; nothing is lost before a write fails. */
  lemma {:induction false} StreamIntegrity(t: Net)
    requires Reachable(t)
    ensures t.y.log.put <= t.x.log.got
    ensures !t.y.log.wfail ==> t.y.log.put + t.y.output + DataIn(t.xy) + t.x.input == t.x.log.got
    ensures t.y.log.eput <= t.x.log.egot
    ensures t.y.log.elost == [] ==> t.y.log.eput + ExtBuffered(t.y) + ExtIn(t.xy) + ExtPending(t.x) == t.x.log.egot
    ensures t.y.use.ExtWrite? && t.y.efd ==> t.y.log.elost == []
  {
    ReachableInv(t);
    Front(t.y.log.put, t.y.output, t.y.log.lost, DataIn(t.xy), t.x.input, t.x.log.got);
    Front(t.y.log.eput, ExtBuffered(t.y), t.y.log.elost, ExtIn(t.xy), ExtPending(t.x), t.x.log.egot);
  }

  lemma Front(p: seq<u8>, a: seq<u8>, b: seq<u8>, c: seq<u8>, d: seq<u8>, w: seq<u8>)
    requires p + a + b + c + d == w
    ensures p <= w
    ensures b == [] ==> p + a + c + d == w
  {
    assert p + a + b + c + d == p + (a + b + c + d);
    if b == [] {
      assert p + a + b == p + a;
    }
  }

  /** An EOF the peer sent of its own accord arrives behind all of its data. */
  lemma {:induction false} EofMeansComplete(t: Net)
    requires Reachable(t) && t.y.eofRcvd && !t.x.closeRcvd && !t.y.log.wfail
    ensures t.y.log.put + t.y.output == t.x.log.got
    ensures t.y.ostate.OutClosed? ==> t.y.log.put == t.x.log.got
  {
    ReachableInv(t);
    NoDataLeft(t.xy);
    assert OneWay(Swap(t));
    assert Local(t.x);
    assert t.x.input == [];
    assert t.y.log.put + t.y.output + t.y.log.lost + DataIn(t.xy) + t.x.input == t.y.log.put + t.y.output;
  }

  lemma {:induction false} NoDataLeft(q: seq<Msg>)
    requires forall m :: m in q ==> !m.Data? && !m.ExtData?
    ensures DataIn(q) == [] && ExtIn(q) == []
  {
    if q != [] {
      assert q[0] in q;
      NoDataLeft(q[1..]);
    }
  }

  /** After both CLOSE messages nothing is in flight, so no message can hit a freed channel. */
  lemma {:induction false} FreedMeansQuiet(t: Net)
    requires Reachable(t) && t.y.kind.Freed?
    ensures t.xy == [] && t.x.closeSent && t.y.closeSent
    ensures t.x.kind.Freed? ==> t.yx == []
  {
    ReachableInv(t);
  }
}
