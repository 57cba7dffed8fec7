/** Proposals without a common outcome never lead to keys. */
module KexRefusal {
  import opened Bytes
  import opened MatchList
  import opened KexProposal
  import opened KexChoose
  import opened KexRun
  import opened KexAgreement
  import opened KexTheorems

  /** kex_choose_conf aborts. */
  predicate Hopeless(w: World)
    requires Ten(w)
  {
    ChooseConf(w.build, w.bugHmac, false, w.clientProp, w.serverProp).None?
  }

  lemma {:induction false} HopelessBothWays(w: World, server: bool)
    requires Ten(w) && Hopeless(w)
    ensures ChooseConf(w.build, w.bugHmac, server, Prop(w, server), Prop(w, !server)).None?
  {
  }

  lemma {:induction false} OffersFail(w: World, server: bool, mine: Msg, theirs: Msg)
    requires Offered(w) && Hopeless(w) && IsOffer(w, server, mine) && IsOffer(w, !server, theirs)
    ensures w.choose(server, mine.payload, theirs.payload).None?
  {
    var a: seq<u8> :| |a| == KEX_COOKIE_LEN && mine.payload == Payload(a, Prop(w, server));
    var b: seq<u8> :| |b| == KEX_COOKIE_LEN && theirs.payload == Payload(b, Prop(w, !server));
    PayloadRoundTrip(a, Prop(w, server));
    PayloadRoundTrip(b, Prop(w, !server));
    HopelessBothWays(w, server);
    assert Negotiate(w.build, w.bugHmac, server, mine.payload, theirs.payload).None?;
  }

  /** No exchange has begun: an offer may be out, and a side that saw one has given up. */
  ghost predicate Stuck(w: World, k: Side) {
    && k.exchanges == [] && k.sessionId.None? && k.pairs == []
    && (if k.initSent then k.sent == [KexInit(k.my)] && IsOffer(w, k.server, k.sent[0]) else k.sent == [])
    && (k.phase.Dead? || (k.phase.Idle? && k.peer == [] && k.rcvd == 0))
  }

  lemma {:induction false} SendStuck(w: World, k: Side, cookie: seq<u8>)
    requires Stuck(w, k) && |cookie| == KEX_COOKIE_LEN
    ensures Stuck(w, SendKexinit(w, k, cookie)) && SendKexinit(w, k, cookie).initSent
    ensures SendKexinit(w, k, cookie).server == k.server
  {
    var a := SendKexinit(w, k, cookie);
    if !k.initSent {
      assert a.sent == [KexInit(a.my)];
      assert IsOffer(w, k.server, a.sent[0]);
    }
  }

  lemma {:induction false} ReceiveStuck(w: World, k: Side, m: Msg, cookie: seq<u8>, xs: seq<nat>, rnd: nat, l: Side)
    requires Offered(w) && Hopeless(w) && Stuck(w, k) && k.phase.Idle? && IsOffer(w, !k.server, m)
    requires |cookie| == KEX_COOKIE_LEN && l == Handle(w, k, m, cookie, xs, rnd)
    ensures Stuck(w, l) && l.phase.Dead? && l.server == k.server
  {
    SendStuck(w, k, cookie);
    var a := SendKexinit(w, k, cookie);
    OffersFail(w, k.server, KexInit(a.my), m);
    SendCommutes(w, k, m.payload, cookie);
    HandlesInit(w, k, a.(rcvd := k.rcvd + 1, peer := m.payload), m, cookie, xs, rnd, None);
  }

  ghost predicate BothStuck(w: World, n: Net) {
    !n.c.server && n.s.server && Stuck(w, n.c) && Stuck(w, n.s)
  }

  lemma {:induction false} OneStuck(w: World, n: Net, l: Side, server: bool)
    requires BothStuck(w, n) && Stuck(w, l) && l.server == server
    ensures BothStuck(w, With(n, l, server))
  {
  }

  /** What is in flight is an offer of the other side. */
  lemma {:induction false} HeardOffer(w: World, k: Side, other: Side)
    requires Stuck(w, k) && Stuck(w, other) && other.server == !k.server && k.rcvd < |other.sent| && !k.phase.Dead?
    ensures k.phase.Idle? && IsOffer(w, !k.server, other.sent[k.rcvd])
  {
  }

  lemma {:induction false} StepStuck(w: World, n: Net, e: Event, k: Side, other: Side, l: Side)
    requires Offered(w) && Hopeless(w) && BothStuck(w, n) && CanHappen(n, e)
    requires k == Mine(n, e.server) && other == Mine(n, !e.server)
    requires l == if e.Rekey? then SendKexinit(w, k, e.cookie) else Handle(w, k, other.sent[k.rcvd], e.cookie, e.draws, e.rnd)
    ensures BothStuck(w, With(n, l, e.server))
  {
    if e.Rekey? {
      SendStuck(w, k, e.cookie);
    } else {
      HeardOffer(w, k, other);
      ReceiveStuck(w, k, other.sent[k.rcvd], e.cookie, e.draws, e.rnd, l);
    }
    OneStuck(w, n, l, e.server);
  }

  lemma {:induction false} RunStuck(w: World, n: Net, es: seq<Event>)
    requires Offered(w) && Hopeless(w) && BothStuck(w, n) && IsRun(w, n, es)
    ensures BothStuck(w, After(w, n, es))
    decreases |es|
  {
    if es != [] {
      var t := Happen(w, n, es[0]);
      StepStuck(w, n, es[0], Mine(n, es[0].server), Mine(n, !es[0].server), Mine(t, es[0].server));
      RunStuck(w, t, es[1..]);
    }
  }

  /** Neither side ever has keys or a session id, and each has sent at most its KEXINIT. */
  lemma {:induction false} NeverKeyed(w: World, n: Net)
    requires Offered(w) && Hopeless(w) && Reachable(w, n)
    ensures n.c.exchanges == [] && n.s.exchanges == [] && n.c.sessionId.None? && n.s.sessionId.None?
    ensures |n.c.sent| <= 1 && |n.s.sent| <= 1
    ensures forall m :: m in n.c.sent + n.s.sent ==> m.KexInit?
  {
    var es: seq<Event> :| IsRun(w, START, es) && After(w, START, es) == n;
    RunStuck(w, START, es);
  }
}
