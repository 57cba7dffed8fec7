/** dh_gen_key ends the process when a group is too small for the keys needed: exactly when that can happen. */
module KexRoom {
  import opened MatchList
  import opened KexChoose
  import opened KexRun
  import opened KexAgreement
  import opened KexTheorems
  import opened KexProgress
  import opened KexReal
  import KexExample

  /** One more step of a run. */
  lemma {:induction false} RunSnoc(w: World, n: Net, es: seq<Event>, e: Event)
    requires IsRun(w, n, es) && CanHappen(After(w, n, es), e) && Lucky(Happen(w, After(w, n, es), e))
    ensures IsRun(w, n, es + [e]) && After(w, n, es + [e]) == Happen(w, After(w, n, es), e)
    decreases |es|
  {
    if es == [] {
      assert [] + [e] == [e] && [e][1..] == [];
    } else {
      RunSnoc(w, Happen(w, n, es[0]), es[1..], e);
      assert (es + [e])[1..] == es[1..] + [e];
    }
  }

  lemma {:induction false} ReachesOn(w: World, n: Net, e: Event, t: Net)
    requires Reachable(w, n) && CanHappen(n, e) && t == Happen(w, n, e) && Lucky(t)
    ensures Reachable(w, t)
  {
    var es: seq<Event> :| IsRun(w, START, es) && After(w, START, es) == n;
    RunSnoc(w, START, es, e);
  }

  /** The client has sent its KEXINIT. */
  lemma {:induction false} Opened(d: Deal) returns (n: Net)
    ensures Reachable(d.w, n) && Inv(d, n) && Lucky(n) && n.s == Fresh(true) && n.c.phase.Idle? && n.c.rcvd == 0
    ensures |n.c.sent| == 1 && IsOffer(d.w, false, n.c.sent[0])
  {
    n := FirstOffer(d);
    assert IsRun(d.w, START, [Rekey(false, COOKIE)]) && After(d.w, START, [Rekey(false, COOKIE)]) == n by {
      RunCons(d.w, START, Rekey(false, COOKIE), n, []);
      assert [Rekey(false, COOKIE)] + [] == [Rekey(false, COOKIE)];
    }
    Place(G(d), 0, 0);
    assert InPlace(d, n.c, 0);
  }

  /** A plain exchange: the server ends where it draws its exponent. */
  lemma {:induction false} PlainDies(d: Deal) returns (n: Net)
    requires Fair(d) && Settled(d) && !G(d) && Small(d.cconf.weNeed, d.w.fixed(d.cconf.kex))
    ensures Reachable(d.w, n) && n.s.phase.Dead?
  {
    SettledMirrors(d);
    SameKex(d, true);
    var m := Opened(d);
    var e := Receive(true, COOKIE, [], 0);
    var a, l := SendKexinit(d.w, m.s, COOKIE), Handle(d.w, m.s, m.c.sent[0], COOKIE, [], 0);
    InitBecomes(d, m.s, a, l, m.c.sent, COOKIE, [], 0);
    n := Happen(d.w, m, e);
    ReachesOn(d.w, m, e, n);
  }

  /** A group exchange, up to the request. */
  lemma {:induction false} Asked(d: Deal) returns (n: Net)
    requires Fair(d) && Settled(d) && G(d)
    ensures Reachable(d.w, n) && Inv(d, n) && Lucky(n) && n.s.phase.AwaitGroup? && n.s.conf.Some?
    ensures n.s.rcvd < |n.c.sent| && n.c.sent[n.s.rcvd] == GexRequest(AskOf(d))
  {
    SettledMirrors(d);
    SameKex(d, true);
    SameKex(d, false);
    var m := Opened(d);
    var t := ServerAnswers(d, m);
    n := ClientAsks(d, t);
  }

  lemma {:induction false} ServerAnswers(d: Deal, m: Net) returns (t: Net)
    requires Fair(d) && Settled(d) && G(d) && Mirrored(d.cconf, d.sconf)
    requires Reachable(d.w, m) && Inv(d, m) && Lucky(m) && m.s == Fresh(true) && m.c.phase.Idle? && m.c.rcvd == 0
    requires |m.c.sent| == 1 && IsOffer(d.w, false, m.c.sent[0])
    ensures Reachable(d.w, t) && Inv(d, t) && Lucky(t) && t.c == m.c && t.s.phase.AwaitGroup? && t.s.conf.Some? && t.s.rcvd == 1
    ensures |t.s.sent| == 1 && IsOffer(d.w, true, t.s.sent[0])
  {
    var e, l := Receive(true, COOKIE, [], 0), Handle(d.w, m.s, m.c.sent[0], COOKIE, [], 0);
    var a := SendKexinit(d.w, m.s, COOKIE);
    SameKex(d, true);
    InitBecomes(d, m.s, a, l, m.c.sent, COOKIE, [], 0);
    ServerInit(d, m, l, COOKIE, [], 0);
    t := Happen(d.w, m, e);
    ReachesOn(d.w, m, e, t);
    Place(G(d), 0, 0);
    assert InPlace(d, t.s, 0);
  }

  lemma {:induction false} ClientAsks(d: Deal, t: Net) returns (n: Net)
    requires Fair(d) && Settled(d) && G(d) && Mirrored(d.cconf, d.sconf)
    requires Reachable(d.w, t) && Inv(d, t) && Lucky(t) && t.c.phase.Idle? && t.c.rcvd == 0 && |t.c.sent| == 1
    requires t.s.phase.AwaitGroup? && t.s.conf.Some? && t.s.rcvd == 1 && |t.s.sent| == 1 && IsOffer(d.w, true, t.s.sent[0])
    ensures Reachable(d.w, n) && Inv(d, n) && Lucky(n) && n.s == t.s
    ensures n.s.rcvd < |n.c.sent| && n.c.sent[n.s.rcvd] == GexRequest(AskOf(d))
  {
    var e, l := Receive(false, COOKIE, [], 0), Handle(d.w, t.c, t.s.sent[0], COOKIE, [], 0);
    var a := SendKexinit(d.w, t.c, COOKIE);
    SameKex(d, false);
    InitBecomes(d, t.c, a, l, t.s.sent, COOKIE, [], 0);
    ClientInit(d, t, l, COOKIE, [], 0);
    n := Happen(d.w, t, e);
    ReachesOn(d.w, t, e, n);
    Place(G(d), 0, 1);
    assert n.c.sent[1] == GexRequest(AskOf(d));
  }

  /** The server ends once it has sent a group that is too small. */
  lemma {:induction false} GexDies(d: Deal, g: Grp) returns (n: Net)
    requires Fair(d) && Settled(d) && G(d) && InUse(d, g) && Small(d.cconf.weNeed, g)
    ensures Reachable(d.w, n) && n.s.phase.Dead?
  {
    var rnd: nat :| GroupFor(d.w, BoundsOf(AskOf(d)), rnd) == Some(g);
    SettledMirrors(d);
    var m := Asked(d);
    var e := Receive(true, COOKIE, [], rnd);
    RequestDies(d, m.s, g, rnd);
    n := Happen(d.w, m, e);
    ReachesOn(d.w, m, e, n);
  }

  lemma {:induction false} RequestDies(d: Deal, k: Side, g: Grp, rnd: nat)
    requires Stocked(d.w) && Mirrored(d.cconf, d.sconf) && G(d) && k.phase.AwaitGroup? && k.server && k.conf.Some?
    requires GroupFor(d.w, BoundsOf(AskOf(d)), rnd) == Some(g) && Small(k.conf.value.weNeed, g)
    ensures Handle(d.w, k, GexRequest(AskOf(d)), COOKIE, [], rnd).phase.Dead?
  {
    GroupIsFine(d, rnd);
    HandlesRequest(d.w, k, GexRequest(AskOf(d)), COOKIE, [], rnd);
  }

  /** Neither side ever ends an exchange by itself exactly if every group in use is large enough. */
  lemma {:induction false} EndsExactly(d: Deal)
    requires Fair(d) && Settled(d)
    ensures RoomEnough(d) <==> forall n, server :: Reachable(d.w, n) ==> !Mine(n, server).phase.Dead?
  {
    if RoomEnough(d) {
      forall n, server | Reachable(d.w, n)
        ensures !Mine(n, server).phase.Dead?
      {
        NeverBreaksOff(d, n, server);
      }
    } else {
      var g :| InUse(d, g) && Small(d.cconf.weNeed, g);
      var n := TooSmallDies(d, g);
      assert Mine(n, true).phase.Dead?;
    }
  }

  lemma {:induction false} TooSmallDies(d: Deal, g: Grp) returns (n: Net)
    requires Fair(d) && Settled(d) && InUse(d, g) && Small(d.cconf.weNeed, g)
    ensures Reachable(d.w, n) && n.s.phase.Dead?
  {
    if G(d) {
      n := GexDies(d, g);
    } else {
      n := PlainDies(d);
    }
  }

  /** A group of 1024 bits and a MAC with a 64-octet key. */
  lemma {:induction false} SmallGroupEnds() returns (d: Deal, n: Net)
    ensures Fair(d) && Settled(d) && d.cconf.kex == Group1 && d.cconf.weNeed == 64
    ensures KexRun.Wire.Bits(d.w.fixed(Group1).p) == 1024
    ensures Reachable(d.w, n) && n.s.phase.Dead?
  {
    KexExample.KexPlain();
    KexExample.KexTypes();
    var p := WithBits(1024);
    d := SampleSettles(KexExample.FIXED_GROUP, 64, Grp(p, 3));
    SampleIsFair(KexExample.FIXED_GROUP, 64, Grp(p, 3), d);
    n := PlainDies(d);
  }
}
