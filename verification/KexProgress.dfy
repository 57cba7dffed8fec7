/** A key exchange that has begun can always be completed, by both sides. */
module KexProgress {
  import opened Bytes
  import Wire
  import opened MatchList
  import opened KexChoose
  import opened KexRun
  import opened KexAgreement
  import opened KexTheorems

  predicate Quiet(n: Net) { n.c.rcvd == |n.s.sent| && n.s.rcvd == |n.c.sent| }

  predicate AtRest(g: bool, k: Side, rounds: nat) {
    k.phase.Idle? && !k.initSent && |k.exchanges| == rounds && |k.sent| == Base(g, rounds)
  }

  lemma {:induction false} NumbersHold(d: Deal, n: Net)
    requires Inv(d, n)
    ensures Numbers(G(d), n.c, |n.s.sent|) && Numbers(G(d), n.s, |n.c.sent|) && !n.c.server && n.s.server
  {
  }

  /** When no message is left to handle, no exchange is left open. */
  lemma {:induction false} QuietMeansDone(d: Deal, n: Net)
    requires Inv(d, n) && Quiet(n)
    ensures AtRest(G(d), n.c, |n.c.exchanges|) && AtRest(G(d), n.s, |n.c.exchanges|)
  {
    NumbersHold(d, n);
    QuietNumbers(G(d), n.c, n.s);
  }

  lemma {:induction false} QuietNumbers(g: bool, c: Side, s: Side)
    requires !c.server && s.server && c.rcvd == |s.sent| && s.rcvd == |c.sent|
    requires Numbers(g, c, |s.sent|) && Numbers(g, s, |c.sent|)
    ensures AtRest(g, c, |c.exchanges|) && AtRest(g, s, |c.exchanges|)
  {
    Located(g, c.rcvd);
    Located(g, s.rcvd);
  }

  /** Neither side has begun more than `rounds` exchanges. */
  predicate Within(g: bool, n: Net, rounds: nat) { |n.c.sent| <= Base(g, rounds) && |n.s.sent| <= Base(g, rounds) }

  /** Some side has begun that many. */
  predicate Begun(g: bool, n: Net, rounds: nat) {
    rounds == 0 || |n.c.sent| > Base(g, rounds - 1) || |n.s.sent| > Base(g, rounds - 1)
  }

  /** Handling a message begins no exchange that the peer has not begun. */
  lemma {:induction false} NoNewRound(g: bool, l: Side, heard: nat, rounds: nat)
    requires Numbers(g, l, heard) && heard <= Base(g, rounds) && l.rcvd > 0
    requires l.phase.Idle? ==> !l.initSent
    ensures |l.sent| <= Base(g, rounds)
  {
    Located(g, l.rcvd);
  }

  /** What follows the KEXINIT, or the choice of a group, keeps. */
  predicate Kept(k: Side, l: Side) {
    !l.phase.Idle? && l.rcvd == k.rcvd && l.server == k.server && k.sent <= l.sent
  }

  lemma {:induction false} TakeShapes(w: World, k: Side, gex: bool, g: Grp, xs: seq<nat>)
    requires k.conf.Some?
    ensures Kept(k, TakeGroup(w, k, gex, g, xs))
  {
  }

  lemma {:induction false} BeginShapes(w: World, a: Side, conf: Option<Conf>, xs: seq<nat>)
    ensures Kept(a, Begin(w, a, conf, xs))
  {
    if conf.Some? && !IsGex(conf.value.kex) {
      TakeShapes(w, a.(conf := conf, asked := NoAsk), false, w.fixed(conf.value.kex), xs);
    }
  }

  lemma {:induction false} RequestShapes(w: World, k: Side, ask: Ask, xs: seq<nat>, rnd: nat)
    requires k.conf.Some?
    ensures Kept(k, InputRequest(w, k, ask, xs, rnd))
  {
    var c := Clamped(ask);
    var g := GroupFor(w, BoundsOf(c), rnd);
    if g.Some? {
      TakeShapes(w, k.(asked := c, sent := k.sent + [GexGroup(g.value)]), true, g.value, xs);
    }
  }

  lemma {:induction false} DhShapes(w: World, k: Side, m: Msg)
    requires k.conf.Some? && k.pairs != []
    ensures Kept(k, HandleDh(w, k, m))
  {
  }

  /** A side that has handled one more message. */
  predicate Handled(k: Side, l: Side) {
    l.rcvd == k.rcvd + 1 && l.server == k.server && k.sent <= l.sent && (l.phase.Idle? ==> !l.initSent)
  }

  lemma {:induction false} IdleShape(w: World, k: Side, m: Msg, cookie: seq<u8>, xs: seq<nat>, rnd: nat)
    requires k.phase.Idle? && m.KexInit?
    ensures Handled(k, Handle(w, k, m, cookie, xs, rnd))
  {
    var b := SendKexinit(w, k.(rcvd := k.rcvd + 1, peer := k.peer + m.payload), cookie);
    var conf := w.choose(b.server, b.my, b.peer);
    HandlesInit(w, k, b, m, cookie, xs, rnd, conf);
    BeginShapes(w, b, conf, xs);
  }

  lemma {:induction false} GroupShape(w: World, k: Side, m: Msg, cookie: seq<u8>, xs: seq<nat>, rnd: nat)
    requires k.phase.AwaitGroup? && k.conf.Some?
    ensures Handled(k, Handle(w, k, m, cookie, xs, rnd))
  {
    if m.GexRequest? {
      RequestShapes(w, k.(rcvd := k.rcvd + 1), m.ask, xs, rnd);
    } else if m.GexGroup? {
      TakeShapes(w, k.(rcvd := k.rcvd + 1), true, m.group, xs);
    }
  }

  lemma {:induction false} DhShape(w: World, k: Side, m: Msg, cookie: seq<u8>, xs: seq<nat>, rnd: nat)
    requires k.phase.AwaitDh? && k.conf.Some? && k.pairs != []
    ensures Handled(k, Handle(w, k, m, cookie, xs, rnd))
  {
    DhShapes(w, k.(rcvd := k.rcvd + 1), m);
  }

  lemma {:induction false} HandleShape(w: World, k: Side, m: Msg, cookie: seq<u8>, xs: seq<nat>, rnd: nat)
    requires Equipped(k) && (k.phase.Idle? ==> m.KexInit?) && !k.phase.Dead? && !k.phase.Spent?
    ensures Handled(k, Handle(w, k, m, cookie, xs, rnd))
  {
    if k.phase.Idle? {
      IdleShape(w, k, m, cookie, xs, rnd);
    } else if k.phase.AwaitGroup? {
      GroupShape(w, k, m, cookie, xs, rnd);
    } else if k.phase.AwaitDh? {
      DhShape(w, k, m, cookie, xs, rnd);
    }
  }

  const COOKIE: seq<u8> := [0, 0, 0, 0, 0, 0, 0, 0, 0, 0, 0, 0, 0, 0, 0, 0]

  // ---- exponents that dh_gen_key settles on ----

  /** The exponents that BN_rand draws have twice the bits needed, the highest of them set. */
  predicate Wide(d: Deal, x: nat) { Wire.Bits(x) == 2 * (d.cconf.weNeed * 8) }

  /** Every group in use has such an exponent with a valid value. */
  ghost predicate Fruitful(d: Deal) {
    forall g :: InUse(d, g) ==> exists x: nat :: Wide(d, x) && Usable(d, Pair(g, x))
  }

  predicate AllWide(d: Deal, xs: seq<nat>) { forall x :: x in xs ==> Wide(d, x) }

  lemma {:induction false} SomeDraw(d: Deal, g: Grp) returns (xs: seq<nat>)
    requires Fruitful(d) && InUse(d, g)
    ensures AllWide(d, xs) && forall need: nat :: !GenKey(d.w, need, g, xs).GaveUp?
  {
    var x: nat :| Wide(d, x) && Usable(d, Pair(g, x));
    xs := [x];
    assert FirstValid(d.w, g, xs) == Drawn(x);
  }

  lemma {:induction false} InitDraw(d: Deal, k: Side, heard: seq<Msg>, rnd: nat) returns (xs: seq<nat>)
    requires Honest(d) && Settled(d) && Mirrored(d.cconf, d.sconf) && Fruitful(d) && InOrder(d, k) && InStep(d, k, heard) && k.phase.Idle?
    requires k.rcvd < |heard| && IsOffer(d.w, !k.server, heard[k.rcvd])
    ensures AllWide(d, xs) && !Handle(d.w, k, heard[k.rcvd], COOKIE, xs, rnd).phase.Spent?
  {
    SameKex(d, k.server);
    if G(d) {
      xs := [];
    } else {
      xs := SomeDraw(d, d.w.fixed(d.cconf.kex));
    }
    var a := SendKexinit(d.w, k, COOKIE);
    InitBecomes(d, k, a, Handle(d.w, k, heard[k.rcvd], COOKIE, xs, rnd), heard, COOKIE, xs, rnd);
    BeginLucky(d, a.(rcvd := a.rcvd + 1, peer := heard[a.rcvd].payload), xs);
  }

  lemma {:induction false} BeginLucky(d: Deal, b: Side, xs: seq<nat>)
    requires !G(d) ==> forall need: nat :: !GenKey(d.w, need, d.w.fixed(d.cconf.kex), xs).GaveUp?
    requires ConfOf(d, b.server).kex == d.cconf.kex
    ensures !Begin(d.w, b, Some(ConfOf(d, b.server)), xs).phase.Spent?
  {
  }

  lemma {:induction false} RequestDraw(d: Deal, k: Side, rnd: nat) returns (xs: seq<nat>)
    requires Stocked(d.w) && Fruitful(d) && G(d) && k.phase.AwaitGroup? && Equipped(k) && k.server
    ensures AllWide(d, xs) && !Handle(d.w, k, GexRequest(AskOf(d)), COOKIE, xs, rnd).phase.Spent?
  {
    GroupIsFine(d, rnd);
    xs := SomeDraw(d, GroupFor(d.w, BoundsOf(AskOf(d)), rnd).value);
    HandlesRequest(d.w, k, GexRequest(AskOf(d)), COOKIE, xs, rnd);
  }

  lemma {:induction false} GroupDraw(d: Deal, k: Side, g: Grp, rnd: nat) returns (xs: seq<nat>)
    requires Fruitful(d) && InUse(d, g) && k.phase.AwaitGroup? && Equipped(k) && !k.server
    ensures AllWide(d, xs) && !Handle(d.w, k, GexGroup(g), COOKIE, xs, rnd).phase.Spent?
  {
    xs := SomeDraw(d, g);
    HandlesGroup(d.w, k, GexGroup(g), COOKIE, xs, rnd);
  }

  lemma {:induction false} LuckyDraw(d: Deal, n: Net, server: bool) returns (xs: seq<nat>)
    requires Honest(d) && Settled(d) && Mirrored(d.cconf, d.sconf) && Fruitful(d) && Inv(d, n)
    requires var k, other := Mine(n, server), Mine(n, !server);
             k.rcvd < |other.sent| && Equipped(k) && Expects(d, k, other.sent[k.rcvd])
    ensures AllWide(d, xs)
    ensures !Handle(d.w, Mine(n, server), Mine(n, !server).sent[Mine(n, server).rcvd], COOKIE, xs, 0).phase.Spent?
  {
    Halves(d, n, server);
    Halves(d, n, !server);
    var k, other := Mine(n, server), Mine(n, !server);
    if k.phase.Idle? {
      xs := InitDraw(d, k, other.sent, 0);
    } else if k.phase.AwaitGroup? && server {
      var i := GroupWait(d, k, other.sent);
      xs := RequestDraw(d, k, 0);
    } else if k.phase.AwaitGroup? {
      NextGroup(d, n);
      assert Usable(d, n.s.pairs[|n.c.pairs|]);
      xs := GroupDraw(d, k, other.sent[k.rcvd].group, 0);
    } else {
      xs := [];
      LaterNotSpent(d.w, k, other.sent[k.rcvd], xs);
    }
  }

  lemma {:induction false} LaterNotSpent(w: World, k: Side, m: Msg, xs: seq<nat>)
    requires Equipped(k) && (k.phase.AwaitDh? || k.phase.AwaitNewKeys?)
    ensures !Handle(w, k, m, COOKIE, xs, 0).phase.Spent?
  {
  }

  /** Whoever has a message waiting handles it. */
  lemma {:induction false} NextWorks(d: Deal, n: Net) returns (e: Event, t: Net)
    requires Honest(d) && Settled(d) && Fruitful(d) && Inv(d, n) && !Quiet(n)
    ensures e.Receive? && e.cookie == COOKIE && e.rnd == 0 && AllWide(d, e.draws) && CanHappen(n, e) && t == Happen(d.w, n, e) && Lucky(t)
    ensures var k, other := Mine(n, e.server), Mine(n, !e.server);
            k.phase.Idle? ==> other.sent[k.rcvd].KexInit?
  {
    SettledMirrors(d);
    var server := WhoseTurn(d, n);
    var xs := LuckyDraw(d, n, server);
    e := Receive(server, COOKIE, xs, 0);
    t := With(n, Handle(d.w, Mine(n, server), Mine(n, !server).sent[Mine(n, server).rcvd], COOKIE, xs, 0), server);
    LuckyStep(d.w, n, e, t);
  }

  /** A side with a message to handle, and it is one that the side expects. */
  lemma {:induction false} WhoseTurn(d: Deal, n: Net) returns (server: bool)
    requires Honest(d) && Settled(d) && Inv(d, n) && !Quiet(n)
    ensures var k, other := Mine(n, server), Mine(n, !server);
            && k.rcvd < |other.sent| && Equipped(k) && !k.phase.Dead? && Expects(d, k, other.sent[k.rcvd])
            && (k.phase.Idle? ==> other.sent[k.rcvd].KexInit?)
    ensures Lucky(n)
  {
    NumbersHold(d, n);
    SettledMirrors(d);
    server := n.s.rcvd < |n.c.sent|;
    Halves(d, n, server);
    NextMessage(d, Mine(n, server), Mine(n, !server));
  }

  lemma {:induction false} LuckyStep(w: World, n: Net, e: Event, t: Net)
    requires var k, other := Mine(n, e.server), Mine(n, !e.server);
             && e.Receive? && e.cookie == COOKIE && Equipped(k)
             && k.rcvd < |other.sent| && !k.phase.Dead? && Lucky(n)
             && var l := Handle(w, k, other.sent[k.rcvd], e.cookie, e.draws, e.rnd);
                !l.phase.Spent? && t == With(n, l, e.server)
    ensures CanHappen(n, e) && t == Happen(w, n, e) && Lucky(t)
  {
  }

  lemma {:induction false} NextStep(d: Deal, n: Net, t: Net, server: bool, xs: seq<nat>, rounds: nat)
    requires Inv(d, t) && Within(G(d), n, rounds)
    requires var k, other := Mine(n, server), Mine(n, !server);
             && k.rcvd < |other.sent| && Equipped(k) && (k.phase.Idle? ==> other.sent[k.rcvd].KexInit?)
             && !k.phase.Dead? && !k.phase.Spent?
             && t == With(n, Handle(d.w, k, other.sent[k.rcvd], COOKIE, xs, 0), server)
    ensures Within(G(d), t, rounds) && t.c.rcvd + t.s.rcvd == n.c.rcvd + n.s.rcvd + 1
    ensures |t.c.sent| >= |n.c.sent| && |t.s.sent| >= |n.s.sent|
  {
    var k, other := Mine(n, server), Mine(n, !server);
    HandleShape(d.w, k, other.sent[k.rcvd], COOKIE, xs, 0);
    NumbersHold(d, t);
    NoNewRound(G(d), Mine(t, server), |other.sent|, rounds);
  }

  lemma {:induction false} RunCons(w: World, n: Net, e: Event, t: Net, rest: seq<Event>)
    requires CanHappen(n, e) && t == Happen(w, n, e) && Lucky(t) && IsRun(w, t, rest)
    ensures IsRun(w, n, [e] + rest) && After(w, n, [e] + rest) == After(w, t, rest)
  {
    assert ([e] + rest)[1..] == rest;
  }

  lemma {:induction false} AllDone(g: bool, n: Net, done: nat, rounds: nat)
    requires AtRest(g, n.c, done) && AtRest(g, n.s, done) && Within(g, n, rounds) && Begun(g, n, rounds)
    ensures done == rounds
  {
  }

  lemma {:induction false} BegunStays(g: bool, n: Net, t: Net, rounds: nat)
    requires Begun(g, n, rounds) && |t.c.sent| >= |n.c.sent| && |t.s.sent| >= |n.s.sent|
    ensures Begun(g, t, rounds)
  {
  }

  /** One message handled, and no exchange begun by it alone. */
  lemma {:induction false} OneMore(d: Deal, n: Net, rounds: nat) returns (e: Event, t: Net)
    requires Honest(d) && Settled(d) && Fruitful(d) && Inv(d, n) && !Quiet(n) && Within(G(d), n, rounds) && Begun(G(d), n, rounds)
    ensures e.Receive? && AllWide(d, e.draws) && CanHappen(n, e) && t == Happen(d.w, n, e) && Lucky(t)
    ensures Inv(d, t) && Within(G(d), t, rounds) && Begun(G(d), t, rounds)
    ensures t.c.rcvd + t.s.rcvd == n.c.rcvd + n.s.rcvd + 1 && t.c.rcvd + t.s.rcvd <= 2 * Base(G(d), rounds)
  {
    e, t := NextWorks(d, n);
    StepKeepsInv(d, n, t, e);
    NextStep(d, n, t, e.server, e.draws, rounds);
    NumbersHold(d, t);
    BegunStays(G(d), n, t, rounds);
  }

  /** The run handles messages only, draws exponents as BN_rand does, and leaves both sides at rest after `rounds` exchanges. */
  ghost predicate Completes(d: Deal, n: Net, es: seq<Event>, rounds: nat) {
    && IsRun(d.w, n, es) && (forall e :: e in es ==> e.Receive? && AllWide(d, e.draws))
    && var t := After(d.w, n, es); AtRest(G(d), t.c, rounds) && AtRest(G(d), t.s, rounds) && Inv(d, t)
  }

  lemma {:induction false} CompletesCons(d: Deal, n: Net, e: Event, t: Net, rest: seq<Event>, rounds: nat)
    requires e.Receive? && AllWide(d, e.draws) && CanHappen(n, e) && t == Happen(d.w, n, e) && Lucky(t) && Completes(d, t, rest, rounds)
    ensures Completes(d, n, [e] + rest, rounds)
  {
    RunCons(d.w, n, e, t, rest);
  }

  lemma {:induction false} QuietCompletes(d: Deal, n: Net, rounds: nat)
    requires Inv(d, n) && Quiet(n) && Within(G(d), n, rounds) && Begun(G(d), n, rounds)
    ensures Completes(d, n, [], rounds)
  {
    QuietMeansDone(d, n);
    AllDone(G(d), n, |n.c.exchanges|, rounds);
  }

  /** From every state, handling what is in flight completes every exchange that has begun. */
  lemma {:induction false} ExchangesComplete(d: Deal, n: Net, rounds: nat) returns (es: seq<Event>)
    requires Honest(d) && Settled(d) && Fruitful(d) && Inv(d, n) && Within(G(d), n, rounds) && Begun(G(d), n, rounds)
    ensures Completes(d, n, es, rounds)
    decreases 2 * Base(G(d), rounds) - n.c.rcvd - n.s.rcvd
  {
    if Quiet(n) {
      QuietCompletes(d, n, rounds);
      es := [];
    } else {
      var e, t := OneMore(d, n, rounds);
      var rest := ExchangesComplete(d, t, rounds);
      CompletesCons(d, n, e, t, rest, rounds);
      es := [e] + rest;
    }
  }

  lemma {:induction false} OfferOut(w: World, t: Net, g: bool)
    requires t == With(START, SendKexinit(w, START.c, COOKIE), false)
    ensures CanHappen(START, Rekey(false, COOKIE)) && t == Happen(w, START, Rekey(false, COOKIE))
    ensures Within(g, t, 1) && Begun(g, t, 1)
  {
    SendShape(w, START.c, COOKIE, t.c);
    assert |t.c.sent| == 1 && t.s.sent == [];
  }

  lemma {:induction false} FirstOffer(d: Deal) returns (t: Net)
    ensures CanHappen(START, Rekey(false, COOKIE)) && t == Happen(d.w, START, Rekey(false, COOKIE))
    ensures Inv(d, t) && Lucky(t) && Within(G(d), t, 1) && Begun(G(d), t, 1)
  {
    t := With(START, SendKexinit(d.w, START.c, COOKIE), false);
    OfferOut(d.w, t, G(d));
    StartInv(d);
    RekeyKeepsInv(d, START, t, false, COOKIE);
  }

  lemma {:induction false} Afterwards(d: Deal, t: Net, rest: seq<Event>) returns (n: Net)
    requires Completes(d, t, rest, 1) && CanHappen(START, Rekey(false, COOKIE)) && t == Happen(d.w, START, Rekey(false, COOKIE)) && Lucky(t)
    ensures Reachable(d.w, n) && AtRest(G(d), n.c, 1) && AtRest(G(d), n.s, 1)
  {
    RunCons(d.w, START, Rekey(false, COOKIE), t, rest);
    n := After(d.w, t, rest);
    assert After(d.w, START, [Rekey(false, COOKIE)] + rest) == n;
  }

  /** Every pair of honest ends with a common outcome can establish keys. */
  lemma {:induction false} KeysCanBeEstablished(d: Deal) returns (n: Net)
    requires Honest(d) && Settled(d) && Fruitful(d)
    ensures Reachable(d.w, n) && AtRest(G(d), n.c, 1) && AtRest(G(d), n.s, 1)
  {
    var t := FirstOffer(d);
    var rest := ExchangesComplete(d, t, 1);
    n := Afterwards(d, t, rest);
  }
}
