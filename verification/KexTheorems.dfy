/** What holds of every exchange in every run of two honest ends. */
module KexTheorems {
  import opened Bytes
  import opened MatchList
  import opened KexProposal
  import opened KexChoose
  import opened KexRun
  import opened KexAgreement

  /** What a side in its phase waits for. */
  ghost predicate Expects(d: Deal, k: Side, m: Msg) {
    match k.phase
    case Idle => m.KexInit? && IsOffer(d.w, !k.server, m)
    case AwaitGroup => k.conf.Some? && if k.server then m == GexRequest(AskOf(d)) else m.GexGroup?
    case AwaitDh => k.conf == Some(ConfOf(d, k.server)) && k.pairs != [] && if k.server then m.DhInit? && m.gex == G(d) else m.DhReply? && m.gex == G(d)
    case AwaitNewKeys => m == NewKeys
    case Dead => false
    case Spent => false
  }

  /** In every phase the next message is the one that phase waits for. */
  lemma {:induction false} NextMessage(d: Deal, k: Side, other: Side)
    requires InStep(d, k, other.sent) && InOrder(d, other) && other.server == !k.server && k.rcvd < |other.sent|
    ensures Equipped(k) && Expects(d, k, other.sent[k.rcvd])
  {
    Located(G(d), k.rcvd);
    assert InPlace(d, other, k.rcvd);
  }

  /** The group the client waits for is the one the server has drawn its exponent in. */
  lemma {:induction false} NextGroup(d: Deal, n: Net)
    requires Inv(d, n) && n.c.phase.AwaitGroup? && n.c.rcvd < |n.s.sent|
    ensures |n.c.pairs| < |n.s.pairs| && InRange(n.s.pairs[|n.c.pairs|].group)
    ensures n.s.sent[n.c.rcvd] == GexGroup(n.s.pairs[|n.c.pairs|].group)
  {
    var i := GroupWait(d, n.c, n.s.sent);
    Place(true, i, 1);
    assert InPlace(d, n.s, n.c.rcvd);
  }

  // ---- what a side makes of the message its phase waits for ----

  lemma {:induction false} HandlesInit(w: World, k: Side, b: Side, m: Msg, cookie: seq<u8>, xs: seq<nat>, rnd: nat, conf: Option<Conf>)
    requires k.phase.Idle? && m.KexInit? && conf == w.choose(b.server, b.my, b.peer)
    requires b == SendKexinit(w, k.(rcvd := k.rcvd + 1, peer := k.peer + m.payload), cookie)
    ensures Handle(w, k, m, cookie, xs, rnd) == Begin(w, b, conf, xs)
  {
    var n := k.(rcvd := k.rcvd + 1);
    IdleIs(w, k, n, m, cookie, xs, rnd);
    OfferIs(w, n, b, m, cookie, xs, conf);
  }

  lemma {:induction false} HandlesRequest(w: World, k: Side, m: Msg, cookie: seq<u8>, xs: seq<nat>, rnd: nat)
    requires k.phase.AwaitGroup? && Equipped(k) && k.server && m.GexRequest?
    ensures Handle(w, k, m, cookie, xs, rnd) == InputRequest(w, k.(rcvd := k.rcvd + 1), m.ask, xs, rnd)
  {
  }

  lemma {:induction false} HandlesGroup(w: World, k: Side, m: Msg, cookie: seq<u8>, xs: seq<nat>, rnd: nat)
    requires k.phase.AwaitGroup? && Equipped(k) && !k.server && m.GexGroup?
    ensures Handle(w, k, m, cookie, xs, rnd) == InputGroup(w, k.(rcvd := k.rcvd + 1), m.group, xs)
  {
  }

  lemma {:induction false} HandlesDhInit(w: World, k: Side, m: Msg, cookie: seq<u8>, xs: seq<nat>, rnd: nat)
    requires k.phase.AwaitDh? && Equipped(k) && k.server && m.DhInit? && m.gex == IsGex(k.conf.value.kex)
    ensures Handle(w, k, m, cookie, xs, rnd) == ServerDh(w, k.(rcvd := k.rcvd + 1), m.pub)
  {
  }

  lemma {:induction false} HandlesDhReply(w: World, k: Side, m: Msg, cookie: seq<u8>, xs: seq<nat>, rnd: nat)
    requires k.phase.AwaitDh? && Equipped(k) && !k.server && m.DhReply? && m.gex == IsGex(k.conf.value.kex)
    ensures Handle(w, k, m, cookie, xs, rnd) == ClientDh(w, k.(rcvd := k.rcvd + 1), m.hostKey, m.pub, m.signature)
  {
  }

  lemma {:induction false} HandlesNewKeys(w: World, k: Side, m: Msg, cookie: seq<u8>, xs: seq<nat>, rnd: nat)
    requires k.phase.AwaitNewKeys? && m == NewKeys
    ensures Handle(w, k, m, cookie, xs, rnd) == Finish(k.(rcvd := k.rcvd + 1))
  {
  }

  lemma {:induction false} InitBecomes(d: Deal, k: Side, a: Side, l: Side, heard: seq<Msg>, cookie: seq<u8>, xs: seq<nat>, rnd: nat)
    requires Offered(d.w) && Settled(d) && |cookie| == KEX_COOKIE_LEN
    requires InOrder(d, k) && InStep(d, k, heard) && k.phase.Idle? && a == SendKexinit(d.w, k, cookie)
    requires k.rcvd < |heard| && IsOffer(d.w, !k.server, heard[k.rcvd])
    requires l == Handle(d.w, k, heard[k.rcvd], cookie, xs, rnd)
    ensures l == Begin(d.w, a.(rcvd := a.rcvd + 1, peer := heard[a.rcvd].payload), Some(ConfOf(d, a.server)), xs)
    ensures InOrder(d, a) && InStep(d, a, heard) && a.initSent && OnlySent(k, a)
  {
    var b := InitLeads(d, k, a, heard, cookie);
    HandlesInit(d.w, k, b, heard[k.rcvd], cookie, xs, rnd, Some(ConfOf(d, a.server)));
  }

  lemma {:induction false} ServerInit(d: Deal, n: Net, l: Side, cookie: seq<u8>, xs: seq<nat>, rnd: nat)
    requires Offered(d.w) && (G(d) || RoomEnough(d)) && Settled(d) && Mirrored(d.cconf, d.sconf) && Inv(d, n) && n.s.phase.Idle? && Equipped(n.s)
    requires n.s.rcvd < |n.c.sent| && |cookie| == KEX_COOKIE_LEN && IsOffer(d.w, false, n.c.sent[n.s.rcvd])
    requires !l.phase.Spent? && l == Handle(d.w, n.s, n.c.sent[n.s.rcvd], cookie, xs, rnd)
    ensures Inv(d, n.(s := l))
  {
    var a := SendKexinit(d.w, n.s, cookie);
    InitBecomes(d, n.s, a, l, n.c.sent, cookie, xs, rnd);
    BegunKeepsInv(d, n, n.(s := l), true, a, l, xs);
  }

  lemma {:induction false} ClientInit(d: Deal, n: Net, l: Side, cookie: seq<u8>, xs: seq<nat>, rnd: nat)
    requires Offered(d.w) && (G(d) || RoomEnough(d)) && Settled(d) && Mirrored(d.cconf, d.sconf) && Inv(d, n) && n.c.phase.Idle? && Equipped(n.c)
    requires n.c.rcvd < |n.s.sent| && |cookie| == KEX_COOKIE_LEN && IsOffer(d.w, true, n.s.sent[n.c.rcvd])
    requires !l.phase.Spent? && l == Handle(d.w, n.c, n.s.sent[n.c.rcvd], cookie, xs, rnd)
    ensures Inv(d, n.(c := l))
  {
    var a := SendKexinit(d.w, n.c, cookie);
    InitBecomes(d, n.c, a, l, n.s.sent, cookie, xs, rnd);
    BegunKeepsInv(d, n, n.(c := l), false, a, l, xs);
  }

  lemma {:induction false} ServerRequest(d: Deal, n: Net, l: Side, cookie: seq<u8>, xs: seq<nat>, rnd: nat)
    requires Honest(d) && Mirrored(d.cconf, d.sconf) && Inv(d, n) && n.s.phase.AwaitGroup? && Equipped(n.s)
    requires n.s.rcvd < |n.c.sent| && n.c.sent[n.s.rcvd] == GexRequest(AskOf(d))
    requires !l.phase.Spent? && l == Handle(d.w, n.s, n.c.sent[n.s.rcvd], cookie, xs, rnd)
    ensures Inv(d, n.(s := l))
  {
    RequestBecomes(d, n.s, l, n.c.sent, cookie, xs, rnd);
    RequestDone(d, n, l);
  }

  lemma {:induction false} RequestBecomes(d: Deal, k: Side, l: Side, heard: seq<Msg>, cookie: seq<u8>, xs: seq<nat>, rnd: nat)
    requires Honest(d) && Mirrored(d.cconf, d.sconf) && !l.phase.Spent? && InOrder(d, k) && InStep(d, k, heard)
    requires k.phase.AwaitGroup? && Equipped(k) && k.server && k.rcvd < |heard| && heard[k.rcvd] == GexRequest(AskOf(d))
    requires l == Handle(d.w, k, heard[k.rcvd], cookie, xs, rnd)
    ensures InOrder(d, l) && InStep(d, l, heard) && Grows(k, l) && NoReply(k, l)
    ensures l.exchanges == k.exchanges && l.sessionId == k.sessionId
  {
    HandlesRequest(d.w, k, heard[k.rcvd], cookie, xs, rnd);
    RequestLeads(d, k, l, heard, xs, rnd);
  }

  lemma {:induction false} ClientGroup(d: Deal, n: Net, l: Side, cookie: seq<u8>, xs: seq<nat>, rnd: nat)
    requires RoomEnough(d) && Mirrored(d.cconf, d.sconf) && Inv(d, n) && n.c.phase.AwaitGroup? && Equipped(n.c)
    requires n.c.rcvd < |n.s.sent| && n.s.sent[n.c.rcvd].GexGroup?
    requires !l.phase.Spent? && l == Handle(d.w, n.c, n.s.sent[n.c.rcvd], cookie, xs, rnd)
    ensures Inv(d, n.(c := l))
  {
    var m := n.s.sent[n.c.rcvd];
    HandlesGroup(d.w, n.c, m, cookie, xs, rnd);
    NextGroup(d, n);
    GroupKeepsInv(d, n, n.(c := l), xs);
  }

  lemma {:induction false} ServerValue(d: Deal, n: Net, l: Side, cookie: seq<u8>, xs: seq<nat>, rnd: nat)
    requires Honest(d) && Mirrored(d.cconf, d.sconf) && Inv(d, n) && n.s.phase.AwaitDh? && Equipped(n.s)
    requires n.s.rcvd < |n.c.sent| && n.c.sent[n.s.rcvd].DhInit? && n.c.sent[n.s.rcvd].gex == IsGex(n.s.conf.value.kex)
    requires l == Handle(d.w, n.s, n.c.sent[n.s.rcvd], cookie, xs, rnd)
    ensures Inv(d, n.(s := l))
  {
    var i := ServerBecomes(d, n, l, cookie, xs, rnd);
    ServerDone(d, n, l, i);
  }

  lemma {:induction false} ServerBecomes(d: Deal, n: Net, l: Side, cookie: seq<u8>, xs: seq<nat>, rnd: nat) returns (i: nat)
    requires Honest(d) && Mirrored(d.cconf, d.sconf) && Inv(d, n) && n.s.phase.AwaitDh? && Equipped(n.s)
    requires n.s.rcvd < |n.c.sent| && n.c.sent[n.s.rcvd].DhInit? && n.c.sent[n.s.rcvd].gex == IsGex(n.s.conf.value.kex)
    requires l == Handle(d.w, n.s, n.c.sent[n.s.rcvd], cookie, xs, rnd)
    ensures Waits(d, n.s, n.c.sent, i) && Ready(d, n, i) && Ready(d, n, 0) && Replied(d, n, l, i)
  {
    i := WaitCounts(d, n.s, n.c.sent);
    HandlesDhInit(d.w, n.s, n.c.sent[n.s.rcvd], cookie, xs, rnd);
    ServerHashes(d, n, l, i);
  }

  lemma {:induction false} ClientValue(d: Deal, n: Net, l: Side, cookie: seq<u8>, xs: seq<nat>, rnd: nat)
    requires Honest(d) && Mirrored(d.cconf, d.sconf) && Inv(d, n) && n.c.phase.AwaitDh? && Equipped(n.c)
    requires n.c.rcvd < |n.s.sent| && n.s.sent[n.c.rcvd].DhReply? && n.s.sent[n.c.rcvd].gex == IsGex(n.c.conf.value.kex)
    requires l == Handle(d.w, n.c, n.s.sent[n.c.rcvd], cookie, xs, rnd)
    ensures Inv(d, n.(c := l))
  {
    var i := ClientBecomes(d, n, l, cookie, xs, rnd);
    ClientDone(d, n, l, i);
  }

  lemma {:induction false} ClientBecomes(d: Deal, n: Net, l: Side, cookie: seq<u8>, xs: seq<nat>, rnd: nat) returns (i: nat)
    requires Honest(d) && Mirrored(d.cconf, d.sconf) && Inv(d, n) && n.c.phase.AwaitDh? && Equipped(n.c)
    requires n.c.rcvd < |n.s.sent| && n.s.sent[n.c.rcvd].DhReply? && n.s.sent[n.c.rcvd].gex == IsGex(n.c.conf.value.kex)
    requires l == Handle(d.w, n.c, n.s.sent[n.c.rcvd], cookie, xs, rnd)
    ensures Waits(d, n.c, n.s.sent, i) && Ready(d, n, i) && Ready(d, n, 0)
    ensures Hashes(d, n.c, l, FieldsOf(d, n, i)) && l.sent == n.c.sent + [NewKeys]
  {
    i := WaitCounts(d, n.c, n.s.sent);
    HandlesDhReply(d.w, n.c, n.s.sent[n.c.rcvd], cookie, xs, rnd);
    ClientVerifies(d, n, l, i);
  }

  lemma {:induction false} ServerNewKeys(d: Deal, n: Net, l: Side, cookie: seq<u8>, xs: seq<nat>, rnd: nat)
    requires Inv(d, n) && n.s.phase.AwaitNewKeys? && Equipped(n.s)
    requires n.s.rcvd < |n.c.sent| && n.c.sent[n.s.rcvd] == NewKeys
    requires l == Handle(d.w, n.s, n.c.sent[n.s.rcvd], cookie, xs, rnd)
    ensures Inv(d, n.(s := l))
  {
    var m := n.c.sent[n.s.rcvd];
    HandlesNewKeys(d.w, n.s, m, cookie, xs, rnd);
    FinishKeepsInv(d, n, n.(s := l), true);
  }

  lemma {:induction false} ClientNewKeys(d: Deal, n: Net, l: Side, cookie: seq<u8>, xs: seq<nat>, rnd: nat)
    requires Inv(d, n) && n.c.phase.AwaitNewKeys? && Equipped(n.c)
    requires n.c.rcvd < |n.s.sent| && n.s.sent[n.c.rcvd] == NewKeys
    requires l == Handle(d.w, n.c, n.s.sent[n.c.rcvd], cookie, xs, rnd)
    ensures Inv(d, n.(c := l))
  {
    var m := n.s.sent[n.c.rcvd];
    HandlesNewKeys(d.w, n.c, m, cookie, xs, rnd);
    FinishKeepsInv(d, n, n.(c := l), false);
  }

  lemma {:induction false} ServerReceives(d: Deal, n: Net, l: Side, cookie: seq<u8>, xs: seq<nat>, rnd: nat)
    requires Honest(d) && Settled(d) && Mirrored(d.cconf, d.sconf) && Inv(d, n) && |cookie| == KEX_COOKIE_LEN
    requires n.s.rcvd < |n.c.sent| && Equipped(n.s) && Expects(d, n.s, n.c.sent[n.s.rcvd])
    requires !l.phase.Spent? && l == Handle(d.w, n.s, n.c.sent[n.s.rcvd], cookie, xs, rnd)
    ensures Inv(d, n.(s := l))
  {
    match n.s.phase
    case Idle => ServerInit(d, n, l, cookie, xs, rnd);
    case AwaitGroup => ServerRequest(d, n, l, cookie, xs, rnd);
    case AwaitDh =>
      SameKex(d, true);
      ServerValue(d, n, l, cookie, xs, rnd);
    case AwaitNewKeys => ServerNewKeys(d, n, l, cookie, xs, rnd);
    case Dead => assert false;
    case Spent => assert false;
  }

  lemma {:induction false} ClientReceives(d: Deal, n: Net, l: Side, cookie: seq<u8>, xs: seq<nat>, rnd: nat)
    requires Honest(d) && Settled(d) && Mirrored(d.cconf, d.sconf) && Inv(d, n) && |cookie| == KEX_COOKIE_LEN
    requires n.c.rcvd < |n.s.sent| && Equipped(n.c) && Expects(d, n.c, n.s.sent[n.c.rcvd])
    requires !l.phase.Spent? && l == Handle(d.w, n.c, n.s.sent[n.c.rcvd], cookie, xs, rnd)
    ensures Inv(d, n.(c := l))
  {
    match n.c.phase
    case Idle => ClientInit(d, n, l, cookie, xs, rnd);
    case AwaitGroup => ClientGroup(d, n, l, cookie, xs, rnd);
    case AwaitDh =>
      SameKex(d, false);
      ClientValue(d, n, l, cookie, xs, rnd);
    case AwaitNewKeys => ClientNewKeys(d, n, l, cookie, xs, rnd);
    case Dead => assert false;
    case Spent => assert false;
  }

  lemma {:induction false} Halves(d: Deal, n: Net, server: bool)
    requires Inv(d, n)
    ensures var k, other := Mine(n, server), Mine(n, !server);
            InStep(d, k, other.sent) && InOrder(d, other) && other.server == !k.server && k.server == server
  {
  }

  lemma {:induction false} StepKeepsInv(d: Deal, n: Net, t: Net, e: Event)
    requires Honest(d) && Settled(d) && Inv(d, n) && CanHappen(n, e) && t == Happen(d.w, n, e) && Lucky(t)
    ensures Inv(d, t)
  {
    if e.Rekey? {
      RekeyKeepsInv(d, n, t, e.server, e.cookie);
    } else {
      SettledMirrors(d);
      Halves(d, n, e.server);
      NextMessage(d, Mine(n, e.server), Mine(n, !e.server));
      if e.server {
        ServerReceives(d, n, t.s, e.cookie, e.draws, e.rnd);
      } else {
        ClientReceives(d, n, t.c, e.cookie, e.draws, e.rnd);
      }
    }
  }

  lemma {:induction false} RunKeepsInv(d: Deal, n: Net, es: seq<Event>)
    requires Honest(d) && Settled(d) && Inv(d, n) && IsRun(d.w, n, es)
    ensures Inv(d, After(d.w, n, es))
    decreases |es|
  {
    if es != [] {
      var t := Happen(d.w, n, es[0]);
      StepKeepsInv(d, n, t, es[0]);
      RunKeepsInv(d, t, es[1..]);
    }
  }

  ghost predicate Reachable(w: World, n: Net) {
    exists es: seq<Event> :: IsRun(w, START, es) && After(w, START, es) == n
  }

  lemma {:induction false} ReachableInv(d: Deal, n: Net)
    requires Honest(d) && Settled(d) && Reachable(d.w, n)
    ensures Inv(d, n)
  {
    var es: seq<Event> :| IsRun(d.w, START, es) && After(d.w, START, es) == n;
    StartInv(d);
    RunKeepsInv(d, START, es);
  }

  /** However the two sides time their rekeying, neither ever meets a message it does not expect. */
  lemma {:induction false} NeverBreaksOff(d: Deal, n: Net, server: bool)
    requires Honest(d) && Settled(d) && Reachable(d.w, n)
    ensures !Mine(n, server).phase.Dead?
    ensures Mine(n, server).rcvd < |Mine(n, !server).sent| ==>
              Equipped(Mine(n, server)) && Expects(d, Mine(n, server), Mine(n, !server).sent[Mine(n, server).rcvd])
  {
    ReachableInv(d, n);
    Halves(d, n, server);
    if Mine(n, server).rcvd < |Mine(n, !server).sent| {
      NextMessage(d, Mine(n, server), Mine(n, !server));
    }
  }

  lemma {:induction false} RecordIs(d: Deal, n: Net, k: Side, j: nat)
    requires Recorded(d, n, k) && j < |k.exchanges|
    ensures Ready(d, n, j) && Ready(d, n, 0) && k.exchanges[j] == ExchangeOf(d, n, j, k.server)
  {
  }

  /** The two views of exchange j. */
  lemma {:induction false} ViewsAgree(d: Deal, n: Net, j: nat, c: Exchange, s: Exchange)
    requires Ready(d, n, j) && Ready(d, n, 0) && Mirrored(d.cconf, d.sconf)
    requires c == ExchangeOf(d, n, j, false) && s == ExchangeOf(d, n, j, true)
    ensures c.fields == s.fields && c.hash == s.hash == d.w.hash(d.cconf.kex, c.fields)
    ensures c.sessionId == s.sessionId == HashOf(d, n, 0)
    ensures SessionOf(d.w, c, false, true) == SessionOf(d.w, s, true, false)
    ensures SessionOf(d.w, c, false, false) == SessionOf(d.w, s, true, true)
  {
  }

  /** The keys of exchange j meet. */
  lemma {:induction false} SessionsMeet(d: Deal, n: Net, j: nat, c: Exchange, s: Exchange)
    requires Honest(d) && Settled(d) && Reachable(d.w, n) && j < |n.c.exchanges| && j < |n.s.exchanges|
    requires c == n.c.exchanges[j] && s == n.s.exchanges[j]
    ensures SessionOf(d.w, c, false, true) == SessionOf(d.w, s, true, false)
    ensures SessionOf(d.w, c, false, false) == SessionOf(d.w, s, true, true)
    ensures n.c.sessionId == n.s.sessionId && n.c.sessionId.Some?
  {
    ReachableInv(d, n);
    SettledMirrors(d);
    RecordIs(d, n, n.c, j);
    RecordIs(d, n, n.s, j);
    ViewsAgree(d, n, j, c, s);
  }

  /**
   In every run the j-th exchange has the same transcript, hash and keys on both sides; its
   KEXINIT payloads are the j-th ones sent; and the session id is the first hash for good.
   */
  lemma {:induction false} ExchangesAgree(d: Deal, n: Net, j: nat)
    requires Honest(d) && Settled(d) && Reachable(d.w, n)
    requires j < |n.c.exchanges| && j < |n.s.exchanges|
    ensures var c, s, b := n.c.exchanges[j], n.s.exchanges[j], Base(G(d), j);
            && c.fields == s.fields && c.hash == s.hash == d.w.hash(d.cconf.kex, c.fields)
            && c.sessionId == s.sessionId == n.c.exchanges[0].hash
            && n.c.sessionId == n.s.sessionId == Some(c.sessionId)
            && b < |n.c.sent| && n.c.sent[b] == KexInit(c.fields.clientInit)
            && b < |n.s.sent| && n.s.sent[b] == KexInit(c.fields.serverInit)
            && SessionOf(d.w, c, false, true) == SessionOf(d.w, s, true, false)
            && SessionOf(d.w, c, false, false) == SessionOf(d.w, s, true, true)
  {
    ReachableInv(d, n);
    SettledMirrors(d);
    RecordIs(d, n, n.c, j);
    RecordIs(d, n, n.s, j);
    RecordIs(d, n, n.c, 0);
    ViewsAgree(d, n, j, n.c.exchanges[j], n.s.exchanges[j]);
  }

  function Inits(q: seq<Msg>): (r: nat) {
    if q == [] then 0 else Inits(q[..|q| - 1]) + if q[|q| - 1].KexInit? then 1 else 0
  }

  /** The number of exchanges begun with m messages. */
  function Rounds(g: bool, m: nat): (r: nat) { if m == 0 then 0 else RoundOf(g, m - 1) + 1 }

  lemma {:induction false} FirstOfRound(d: Deal, k: Side, m: nat)
    requires InOrder(d, k) && m < |k.sent|
    ensures k.sent[m].KexInit? <==> SlotOf(G(d), m) == 0
    ensures Rounds(G(d), m + 1) == Rounds(G(d), m) + if SlotOf(G(d), m) == 0 then 1 else 0
  {
    Located(G(d), m);
    assert InPlace(d, k, m);
  }

  lemma {:induction false} CountInits(d: Deal, k: Side, m: nat)
    requires InOrder(d, k) && m <= |k.sent|
    ensures Inits(k.sent[..m]) == Rounds(G(d), m)
  {
    if m > 0 {
      CountInits(d, k, m - 1);
      FirstOfRound(d, k, m - 1);
      assert k.sent[..m][..m - 1] == k.sent[..m - 1];
    }
  }

  lemma {:induction false} RoundsOf(d: Deal, k: Side, heard: seq<Msg>)
    requires InStep(d, k, heard)
    ensures Rounds(G(d), |k.sent|) == |k.exchanges| + if k.initSent && !k.phase.AwaitNewKeys? then 1 else 0
    ensures k.peer == [] || exists i: nat :: i < |heard| && heard[i] == KexInit(k.peer)
  {
    Located(G(d), k.rcvd);
    if SentIn(G(d), k) > 0 {
      Place(G(d), RoundOf(G(d), k.rcvd), SentIn(G(d), k) - 1);
    } else if k.rcvd > 0 {
      Place(G(d), RoundOf(G(d), k.rcvd) - 1, Period(G(d)) - 1);
    }
  }

  /**
   Each exchange takes exactly one KEXINIT from each side, at most one more is on its way,
   and kex->peer never holds more than one payload.
   */
  lemma {:induction false} OneInitPerExchange(d: Deal, n: Net, server: bool)
    requires Honest(d) && Settled(d) && Reachable(d.w, n)
    ensures var k, other := Mine(n, server), Mine(n, !server);
            && Inits(k.sent) == |k.exchanges| + (if k.initSent && !k.phase.AwaitNewKeys? then 1 else 0)
            && (k.peer == [] || exists i: nat :: i < |other.sent| && other.sent[i] == KexInit(k.peer))
  {
    ReachableInv(d, n);
    Halves(d, n, server);
    Halves(d, n, !server);
    InitsOf(d, Mine(n, server), Mine(n, !server).sent);
  }

  lemma {:induction false} InitsOf(d: Deal, k: Side, heard: seq<Msg>)
    requires InStep(d, k, heard) && InOrder(d, k)
    ensures Inits(k.sent) == |k.exchanges| + if k.initSent && !k.phase.AwaitNewKeys? then 1 else 0
    ensures k.peer == [] || exists i: nat :: i < |heard| && heard[i] == KexInit(k.peer)
  {
    RoundsOf(d, k, heard);
    CountInits(d, k, |k.sent|);
    assert k.sent[..|k.sent|] == k.sent;
  }
}
