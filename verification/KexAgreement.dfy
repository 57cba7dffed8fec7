/** Two honest ends never break off a key exchange, and never disagree about one. */
module KexAgreement {
  import opened Bytes
  import opened Wire
  import opened MatchList
  import opened KexProposal
  import opened KexChoose
  import opened Transcript
  import opened KexRun
  import ChooseDh

  /** Both proposals have all ten lists. */
  predicate Ten(w: World) { |w.clientProp| == PROPOSAL_MAX && |w.serverProp| == PROPOSAL_MAX }

  /** Every line of the moduli file is as parse_prime checks it. */
  predicate Described(lines: seq<ChooseDh.Line>) {
    ChooseDh.Parsed(lines) && forall i: nat :: i < |lines| && lines[i].Group? ==> Bits(lines[i].p) == lines[i].size
  }

  /** What both programs offer: ten lists each, C strings of moderate length, from which kex_choose_conf chooses. */
  ghost predicate Offered(w: World) {
    && Ten(w) && Chooses(w)
    && (forall p :: p in w.clientProp ==> Sendable(p))
    && (forall p :: p in w.serverProp ==> Sendable(p))
  }

  /** A world together with what the two sides negotiate in it. */
  datatype Deal = Deal(w: World, cconf: Conf, sconf: Conf)

  function ConfOf(d: Deal, server: bool): (r: Conf) { if server then d.sconf else d.cconf }

  /** kex_choose_conf has this outcome on the two sides. */
  predicate Settled(d: Deal) {
    && Ten(d.w)
    && ChooseConf(d.w.build, d.w.bugHmac, false, d.w.clientProp, d.w.serverProp) == Some(d.cconf)
    && ChooseConf(d.w.build, d.w.bugHmac, true, d.w.serverProp, d.w.clientProp) == Some(d.sconf)
  }

  lemma {:induction false} SettledMirrors(d: Deal)
    requires Settled(d)
    ensures Mirrored(d.cconf, d.sconf)
  {
  }

  /** Whether the exchanges of this deal are group exchanges. */
  function G(d: Deal): (r: bool) { IsGex(d.cconf.kex) }

  /** The request of the client, the same in every exchange. */
  function AskOf(d: Deal): (r: Ask) { if G(d) then Want(d.w, d.cconf) else NoAsk }

  /** A group that exchanges of this deal can be over. */
  ghost predicate InUse(d: Deal, g: Grp) {
    if G(d) then exists rnd: nat :: GroupFor(d.w, BoundsOf(AskOf(d)), rnd) == Some(g) else g == d.w.fixed(d.cconf.kex)
  }

  /** An exponent that dh_gen_key may settle on. */
  ghost predicate Usable(d: Deal, p: Pair) {
    InUse(d, p.group) && d.w.valid(p.group, d.w.public(p.group, p.secret))
  }

  /** In the groups in use, the exponents of the two sides lead to the same secret. */
  ghost predicate Commutes(d: Deal) {
    forall g, x: nat, y: nat :: InUse(d, g) ==> d.w.shared(g, x, d.w.public(g, y)) == d.w.shared(g, y, d.w.public(g, x))
  }

  /** The groups in use are large enough for dh_gen_key. */
  ghost predicate RoomEnough(d: Deal) {
    forall g :: InUse(d, g) ==> !Small(d.cconf.weNeed, g)
  }

  /** What choose_dh and the client's range check need: moduli as parse_prime leaves them, and a group 14 of a size in range. */
  predicate Stocked(w: World) { Described(w.moduli) && InRange(w.fixed(Group14)) }

  /** What is assumed of the two ends and of the mathematics, for the host key they settle on. */
  ghost predicate Fair(d: Deal) {
    && Offered(d.w) && Stocked(d.w) && Commutes(d)
    && d.w.accepts(d.sconf.hostkey, d.w.hostKey(d.sconf.hostkey))
    && (forall h :: d.w.verify(d.w.hostKey(d.sconf.hostkey), d.w.sign(d.sconf.hostkey, h), h))
  }

  ghost predicate Honest(d: Deal) { Fair(d) && RoomEnough(d) }

  // ---- the messages of one exchange: three, or four with a group exchange ----

  function Period(g: bool): (r: nat) { if g then 4 else 3 }

  function Base(g: bool, i: nat): (r: nat) { if g then 4 * i else 3 * i }

  function RoundOf(g: bool, n: nat): (r: nat) { if g then n / 4 else n / 3 }

  function SlotOf(g: bool, n: nat): (r: nat) { if g then n % 4 else n % 3 }

  lemma {:induction false} Place(g: bool, i: nat, s: nat)
    requires s < Period(g)
    ensures RoundOf(g, Base(g, i) + s) == i && SlotOf(g, Base(g, i) + s) == s
  {
  }

  lemma {:induction false} Located(g: bool, n: nat)
    ensures n == Base(g, RoundOf(g, n)) + SlotOf(g, n) && SlotOf(g, n) < Period(g)
  {
  }

  ghost predicate IsOffer(w: World, server: bool, m: Msg) {
    m.KexInit? && exists cookie: seq<u8> :: |cookie| == KEX_COOKIE_LEN && m.payload == Payload(cookie, Prop(w, server))
  }

  /** What message j of a side has to be. */
  ghost predicate InPlace(d: Deal, k: Side, j: nat)
    requires j < |k.sent|
  {
    var g, r, s, m := G(d), RoundOf(G(d), j), SlotOf(G(d), j), k.sent[j];
    && (s == 0 ==> IsOffer(d.w, k.server, m))
    && (g && s == 1 ==>
          if k.server then r < |k.pairs| && m == GexGroup(k.pairs[r].group) && InRange(k.pairs[r].group)
          else m == GexRequest(AskOf(d)))
    && (s == Period(g) - 2 ==>
          r < |k.pairs| &&
          var pub := d.w.public(k.pairs[r].group, k.pairs[r].secret);
          if k.server then m.DhReply? && m.gex == g && m.pub == pub else m == DhInit(g, pub))
    && (s == Period(g) - 1 ==> m == NewKeys)
  }

  /** Every exchange sends its messages in this order, and nothing else is ever sent. */
  ghost predicate InOrder(d: Deal, k: Side) {
    && (forall j: nat :: j < |k.sent| ==> InPlace(d, k, j))
    && (forall j: nat :: j < |k.pairs| ==> Usable(d, k.pairs[j]))
  }

  /** How far into its exchange a side is. */
  function Stage(g: bool, p: Phase): (r: nat) {
    match p
    case Idle => 0
    case AwaitGroup => if g then 1 else 4
    case AwaitDh => Period(g) - 2
    case AwaitNewKeys => Period(g) - 1
    case Dead => 4
    case Spent => 4
  }

  /** How many messages a side has sent in the exchange it is in. */
  function SentIn(g: bool, k: Side): (r: nat) {
    match k.phase
    case Idle => if k.initSent then 1 else 0
    case AwaitGroup => if k.server then 1 else 2
    case AwaitDh => if k.server then Period(g) - 2 else Period(g) - 1
    case AwaitNewKeys => Period(g)
    case Dead => 0
    case Spent => 0
  }

  /** The numbers of `k`, whose peer has sent `heard` messages. */
  predicate Numbers(g: bool, k: Side, heard: nat) {
    var i := RoundOf(g, k.rcvd);
    && k.rcvd <= heard && SlotOf(g, k.rcvd) == Stage(g, k.phase) && !k.phase.Dead? && !k.phase.Spent?
    && |k.sent| == Base(g, i) + SentIn(g, k)
    && |k.pairs| == i + (if k.phase.AwaitDh? || k.phase.AwaitNewKeys? then 1 else 0)
    && |k.exchanges| == i + (if k.phase.AwaitNewKeys? then 1 else 0)
    && (!k.phase.Idle? ==> k.initSent)
  }

  /** Progress and buffers of `k`, whose peer has sent `heard`. */
  ghost predicate InStep(d: Deal, k: Side, heard: seq<Msg>) {
    var g := G(d);
    var b := Base(g, RoundOf(g, k.rcvd));
    && Numbers(g, k, |heard|)
    && (k.initSent ==> b < |k.sent| && k.sent[b] == KexInit(k.my))
    && (if k.phase.Idle? then k.peer == [] else b < |heard| && heard[b] == KexInit(k.peer))
    && (k.phase.AwaitGroup? || k.phase.AwaitDh? ==> k.conf == Some(ConfOf(d, k.server)))
    && (k.phase.AwaitDh? || (k.phase.AwaitGroup? && !k.server) ==> k.asked == AskOf(d))
    && (k.sessionId.None? <==> |k.exchanges| == 0)
  }

  // ---- what both sides should hold ----

  predicate Ready(d: Deal, n: Net, j: nat) {
    var b := Base(G(d), j);
    && b < |n.c.sent| && n.c.sent[b].KexInit? && j < |n.c.pairs|
    && b < |n.s.sent| && n.s.sent[b].KexInit? && j < |n.s.pairs|
  }

  /** The fields of exchange j, seen from outside. */
  function FieldsOf(d: Deal, n: Net, j: nat): (r: Fields)
    requires Ready(d, n, j)
  {
    var b, p, y := Base(G(d), j), n.c.pairs[j], n.s.pairs[j].secret;
    Fields(d.w.clientVersion, d.w.serverVersion, n.c.sent[b].payload, n.s.sent[b].payload,
           d.w.hostKey(d.sconf.hostkey), GexOf(AskOf(d), p.group),
           d.w.public(p.group, p.secret), d.w.public(p.group, y), d.w.shared(p.group, p.secret, d.w.public(p.group, y)))
  }

  function HashOf(d: Deal, n: Net, j: nat): (r: seq<u8>)
    requires Ready(d, n, j)
  {
    d.w.hash(d.cconf.kex, FieldsOf(d, n, j))
  }

  /** What either side should hold of exchange j. */
  function ExchangeOf(d: Deal, n: Net, j: nat, server: bool): (r: Exchange)
    requires Ready(d, n, j) && Ready(d, n, 0)
  {
    Exchange(FieldsOf(d, n, j), HashOf(d, n, j), HashOf(d, n, 0), ConfOf(d, server))
  }

  ghost predicate Recorded(d: Deal, n: Net, k: Side) {
    && (forall j: nat :: j < |k.exchanges| ==>
          Ready(d, n, j) && Ready(d, n, 0) && k.exchanges[j] == ExchangeOf(d, n, j, k.server))
    && (k.sessionId.Some? ==> Ready(d, n, 0) && k.sessionId.value == HashOf(d, n, 0))
  }

  /** The reply of exchange j is signed over the hash that both sides should have. */
  ghost predicate SignedAt(d: Deal, n: Net, j: nat) {
    var b := Base(G(d), j) + Period(G(d)) - 2;
    b < |n.s.sent| && n.s.sent[b].DhReply? ==>
      Ready(d, n, j) && n.s.sent[b] ==
        DhReply(G(d), d.w.hostKey(d.sconf.hostkey), d.w.public(n.s.pairs[j].group, n.s.pairs[j].secret), d.w.sign(d.sconf.hostkey, HashOf(d, n, j)))
  }

  ghost predicate Signed(d: Deal, n: Net) { forall j: nat :: SignedAt(d, n, j) }

  /** Both sides use the same group in every exchange. */
  predicate SameGroups(n: Net) {
    forall j: nat :: j < |n.c.pairs| && j < |n.s.pairs| ==> n.c.pairs[j].group == n.s.pairs[j].group
  }

  ghost predicate Inv(d: Deal, n: Net) {
    && !n.c.server && n.s.server
    && InOrder(d, n.c) && InOrder(d, n.s)
    && InStep(d, n.c, n.s.sent) && InStep(d, n.s, n.c.sent)
    && SameGroups(n)
    && Recorded(d, n, n.c) && Recorded(d, n, n.s)
    && Signed(d, n)
  }

  lemma {:induction false} FreshInStep(d: Deal, server: bool)
    ensures InOrder(d, Fresh(server)) && InStep(d, Fresh(server), [])
  {
  }

  lemma {:induction false} NothingHeld(d: Deal, n: Net)
    requires n.c.exchanges == [] && n.s.exchanges == [] && n.c.sessionId.None? && n.s.sessionId.None?
    requires n.s.sent == [] && n.c.pairs == []
    ensures SameGroups(n) && Recorded(d, n, n.c) && Recorded(d, n, n.s) && Signed(d, n)
  {
  }

  lemma {:induction false} StartsInv(d: Deal, n: Net)
    requires n.c == Fresh(false) && n.s == Fresh(true)
    ensures Inv(d, n)
  {
    FreshInStep(d, false);
    FreshInStep(d, true);
    NothingHeld(d, n);
  }

  lemma {:induction false} StartInv(d: Deal)
    ensures Inv(d, START)
  {
    StartsInv(d, START);
  }

  /** The outcome of the negotiation does not depend on the cookies. */
  lemma {:induction false} OffersNegotiate(d: Deal, server: bool, mine: Msg, theirs: Msg)
    requires Offered(d.w) && Settled(d) && IsOffer(d.w, server, mine) && IsOffer(d.w, !server, theirs)
    ensures d.w.choose(server, mine.payload, theirs.payload) == Some(ConfOf(d, server))
  {
    var a: seq<u8> :| |a| == KEX_COOKIE_LEN && mine.payload == Payload(a, Prop(d.w, server));
    var b: seq<u8> :| |b| == KEX_COOKIE_LEN && theirs.payload == Payload(b, Prop(d.w, !server));
    PayloadRoundTrip(a, Prop(d.w, server));
    PayloadRoundTrip(b, Prop(d.w, !server));
    assert Negotiate(d.w.build, d.w.bugHmac, server, mine.payload, theirs.payload) == Some(ConfOf(d, server));
  }

  // ---- growing histories ----

  predicate Grows(k: Side, l: Side) {
    k.server == l.server && k.sent <= l.sent && k.pairs <= l.pairs
  }

  lemma {:induction false} FieldsStable(d: Deal, n: Net, t: Net, j: nat)
    requires Grows(n.c, t.c) && Grows(n.s, t.s) && Ready(d, n, j)
    ensures Ready(d, t, j) && FieldsOf(d, t, j) == FieldsOf(d, n, j)
  {
  }

  lemma {:induction false} RecordedStable(d: Deal, n: Net, t: Net, k: Side)
    requires Grows(n.c, t.c) && Grows(n.s, t.s) && Recorded(d, n, k)
    ensures Recorded(d, t, k)
  {
    forall j: nat | j < |k.exchanges|
      ensures Ready(d, t, j) && Ready(d, t, 0) && k.exchanges[j] == ExchangeOf(d, t, j, k.server)
    {
      FieldsStable(d, n, t, j);
      FieldsStable(d, n, t, 0);
    }
    if k.sessionId.Some? {
      FieldsStable(d, n, t, 0);
    }
  }

  /** A message that stays where it is stays right. */
  lemma {:induction false} InPlaceStable(d: Deal, k: Side, l: Side, j: nat)
    requires Grows(k, l) && j < |k.sent| && InPlace(d, k, j)
    ensures InPlace(d, l, j)
  {
    assert l.sent[j] == k.sent[j];
  }

  lemma {:induction false} SignedStable(d: Deal, n: Net, t: Net, j: nat)
    requires Grows(n.c, t.c) && Grows(n.s, t.s) && SignedAt(d, n, j)
    requires Base(G(d), j) + Period(G(d)) - 2 < |n.s.sent| || |t.s.sent| <= Base(G(d), j) + Period(G(d)) - 2
    ensures SignedAt(d, t, j)
  {
    var b := Base(G(d), j) + Period(G(d)) - 2;
    if b < |n.s.sent| && n.s.sent[b].DhReply? {
      FieldsStable(d, n, t, j);
    }
  }

  lemma {:induction false} HeardMore(d: Deal, k: Side, heard: seq<Msg>, more: seq<Msg>)
    requires InStep(d, k, heard) && heard <= more
    ensures InStep(d, k, more)
  {
  }

  /** The invariant after side `l` replaced one that grew into it, the other side being as it was. */
  lemma {:induction false} Reassemble(d: Deal, n: Net, t: Net, l: Side, server: bool)
    requires Inv(d, n) && l.server == server && t == With(n, l, server) && Grows(Mine(n, server), l)
    requires InOrder(d, l) && InStep(d, l, Mine(n, !server).sent) && Recorded(d, t, l) && Signed(d, t) && SameGroups(t)
    ensures Inv(d, t)
  {
    HeardMore(d, Mine(n, !server), Mine(n, server).sent, l.sent);
    RecordedStable(d, n, t, Mine(n, !server));
  }

  /** The server sends no reply before it has a hash. */
  predicate NoReply(k: Side, l: Side) {
    k.sent <= l.sent && forall j: nat :: |k.sent| <= j < |l.sent| ==> !l.sent[j].DhReply?
  }

  lemma {:induction false} NoReplySigned(d: Deal, n: Net, t: Net)
    requires Grows(n.c, t.c) && Grows(n.s, t.s) && Signed(d, n) && NoReply(n.s, t.s)
    ensures Signed(d, t)
  {
    forall j: nat
      ensures SignedAt(d, t, j)
    {
      assert SignedAt(d, n, j);
      var b := Base(G(d), j) + Period(G(d)) - 2;
      if b < |n.s.sent| || |t.s.sent| <= b {
        SignedStable(d, n, t, j);
      }
    }
  }

  /** A side that only sent or received something, without a new hash. */
  lemma {:induction false} NoNewHash(d: Deal, n: Net, t: Net, l: Side, server: bool)
    requires Inv(d, n) && l.server == server && t == With(n, l, server) && Grows(Mine(n, server), l)
    requires InOrder(d, l) && InStep(d, l, Mine(n, !server).sent) && SameGroups(t)
    requires l.exchanges == Mine(n, server).exchanges && l.sessionId == Mine(n, server).sessionId
    requires server ==> NoReply(n.s, l)
    ensures Inv(d, t)
  {
    RecordedStable(d, n, t, Mine(n, server));
    assert Recorded(d, t, l);
    NoReplySigned(d, n, t);
    Reassemble(d, n, t, l, server);
  }

  /** Order is kept if everything new is in its place. */
  lemma {:induction false} OrderGrows(d: Deal, k: Side, l: Side)
    requires InOrder(d, k) && Grows(k, l)
    requires forall j: nat :: |k.sent| <= j < |l.sent| ==> InPlace(d, l, j)
    requires forall j: nat :: |k.pairs| <= j < |l.pairs| ==> Usable(d, l.pairs[j])
    ensures InOrder(d, l)
  {
    forall j: nat | j < |l.sent|
      ensures InPlace(d, l, j)
    {
      if j < |k.sent| {
        InPlaceStable(d, k, l, j);
      }
    }
    forall j: nat | j < |l.pairs|
      ensures Usable(d, l.pairs[j])
    {
      if j < |k.pairs| {
        assert l.pairs[j] == k.pairs[j];
      }
    }
  }

  // ---- offers ----

  /** What sending an offer leaves alone. */
  predicate OnlySent(k: Side, a: Side) {
    && a.server == k.server && a.exchanges == k.exchanges && a.sessionId == k.sessionId && a.pairs == k.pairs
    && a.phase == k.phase && a.rcvd == k.rcvd && a.peer == k.peer && Grows(k, a) && NoReply(k, a)
  }

  lemma {:induction false} SendShape(w: World, k: Side, cookie: seq<u8>, a: Side)
    requires a == SendKexinit(w, k, cookie)
    ensures OnlySent(k, a) && a.initSent
    ensures a == k || (!k.initSent && a.sent == k.sent + [KexInit(a.my)] && a.my == Payload(cookie, Prop(w, k.server)))
  {
  }

  lemma {:induction false} OfferInPlace(d: Deal, k: Side, a: Side, cookie: seq<u8>, i: nat)
    requires |cookie| == KEX_COOKIE_LEN && OnlySent(k, a) && |k.sent| == Base(G(d), i)
    requires a.sent == k.sent + [KexInit(a.my)] && a.my == Payload(cookie, Prop(d.w, k.server))
    ensures InPlace(d, a, |k.sent|)
  {
    Place(G(d), i, 0);
    assert IsOffer(d.w, a.server, a.sent[|k.sent|]);
  }

  lemma {:induction false} SendKeeps(d: Deal, k: Side, a: Side, heard: seq<Msg>, cookie: seq<u8>)
    requires InOrder(d, k) && InStep(d, k, heard) && k.phase.Idle? && a == SendKexinit(d.w, k, cookie)
    requires |cookie| == KEX_COOKIE_LEN
    ensures InOrder(d, a) && InStep(d, a, heard)
  {
    SendShape(d.w, k, cookie, a);
    if a != k {
      OfferInPlace(d, k, a, cookie, RoundOf(G(d), k.rcvd));
      OrderGrows(d, k, a);
    }
  }

  lemma {:induction false} SameGroupsKept(n: Net, t: Net, a: Side, server: bool)
    requires SameGroups(n) && t == With(n, a, server) && a.pairs == Mine(n, server).pairs
    ensures SameGroups(t)
  {
  }

  lemma {:induction false} RekeyKeepsInv(d: Deal, n: Net, t: Net, server: bool, cookie: seq<u8>)
    requires Inv(d, n) && |cookie| == KEX_COOKIE_LEN && Mine(n, server).phase.Idle?
    requires t == With(n, SendKexinit(d.w, Mine(n, server), cookie), server)
    ensures Inv(d, t)
  {
    var k, heard := Mine(n, server), Mine(n, !server).sent;
    var a := SendKexinit(d.w, k, cookie);
    SendShape(d.w, k, cookie, a);
    SendKeeps(d, k, a, heard, cookie);
    SameGroupsKept(n, t, a, server);
    NoNewHash(d, n, t, a, server);
  }

  // ---- the start of an exchange ----

  /** `l` is `k` once it knows its group. */
  predicate Engaged(d: Deal, k: Side, l: Side, p: Pair) {
    && l.server == k.server && l.phase.AwaitDh? && l.initSent == k.initSent && l.my == k.my && l.peer == k.peer
    && l.conf == Some(ConfOf(d, k.server)) && l.asked == AskOf(d) && l.sessionId == k.sessionId
    && l.exchanges == k.exchanges && l.pairs == k.pairs + [p] && l.rcvd == k.rcvd + 1
  }

  /** What the client sends when it knows its group. */
  function Value(d: Deal, p: Pair): (r: Msg) { DhInit(G(d), d.w.public(p.group, p.secret)) }

  lemma {:induction false} ValueInPlace(d: Deal, l: Side, i: nat)
    requires !l.server && |l.pairs| == i + 1 && |l.sent| == Base(G(d), i) + Period(G(d)) - 1
    requires l.sent[|l.sent| - 1] == Value(d, l.pairs[i])
    ensures InPlace(d, l, |l.sent| - 1)
  {
    Place(G(d), i, Period(G(d)) - 2);
  }

  /** Where dh_gen_key comes to an end, the side has an exponent whose value is valid. */
  lemma {:induction false} Takes(d: Deal, k: Side, gex: bool, g: Grp, xs: seq<nat>, l: Side) returns (p: Pair)
    requires RoomEnough(d) && Mirrored(d.cconf, d.sconf) && InUse(d, g) && k.conf == Some(ConfOf(d, k.server))
    requires l == TakeGroup(d.w, k, gex, g, xs) && !l.phase.Spent?
    ensures p.group == g && Usable(d, p) && l == Engage(d.w, k, gex, p)
  {
    p := Pair(g, GenKey(d.w, d.cconf.weNeed, g, xs).secret);
  }

  lemma {:induction false} PlainTakes(d: Deal, b: Side, l: Side, xs: seq<nat>) returns (p: Pair)
    requires RoomEnough(d) && Mirrored(d.cconf, d.sconf) && !G(d) && !IsGex(ConfOf(d, b.server).kex)
    requires l == Begin(d.w, b, Some(ConfOf(d, b.server)), xs) && !l.phase.Spent?
    ensures Usable(d, p) && l == Engage(d.w, b.(conf := Some(ConfOf(d, b.server)), asked := NoAsk), false, p)
  {
    p := Takes(d, b.(conf := Some(ConfOf(d, b.server)), asked := NoAsk), false, d.w.fixed(d.cconf.kex), xs, l);
  }

  /** A plain exchange: the group is known at once. */
  lemma {:induction false} PlainBegins(d: Deal, a: Side, l: Side, heard: seq<Msg>, xs: seq<nat>)
    requires !G(d) && !IsGex(ConfOf(d, a.server).kex) && RoomEnough(d) && Mirrored(d.cconf, d.sconf) && !l.phase.Spent?
    requires InOrder(d, a) && InStep(d, a, heard) && a.phase.Idle? && a.initSent
    requires a.rcvd < |heard| && heard[a.rcvd].KexInit?
    requires l == Begin(d.w, a.(rcvd := a.rcvd + 1, peer := heard[a.rcvd].payload), Some(ConfOf(d, a.server)), xs)
    ensures InOrder(d, l) && InStep(d, l, heard) && Grows(a, l) && NoReply(a, l)
    ensures l.exchanges == a.exchanges && l.sessionId == a.sessionId
  {
    var i := RoundOf(false, a.rcvd);
    Located(false, a.rcvd);
    Place(false, i, 1);
    var p := PlainTakes(d, a.(rcvd := a.rcvd + 1, peer := heard[a.rcvd].payload), l, xs);
    if !l.server {
      assert l.sent[|l.sent| - 1] == Value(d, l.pairs[i]);
      ValueInPlace(d, l, i);
    }
    OrderGrows(d, a, l);
  }

  lemma {:induction false} RequestInPlace(d: Deal, l: Side, i: nat)
    requires G(d) && !l.server && |l.sent| == Base(true, i) + 2 && l.sent[|l.sent| - 1] == GexRequest(AskOf(d))
    ensures InPlace(d, l, |l.sent| - 1)
  {
    Place(true, i, 1);
  }

  /** A group exchange: the client asks for a group first. */
  lemma {:induction false} GexBegins(d: Deal, a: Side, l: Side, heard: seq<Msg>, xs: seq<nat>)
    requires G(d) && IsGex(ConfOf(d, a.server).kex)
    requires InOrder(d, a) && InStep(d, a, heard) && a.phase.Idle? && a.initSent
    requires a.rcvd < |heard| && heard[a.rcvd].KexInit?
    requires l == Begin(d.w, a.(rcvd := a.rcvd + 1, peer := heard[a.rcvd].payload), Some(ConfOf(d, a.server)), xs)
    ensures InOrder(d, l) && InStep(d, l, heard) && Grows(a, l) && NoReply(a, l)
    ensures l.exchanges == a.exchanges && l.sessionId == a.sessionId && l.pairs == a.pairs
  {
    var i := RoundOf(true, a.rcvd);
    Located(true, a.rcvd);
    Place(true, i, 1);
    if !l.server {
      RequestInPlace(d, l, i);
    }
    OrderGrows(d, a, l);
  }

  lemma {:induction false} SendCommutes(w: World, k: Side, payload: seq<u8>, cookie: seq<u8>)
    requires k.peer == []
    ensures var r := k.(rcvd := k.rcvd + 1);
            SendKexinit(w, r.(peer := r.peer + payload), cookie) ==
              SendKexinit(w, k, cookie).(rcvd := k.rcvd + 1, peer := payload)
  {
    assert k.peer + payload == payload;
  }

  /** The offer a side has out while it waits for one. */
  lemma {:induction false} OwnOffer(d: Deal, a: Side, heard: seq<Msg>)
    requires InOrder(d, a) && InStep(d, a, heard) && a.initSent
    ensures IsOffer(d.w, a.server, KexInit(a.my))
  {
    var b := Base(G(d), RoundOf(G(d), a.rcvd));
    Place(G(d), RoundOf(G(d), a.rcvd), 0);
    assert InPlace(d, a, b);
  }

  /** kex_choose_conf on the payloads of this exchange. */
  lemma {:induction false} OfferChosen(d: Deal, a: Side, heard: seq<Msg>, m: Msg)
    requires Offered(d.w) && Settled(d) && InOrder(d, a) && InStep(d, a, heard) && a.initSent && IsOffer(d.w, !a.server, m)
    ensures d.w.choose(a.server, a.my, m.payload) == Some(ConfOf(d, a.server))
  {
    OwnOffer(d, a, heard);
    OffersNegotiate(d, a.server, KexInit(a.my), m);
  }

  lemma {:induction false} OfferSent(d: Deal, k: Side, a: Side, heard: seq<Msg>, cookie: seq<u8>)
    requires |cookie| == KEX_COOKIE_LEN && a == SendKexinit(d.w, k, cookie)
    requires InOrder(d, k) && InStep(d, k, heard) && k.phase.Idle?
    ensures InOrder(d, a) && InStep(d, a, heard) && a.initSent && OnlySent(k, a) && k.peer == []
  {
    SendShape(d.w, k, cookie, a);
    SendKeeps(d, k, a, heard, cookie);
  }

  /** The side that a KEXINIT leaves kex_choose_conf with, and what that chooses. */
  lemma {:induction false} InitLeads(d: Deal, k: Side, a: Side, heard: seq<Msg>, cookie: seq<u8>) returns (b: Side)
    requires Offered(d.w) && Settled(d) && |cookie| == KEX_COOKIE_LEN
    requires InOrder(d, k) && InStep(d, k, heard) && k.phase.Idle? && a == SendKexinit(d.w, k, cookie)
    requires k.rcvd < |heard| && IsOffer(d.w, !k.server, heard[k.rcvd])
    ensures b == a.(rcvd := a.rcvd + 1, peer := heard[a.rcvd].payload)
    ensures b == SendKexinit(d.w, k.(rcvd := k.rcvd + 1, peer := k.peer + heard[k.rcvd].payload), cookie)
    ensures d.w.choose(b.server, b.my, b.peer) == Some(ConfOf(d, a.server))
    ensures InOrder(d, a) && InStep(d, a, heard) && a.initSent && OnlySent(k, a)
  {
    OfferSent(d, k, a, heard, cookie);
    OfferChosen(d, a, heard, heard[k.rcvd]);
    SendCommutes(d.w, k, heard[k.rcvd].payload, cookie);
    b := a.(rcvd := a.rcvd + 1, peer := heard[a.rcvd].payload);
  }

  lemma {:induction false} FixedGroups(d: Deal, n: Net)
    requires !G(d) && InOrder(d, n.c) && InOrder(d, n.s)
    ensures SameGroups(n)
  {
  }

  lemma {:induction false} GrowsOn(k: Side, a: Side, l: Side)
    requires OnlySent(k, a) && Grows(a, l) && NoReply(a, l)
    ensures Grows(k, l) && NoReply(k, l)
  {
    forall j: nat | |k.sent| <= j < |l.sent|
      ensures !l.sent[j].DhReply?
    {
      if j < |a.sent| {
        assert l.sent[j] == a.sent[j];
      }
    }
  }

  lemma {:induction false} SameKex(d: Deal, server: bool)
    requires Mirrored(d.cconf, d.sconf)
    ensures ConfOf(d, server).kex == d.cconf.kex
  {
  }

  /** The invariant after the start of an exchange. */
  lemma {:induction false} BegunKeepsInv(d: Deal, n: Net, t: Net, server: bool, a: Side, l: Side, xs: seq<nat>)
    requires var k, heard := Mine(n, server), Mine(n, !server).sent;
             && Inv(d, n) && Mirrored(d.cconf, d.sconf) && (G(d) || RoomEnough(d)) && !l.phase.Spent? && OnlySent(k, a) && k.phase.Idle?
             && InOrder(d, a) && InStep(d, a, heard) && a.initSent
             && a.rcvd < |heard| && heard[a.rcvd].KexInit? && t == With(n, l, server)
             && l == Begin(d.w, a.(rcvd := a.rcvd + 1, peer := heard[a.rcvd].payload), Some(ConfOf(d, a.server)), xs)
    ensures Inv(d, t)
  {
    var k, heard := Mine(n, server), Mine(n, !server).sent;
    SameKex(d, server);
    if G(d) {
      GexBegins(d, a, l, heard, xs);
      SameGroupsKept(n, t, l, server);
    } else {
      PlainBegins(d, a, l, heard, xs);
      FixedGroups(d, t);
    }
    GrowsOn(k, a, l);
    NoNewHash(d, n, t, l, server);
  }

  // ---- agreeing on a group ----

  /** The server has a group for the client's request, and one the client takes. */
  lemma {:induction false} GroupIsFine(d: Deal, rnd: nat)
    requires Stocked(d.w) && G(d)
    ensures var ask := AskOf(d);
            var b := BoundsOf(ask);
            && !ask.NoAsk? && Clamped(ask) == ask && b.min <= b.want <= b.max
            && GroupFor(d.w, b, rnd).Some? && InRange(GroupFor(d.w, b, rnd).value)
  {
    var b := BoundsOf(AskOf(d));
    ChooseDh.SelectionInBounds(b, d.w.moduli, rnd);
    var c := ChooseDh.Selection(b, d.w.moduli, rnd);
    if c.Chosen? {
      SelectionOnList(b, d.w.moduli, rnd);
    }
  }

  lemma {:induction false} NthOnList(b: ChooseDh.Bounds, lines: seq<ChooseDh.Line>, size: int, which: nat)
    ensures var r := ChooseDh.Nth(b, lines, size, which); r.Chosen? ==> exists i: nat :: i < |lines| && lines[i] == r.group
  {
    if lines != [] {
      var n := |lines| - 1;
      NthOnList(b, lines[..n], size, which);
      var r := ChooseDh.Nth(b, lines[..n], size, which);
      if r.Chosen? {
        var i: nat :| i < n && lines[..n][i] == r.group;
        assert lines[i] == r.group;
      }
    }
  }

  lemma {:induction false} SelectionOnList(b: ChooseDh.Bounds, lines: seq<ChooseDh.Line>, rnd: nat)
    requires Described(lines) && ChooseDh.Selection(b, lines, rnd).Chosen?
    ensures var l := ChooseDh.Selection(b, lines, rnd).group; l.Group? ==> Bits(l.p) == l.size
  {
    var t := ChooseDh.Scan(b, lines);
    NthOnList(b, lines, t.best, rnd % t.count);
  }

  lemma {:induction false} GroupInPlace(d: Deal, l: Side, i: nat)
    requires G(d) && l.server && |l.sent| == Base(true, i) + 2 && |l.pairs| == i + 1
    requires l.sent[|l.sent| - 1] == GexGroup(l.pairs[i].group) && InRange(l.pairs[i].group)
    ensures InPlace(d, l, |l.sent| - 1)
  {
    Place(true, i, 1);
  }

  /** A side that waits for its group, in exchange i. */
  lemma {:induction false} GroupWait(d: Deal, k: Side, heard: seq<Msg>) returns (i: nat)
    requires InStep(d, k, heard) && k.phase.AwaitGroup?
    ensures G(d) && i == RoundOf(true, k.rcvd) && k.rcvd == Base(true, i) + 1
    ensures |k.sent| == Base(true, i) + (if k.server then 1 else 2) && |k.pairs| == i && |k.exchanges| == i
  {
    i := RoundOf(G(d), k.rcvd);
    Located(G(d), k.rcvd);
  }

  lemma {:induction false} EngagedInStep(d: Deal, k: Side, l: Side, heard: seq<Msg>, i: nat, p: Pair)
    requires G(d) && InStep(d, k, heard) && k.phase.AwaitGroup? && k.rcvd == Base(true, i) + 1 && k.rcvd < |heard|
    requires |k.pairs| == i && |k.exchanges| == i && Engaged(d, k, l, p)
    requires k.sent <= l.sent && |l.sent| == Base(true, i) + if k.server then 2 else 3
    ensures InStep(d, l, heard)
  {
    Place(true, i, 1);
    Place(true, i, 2);
    assert k.initSent;
  }

  /** The server answers the request. */
  lemma {:induction false} RequestTakes(d: Deal, k: Side, l: Side, xs: seq<nat>, rnd: nat) returns (p: Pair)
    requires Stocked(d.w) && RoomEnough(d) && Mirrored(d.cconf, d.sconf) && G(d) && k.conf == Some(ConfOf(d, k.server))
    requires l == InputRequest(d.w, k, AskOf(d), xs, rnd) && !l.phase.Spent?
    ensures Usable(d, p) && InRange(p.group)
    ensures l == Engage(d.w, k.(asked := AskOf(d), sent := k.sent + [GexGroup(p.group)]), true, p)
  {
    GroupIsFine(d, rnd);
    var g := GroupFor(d.w, BoundsOf(AskOf(d)), rnd).value;
    p := Takes(d, k.(asked := AskOf(d), sent := k.sent + [GexGroup(g)]), true, g, xs, l);
  }

  lemma {:induction false} RequestLeads(d: Deal, k: Side, l: Side, heard: seq<Msg>, xs: seq<nat>, rnd: nat)
    requires Honest(d) && Mirrored(d.cconf, d.sconf) && !l.phase.Spent?
    requires InOrder(d, k) && InStep(d, k, heard) && k.phase.AwaitGroup? && k.server && k.rcvd < |heard| && k.conf.Some?
    requires l == InputRequest(d.w, k.(rcvd := k.rcvd + 1), AskOf(d), xs, rnd)
    ensures InOrder(d, l) && InStep(d, l, heard) && Grows(k, l) && NoReply(k, l)
    ensures l.exchanges == k.exchanges && l.sessionId == k.sessionId && |l.pairs| == |k.pairs| + 1
  {
    var i := GroupWait(d, k, heard);
    var p := RequestTakes(d, k.(rcvd := k.rcvd + 1), l, xs, rnd);
    assert l.sent == k.sent + [GexGroup(p.group)] && l.pairs == k.pairs + [p];
    assert Engaged(d, k, l, p);
    GroupInPlace(d, l, i);
    OrderGrows(d, k, l);
    EngagedInStep(d, k, l, heard, i, p);
  }

  /** The client takes the group. */
  lemma {:induction false} GroupLeads(d: Deal, k: Side, l: Side, heard: seq<Msg>, g: Grp, xs: seq<nat>) returns (p: Pair)
    requires RoomEnough(d) && Mirrored(d.cconf, d.sconf) && !l.phase.Spent? && InUse(d, g) && k.conf.Some?
    requires InOrder(d, k) && InStep(d, k, heard) && k.phase.AwaitGroup? && !k.server && k.rcvd < |heard| && InRange(g)
    requires l == InputGroup(d.w, k.(rcvd := k.rcvd + 1), g, xs)
    ensures InOrder(d, l) && InStep(d, l, heard) && Grows(k, l) && l.pairs == k.pairs + [p] && p.group == g
    ensures l.exchanges == k.exchanges && l.sessionId == k.sessionId
  {
    var i := GroupWait(d, k, heard);
    p := Takes(d, k.(rcvd := k.rcvd + 1), true, g, xs, l);
    assert l.sent == k.sent + [Value(d, p)];
    assert Engaged(d, k, l, p);
    ValueInPlace(d, l, i);
    OrderGrows(d, k, l);
    EngagedInStep(d, k, l, heard, i, p);
  }

  /** The client is not ahead of a server that still waits for its request. */
  lemma {:induction false} ClientNotAhead(d: Deal, n: Net)
    requires Inv(d, n) && n.s.phase.AwaitGroup?
    ensures |n.c.pairs| <= |n.s.pairs|
  {
    var i := GroupWait(d, n.s, n.c.sent);
    Located(true, n.c.rcvd);
  }

  lemma {:induction false} SameGroupsAhead(n: Net, t: Net)
    requires SameGroups(n) && t.c == n.c && n.s.pairs <= t.s.pairs && |n.c.pairs| <= |n.s.pairs|
    ensures SameGroups(t)
  {
    forall j: nat | j < |t.c.pairs| && j < |t.s.pairs|
      ensures t.c.pairs[j].group == t.s.pairs[j].group
    {
      assert t.s.pairs[j] == n.s.pairs[j];
    }
  }

  lemma {:induction false} RequestDone(d: Deal, n: Net, l: Side)
    requires Inv(d, n) && n.s.phase.AwaitGroup? && InOrder(d, l) && InStep(d, l, n.c.sent) && Grows(n.s, l) && NoReply(n.s, l)
    requires l.exchanges == n.s.exchanges && l.sessionId == n.s.sessionId
    ensures Inv(d, n.(s := l))
  {
    ClientNotAhead(d, n);
    SameGroupsAhead(n, n.(s := l));
    NoNewHash(d, n, n.(s := l), l, true);
  }

  lemma {:induction false} SameGroupsMore(n: Net, t: Net, p: Pair)
    requires SameGroups(n) && t.s == n.s && |n.c.pairs| < |n.s.pairs|
    requires t.c.pairs == n.c.pairs + [p] && p.group == n.s.pairs[|n.c.pairs|].group
    ensures SameGroups(t)
  {
  }

  lemma {:induction false} GroupKeepsInv(d: Deal, n: Net, t: Net, xs: seq<nat>)
    requires RoomEnough(d) && Mirrored(d.cconf, d.sconf) && !t.c.phase.Spent? && n.c.conf.Some?
    requires Inv(d, n) && n.c.phase.AwaitGroup? && n.c.rcvd < |n.s.sent|
    requires |n.c.pairs| < |n.s.pairs| && InRange(n.s.pairs[|n.c.pairs|].group)
    requires t == With(n, InputGroup(d.w, n.c.(rcvd := n.c.rcvd + 1), n.s.pairs[|n.c.pairs|].group, xs), false)
    ensures Inv(d, t)
  {
    assert Usable(d, n.s.pairs[|n.c.pairs|]);
    var p := GroupLeads(d, n.c, t.c, n.s.sent, n.s.pairs[|n.c.pairs|].group, xs);
    SameGroupsMore(n, t, p);
    NoNewHash(d, n, t, t.c, false);
  }

  // ---- the steps that compute a hash ----

  /** A side that waits for the peer's DH value of exchange i. */
  predicate Waits(d: Deal, k: Side, heard: seq<Msg>, i: nat) {
    k.phase.AwaitDh? && k.rcvd == Base(G(d), i) + Period(G(d)) - 2 && k.rcvd < |heard|
  }

  lemma {:induction false} WaitCounts(d: Deal, k: Side, heard: seq<Msg>) returns (i: nat)
    requires InStep(d, k, heard) && k.phase.AwaitDh? && k.rcvd < |heard|
    ensures Waits(d, k, heard, i) && i == RoundOf(G(d), k.rcvd) && k.initSent
    ensures Base(G(d), i) < |heard| && heard[Base(G(d), i)] == KexInit(k.peer)
    ensures |k.sent| == Base(G(d), i) + Period(G(d)) - (if k.server then 2 else 1)
    ensures Base(G(d), i) < |k.sent| && k.sent[Base(G(d), i)] == KexInit(k.my)
    ensures |k.pairs| == i + 1 && |k.exchanges| == i
    ensures k.conf == Some(ConfOf(d, k.server)) && k.asked == AskOf(d) && (k.sessionId.None? <==> i == 0)
  {
    i := RoundOf(G(d), k.rcvd);
    Located(G(d), k.rcvd);
  }

  /** `l` is `k` with the hash of the fields `f`. */
  predicate Hashes(d: Deal, k: Side, l: Side, f: Fields) {
    && l.server == k.server && l.rcvd == k.rcvd + 1 && l.phase.AwaitNewKeys? && l.pairs == k.pairs
    && l.initSent == k.initSent && l.my == k.my && l.peer == k.peer && l.conf == k.conf && k.conf.Some?
    && var hash := d.w.hash(d.cconf.kex, f);
       var sid := if k.sessionId.None? then hash else k.sessionId.value;
       l.sessionId == Some(sid) && l.exchanges == k.exchanges + [Exchange(f, hash, sid, k.conf.value)]
  }

  lemma {:induction false} HashedStep(d: Deal, k: Side, l: Side, heard: seq<Msg>, f: Fields, i: nat)
    requires InStep(d, k, heard) && Waits(d, k, heard, i) && Hashes(d, k, l, f)
    requires |l.sent| == Base(G(d), i) + Period(G(d)) && k.sent <= l.sent && |k.pairs| == i + 1 && |k.exchanges| == i
    ensures InStep(d, l, heard)
  {
    Place(G(d), i, Period(G(d)) - 2);
    Place(G(d), i, Period(G(d)) - 1);
    assert k.initSent;
  }

  lemma {:induction false} NewRecord(d: Deal, t: Net, k: Side, l: Side, i: nat)
    requires Ready(d, t, i) && Ready(d, t, 0) && Hashes(d, k, l, FieldsOf(d, t, i)) && |k.exchanges| == i
    requires k.conf == Some(ConfOf(d, k.server)) && (k.sessionId.None? <==> i == 0)
    requires k.sessionId.Some? ==> k.sessionId.value == HashOf(d, t, 0)
    ensures |l.exchanges| == i + 1 && l.exchanges[i] == ExchangeOf(d, t, i, l.server)
    ensures l.sessionId == Some(HashOf(d, t, 0)) && l.exchanges[..i] == k.exchanges
  {
  }

  lemma {:induction false} MoreRecords(d: Deal, t: Net, k: Side, l: Side, i: nat)
    requires Ready(d, t, i) && Ready(d, t, 0) && Recorded(d, t, k) && l.server == k.server && |k.exchanges| == i
    requires |l.exchanges| == i + 1 && l.exchanges[..i] == k.exchanges && l.exchanges[i] == ExchangeOf(d, t, i, l.server)
    requires l.sessionId == Some(HashOf(d, t, 0))
    ensures Recorded(d, t, l)
  {
    forall j: nat | j < |l.exchanges|
      ensures Ready(d, t, j) && Ready(d, t, 0) && l.exchanges[j] == ExchangeOf(d, t, j, l.server)
    {
      if j < i {
        assert l.exchanges[j] == l.exchanges[..i][j] == k.exchanges[j];
      }
    }
  }

  lemma {:induction false} HashedRecord(d: Deal, n: Net, t: Net, k: Side, l: Side, i: nat)
    requires Grows(n.c, t.c) && Grows(n.s, t.s) && Recorded(d, n, k) && Ready(d, t, i) && Ready(d, t, 0)
    requires Hashes(d, k, l, FieldsOf(d, t, i)) && |k.exchanges| == i && (k.sessionId.None? <==> i == 0)
    requires k.conf == Some(ConfOf(d, k.server))
    ensures Recorded(d, t, l)
  {
    RecordedStable(d, n, t, k);
    NewRecord(d, t, k, l, i);
    MoreRecords(d, t, k, l, i);
  }

  /** The message that ends a side's part of an exchange, and before it the server's reply. */
  lemma {:induction false} EndInPlace(d: Deal, l: Side, i: nat)
    requires |l.sent| == Base(G(d), i) + Period(G(d)) && l.sent[|l.sent| - 1] == NewKeys
    ensures InPlace(d, l, |l.sent| - 1)
  {
    Place(G(d), i, Period(G(d)) - 1);
  }

  lemma {:induction false} ReplyInPlace(d: Deal, l: Side, i: nat)
    requires l.server && |l.pairs| == i + 1 && |l.sent| == Base(G(d), i) + Period(G(d))
    requires var m := l.sent[|l.sent| - 2];
             m.DhReply? && m.gex == G(d) && m.pub == d.w.public(l.pairs[i].group, l.pairs[i].secret)
    ensures InPlace(d, l, |l.sent| - 2)
  {
    Place(G(d), i, Period(G(d)) - 2);
  }

  /** The exponents on both sides lead to the same secret. */
  lemma {:induction false} Meet(d: Deal, p: Pair, q: Pair)
    requires Commutes(d) && Usable(d, p) && Usable(d, q) && p.group == q.group
    ensures var g, x, y := p.group, p.secret, q.secret;
            && d.w.shared(g, y, d.w.public(g, x)) == d.w.shared(g, x, d.w.public(g, y))
            && d.w.valid(g, d.w.public(g, x)) && d.w.valid(g, d.w.public(g, y))
  {
  }

  /** What the client's value of exchange i is. */
  lemma {:induction false} ClientValue(d: Deal, n: Net, i: nat)
    requires Inv(d, n) && Waits(d, n.s, n.c.sent, i)
    ensures i < |n.c.pairs| && n.c.sent[n.s.rcvd] == Value(d, n.c.pairs[i])
  {
    Place(G(d), i, Period(G(d)) - 2);
    assert InPlace(d, n.c, n.s.rcvd);
  }

  /** The server in exchange i, seen from outside. */
  lemma {:induction false} ServerReady(d: Deal, n: Net, i: nat)
    requires Inv(d, n) && Waits(d, n.s, n.c.sent, i)
    ensures Ready(d, n, i) && Ready(d, n, 0) && n.s.pairs[i].group == n.c.pairs[i].group
    ensures n.c.sent[Base(G(d), i)].payload == n.s.peer && n.s.sent[Base(G(d), i)].payload == n.s.my
  {
    var i' := WaitCounts(d, n.s, n.c.sent);
    Place(G(d), i, Period(G(d)) - 2);
    ClientValue(d, n, i);
    FirstReady(d, n, i);
  }

  /** Session id, record and NEWKEYS follow from the fields. */
  lemma {:induction false} KeyedHashes(d: Deal, k: Side, r: Side, f: Fields)
    requires k.conf.Some? && k.conf.value.kex == d.cconf.kex && r == k.(rcvd := k.rcvd + 1, sent := r.sent)
    ensures Hashes(d, k, Keyed(d.w, r, f), f) && Keyed(d.w, r, f).sent == r.sent + [NewKeys]
  {
  }

  lemma {:induction false} ServerDhIs(w: World, k: Side, pub: nat, p: Pair, blob: seq<u8>, f: Fields)
    requires k.conf.Some? && k.pairs != [] && p == k.pairs[|k.pairs| - 1] && w.valid(p.group, pub)
    requires blob == w.hostKey(k.conf.value.hostkey)
    requires f == FieldsFor(w, k, p.group, blob, pub, w.public(p.group, p.secret), w.shared(p.group, p.secret, pub))
    ensures var t := k.conf.value.kex;
            ServerDh(w, k, pub) ==
              Keyed(w, k.(sent := k.sent + [DhReply(IsGex(t), blob, w.public(p.group, p.secret), w.sign(k.conf.value.hostkey, w.hash(t, f)))]), f)
  {
  }

  lemma {:induction false} ServerFields(d: Deal, n: Net, k: Side, i: nat)
    requires Ready(d, n, i) && n.s.pairs[i].group == n.c.pairs[i].group && Commutes(d) && Usable(d, n.c.pairs[i]) && Usable(d, n.s.pairs[i])
    requires k.server && k.peer == n.c.sent[Base(G(d), i)].payload && k.my == n.s.sent[Base(G(d), i)].payload && k.asked == AskOf(d)
    ensures var g, x, y := n.s.pairs[i].group, n.c.pairs[i].secret, n.s.pairs[i].secret;
            FieldsFor(d.w, k, g, d.w.hostKey(d.sconf.hostkey), d.w.public(g, x), d.w.public(g, y), d.w.shared(g, y, d.w.public(g, x)))
              == FieldsOf(d, n, i)
  {
    Meet(d, n.c.pairs[i], n.s.pairs[i]);
  }

  lemma {:induction false} ServerHashes(d: Deal, n: Net, l: Side, i: nat)
    requires Honest(d) && Inv(d, n) && Waits(d, n.s, n.c.sent, i) && ConfOf(d, true).kex == d.cconf.kex
    requires n.s.conf.Some? && n.s.pairs != [] && n.c.sent[n.s.rcvd].DhInit?
    requires l == ServerDh(d.w, n.s.(rcvd := n.s.rcvd + 1), n.c.sent[n.s.rcvd].pub)
    ensures Ready(d, n, i) && Ready(d, n, 0) && Hashes(d, n.s, l, FieldsOf(d, n, i))
    ensures var p := n.s.pairs[i];
            l.sent == n.s.sent +
              [DhReply(G(d), d.w.hostKey(d.sconf.hostkey), d.w.public(p.group, p.secret), d.w.sign(d.sconf.hostkey, HashOf(d, n, i)))] + [NewKeys]
  {
    var i' := WaitCounts(d, n.s, n.c.sent);
    Place(G(d), i, Period(G(d)) - 2);
    ServerReady(d, n, i);
    ClientValue(d, n, i);
    ServerComputes(d, n, l, i);
  }

  lemma {:induction false} ServerComputes(d: Deal, n: Net, l: Side, i: nat)
    requires Commutes(d) && Ready(d, n, i) && n.s.pairs[i].group == n.c.pairs[i].group && d.sconf.kex == d.cconf.kex
    requires Usable(d, n.c.pairs[i]) && Usable(d, n.s.pairs[i])
    requires n.s.server && n.s.peer == n.c.sent[Base(G(d), i)].payload && n.s.my == n.s.sent[Base(G(d), i)].payload
    requires n.s.asked == AskOf(d) && n.s.conf == Some(d.sconf) && |n.s.pairs| == i + 1
    requires var p := n.c.pairs[i]; l == ServerDh(d.w, n.s.(rcvd := n.s.rcvd + 1), d.w.public(p.group, p.secret))
    ensures Hashes(d, n.s, l, FieldsOf(d, n, i))
    ensures var p := n.s.pairs[i];
            l.sent == n.s.sent +
              [DhReply(G(d), d.w.hostKey(d.sconf.hostkey), d.w.public(p.group, p.secret), d.w.sign(d.sconf.hostkey, HashOf(d, n, i)))] + [NewKeys]
  {
    var k, p, x, f := n.s.(rcvd := n.s.rcvd + 1), n.s.pairs[i], n.c.pairs[i].secret, FieldsOf(d, n, i);
    var blob, pub := d.w.hostKey(d.sconf.hostkey), d.w.public(p.group, x);
    Meet(d, n.c.pairs[i], p);
    ServerFields(d, n, k, i);
    ServerDhIs(d.w, k, pub, p, blob, f);
    var reply := DhReply(G(d), blob, d.w.public(p.group, p.secret), d.w.sign(d.sconf.hostkey, HashOf(d, n, i)));
    KeyedHashes(d, n.s, k.(sent := k.sent + [reply]), f);
  }

  lemma {:induction false} ServerSigned(d: Deal, n: Net, t: Net, i: nat)
    requires Signed(d, n) && Grows(n.c, t.c) && Grows(n.s, t.s) && Ready(d, t, i)
    requires |n.s.sent| == Base(G(d), i) + Period(G(d)) - 2 && |t.s.sent| == Base(G(d), i) + Period(G(d)) && |t.s.pairs| == i + 1
    requires t.s.sent[|n.s.sent|] ==
               DhReply(G(d), d.w.hostKey(d.sconf.hostkey), d.w.public(t.s.pairs[i].group, t.s.pairs[i].secret), d.w.sign(d.sconf.hostkey, HashOf(d, t, i)))
    ensures Signed(d, t)
  {
    forall j: nat
      ensures SignedAt(d, t, j)
    {
      assert SignedAt(d, n, j);
      if j != i {
        SignedStable(d, n, t, j);
      }
    }
  }

  /** What the server holds and has sent once it has answered exchange i. */
  ghost predicate Replied(d: Deal, n: Net, l: Side, i: nat)
    requires Ready(d, n, i)
  {
    && Hashes(d, n.s, l, FieldsOf(d, n, i))
    && l.sent == n.s.sent +
         [DhReply(G(d), d.w.hostKey(d.sconf.hostkey), d.w.public(n.s.pairs[i].group, n.s.pairs[i].secret),
                  d.w.sign(d.sconf.hostkey, HashOf(d, n, i)))] + [NewKeys]
  }

  lemma {:induction false} ServerDone(d: Deal, n: Net, l: Side, i: nat)
    requires Inv(d, n) && Waits(d, n.s, n.c.sent, i) && Ready(d, n, i) && Ready(d, n, 0) && Replied(d, n, l, i)
    ensures Inv(d, n.(s := l))
  {
    var i' := WaitCounts(d, n.s, n.c.sent);
    Place(G(d), i, Period(G(d)) - 2);
    FieldsStable(d, n, n.(s := l), i);
    FieldsStable(d, n, n.(s := l), 0);
    ServerKeyed(d, n, n.(s := l), i);
  }

  lemma {:induction false} ServerKeyedSide(d: Deal, k: Side, l: Side, heard: seq<Msg>, f: Fields, i: nat)
    requires InOrder(d, k) && InStep(d, k, heard) && Waits(d, k, heard, i) && k.server && Hashes(d, k, l, f)
    requires |k.pairs| == i + 1 && |k.exchanges| == i && |k.sent| == Base(G(d), i) + Period(G(d)) - 2
    requires |l.sent| == |k.sent| + 2 && k.sent <= l.sent && l.sent[|k.sent| + 1] == NewKeys
    requires var m := l.sent[|k.sent|]; m.DhReply? && m.gex == G(d) && m.pub == d.w.public(k.pairs[i].group, k.pairs[i].secret)
    ensures InOrder(d, l) && InStep(d, l, heard) && Grows(k, l)
  {
    HashedStep(d, k, l, heard, f, i);
    EndInPlace(d, l, i);
    ReplyInPlace(d, l, i);
    OrderGrows(d, k, l);
  }

  lemma {:induction false} ServerKeyed(d: Deal, n: Net, t: Net, i: nat)
    requires Inv(d, n) && Waits(d, n.s, n.c.sent, i) && t.c == n.c && Ready(d, t, i) && Ready(d, t, 0)
    requires Hashes(d, n.s, t.s, FieldsOf(d, t, i)) && |n.s.pairs| == i + 1 && |n.s.exchanges| == i
    requires n.s.conf == Some(d.sconf) && (n.s.sessionId.None? <==> i == 0) && |n.s.sent| == Base(G(d), i) + Period(G(d)) - 2
    requires var p := n.s.pairs[i];
             t.s.sent == n.s.sent +
               [DhReply(G(d), d.w.hostKey(d.sconf.hostkey), d.w.public(p.group, p.secret), d.w.sign(d.sconf.hostkey, HashOf(d, t, i)))] + [NewKeys]
    ensures Inv(d, t)
  {
    ServerKeyedSide(d, n.s, t.s, n.c.sent, FieldsOf(d, t, i), i);
    HashedRecord(d, n, t, n.s, t.s, i);
    ServerSigned(d, n, t, i);
    SameGroupsKept(n, t, t.s, true);
    Reassemble(d, n, t, t.s, true);
  }

  /** Both sides have offered in their first exchange. */
  lemma {:induction false} FirstReady(d: Deal, n: Net, i: nat)
    requires Inv(d, n) && Ready(d, n, i)
    ensures Ready(d, n, 0)
  {
    Place(G(d), 0, 0);
    assert InPlace(d, n.c, 0) && InPlace(d, n.s, 0);
  }

  /** The reply the client waits for. */
  lemma {:induction false} ReplyIs(d: Deal, n: Net, i: nat)
    requires Inv(d, n) && Waits(d, n.c, n.s.sent, i)
    ensures Ready(d, n, i) && Ready(d, n, 0) && n.s.pairs[i].group == n.c.pairs[i].group
    ensures n.c.sent[Base(G(d), i)].payload == n.c.my && n.s.sent[Base(G(d), i)].payload == n.c.peer
    ensures n.s.sent[n.c.rcvd] ==
              DhReply(G(d), d.w.hostKey(d.sconf.hostkey), d.w.public(n.c.pairs[i].group, n.s.pairs[i].secret), d.w.sign(d.sconf.hostkey, HashOf(d, n, i)))
  {
    var i' := WaitCounts(d, n.c, n.s.sent);
    Place(G(d), i, Period(G(d)) - 2);
    assert InPlace(d, n.s, n.c.rcvd);
    assert SignedAt(d, n, i);
    FirstReady(d, n, i);
  }

  lemma {:induction false} ClientDhIs(w: World, k: Side, hostKey: seq<u8>, pub: nat, sig: seq<u8>, p: Pair, f: Fields)
    requires k.conf.Some? && k.pairs != [] && p == k.pairs[|k.pairs| - 1] && w.valid(p.group, pub)
    requires f == FieldsFor(w, k, p.group, hostKey, w.public(p.group, p.secret), pub, w.shared(p.group, p.secret, pub))
    requires w.accepts(k.conf.value.hostkey, hostKey) && w.verify(hostKey, sig, w.hash(k.conf.value.kex, f))
    ensures ClientDh(w, k, hostKey, pub, sig) == Keyed(w, k, f)
  {
  }

  lemma {:induction false} ClientFields(d: Deal, n: Net, k: Side, i: nat)
    requires Ready(d, n, i)
    requires !k.server && k.my == n.c.sent[Base(G(d), i)].payload && k.peer == n.s.sent[Base(G(d), i)].payload && k.asked == AskOf(d)
    ensures var g, x, y := n.c.pairs[i].group, n.c.pairs[i].secret, n.s.pairs[i].secret;
            FieldsFor(d.w, k, g, d.w.hostKey(d.sconf.hostkey), d.w.public(g, x), d.w.public(g, y), d.w.shared(g, x, d.w.public(g, y)))
              == FieldsOf(d, n, i)
  {
  }

  /** The client computes the hash the server signed, so the signature is good. */
  lemma {:induction false} ClientVerifies(d: Deal, n: Net, l: Side, i: nat)
    requires Honest(d) && Inv(d, n) && Waits(d, n.c, n.s.sent, i) && d.cconf.hostkey == d.sconf.hostkey
    requires n.c.conf.Some? && n.c.pairs != [] && n.s.sent[n.c.rcvd].DhReply?
    requires var m := n.s.sent[n.c.rcvd]; l == ClientDh(d.w, n.c.(rcvd := n.c.rcvd + 1), m.hostKey, m.pub, m.signature)
    ensures Ready(d, n, i) && Ready(d, n, 0) && Hashes(d, n.c, l, FieldsOf(d, n, i)) && l.sent == n.c.sent + [NewKeys]
  {
    var i' := WaitCounts(d, n.c, n.s.sent);
    Place(G(d), i, Period(G(d)) - 2);
    ReplyIs(d, n, i);
    ReplyVerifies(d, n, l, i);
  }

  lemma {:induction false} ReplyVerifies(d: Deal, n: Net, l: Side, i: nat)
    requires Honest(d) && Ready(d, n, i) && d.cconf.hostkey == d.sconf.hostkey && n.s.pairs[i].group == n.c.pairs[i].group
    requires Usable(d, n.c.pairs[i]) && Usable(d, n.s.pairs[i])
    requires !n.c.server && n.c.my == n.c.sent[Base(G(d), i)].payload && n.c.peer == n.s.sent[Base(G(d), i)].payload
    requires n.c.asked == AskOf(d) && n.c.conf == Some(d.cconf) && |n.c.pairs| == i + 1
    requires var g, y := n.c.pairs[i].group, n.s.pairs[i].secret;
             l == ClientDh(d.w, n.c.(rcvd := n.c.rcvd + 1), d.w.hostKey(d.sconf.hostkey), d.w.public(g, y), d.w.sign(d.sconf.hostkey, HashOf(d, n, i)))
    ensures Hashes(d, n.c, l, FieldsOf(d, n, i)) && l.sent == n.c.sent + [NewKeys]
  {
    var k, p, y, f := n.c.(rcvd := n.c.rcvd + 1), n.c.pairs[i], n.s.pairs[i].secret, FieldsOf(d, n, i);
    Meet(d, p, n.s.pairs[i]);
    ClientFields(d, n, k, i);
    assert d.w.verify(d.w.hostKey(d.sconf.hostkey), d.w.sign(d.sconf.hostkey, HashOf(d, n, i)), HashOf(d, n, i));
    ClientDhIs(d.w, k, d.w.hostKey(d.sconf.hostkey), d.w.public(p.group, y), d.w.sign(d.sconf.hostkey, HashOf(d, n, i)), p, f);
    KeyedHashes(d, n.c, k, f);
  }

  lemma {:induction false} ClientDone(d: Deal, n: Net, l: Side, i: nat)
    requires Inv(d, n) && Waits(d, n.c, n.s.sent, i) && Ready(d, n, i) && Ready(d, n, 0)
    requires Hashes(d, n.c, l, FieldsOf(d, n, i)) && l.sent == n.c.sent + [NewKeys]
    ensures Inv(d, n.(c := l))
  {
    var i' := WaitCounts(d, n.c, n.s.sent);
    Place(G(d), i, Period(G(d)) - 2);
    FieldsStable(d, n, n.(c := l), i);
    FieldsStable(d, n, n.(c := l), 0);
    ClientKeyed(d, n, n.(c := l), i);
  }

  lemma {:induction false} ClientKeyedSide(d: Deal, k: Side, l: Side, heard: seq<Msg>, f: Fields, i: nat)
    requires InOrder(d, k) && InStep(d, k, heard) && Waits(d, k, heard, i) && Hashes(d, k, l, f) && !k.server
    requires |k.pairs| == i + 1 && |k.exchanges| == i && |k.sent| == Base(G(d), i) + Period(G(d)) - 1
    requires l.sent == k.sent + [NewKeys]
    ensures InOrder(d, l) && InStep(d, l, heard)
  {
    HashedStep(d, k, l, heard, f, i);
    EndInPlace(d, l, i);
    OrderGrows(d, k, l);
  }

  lemma {:induction false} ClientKeyed(d: Deal, n: Net, t: Net, i: nat)
    requires Inv(d, n) && Waits(d, n.c, n.s.sent, i) && t.s == n.s && Ready(d, t, i) && Ready(d, t, 0)
    requires Hashes(d, n.c, t.c, FieldsOf(d, t, i)) && |n.c.pairs| == i + 1 && |n.c.exchanges| == i
    requires n.c.conf == Some(d.cconf) && (n.c.sessionId.None? <==> i == 0) && |n.c.sent| == Base(G(d), i) + Period(G(d)) - 1
    requires t.c.sent == n.c.sent + [NewKeys]
    ensures Inv(d, t)
  {
    ClientKeyedSide(d, n.c, t.c, n.s.sent, FieldsOf(d, t, i), i);
    HashedRecord(d, n, t, n.c, t.c, i);
    NoReplySigned(d, n, t);
    Reassemble(d, n, t, t.c, false);
  }

  // ---- the end of an exchange ----

  lemma {:induction false} FinishedStep(d: Deal, k: Side, heard: seq<Msg>)
    requires InStep(d, k, heard) && k.phase.AwaitNewKeys? && k.rcvd < |heard|
    ensures InStep(d, Finish(k.(rcvd := k.rcvd + 1)), heard)
  {
    Located(G(d), k.rcvd);
    Place(G(d), RoundOf(G(d), k.rcvd) + 1, 0);
  }

  lemma {:induction false} FinishKeepsInv(d: Deal, n: Net, t: Net, server: bool)
    requires Inv(d, n)
    requires var k, heard := Mine(n, server), Mine(n, !server).sent;
             k.phase.AwaitNewKeys? && k.rcvd < |heard| && t == With(n, Finish(k.(rcvd := k.rcvd + 1)), server)
    ensures Inv(d, t)
  {
    var k := Mine(n, server);
    var l := Finish(k.(rcvd := k.rcvd + 1));
    FinishedStep(d, k, Mine(n, !server).sent);
    OrderGrows(d, k, l);
    SameGroupsKept(n, t, l, server);
    NoNewHash(d, n, t, l, server);
  }
}
