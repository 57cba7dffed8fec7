/**
 Key exchange and rekeying between two honest ends: kex_send_kexinit, kex_input_kexinit, kex_finish,
 kexdh_client and kexdh_server, kexgex_client and kexgex_server as a message-driven machine.

 A side that waits inside packet_read_expect handles nothing else, so it has a phase.
 What a side ever sent is kept in order; the other side has read a beginning of it.
 */
module KexRun {
  import opened Bytes
  import Wire
  import opened MatchList
  import opened KeyBlob
  import opened KexProposal
  import opened KexChoose
  import opened KexDerive
  import opened Transcript
  import ChooseDh

  /** A prime and a generator. */
  datatype Grp = Grp(p: nat, g: nat)

  /** A group exchange request as it is hashed: bounds of the client, or none for old clients. */
  datatype Ask = NoAsk | OldAsk(n: nat) | NewAsk(min: nat, n: nat, max: nat)

  datatype Msg =
    | KexInit(payload: seq<u8>)
    | GexRequest(ask: Ask)
    | GexGroup(group: Grp)
    | DhInit(gex: bool, pub: nat)
    | DhReply(gex: bool, hostKey: seq<u8>, pub: nat, signature: seq<u8>)
    | NewKeys

  /** What the two programs are given: proposals, host keys, the moduli file and arithmetic. */
  datatype World = World(
    build: Build,
    bugHmac: bool,
    bugDeriveKey: bool,
    oldGex: bool,                                  // the client has SSH_OLD_DHGEX set for this server
    clientVersion: seq<u8>,
    serverVersion: seq<u8>,
    clientProp: seq<Name>,
    serverProp: seq<Name>,
    hostKey: KeyType -> seq<u8>,
    accepts: (KeyType, seq<u8>) -> bool,           // the client's checks of a host key blob
    fixed: KexType -> Grp,                         // dh_new_group1 and dh_new_group14
    moduli: seq<ChooseDh.Line>,
    public: (Grp, nat) -> nat,                     // the DH value of a secret exponent
    shared: (Grp, nat, nat) -> nat,                // DH_compute_key
    valid: (Grp, nat) -> bool,                     // dh_pub_is_valid
    digest: KexType -> Hash,
    choose: (bool, seq<u8>, seq<u8>) -> Option<Conf>,  // kex_choose_conf on the own and the peer's payload
    hash: (KexType, Fields) -> seq<u8>,            // kex_dh_hash and kexgex_hash
    sign: (KeyType, seq<u8>) -> seq<u8>,           // key_sign with the host key of that type
    verify: (seq<u8>, seq<u8>, seq<u8>) -> bool)   // key_verify on host key, signature and hash

  /** The exchange hash is the negotiated digest of the transcript; only those who compute it need to know. */
  ghost predicate Transcribes(w: World) {
    forall t, f {:trigger w.digest(t)(Hashed(f))} :: w.hash(t, f) == w.digest(t)(Hashed(f))
  }

  /** The algorithms are those that the negotiation on payloads gives. */
  ghost predicate Chooses(w: World) {
    forall server, my, peer {:trigger Negotiate(w.build, w.bugHmac, server, my, peer)} ::
      w.choose(server, my, peer) == Negotiate(w.build, w.bugHmac, server, my, peer)
  }

  const DH_GRP_MIN: nat := 1024
  const DH_GRP_MAX: nat := 8192

  predicate IsGex(t: KexType) { t.GexSha1? || t.GexSha256? }

  function DigestLen(t: KexType): (r: nat) { if t.GexSha256? then 32 else 20 }

  /** dh_estimate. */
  function Estimate(bits: nat): (r: nat)
    ensures DH_GRP_MIN <= r <= DH_GRP_MAX
  {
    if bits <= 128 then 1024 else if bits <= 192 then 2048 else 4096
  }

  /** Dead: the program has given up on the exchange.  Spent: dh_gen_key has run out of tries. */
  datatype Phase = Idle | AwaitGroup | AwaitDh | AwaitNewKeys | Dead | Spent

  /** The group of an exchange and the exponent a side has drawn in it. */
  datatype Pair = Pair(group: Grp, secret: nat)

  /** What one side has of one exchange once it has the hash: everything its keys are made of. */
  datatype Exchange = Exchange(fields: Fields, hash: seq<u8>, sessionId: seq<u8>, conf: Conf)

  /** The session keys kex_derive_keys installs, for receiving or for sending. */
  function SessionOf(w: World, e: Exchange, server: bool, outward: bool): (r: Session) {
    var s := Secret(w.digest(e.conf.kex), e.fields.shared, e.hash, e.sessionId, w.bugDeriveKey);
    Direction(s, DigestLen(e.conf.kex), e.conf, if outward then e.conf.outward else e.conf.inward, server != outward)
  }

  datatype Side = Side(
    server: bool,
    phase: Phase,
    initSent: bool,                // KEX_INIT_SENT
    my: seq<u8>,
    peer: seq<u8>,
    conf: Option<Conf>,
    asked: Ask,
    sessionId: Option<seq<u8>>,
    pairs: seq<Pair>,              // one for each exchange so far
    exchanges: seq<Exchange>,
    sent: seq<Msg>,
    rcvd: nat)                     // how many messages of the peer were handled

  function Prop(w: World, server: bool): (r: seq<Name>) { if server then w.serverProp else w.clientProp }

  /** kex_send_kexinit. */
  function SendKexinit(w: World, k: Side, cookie: seq<u8>): (r: Side) {
    if k.initSent then k
    else
      var my := Payload(cookie, Prop(w, k.server));
      k.(initSent := true, my := my, sent := k.sent + [KexInit(my)])
  }

  /** What dh_gen_key comes to. */
  datatype Gen = TooSmall | GaveUp | Drawn(secret: nat)

  const DH_TRIES: nat := 11

  /** The first of the exponents drawn whose value is valid. */
  function FirstValid(w: World, g: Grp, xs: seq<nat>): (r: Gen)
    ensures !r.TooSmall? && (r.Drawn? ==> w.valid(g, w.public(g, r.secret)))
  {
    if xs == [] then GaveUp
    else if w.valid(g, w.public(g, xs[0])) then Drawn(xs[0])
    else FirstValid(w, g, xs[1..])
  }

  predicate Small(need: nat, g: Grp) { 2 * (need * 8) >= Wire.Bits(g.p) }

  /** dh_gen_key with the exponents that BN_rand gives it. */
  function GenKey(w: World, need: nat, g: Grp, xs: seq<nat>): (r: Gen) {
    if Small(need, g) then TooSmall else FirstValid(w, g, if |xs| <= DH_TRIES then xs else xs[..DH_TRIES])
  }

  /** An exponent is drawn, and the client sends its value. */
  function Engage(w: World, k: Side, gex: bool, p: Pair): (r: Side) {
    k.(phase := AwaitDh, pairs := k.pairs + [p],
       sent := if k.server then k.sent else k.sent + [DhInit(gex, w.public(p.group, p.secret))])
  }

  /** The group is known. */
  function TakeGroup(w: World, k: Side, gex: bool, g: Grp, xs: seq<nat>): (r: Side)
    requires k.conf.Some?
  {
    match GenKey(w, k.conf.value.weNeed, g, xs)
    case TooSmall => k.(phase := Dead)
    case GaveUp => k.(phase := Spent)
    case Drawn(x) => Engage(w, k, gex, Pair(g, x))
  }

  /** What a client asks for in a group exchange. */
  function Want(w: World, c: Conf): (r: Ask) {
    var n := Estimate(c.weNeed * 8);
    if w.oldGex then OldAsk(n) else NewAsk(DH_GRP_MIN, n, DH_GRP_MAX)
  }

  /** What follows once the algorithms are chosen, up to the first wait. */
  function Begin(w: World, a: Side, conf: Option<Conf>, xs: seq<nat>): (r: Side) {
    if conf.None? then a.(phase := Dead)
    else if !IsGex(conf.value.kex) then
      TakeGroup(w, a.(conf := conf, asked := NoAsk), false, w.fixed(conf.value.kex), xs)
    else if a.server then a.(phase := AwaitGroup, conf := conf)
    else
      var ask := Want(w, conf.value);
      a.(phase := AwaitGroup, conf := conf, asked := ask, sent := a.sent + [GexRequest(ask)])
  }

  /** The peer's payload is kept, and the own KEXINIT sent if it was not. */
  function Prepared(w: World, k: Side, payload: seq<u8>, cookie: seq<u8>): (r: Side) {
    SendKexinit(w, k.(peer := k.peer + payload), cookie)
  }

  /** The first half of kex_input_kexinit and of the exchange it starts. */
  function InputKexinit(w: World, k: Side, payload: seq<u8>, cookie: seq<u8>, xs: seq<nat>): (r: Side) {
    var a := Prepared(w, k, payload, cookie);
    Begin(w, a, w.choose(a.server, a.my, a.peer), xs)
  }

  /** The int that a 32-bit word of a request becomes. */
  function AsInt(x: nat): (r: int) { if x < 0x8000_0000 then x else x - 0x1_0000_0000 }

  /** The request after the server has narrowed its bounds. */
  function Clamped(ask: Ask): (r: Ask) {
    if ask.NewAsk? then
      NewAsk(if AsInt(ask.min) < DH_GRP_MIN then DH_GRP_MIN else ask.min, ask.n,
             if AsInt(ask.max) > DH_GRP_MAX then DH_GRP_MAX else ask.max)
    else ask
  }

  function BoundsOf(ask: Ask): (r: ChooseDh.Bounds) {
    match ask
    case NoAsk => ChooseDh.Bounds(DH_GRP_MIN, 0, DH_GRP_MAX)
    case OldAsk(n) => ChooseDh.Bounds(DH_GRP_MIN, AsInt(n), DH_GRP_MAX)
    case NewAsk(min, n, max) => ChooseDh.Bounds(AsInt(min), AsInt(n), AsInt(max))
  }

  /** choose_dh; None where it aborts. */
  function GroupFor(w: World, b: ChooseDh.Bounds, rnd: nat): (r: Option<Grp>) {
    match ChooseDh.Selection(b, w.moduli, rnd)
    case Fixed => Some(w.fixed(Group14))
    case Chosen(l) => if l.Group? then Some(Grp(l.p, l.g)) else None
    case Disappeared => None
  }

  /** kexgex_server after its wait for a request. */
  function InputRequest(w: World, k: Side, ask: Ask, xs: seq<nat>, rnd: nat): (r: Side)
    requires k.conf.Some?
  {
    var c := Clamped(ask);
    var b := BoundsOf(c);
    if ask.NoAsk? || b.max < b.min || b.want < b.min || b.max < b.want then k.(phase := Dead)
    else
      var g := GroupFor(w, b, rnd);
      if g.None? then k.(phase := Dead)
      else TakeGroup(w, k.(asked := c, sent := k.sent + [GexGroup(g.value)]), true, g.value, xs)
  }

  predicate InRange(g: Grp) { DH_GRP_MIN <= Wire.Bits(g.p) <= DH_GRP_MAX }

  /** kexgex_client after its wait for a group. */
  function InputGroup(w: World, k: Side, g: Grp, xs: seq<nat>): (r: Side)
    requires k.conf.Some?
  {
    if !InRange(g) then k.(phase := Dead) else TakeGroup(w, k, true, g, xs)
  }

  /** The request and the group as they are hashed. */
  function GexOf(ask: Ask, g: Grp): (r: Gex) {
    match ask
    case NoAsk => NoGex
    case OldAsk(n) => OldGex(n, g.p, g.g)
    case NewAsk(min, n, max) => NewGex(min, n, max, g.p, g.g)
  }

  function FieldsFor(w: World, k: Side, g: Grp, hostKey: seq<u8>, clientPub: nat, serverPub: nat, shared: nat): (r: Fields) {
    Fields(w.clientVersion, w.serverVersion,
           if k.server then k.peer else k.my, if k.server then k.my else k.peer,
           hostKey, GexOf(k.asked, g), clientPub, serverPub, shared)
  }

  /** Session id, keys and NEWKEYS: what both sides do once they have the hash. */
  function Keyed(w: World, k: Side, f: Fields): (r: Side)
    requires k.conf.Some?
  {
    var hash := w.hash(k.conf.value.kex, f);
    var sid := if k.sessionId.None? then hash else k.sessionId.value;
    k.(phase := AwaitNewKeys, sessionId := Some(sid), sent := k.sent + [NewKeys],
       exchanges := k.exchanges + [Exchange(f, hash, sid, k.conf.value)])
  }

  /** kexdh_server or kexgex_server after its wait for the client's value. */
  function ServerDh(w: World, k: Side, clientPub: nat): (r: Side)
    requires k.conf.Some? && k.pairs != []
  {
    var p, t := k.pairs[|k.pairs| - 1], k.conf.value.kex;
    if !w.valid(p.group, clientPub) then k.(phase := Dead)
    else
      var blob, pub := w.hostKey(k.conf.value.hostkey), w.public(p.group, p.secret);
      var f := FieldsFor(w, k, p.group, blob, clientPub, pub, w.shared(p.group, p.secret, clientPub));
      var reply := DhReply(IsGex(t), blob, pub, w.sign(k.conf.value.hostkey, w.hash(t, f)));
      Keyed(w, k.(sent := k.sent + [reply]), f)
  }

  /** kexdh_client or kexgex_client after its wait for the server's value. */
  function ClientDh(w: World, k: Side, hostKey: seq<u8>, serverPub: nat, signature: seq<u8>): (r: Side)
    requires k.conf.Some? && k.pairs != []
  {
    var p, c := k.pairs[|k.pairs| - 1], k.conf.value;
    var f := FieldsFor(w, k, p.group, hostKey, w.public(p.group, p.secret), serverPub,
                       w.shared(p.group, p.secret, serverPub));
    if w.accepts(c.hostkey, hostKey) && w.valid(p.group, serverPub) && w.verify(hostKey, signature, w.hash(c.kex, f))
    then Keyed(w, k, f)
    else k.(phase := Dead)
  }

  /** The end of kex_finish. */
  function Finish(k: Side): (r: Side) {
    k.(phase := Idle, peer := [], initSent := false, conf := None)
  }

  /** What a side that waits is sure to have. */
  predicate Equipped(k: Side) {
    (k.phase.AwaitGroup? ==> k.conf.Some?) && (k.phase.AwaitDh? ==> k.conf.Some? && k.pairs != [])
  }

  /** The message with the peer's DH value. */
  function HandleDh(w: World, n: Side, m: Msg): (r: Side)
    requires n.conf.Some? && n.pairs != []
  {
    var gex := IsGex(n.conf.value.kex);
    if n.server && m.DhInit? && m.gex == gex then ServerDh(w, n, m.pub)
    else if !n.server && m.DhReply? && m.gex == gex then ClientDh(w, n, m.hostKey, m.pub, m.signature)
    else n.(phase := Dead)
  }

  /** The message a side waits for inside an exchange. */
  function HandleWaiting(w: World, n: Side, m: Msg, xs: seq<nat>, rnd: nat): (r: Side)
    requires Equipped(n)
  {
    match n.phase
    case AwaitGroup =>
      if n.server && m.GexRequest? then InputRequest(w, n, m.ask, xs, rnd)
      else if !n.server && m.GexGroup? then InputGroup(w, n, m.group, xs)
      else n.(phase := Dead)
    case AwaitDh => HandleDh(w, n, m)
    case AwaitNewKeys => if m.NewKeys? then Finish(n) else n.(phase := Dead)
    case _ => n
  }

  /** A message between two exchanges. */
  function HandleIdle(w: World, n: Side, m: Msg, cookie: seq<u8>, xs: seq<nat>): (r: Side) {
    if m.KexInit? then InputKexinit(w, n, m.payload, cookie, xs) else n
  }

  /** One message of the peer. */
  function Handle(w: World, k: Side, m: Msg, cookie: seq<u8>, xs: seq<nat>, rnd: nat): (r: Side)
    requires Equipped(k)
  {
    var n := k.(rcvd := k.rcvd + 1);
    if k.phase.Idle? then HandleIdle(w, n, m, cookie, xs) else HandleWaiting(w, n, m, xs, rnd)
  }

  /** Between exchanges. */
  lemma {:induction false} IdleIs(w: World, k: Side, n: Side, m: Msg, cookie: seq<u8>, xs: seq<nat>, rnd: nat)
    requires k.phase.Idle? && n == k.(rcvd := k.rcvd + 1)
    ensures Handle(w, k, m, cookie, xs, rnd) == HandleIdle(w, n, m, cookie, xs)
  {
  }

  lemma {:induction false} OfferIs(w: World, k: Side, b: Side, m: Msg, cookie: seq<u8>, xs: seq<nat>, conf: Option<Conf>)
    requires m.KexInit? && b == Prepared(w, k, m.payload, cookie) && conf == w.choose(b.server, b.my, b.peer)
    ensures HandleIdle(w, k, m, cookie, xs) == Begin(w, b, conf, xs)
  {
  }

  datatype Net = Net(c: Side, s: Side)

  /** Either side may ask for new keys when it is not inside an exchange, or handle the next message. */
  datatype Event =
    | Rekey(server: bool, cookie: seq<u8>)
    | Receive(server: bool, cookie: seq<u8>, draws: seq<nat>, rnd: nat)

  function Mine(n: Net, server: bool): (r: Side) { if server then n.s else n.c }

  function With(n: Net, k: Side, server: bool): (r: Net) { if server then n.(s := k) else n.(c := k) }

  predicate CanHappen(n: Net, e: Event) {
    var k, other := Mine(n, e.server), Mine(n, !e.server);
    && |e.cookie| == KEX_COOKIE_LEN && Equipped(k)
    && (e.Rekey? ==> k.phase.Idle?)
    && (e.Receive? ==> k.rcvd < |other.sent| && !k.phase.Dead? && !k.phase.Spent?)
  }

  function Happen(w: World, n: Net, e: Event): (r: Net)
    requires CanHappen(n, e)
  {
    var k, other := Mine(n, e.server), Mine(n, !e.server);
    With(n, if e.Rekey? then SendKexinit(w, k, e.cookie)
            else Handle(w, k, other.sent[k.rcvd], e.cookie, e.draws, e.rnd),
         e.server)
  }

  /** No dh_gen_key has run out of tries. */
  predicate Lucky(n: Net) { !n.c.phase.Spent? && !n.s.phase.Spent? }

  predicate IsRun(w: World, n: Net, es: seq<Event>)
    decreases |es|
  {
    es == [] || (CanHappen(n, es[0]) && Lucky(Happen(w, n, es[0])) && IsRun(w, Happen(w, n, es[0]), es[1..]))
  }

  function After(w: World, n: Net, es: seq<Event>): (r: Net)
    requires IsRun(w, n, es)
    decreases |es|
  {
    if es == [] then n else After(w, Happen(w, n, es[0]), es[1..])
  }

  function Fresh(server: bool): (r: Side) {
    Side(server, Idle, false, [], [], None, NoAsk, None, [], [], [], 0)
  }

  const START: Net := Net(Fresh(false), Fresh(true))
}
