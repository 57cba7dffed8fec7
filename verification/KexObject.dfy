/**
 struct Kex as the program has it: two buffers, flags and the keys last derived, updated in place by
 the handlers of kex.c, kexdh*.c and kexgex*.c.  They work on buffers, match the lists, read the
 moduli, hash and derive; what they leave is what KexRun says, unless a buffer gives up.
 */
module KexObject {
  import opened Bytes
  import opened SshBuffer
  import opened MatchList
  import KeyBlob
  import opened KexProposal
  import opened KexChoose
  import opened KexBuffers
  import opened KexDerive
  import opened Transcript
  import opened KexRun
  import Wire
  import ChooseDh

  const NO_COOKIE: seq<u8> := [0, 0, 0, 0, 0, 0, 0, 0, 0, 0, 0, 0, 0, 0, 0, 0]

  /** A payload behind its cookie. */
  function Body(prop: seq<Name>): (r: seq<u8>) { EncNames(prop) + [0] + Wire.PutU32(0) }

  lemma {:induction false} BehindCookie(cookie: seq<u8>, prop: seq<Name>)
    ensures Payload(cookie, prop) == cookie + Body(prop)
  {
    assert cookie + EncNames(prop) + [0] + Wire.PutU32(0) == cookie + (EncNames(prop) + [0] + Wire.PutU32(0));
  }

  /** kex_send_kexinit draws a new cookie into the proposal it keeps. */
  method Stamp(b: Buffer, cookie: seq<u8>)
    requires b.Valid() && |b.Contents()| >= |cookie|
    modifies b.buf
    ensures b.Contents() == cookie + old(b.Contents())[|cookie|..]
  {
    ghost var was := b.buf[..];
    var at := b.offset;
    for i := 0 to |cookie|
      invariant forall j :: 0 <= j < i ==> b.buf[at + j] == cookie[j]
      invariant forall j :: at + i <= j < b.buf.Length ==> b.buf[j] == was[j]
    {
      b.buf[at + i] := cookie[i];
    }
    Overwritten(was[at..b.end], b.Contents(), cookie);
  }

  lemma {:induction false} Overwritten(was: seq<u8>, now: seq<u8>, cookie: seq<u8>)
    requires |was| == |now| >= |cookie|
    requires forall j :: 0 <= j < |cookie| ==> now[j] == cookie[j]
    requires forall j :: |cookie| <= j < |now| ==> now[j] == was[j]
    ensures now == cookie + was[|cookie|..]
  {
  }

  /** What is asked of the environment: parse_prime's sizes, digests of one length, and what choosing and hashing mean. */
  ghost predicate Sound(w: World) {
    ChooseDh.Parsed(w.moduli) && Chooses(w) && Transcribes(w) && forall t :: Sized(w.digest(t), DigestLen(t))
  }

  /** The buffers: apart, and the first one with the proposal behind some cookie. */
  ghost predicate Kept(my: Buffer, peer: Buffer, prop: seq<Name>)
    reads my, my.buf, peer
  {
    && my != peer && my.buf != peer.buf && my.Valid() && peer.Valid()
    && |my.Contents()| >= KEX_COOKIE_LEN && my.Contents()[KEX_COOKIE_LEN..] == Body(prop)
  }

  /** The keys held are those of the last exchange. */
  predicate Installed(w: World, server: bool, es: seq<Exchange>, receiving: Option<Session>, sending: Option<Session>) {
    es != [] ==>
      && receiving == Some(SessionOf(w, es[|es| - 1], server, false))
      && sending == Some(SessionOf(w, es[|es| - 1], server, true))
  }

  // ---- what the environment answers ----

  function Public(w: World, group: Grp, secret: nat): (r: nat) { w.public(group, secret) }

  function Shared(w: World, p: Pair, pub: nat): (r: nat) { w.shared(p.group, p.secret, pub) }

  predicate ValidPub(w: World, p: Pair, pub: nat) { w.valid(p.group, pub) }

  predicate Accepted(w: World, t: KeyBlob.KeyType, blob: seq<u8>) { w.accepts(t, blob) }

  predicate Verified(w: World, blob: seq<u8>, signature: seq<u8>, hash: seq<u8>) { w.verify(blob, signature, hash) }

  function Fixed(w: World, t: KexType): (r: Grp) { w.fixed(t) }

  function HostKey(w: World, t: KeyBlob.KeyType): (r: seq<u8>) { w.hostKey(t) }

  function Signature(w: World, t: KeyBlob.KeyType, hash: seq<u8>): (r: seq<u8>) { w.sign(t, hash) }

  function HashOf(w: World, t: KexType, f: Fields): (r: seq<u8>) { w.hash(t, f) }

  /** choose_dh, which never fails. */
  method PickGroup(w: World, b: ChooseDh.Bounds, rnd: nat) returns (group: Grp)
    requires Sound(w)
    ensures GroupFor(w, b, rnd) == Some(group)
  {
    var choice := ChooseDh.Choose(b, w.moduli, rnd);
    group := if choice.Fixed? then w.fixed(Group14) else Grp(choice.group.p, choice.group.g);
  }

  predicate GoodExponent(w: World, g: Grp, x: nat) { w.valid(g, w.public(g, x)) }

  /** dh_gen_key: exponents are drawn until the value is valid, eleven times at most. */
  method DhGenKey(w: World, need: nat, g: Grp, xs: seq<nat>) returns (r: Gen)
    ensures r == GenKey(w, need, g, xs)
  {
    if 2 * (need * 8) >= Wire.Bits(g.p) {
      return TooSmall;
    }
    var draws := if |xs| <= DH_TRIES then xs else xs[..DH_TRIES];
    var tries := 0;
    while tries < |draws|
      invariant tries <= |draws| && FirstValid(w, g, draws) == FirstValid(w, g, draws[tries..])
    {
      if GoodExponent(w, g, draws[tries]) {
        return Drawn(draws[tries]);
      }
      tries := tries + 1;
    }
    r := GaveUp;
  }

  /** kex_dh_hash or kexgex_hash. */
  method HashFields(w: World, t: KexType, f: Fields) returns (r: Outcome, hash: seq<u8>)
    requires Transcribes(w)
    ensures r.Pass? ==> hash == HashOf(w, t, f)
    ensures Moderate(f) ==> r.Pass?
  {
    r, hash := KexHash(f, w.digest(t));
  }

  /** A side at the start of a group exchange. */
  function Asking(w: World, k: Side, c: Conf): (r: Side) {
    if k.server then k.(phase := AwaitGroup, conf := Some(c))
    else k.(phase := AwaitGroup, conf := Some(c), asked := Want(w, c), sent := k.sent + [GexRequest(Want(w, c))])
  }

  lemma {:induction false} BeginIs(w: World, k: Side, c: Option<Conf>, xs: seq<nat>)
    ensures c.None? ==> Begin(w, k, c, xs) == k.(phase := Dead)
    ensures c.Some? && IsGex(c.value.kex) ==> Begin(w, k, c, xs) == Asking(w, k, c.value)
    ensures c.Some? && !IsGex(c.value.kex) ==>
              Begin(w, k, c, xs) == TakeGroup(w, k.(conf := c, asked := NoAsk), false, Fixed(w, c.value.kex), xs)
  {
  }

  lemma {:induction false} KeyedIs(w: World, k: Side, f: Fields, sid: seq<u8>)
    requires k.conf.Some? && sid == if k.sessionId.None? then HashOf(w, k.conf.value.kex, f) else k.sessionId.value
    ensures Keyed(w, k, f) ==
            k.(phase := AwaitNewKeys, sessionId := Some(sid), sent := k.sent + [NewKeys],
               exchanges := k.exchanges + [Exchange(f, HashOf(w, k.conf.value.kex, f), sid, k.conf.value)])
  {
  }

  /** What a server hashes once it has the client's value, and a client once it has the server's. */
  function ServerFields(w: World, k: Side, pub: nat): (r: Fields)
    requires k.conf.Some? && k.pairs != []
  {
    var p := k.pairs[|k.pairs| - 1];
    FieldsFor(w, k, p.group, HostKey(w, k.conf.value.hostkey), pub, Public(w, p.group, p.secret), Shared(w, p, pub))
  }

  function ClientFields(w: World, k: Side, blob: seq<u8>, pub: nat): (r: Fields)
    requires k.conf.Some? && k.pairs != []
  {
    var p := k.pairs[|k.pairs| - 1];
    FieldsFor(w, k, p.group, blob, Public(w, p.group, p.secret), pub, Shared(w, p, pub))
  }

  /** The server once it has answered. */
  function Answered(w: World, k: Side, f: Fields, blob: seq<u8>, pub: nat): (r: Side)
    requires k.conf.Some?
  {
    var t := k.conf.value.kex;
    var reply := DhReply(IsGex(t), blob, pub, Signature(w, k.conf.value.hostkey, HashOf(w, t, f)));
    Keyed(w, k.(sent := k.sent + [reply]), f)
  }

  lemma {:induction false} ServerIs(w: World, k: Side, p: Pair, pub: nat, f: Fields)
    requires k.conf.Some? && k.pairs != [] && p == k.pairs[|k.pairs| - 1] && f == ServerFields(w, k, pub)
    ensures ServerDh(w, k, pub) ==
            if !ValidPub(w, p, pub) then k.(phase := Dead)
            else Answered(w, k, f, HostKey(w, k.conf.value.hostkey), Public(w, p.group, p.secret))
  {
  }

  lemma {:induction false} ClientIs(w: World, k: Side, p: Pair, blob: seq<u8>, pub: nat, signature: seq<u8>, f: Fields)
    requires k.conf.Some? && k.pairs != [] && p == k.pairs[|k.pairs| - 1] && f == ClientFields(w, k, blob, pub)
    ensures ClientDh(w, k, blob, pub, signature) ==
            if Accepted(w, k.conf.value.hostkey, blob) && ValidPub(w, p, pub) &&
               Verified(w, blob, signature, HashOf(w, k.conf.value.kex, f))
            then Keyed(w, k, f) else k.(phase := Dead)
  {
  }

  /** kex_derive_keys. */
  method Sessions(w: World, e: Exchange, server: bool) returns (inward: Session, outward: Session)
    requires Sound(w) && e.conf.weNeed > 0
    ensures inward == SessionOf(w, e, server, false) && outward == SessionOf(w, e, server, true)
  {
    var s := Secret(w.digest(e.conf.kex), e.fields.shared, e.hash, e.sessionId, w.bugDeriveKey);
    inward, outward := DeriveKeys(s, DigestLen(e.conf.kex), e.conf, server);
  }

  /** Where hashing or deriving may end the process: nothing is needed, or a field is longer than 256 KB. */
  predicate AbortsDh(w: World, k: Side, m: Msg)
    requires k.conf.Some? && k.pairs != []
  {
    k.conf.value.weNeed == 0 ||
    (if k.server then m.DhInit? && !Moderate(ServerFields(w, k, m.pub))
     else m.DhReply? && !Moderate(ClientFields(w, k, m.hostKey, m.pub)))
  }

  /** A KEXINIT that the buffer of struct Kex, or the copy made for parsing, does not take. */
  predicate TooLarge(k: Side, s: Shape, payload: seq<u8>)
    requires s.offset <= s.end
  {
    Refuses(s, |payload|) || |k.peer| + |payload| > BUFFER_MAX_CHUNK || |k.my| > BUFFER_MAX_CHUNK
  }

  /** Where handling a message may end the process: a payload too large for its buffer, or AbortsDh. */
  predicate MayAbort(w: World, k: Side, s: Shape, m: Msg)
    requires Equipped(k) && s.offset <= s.end
  {
    || (k.phase.Idle? && m.KexInit? && TooLarge(k, s, m.payload))
    || (k.phase.AwaitDh? && AbortsDh(w, k.(rcvd := k.rcvd + 1), m))
  }

  lemma {:induction false} GroupIs(w: World, k: Side, m: Msg, cookie: seq<u8>, xs: seq<nat>, rnd: nat)
    requires k.phase.AwaitGroup? && k.conf.Some?
    ensures var n := k.(rcvd := k.rcvd + 1);
            Handle(w, k, m, cookie, xs, rnd) ==
              if k.server && m.GexRequest? then InputRequest(w, n, m.ask, xs, rnd)
              else if !k.server && m.GexGroup? then InputGroup(w, n, m.group, xs)
              else n.(phase := Dead)
  {
  }

  lemma {:induction false} NewKeysIs(w: World, k: Side, m: Msg, cookie: seq<u8>, xs: seq<nat>, rnd: nat)
    requires k.phase.AwaitNewKeys?
    ensures var n := k.(rcvd := k.rcvd + 1);
            Handle(w, k, m, cookie, xs, rnd) == if m.NewKeys? then Finish(n) else n.(phase := Dead)
  {
  }

  lemma {:induction false} DhIs(w: World, k: Side, m: Msg, cookie: seq<u8>, xs: seq<nat>, rnd: nat)
    requires k.phase.AwaitDh? && k.conf.Some? && k.pairs != []
    ensures var n, gex := k.(rcvd := k.rcvd + 1), IsGex(k.conf.value.kex);
            Handle(w, k, m, cookie, xs, rnd) ==
              if n.server && m.DhInit? && m.gex == gex then ServerDh(w, n, m.pub)
              else if !n.server && m.DhReply? && m.gex == gex then ClientDh(w, n, m.hostKey, m.pub, m.signature)
              else n.(phase := Dead)
  {
  }

  class Kex {
    const w: World
    const server: bool
    var phase: Phase
    var initSent: bool
    const my: Buffer
    const peer: Buffer
    var conf: Option<Conf>
    var asked: Ask
    var sessionId: Option<seq<u8>>
    var pairs: seq<Pair>
    var exchanges: seq<Exchange>
    var sent: seq<Msg>
    var rcvd: nat
    var receiving: Option<Session>
    var sending: Option<Session>

    ghost predicate Valid()
      reads this, my, my.buf, peer
    {
      && Sound(w) && Kept(my, peer, Prop(w, server)) && Installed(w, server, exchanges, receiving, sending)
      && (phase.AwaitGroup? ==> conf.Some?) && (phase.AwaitDh? ==> conf.Some? && pairs != [])
    }

    ghost function View(): (k: Side)
      reads this, my, my.buf, peer, peer.buf
      requires Valid()
    {
      Side(server, phase, initSent, my.Contents(), peer.Contents(), conf, asked, sessionId, pairs, exchanges, sent, rcvd)
    }

    constructor (world: World, asServer: bool, mine: Buffer, theirs: Buffer)
      requires Sound(world) && Kept(mine, theirs, Prop(world, asServer)) && theirs.Contents() == []
      ensures Valid() && w == world && my == mine && peer == theirs
      ensures View() == KexRun.Fresh(asServer).(my := mine.Contents())
    {
      w, server, phase, initSent, my, peer := world, asServer, Idle, false, mine, theirs;
      conf, asked, sessionId, pairs, exchanges, sent, rcvd := None, NoAsk, None, [], [], [], 0;
      receiving, sending := None, None;
    }

    /** fatal. */
    method Die()
      requires Valid()
      modifies this`phase
      ensures Valid() && View() == old(View()).(phase := Dead)
    {
      phase := Dead;
    }

    /** kex_send_kexinit. */
    method SendInit(cookie: seq<u8>)
      requires Valid() && |cookie| == KEX_COOKIE_LEN
      modifies this`initSent, this`sent, my.buf
      ensures Valid() && View() == SendKexinit(w, old(View()), cookie)
    {
      if initSent {
        return;
      }
      Stamp(my, cookie);
      BehindCookie(cookie, Prop(w, server));
      sent := sent + [KexInit(my.buf[my.offset..my.end])];
      initSent := true;
    }

    /** The exponent is drawn; the client sends its value. */
    method Commit(gex: bool, p: Pair)
      requires Valid() && conf.Some?
      modifies this`phase, this`pairs, this`sent
      ensures Valid() && View() == Engage(w, old(View()), gex, p)
    {
      AwaitDhWith(p);
      if !server {
        Send(DhInit(gex, Public(w, p.group, p.secret)));
      }
    }

    method AwaitDhWith(p: Pair)
      requires Valid() && conf.Some?
      modifies this`phase, this`pairs
      ensures Valid() && View() == old(View()).(phase := AwaitDh, pairs := old(pairs) + [p])
    {
      pairs := pairs + [p];
      phase := AwaitDh;
    }

    method Send(m: Msg)
      requires Valid()
      modifies this`sent
      ensures Valid() && View() == old(View()).(sent := old(sent) + [m])
    {
      sent := sent + [m];
    }

    /** The group is known: dh_gen_key, and the client's value. */
    method Start(gex: bool, group: Grp, xs: seq<nat>)
      requires Valid() && conf.Some?
      modifies this`phase, this`pairs, this`sent
      ensures Valid() && View() == TakeGroup(w, old(View()), gex, group, xs)
    {
      var key := DhGenKey(w, conf.value.weNeed, group, xs);
      match key
      case TooSmall => Die();
      case GaveUp => phase := Spent;
      case Drawn(x) => Commit(gex, Pair(group, x));
    }

    /** kexgex_client sends its request, and kexgex_server waits for one. */
    method AskGroup(c: Conf)
      requires Valid()
      modifies this`phase, this`conf, this`asked, this`sent
      ensures Valid() && View() == Asking(w, old(View()), c)
    {
      AwaitGroupWith(c);
      if !server {
        SendRequest(Want(w, c));
      }
    }

    method AwaitGroupWith(c: Conf)
      requires Valid()
      modifies this`phase, this`conf
      ensures Valid() && View() == old(View()).(phase := AwaitGroup, conf := Some(c))
    {
      conf := Some(c);
      phase := AwaitGroup;
    }

    method SendRequest(ask: Ask)
      requires Valid()
      modifies this`asked, this`sent
      ensures Valid() && View() == old(View()).(asked := ask, sent := old(sent) + [GexRequest(ask)])
    {
      asked := ask;
      sent := sent + [GexRequest(ask)];
    }

    method SetPlain(c: Conf)
      requires Valid()
      modifies this`conf, this`asked
      ensures Valid() && View() == old(View()).(conf := Some(c), asked := NoAsk)
    {
      conf := Some(c);
      asked := NoAsk;
    }

    /** The function kex_kexinit_finish calls for the method chosen, up to its first wait. */
    method BeginExchange(c: Option<Conf>, xs: seq<nat>)
      requires Valid()
      modifies this`phase, this`conf, this`asked, this`pairs, this`sent
      ensures Valid() && View() == Begin(w, old(View()), c, xs)
    {
      BeginIs(w, View(), c, xs);
      if c.None? {
        Die();
      } else if IsGex(c.value.kex) {
        AskGroup(c.value);
      } else {
        SetPlain(c.value);
        Start(false, Fixed(w, c.value.kex), xs);
      }
    }

    /** kex_choose_conf. */
    method Choose() returns (r: Outcome, c: Option<Conf>)
      requires Valid()
      ensures r.Pass? ==> c == w.choose(server, my.Contents(), peer.Contents())
      ensures r.Fatal? <==> |peer.Contents()| > BUFFER_MAX_CHUNK || |my.Contents()| > BUFFER_MAX_CHUNK
    {
      c := None;
      if peer.Length() > BUFFER_MAX_CHUNK || my.Length() > BUFFER_MAX_CHUNK {
        return Fatal, c;
      }
      c := ChooseFromPayloads(w.build, w.bugHmac, server, my.buf[my.offset..my.end], peer.buf[peer.offset..peer.end]);
      r := Pass;
    }

    /** The peer's payload is kept, and the own KEXINIT sent if it was not. */
    method TakePayload(payload: seq<u8>, cookie: seq<u8>) returns (r: Outcome)
      requires Valid() && |cookie| == KEX_COOKIE_LEN
      modifies this`initSent, this`sent, my.buf, peer, peer.buf
      ensures Valid() && (peer.buf == old(peer.buf) || fresh(peer.buf)) && |my.Contents()| == |old(my.Contents())|
      ensures r.Pass? ==> View() == Prepared(w, old(View()), payload, cookie)
      ensures r.Pass? ==> |peer.Contents()| == |old(peer.Contents())| + |payload|
      ensures r.Fatal? <==> Refuses(old(peer.Dimensions()), |payload|)
    {
      r := peer.Append(payload);
      if r.Pass? {
        SendInit(cookie);
      }
    }

    /** kex_input_kexinit. */
    method InputInit(payload: seq<u8>, cookie: seq<u8>, xs: seq<nat>) returns (r: Outcome)
      requires Valid() && |cookie| == KEX_COOKIE_LEN
      modifies this, my.buf, peer, peer.buf
      ensures Valid() && (peer.buf == old(peer.buf) || fresh(peer.buf))
      ensures r.Pass? ==>
                var b := Prepared(w, old(View()), payload, cookie);
                View() == Begin(w, b, w.choose(b.server, b.my, b.peer), xs)
      ensures r.Fatal? <==> TooLarge(old(View()), old(peer.Dimensions()), payload)
    {
      r := TakePayload(payload, cookie);
      if r.Fatal? {
        return;
      }
      var c;
      r, c := Choose();
      if r.Pass? {
        BeginExchange(c, xs);
      }
    }

    /** kexgex_server after its wait for a request. */
    method InputGexRequest(ask: Ask, xs: seq<nat>, rnd: nat)
      requires Valid() && conf.Some?
      modifies this`phase, this`asked, this`pairs, this`sent
      ensures Valid() && View() == InputRequest(w, old(View()), ask, xs, rnd)
    {
      var c := Clamped(ask);
      var b := BoundsOf(c);
      if ask.NoAsk? || b.max < b.min || b.want < b.min || b.max < b.want {
        Die();
        return;
      }
      var group := PickGroup(w, b, rnd);
      asked := c;
      sent := sent + [GexGroup(group)];
      Start(true, group, xs);
    }

    /** kexgex_client after its wait for a group. */
    method InputGexGroup(group: Grp, xs: seq<nat>)
      requires Valid() && conf.Some?
      modifies this`phase, this`pairs, this`sent
      ensures Valid() && View() == InputGroup(w, old(View()), group, xs)
    {
      if Wire.Bits(group.p) < DH_GRP_MIN || Wire.Bits(group.p) > DH_GRP_MAX {
        Die();
        return;
      }
      Start(true, group, xs);
    }

    method Hold(e: Exchange)
      requires Valid() && e.conf.weNeed > 0
      modifies this`exchanges, this`receiving, this`sending
      ensures Valid() && View() == old(View()).(exchanges := old(exchanges) + [e])
    {
      var inward, outward := Sessions(w, e, server);
      receiving, sending := Some(inward), Some(outward);
      exchanges := exchanges + [e];
    }

    /** The first half of kex_finish. */
    method Announce(sid: seq<u8>)
      requires Valid()
      modifies this`phase, this`sessionId, this`sent
      ensures Valid() && View() == old(View()).(phase := AwaitNewKeys, sessionId := Some(sid), sent := old(sent) + [NewKeys])
    {
      sessionId := Some(sid);
      sent := sent + [NewKeys];
      phase := AwaitNewKeys;
    }

    /** The session id, kex_derive_keys and NEWKEYS. */
    method InstallKeys(f: Fields, hash: seq<u8>) returns (r: Outcome)
      requires Valid() && conf.Some? && hash == HashOf(w, conf.value.kex, f)
      modifies this`phase, this`sessionId, this`sent, this`exchanges, this`receiving, this`sending
      ensures Valid() && (r.Pass? ==> View() == Keyed(w, old(View()), f))
      ensures r.Pass? <==> conf.value.weNeed > 0
    {
      if conf.value.weNeed == 0 {
        return Fatal;
      }
      var sid := if sessionId.None? then hash else sessionId.value;
      KeyedIs(w, View(), f, sid);
      var e := Exchange(f, hash, sid, conf.value);
      Hold(e);
      Announce(sid);
      r := Pass;
    }

    /** What is hashed, taken from the buffers. */
    method Transcribe(group: Grp, hostKey: seq<u8>, clientPub: nat, serverPub: nat, shared: nat) returns (f: Fields)
      requires Valid()
      ensures f == FieldsFor(w, View(), group, hostKey, clientPub, serverPub, shared)
    {
      var mine, theirs := my.buf[my.offset..my.end], peer.buf[peer.offset..peer.end];
      f := Fields(w.clientVersion, w.serverVersion, if server then theirs else mine, if server then mine else theirs,
                  hostKey, GexOf(asked, group), clientPub, serverPub, shared);
    }

    /** The server signs the hash of what it has. */
    method Answer(f: Fields, blob: seq<u8>, pub: nat) returns (r: Outcome)
      requires Valid() && conf.Some?
      modifies this`phase, this`sessionId, this`sent, this`exchanges, this`receiving, this`sending
      ensures Valid()
      ensures r.Pass? ==> View() == Answered(w, old(View()), f, blob, pub)
      ensures conf.value.weNeed > 0 && Moderate(f) ==> r.Pass?
    {
      var t, hash := conf.value.kex, [];
      r, hash := HashFields(w, t, f);
      if r.Fatal? {
        return;
      }
      sent := sent + [DhReply(IsGex(t), blob, pub, Signature(w, conf.value.hostkey, hash))];
      r := InstallKeys(f, hash);
    }

    /** kexdh_server and kexgex_server after their wait. */
    method InputDhInit(clientPub: nat) returns (r: Outcome)
      requires Valid() && conf.Some? && pairs != []
      modifies this
      ensures Valid()
      ensures r.Pass? ==> View() == ServerDh(w, old(View()), clientPub)
      ensures old(conf).value.weNeed > 0 && Moderate(ServerFields(w, old(View()), clientPub)) ==> r.Pass?
    {
      var p := pairs[|pairs| - 1];
      var blob, pub := HostKey(w, conf.value.hostkey), Public(w, p.group, p.secret);
      var f := Transcribe(p.group, blob, clientPub, pub, Shared(w, p, clientPub));
      ServerIs(w, View(), p, clientPub, f);
      if !ValidPub(w, p, clientPub) {
        Die();
        return Pass;
      }
      r := Answer(f, blob, pub);
    }

    /** The client hashes what it has and checks the signature. */
    method Verify(f: Fields, hostKey: seq<u8>, signature: seq<u8>) returns (r: Outcome)
      requires Valid() && conf.Some?
      modifies this`phase, this`sessionId, this`sent, this`exchanges, this`receiving, this`sending
      ensures Valid()
      ensures r.Pass? ==>
                View() == if Verified(w, hostKey, signature, HashOf(w, conf.value.kex, f)) then Keyed(w, old(View()), f)
                          else old(View()).(phase := Dead)
      ensures conf.value.weNeed > 0 && Moderate(f) ==> r.Pass?
    {
      var hash;
      r, hash := HashFields(w, conf.value.kex, f);
      if r.Fatal? {
        return;
      }
      if !Verified(w, hostKey, signature, hash) {
        Die();
        return;
      }
      r := InstallKeys(f, hash);
    }

    /** kexdh_client and kexgex_client after their wait. */
    method InputDhReply(hostKey: seq<u8>, serverPub: nat, signature: seq<u8>) returns (r: Outcome)
      requires Valid() && conf.Some? && pairs != []
      modifies this
      ensures Valid()
      ensures r.Pass? ==> View() == ClientDh(w, old(View()), hostKey, serverPub, signature)
      ensures old(conf).value.weNeed > 0 && Moderate(ClientFields(w, old(View()), hostKey, serverPub)) ==> r.Pass?
    {
      var p := pairs[|pairs| - 1];
      var f := Transcribe(p.group, hostKey, Public(w, p.group, p.secret), serverPub, Shared(w, p, serverPub));
      ClientIs(w, View(), p, hostKey, serverPub, signature, f);
      if !Accepted(w, conf.value.hostkey, hostKey) || !ValidPub(w, p, serverPub) {
        Die();
        return Pass;
      }
      r := Verify(f, hostKey, signature);
    }

    /** The end of kex_finish. */
    method InputNewkeys()
      requires Valid()
      modifies this`phase, this`initSent, this`conf, peer
      ensures Valid() && peer.buf == old(peer.buf) && View() == Finish(old(View()))
    {
      peer.Clear();
      initSent := false;
      conf := None;
      phase := Idle;
    }

    /** The message a waiting side reads, or the dispatcher hands out. */
    method Receive(m: Msg, cookie: seq<u8>, xs: seq<nat>, rnd: nat) returns (r: Outcome)
      requires Valid() && |cookie| == KEX_COOKIE_LEN
      modifies this, my.buf, peer, peer.buf
      ensures Valid() && (peer.buf == old(peer.buf) || fresh(peer.buf))
      ensures r.Pass? ==> View() == Handle(w, old(View()), m, cookie, xs, rnd)
      ensures r.Fatal? ==> MayAbort(w, old(View()), old(peer.Dimensions()), m)
    {
      ghost var k := View();
      Count();
      if phase.Idle? || phase.AwaitGroup? {
        r := ReceiveEarly(m, cookie, xs, rnd, k);
      } else {
        r := ReceiveLate(m, cookie, xs, rnd, k);
      }
    }

    /** Before the exponents are drawn. */
    method ReceiveEarly(m: Msg, cookie: seq<u8>, xs: seq<nat>, rnd: nat, ghost k: Side) returns (r: Outcome)
      requires Valid() && |cookie| == KEX_COOKIE_LEN && Equipped(k) && View() == k.(rcvd := k.rcvd + 1)
      requires k.phase.Idle? || k.phase.AwaitGroup?
      modifies this, my.buf, peer, peer.buf
      ensures Valid() && (peer.buf == old(peer.buf) || fresh(peer.buf))
      ensures r.Pass? ==> View() == Handle(w, k, m, cookie, xs, rnd)
      ensures r.Fatal? ==> MayAbort(w, k, old(peer.Dimensions()), m)
    {
      if phase.Idle? {
        IdleIs(w, k, View(), m, cookie, xs, rnd);
        r := ReceiveBetween(m, cookie, xs);
      } else {
        GroupIs(w, k, m, cookie, xs, rnd);
        r := ReceiveGroup(m, xs, rnd, Handle(w, k, m, cookie, xs, rnd));
      }
    }

    /** With the exponents drawn, or after the end. */
    method ReceiveLate(m: Msg, ghost cookie: seq<u8>, ghost xs: seq<nat>, ghost rnd: nat, ghost k: Side) returns (r: Outcome)
      requires Valid() && Equipped(k) && View() == k.(rcvd := k.rcvd + 1) && !k.phase.Idle? && !k.phase.AwaitGroup?
      modifies this, peer
      ensures Valid() && peer.buf == old(peer.buf)
      ensures r.Pass? ==> View() == Handle(w, k, m, cookie, xs, rnd)
      ensures r.Fatal? ==> MayAbort(w, k, old(peer.Dimensions()), m)
    {
      r := Pass;
      if phase.AwaitDh? {
        DhIs(w, k, m, cookie, xs, rnd);
        r := ReceiveDh(m, Handle(w, k, m, cookie, xs, rnd));
      } else if phase.AwaitNewKeys? {
        NewKeysIs(w, k, m, cookie, xs, rnd);
        r := ReceiveNewkeys(m);
      }
    }

    method Count()
      requires Valid()
      modifies this`rcvd
      ensures Valid() && View() == old(View()).(rcvd := old(rcvd) + 1)
    {
      rcvd := rcvd + 1;
    }

    /** The dispatcher between two exchanges. */
    method ReceiveBetween(m: Msg, cookie: seq<u8>, xs: seq<nat>) returns (r: Outcome)
      requires Valid() && |cookie| == KEX_COOKIE_LEN
      modifies this, my.buf, peer, peer.buf
      ensures Valid() && (peer.buf == old(peer.buf) || fresh(peer.buf))
      ensures r.Pass? ==> View() == HandleIdle(w, old(View()), m, cookie, xs)
      ensures r.Fatal? ==> m.KexInit? && TooLarge(old(View()), old(peer.Dimensions()), m.payload)
    {
      r := Pass;
      if m.KexInit? {
        ghost var b := Prepared(w, View(), m.payload, cookie);
        OfferIs(w, View(), b, m, cookie, xs, w.choose(b.server, b.my, b.peer));
        r := InputInit(m.payload, cookie, xs);
      }
    }

    /** packet_read_expect, or packet_read for a request. */
    method ReceiveGroup(m: Msg, xs: seq<nat>, rnd: nat, ghost l: Side) returns (r: Outcome)
      requires Valid() && conf.Some?
      requires l == if server && m.GexRequest? then InputRequest(w, View(), m.ask, xs, rnd)
                    else if !server && m.GexGroup? then InputGroup(w, View(), m.group, xs)
                    else View().(phase := Dead)
      modifies this`phase, this`asked, this`pairs, this`sent
      ensures Valid() && r.Pass? && View() == l
    {
      if server && m.GexRequest? {
        InputGexRequest(m.ask, xs, rnd);
      } else if !server && m.GexGroup? {
        InputGexGroup(m.group, xs);
      } else {
        Die();
      }
      r := Pass;
    }

    method ReceiveNewkeys(m: Msg) returns (r: Outcome)
      requires Valid()
      modifies this`phase, this`initSent, this`conf, peer
      ensures Valid() && r.Pass? && peer.buf == old(peer.buf)
      ensures View() == if m.NewKeys? then Finish(old(View())) else old(View()).(phase := Dead)
    {
      if m.NewKeys? {
        InputNewkeys();
      } else {
        Die();
      }
      r := Pass;
    }

    method ReceiveDh(m: Msg, ghost l: Side) returns (r: Outcome)
      requires Valid() && conf.Some? && pairs != []
      requires l == var gex := IsGex(conf.value.kex);
                    if server && m.DhInit? && m.gex == gex then ServerDh(w, View(), m.pub)
                    else if !server && m.DhReply? && m.gex == gex then ClientDh(w, View(), m.hostKey, m.pub, m.signature)
                    else View().(phase := Dead)
      modifies this
      ensures Valid()
      ensures r.Pass? ==> View() == l
      ensures r.Fatal? ==> AbortsDh(w, old(View()), m)
    {
      var gex := IsGex(conf.value.kex);
      if server && m.DhInit? && m.gex == gex {
        r := InputDhInit(m.pub);
      } else if !server && m.DhReply? && m.gex == gex {
        r := InputDhReply(m.hostKey, m.pub, m.signature);
      } else {
        Die();
        r := Pass;
      }
    }
  }

  /** kex_setup. */
  method Setup(w: World, server: bool, cookie: seq<u8>) returns (r: Outcome, k: Kex?)
    requires |Prop(w, server)| == PROPOSAL_MAX && Sound(w) && |cookie| == KEX_COOKIE_LEN
    ensures r.Pass? <==> k != null
    ensures r.Pass? ==> fresh({k, k.my, k.my.buf, k.peer, k.peer.buf})
    ensures r.Pass? ==> k.Valid() && k.w == w && k.View() == SendKexinit(w, KexRun.Fresh(server), cookie)
    ensures (forall p :: p in Prop(w, server) ==> Fits(p)) ==> r.Pass?
  {
    k := null;
    var mine;
    r, mine := PropToBuf(NO_COOKIE, Prop(w, server));
    if r.Fatal? {
      return;
    }
    BehindCookie(NO_COOKIE, Prop(w, server));
    var theirs := new Buffer();
    k := new Kex(w, server, mine, theirs);
    k.SendInit(cookie);
    BehindCookie(cookie, Prop(w, server));
  }
}
