/** The SOCKS decoder for dynamic forwarding in channels.c, fed with any fragments of a stream. */
module Socks {
  import opened Bytes
  import opened Wire
  import opened KeyBlob

  datatype Dest = Ip4(addr: seq<u8>) | Domain(name: seq<u8>) | Ip6(addr: seq<u8>)

  /** What a decoder returns, and how many octets of the input it has consumed. */
  datatype Answer =
    | More
    | Bad(used: nat)
    | Greeted(used: nat)
    | Granted(used: nat, dest: Dest, port: nat, reply: seq<u8>)

  const USER_LIMIT: nat := 1024
  const SOCKS4_REPLY: seq<u8> := [0, 90, 0, 0, 0, 0, 0, 0]
  const SOCKS5_REPLY: seq<u8> := [5, 0, 0, 1, 0, 0, 0, 0, 0, 0]
  const NOAUTH_REPLY: seq<u8> := [5, 0]

  /** The first NUL at or behind position i, or the length. */
  function NulFrom(p: seq<u8>, i: nat): (r: nat)
    requires i <= |p|
    ensures i <= r <= |p|
    ensures forall j: nat :: i <= j < r ==> p[j] != 0
    ensures r < |p| ==> p[r] == 0
    decreases |p| - i
  {
    if i == |p| || p[i] == 0 then i else NulFrom(p, i + 1)
  }

  /** channel_decode_socks4. */
  function Socks4(p: seq<u8>): (r: Answer)
    ensures r.Bad? || r.Granted? ==> r.used <= |p|
    ensures !r.Greeted?
  {
    if |p| < 8 then More
    else
      var n := NulFrom(p, 8);
      if n > USER_LIMIT + 1 then Bad(0)
      else if n == |p| then More
      else if p[1] != 1 then Bad(n + 1)
      else Granted(n + 1, Ip4(p[4..8]), Value(p[2..4]), SOCKS4_REPLY)
  }

  /** The greeting part of channel_decode_socks5. */
  function Greeting(p: seq<u8>): (r: Answer)
    requires |p| >= 2
    ensures r.Bad? || r.Greeted? ==> r.used <= |p|
    ensures !r.Granted?
  {
    var n := p[1] as nat;
    if |p| < n + 2 then More
    else if 0 !in p[2..n + 2] then Bad(0)
    else Greeted(n + 2)
  }

  function AddrLen(p: seq<u8>): (r: nat)
    requires |p| >= 5 && p[3] in {1, 3, 4}
  {
    if p[3] == 1 then 4 else if p[3] == 3 then p[4] as nat else 16
  }

  /** The request part of channel_decode_socks5. */
  function Request(p: seq<u8>): (r: Answer)
    ensures r.Bad? || r.Granted? ==> r.used <= |p|
    ensures !r.Greeted?
  {
    if |p| < 5 then More
    else if p[0] != 5 || p[1] != 1 || p[2] != 0 || p[3] !in {1, 3, 4} then Bad(0)
    else
      var addrlen, head := AddrLen(p), if p[3] == 3 then 5 else 4;
      var need := head + addrlen + 2;
      if |p| < need then More
      else
        var a := p[head..head + addrlen];
        Granted(need, if p[3] == 1 then Ip4(a) else if p[3] == 3 then Domain(CString(a)) else Ip6(a),
                Value(p[head + addrlen..need]), SOCKS5_REPLY)
  }

  /** The choice of channel_pre_dynamic, made anew on every call. */
  function Decode(p: seq<u8>, authDone: bool): (r: Answer)
    ensures !r.More? ==> r.used <= |p|
    ensures r.Greeted? ==> !authDone
  {
    if |p| < 3 then More
    else if p[0] == 4 then Socks4(p)
    else if p[0] == 5 then if authDone then Request(p) else Greeting(p)
    else Bad(0)
  }

  datatype Verdict = Pending | Dead | Open(dest: Dest, port: nat)

  datatype Dyn = Dyn(input: seq<u8>, authDone: bool, output: seq<u8>, verdict: Verdict)

  const START: Dyn := Dyn([], false, [], Pending)

  /** What a decoder does to the buffers. */
  function Applied(s: Dyn, a: Answer): (r: Dyn)
    requires !a.More? ==> a.used <= |s.input|
  {
    match a
    case More => s
    case Bad(u) => s.(input := s.input[u..])
    case Greeted(u) => s.(input := s.input[u..], authDone := true, output := s.output + NOAUTH_REPLY)
    case Granted(u, _, _, reply) => s.(input := s.input[u..], output := s.output + reply)
  }

  function VerdictOf(a: Answer): (r: Verdict) {
    match a
    case More => Pending
    case Greeted(_) => Pending
    case Bad(_) => Dead
    case Granted(_, d, port, _) => Open(d, port)
  }

  /** One call of channel_pre_dynamic; it is not called again once the channel is opening or dead. */
  function Round(s: Dyn): (r: Dyn) {
    if !s.verdict.Pending? then s
    else
      var a := Decode(s.input, s.authDone);
      Applied(s, a).(verdict := VerdictOf(a))
  }

  function Feed(s: Dyn, d: seq<u8>): (r: Dyn) { s.(input := s.input + d) }

  /** The octets arrive in fragments, with a call after each. */
  function Run(s: Dyn, ds: seq<seq<u8>>): (r: Dyn)
    decreases |ds|
  {
    if ds == [] then s else Run(Round(Feed(s, ds[0])), ds[1..])
  }

  function Flatten(ds: seq<seq<u8>>): (r: seq<u8>) {
    if ds == [] then [] else ds[0] + Flatten(ds[1..])
  }

  /** Two calls settle what the octets at hand can settle. */
  function Settle(s: Dyn): (r: Dyn) { Round(Round(s)) }

  // ---- fragmentation ----

  lemma {:induction false} NulStable(p: seq<u8>, q: seq<u8>, i: nat)
    requires i <= |p|
    ensures NulFrom(p, i) < |p| ==> NulFrom(p + q, i) == NulFrom(p, i)
    ensures NulFrom(p + q, i) >= NulFrom(p, i)
  {
    assert forall j: nat :: j < |p| ==> (p + q)[j] == p[j];
  }

  lemma {:induction false} Socks4Stable(p: seq<u8>, q: seq<u8>)
    requires !Socks4(p).More?
    ensures Socks4(p + q) == Socks4(p)
  {
    NulStable(p, q, 8);
    assert (p + q)[4..8] == p[4..8] && (p + q)[2..4] == p[2..4] && (p + q)[1] == p[1];
  }

  lemma {:induction false} GreetingStable(p: seq<u8>, q: seq<u8>)
    requires |p| >= 2 && !Greeting(p).More?
    ensures Greeting(p + q) == Greeting(p)
  {
    var n := p[1] as nat;
    assert (p + q)[1] == p[1] && (p + q)[2..n + 2] == p[2..n + 2];
  }

  lemma {:induction false} RequestStable(p: seq<u8>, q: seq<u8>)
    requires !Request(p).More?
    ensures Request(p + q) == Request(p)
  {
    var s := p + q;
    assert s[0] == p[0] && s[1] == p[1] && s[2] == p[2] && s[3] == p[3] && s[4] == p[4];
    if Request(p).Granted? {
      var addrlen, head := AddrLen(p), if p[3] == 3 then 5 else 4;
      SliceStable(p, q, head, head + addrlen);
      SliceStable(p, q, head + addrlen, head + addrlen + 2);
    }
  }

  lemma {:induction false} SliceStable(p: seq<u8>, q: seq<u8>, i: nat, j: nat)
    requires i <= j <= |p|
    ensures (p + q)[i..j] == p[i..j]
  {
  }

  /** A verdict on a beginning of the stream is the verdict on every extension. */
  lemma {:induction false} VerdictStable(p: seq<u8>, q: seq<u8>, authDone: bool)
    requires !Decode(p, authDone).More?
    ensures Decode(p + q, authDone) == Decode(p, authDone)
  {
    assert (p + q)[0] == p[0];
    if p[0] == 4 {
      Socks4Stable(p, q);
    } else if p[0] == 5 {
      if authDone {
        RequestStable(p, q);
      } else {
        GreetingStable(p, q);
      }
    }
  }

  lemma {:induction false} RoundThenFeed(s: Dyn, d: seq<u8>)
    ensures Round(s) == s || Round(Feed(s, d)) == Feed(Round(s), d)
  {
    var a := Decode(s.input, s.authDone);
    if s.verdict.Pending? && !a.More? {
      VerdictStable(s.input, d, s.authDone);
      assert (s.input + d)[a.used..] == s.input[a.used..] + d;
    }
  }

  /** There is nothing left to settle after two calls. */
  lemma {:induction false} Settled(s: Dyn)
    ensures Round(Settle(s)) == Settle(s)
    ensures s.authDone || !s.verdict.Pending? ==> Round(Round(s)) == Round(s)
  {
  }

  lemma {:induction false} CallEarly(s: Dyn, d: seq<u8>)
    ensures Settle(Feed(Round(s), d)) == Settle(Feed(s, d))
  {
    RoundThenFeed(s, d);
    if Round(s) != s {
      Settled(Feed(Round(s), d));
    }
  }

  lemma {:induction false} FragmentsFrom(s: Dyn, ds: seq<seq<u8>>)
    ensures Settle(Run(s, ds)) == Settle(Feed(s, Flatten(ds)))
    decreases |ds|
  {
    if ds == [] {
      assert Feed(s, []) == s;
    } else {
      FragmentsFrom(Round(Feed(s, ds[0])), ds[1..]);
      CallEarly(Feed(s, ds[0]), Flatten(ds[1..]));
      assert Feed(Feed(s, ds[0]), Flatten(ds[1..])) == Feed(s, Flatten(ds));
    }
  }

  /** However the stream is cut, and whenever the decoder runs, the outcome is the same. */
  lemma {:induction false} FragmentationIsIrrelevant(ds: seq<seq<u8>>, es: seq<seq<u8>>)
    requires Flatten(ds) == Flatten(es)
    ensures Settle(Run(START, ds)) == Settle(Run(START, es))
  {
    FragmentsFrom(START, ds);
    FragmentsFrom(START, es);
  }

  /** A channel without a verdict has consumed nothing of the stream but a complete greeting. */
  ghost predicate Accounts(t: Dyn, stream: seq<u8>) {
    t.verdict.Pending? ==>
      if t.authDone then
        var g := Decode(stream, false);
        g.Greeted? && t.input == stream[g.used..] && t.output == NOAUTH_REPLY
      else t.input == stream && t.output == []
  }

  lemma {:induction false} FeedAccounts(s: Dyn, stream: seq<u8>, d: seq<u8>)
    requires Accounts(s, stream)
    ensures Accounts(Feed(s, d), stream + d)
  {
    if s.verdict.Pending? && s.authDone {
      VerdictStable(stream, d, false);
      assert (stream + d)[Decode(stream, false).used..] == stream[Decode(stream, false).used..] + d;
    }
  }

  lemma {:induction false} Consumed(s: Dyn, ds: seq<seq<u8>>, stream: seq<u8>)
    requires Accounts(s, stream)
    ensures Accounts(Run(s, ds), stream + Flatten(ds))
    decreases |ds|
  {
    if ds == [] {
      assert stream + [] == stream;
    } else {
      FeedAccounts(s, stream, ds[0]);
      var t := Feed(s, ds[0]);
      assert Accounts(Round(t), stream + ds[0]);
      Consumed(Round(t), ds[1..], stream + ds[0]);
      assert stream + ds[0] + Flatten(ds[1..]) == stream + Flatten(ds);
    }
  }

  lemma {:induction false} PendingConsumesNothing(ds: seq<seq<u8>>)
    ensures Accounts(Run(START, ds), Flatten(ds))
  {
    Consumed(START, ds, []);
    assert [] + Flatten(ds) == Flatten(ds);
  }

  // ---- requests as clients write them ----

  /** A SOCKS4 CONNECT. */
  function Enc4(addr: seq<u8>, port: nat, user: seq<u8>): (r: seq<u8>)
    requires |addr| == 4
  {
    [4, 1] + PutU16(port) + addr + user + [0]
  }

  /** Section 3 of RFC 1928. */
  function EncGreeting(methods: seq<u8>): (r: seq<u8>)
    requires |methods| < 256
  {
    [5, |methods| as u8] + methods
  }

  predicate WellFormed(d: Dest) {
    match d
    case Ip4(a) => |a| == 4
    case Domain(n) => |n| < 256 && 0 !in n
    case Ip6(a) => |a| == 16
  }

  /** Section 4 of RFC 1928, CONNECT. */
  function Enc5(d: Dest, port: nat): (r: seq<u8>)
    requires WellFormed(d)
  {
    match d
    case Ip4(a) => [5, 1, 0, 1] + a + PutU16(port)
    case Domain(n) => [5, 1, 0, 3, |n| as u8] + n + PutU16(port)
    case Ip6(a) => [5, 1, 0, 4] + a + PutU16(port)
  }

  /** A granted SOCKS4 request consumes exactly its own octets; it is refused only for a long user name. */
  lemma {:induction false} Socks4Exact(addr: seq<u8>, port: nat, user: seq<u8>, rest: seq<u8>, authDone: bool)
    requires |addr| == 4 && port < 0x1_0000 && 0 !in user
    ensures Decode(Enc4(addr, port, user) + rest, authDone) ==
              if |user| <= USER_LIMIT - 7 then Granted(|Enc4(addr, port, user)|, Ip4(addr), port, SOCKS4_REPLY) else Bad(0)
  {
    var p := Enc4(addr, port, user) + rest;
    assert forall j: nat :: j < |user| ==> p[8 + j] == user[j];
    assert p[8 + |user|] == 0;
    assert NulFrom(p, 8) == 8 + |user|;
    assert p[4..8] == addr && p[2..4] == PutU16(port);
    PutGetU16(port);
  }

  lemma {:induction false} GreetingExact(methods: seq<u8>, rest: seq<u8>)
    requires |methods| < 256 && |methods| + |rest| > 0
    ensures Decode(EncGreeting(methods) + rest, false) == if 0 in methods then Greeted(|EncGreeting(methods)|) else Bad(0)
  {
    var p := EncGreeting(methods) + rest;
    assert p[2..|methods| + 2] == methods;
  }

  lemma {:induction false} RequestExact(d: Dest, port: nat, rest: seq<u8>)
    requires WellFormed(d) && port < 0x1_0000
    ensures Decode(Enc5(d, port) + rest, true) == Granted(|Enc5(d, port)|, d, port, SOCKS5_REPLY)
  {
    var p := Enc5(d, port) + rest;
    PutGetU16(port);
    match d
    case Ip4(a) => assert p[4..8] == a && p[8..10] == PutU16(port);
    case Domain(n) =>
      NoZeros(n);
      assert p[5..5 + |n|] == n && p[5 + |n|..7 + |n|] == PutU16(port);
    case Ip6(a) => assert p[4..20] == a && p[20..22] == PutU16(port);
  }

  lemma {:induction false} RoundIs(s: Dyn, a: Answer)
    requires s.verdict.Pending? && a == Decode(s.input, s.authDone)
    ensures Round(s) == Applied(s, a).(verdict := VerdictOf(a))
  {
  }

  lemma {:induction false} GreetedThenGranted(g: seq<u8>, r: seq<u8>, payload: seq<u8>, d: Dest, port: nat, reply: seq<u8>)
    requires Decode(g + (r + payload), false) == Greeted(|g|)
    requires Decode(r + payload, true) == Granted(|r|, d, port, reply)
    ensures Settle(Feed(START, g + r + payload)) == Dyn(payload, true, NOAUTH_REPLY + reply, Open(d, port))
  {
    var s, rest := Feed(START, g + r + payload), r + payload;
    Dropped(g, rest);
    Dropped(r, payload);
    Together(g, r, payload);
    RoundGreets(s, g, rest);
    RoundGrants(Dyn(rest, true, NOAUTH_REPLY, Pending), r, payload, d, port, reply);
  }

  lemma {:induction false} Dropped(a: seq<u8>, b: seq<u8>)
    ensures (a + b)[|a|..] == b
  {
  }

  lemma {:induction false} Together(a: seq<u8>, b: seq<u8>, c: seq<u8>)
    ensures START.input + (a + b + c) == a + (b + c)
  {
  }

  lemma {:induction false} RoundGreets(s: Dyn, g: seq<u8>, rest: seq<u8>)
    requires s == START.(input := g + rest) && (g + rest)[|g|..] == rest && Decode(g + rest, false) == Greeted(|g|)
    ensures Round(s) == Dyn(rest, true, NOAUTH_REPLY, Pending)
  {
    RoundIs(s, Greeted(|g|));
    assert START.output + NOAUTH_REPLY == NOAUTH_REPLY;
  }

  lemma {:induction false} RoundGrants(t: Dyn, r: seq<u8>, payload: seq<u8>, d: Dest, port: nat, reply: seq<u8>)
    requires t == Dyn(r + payload, true, NOAUTH_REPLY, Pending) && (r + payload)[|r|..] == payload
    requires Decode(r + payload, true) == Granted(|r|, d, port, reply)
    ensures Round(t) == Dyn(payload, true, NOAUTH_REPLY + reply, Open(d, port))
  {
    RoundIs(t, Granted(|r|, d, port, reply));
  }

  /**
   A client that offers no-authentication and asks for a connection gets it, however its
   octets are cut, and everything behind the request is left for the connection.
   */
  lemma {:induction false} Socks5Grants(methods: seq<u8>, d: Dest, port: nat, payload: seq<u8>, ds: seq<seq<u8>>)
    requires |methods| < 256 && 0 in methods && WellFormed(d) && port < 0x1_0000
    requires Flatten(ds) == EncGreeting(methods) + Enc5(d, port) + payload
    ensures Settle(Run(START, ds)) == Dyn(payload, true, NOAUTH_REPLY + SOCKS5_REPLY, Open(d, port))
  {
    FragmentsFrom(START, ds);
    GreetingExact(methods, Enc5(d, port) + payload);
    RequestExact(d, port, payload);
    GreetedThenGranted(EncGreeting(methods), Enc5(d, port), payload, d, port, SOCKS5_REPLY);
  }

  /** The version octet is looked at again after the greeting, so a SOCKS4 request is granted there too. */
  lemma {:induction false} Socks4AfterGreeting(methods: seq<u8>, addr: seq<u8>, port: nat, user: seq<u8>, payload: seq<u8>)
    requires |methods| < 256 && 0 in methods && |addr| == 4 && port < 0x1_0000 && 0 !in user && |user| <= USER_LIMIT - 7
    ensures Settle(Feed(START, EncGreeting(methods) + Enc4(addr, port, user) + payload)) ==
              Dyn(payload, true, NOAUTH_REPLY + SOCKS4_REPLY, Open(Ip4(addr), port))
  {
    GreetingExact(methods, Enc4(addr, port, user) + payload);
    Socks4Exact(addr, port, user, payload, true);
    GreetedThenGranted(EncGreeting(methods), Enc4(addr, port, user), payload, Ip4(addr), port, SOCKS4_REPLY);
  }
}
