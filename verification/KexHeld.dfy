/** Two structures that talk to each other: what they hold is what the agreement of the two ends says. */
module KexHeld {
  import opened Bytes
  import opened SshBuffer
  import opened KexProposal
  import opened KexRun
  import opened KexAgreement
  import opened KexTheorems
  import opened KexRoom
  import opened KexObject

  /**
   After as many exchanges, each structure holds for sending the keys, the IV and the algorithms that
   the other holds for receiving.
   */
  ghost predicate KeysMeet(c: Kex, s: Kex)
    reads c, s
  {
    |c.exchanges| == |s.exchanges| > 0 ==>
      && c.sending == s.receiving && c.receiving == s.sending && c.sending.Some?
      && c.sessionId == s.sessionId && c.sessionId.Some?
  }

  lemma {:induction false} HeldKeysMeet(d: Deal, c: Kex, s: Kex, n: Net)
    requires Honest(d) && Settled(d) && c.Valid() && s.Valid() && c.w == s.w == d.w && !c.server && s.server
    requires n == Net(c.View(), s.View()) && Reachable(d.w, n)
    ensures KeysMeet(c, s)
  {
    if |c.exchanges| == |s.exchanges| > 0 {
      var m := |c.exchanges| - 1;
      SessionsMeet(d, n, m, c.exchanges[m], s.exchanges[m]);
    }
  }

  /** The two share nothing. */
  ghost predicate Apart(c: Kex, s: Kex)
    reads c, s, c.my, c.peer, s.my, s.peer
  {
    && c != s && c.my != s.my && c.my != s.peer && c.peer != s.my && c.peer != s.peer
    && c.my.buf != s.my.buf && c.my.buf != s.peer.buf && c.peer.buf != s.my.buf && c.peer.buf != s.peer.buf
  }

  /** Two structures in a state that some run of the machine reaches. */
  ghost predicate Talking(w: World, c: Kex, s: Kex)
    reads c, c.my, c.my.buf, c.peer, c.peer.buf, s, s.my, s.my.buf, s.peer, s.peer.buf
  {
    && Apart(c, s) && c.Valid() && s.Valid() && c.w == s.w == w && !c.server && s.server
    && Reachable(w, Net(c.View(), s.View()))
  }

  /** Whether event `e` can happen at a side that has `inbox` to read. */
  predicate CanAct(k: Side, inbox: seq<Msg>, e: Event) {
    |e.cookie| == KEX_COOKIE_LEN && if e.Rekey? then k.phase.Idle? else k.rcvd < |inbox| && !k.phase.Dead? && Equipped(k)
  }

  /** The side after it. */
  function Acted(w: World, k: Side, inbox: seq<Msg>, e: Event): Side
    requires CanAct(k, inbox, e)
  {
    if e.Rekey? then SendKexinit(w, k, e.cookie) else Handle(w, k, inbox[k.rcvd], e.cookie, e.draws, e.rnd)
  }

  /** The client's step, as an event of the machine. */
  lemma {:induction false} ClientEvent(w: World, n: Net, t: Net, e: Event, l: Side)
    requires Reachable(w, n) && Lucky(n) && !e.server && t == n.(c := l) && !l.phase.Spent?
    requires CanAct(n.c, n.s.sent, e) && l == Acted(w, n.c, n.s.sent, e)
    ensures Reachable(w, t)
  {
    ReachesOn(w, n, e, t);
  }

  lemma {:induction false} ServerEvent(w: World, n: Net, t: Net, e: Event, l: Side)
    requires Reachable(w, n) && Lucky(n) && e.server && t == n.(s := l) && !l.phase.Spent?
    requires CanAct(n.s, n.c.sent, e) && l == Acted(w, n.s, n.c.sent, e)
    ensures Reachable(w, t)
  {
    ReachesOn(w, n, e, t);
  }

  /** One structure by itself. */
  method ActAlone(k: Kex, inbox: seq<Msg>, e: Event) returns (r: Outcome)
    requires k.Valid() && CanAct(k.View(), inbox, e)
    modifies k, k.my.buf, k.peer, k.peer.buf
    ensures k.Valid() && (k.peer.buf == old(k.peer.buf) || fresh(k.peer.buf))
    ensures r.Pass? ==> k.View() == Acted(k.w, old(k.View()), inbox, e)
  {
    r := Pass;
    if e.Rekey? {
      k.SendInit(e.cookie);
    } else {
      r := k.Receive(inbox[k.rcvd], e.cookie, e.draws, e.rnd);
    }
  }

  /** The client asks for new keys, or handles the next message of the server; where it cannot, nothing happens. */
  method ClientActs(w: World, c: Kex, s: Kex, e: Event) returns (r: Outcome)
    requires Talking(w, c, s) && !s.phase.Spent? && !e.server
    modifies c, c.my.buf, c.peer, c.peer.buf
    ensures r.Pass? ==> Talking(w, c, s) && !c.phase.Spent?
    ensures c.peer.buf == old(c.peer.buf) || fresh(c.peer.buf)
  {
    r := Pass;
    if c.phase.Spent? {
      return Fatal;
    }
    if |e.cookie| != KEX_COOKIE_LEN || (if e.Rekey? then !c.phase.Idle? else c.rcvd >= |s.sent| || c.phase.Dead?) {
      return;
    }
    ghost var n := Net(c.View(), s.View());
    r := ActAlone(c, s.sent, e);
    if r.Fatal? || c.phase.Spent? {
      return Fatal;
    }
    ClientEvent(w, n, Net(c.View(), s.View()), e, c.View());
  }

  /** The same for the server. */
  method ServerActs(w: World, c: Kex, s: Kex, e: Event) returns (r: Outcome)
    requires Talking(w, c, s) && !c.phase.Spent? && e.server
    modifies s, s.my.buf, s.peer, s.peer.buf
    ensures r.Pass? ==> Talking(w, c, s) && !s.phase.Spent?
    ensures s.peer.buf == old(s.peer.buf) || fresh(s.peer.buf)
  {
    r := Pass;
    if s.phase.Spent? {
      return Fatal;
    }
    if |e.cookie| != KEX_COOKIE_LEN || (if e.Rekey? then !s.phase.Idle? else s.rcvd >= |c.sent| || s.phase.Dead?) {
      return;
    }
    ghost var n := Net(c.View(), s.View());
    r := ActAlone(s, c.sent, e);
    if r.Fatal? || s.phase.Spent? {
      return Fatal;
    }
    ServerEvent(w, n, Net(c.View(), s.View()), e, s.View());
  }

  lemma {:induction false} BothSetUp(w: World, cc: seq<u8>, cs: seq<u8>)
    requires |cc| == KEX_COOKIE_LEN && |cs| == KEX_COOKIE_LEN
    ensures Reachable(w, Net(SendKexinit(w, KexRun.Fresh(false), cc), SendKexinit(w, KexRun.Fresh(true), cs)))
  {
    assert IsRun(w, START, []) && After(w, START, []) == START;
    var n := START.(c := SendKexinit(w, KexRun.Fresh(false), cc));
    ClientEvent(w, START, n, Rekey(false, cc), n.c);
    ServerEvent(w, n, n.(s := SendKexinit(w, KexRun.Fresh(true), cs)), Rekey(true, cs), SendKexinit(w, KexRun.Fresh(true), cs));
  }

  method SetUpBoth(w: World, cc: seq<u8>, cs: seq<u8>) returns (r: Outcome, c: Kex?, s: Kex?)
    requires Ten(w) && Sound(w) && |cc| == KEX_COOKIE_LEN && |cs| == KEX_COOKIE_LEN
    ensures r.Pass? ==> c != null && s != null && Talking(w, c, s) && !c.phase.Spent? && !s.phase.Spent?
    ensures r.Pass? ==> fresh({c, c.my, c.my.buf, c.peer, c.peer.buf}) && fresh({s, s.my, s.my.buf, s.peer, s.peer.buf})
  {
    s := null;
    r, c := Setup(w, false, cc);
    if r.Fatal? {
      return;
    }
    ghost var v := c.View();
    r, s := Setup(w, true, cs);
    if r.Fatal? {
      return;
    }
    assert c.Valid() && c.View() == v;
    BothSetUp(w, cc, cs);
  }

  /** One event after the other, as long as both go on. */
  method RunBoth(w: World, c: Kex, s: Kex, es: seq<Event>) returns (r: Outcome)
    requires Talking(w, c, s) && !c.phase.Spent? && !s.phase.Spent?
    modifies c, c.my.buf, c.peer, c.peer.buf, s, s.my.buf, s.peer, s.peer.buf
    ensures r.Pass? ==> Talking(w, c, s)
  {
    r := Pass;
    for i := 0 to |es|
      invariant r.Pass? && Talking(w, c, s) && !c.phase.Spent? && !s.phase.Spent?
      invariant c.peer.buf == old(c.peer.buf) || fresh(c.peer.buf)
      invariant s.peer.buf == old(s.peer.buf) || fresh(s.peer.buf)
    {
      r := Act(w, c, s, es[i]);
      if r.Fatal? {
        return;
      }
    }
  }

  method Act(w: World, c: Kex, s: Kex, e: Event) returns (r: Outcome)
    requires Talking(w, c, s) && !c.phase.Spent? && !s.phase.Spent?
    modifies c, c.my.buf, c.peer, c.peer.buf, s, s.my.buf, s.peer, s.peer.buf
    ensures r.Pass? ==> Talking(w, c, s) && !c.phase.Spent? && !s.phase.Spent?
    ensures c.peer.buf == old(c.peer.buf) || fresh(c.peer.buf)
    ensures s.peer.buf == old(s.peer.buf) || fresh(s.peer.buf)
  {
    if e.server {
      r := ServerActs(w, c, s, e);
    } else {
      r := ClientActs(w, c, s, e);
    }
  }

  lemma {:induction false} HonestOutcome(d: Deal, c: Kex, s: Kex)
    requires Honest(d) && Settled(d) && Talking(d.w, c, s)
    ensures KeysMeet(c, s) && !c.phase.Dead? && !s.phase.Dead?
  {
    var n := Net(c.View(), s.View());
    HeldKeysMeet(d, c, s, n);
    NeverBreaksOff(d, n, false);
    NeverBreaksOff(d, n, true);
  }

  /**
   Two structures set up and driven through any sequence of events: they are never out of step with the
   machine, and where the ends are honest, neither ends by itself and the keys they hold meet.
   */
  method Converse(w: World, cc: seq<u8>, cs: seq<u8>, es: seq<Event>, ghost d: Deal) returns (r: Outcome, c: Kex?, s: Kex?)
    requires Ten(w) && Sound(w) && |cc| == KEX_COOKIE_LEN && |cs| == KEX_COOKIE_LEN
    requires d.w == w
    ensures r.Pass? ==> c != null && s != null && Talking(w, c, s)
    ensures r.Pass? && Honest(d) && Settled(d) ==> KeysMeet(c, s) && !c.phase.Dead? && !s.phase.Dead?
  {
    r, c, s := SetUpBoth(w, cc, cs);
    if r.Fatal? {
      return;
    }
    r := RunBoth(w, c, s, es);
    if r.Pass? && Honest(d) && Settled(d) {
      HonestOutcome(d, c, s);
    }
  }
}
