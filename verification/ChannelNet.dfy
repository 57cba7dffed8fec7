/**
 Two channel ends joined by two FIFO links, and what holds in every state that any
 interleaving of their actions can reach.
 */
module ChannelNet {
  import opened Bytes
  import opened ChannelStep

  /** `xy` carries what x has sent and y has not handled yet; `yx` the other way. */
  datatype Net = Net(x: Chan, y: Chan, xy: seq<Msg>, yx: seq<Msg>)

  function Swap(s: Net): (r: Net) {
    Net(s.y, s.x, s.yx, s.xy)
  }

  predicate XEnabled(s: Net, a: Action) {
    Enabled(s.x, a, s.yx)
  }

  /** End x performs `a`. */
  function XStep(s: Net, a: Action): (r: Net)
    requires XEnabled(s, a)
  {
    var r := Act(s.x, a, s.yx);
    Net(r.c, s.y, s.xy + r.sent, if a.Receive? then s.yx[1..] else s.yx)
  }

  datatype Event = AtX(a: Action) | AtY(a: Action)

  predicate CanHappen(s: Net, e: Event) {
    if e.AtX? then XEnabled(s, e.a) else XEnabled(Swap(s), e.a)
  }

  function Happen(s: Net, e: Event): (r: Net)
    requires CanHappen(s, e)
  {
    if e.AtX? then XStep(s, e.a) else Swap(XStep(Swap(s), e.a))
  }

  predicate IsRun(s: Net, es: seq<Event>)
    decreases |es|
  {
    es == [] || (CanHappen(s, es[0]) && IsRun(Happen(s, es[0]), es[1..]))
  }

  function After(s: Net, es: seq<Event>): (r: Net)
    requires IsRun(s, es)
    decreases |es|
  {
    if es == [] then s else After(Happen(s, es[0]), es[1..])
  }

  // ---- what is in flight ----

  function DataIn(q: seq<Msg>): (r: seq<u8>) {
    if q == [] then [] else (if q[0].Data? then q[0].data else []) + DataIn(q[1..])
  }

  function ExtIn(q: seq<Msg>): (r: seq<u8>) {
    if q == [] then [] else (if q[0].ExtData? then q[0].data else []) + ExtIn(q[1..])
  }

  function AdjustIn(q: seq<Msg>): (r: nat) {
    if q == [] then 0 else (if q[0].Adjust? then q[0].n else 0) + AdjustIn(q[1..])
  }

  lemma {:induction false} DataAppend(q: seq<Msg>, m: seq<Msg>)
    ensures DataIn(q + m) == DataIn(q) + DataIn(m)
  {
    if q == [] {
      assert q + m == m;
    } else {
      DataAppend(q[1..], m);
      assert (q + m)[1..] == q[1..] + m;
      Nested(if q[0].Data? then q[0].data else [], DataIn(q[1..]), DataIn(m));
    }
  }

  lemma {:induction false} ExtAppend(q: seq<Msg>, m: seq<Msg>)
    ensures ExtIn(q + m) == ExtIn(q) + ExtIn(m)
  {
    if q == [] {
      assert q + m == m;
    } else {
      ExtAppend(q[1..], m);
      assert (q + m)[1..] == q[1..] + m;
      Nested(if q[0].ExtData? then q[0].data else [], ExtIn(q[1..]), ExtIn(m));
    }
  }

  lemma {:induction false} AdjustAppend(q: seq<Msg>, m: seq<Msg>)
    ensures AdjustIn(q + m) == AdjustIn(q) + AdjustIn(m)
  {
    if q == [] {
      assert q + m == m;
    } else {
      AdjustAppend(q[1..], m);
      assert (q + m)[1..] == q[1..] + m;
    }
  }

  lemma {:induction false} Nested(a: seq<u8>, b: seq<u8>, c: seq<u8>)
    ensures a + (b + c) == a + b + c
  {
  }

  lemma {:induction false} InFlightAppend(q: seq<Msg>, m: seq<Msg>)
    ensures DataIn(q + m) == DataIn(q) + DataIn(m)
    ensures ExtIn(q + m) == ExtIn(q) + ExtIn(m)
    ensures AdjustIn(q + m) == AdjustIn(q) + AdjustIn(m)
  {
    DataAppend(q, m);
    ExtAppend(q, m);
    AdjustAppend(q, m);
  }

  // ---- the invariant ----

  /** Received extended data that still waits for efd. */
  function ExtBuffered(c: Chan): (r: seq<u8>) {
    if c.use.ExtWrite? then c.extended else []
  }

  /** Extended data read from efd that still waits for the wire. */
  function ExtPending(c: Chan): (r: seq<u8>) {
    if c.use.ExtRead? then c.extended else []
  }

  /** No credit is created or lost between the sender's window and the receiver's. */
  predicate Credit(s: Net) {
    s.x.win.remote + |DataIn(s.xy)| + |ExtIn(s.xy)| + AdjustIn(s.yx) + |s.y.log.elost| == s.y.win.local
  }

  /** Every byte of the receive window is free, buffered, waiting to be returned, or discarded. */
  predicate Conserved(c: Chan) {
    c.win.local + |c.output| + |ExtBuffered(c)| + c.win.consumed + c.log.cleared == c.win.max < U32
  }

  /** Both byte streams arrive in order, without loss, duplication or invention. */
  predicate Streams(s: Net) {
    && s.y.log.put + s.y.output + s.y.log.lost + DataIn(s.xy) + s.x.input == s.x.log.got
    && s.y.log.eput + ExtBuffered(s.y) + s.y.log.elost + ExtIn(s.xy) + ExtPending(s.x) == s.x.log.egot
  }

  /** Only window traffic, requests and CLOSE follow EOF. */
  predicate AfterEof(q: seq<Msg>) {
    forall i, j :: 0 <= i < j < |q| && q[i].Eof? ==> q[j].Adjust? || q[j].Close? || q[j].Request?
  }

  predicate CloseIsLast(q: seq<Msg>) {
    forall i :: 0 <= i < |q| && q[i].Close? ==> i == |q| - 1
  }

  /** Where EOF and CLOSE can be, and what may still be behind them. */
  predicate Ordered(s: Net) {
    && AfterEof(s.xy)
    && CloseIsLast(s.xy)
    && (Eof in s.xy ==> s.x.eofSent && !s.y.eofRcvd)
    && (s.y.eofRcvd ==> s.x.eofSent && forall m :: m in s.xy ==> m.Adjust? || m.Close? || m.Request?)
    && (Close in s.xy ==> s.x.closeSent && !s.y.closeRcvd)
    && (s.y.closeRcvd ==> s.x.closeSent && s.xy == [])
    && (s.x.closeSent ==> s.y.closeRcvd || Close in s.xy)
  }

  predicate Packets(s: Net) {
    && s.x.win.rpacket == s.y.win.lpacket
    && (forall m :: m in s.xy && (m.Data? || m.ExtData?) ==> |m.data| <= s.x.win.rpacket)
    && (forall m :: m in s.xy && m.Data? ==> |m.data| > 0)
    && (s.y.kind.Larval? ==>
          s.x.win.remote == 0 && AdjustIn(s.yx) == 0 && forall m :: m in s.xy ==> !m.Data? && !m.ExtData?)
  }

  /** What every end keeps by itself. */
  predicate Local(c: Chan) {
    && (c.eofSent || c.closeSent ==> c.istate.InClosed?)
    && (c.closeSent ==> c.ostate.OutClosed?)
    && (c.kind.Freed? ==> c.closeSent && c.closeRcvd)
    && (c.ostate.OutWaitDrain? ==> c.eofRcvd || c.closeRcvd)
    && (c.ostate.OutClosed? ==> c.output == [] && (c.eofRcvd || c.closeRcvd || c.log.wfail))
    && (c.log.wfail ==> c.ostate.OutClosed?)
    && (!c.log.wfail ==> c.log.lost == [] && c.log.cleared == 0)
    && c.log.cleared <= |c.log.lost|
    && (c.istate.InClosed? && !c.closeRcvd ==> c.eofSent && c.input == [])
    && (c.closeRcvd ==> !c.ostate.OutOpen? && c.istate.InClosed?)
    && (c.eofRcvd ==> !c.ostate.OutOpen?)
    && (c.log.elost != [] ==> !c.efd || !c.use.ExtWrite?)
    && (c.kind.Larval? ==>
          c.win.local == 0 && c.win.max == 0 && c.output == [] && c.input == [] && c.extended == [] &&
          c.use.ExtIgnore? && !c.log.wfail && c.log.elost == [] && !c.eofSent && !c.forceDrain &&
          !c.istate.InWaitDrain?)
  }

  /** Everything about the direction from x to y. */
  predicate OneWay(s: Net) {
    Credit(s) && Conserved(s.y) && Streams(s) && Ordered(s) && Packets(s) && Local(s.y)
  }

  predicate Inv(s: Net) {
    OneWay(s) && OneWay(Swap(s))
  }

  /** A channel just opened: windows and packet limits as exchanged by the open messages. */
  predicate Fresh(c: Chan) {
    && !c.kind.Freed? && c.istate.InOpen? && c.ostate.OutOpen?
    && !c.closeSent && !c.closeRcvd && !c.eofSent && !c.eofRcvd && !c.log.wfail
    && c.input == [] && c.output == [] && c.extended == []
    && c.log.got == [] && c.log.put == [] && c.log.lost == [] && c.log.egot == [] && c.log.eput == [] && c.log.elost == []
    && c.win.consumed == 0 && c.log.cleared == 0 && c.win.local == c.win.max < U32
    && (c.kind.Larval? ==> c.win.max == 0 && c.use.ExtIgnore? && !c.forceDrain)
  }

  predicate Init(s: Net) {
    && Fresh(s.x) && Fresh(s.y)
    && s.x.win.remote == s.y.win.local && s.y.win.remote == s.x.win.local
    && s.x.win.rpacket == s.y.win.lpacket && s.y.win.rpacket == s.x.win.lpacket
    && s.xy == [] && s.yx == []
  }

  lemma {:induction false} InitInv(s: Net)
    requires Init(s)
    ensures Inv(s)
  {
  }

  // ---- what one action does to one end, abstractly ----
  // `h` is the message taken from the inbox, if any; `rd` and `erd` what was read from rfd and efd.

  predicate Sends(c: Chan, d: Chan, sent: seq<Msg>, h: seq<Msg>, rd: seq<u8>, erd: seq<u8>) {
    && d.win.remote + |DataIn(sent)| + |ExtIn(sent)| == c.win.remote + AdjustIn(h)
    && DataIn(sent) + d.input == c.input + rd
    && d.log.got == c.log.got + rd
    && ExtIn(sent) + ExtPending(d) == ExtPending(c) + erd
    && d.log.egot == c.log.egot + erd
    && d.win.rpacket == c.win.rpacket
  }

  predicate Takes(c: Chan, d: Chan, sent: seq<Msg>, h: seq<Msg>) {
    && d.win.local + |DataIn(h)| + |ExtIn(h)| + |c.log.elost| == c.win.local + AdjustIn(sent) + |d.log.elost|
    && Conserved(d)
    && d.log.put + d.output + d.log.lost == c.log.put + c.output + c.log.lost + DataIn(h)
    && d.log.eput + ExtBuffered(d) + d.log.elost == c.log.eput + ExtBuffered(c) + c.log.elost + ExtIn(h)
    && d.win.lpacket == c.win.lpacket
    && (d.kind.Larval? ==> c.kind.Larval? && AdjustIn(sent) == 0)
  }

  predicate Signals(c: Chan, d: Chan, sent: seq<Msg>, h: seq<Msg>) {
    && Local(d)
    && (c.eofSent ==> d.eofSent) && (c.closeSent ==> d.closeSent)
    && AfterEof(sent) && CloseIsLast(sent)
    && (Eof in sent ==> d.eofSent && !c.eofSent)
    && (Close in sent ==> d.closeSent && !c.closeSent)
    && (d.closeSent ==> c.closeSent || Close in sent)
    && (c.closeSent ==> sent == [])
    && (forall m :: m in sent && c.eofSent ==> m.Adjust? || m.Close? || m.Request?)
    && (d.eofRcvd <==> c.eofRcvd || Eof in h)
    && (d.closeRcvd <==> c.closeRcvd || Close in h)
    && (forall m :: m in sent && (m.Data? || m.ExtData?) ==> |m.data| <= c.win.rpacket)
    && (forall m :: m in sent && (m.Data? || m.ExtData?) ==> c.win.remote > 0)
    && (forall m :: m in sent && m.Data? ==> |m.data| > 0)
  }

  /** What the network guarantees about a message when it is handled. */
  predicate Fits(c: Chan, h: seq<Msg>) {
    && |h| <= 1
    && Local(c) && Conserved(c)
    && c.win.remote + AdjustIn(h) < U32
    && (h != [] ==>
          && !c.kind.Freed? && !c.closeRcvd
          && (h[0].Eof? ==> !c.eofRcvd)
          && (h[0].Data? || h[0].ExtData? ==> c.kind.Open? && !c.eofRcvd && |h[0].data| <= c.win.local))
  }

  // ---- and that is preserved by the network ----

  lemma {:induction false} TailInFlight(q: seq<Msg>, k: nat)
    requires k <= |q|
    ensures DataIn(q) == DataIn(q[..k]) + DataIn(q[k..])
    ensures ExtIn(q) == ExtIn(q[..k]) + ExtIn(q[k..])
    ensures AdjustIn(q) == AdjustIn(q[..k]) + AdjustIn(q[k..])
  {
    assert q == q[..k] + q[k..];
    InFlightAppend(q[..k], q[k..]);
  }

  /** x moved to `d`, sending `sent` and taking the first `k` messages of its inbox. */
  function Moved(s: Net, d: Chan, sent: seq<Msg>, k: nat): (r: Net)
    requires k <= |s.yx|
  {
    Net(d, s.y, s.xy + sent, s.yx[k..])
  }

  lemma Regroup(p: seq<u8>, w: seq<u8>, sent: seq<u8>, left: seq<u8>, had: seq<u8>, rd: seq<u8>)
    requires sent + left == had + rd
    ensures p + (w + sent) + left == p + w + had + rd
  {
    assert p + (w + sent) + left == p + w + (sent + left);
  }

  lemma {:induction false} SenderCredit(s: Net, d: Chan, sent: seq<Msg>, k: nat, rd: seq<u8>, erd: seq<u8>)
    requires k <= |s.yx|
    requires Credit(s) && Streams(s)
    requires Sends(s.x, d, sent, s.yx[..k], rd, erd)
    ensures Credit(Moved(s, d, sent, k)) && Streams(Moved(s, d, sent, k))
  {
    InFlightAppend(s.xy, sent);
    TailInFlight(s.yx, k);
    Regroup(s.y.log.put + s.y.output + s.y.log.lost, DataIn(s.xy), DataIn(sent), d.input, s.x.input, rd);
    Regroup(s.y.log.eput + ExtBuffered(s.y) + s.y.log.elost, ExtIn(s.xy), ExtIn(sent), ExtPending(d), ExtPending(s.x), erd);
  }

  lemma {:induction false} ReceiverCredit(s: Net, d: Chan, sent: seq<Msg>, k: nat)
    requires k <= |s.yx|
    requires Credit(Swap(s)) && Streams(Swap(s))
    requires Takes(s.x, d, sent, s.yx[..k])
    ensures Credit(Swap(Moved(s, d, sent, k))) && Streams(Swap(Moved(s, d, sent, k)))
  {
    InFlightAppend(s.xy, sent);
    TailInFlight(s.yx, k);
    var h, rest := s.yx[..k], s.yx[k..];
    var p, e := s.x.log.put + s.x.output + s.x.log.lost, s.x.log.eput + ExtBuffered(s.x) + s.x.log.elost;
    assert p + DataIn(h) + DataIn(rest) == p + (DataIn(h) + DataIn(rest));
    assert e + ExtIn(h) + ExtIn(rest) == e + (ExtIn(h) + ExtIn(rest));
  }

  lemma {:induction false} SenderOrder(s: Net, d: Chan, sent: seq<Msg>, k: nat)
    requires k <= |s.yx| && Inv(s) && Signals(s.x, d, sent, s.yx[..k])
    ensures Ordered(Moved(s, d, sent, k))
  {
    var t := Moved(s, d, sent, k);
    forall m | m in t.xy ensures m in s.xy || m in sent {}
    if s.x.closeSent {
      assert t.xy == s.xy;
    } else {
      assert Close !in s.xy && !s.y.closeRcvd;
    }
    assert Close in sent ==> sent[|sent| - 1] == Close && t.xy[|t.xy| - 1] == Close;
  }

  lemma {:induction false} ReceiverOrder(s: Net, d: Chan, sent: seq<Msg>, k: nat)
    requires k <= |s.yx| && k <= 1 && Inv(s) && Signals(s.x, d, sent, s.yx[..k])
    ensures Ordered(Swap(Moved(s, d, sent, k)))
  {
    var rest := s.yx[k..];
    forall m | m in rest ensures m in s.yx {}
    if k == 1 {
      assert s.yx[..1] == [s.yx[0]];
      assert s.yx == [s.yx[0]] + rest;
    } else {
      assert rest == s.yx && s.yx[..k] == [];
    }
  }

  lemma {:induction false} PacketsKept(s: Net, d: Chan, sent: seq<Msg>, k: nat, rd: seq<u8>, erd: seq<u8>)
    requires k <= |s.yx| && Inv(s)
    requires Sends(s.x, d, sent, s.yx[..k], rd, erd)
    requires Takes(s.x, d, sent, s.yx[..k])
    requires Signals(s.x, d, sent, s.yx[..k])
    ensures Packets(Moved(s, d, sent, k)) && Packets(Swap(Moved(s, d, sent, k)))
  {
    TailInFlight(s.yx, k);
    InFlightAppend(s.xy, sent);
    var t := Moved(s, d, sent, k);
    forall m | m in t.xy ensures m in s.xy || m in sent {}
    forall m | m in t.yx ensures m in s.yx {}
  }
}
