/**
 The window protocol does not deadlock: from every healthy state there is a run, with no
 new input, that brings every byte already read to the far file descriptor.
 */
module ChannelProgress {
  import opened Bytes
  import opened ChannelStep
  import opened ChannelNet
  import opened ChannelSafety

  /** y takes x's extended data, or there is none anywhere between them. */
  predicate ExtFlows(s: Net) {
    (s.y.use.ExtWrite? && s.y.efd) || (ExtBuffered(s.y) == [] && ExtIn(s.xy) == [] && ExtPending(s.x) == [])
  }

  /**
   No close has begun, no buffered byte was dropped at y, and the limits let one byte through.
   y's output may already be closed; then what arrives counts as consumed at once.
   */
  predicate Healthy(s: Net) {
    && s.x.kind.Open? && s.y.kind.Open?
    && !s.x.closeSent && !s.x.closeRcvd && !s.y.closeSent && !s.y.closeRcvd
    && s.y.log.cleared == 0 && s.y.log.elost == []
    && ExtFlows(s)
    && s.y.win.max >= 2 && s.x.win.rpacket > 0
  }

  predicate Delivered(s: Net) {
    s.x.input == [] && DataIn(s.xy) == [] && s.y.output == []
  }

  /** An event that brings some byte or some credit closer to where it belongs. */
  function Next(s: Net): (e: Event) {
    if s.yx != [] then AtX(Receive(false))
    else if s.xy != [] then AtY(Receive(false))
    else if s.y.output != [] then AtY(WriteData(|s.y.output|))
    else if ExtBuffered(s.y) != [] then AtY(WriteExt(|s.y.extended|))
    else if s.x.win.remote > 0 then AtX(OutputPoll)
    else AtY(CheckWindow)
  }

  function Unsent(s: Net): (r: nat) { |s.x.input| + |ExtPending(s.x)| }

  function Unwritten(s: Net): (r: nat) {
    |DataIn(s.xy)| + |ExtIn(s.xy)| + |s.y.output| + |ExtBuffered(s.y)|
  }

  function Messages(s: Net): (r: nat) {
    |s.xy| + |s.yx| + (if s.x.eofSent then 0 else 2) + (if s.y.eofSent then 0 else 2)
  }

  predicate Closer(t: Net, s: Net) {
    || Unsent(t) < Unsent(s)
    || (Unsent(t) == Unsent(s) && Unwritten(t) < Unwritten(s))
    || (Unsent(t) == Unsent(s) && Unwritten(t) == Unwritten(s) && t.y.win.consumed < s.y.win.consumed)
    || (Unsent(t) == Unsent(s) && Unwritten(t) == Unwritten(s) && t.y.win.consumed == s.y.win.consumed &&
        Messages(t) < Messages(s))
  }

  predicate Good(t: Net, s: Net) {
    Healthy(t) && Closer(t, s) && t.x.log.got == s.x.log.got && t.y.log.wfail == s.y.log.wfail
  }

  /** An open end stays open, keeps what it has to send, and answers at most with one EOF. */
  predicate Mild(c: Chan, r: Effect) {
    && r.c.kind.Open? && r.c.closeSent == c.closeSent && r.c.closeRcvd == c.closeRcvd
    && r.c.log.cleared == c.log.cleared && r.c.log.wfail == c.log.wfail && r.c.use == c.use && r.c.efd == c.efd
    && r.c.win.max == c.win.max && r.c.win.rpacket == c.win.rpacket
    && r.c.input == c.input && ExtPending(r.c) == ExtPending(c) && r.c.log.got == c.log.got
    && ((r.sent == [] && r.c.eofSent == c.eofSent) || (r.sent == [Eof] && !c.eofSent && r.c.eofSent))
  }

  lemma {:induction false} EofMild(c: Chan)
    requires Local(c) && c.kind.Open?
    ensures Mild(c, ReceivedIeof(c))
  {
    var d := ReceivedEof(c);
    assert Mild(c, Effect(d, []));
    assert d.eofSent == c.eofSent && d.istate == c.istate && d.forceDrain == c.forceDrain;
  }

  lemma {:induction false} DataMild(c: Chan, d: seq<u8>)
    requires c.kind.Open?
    ensures Mild(c, Effect(ReceivedData(c, d), []))
  {
    DataShape(c, d, ReceivedData(c, d));
  }

  /** What data changes: its own buffer, the window, and the log of what was lost. */
  predicate Shaped(c: Chan, r: Chan) {
    && r == c.(output := r.output, win := r.win, log := r.log)
    && r.log == c.log.(lost := r.log.lost) && r.win.max == c.win.max && r.win.rpacket == c.win.rpacket
  }

  lemma {:induction false} LoseShape(c: Chan, d: seq<u8>)
    ensures Shaped(c, Lose(c, d))
  {
  }

  lemma {:induction false} TakeShape(c: Chan, n: nat)
    ensures Shaped(c, Take(c, n)) && Shaped(c, Consume(c, n))
  {
  }

  lemma {:induction false} ShapedOn(a: Chan, b: Chan, c: Chan)
    requires Shaped(a, b) && Shaped(b, c)
    ensures Shaped(a, c)
  {
  }

  lemma {:induction false} DataShape(c: Chan, d: seq<u8>, r: Chan)
    requires r == ReceivedData(c, d)
    ensures Shaped(c, r)
  {
    if !c.kind.Open? || (c.ostate.OutOpen? && |d| > c.win.local) {
      LoseShape(c, d);
    } else if c.ostate.OutOpen? {
      TakeShape(c.(output := c.output + d), |d|);
      ShapedOn(c, c.(output := c.output + d), r);
    } else {
      var t := Take(c, |d|);
      TakeShape(c, |d|);
      TakeShape(t, |d|);
      ShapedOn(c, t, Consume(t, |d|));
      LoseShape(Consume(t, |d|), d);
      ShapedOn(c, Consume(t, |d|), r);
    }
  }

  lemma {:induction false} ExtMild(c: Chan, d: seq<u8>)
    requires c.kind.Open?
    ensures Mild(c, Effect(ReceivedExt(c, d), []))
  {
    if c.use.ExtWrite? {
    }
  }

  lemma {:induction false} ReceiveMild(c: Chan, m: Msg)
    requires Local(c) && c.kind.Open? && !m.Close?
    ensures Mild(c, Received(c, m, false))
  {
    match m
    case Data(d) => DataMild(c, d);
    case ExtData(d) => ExtMild(c, d);
    case Adjust(n) =>
    case Eof => EofMild(c);
    case Request =>
  }

  lemma {:induction false} XReceives(s: Net)
    requires Inv(s) && Healthy(s) && s.yx != []
    ensures Good(XStep(s, Receive(false)), s)
  {
    var m := s.yx[0];
    assert m in s.yx;
    ReceiveMild(s.x, m);
    var r := Received(s.x, m, false);
    XMild(s, r, XStep(s, Receive(false)));
  }

  lemma {:induction false} XMild(s: Net, r: Effect, t: Net)
    requires Healthy(s) && s.yx != []
    requires Mild(s.x, r) && t == Moved(s, r.c, r.sent, 1)
    ensures Good(t, s)
  {
    InFlightAppend(s.xy, r.sent);
    InFlightOne(Eof);
    assert Messages(t) < Messages(s);
  }

  /** The received bytes wait at y, or were dropped there as consumed; y's books are otherwise unchanged. */
  predicate Kept(c: Chan, r: Chan, m: Msg) {
    && |ExtBuffered(r)| == |ExtBuffered(c)| + (if m.ExtData? then |m.data| else 0)
    && r.log.elost == c.log.elost
    && if m.Data? && !c.ostate.OutOpen? then r.output == c.output
       else |r.output| == |c.output| + (if m.Data? then |m.data| else 0) && r.win.consumed == c.win.consumed
  }

  lemma {:induction false} DataKept(c: Chan, d: seq<u8>)
    requires c.kind.Open? && |d| <= c.win.local
    ensures Kept(c, ReceivedData(c, d), Data(d))
  {
  }

  lemma {:induction false} ExtKept(c: Chan, d: seq<u8>)
    requires c.kind.Open? && |d| <= c.win.local && ((c.use.ExtWrite? && c.efd) || d == [])
    ensures Kept(c, ReceivedExt(c, d), ExtData(d))
  {
    if !(c.use.ExtWrite? && c.efd) {
      assert c.log.elost + d == c.log.elost;
    }
  }

  lemma {:induction false} EofKept(c: Chan)
    ensures Kept(c, ReceivedIeof(c).c, Eof)
  {
    var d := ReceivedEof(c);
    assert Kept(c, d, Eof);
    if d.forceDrain && d.istate.InOpen? {
    }
  }

  lemma {:induction false} ReceiveKept(c: Chan, m: Msg)
    requires Fits(c, [m]) && c.kind.Open? && !m.Close?
    requires m.ExtData? ==> (c.use.ExtWrite? && c.efd) || m.data == []
    ensures Kept(c, Received(c, m, false).c, m)
  {
    match m
    case Data(d) => DataKept(c, d);
    case ExtData(d) => ExtKept(c, d);
    case Adjust(n) =>
    case Eof => EofKept(c);
    case Request =>
  }

  lemma {:induction false} YHeadFits(s: Net, m: Msg)
    requires Inv(s) && s.xy != [] && m == s.xy[0]
    ensures Fits(s.y, [m]) && Local(s.y) && (m.Data? ==> |m.data| > 0)
  {
    assert m in s.xy;
    HeadFits(Swap(s), 1);
    assert s.xy[..1] == [m];
  }

  lemma {:induction false} YHead(s: Net, m: Msg)
    requires Inv(s) && Healthy(s) && s.xy != [] && m == s.xy[0]
    ensures Fits(s.y, [m]) && Local(s.y) && !m.Close? && (m.Data? ==> |m.data| > 0)
    ensures m.ExtData? ==> (s.y.use.ExtWrite? && s.y.efd) || m.data == []
    ensures XEnabled(Swap(s), Receive(false))
  {
    YHeadFits(s, m);
    YHeadExt(s.xy, m);
    assert m in s.xy;
  }

  lemma {:induction false} YHeadExt(q: seq<Msg>, m: Msg)
    requires q != [] && m == q[0]
    ensures m.ExtData? ==> m.data <= ExtIn(q)
  {
    assert q == [m] + q[1..];
    InFlightAppend([m], q[1..]);
    InFlightOne(m);
  }

  lemma {:induction false} YReceives(s: Net)
    requires Inv(s) && Healthy(s) && s.xy != []
    ensures Good(Swap(XStep(Swap(s), Receive(false))), s)
  {
    var m := s.xy[0];
    YHead(s, m);
    ReceiveMild(s.y, m);
    ReceiveKept(s.y, m);
    YReceiveIs(s);
    YMild(s, m, Received(s.y, m, false), YAfter(s, m));
  }

  /** The network once y has handled the message m that was next. */
  function YAfter(s: Net, m: Msg): (t: Net)
    requires s.xy != []
  {
    var r := Received(s.y, m, false);
    Net(s.x, r.c, s.xy[1..], s.yx + r.sent)
  }

  lemma {:induction false} YReceiveIs(s: Net)
    requires s.xy != [] && XEnabled(Swap(s), Receive(false))
    ensures Swap(XStep(Swap(s), Receive(false))) == YAfter(s, s.xy[0])
  {
  }

  lemma {:induction false} YMild(s: Net, m: Msg, r: Effect, t: Net)
    requires Healthy(s) && s.xy != [] && s.xy[0] == m && (m.Data? ==> |m.data| > 0)
    requires Mild(s.y, r) && Kept(s.y, r.c, m) && t == Net(s.x, r.c, s.xy[1..], s.yx + r.sent)
    ensures Good(t, s)
  {
    assert s.xy == [m] + s.xy[1..];
    InFlightAppend([m], s.xy[1..]);
    InFlightOne(m);
  }

  lemma {:induction false} YWrites(s: Net)
    requires Inv(s) && Healthy(s) && s.y.output != []
    ensures CanHappen(s, AtY(WriteData(|s.y.output|)))
    ensures Good(Happen(s, AtY(WriteData(|s.y.output|))), s)
  {
    assert s.yx + [] == s.yx;
  }

  lemma {:induction false} YWritesExt(s: Net)
    requires Inv(s) && Healthy(s) && ExtBuffered(s.y) != []
    ensures CanHappen(s, AtY(WriteExt(|s.y.extended|)))
    ensures Good(Happen(s, AtY(WriteExt(|s.y.extended|))), s)
  {
    assert s.yx + [] == s.yx;
  }

  /** Quiet, out of credit, and nothing buffered at y: only y's window update can help. */
  predicate Waiting(t: Net) {
    && t.xy == [] && t.yx == [] && t.x.win.remote == 0
    && t.y.output == [] && ExtBuffered(t.y) == []
    && t.y.kind.Open? && !t.y.closeSent && !t.y.closeRcvd
  }

  /** Exactly when the window reopens, whatever was refused or cleared before. */
  lemma {:induction false} WindowReopens(t: Net)
    requires Inv(t) && Waiting(t)
    ensures WindowDue(t.y) <==>
              && |t.y.log.elost| + t.y.log.cleared < t.y.win.max
              && (|t.y.log.elost| < t.y.win.max / 2 || t.y.win.max - |t.y.log.elost| > Wrap(t.y.win.lpacket * 3))
    ensures t.y.log.elost == [] && t.y.log.cleared == 0 && 0 < t.y.win.lpacket < U32 ==>
              (WindowDue(t.y) <==> t.y.win.max >= 2)
    ensures WindowDue(t.y) ==>
              CheckedWindow(t.y).sent == [Adjust(t.y.win.max - |t.y.log.elost| - t.y.log.cleared)]
  {
    assert t.y.win.local == |t.y.log.elost|;
    assert Wrap(t.y.win.max - t.y.win.local) == t.y.win.max - t.y.win.local;
    if 0 < t.y.win.lpacket < U32 {
      assert Wrap(t.y.win.lpacket * 3) >= 1;
    }
  }

  lemma {:induction false} PollDataMoves(c: Chan)
    requires !c.istate.InClosed? && c.input != [] && 0 < c.win.remote < U32 && c.win.rpacket > 0
    ensures var r := PollData(c);
            && r.c == c.(input := r.c.input, win := c.win.(remote := r.c.win.remote))
            && |r.c.input| < |c.input|
            && |r.sent| == 1 && r.sent[0].Data?
  {
  }

  lemma {:induction false} PollExtMoves(c: Chan)
    requires c.win.remote < U32
    ensures var r := PollExt(c);
            && r.c == c.(extended := r.c.extended, win := c.win.(remote := r.c.win.remote))
            && |ExtPending(r.c)| <= |ExtPending(c)|
            && (ExtPending(c) == [] ==> r.sent == [])
  {
  }

  lemma {:induction false} XPolls(s: Net)
    requires Inv(s) && Healthy(s) && s.xy == [] && s.x.input != [] && s.x.win.remote > 0
    ensures Good(Happen(s, AtX(OutputPoll)), s)
  {
    assert OneWay(Swap(s));
    assert !s.x.istate.InClosed?;
    PollDataMoves(s.x);
    var d := PollData(s.x);
    PollExtMoves(d.c);
    var f := PollExt(d.c);
    assert d.sent == [d.sent[0]];
    InFlightOne(d.sent[0]);
    InFlightAppend(d.sent, f.sent);
    var t := Happen(s, AtX(OutputPoll));
    assert t.xy == d.sent + f.sent;
    assert ExtPending(s.x) == [] ==> ExtIn(t.xy) == [];
  }

  lemma {:induction false} YReopens(s: Net)
    requires Inv(s) && Healthy(s) && s.xy == [] && s.yx == [] && s.x.win.remote == 0
    requires s.y.output == [] && ExtBuffered(s.y) == []
    ensures Good(Happen(s, AtY(CheckWindow)), s)
  {
    assert WindowDue(s.y);
  }

  /** Some event is always possible that brings undelivered bytes closer. */
  lemma {:induction false} NoDeadlock(s: Net)
    requires Inv(s) && Healthy(s) && !Delivered(s)
    ensures CanHappen(s, Next(s)) && Good(Happen(s, Next(s)), s)
  {
    if s.yx != [] {
      XReceives(s);
    } else if s.xy != [] {
      YReceives(s);
    } else if s.y.output != [] {
      YWrites(s);
    } else if ExtBuffered(s.y) != [] {
      YWritesExt(s);
    } else if s.x.win.remote > 0 {
      XPolls(s);
    } else {
      YReopens(s);
    }
  }

  /** Everything read at x has arrived: it is written at y, or lost where a write failed. */
  predicate Arrived(t: Net, s: Net) {
    && t.x.log.got == s.x.log.got && t.y.log.put + t.y.log.lost == s.x.log.got
    && (!s.y.log.wfail ==> t.y.log.put == s.x.log.got) && t.y.log.wfail == s.y.log.wfail
  }

  lemma {:induction false} DeliveredArrived(s: Net)
    requires Inv(s) && Delivered(s)
    ensures Arrived(s, s)
  {
    assert s.y.log.put + s.y.output + s.y.log.lost + DataIn(s.xy) + s.x.input == s.y.log.put + s.y.log.lost;
    if !s.y.log.wfail {
      assert s.y.log.put + [] == s.y.log.put;
    }
  }

  lemma {:induction false} GoodStep(s: Net) returns (e: Event, u: Net)
    requires Inv(s) && Healthy(s) && !Delivered(s)
    ensures CanHappen(s, e) && u == Happen(s, e) && Good(u, s) && Inv(u) && !e.a.ReadData? && !e.a.ReadExt?
  {
    NoDeadlock(s);
    e := Next(s);
    u := Happen(s, e);
    StepKeepsInv(s, e);
  }

  lemma {:induction false} OneStepMore(s: Net, e: Event, u: Net, rest: seq<Event>)
    requires CanHappen(s, e) && u == Happen(s, e) && Good(u, s) && IsRun(u, rest) && Arrived(After(u, rest), u)
    ensures IsRun(s, [e] + rest) && Arrived(After(s, [e] + rest), s)
  {
    assert ([e] + rest)[1..] == rest;
  }

  /** From every healthy state some run without new input empties x and the wire. */
  lemma {:induction false} EverythingArrives(s: Net) returns (es: seq<Event>)
    requires Inv(s) && Healthy(s)
    ensures IsRun(s, es)
    ensures var t := After(s, es);
            && t.x.log.got == s.x.log.got
            && t.y.log.put + t.y.log.lost == s.x.log.got
            && (!s.y.log.wfail ==> t.y.log.put == s.x.log.got)
            && t.y.log.wfail == s.y.log.wfail
    ensures forall e :: e in es ==> !e.a.ReadData? && !e.a.ReadExt?
    decreases Unsent(s), Unwritten(s), s.y.win.consumed, Messages(s)
  {
    if Delivered(s) {
      es := [];
      DeliveredArrived(s);
    } else {
      var e, u := GoodStep(s);
      var rest := EverythingArrives(u);
      es := [e] + rest;
      OneStepMore(s, e, u, rest);
    }
  }
}
