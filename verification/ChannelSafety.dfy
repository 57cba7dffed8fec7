/**
 Every action keeps the invariant, so it holds in every reachable state; and what that
 means for the branches of channels.c that should never run.
 */
module ChannelSafety {
  import opened Bytes
  import opened ChannelStep
  import opened ChannelNet

  predicate Legal(c: Chan, e: Effect, h: seq<Msg>, rd: seq<u8>, erd: seq<u8>) {
    Sends(c, e.c, e.sent, h, rd, erd) && Takes(c, e.c, e.sent, h) && Signals(c, e.c, e.sent, h)
  }

  lemma {:induction false} InFlightOne(m: Msg)
    ensures DataIn([m]) == if m.Data? then m.data else []
    ensures ExtIn([m]) == if m.ExtData? then m.data else []
    ensures AdjustIn([m]) == if m.Adjust? then m.n else 0
  {
    assert [m][1..] == [];
  }

  /** The sending half is untouched. */
  lemma {:induction false} SendsNothing(c: Chan, d: Chan, sent: seq<Msg>, h: seq<Msg>)
    requires d.win.remote == c.win.remote + AdjustIn(h) && d.win.rpacket == c.win.rpacket
    requires d.input == c.input && d.log.got == c.log.got
    requires ExtPending(d) == ExtPending(c) && d.log.egot == c.log.egot
    requires DataIn(sent) == [] && ExtIn(sent) == []
    ensures Sends(c, d, sent, h, [], [])
  {
  }

  /** The buffers of the receiving half are untouched. */
  lemma {:induction false} TakesNothing(c: Chan, d: Chan, sent: seq<Msg>, h: seq<Msg>)
    requires d.win.local + d.win.consumed + c.win.max == c.win.local + c.win.consumed + d.win.max
    requires d.win.local == c.win.local + AdjustIn(sent) && d.win.max < U32
    requires d.win.lpacket == c.win.lpacket
    requires d.log.put == c.log.put && d.output == c.output && d.log.lost == c.log.lost
    requires d.log.eput == c.log.eput && ExtBuffered(d) == ExtBuffered(c) && d.log.elost == c.log.elost
    requires d.log.cleared == c.log.cleared
    requires DataIn(h) == [] && ExtIn(h) == []
    requires d.kind.Larval? ==> c.kind.Larval? && AdjustIn(sent) == 0
    requires Conserved(c)
    ensures Takes(c, d, sent, h)
  {
  }

  /** One message of the ordinary kinds, with no change of the EOF and CLOSE flags. */
  lemma {:induction false} SignalsNothing(c: Chan, d: Chan, m: Msg)
    requires Local(d) && !m.Eof? && !m.Close?
    requires d.eofSent == c.eofSent && !c.closeSent && !d.closeSent
    requires d.eofRcvd == c.eofRcvd && d.closeRcvd == c.closeRcvd
    requires m.Data? || m.ExtData? ==> !c.eofSent && |m.data| <= c.win.rpacket && c.win.remote > 0
    requires m.Data? ==> |m.data| > 0
    ensures Signals(c, d, [m], [])
  {
  }

  // ---- file descriptors ----

  lemma {:induction false} ReadDataLegal(c: Chan, d: seq<u8>)
    requires Fits(c, []) && Enabled(c, ReadData(d), [])
    ensures Legal(c, Effect(ReadBytes(c, d), []), [], d, [])
  {
    TakesNothing(c, ReadBytes(c, d), [], []);
  }

  lemma {:induction false} ReadFailLegal(c: Chan)
    requires Fits(c, []) && Enabled(c, ReadFail, [])
    ensures Legal(c, Effect(ReadFailed(c), []), [], [], [])
  {
    SendsNothing(c, ReadFailed(c), [], []);
    TakesNothing(c, ReadFailed(c), [], []);
  }

  lemma {:induction false} FrontMoved(put: seq<u8>, queue: seq<u8>, lost: seq<u8>, n: nat)
    requires n <= |queue|
    ensures put + queue[..n] + queue[n..] + lost == put + queue + lost + []
  {
    assert queue == queue[..n] + queue[n..];
  }

  lemma {:induction false} WriteDataLegal(c: Chan, n: nat)
    requires Fits(c, []) && Enabled(c, WriteData(n), [])
    ensures Legal(c, Effect(Wrote(c, n), []), [], [], [])
  {
    SendsNothing(c, Wrote(c, n), [], []);
    FrontMoved(c.log.put, c.output, c.log.lost, n);
  }

  lemma {:induction false} ShutdownLegal(c: Chan, fail: bool)
    requires Fits(c, []) && c.kind.Open? && !c.ostate.OutClosed?
    requires fail || (c.ostate.OutWaitDrain? && c.output == [])
    ensures Legal(c, Effect(if fail then WriteFailed(c) else ObufEmpty(c), []), [], [], [])
  {
    var d := if fail then WriteFailed(c) else ObufEmpty(c);
    SendsNothing(c, d, [], []);
    ClearedTakes(c, d);
  }

  /** What is cleared is accounted for. */
  lemma {:induction false} ClearedTakes(c: Chan, d: Chan)
    requires Conserved(c) && d.output == [] && d.log.put == c.log.put && c.log.lost == [] && d.log.lost == c.log.lost + c.output
    requires d.log.cleared == c.log.cleared + |c.output| && d.win == c.win && d.kind == c.kind && d.use == c.use
    requires d.log.eput == c.log.eput && d.extended == c.extended && d.log.elost == c.log.elost
    ensures Takes(c, d, [], [])
  {
    Unpadded(c.log.put, c.output);
    EmptyEnd(c.log.eput + ExtBuffered(c) + c.log.elost);
  }

  lemma {:induction false} Unpadded(s: seq<u8>, t: seq<u8>)
    ensures s + [] + ([] + t) == s + t + [] + []
  {
  }

  lemma {:induction false} EmptyEnd(s: seq<u8>)
    ensures s + [] == s
  {
  }

  lemma {:induction false} ReadExtLegal(c: Chan, d: seq<u8>)
    requires Fits(c, []) && Enabled(c, ReadExt(d), [])
    ensures Legal(c, Effect(ReadExtBytes(c, d), []), [], [], d)
  {
    TakesNothing(c, ReadExtBytes(c, d), [], []);
  }

  lemma {:induction false} WriteExtLegal(c: Chan, n: nat)
    requires Fits(c, []) && Enabled(c, WriteExt(n), [])
    ensures Legal(c, Effect(WroteExt(c, n), []), [], [], [])
  {
    SendsNothing(c, WroteExt(c, n), [], []);
    assert c.log.eput + c.extended + c.log.elost == c.log.eput + c.extended[..n] + c.extended[n..] + c.log.elost;
  }

  lemma {:induction false} ExtFailLegal(c: Chan)
    requires Fits(c, []) && c.kind.Open?
    ensures Legal(c, Effect(c.(efd := false), []), [], [], [])
  {
    SendsNothing(c, c.(efd := false), [], []);
    TakesNothing(c, c.(efd := false), [], []);
  }

  // ---- towards the peer ----

  lemma {:induction false} WindowLegal(c: Chan)
    requires Fits(c, [])
    ensures Legal(c, CheckedWindow(c), [], [], [])
  {
    var e := CheckedWindow(c);
    if WindowDue(c) {
      InFlightOne(Adjust(c.win.consumed));
      SendsNothing(c, e.c, e.sent, []);
      TakesNothing(c, e.c, e.sent, []);
      SignalsNothing(c, e.c, Adjust(c.win.consumed));
    }
  }

  lemma {:induction false} CollectSignals(c: Chan)
    requires Fits(c, []) && !c.kind.Freed?
    ensures Signals(c, Collected(c).c, Collected(c).sent, [])
  {
    assert Local(Collected(c).c);
  }

  lemma {:induction false} CollectLegal(c: Chan)
    requires Fits(c, []) && !c.kind.Freed?
    ensures Legal(c, Collected(c), [], [], [])
  {
    var e := Collected(c);
    if c.istate.InClosed? && c.ostate.OutClosed? {
      if !c.closeSent {
        InFlightOne(Close);
      }
      SendsNothing(c, e.c, e.sent, []);
      TakesNothing(c, e.c, e.sent, []);
    }
    CollectSignals(c);
  }

  lemma {:induction false} IbufLegal(c: Chan)
    requires Fits(c, []) && c.kind.Open? && c.input == [] && c.istate.InWaitDrain?
    ensures Legal(c, IbufEmpty(c), [], [], [])
  {
    InFlightOne(Eof);
    SendsNothing(c, IbufEmpty(c).c, IbufEmpty(c).sent, []);
    TakesNothing(c, IbufEmpty(c).c, IbufEmpty(c).sent, []);
  }

  lemma {:induction false} RequestLegal(c: Chan)
    requires Fits(c, []) && Enabled(c, SendRequest, [])
    ensures Legal(c, Effect(c, [Request]), [], [], [])
  {
    InFlightOne(Request);
    SendsNothing(c, c, [Request], []);
    TakesNothing(c, c, [Request], []);
    SignalsNothing(c, c, Request);
  }

  lemma {:induction false} IdleLegal(c: Chan)
    requires Fits(c, [])
    ensures Legal(c, Effect(c, []), [], [], [])
  {
    SendsNothing(c, c, [], []);
    TakesNothing(c, c, [], []);
  }

  /** Two legal effects in a row are one legal effect. */
  lemma {:induction false} Compose(c: Chan, e: Effect, f: Effect, g: Effect, h: seq<Msg>)
    requires Legal(c, e, h, [], []) && Legal(e.c, f, [], [], [])
    requires AdjustIn(h) == 0
    requires g.c == f.c && g.sent == e.sent + f.sent
    ensures Legal(c, g, h, [], [])
  {
    ComposeSends(c, e, f, h);
    ComposeTakes(c, e, f, h);
    ComposeSignals(c, e, f, h);
  }

  lemma {:induction false} ComposeSends(c: Chan, e: Effect, f: Effect, h: seq<Msg>)
    requires Sends(c, e.c, e.sent, h, [], []) && Sends(e.c, f.c, f.sent, [], [], [])
    ensures Sends(c, f.c, e.sent + f.sent, h, [], [])
  {
    InFlightAppend(e.sent, f.sent);
    Nested(DataIn(e.sent), DataIn(f.sent), f.c.input);
    Nested(ExtIn(e.sent), ExtIn(f.sent), ExtPending(f.c));
  }

  lemma {:induction false} ComposeTakes(c: Chan, e: Effect, f: Effect, h: seq<Msg>)
    requires Takes(c, e.c, e.sent, h) && Takes(e.c, f.c, f.sent, [])
    ensures Takes(c, f.c, e.sent + f.sent, h)
  {
    AdjustAppend(e.sent, f.sent);
  }

  lemma {:induction false} ComposeSignals(c: Chan, e: Effect, f: Effect, h: seq<Msg>)
    requires Signals(c, e.c, e.sent, h) && Signals(e.c, f.c, f.sent, [])
    requires e.c.win.rpacket == c.win.rpacket && e.c.win.remote <= c.win.remote
    ensures Signals(c, f.c, e.sent + f.sent, h)
  {
    var sent := e.sent + f.sent;
    forall m | m in sent ensures m in e.sent || m in f.sent {}
    if e.c.closeSent {
      assert f.sent == [] && sent == e.sent;
    }
    assert Close in f.sent ==> sent[|e.sent| + (|f.sent| - 1)] == Close;
  }

  lemma {:induction false} SendDataLegal(c: Chan, len: nat)
    requires Fits(c, []) && c.kind.Open? && !c.istate.InClosed?
    requires 0 < len <= |c.input| && len <= c.win.remote && len <= c.win.rpacket
    ensures Legal(c, Effect(Spend(c.(input := c.input[len..]), len), [Data(c.input[..len])]), [], [], [])
  {
    var m, d := Data(c.input[..len]), Spend(c.(input := c.input[len..]), len);
    InFlightOne(m);
    DataSends(c, d, len);
    TakesNothing(c, d, [m], []);
    SignalsNothing(c, d, m);
  }

  lemma {:induction false} DataSends(c: Chan, d: Chan, len: nat)
    requires len <= |c.input| && len <= c.win.remote < U32 && d == Spend(c.(input := c.input[len..]), len)
    ensures Sends(c, d, [Data(c.input[..len])], [], [], [])
  {
    InFlightOne(Data(c.input[..len]));
    assert c.input[..len] + c.input[len..] == c.input + [];
  }

  lemma {:induction false} SendExtLegal(c: Chan, len: nat)
    requires Fits(c, []) && c.kind.Open? && !c.eofSent && !c.closeSent && c.use.ExtRead? && c.win.remote > 0
    requires len <= |c.extended| && len <= c.win.remote && len <= c.win.rpacket
    ensures Legal(c, Effect(Spend(c.(extended := c.extended[len..]), len), [ExtData(c.extended[..len])]), [], [], [])
  {
    var m, d := ExtData(c.extended[..len]), Spend(c.(extended := c.extended[len..]), len);
    InFlightOne(m);
    TakesNothing(c, d, [m], []);
    SignalsNothing(c, d, m);
  }

  lemma {:induction false} PollDataLegal(c: Chan)
    requires Fits(c, []) && c.kind.Open?
    ensures Legal(c, PollData(c), [], [], [])
  {
    IdleLegal(c);
    if !c.istate.InClosed? && |c.input| > 0 {
      var len := Min(Min(|c.input|, c.win.remote), c.win.rpacket);
      if len > 0 {
        SendDataLegal(c, len);
      }
    } else if c.istate.InWaitDrain? {
      IbufLegal(c);
    }
  }

  lemma {:induction false} PollExtLegal(c: Chan)
    requires Fits(c, []) && c.kind.Open? && !c.closeSent
    ensures Legal(c, PollExt(c), [], [], [])
  {
    IdleLegal(c);
    if !c.eofSent && c.win.remote > 0 && c.use.ExtRead? {
      SendExtLegal(c, Min(Min(|c.extended|, c.win.remote), c.win.rpacket));
    }
  }

  lemma {:induction false} PollLegal(c: Chan)
    requires Fits(c, [])
    ensures Legal(c, Poll(c), [], [], [])
  {
    if !c.kind.Open? || c.closeSent || c.closeRcvd {
      IdleLegal(c);
    } else {
      var e := PollData(c);
      PollDataLegal(c);
      PollDataOpen(c);
      PollExtLegal(e.c);
      Compose(c, e, PollExt(e.c), Poll(c), []);
    }
  }

  lemma {:induction false} PollDataOpen(c: Chan)
    requires c.kind.Open? && !c.closeSent
    ensures PollData(c).c.kind.Open? && !PollData(c).c.closeSent
  {
  }

  // ---- from the peer ----

  lemma {:induction false} DataSignals(c: Chan, d: seq<u8>)
    requires Fits(c, [Data(d)])
    ensures Signals(c, ReceivedData(c, d), [], [Data(d)])
  {
    assert Local(ReceivedData(c, d));
  }

  lemma {:induction false} DataTakes(c: Chan, d: seq<u8>, h: seq<Msg>)
    requires Fits(c, h) && h == [Data(d)] && DataIn(h) == d && ExtIn(h) == []
    ensures Takes(c, ReceivedData(c, d), [], h)
  {
    if c.ostate.OutOpen? {
      assert c.log.lost == [];
    }
  }

  lemma {:induction false} DataLegal(c: Chan, d: seq<u8>)
    requires Fits(c, [Data(d)])
    ensures Legal(c, Effect(ReceivedData(c, d), []), [Data(d)], [], [])
  {
    InFlightOne(Data(d));
    var r := ReceivedData(c, d);
    SendsNothing(c, r, [], [Data(d)]);
    DataSignals(c, d);
    DataTakes(c, d, [Data(d)]);
  }

  lemma {:induction false} ExtSignals(c: Chan, d: seq<u8>)
    requires Fits(c, [ExtData(d)])
    ensures Signals(c, ReceivedExt(c, d), [], [ExtData(d)])
  {
    if c.efd && c.use.ExtWrite? {
    }
  }

  lemma {:induction false} ExtTakes(c: Chan, d: seq<u8>, h: seq<Msg>)
    requires Fits(c, h) && h == [ExtData(d)] && DataIn(h) == [] && ExtIn(h) == d
    ensures Takes(c, ReceivedExt(c, d), [], h)
  {
    if c.efd && c.use.ExtWrite? {
      assert c.log.elost == [];
    }
  }

  lemma {:induction false} ExtLegal(c: Chan, d: seq<u8>)
    requires Fits(c, [ExtData(d)])
    ensures Legal(c, Effect(ReceivedExt(c, d), []), [ExtData(d)], [], [])
  {
    InFlightOne(ExtData(d));
    var r := ReceivedExt(c, d);
    SendsNothing(c, r, [], [ExtData(d)]);
    ExtSignals(c, d);
    ExtTakes(c, d, [ExtData(d)]);
  }

  lemma {:induction false} AdjustLegal(c: Chan, n: nat)
    requires Fits(c, [Adjust(n)])
    ensures Legal(c, Effect(ReceivedAdjust(c, n), []), [Adjust(n)], [], [])
  {
    InFlightOne(Adjust(n));
    var r := ReceivedAdjust(c, n);
    SendsNothing(c, r, [], [Adjust(n)]);
    TakesNothing(c, r, [], [Adjust(n)]);
  }

  lemma {:induction false} EofSignals(c: Chan)
    requires Fits(c, [Eof])
    ensures Signals(c, ReceivedEof(c), [], [Eof])
  {
    assert Eof in [Eof];
    assert Local(ReceivedEof(c));
  }

  lemma {:induction false} EofLegal(c: Chan)
    requires Fits(c, [Eof])
    ensures Legal(c, Effect(ReceivedEof(c), []), [Eof], [], [])
  {
    InFlightOne(Eof);
    assert Eof in [Eof];
    var d := ReceivedEof(c);
    assert c.log.lost + [] == c.log.lost;
    SendsNothing(c, d, [], [Eof]);
    TakesNothing(c, d, [], [Eof]);
    EofSignals(c);
  }

  function ForcedDrain(c: Chan): (r: Effect) {
    var e := c.(istate := InWaitDrain);
    if |e.input| == 0 then IbufEmpty(e) else Effect(e, [])
  }

  lemma {:induction false} ForcedDrainLegal(c: Chan)
    requires Fits(c, []) && c.kind.Open? && c.istate.InOpen?
    ensures Legal(c, ForcedDrain(c), [], [], [])
  {
    ReadFailLegal(c);
    var e := ReadFailed(c);
    if |e.input| == 0 {
      IbufLegal(e);
      ThenLegal(c, e, IbufEmpty(e));
    }
  }

  lemma {:induction false} ThenLegal(c: Chan, e: Chan, f: Effect)
    requires Legal(c, Effect(e, []), [], [], []) && Legal(e, f, [], [], [])
    ensures Legal(c, f, [], [], [])
  {
    assert [] + f.sent == f.sent;
    Compose(c, Effect(e, []), f, f, []);
  }

  lemma {:induction false} IeofLegal(c: Chan)
    requires Fits(c, [Eof])
    ensures Legal(c, ReceivedIeof(c), [Eof], [], [])
  {
    EofLegal(c);
    var d := ReceivedEof(c);
    EofFits(c, d);
    if d.forceDrain && d.istate.InOpen? {
      ForcedDrainLegal(d);
      EofThen(c, d, ForcedDrain(d));
    }
  }

  /** What an EOF leaves is a channel like any other. */
  lemma {:induction false} EofFits(c: Chan, d: Chan)
    requires Fits(c, [Eof]) && d == ReceivedEof(c) && Legal(c, Effect(d, []), [Eof], [], [])
    ensures Fits(d, []) && (d.forceDrain && d.istate.InOpen? ==> d.kind.Open?)
  {
  }

  lemma {:induction false} EofThen(c: Chan, d: Chan, f: Effect)
    requires Legal(c, Effect(d, []), [Eof], [], []) && Legal(d, f, [], [], [])
    ensures Legal(c, f, [Eof], [], [])
  {
    InFlightOne(Eof);
    assert [] + f.sent == f.sent;
    Compose(c, Effect(d, []), f, f, [Eof]);
  }

  /** All that a CLOSE changes. */
  lemma {:induction false} CloseShape(c: Chan)
    requires Fits(c, [Close])
    ensures var r := ReceivedClose(c);
            && r.c == c.(closeRcvd := true, ostate := r.c.ostate, istate := InClosed, eofSent := r.c.eofSent)
            && r.c.ostate == (if c.kind.Larval? then OutClosed else if c.ostate.OutOpen? then OutWaitDrain else c.ostate)
            && r.c.eofSent == (c.eofSent || c.istate.InWaitDrain?)
            && r.sent == if c.istate.InWaitDrain? then [Eof] else []
  {
  }

  lemma {:induction false} CloseSignals(c: Chan, d: Chan, sent: seq<Msg>)
    requires Fits(c, [Close])
    requires d == c.(closeRcvd := true, ostate := d.ostate, istate := InClosed, eofSent := d.eofSent)
    requires d.ostate == if c.kind.Larval? then OutClosed else if c.ostate.OutOpen? then OutWaitDrain else c.ostate
    requires d.eofSent == (c.eofSent || c.istate.InWaitDrain?)
    requires sent == if c.istate.InWaitDrain? then [Eof] else []
    ensures Signals(c, d, sent, [Close])
  {
    assert Close in [Close];
  }

  lemma {:induction false} CloseLegal(c: Chan)
    requires Fits(c, [Close])
    ensures Legal(c, ReceivedClose(c), [Close], [], [])
  {
    CloseShape(c);
    var r := ReceivedClose(c);
    InFlightOne(Close);
    InFlightOne(Eof);
    SendsNothing(c, r.c, r.sent, [Close]);
    TakesNothing(c, r.c, r.sent, [Close]);
    CloseSignals(c, r.c, r.sent);
  }

  lemma {:induction false} ActivateLegal(c: Chan, stderr: bool)
    requires Fits(c, [Request])
    ensures Legal(c, ReceivedRequest(c, stderr), [Request], [], [])
  {
    InFlightOne(Request);
    var r := ReceivedRequest(c, stderr);
    if c.kind.Larval? {
      InFlightOne(Adjust(CHAN_SES_WINDOW_DEFAULT));
    }
    SendsNothing(c, r.c, r.sent, [Request]);
    TakesNothing(c, r.c, r.sent, [Request]);
    assert Signals(c, r.c, r.sent, [Request]);
  }

  // ---- every action, every run ----

  function Taken(a: Action, inbox: seq<Msg>): (r: nat) {
    if a.Receive? && inbox != [] then 1 else 0
  }

  lemma {:induction false} ReceiveLegal(c: Chan, m: Msg, stderr: bool)
    requires Fits(c, [m])
    ensures Legal(c, Received(c, m, stderr), [m], [], [])
  {
    match m
    case Data(d) => DataLegal(c, d);
    case ExtData(d) => ExtLegal(c, d);
    case Adjust(n) => AdjustLegal(c, n);
    case Eof => IeofLegal(c);
    case Close => CloseLegal(c);
    case Request => ActivateLegal(c, stderr);
  }

  lemma {:induction false} ActLegal(c: Chan, a: Action, inbox: seq<Msg>)
    requires Enabled(c, a, inbox) && Fits(c, inbox[..Taken(a, inbox)])
    ensures Legal(c, Act(c, a, inbox), inbox[..Taken(a, inbox)],
                  if a.ReadData? then a.bytes else [], if a.ReadExt? then a.bytes else [])
  {
    match a
    case ReadData(d) => ReadDataLegal(c, d);
    case ReadFail => ReadFailLegal(c);
    case WriteData(n) => WriteDataLegal(c, n);
    case WriteFail => ShutdownLegal(c, true);
    case ReadExt(d) => ReadExtLegal(c, d);
    case WriteExt(n) => WriteExtLegal(c, n);
    case ExtFail => ExtFailLegal(c);
    case CheckWindow => WindowLegal(c);
    case OutputPoll => PollLegal(c);
    case OutputDrained => ShutdownLegal(c, false);
    case Collect => CollectLegal(c);
    case SendRequest => RequestLegal(c);
    case Receive(stderr) =>
      assert inbox[..1] == [inbox[0]];
      ReceiveLegal(c, inbox[0], stderr);
  }

  /** What is in flight towards x always fits into what x has room for. */
  lemma {:induction false} HeadFits(s: Net, k: nat)
    requires Inv(s) && k <= |s.yx| && k <= 1
    ensures Fits(s.x, s.yx[..k])
  {
    TailInFlight(s.yx, k);
    if k == 1 {
      var m := s.yx[0];
      assert s.yx[..1] == [m] && m in s.yx;
      InFlightOne(m);
    }
  }

  lemma {:induction false} MoveKeepsInv(s: Net, e: Effect, t: Net, k: nat, rd: seq<u8>, erd: seq<u8>)
    requires Inv(s) && k <= |s.yx| && k <= 1
    requires Legal(s.x, e, s.yx[..k], rd, erd)
    requires t == Moved(s, e.c, e.sent, k)
    ensures Inv(t)
  {
    SenderCredit(s, e.c, e.sent, k, rd, erd);
    ReceiverCredit(s, e.c, e.sent, k);
    SenderOrder(s, e.c, e.sent, k);
    ReceiverOrder(s, e.c, e.sent, k);
    PacketsKept(s, e.c, e.sent, k, rd, erd);
  }

  lemma {:induction false} XStepIs(s: Net, a: Action, k: nat)
    requires XEnabled(s, a) && k == Taken(a, s.yx)
    ensures k <= |s.yx| && XStep(s, a) == Moved(s, Act(s.x, a, s.yx).c, Act(s.x, a, s.yx).sent, k)
  {
    assert s.yx[0..] == s.yx;
  }

  lemma {:induction false} XStepKeepsInv(s: Net, a: Action)
    requires Inv(s) && XEnabled(s, a)
    ensures Inv(XStep(s, a))
  {
    var k := Taken(a, s.yx);
    HeadFits(s, k);
    ActLegal(s.x, a, s.yx);
    XStepIs(s, a, k);
    MoveKeepsInv(s, Act(s.x, a, s.yx), XStep(s, a), k,
                 if a.ReadData? then a.bytes else [], if a.ReadExt? then a.bytes else []);
  }

  lemma {:induction false} StepKeepsInv(s: Net, e: Event)
    requires Inv(s) && CanHappen(s, e)
    ensures Inv(Happen(s, e))
  {
    if e.AtX? {
      XStepKeepsInv(s, e.a);
    } else {
      XStepKeepsInv(Swap(s), e.a);
    }
  }

  lemma {:induction false} RunKeepsInv(s: Net, es: seq<Event>)
    requires Inv(s) && IsRun(s, es)
    ensures Inv(After(s, es))
    decreases |es|
  {
    if es != [] {
      StepKeepsInv(s, es[0]);
      RunKeepsInv(Happen(s, es[0]), es[1..]);
    }
  }
}
