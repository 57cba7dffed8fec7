/** What becomes of a sender without credit: it gets some, or never sends a byte again. */
module ChannelStall {
  import opened Bytes
  import opened ChannelStep
  import opened ChannelNet
  import opened ChannelSafety
  import opened ChannelTheorems
  import opened ChannelProgress

  // ---- nothing moves any more ----

  /** A receiver with nothing to write that has no reason to send a window update. */
  predicate Idle(c: Chan) {
    && c.output == [] && ExtBuffered(c) == [] && !c.kind.Larval?
    && !((Wrap(c.win.max - c.win.local) > Wrap(c.win.lpacket * 3) || c.win.local < c.win.max / 2) && c.win.consumed > 0)
  }

  predicate Blank(m: Msg) { (m.Data? || m.ExtData?) ==> m.data == [] }

  /** An end that keeps its receiving side and sends no window update. */
  predicate Mute(c: Chan, e: Effect) {
    && e.c.output == c.output && ExtBuffered(e.c) == ExtBuffered(c) && (e.c.kind.Larval? ==> c.kind.Larval?)
    && e.c.win.local == c.win.local && e.c.win.max == c.win.max && e.c.win.lpacket == c.win.lpacket
    && e.c.win.consumed == c.win.consumed && AdjustIn(e.sent) == 0
  }

  lemma {:induction false} MuteIdle(c: Chan, e: Effect)
    requires Idle(c) && Mute(c, e)
    ensures Idle(e.c)
  {
  }

  lemma {:induction false} IbufMute(c: Chan)
    ensures Mute(c, IbufEmpty(c))
  {
    InFlightOne(Eof);
  }

  lemma {:induction false} PollDataMute(c: Chan)
    ensures Mute(c, PollData(c))
  {
    var r := PollData(c);
    IbufMute(c);
    if !c.istate.InClosed? && |c.input| > 0 && r.sent != [] {
      InFlightOne(r.sent[0]);
      assert r.sent == [r.sent[0]];
    }
  }

  lemma {:induction false} PollExtMute(c: Chan)
    ensures Mute(c, PollExt(c))
  {
    var r := PollExt(c);
    if r.sent != [] {
      InFlightOne(r.sent[0]);
      assert r.sent == [r.sent[0]];
    }
  }

  lemma {:induction false} IdlePoll(c: Chan)
    requires Idle(c)
    ensures Idle(Poll(c).c) && AdjustIn(Poll(c).sent) == 0
  {
    if c.kind.Open? && !c.closeSent && !c.closeRcvd {
      var p := PollData(c);
      var q := PollExt(p.c);
      PollDataMute(c);
      PollExtMute(p.c);
      MuteIdle(c, p);
      MuteIdle(p.c, q);
      InFlightAppend(p.sent, q.sent);
    }
  }

  lemma {:induction false} EofMute(c: Chan)
    requires c.output == []
    ensures Mute(c, ReceivedIeof(c))
  {
    var d := ReceivedEof(c);
    assert Mute(c, Effect(d, []));
    if d.forceDrain && d.istate.InOpen? {
      IbufMute(d.(istate := InWaitDrain));
    }
  }

  lemma {:induction false} CloseMute(c: Chan)
    ensures Mute(c, ReceivedClose(c))
  {
    CloseIs(c);
    InFlightOne(Eof);
    SignalMute(c, ReceivedClose(c));
  }

  lemma {:induction false} CloseIs(c: Chan)
    ensures ReceivedClose(c) ==
            Effect(c.(closeRcvd := true, istate := InClosed,
                      ostate := if c.kind.Larval? then OutClosed else if c.ostate.OutOpen? then OutWaitDrain else c.ostate,
                      eofSent := c.eofSent || (c.istate.InWaitDrain? && !c.kind.Larval?)),
                   if c.istate.InWaitDrain? && !c.kind.Larval? then [Eof] else [])
  {
  }

  /** What only concerns EOF, CLOSE and the states of the two halves. */
  lemma {:induction false} SignalMute(c: Chan, e: Effect)
    requires e.c == c.(closeRcvd := e.c.closeRcvd, istate := e.c.istate, ostate := e.c.ostate, eofSent := e.c.eofSent)
    requires e.sent == [] || e.sent == [Eof]
    ensures Mute(c, e)
  {
    InFlightOne(Eof);
  }

  lemma {:induction false} NoDataMute(c: Chan)
    requires c.win.local < U32 && c.win.consumed < U32
    ensures Mute(c, Effect(ReceivedData(c, []), []))
  {
    assert c.output + [] == c.output;
    TakesNone(c);
    NothingReceived(c);
  }

  /** No data: nothing changes that counts. */
  lemma {:induction false} TakesNone(c: Chan)
    requires c.win.local < U32 && c.win.consumed < U32
    ensures Take(c, 0) == c && Consume(c, 0) == c
  {
  }

  lemma {:induction false} NothingReceived(c: Chan)
    requires Take(c, 0) == c && Consume(c, 0) == c && c.output + [] == c.output
    ensures ReceivedData(c, []) == c || ReceivedData(c, []) == Lose(c, [])
  {
    assert c.(output := c.output + []) == c;
  }

  lemma {:induction false} NoExtMute(c: Chan)
    requires c.win.local < U32
    ensures Mute(c, Effect(ReceivedExt(c, []), []))
  {
    assert c.extended + [] == c.extended;
    if !c.kind.Open? || !c.efd || !c.use.ExtWrite? {
    }
  }

  lemma {:induction false} IdleReceive(c: Chan, m: Msg, stderr: bool)
    requires Idle(c) && Blank(m) && c.win.local < U32 && c.win.consumed < U32
    ensures Idle(Received(c, m, stderr).c) && AdjustIn(Received(c, m, stderr).sent) == 0
  {
    match m
    case Data(d) => NoDataMute(c);
    case ExtData(d) => NoExtMute(c);
    case Eof => EofMute(c);
    case Close => CloseMute(c);
    case Adjust(n) =>
    case Request =>
  }

  lemma {:induction false} IdleStays(c: Chan, a: Action, inbox: seq<Msg>)
    requires Enabled(c, a, inbox) && Idle(c) && c.win.local < U32 && c.win.consumed < U32
    requires a.Receive? ==> Blank(inbox[0])
    ensures Idle(Act(c, a, inbox).c) && AdjustIn(Act(c, a, inbox).sent) == 0
  {
    match a
    case OutputPoll => IdlePoll(c);
    case Receive(stderr) => IdleReceive(c, inbox[0], stderr);
    case Collect =>
      CollectMute(c);
      MuteIdle(c, Collected(c));
    case SendRequest => InFlightOne(Request);
    case CheckWindow =>
      WindowMute(c);
    case _ =>
      IdleIo(c, a, inbox);
  }

  lemma {:induction false} CollectMute(c: Chan)
    requires !c.kind.Freed?
    ensures Mute(c, Collected(c))
  {
    var r := Collected(c);
    if r.sent != [] {
      InFlightOne(r.sent[0]);
      assert r.sent == [r.sent[0]];
    }
  }

  lemma {:induction false} WindowMute(c: Chan)
    requires Idle(c)
    ensures CheckedWindow(c) == Effect(c, [])
  {
  }

  /** Reading keeps the receiving side; there is nothing to write. */
  lemma {:induction false} IdleIo(c: Chan, a: Action, inbox: seq<Msg>)
    requires Enabled(c, a, inbox) && Idle(c)
    requires !a.OutputPoll? && !a.Receive? && !a.Collect? && !a.SendRequest? && !a.CheckWindow?
    ensures Idle(Act(c, a, inbox).c) && AdjustIn(Act(c, a, inbox).sent) == 0
  {
  }

  /** x has no credit, none is coming, and y will send none. */
  predicate Stalled(t: Net) {
    && t.x.win.remote == 0 && AdjustIn(t.yx) == 0
    && DataIn(t.xy) == [] && ExtIn(t.xy) == [] && Idle(t.y)
  }

  lemma {:induction false} WaitingStalls(t: Net)
    requires Waiting(t) && !WindowDue(t.y)
    ensures Stalled(t)
  {
  }

  /** Without credit x takes bytes in and sends none out. */
  lemma {:induction false} BrokeStep(s: Net, a: Action)
    requires Inv(s) && Stalled(s) && XEnabled(s, a)
    ensures Stalled(XStep(s, a)) && s.x.input <= XStep(s, a).x.input
  {
    var k := Taken(a, s.yx);
    HeadFits(s, k);
    ActLegal(s.x, a, s.yx);
    TailInFlight(s.yx, k);
    XStepIs(s, a, k);
    var r := Act(s.x, a, s.yx);
    BrokeSends(s.x, r, s.yx[..k], if a.ReadData? then a.bytes else [], if a.ReadExt? then a.bytes else []);
    BrokeMoves(s, r, k);
  }

  lemma {:induction false} BrokeMoves(s: Net, r: Effect, k: nat)
    requires Stalled(s) && k <= |s.yx| && AdjustIn(s.yx[k..]) == 0
    requires r.c.win.remote == 0 && DataIn(r.sent) == [] && ExtIn(r.sent) == []
    ensures Stalled(Moved(s, r.c, r.sent, k))
  {
    InFlightAppend(s.xy, r.sent);
  }

  lemma {:induction false} BrokeSends(c: Chan, r: Effect, h: seq<Msg>, rd: seq<u8>, erd: seq<u8>)
    requires Sends(c, r.c, r.sent, h, rd, erd) && c.win.remote == 0 && AdjustIn(h) == 0
    ensures r.c.win.remote == 0 && DataIn(r.sent) == [] && ExtIn(r.sent) == [] && r.c.input == c.input + rd
  {
  }

  lemma {:induction false} HeadBlank(q: seq<Msg>)
    requires q != [] && DataIn(q) == [] && ExtIn(q) == []
    ensures Blank(q[0]) && DataIn(q[1..]) == [] && ExtIn(q[1..]) == []
  {
  }

  lemma {:induction false} IdleStep(s: Net, a: Action)
    requires Inv(s) && Stalled(s) && CanHappen(s, AtY(a))
    ensures Stalled(Happen(s, AtY(a))) && Happen(s, AtY(a)).x == s.x
  {
    if s.xy != [] {
      HeadBlank(s.xy);
    }
    IdleStays(s.y, a, s.xy);
    InFlightAppend(s.yx, Act(s.y, a, s.xy).sent);
  }

  /** Once stalled, stalled in every continuation: no credit ever, and not one byte leaves the input. */
  lemma {:induction false} StallLasts(t: Net, es: seq<Event>)
    requires Inv(t) && Stalled(t) && IsRun(t, es)
    ensures Stalled(After(t, es)) && t.x.input <= After(t, es).x.input
    decreases |es|
  {
    if es != [] {
      var u := Happen(t, es[0]);
      StepKeepsInv(t, es[0]);
      if es[0].AtX? {
        BrokeStep(t, es[0].a);
      } else {
        IdleStep(t, es[0].a);
      }
      StallLasts(u, es[1..]);
    }
  }

  /** The update reaches the sender. */
  lemma {:induction false} UpdateArrives(t: Net)
    requires Inv(t) && Waiting(t) && WindowDue(t.y)
    ensures IsRun(t, [AtY(CheckWindow), AtX(Receive(false))])
    ensures After(t, [AtY(CheckWindow), AtX(Receive(false))]).x.win.remote > 0
  {
    var es := [AtY(CheckWindow), AtX(Receive(false))];
    var u := Happen(t, es[0]);
    StepKeepsInv(t, es[0]);
    UpdateSent(t, u);
    UpdateTaken(u, t.y.win.consumed);
    assert es[1..][0] == es[1] && es[1..][1..] == [];
  }

  lemma {:induction false} UpdateSent(t: Net, u: Net)
    requires Inv(t) && Waiting(t) && WindowDue(t.y) && u == Happen(t, AtY(CheckWindow))
    ensures u.yx == [Adjust(t.y.win.consumed)] && u.x == t.x && t.y.win.consumed > 0
  {
  }

  lemma {:induction false} UpdateTaken(u: Net, n: nat)
    requires Inv(u) && u.yx == [Adjust(n)] && n > 0 && u.x.win.remote == 0
    ensures CanHappen(u, AtX(Receive(false))) && Happen(u, AtX(Receive(false))).x.win.remote == n
  {
    HeadFits(u, 1);
    assert u.yx[..1] == [Adjust(n)];
    InFlightOne(Adjust(n));
  }

  /**
   A sender that waits without credit gets some by the next window update exactly if what was
   dropped and cleared leaves enough of the window; otherwise it is stalled in every run.
   */
  lemma {:induction false} CreditOrStall(t: Net)
    requires Inv(t) && Waiting(t)
    ensures var reopens := |t.y.log.elost| + t.y.log.cleared < t.y.win.max &&
              (|t.y.log.elost| < t.y.win.max / 2 || t.y.win.max - |t.y.log.elost| > Wrap(t.y.win.lpacket * 3));
            if reopens then exists es: seq<Event> :: IsRun(t, es) && After(t, es).x.win.remote > 0
            else forall es: seq<Event> :: IsRun(t, es) ==> After(t, es).x.win.remote == 0 && t.x.input <= After(t, es).x.input
  {
    WindowReopens(t);
    if WindowDue(t.y) {
      UpdateArrives(t);
    } else {
      WaitingStalls(t);
      forall es: seq<Event> | IsRun(t, es)
        ensures After(t, es).x.win.remote == 0 && t.x.input <= After(t, es).x.input
      {
        StallLasts(t, es);
      }
    }
  }

  // ---- two ways to lose the window ----

  const IDLE: Log := Log([], [], [], [], [], [], 0, false)

  /** A fresh end of a channel with a two-byte window in both directions. */
  const TINY: Chan :=
    Chan(Open, InOpen, OutOpen, false, false, false, false, false, ExtIgnore, false, [], [], [],
         Window(2, 2, 2, 2, 0, 2), IDLE)

  lemma {:induction false} RunCons(s: Net, e: Event, t: Net, es: seq<Event>)
    requires CanHappen(s, e) && t == Happen(s, e) && IsRun(t, es)
    ensures IsRun(s, [e] + es) && After(s, [e] + es) == After(t, es)
  {
    assert ([e] + es)[1..] == es;
  }

  lemma {:induction false} FourSteps(s: Net, e0: Event, s1: Net, e1: Event, s2: Net, e2: Event, s3: Net, e3: Event, s4: Net)
    requires Init(s)
    requires CanHappen(s, e0) && s1 == Happen(s, e0) && CanHappen(s1, e1) && s2 == Happen(s1, e1)
    requires CanHappen(s2, e2) && s3 == Happen(s2, e2) && CanHappen(s3, e3) && s4 == Happen(s3, e3)
    ensures Reachable(s4)
  {
    assert IsRun(s4, []) && After(s4, []) == s4;
    RunCons(s3, e3, s4, []);
    RunCons(s2, e2, s3, [e3] + []);
    RunCons(s1, e1, s2, [e2] + ([e3] + []));
    RunCons(s, e0, s1, [e1] + ([e2] + ([e3] + [])));
  }

  lemma {:induction false} StallSends(c: Chan)
    requires c == ReadBytes(TINY, [7, 8, 9])
    ensures Poll(c) == Effect(Spend(c.(input := [9]), 2), [Data([7, 8])])
  {
    assert c.input == [7, 8, 9];
    assert c.input[..2] == [7, 8] && c.input[2..] == [9];
    var r := PollData(c);
    assert r == Effect(Spend(c.(input := [9]), 2), [Data([7, 8])]);
    assert PollExt(r.c) == Effect(r.c, []);
  }

  /** A write failure clears a full window: the sender has data and will never get credit. */
  lemma {:induction false} ClearedWindowStalls() returns (t: Net)
    ensures Reachable(t) && Waiting(t) && t.x.input == [9] && t.y.log.cleared == 2 && t.y.log.elost == []
    ensures forall es: seq<Event> :: IsRun(t, es) ==> After(t, es).x.win.remote == 0 && t.x.input <= After(t, es).x.input
  {
    var s2 := StallSent();
    var s3 := Happen(s2, AtY(Receive(false)));
    t := Happen(s3, AtY(WriteFail));
    var s0 := Net(TINY, TINY, [], []);
    var s1 := Happen(s0, AtX(ReadData([7, 8, 9])));
    FourSteps(s0, AtX(ReadData([7, 8, 9])), s1, AtX(OutputPoll), s2, AtY(Receive(false)), s3, AtY(WriteFail), t);
    LostStalls(t);
  }

  /** Two of the three octets are on their way. */
  lemma {:induction false} StallSent() returns (s2: Net)
    ensures var s0 := Net(TINY, TINY, [], []);
            && Init(s0) && CanHappen(s0, AtX(ReadData([7, 8, 9])))
            && var s1 := Happen(s0, AtX(ReadData([7, 8, 9])));
               CanHappen(s1, AtX(OutputPoll)) && s2 == Happen(s1, AtX(OutputPoll))
    ensures s2.x.input == [9] && s2.x.win.remote == 0 && s2.x.kind.Open? && s2.x.istate.InOpen?
    ensures s2.xy == [Data([7, 8])] && s2.yx == [] && s2.y == TINY
  {
    var s0 := Net(TINY, TINY, [], []);
    var s1 := Happen(s0, AtX(ReadData([7, 8, 9])));
    StallSends(s1.x);
    s2 := Happen(s1, AtX(OutputPoll));
  }

  /** An end that forwards extended data. */
  const TALKER: Chan := TINY.(efd := true, use := ExtRead)

  lemma {:induction false} TalkerSends(c: Chan)
    requires c == ReadExtBytes(TALKER, [7, 8])
    ensures Poll(c) == Effect(Spend(c.(extended := []), 2), [ExtData([7, 8])])
  {
    assert c.extended == [7, 8];
    assert c.extended[..2] == [7, 8] && c.extended[2..] == [];
    assert PollData(c) == Effect(c, []);
    assert PollExt(c) == Effect(Spend(c.(extended := []), 2), [ExtData([7, 8])]);
  }

  /** Extended data that the receiver cannot write is dropped with its credit: the same end. */
  lemma {:induction false} DroppedExtendedStalls() returns (t: Net)
    ensures Reachable(t) && Waiting(t) && t.x.input == [9] && t.y.log.cleared == 0 && t.y.log.elost == [7, 8]
    ensures forall es: seq<Event> :: IsRun(t, es) ==> After(t, es).x.win.remote == 0 && t.x.input <= After(t, es).x.input
  {
    var s2 := TalkerSent();
    var s3 := Happen(s2, AtY(Receive(false)));
    TinyDrops(s2.y, s3.y);
    t := Happen(s3, AtX(ReadData([9])));
    var s0 := Net(TALKER, TINY, [], []);
    var s1 := Happen(s0, AtX(ReadExt([7, 8])));
    FourSteps(s0, AtX(ReadExt([7, 8])), s1, AtX(OutputPoll), s2, AtY(Receive(false)), s3, AtX(ReadData([9])), t);
    LostStalls(t);
  }

  /** The two octets are on their way. */
  lemma {:induction false} TalkerSent() returns (s2: Net)
    ensures var s0 := Net(TALKER, TINY, [], []);
            && Init(s0) && CanHappen(s0, AtX(ReadExt([7, 8])))
            && var s1 := Happen(s0, AtX(ReadExt([7, 8])));
               CanHappen(s1, AtX(OutputPoll)) && s2 == Happen(s1, AtX(OutputPoll))
    ensures s2.x.input == [] && s2.x.win.remote == 0 && s2.x.kind.Open? && s2.x.istate.InOpen?
    ensures s2.xy == [ExtData([7, 8])] && s2.yx == [] && s2.y == TINY
  {
    var s0 := Net(TALKER, TINY, [], []);
    var s1 := Happen(s0, AtX(ReadExt([7, 8])));
    TalkerSends(s1.x);
    s2 := Happen(s1, AtX(OutputPoll));
  }

  lemma {:induction false} TinyDrops(c: Chan, d: Chan)
    requires c == TINY && d == Received(c, ExtData([7, 8]), false).c
    ensures d == c.(log := c.log.(elost := [7, 8]))
  {
  }

  lemma {:induction false} LostStalls(t: Net)
    requires Reachable(t) && Waiting(t) && |t.y.log.elost| + t.y.log.cleared >= t.y.win.max
    ensures forall es: seq<Event> :: IsRun(t, es) ==> After(t, es).x.win.remote == 0 && t.x.input <= After(t, es).x.input
  {
    ReachableInv(t);
    CreditOrStall(t);
  }
}
