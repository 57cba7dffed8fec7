/**
 struct Channel and its handlers as the program has them: flags and windows updated in place, and
 three buffers that are compacted, enlarged and consumed.  Every method does what the step function
 of ChannelStep says of the octets the buffers hold, and says exactly when a buffer gives up.
 */
module ChannelObject {
  import opened Bytes
  import opened ChannelStep
  import opened ChannelNet
  import opened ChannelTheorems
  import opened SshBuffer
  import opened EfdBuffer

  /** The packet layer refuses longer packets. */
  const PACKET_MAX: nat := 256 * 1024

  /** Windows up to this size never fill a buffer; the largest one in use is 2 MB. */
  const SAFE_WINDOW: nat := BUFFER_MAX_LEN - BUFFER_MAX_CHUNK - BUFFER_ALLOCSZ - PACKET_MAX

  /** Where the account of the window holds, data within it finds room. */
  lemma {:induction false} OutputFits(c: Chan, s: Shape, n: nat)
    requires Sane(s) && s.end - s.offset == |c.output| && n <= c.win.local && n <= PACKET_MAX
    ensures Conserved(c) && c.win.max <= SAFE_WINDOW ==> !Refuses(s, n)
  {
    if Conserved(c) && c.win.max <= SAFE_WINDOW {
      Roomy(s, n, c.win.max);
    }
  }

  lemma {:induction false} ExtendedFits(c: Chan, s: Shape, n: nat)
    requires Sane(s) && s.end - s.offset == |c.extended| && c.use.ExtWrite? && n <= c.win.local && n <= PACKET_MAX
    ensures Conserved(c) && c.win.max <= SAFE_WINDOW ==> !Refuses(s, n)
  {
    if Conserved(c) && c.win.max <= SAFE_WINDOW {
      Roomy(s, n, c.win.max);
    }
  }

  class Channel {
    var kind: Kind
    var istate: InState
    var ostate: OutState
    var closeSent: bool
    var closeRcvd: bool
    var eofSent: bool
    var eofRcvd: bool
    var efd: bool
    var use: ExtUse
    var forceDrain: bool
    const input: Buffer
    const output: Buffer
    const extended: Buffer
    var win: Window
    ghost var log: Log

    ghost predicate Valid()
      reads this, input, output, extended
    {
      && input != output && input != extended && output != extended
      && input.buf != output.buf && input.buf != extended.buf && output.buf != extended.buf
      && input.Valid() && output.Valid() && extended.Valid()
    }

    ghost function View(): (c: Chan)
      reads this, input, input.buf, output, output.buf, extended, extended.buf
      requires Valid()
    {
      Chan(kind, istate, ostate, closeSent, closeRcvd, eofSent, eofRcvd, efd, use, forceDrain,
           input.Contents(), output.Contents(), extended.Contents(), win, log)
    }

    /** channel_new: empty buffers and a full receive window. */
    constructor (k: Kind, hasEfd: bool, usage: ExtUse, drain: bool, w: Window)
      requires w.consumed == 0 && w.local == w.max < U32
      requires k.Open? || (k.Larval? && w.max == 0 && usage.ExtIgnore? && !drain)
      ensures Valid() && ChannelNet.Fresh(View()) && win == w
      ensures fresh(input) && fresh(input.buf) && fresh(output) && fresh(output.buf) && fresh(extended) && fresh(extended.buf)
    {
      kind, istate, ostate := k, InOpen, OutOpen;
      closeSent, closeRcvd, eofSent, eofRcvd := false, false, false, false;
      efd, use, forceDrain, win := hasEfd, usage, drain, w;
      log := Log([], [], [], [], [], [], 0, false);
      var a := new Buffer();
      var b := new Buffer();
      var c := new Buffer();
      input, output, extended := a, b, c;
    }

    /** The part of channel_pre_open that asks for input. */
    method WantsInput() returns (want: bool)
      requires Valid()
      modifies input, input.buf
      ensures Valid() && View() == old(View()) && input.buf == old(input.buf)
      ensures want <==> istate.InOpen? && 0 < win.remote && |input.Contents()| < win.remote &&
                        !Refuses(old(input.Dimensions()), CHAN_RBUF)
      ensures want ==> !Refuses(input.Dimensions(), CHAN_RBUF)
    {
      want := false;
      if istate.InOpen? && win.remote > 0 && input.Length() < win.remote {
        want := input.CheckAlloc(CHAN_RBUF);
      }
    }

    /** channel_handle_rfd when read answered `data`. */
    method HandleRfd(data: seq<u8>) returns (r: Outcome)
      requires Valid() && |data| <= CHAN_RBUF
      modifies this`log, input, input.buf
      ensures Valid() && (input.buf == old(input.buf) || fresh(input.buf))
      ensures r.Fatal? <==> Refuses(old(input.Dimensions()), |data|)
      ensures r.Pass? ==> View() == ReadBytes(old(View()), data)
    {
      r := input.Append(data);
      if r.Pass? {
        log := log.(got := log.got + data);
      }
    }

    /** A read that channel_pre_open asked for never aborts. */
    method ReadInput(data: seq<u8>) returns (want: bool, r: Outcome)
      requires Valid() && |data| <= CHAN_RBUF
      modifies this`log, input, input.buf
      ensures Valid() && r.Pass?
      ensures View() == if want then ReadBytes(old(View()), data) else old(View())
    {
      r := Pass;
      want := WantsInput();
      if want {
        LessFits(input.Dimensions(), CHAN_RBUF, |data|);
        r := HandleRfd(data);
      }
    }

    /** write(wfd) took `len` octets of the output buffer. */
    method HandleWfd(len: nat)
      requires Valid() && len <= |output.Contents()|
      modifies this`win, this`log, output
      ensures Valid() && output.buf == old(output.buf) && View() == Wrote(old(View()), len)
    {
      log := log.(put := log.put + output.Contents()[..len]);
      var ok := output.ConsumeRet(len);
      win := win.(consumed := Wrap(win.consumed + len));
    }

    /** channel_handle_efd when extended data goes out; write answered `len`. */
    method HandleEfdWrite(len: int)
      requires Valid() && efd && use.ExtWrite? && 0 < |extended.Contents()| && len <= |extended.Contents()|
      modifies this`efd, this`win, this`log, extended
      ensures Valid() && extended.buf == old(extended.buf)
      ensures View() == if len <= 0 then old(View()).(efd := false) else WroteExt(old(View()), len)
    {
      if len <= 0 {
        efd := false;
      } else {
        log := log.(eput := log.eput + extended.Contents()[..len]);
        var ok := extended.ConsumeRet(len);
        win := win.(consumed := Wrap(win.consumed + len));
      }
    }

    /**
     channel_handle_efd when extended data comes in; read answered `data`.  Unlike for rfd nothing
     asks the buffer first, only the window of the peer.
     */
    method HandleEfdRead(data: seq<u8>) returns (r: Outcome)
      requires Valid() && efd && use.ExtRead? && |data| <= CHAN_RBUF
      modifies this`efd, this`log, extended, extended.buf
      ensures Valid() && (extended.buf == old(extended.buf) || fresh(extended.buf))
      ensures r.Fatal? <==> data != [] && Refuses(old(extended.Dimensions()), |data|)
      ensures r.Pass? ==> View() == if data == [] then old(View()).(efd := false) else ReadExtBytes(old(View()), data)
      ensures |old(extended.Contents())| < win.remote <= EFD_LIMIT ==> r.Pass?
      ensures r.Pass? && data != [] ==> extended.Dimensions() == Appended(old(extended.Dimensions()), |data|)
    {
      r := Pass;
      if |data| == 0 {
        efd := false;
        return;
      }
      if |extended.Contents()| < win.remote <= EFD_LIMIT {
        EfdFits(extended.Dimensions(), win.remote);
        LessFits(extended.Dimensions(), CHAN_RBUF, |data|);
      }
      r := extended.Append(data);
      if r.Pass? {
        log := log.(egot := log.egot + data);
      }
    }

    method ReadFailed()
      requires Valid()
      modifies this`istate
      ensures Valid() && View() == ChannelStep.ReadFailed(old(View()))
    {
      if istate.InOpen? {
        istate := InWaitDrain;
      }
    }

    method ShutdownWrite()
      requires Valid()
      modifies this`ostate, this`log, output
      ensures Valid() && output.buf == old(output.buf) && View() == ChannelStep.ShutdownWrite(old(View()))
    {
      log := log.(lost := log.lost + output.Contents(), cleared := log.cleared + |output.Contents()|);
      output.Clear();
      ostate := OutClosed;
    }

    method WriteFailed()
      requires Valid()
      modifies this`ostate, this`log, output
      ensures Valid() && output.buf == old(output.buf) && View() == ChannelStep.WriteFailed(old(View()))
    {
      if !ostate.OutClosed? {
        ShutdownWrite();
        log := log.(wfail := true);
      }
    }

    method ObufEmpty()
      requires Valid()
      modifies this`ostate, this`log, output
      ensures Valid() && output.buf == old(output.buf) && View() == ChannelStep.ObufEmpty(old(View()))
    {
      if output.Length() == 0 && ostate.OutWaitDrain? {
        ShutdownWrite();
      }
    }

    method IbufEmpty() returns (sent: seq<Msg>)
      requires Valid()
      modifies this`istate, this`eofSent
      ensures Valid() && Effect(View(), sent) == ChannelStep.IbufEmpty(old(View()))
    {
      sent := [];
      if input.Length() > 0 {
        return;
      }
      if istate.InWaitDrain? {
        if !closeSent {
          sent := [Eof];
          eofSent := true;
        }
        istate := InClosed;
      }
    }

    method CheckWindow() returns (sent: seq<Msg>)
      requires Valid()
      modifies this`win
      ensures Valid() && Effect(View(), sent) == CheckedWindow(old(View()))
    {
      sent := [];
      if kind.Open? && !closeSent && !closeRcvd &&
         (Wrap(win.max - win.local) > Wrap(win.lpacket * 3) || win.local < win.max / 2) && win.consumed > 0
      {
        sent := [Adjust(win.consumed)];
        win := win.(local := Wrap(win.local + win.consumed));
        win := win.(consumed := 0);
      }
    }

    /** The first `len` octets of the input go to the peer. */
    method SendInput(len: nat) returns (sent: seq<Msg>)
      requires Valid() && len <= |input.Contents()|
      modifies this`win, input
      ensures Valid() && input.buf == old(input.buf)
      ensures var c := old(View()); Effect(View(), sent) == Effect(Spend(c.(input := c.input[len..]), len), [Data(c.input[..len])])
    {
      ghost var was := input.Contents();
      var ok, data := input.GetRet(len);
      assert data == was[..len] && input.Contents() == was[len..];
      sent := [Data(data)];
      win := win.(remote := Wrap(win.remote - len));
    }

    /** The part of channel_output_poll that sends from the input buffer. */
    method PollInput() returns (sent: seq<Msg>)
      requires Valid()
      modifies this`win, this`istate, this`eofSent, input
      ensures Valid() && input.buf == old(input.buf) && Effect(View(), sent) == PollData(old(View()))
    {
      sent := [];
      if !istate.InClosed? && input.Length() > 0 {
        var len := input.Length();
        if len > win.remote {
          len := win.remote;
        }
        if len > win.rpacket {
          len := win.rpacket;
        }
        if len > 0 {
          sent := SendInput(len);
        }
      } else if istate.InWaitDrain? && !(use.ExtRead? && (efd || extended.Length() > 0)) {
        sent := IbufEmpty();
      }
    }

    /** The same for extended data. */
    method SendExtended(len: nat) returns (sent: seq<Msg>)
      requires Valid() && len <= |extended.Contents()|
      modifies this`win, extended
      ensures Valid() && extended.buf == old(extended.buf)
      ensures var c := old(View());
              Effect(View(), sent) == Effect(Spend(c.(extended := c.extended[len..]), len), [ExtData(c.extended[..len])])
    {
      ghost var was := extended.Contents();
      var ok, data := extended.GetRet(len);
      assert data == was[..len] && extended.Contents() == was[len..];
      sent := [ExtData(data)];
      win := win.(remote := Wrap(win.remote - len));
    }

    /** The part of channel_output_poll that sends extended data. */
    method PollExtended() returns (sent: seq<Msg>)
      requires Valid()
      modifies this`win, extended
      ensures Valid() && extended.buf == old(extended.buf) && Effect(View(), sent) == PollExt(old(View()))
    {
      sent := [];
      if !eofSent && win.remote > 0 && extended.Length() > 0 && use.ExtRead? {
        var len := extended.Length();
        if len > win.remote {
          len := win.remote;
        }
        if len > win.rpacket {
          len := win.rpacket;
        }
        sent := SendExtended(len);
      }
    }

    /** The body of channel_output_poll for one channel. */
    method OutputPoll() returns (sent: seq<Msg>)
      requires Valid()
      modifies this, input, extended
      ensures Valid() && input.buf == old(input.buf) && extended.buf == old(extended.buf)
      ensures Effect(View(), sent) == Poll(old(View()))
    {
      sent := [];
      if !kind.Open? || closeSent || closeRcvd {
        return;
      }
      var data := PollInput();
      var ext := PollExtended();
      sent := data + ext;
    }

    /**
     channel_input_data.  The receive window keeps the output buffer below its limits, so data from a
     conforming peer never aborts.
     */
    method InputData(data: seq<u8>) returns (r: Outcome)
      requires Valid() && |data| <= PACKET_MAX
      modifies this`win, this`log, output, output.buf
      ensures Valid() && (output.buf == old(output.buf) || fresh(output.buf))
      ensures r.Fatal? <==>
                kind.Open? && ostate.OutOpen? && |data| <= old(win.local) && Refuses(old(output.Dimensions()), |data|)
      ensures r.Pass? ==> View() == ReceivedData(old(View()), data)
      ensures Conserved(old(View())) && old(win.max) <= SAFE_WINDOW ==> r.Pass?
    {
      r := Pass;
      if !kind.Open? {
        log := log.(lost := log.lost + data);
        return;
      }
      if !ostate.OutOpen? {
        TakeOff(|data|);
        win := win.(consumed := Wrap(win.consumed + |data|));
        log := log.(lost := log.lost + data);
        return;
      }
      if |data| > win.local {
        log := log.(lost := log.lost + data);
        return;
      }
      r := QueueOutput(data);
    }

    /** The data goes behind the output, and its length off the window. */
    method QueueOutput(data: seq<u8>) returns (r: Outcome)
      requires Valid() && kind.Open? && ostate.OutOpen? && |data| <= win.local && |data| <= PACKET_MAX
      modifies this`win, output, output.buf
      ensures Valid() && (output.buf == old(output.buf) || fresh(output.buf))
      ensures r.Fatal? <==> Refuses(old(output.Dimensions()), |data|)
      ensures r.Pass? ==> View() == ReceivedData(old(View()), data)
      ensures Conserved(old(View())) && old(win.max) <= SAFE_WINDOW ==> r.Pass?
    {
      OutputFits(View(), output.Dimensions(), |data|);
      r := AppendOutput(data);
      if r.Pass? {
        TakeOff(|data|);
      }
    }

    method AppendOutput(data: seq<u8>) returns (r: Outcome)
      requires Valid() && |data| <= PACKET_MAX
      modifies output, output.buf
      ensures Valid() && (output.buf == old(output.buf) || fresh(output.buf))
      ensures r.Fatal? <==> Refuses(old(output.Dimensions()), |data|)
      ensures r.Pass? ==> View() == old(View()).(output := old(output.Contents()) + data)
    {
      r := output.Append(data);
    }

    method TakeOff(n: nat)
      requires Valid()
      modifies this`win
      ensures Valid() && View() == Take(old(View()), n)
    {
      win := win.(local := Wrap(win.local - n));
    }

    /** The same for extended data. */
    method QueueExtended(data: seq<u8>) returns (r: Outcome)
      requires Valid() && kind.Open? && efd && use.ExtWrite? && |data| <= win.local && |data| <= PACKET_MAX
      modifies this`win, extended, extended.buf
      ensures Valid() && (extended.buf == old(extended.buf) || fresh(extended.buf))
      ensures r.Fatal? <==> Refuses(old(extended.Dimensions()), |data|)
      ensures r.Pass? ==> View() == ReceivedExt(old(View()), data)
      ensures Conserved(old(View())) && old(win.max) <= SAFE_WINDOW ==> r.Pass?
    {
      ExtendedFits(View(), extended.Dimensions(), |data|);
      r := AppendExtended(data);
      if r.Pass? {
        TakeOff(|data|);
      }
    }

    method AppendExtended(data: seq<u8>) returns (r: Outcome)
      requires Valid() && |data| <= PACKET_MAX
      modifies extended, extended.buf
      ensures Valid() && (extended.buf == old(extended.buf) || fresh(extended.buf))
      ensures r.Fatal? <==> Refuses(old(extended.Dimensions()), |data|)
      ensures r.Pass? ==> View() == old(View()).(extended := old(extended.Contents()) + data)
    {
      r := extended.Append(data);
    }

    /** channel_input_extended_data, with the same guarantee. */
    method InputExtendedData(data: seq<u8>) returns (r: Outcome)
      requires Valid() && |data| <= PACKET_MAX
      modifies this`win, this`log, extended, extended.buf
      ensures Valid() && (extended.buf == old(extended.buf) || fresh(extended.buf))
      ensures r.Fatal? <==>
                kind.Open? && efd && use.ExtWrite? && |data| <= old(win.local) &&
                Refuses(old(extended.Dimensions()), |data|)
      ensures r.Pass? ==> View() == ReceivedExt(old(View()), data)
      ensures Conserved(old(View())) && old(win.max) <= SAFE_WINDOW ==> r.Pass?
    {
      r := Pass;
      if kind.Open? && efd && use.ExtWrite? && |data| <= win.local {
        r := QueueExtended(data);
      } else {
        log := log.(elost := log.elost + data);
      }
    }

    method InputWindowAdjust(adjust: nat)
      requires Valid()
      modifies this`win
      ensures Valid() && View() == ReceivedAdjust(old(View()), adjust)
    {
      win := win.(remote := Wrap(win.remote + adjust));
    }

    /** chan_rcvd_ieof. */
    method RcvdIeof()
      requires Valid()
      modifies this`eofRcvd, this`ostate, this`log, output
      ensures Valid() && output.buf == old(output.buf) && View() == ReceivedEof(old(View()))
    {
      eofRcvd := true;
      if ostate.OutOpen? {
        ostate := OutWaitDrain;
      }
      if ostate.OutWaitDrain? && output.Length() == 0 &&
         !(use.ExtWrite? && efd && (!(eofRcvd || closeRcvd) || extended.Length() > 0))
      {
        ObufEmpty();
      }
    }

    method InputIeof() returns (sent: seq<Msg>)
      requires Valid()
      modifies this, output
      ensures Valid() && output.buf == old(output.buf) && Effect(View(), sent) == ReceivedIeof(old(View()))
    {
      sent := [];
      RcvdIeof();
      if forceDrain && istate.InOpen? {
        istate := InWaitDrain;
        if input.Length() == 0 {
          sent := IbufEmpty();
        }
      }
    }

    method InputOclose() returns (sent: seq<Msg>)
      requires Valid()
      modifies this`closeRcvd, this`ostate, this`istate, this`eofSent
      ensures Valid() && Effect(View(), sent) == ReceivedClose(old(View()))
    {
      sent := [];
      closeRcvd := true;
      if kind.Larval? {
        ostate := OutClosed;
        istate := InClosed;
        return;
      }
      if ostate.OutOpen? {
        ostate := OutWaitDrain;
      }
      match istate
      case InOpen =>
        istate := InClosed;
      case InWaitDrain =>
        sent := [Eof];
        eofSent := true;
        istate := InClosed;
      case InClosed =>
    }

    method GarbageCollect() returns (sent: seq<Msg>)
      requires Valid() && !kind.Freed?
      modifies this`closeSent, this`kind
      ensures Valid() && Effect(View(), sent) == Collected(old(View()))
    {
      sent := [];
      if !istate.InClosed? || !ostate.OutClosed? {
        return;
      }
      if !closeSent {
        sent := [Close];
        closeSent := true;
      }
      if closeRcvd {
        kind := Freed;
      }
    }

    /** CLOSE of the extended descriptor after a failure. */
    method EfdFailed()
      requires Valid() && efd
      modifies this`efd
      ensures Valid() && View() == old(View()).(efd := false)
    {
      efd := false;
    }

    /** The request that starts a session, on a larval channel. */
    method InputRequest(stderr: bool) returns (sent: seq<Msg>)
      requires Valid()
      modifies this`kind, this`efd, this`use, this`win
      ensures Valid() && Effect(View(), sent) == ReceivedRequest(old(View()), stderr)
    {
      sent := [];
      if kind.Larval? {
        kind, efd, use := Open, stderr, if stderr then ExtRead else ExtIgnore;
        win := win.(local := CHAN_SES_WINDOW_DEFAULT, max := CHAN_SES_WINDOW_DEFAULT);
        sent := [Adjust(CHAN_SES_WINDOW_DEFAULT)];
      }
    }

    /** The message handlers that move data. */
    method ReceiveData(m: Msg, stderr: bool) returns (r: Outcome)
      requires Valid() && (m.Data? || m.ExtData?) && |m.data| <= PACKET_MAX
      modifies this, output, output.buf, extended, extended.buf
      ensures Valid() && BuffersOwned(old(input.buf), old(output.buf), old(extended.buf))
      ensures r.Pass? ==> Effect(View(), []) == Received(old(View()), m, stderr)
      ensures r.Fatal? ==> Refuses(old(if m.Data? then output.Dimensions() else extended.Dimensions()), |m.data|)
      ensures Conserved(old(View())) && old(win.max) <= SAFE_WINDOW ==> r.Pass?
    {
      if m.Data? {
        r := InputData(m.data);
      } else {
        r := InputExtendedData(m.data);
      }
    }

    /** The message handlers that do not. */
    method ReceiveSignal(m: Msg, stderr: bool) returns (sent: seq<Msg>)
      requires Valid() && !m.Data? && !m.ExtData?
      modifies this, output
      ensures Valid() && output.buf == old(output.buf)
      ensures Effect(View(), sent) == Received(old(View()), m, stderr)
    {
      sent := [];
      match m
      case Adjust(n) => InputWindowAdjust(n);
      case Eof => sent := InputIeof();
      case Close => sent := InputOclose();
      case Request => sent := InputRequest(stderr);
    }

    /** Each buffer is the array it was or a new one. */
    twostate predicate BuffersOwned(i: array<u8>, o: array<u8>, e: array<u8>)
      reads input, output, extended
    {
      && (input.buf == i || fresh(input.buf)) && (output.buf == o || fresh(output.buf))
      && (extended.buf == e || fresh(extended.buf))
    }

    /** What the descriptors do. */
    method PerformIo(a: Action) returns (r: Outcome)
      requires Valid() && Enabled(View(), a, []) && Io(a)
      modifies this, input, input.buf, output, extended, extended.buf
      ensures Valid() && BuffersOwned(old(input.buf), old(output.buf), old(extended.buf))
      ensures r.Pass? ==> Effect(View(), []) == Act(old(View()), a, [])
      ensures r.Fatal? ==> (a.ReadData? && Refuses(old(input.Dimensions()), |a.bytes|)) ||
                           (a.ReadExt? && Refuses(old(extended.Dimensions()), |a.bytes|))
    {
      r := Pass;
      match a
      case ReadData(d) => r := HandleRfd(d);
      case ReadFail => ReadFailed();
      case WriteData(n) => HandleWfd(n);
      case WriteFail => WriteFailed();
      case ReadExt(d) => r := HandleEfdRead(d);
      case WriteExt(n) => HandleEfdWrite(n);
      case ExtFail => EfdFailed();
    }

    /** What the event loop does by itself. */
    method PerformLoop(a: Action) returns (sent: seq<Msg>)
      requires Valid() && Enabled(View(), a, []) && !Io(a) && !a.Receive?
      modifies this, input, output, extended
      ensures Valid() && input.buf == old(input.buf) && output.buf == old(output.buf) && extended.buf == old(extended.buf)
      ensures Effect(View(), sent) == Act(old(View()), a, [])
    {
      sent := [];
      match a
      case CheckWindow => sent := CheckWindow();
      case OutputPoll => sent := OutputPoll();
      case OutputDrained => ObufEmpty();
      case Collect => sent := GarbageCollect();
      case SendRequest => sent := [Request];
    }

    /** Any action of an end: the object does what the machine does, unless a buffer gives up. */
    method Perform(a: Action, inbox: seq<Msg>) returns (r: Outcome, sent: seq<Msg>)
      requires Valid() && Enabled(View(), a, inbox)
      requires a.Receive? && (inbox[0].Data? || inbox[0].ExtData?) ==> |inbox[0].data| <= PACKET_MAX
      modifies this, input, input.buf, output, output.buf, extended, extended.buf
      ensures Valid() && BuffersOwned(old(input.buf), old(output.buf), old(extended.buf))
      ensures r.Pass? ==> Effect(View(), sent) == Act(old(View()), a, inbox)
      ensures r.Fatal? ==> a.ReadData? || a.ReadExt? || (a.Receive? && (inbox[0].Data? || inbox[0].ExtData?))
      ensures a.Receive? && Conserved(old(View())) && old(win.max) <= SAFE_WINDOW ==> r.Pass?
    {
      r, sent := Pass, [];
      if a.Receive? && (inbox[0].Data? || inbox[0].ExtData?) {
        r := ReceiveData(inbox[0], a.stderr);
      } else if a.Receive? {
        sent := ReceiveSignal(inbox[0], a.stderr);
      } else if Io(a) {
        r := PerformIo(a);
      } else {
        sent := PerformLoop(a);
      }
    }
  }

  predicate Io(a: Action) {
    a.ReadData? || a.ReadFail? || a.WriteData? || a.WriteFail? || a.ReadExt? || a.WriteExt? || a.ExtFail?
  }

  /**
   In every reachable state the next data message fits into the buffer it is for, whatever the layout
   of the buffer, as long as the window is one the buffers can hold.
   */
  lemma {:induction false} NextMessageFits(t: Net, s: Shape)
    requires Reachable(t) && t.xy != [] && t.y.win.max <= SAFE_WINDOW && Sane(s)
    ensures var m := t.xy[0];
            && (m.Data? && |m.data| <= PACKET_MAX && s.end - s.offset == |t.y.output| && t.y.ostate.OutOpen? ==>
                  !Refuses(s, |m.data|))
            && (m.ExtData? && |m.data| <= PACKET_MAX && s.end - s.offset == |ExtBuffered(t.y)| && t.y.use.ExtWrite? ==>
                  !Refuses(s, |m.data|))
  {
    ReachableInv(t);
    ErrorBranchesUnreachable(t);
    var m := t.xy[0];
    if (m.Data? || m.ExtData?) && |m.data| <= PACKET_MAX {
      if m.Data? && s.end - s.offset == |t.y.output| {
        Roomy(s, |m.data|, t.y.win.max);
      } else if m.ExtData? && s.end - s.offset == |ExtBuffered(t.y)| {
        Roomy(s, |m.data|, t.y.win.max);
      }
    }
  }
}
