/**
 One end of an SSH2 channel as a value, and what each handler of channels.c and nchan.c
 does to it.  The handlers return the messages they hand to the packet layer.
 */
module ChannelStep {
  import opened Bytes

  datatype Kind = Larval | Open | Freed
  datatype InState = InOpen | InWaitDrain | InClosed
  datatype OutState = OutOpen | OutWaitDrain | OutClosed
  datatype ExtUse = ExtIgnore | ExtRead | ExtWrite

  datatype Msg =
    | Data(data: seq<u8>)
    | ExtData(data: seq<u8>)
    | Adjust(n: nat)
    | Eof
    | Close
    | Request

  /** The window fields of struct Channel. */
  datatype Window = Window(
    remote: nat,          // remote_window
    rpacket: nat,         // remote_maxpacket
    local: nat,           // local_window
    max: nat,             // local_window_max
    consumed: nat,        // local_consumed
    lpacket: nat)         // local_maxpacket

  /** What the file descriptors saw; no handler reads it. */
  datatype Log = Log(
    got: seq<u8>,       // everything read from rfd
    put: seq<u8>,       // everything written to wfd
    lost: seq<u8>,      // channel data taken off the wire that will never reach wfd
    egot: seq<u8>,      // everything read from efd
    eput: seq<u8>,      // everything written to efd
    elost: seq<u8>,     // extended data taken off the wire and refused
    cleared: nat,         // how many bytes of `lost` were cleared from `output`
    wfail: bool)          // a write to wfd failed

  datatype Chan = Chan(
    kind: Kind,
    istate: InState,
    ostate: OutState,
    closeSent: bool,
    closeRcvd: bool,
    eofSent: bool,
    eofRcvd: bool,
    efd: bool,            // efd != -1
    use: ExtUse,          // extended_usage
    forceDrain: bool,
    input: seq<u8>,
    output: seq<u8>,
    extended: seq<u8>,
    win: Window,
    log: Log)

  /** What can happen at one end.  Sizes, bytes and failures come from outside. */
  datatype Action =
    | ReadData(bytes: seq<u8>)     // read(rfd) returned bytes
    | ReadFail                       // read(rfd) failed or hit end of file
    | WriteData(n: nat)              // write(wfd) took n bytes
    | WriteFail                      // write(wfd) failed
    | ReadExt(bytes: seq<u8>)      // read(efd) returned bytes
    | WriteExt(n: nat)               // write(efd) took n bytes
    | ExtFail                        // read or write on efd failed
    | CheckWindow
    | OutputPoll
    | OutputDrained                  // channel_pre_open notices the empty output buffer
    | Collect                        // channel_garbage_collect
    | SendRequest                    // the client asks for the session to start
    | Receive(stderr: bool)          // the next message of the peer is handled

  /** An end after an action, and the messages it handed to the packet layer. */
  datatype Effect = Effect(c: Chan, sent: seq<Msg>)

  const CHAN_RBUF: nat := 16 * 1024
  const CHAN_SES_WINDOW_DEFAULT: nat := 64 * 32 * 1024

  // ---- window arithmetic, all of it on u_int ----

  function Spend(c: Chan, n: nat): (r: Chan) {
    c.(win := c.win.(remote := Wrap(c.win.remote - n)))
  }

  function Take(c: Chan, n: nat): (r: Chan) {
    c.(win := c.win.(local := Wrap(c.win.local - n)))
  }

  function Consume(c: Chan, n: nat): (r: Chan) {
    c.(win := c.win.(consumed := Wrap(c.win.consumed + n)))
  }

  function Lose(c: Chan, d: seq<u8>): (r: Chan) {
    c.(log := c.log.(lost := c.log.lost + d))
  }

  // ---- nchan.c ----

  predicate EfdInputActive(c: Chan) {
    c.use.ExtRead? && (c.efd || |c.extended| > 0)
  }

  predicate EfdOutputActive(c: Chan) {
    c.use.ExtWrite? && c.efd && (!(c.eofRcvd || c.closeRcvd) || |c.extended| > 0)
  }

  function ReadFailed(c: Chan): (r: Chan) {
    if c.istate.InOpen? then c.(istate := InWaitDrain) else c
  }

  function IbufEmpty(c: Chan): (r: Effect) {
    if |c.input| > 0 || !c.istate.InWaitDrain? then Effect(c, [])
    else if c.closeSent then Effect(c.(istate := InClosed), [])
    else Effect(c.(istate := InClosed, eofSent := true), [Eof])
  }

  /** chan_shutdown_write drops whatever is still buffered for wfd. */
  function ShutdownWrite(c: Chan): (r: Chan) {
    c.(output := [], ostate := OutClosed,
       log := c.log.(lost := c.log.lost + c.output, cleared := c.log.cleared + |c.output|))
  }

  function WriteFailed(c: Chan): (r: Chan) {
    if c.ostate.OutClosed? then c else var d := ShutdownWrite(c); d.(log := d.log.(wfail := true))
  }

  function ObufEmpty(c: Chan): (r: Chan) {
    if |c.output| > 0 || !c.ostate.OutWaitDrain? then c else ShutdownWrite(c)
  }

  function ReceivedEof(c: Chan): (r: Chan) {
    var d := c.(eofRcvd := true, ostate := if c.ostate.OutOpen? then OutWaitDrain else c.ostate);
    if d.ostate.OutWaitDrain? && |d.output| == 0 && !EfdOutputActive(d) then ObufEmpty(d) else d
  }

  function ReceivedClose(c: Chan): (r: Effect) {
    var d := c.(closeRcvd := true);
    if c.kind.Larval? then Effect(d.(ostate := OutClosed, istate := InClosed), [])
    else
      var e := if d.ostate.OutOpen? then d.(ostate := OutWaitDrain) else d;
      match e.istate
      case InOpen => Effect(e.(istate := InClosed), [])
      case InWaitDrain => Effect(e.(istate := InClosed, eofSent := true), [Eof])
      case InClosed => Effect(e, [])
  }

  /** chan_is_dead with do_send set, then channel_free when it answers yes. */
  function Collected(c: Chan): (r: Effect) {
    if !c.istate.InClosed? || !c.ostate.OutClosed? then Effect(c, [])
    else
      var d := c.(closeSent := true, kind := if c.closeRcvd then Freed else c.kind);
      Effect(d, if c.closeSent then [] else [Close])
  }

  // ---- channels.c, towards the peer ----

  function PollData(c: Chan): (r: Effect) {
    if !c.istate.InClosed? && |c.input| > 0 then
      var len := Min(Min(|c.input|, c.win.remote), c.win.rpacket);
      if len > 0 then Effect(Spend(c.(input := c.input[len..]), len), [Data(c.input[..len])]) else Effect(c, [])
    else if c.istate.InWaitDrain? && !EfdInputActive(c) then IbufEmpty(c)
    else Effect(c, [])
  }

  function PollExt(c: Chan): (r: Effect) {
    if !c.eofSent && c.win.remote > 0 && |c.extended| > 0 && c.use.ExtRead? then
      var len := Min(Min(|c.extended|, c.win.remote), c.win.rpacket);
      Effect(Spend(c.(extended := c.extended[len..]), len), [ExtData(c.extended[..len])])
    else Effect(c, [])
  }

  function Poll(c: Chan): (r: Effect) {
    if !c.kind.Open? || c.closeSent || c.closeRcvd then Effect(c, [])
    else
      var p := PollData(c);
      var q := PollExt(p.c);
      Effect(q.c, p.sent + q.sent)
  }

  predicate WindowDue(c: Chan) {
    && c.kind.Open?
    && !c.closeSent && !c.closeRcvd
    && (Wrap(c.win.max - c.win.local) > Wrap(c.win.lpacket * 3) || c.win.local < c.win.max / 2)
    && c.win.consumed > 0
  }

  function CheckedWindow(c: Chan): (r: Effect) {
    if WindowDue(c) then
      Effect(c.(win := c.win.(local := Wrap(c.win.local + c.win.consumed), consumed := 0)), [Adjust(c.win.consumed)])
    else Effect(c, [])
  }

  // ---- channels.c, from the peer ----

  function ReceivedData(c: Chan, d: seq<u8>): (r: Chan) {
    if !c.kind.Open? then Lose(c, d)
    else if !c.ostate.OutOpen? then
      Lose(Consume(Take(c, |d|), |d|), d)
    else if |d| > c.win.local then Lose(c, d)
    else Take(c.(output := c.output + d), |d|)
  }

  function ReceivedExt(c: Chan, d: seq<u8>): (r: Chan) {
    if !c.kind.Open? || !c.efd || !c.use.ExtWrite? || |d| > c.win.local then
      c.(log := c.log.(elost := c.log.elost + d))
    else Take(c.(extended := c.extended + d), |d|)
  }

  function ReceivedAdjust(c: Chan, n: nat): (r: Chan) {
    c.(win := c.win.(remote := Wrap(c.win.remote + n)))
  }

  function ReceivedIeof(c: Chan): (r: Effect) {
    var d := ReceivedEof(c);
    if d.forceDrain && d.istate.InOpen? then
      var e := d.(istate := InWaitDrain);
      if |e.input| == 0 then IbufEmpty(e) else Effect(e, [])
    else Effect(d, [])
  }

  /** A session request on a larval channel runs channel_set_fds. */
  function ReceivedRequest(c: Chan, stderr: bool): (r: Effect) {
    if !c.kind.Larval? then Effect(c, [])
    else
      Effect(c.(kind := Open, efd := stderr, use := if stderr then ExtRead else ExtIgnore,
          win := c.win.(local := CHAN_SES_WINDOW_DEFAULT, max := CHAN_SES_WINDOW_DEFAULT)),
       [Adjust(CHAN_SES_WINDOW_DEFAULT)])
  }

  function Received(c: Chan, m: Msg, stderr: bool): (r: Effect) {
    match m
    case Data(d) => Effect(ReceivedData(c, d), [])
    case ExtData(d) => Effect(ReceivedExt(c, d), [])
    case Adjust(n) => Effect(ReceivedAdjust(c, n), [])
    case Eof => ReceivedIeof(c)
    case Close => ReceivedClose(c)
    case Request => ReceivedRequest(c, stderr)
  }

  // ---- file descriptors ----

  function ReadBytes(c: Chan, d: seq<u8>): (r: Chan) {
    c.(input := c.input + d, log := c.log.(got := c.log.got + d))
  }

  function Wrote(c: Chan, n: nat): (r: Chan)
    requires n <= |c.output|
  {
    Consume(c.(output := c.output[n..], log := c.log.(put := c.log.put + c.output[..n])), n)
  }

  function ReadExtBytes(c: Chan, d: seq<u8>): (r: Chan) {
    c.(extended := c.extended + d, log := c.log.(egot := c.log.egot + d))
  }

  function WroteExt(c: Chan, n: nat): (r: Chan)
    requires n <= |c.extended|
  {
    Consume(c.(extended := c.extended[n..], log := c.log.(eput := c.log.eput + c.extended[..n])), n)
  }

  // ---- one action ----

  /** When the event loop may run the action; `inbox` is what the peer has sent. */
  predicate Enabled(c: Chan, a: Action, inbox: seq<Msg>) {
    match a
    case ReadData(d) => c.kind.Open? && c.istate.InOpen? && 0 < |d| <= CHAN_RBUF
    case ReadFail => c.kind.Open? && c.istate.InOpen?
    case WriteData(n) => c.kind.Open? && !c.ostate.OutClosed? && 0 < n <= |c.output|
    case WriteFail => c.kind.Open? && !c.ostate.OutClosed?
    case ReadExt(d) => c.kind.Open? && c.efd && c.use.ExtRead? && 0 < |d| <= CHAN_RBUF
    case WriteExt(n) => c.kind.Open? && c.efd && c.use.ExtWrite? && 0 < n <= |c.extended|
    case ExtFail => c.kind.Open? && c.efd && !c.use.ExtIgnore?
    case CheckWindow => c.kind.Open?
    case OutputPoll => c.kind.Open?
    case OutputDrained => c.kind.Open? && c.ostate.OutWaitDrain? && |c.output| == 0 && !EfdOutputActive(c)
    case Collect => !c.kind.Freed?
    case SendRequest => c.kind.Open? && !c.closeSent && !c.closeRcvd
    case Receive(_) => |inbox| > 0
  }

  function Act(c: Chan, a: Action, inbox: seq<Msg>): (r: Effect)
    requires Enabled(c, a, inbox)
  {
    match a
    case ReadData(d) => Effect(ReadBytes(c, d), [])
    case ReadFail => Effect(ReadFailed(c), [])
    case WriteData(n) => Effect(Wrote(c, n), [])
    case WriteFail => Effect(WriteFailed(c), [])
    case ReadExt(d) => Effect(ReadExtBytes(c, d), [])
    case WriteExt(n) => Effect(WroteExt(c, n), [])
    case ExtFail => Effect(c.(efd := false), [])
    case CheckWindow => CheckedWindow(c)
    case OutputPoll => Poll(c)
    case OutputDrained => Effect(ObufEmpty(c), [])
    case Collect => Collected(c)
    case SendRequest => Effect(c, [Request])
    case Receive(stderr) => Received(c, inbox[0], stderr)
  }
}
