/**
 The user authentication service of sshd: dispatch.c, auth2.c and auth2-chall.c as a machine
 driven by packets.  What the password database, the methods and the devices answer comes
 with each packet and may be anything.  Texts are as C sees them, up to a NUL.
 */
module UserAuth {
  import opened Bytes
  import opened MatchList
  import opened KeyBlob
  import opened KbdintDevices

  const DISPATCH_MAX: nat := 255
  const SERVICE_REQUEST: nat := 5
  const USERAUTH_REQUEST: nat := 50
  const INFO_RESPONSE: nat := 61

  const SERVICE_USERAUTH: Name := Ascii("ssh-userauth")
  const SERVICE_CONNECTION: Name := Ascii("ssh-connection")
  const PASSWORD: Name := Ascii("password")
  const KBDINT: Name := Ascii("keyboard-interactive")
  const COLON: u8 := 58
  const SLASH: u8 := 47
  const MAX_REPLIES: nat := 100

  datatype Handler = ProtocolError | ProtocolIgnore | InputService | InputRequest | InputResponse

  type Table = seq<Option<Handler>>

  datatype Kind = None_ | Pubkey | Passwd | Kbdint_ | Hostbased

  datatype Authmethod = Authmethod(name: Name, kind: Kind)

  const METHODS: seq<Authmethod> := [
    Authmethod(Ascii("none"), None_),
    Authmethod(Ascii("publickey"), Pubkey),
    Authmethod(PASSWORD, Passwd),
    Authmethod(KBDINT, Kbdint_),
    Authmethod(Ascii("hostbased"), Hostbased)
  ]

  datatype PermitRoot = PermitYes | PermitNoPasswd | PermitForcedOnly | PermitNo

  /** ServerOptions, and the devices compiled in. */
  datatype Config = Config(
    maxAuthtries: int,
    permitRoot: PermitRoot,
    pubkey: bool,
    password: bool,
    kbdint: bool,
    hostbased: bool,
    challengeResponse: bool,
    devices: seq<Name>)

  /** KbdintAuthctxt; a device context is known by a number of its own. */
  datatype Kbd = Kbd(devices: Option<Name>, device: Option<nat>, ctxt: Option<nat>, nreq: nat)

  datatype Reply = Unimplemented | ServiceAccept | PkOk | InfoRequest(nreq: nat) | Failure | Success

  datatype Fault = NoKbdintctxt | NoDevice | WrongReplies | TooManyReplies | InvalidUser

  datatype End = Running | Disconnected | Fatal(fault: Fault)

  /** A request that input_userauth_request was called for. */
  datatype Asked = Asked(user: Name, service: Name, known: bool, root: bool)

  /** Authctxt without its kbdintctxt. */
  datatype Auth = Auth(
    success: bool,
    postponed: bool,
    valid: bool,
    noneEnabled: bool,
    attempt: nat,
    failures: nat,
    user: Name,
    service: Name,
    root: bool)                    // pw->pw_uid == 0

  /** The kbdintctxt, and the device contexts made and freed so far. */
  datatype Kbds = Kbds(ctx: Option<Kbd>, born: nat, freed: seq<nat>)

  datatype State = State(
    table: Table,
    auth: Auth,
    kbds: Kbds,
    out: seq<Reply>,
    asked: seq<Asked>,
    end: End)

  /** What devices answer: init_ctx, and query with the number of prompts it asks for. */
  datatype Device = Device(init: bool, query: Option<nat>)

  datatype Body =
    | Service(name: Name)
    | Request(user: Name, service: Name, meth: Name, devs: Name,
              known: bool, root: bool, forced: bool, ok: bool, later: bool, next: Device)
    | Response(nresp: nat, respond: int, again: Option<nat>, next: Device, forced: bool)
    | Garbage

  datatype Packet = Packet(kind: int, body: Body)

  // ---- dispatch.c ----

  function InitTable(dflt: Handler): (r: Table)
    ensures |r| == DISPATCH_MAX && forall i: nat :: i < |r| ==> r[i] == Some(dflt)
  {
    seq(DISPATCH_MAX, i => Some(dflt))
  }

  /** The handler dispatch_run calls; None where it disconnects. */
  function HandlerOf(t: Table, kind: int): (r: Option<Handler>) {
    if 0 < kind < DISPATCH_MAX && kind < |t| then t[kind] else None
  }

  function Set(s: State, kind: nat, h: Option<Handler>): (r: State)
    requires kind < |s.table|
  {
    s.(table := s.table[kind := h])
  }

  predicate Wide(s: State) { |s.table| == DISPATCH_MAX }

  // ---- auth2-chall.c ----

  function ResetDevice(k: Kbds): (r: Kbds)
    requires k.ctx.Some?
  {
    var x := k.ctx.value;
    Kbds(Some(x.(device := None, ctxt := None)), k.born,
         if x.ctxt.Some? then k.freed + [x.ctxt.value] else k.freed)
  }

  function KbdintFree(k: Kbds): (r: Kbds) {
    if k.ctx.None? then k
    else (if k.ctx.value.device.Some? then ResetDevice(k) else k).(ctx := None)
  }

  function StopChallenge(s: State): (r: State)
    requires Wide(s)
    ensures Wide(r)
  {
    Set(s, INFO_RESPONSE, None).(kbds := KbdintFree(s.kbds))
  }

  function NextDevice(c: Config, k: Kbds): (r: Kbds)
    requires k.ctx.Some?
    ensures r.ctx.Some?
  {
    var a := if k.ctx.value.device.Some? then ResetDevice(k) else k;
    var f := Search(c.devices, a.ctx.value.devices);
    a.(ctx := Some(a.ctx.value.(devices := f.rest, device := f.device)))
  }

  /** init_ctx of the device that was found. */
  function InitDevice(k: Kbds): (r: Kbds)
    requires k.ctx.Some?
  {
    Kbds(Some(k.ctx.value.(ctxt := Some(k.born))), k.born + 1, k.freed)
  }

  /** send_userauth_info_request when the device has prompts. */
  function SendInfoRequest(s: State, n: nat): (r: State)
    requires Wide(s) && s.kbds.ctx.Some?
    ensures Wide(r)
  {
    s.(kbds := s.kbds.(ctx := Some(s.kbds.ctx.value.(nreq := n))), out := s.out + [InfoRequest(n)])
  }

  function Postpone(s: State): (r: State) { s.(auth := s.auth.(postponed := true)) }

  function StartChallenge(c: Config, s: State, d: Device): (r: State)
    requires Wide(s) && s.kbds.ctx.Some?
    ensures Wide(r)
  {
    var a := s.(kbds := NextDevice(c, s.kbds));
    if a.kbds.ctx.value.device.None? || !d.init then StopChallenge(a)
    else
      var b := a.(kbds := InitDevice(a.kbds));
      if d.query.None? then StopChallenge(b)
      else Postpone(Set(SendInfoRequest(b, d.query.value), INFO_RESPONSE, Some(InputResponse)))
  }

  function AllocKbdint(c: Config, k: Kbds, devs: Name): (r: Kbds)
    ensures r.ctx.Some?
  {
    if k.ctx.Some? then k
    else k.(ctx := Some(Kbd(Some(if devs == [] then Join(c.devices) else devs), None, None, 0)))
  }

  function Challenge(c: Config, s: State, devs: Name, d: Device): (r: State)
    requires Wide(s)
    ensures Wide(r)
  {
    StartChallenge(c, s.(kbds := AllocKbdint(c, s.kbds, devs)), d)
  }

  // ---- auth2.c ----

  /** auth_root_allowed. */
  predicate RootAllowed(c: Config, meth: Name, forced: bool) {
    match c.permitRoot
    case PermitYes => true
    case PermitNoPasswd => meth != PASSWORD
    case PermitForcedOnly => forced
    case PermitNo => false
  }

  function Succeed(s: State): (r: State)
    requires Wide(s)
    ensures Wide(r)
  {
    Set(s, USERAUTH_REQUEST, Some(ProtocolIgnore)).(auth := s.auth.(success := true), out := s.out + [Success])
  }

  function Fail(c: Config, s: State): (r: State)
    requires Wide(s)
    ensures Wide(r)
  {
    var a := s.(auth := s.auth.(failures := s.auth.failures + 1));
    if s.auth.failures > c.maxAuthtries then a.(end := Disconnected) else a.(out := s.out + [Failure])
  }

  /** userauth_finish. */
  function Finish(c: Config, s: State, authenticated: bool, meth: Name, forced: bool): (r: State)
    requires Wide(s)
    ensures Wide(r)
  {
    if !s.auth.valid && authenticated then s.(end := Fatal(InvalidUser))
    else if s.auth.postponed then s
    else if authenticated && (!s.auth.root || RootAllowed(c, meth, forced)) then Succeed(s)
    else Fail(c, s)
  }

  predicate Enabled(c: Config, noneEnabled: bool, kind: Kind) {
    match kind
    case None_ => noneEnabled
    case Pubkey => c.pubkey
    case Passwd => c.password
    case Kbdint_ => c.kbdint
    case Hostbased => c.hostbased
  }

  /** authmethod_lookup, from entry i on. */
  function Lookup(c: Config, noneEnabled: bool, name: Name, i: nat): (r: Option<Kind>)
    requires i <= |METHODS|
    decreases |METHODS| - i
  {
    if i == |METHODS| then None
    else if Enabled(c, noneEnabled, METHODS[i].kind) && name == METHODS[i].name then Some(METHODS[i].kind)
    else Lookup(c, noneEnabled, name, i + 1)
  }

  /** The user in front of the first colon. */
  function UserPart(user: Name): (r: Name)
    ensures r <= user && COLON !in r && (|r| < |user| ==> user[|r|] == COLON)
  {
    if user == [] || user[0] == COLON then [] else [user[0]] + UserPart(user[1..])
  }

  /**
   Whether a method accepts at once.  None does for an invalid user, and
   keyboard-interactive never does.
   */
  predicate Accepts(c: Config, valid: bool, m: Option<Kind>, r: Body)
    requires r.Request?
  {
    && m.Some? && valid && r.ok
    && !m.value.Kbdint_?
    && (m.value.None_? ==> c.password)
    && (m.value.Pubkey? ==> !r.later)
  }

  /** What else a method does to the state. */
  function Try(c: Config, s: State, m: Option<Kind>, r: Body): (t: State)
    requires Wide(s) && r.Request?
    ensures Wide(t)
  {
    if m == Some(None_) then s.(auth := s.auth.(noneEnabled := false))
    else if m == Some(Pubkey) && s.auth.valid && r.later then Postpone(s).(out := s.out + [PkOk])
    else if m == Some(Kbdint_) && c.challengeResponse then Challenge(c, s, r.devs, r.next)
    else s
  }

  /** The first request fixes the user and the service. */
  function Enter(s: State, r: Body): (t: State)
    requires Wide(s) && r.Request?
    ensures Wide(t)
  {
    var user, x := UserPart(r.user), s.auth.(attempt := s.auth.attempt + 1);
    var a := s.(auth := x, asked := s.asked + [Asked(user, r.service, r.known, r.root)]);
    if s.auth.attempt == 0 then
      a.(auth := x.(user := user, service := r.service, root := r.root,
                    valid := r.known && r.service == SERVICE_CONNECTION))
    else if user != s.auth.user || r.service != s.auth.service then a.(end := Disconnected)
    else a
  }

  /** The part of input_userauth_request that tries the method. */
  function Attempt(c: Config, s: State, r: Body): (t: State)
    requires Wide(s) && r.Request?
    ensures Wide(t)
  {
    var a := StopChallenge(s);
    var b := a.(auth := a.auth.(postponed := false));
    var m := Lookup(c, b.auth.noneEnabled, r.meth, 0);
    Finish(c, Try(c, b, m, r), Accepts(c, b.auth.valid, m, r), r.meth, r.forced)
  }

  function UserauthRequest(c: Config, s: State, r: Body): (t: State)
    requires Wide(s) && r.Request?
    ensures Wide(t)
  {
    var a := Enter(s, r);
    if a.end.Running? then Attempt(c, a, r) else a
  }

  function ServiceRequest(s: State, name: Name): (t: State)
    requires Wide(s)
    ensures Wide(t)
  {
    if name == SERVICE_USERAUTH && !s.auth.success then
      Set(s, USERAUTH_REQUEST, Some(InputRequest)).(out := s.out + [ServiceAccept])
    else s.(end := Disconnected)
  }

  function DeviceMethod(c: Config, device: nat): (r: Name) {
    KBDINT + [SLASH] + if device < |c.devices| then c.devices[device] else []
  }

  /** What the answer of the device leads to, before userauth_finish. */
  function Responded(c: Config, s: State, r: Body): (t: State)
    requires Wide(s) && r.Response? && s.kbds.ctx.Some?
    ensures Wide(t)
  {
    if r.respond == 1 && r.again.Some? then Postpone(SendInfoRequest(s, r.again.value))
    else if r.respond == 0 && s.auth.valid then StopChallenge(s)
    else StartChallenge(c, s, r.next)
  }

  /** The checks of input_userauth_info_response. */
  function Refusal(k: Option<Kbd>, nresp: nat): (r: Option<Fault>) {
    if k.None? || k.value.ctxt.None? then Some(NoKbdintctxt)
    else if k.value.device.None? then Some(NoDevice)
    else if nresp != k.value.nreq then Some(WrongReplies)
    else if nresp > MAX_REPLIES then Some(TooManyReplies)
    else None
  }

  function InfoResponse(c: Config, s: State, r: Body): (t: State)
    requires Wide(s) && r.Response?
    ensures Wide(t)
  {
    var f := Refusal(s.kbds.ctx, r.nresp);
    if f.Some? then s.(end := Fatal(f.value))
    else
      Finish(c, Responded(c, s.(auth := s.auth.(postponed := false)), r), r.respond == 0 && s.auth.valid,
             DeviceMethod(c, s.kbds.ctx.value.device.value), r.forced)
  }

  /** One round of dispatch_run. */
  function Step(c: Config, s: State, p: Packet): (t: State)
    requires Wide(s)
    ensures Wide(t)
  {
    var h := HandlerOf(s.table, p.kind);
    if h.None? then s.(end := Disconnected)
    else match h.value
      case ProtocolError => s.(out := s.out + [Unimplemented])
      case ProtocolIgnore => s
      case InputService => if p.body.Service? then ServiceRequest(s, p.body.name) else s.(end := Disconnected)
      case InputRequest => if p.body.Request? then UserauthRequest(c, s, p.body) else s.(end := Disconnected)
      case InputResponse => if p.body.Response? then InfoResponse(c, s, p.body) else s.(end := Disconnected)
  }

  /** do_authentication2 before its first packet. */
  function Start(): (s: State)
    ensures Wide(s)
  {
    State(InitTable(ProtocolError)[SERVICE_REQUEST := Some(InputService)],
          Auth(false, false, false, true, 0, 0, [], [], false), Kbds(None, 0, []), [], [], Running)
  }

  /** dispatch_run goes on until success is set or the process gives up. */
  predicate IsRun(c: Config, s: State, ps: seq<Packet>)
    requires Wide(s)
    decreases |ps|
  {
    ps == [] || (!s.auth.success && s.end.Running? && IsRun(c, Step(c, s, ps[0]), ps[1..]))
  }

  function After(c: Config, s: State, ps: seq<Packet>): (r: State)
    requires Wide(s) && IsRun(c, s, ps)
    ensures Wide(r)
    decreases |ps|
  {
    if ps == [] then s else After(c, Step(c, s, ps[0]), ps[1..])
  }
}
