/** What holds in every run of the user authentication service. */
module UserAuthRuns {
  import opened MatchList
  import opened UserAuth

  // ---- the invariant ----

  /** Only three entries of the dispatch table ever change. */
  predicate Entries(s: State) {
    && Wide(s)
    && (forall i: nat :: i < DISPATCH_MAX && i != SERVICE_REQUEST && i != USERAUTH_REQUEST && i != INFO_RESPONSE ==>
          s.table[i] == Some(ProtocolError))
    && s.table[SERVICE_REQUEST] == Some(InputService)
    && (if s.auth.success then s.table[USERAUTH_REQUEST] == Some(ProtocolIgnore)
        else s.table[USERAUTH_REQUEST] == Some(ProtocolError) || s.table[USERAUTH_REQUEST] == Some(InputRequest))
    && (s.table[INFO_RESPONSE] == None || s.table[INFO_RESPONSE] == Some(ProtocolError) ||
        s.table[INFO_RESPONSE] == Some(InputResponse))
  }

  /** The response handler is installed exactly while a device waits for answers. */
  predicate Live(c: Config, s: State)
    requires Wide(s)
  {
    if s.kbds.ctx.None? then s.table[INFO_RESPONSE] != Some(InputResponse)
    else
      var k := s.kbds.ctx.value;
      && s.table[INFO_RESPONSE] == Some(InputResponse) && s.auth.postponed
      && k.device.Some? && k.device.value < |c.devices| && k.ctxt.Some?
  }

  predicate Distinct(q: seq<nat>) { forall i: nat, j: nat :: i < j < |q| ==> q[i] != q[j] }

  /** Every device context made is either the live one or freed, once. */
  predicate Owned(k: Kbds) {
    && Distinct(k.freed)
    && (forall i :: i in k.freed ==> i < k.born)
    && (k.ctx.Some? && k.ctx.value.ctxt.Some? ==> k.ctx.value.device.Some? && k.ctx.value.ctxt.value < k.born)
    && (forall i: nat :: i < k.born ==> (i in k.freed <==> !(k.ctx.Some? && k.ctx.value.ctxt == Some(i))))
  }

  /** The first request decides who is being authenticated. */
  predicate Fixed(s: State) {
    && |s.asked| == s.auth.attempt
    && (s.auth.attempt == 0 ==> !s.auth.valid)
    && (s.auth.attempt > 0 ==>
          && s.auth.user == s.asked[0].user && s.auth.service == s.asked[0].service && s.auth.root == s.asked[0].root
          && (s.auth.valid <==> s.asked[0].known && s.asked[0].service == SERVICE_CONNECTION))
    && (s.end.Running? ==> forall i: nat :: i < |s.asked| ==>
          s.asked[i].user == s.auth.user && s.asked[i].service == s.auth.service)
  }

  function Fails(out: seq<Reply>): (r: nat) {
    if out == [] then 0 else Fails(out[..|out| - 1]) + if out[|out| - 1].Failure? then 1 else 0
  }

  function Wins(out: seq<Reply>): (r: nat) {
    if out == [] then 0 else Wins(out[..|out| - 1]) + if out[|out| - 1].Success? then 1 else 0
  }

  function Most(c: Config): (r: nat) { if c.maxAuthtries < 0 then 0 else c.maxAuthtries + 1 }

  predicate Counted(c: Config, s: State) {
    && Fails(s.out) <= Most(c) && (s.end.Running? ==> Fails(s.out) == s.auth.failures)
    && Wins(s.out) == if s.auth.success then 1 else 0
  }

  predicate Earnest(s: State) {
    && (s.auth.success ==> s.auth.valid && !s.auth.postponed && s.end.Running? && s.kbds.ctx.None?)
    && (s.end.Fatal? ==> s.end.fault.WrongReplies? || s.end.fault.TooManyReplies?)
  }

  predicate Inv(c: Config, s: State) {
    && Wide(s) && Owned(s.kbds) && Fixed(s) && Counted(c, s) && Earnest(s)
    && (s.end.Running? ==> Entries(s) && Live(c, s))
  }

  lemma StartInv(c: Config)
    ensures Inv(c, Start())
  {
  }

  // ---- device contexts ----

  lemma {:induction false} Snoc(out: seq<Reply>, x: Reply)
    ensures Fails(out + [x]) == Fails(out) + if x.Failure? then 1 else 0
    ensures Wins(out + [x]) == Wins(out) + if x.Success? then 1 else 0
  {
    assert (out + [x])[..|out|] == out;
  }

  lemma {:induction false} ResetOwned(k: Kbds)
    requires Owned(k) && k.ctx.Some?
    ensures Owned(ResetDevice(k)) && ResetDevice(k).ctx.Some? && ResetDevice(k).ctx.value.ctxt.None?
  {
  }

  lemma {:induction false} FreeOwned(k: Kbds)
    requires Owned(k)
    ensures Owned(KbdintFree(k)) && KbdintFree(k).ctx.None?
  {
    if k.ctx.Some? && k.ctx.value.device.Some? {
      ResetOwned(k);
    }
  }

  lemma {:induction false} NextOwned(c: Config, k: Kbds)
    requires Owned(k) && k.ctx.Some?
    ensures Owned(NextDevice(c, k)) && NextDevice(c, k).ctx.value.ctxt.None?
    ensures NextDevice(c, k).ctx.value.device.Some? ==> NextDevice(c, k).ctx.value.device.value < |c.devices|
  {
    if k.ctx.value.device.Some? {
      ResetOwned(k);
    }
  }

  lemma {:induction false} InitOwned(k: Kbds)
    requires Owned(k) && k.ctx.Some? && k.ctx.value.ctxt.None? && k.ctx.value.device.Some?
    ensures Owned(InitDevice(k))
  {
  }

  // ---- the challenge ----

  /** Between s and t nothing but the challenge moved. */
  predicate Aside(s: State, t: State) {
    && t.auth == s.auth.(postponed := t.auth.postponed) && t.asked == s.asked && t.end == s.end
    && Fails(t.out) == Fails(s.out) && Wins(t.out) == Wins(s.out)
  }

  lemma {:induction false} StopKeeps(c: Config, s: State)
    requires Entries(s) && Owned(s.kbds)
    ensures Entries(StopChallenge(s)) && Owned(StopChallenge(s).kbds) && Live(c, StopChallenge(s))
    ensures StopChallenge(s).kbds.ctx.None? && Aside(s, StopChallenge(s)) && StopChallenge(s).auth == s.auth
  {
    FreeOwned(s.kbds);
  }

  lemma {:induction false} AskKeeps(c: Config, s: State, n: nat)
    requires Entries(s) && Owned(s.kbds) && s.kbds.ctx.Some?
    requires var k := s.kbds.ctx.value; k.device.Some? && k.device.value < |c.devices| && k.ctxt.Some?
    ensures var t := Postpone(Set(SendInfoRequest(s, n), INFO_RESPONSE, Some(InputResponse)));
            Entries(t) && Owned(t.kbds) && Live(c, t) && Aside(s, t)
  {
    Snoc(s.out, InfoRequest(n));
  }

  lemma {:induction false} StartKeeps(c: Config, s: State, d: Device)
    requires Entries(s) && Owned(s.kbds) && s.kbds.ctx.Some?
    ensures var t := StartChallenge(c, s, d);
            Entries(t) && Owned(t.kbds) && Live(c, t) && Aside(s, t)
  {
    NextOwned(c, s.kbds);
    var a := s.(kbds := NextDevice(c, s.kbds));
    if a.kbds.ctx.value.device.None? || !d.init {
      StopKeeps(c, a);
    } else {
      InitOwned(a.kbds);
      var b := a.(kbds := InitDevice(a.kbds));
      if d.query.None? {
        StopKeeps(c, b);
      } else {
        AskKeeps(c, b, d.query.value);
      }
    }
  }

  // ---- userauth_finish ----

  /** What userauth_finish may assume. */
  predicate Pending(c: Config, s: State) {
    && Wide(s) && Entries(s) && Live(c, s) && Owned(s.kbds) && Fixed(s) && Counted(c, s)
    && s.end.Running? && !s.auth.success
  }

  lemma {:induction false} SucceedKeeps(c: Config, s: State)
    requires Pending(c, s) && s.auth.valid && !s.auth.postponed
    ensures Inv(c, Succeed(s))
  {
    Snoc(s.out, Success);
  }

  lemma {:induction false} FailKeeps(c: Config, s: State)
    requires Pending(c, s)
    ensures Inv(c, Fail(c, s)) && !Fail(c, s).auth.success
  {
    Snoc(s.out, Failure);
  }

  lemma {:induction false} FinishKeeps(c: Config, s: State, authenticated: bool, meth: Name, forced: bool)
    requires Pending(c, s) && (authenticated ==> s.auth.valid)
    ensures Inv(c, Finish(c, s, authenticated, meth, forced))
    ensures Finish(c, s, authenticated, meth, forced).auth.success <==>
              authenticated && !s.auth.postponed && (s.auth.root ==> RootAllowed(c, meth, forced))
  {
    if !s.auth.postponed {
      if authenticated && (!s.auth.root || RootAllowed(c, meth, forced)) {
        SucceedKeeps(c, s);
      } else {
        FailKeeps(c, s);
      }
    }
  }

  // ---- the handlers ----

  lemma {:induction false} EnterKeeps(c: Config, s: State, r: Body)
    requires Inv(c, s) && s.end.Running? && !s.auth.success && r.Request?
    ensures Inv(c, Enter(s, r))
    ensures Enter(s, r).end.Running? <==>
              (s.auth.attempt > 0 ==> UserPart(r.user) == s.auth.user && r.service == s.auth.service)
  {
    EnterFixed(s, r, Enter(s, r));
  }

  lemma {:induction false} EnterFixed(s: State, r: Body, t: State)
    requires Wide(s) && Fixed(s) && r.Request? && s.end.Running? && t == Enter(s, r)
    ensures Fixed(t)
  {
    assert s.auth.attempt > 0 ==> t.asked[0] == s.asked[0];
  }

  lemma {:induction false} TryKeeps(c: Config, s: State, m: Option<Kind>, r: Body)
    requires Pending(c, s) && s.kbds.ctx.None? && !s.auth.postponed && r.Request?
    ensures Pending(c, Try(c, s, m, r)) && Try(c, s, m, r).auth.valid == s.auth.valid
    ensures Try(c, s, m, r).auth.root == s.auth.root
    ensures Accepts(c, s.auth.valid, m, r) ==> !Try(c, s, m, r).auth.postponed
  {
    if m == Some(Pubkey) && s.auth.valid && r.later {
      Snoc(s.out, PkOk);
    } else if m == Some(Kbdint_) && c.challengeResponse {
      StartKeeps(c, s.(kbds := AllocKbdint(c, s.kbds, r.devs)), r.next);
    }
  }

  lemma {:induction false} AttemptKeeps(c: Config, s: State, r: Body)
    requires Pending(c, s) && r.Request?
    ensures Inv(c, Attempt(c, s, r))
    ensures Attempt(c, s, r).auth.success <==>
              && Accepts(c, s.auth.valid, Lookup(c, s.auth.noneEnabled, r.meth, 0), r)
              && (s.auth.root ==> RootAllowed(c, r.meth, r.forced))
  {
    StopKeeps(c, s);
    var a := StopChallenge(s);
    var b := a.(auth := a.auth.(postponed := false));
    var m := Lookup(c, b.auth.noneEnabled, r.meth, 0);
    TryKeeps(c, b, m, r);
    FinishKeeps(c, Try(c, b, m, r), Accepts(c, b.auth.valid, m, r), r.meth, r.forced);
  }

  lemma {:induction false} RespondedKeeps(c: Config, s: State, r: Body)
    requires Pending(c, s.(auth := s.auth.(postponed := true))) && s.kbds.ctx.Some? && !s.auth.postponed && r.Response?
    ensures Pending(c, Responded(c, s, r)) && Aside(s, Responded(c, s, r))
    ensures r.respond == 0 && s.auth.valid ==> !Responded(c, s, r).auth.postponed
  {
    if r.respond == 1 && r.again.Some? {
      Snoc(s.out, InfoRequest(r.again.value));
    } else if r.respond == 0 && s.auth.valid {
      StopKeeps(c, s);
    } else {
      StartKeeps(c, s, r.next);
    }
  }

  lemma {:induction false} InfoResponseKeeps(c: Config, s: State, r: Body)
    requires Pending(c, s) && s.kbds.ctx.Some? && r.Response?
    ensures Inv(c, InfoResponse(c, s, r))
    ensures InfoResponse(c, s, r).auth.success <==>
              && r.nresp == s.kbds.ctx.value.nreq && r.nresp <= MAX_REPLIES && r.respond == 0 && s.auth.valid
              && (s.auth.root ==> RootAllowed(c, DeviceMethod(c, s.kbds.ctx.value.device.value), r.forced))
  {
    if Refusal(s.kbds.ctx, r.nresp).None? {
      var a := s.(auth := s.auth.(postponed := false));
      assert a.(auth := a.auth.(postponed := true)) == s;
      RespondedKeeps(c, a, r);
      FinishKeeps(c, Responded(c, a, r), r.respond == 0 && s.auth.valid,
                  DeviceMethod(c, s.kbds.ctx.value.device.value), r.forced);
    }
  }

  // ---- who gets in ----

  /** A request gets its user in. */
  predicate Admits(c: Config, s: State, r: Body)
    requires Fixed(s) && r.Request?
  {
    var first := if s.asked == [] then Asked(UserPart(r.user), r.service, r.known, r.root) else s.asked[0];
    && UserPart(r.user) == first.user && r.service == first.service == SERVICE_CONNECTION && first.known
    && Accepts(c, true, Lookup(c, s.auth.noneEnabled, r.meth, 0), r)
    && (first.root ==> RootAllowed(c, r.meth, r.forced))
  }

  /** The answers to the pending prompts get the user in. */
  predicate Convinces(c: Config, s: State, r: Body)
    requires Wide(s) && Live(c, s) && Fixed(s) && r.Response? && s.kbds.ctx.Some?
  {
    var k := s.kbds.ctx.value;
    && s.asked != [] && s.asked[0].known && s.asked[0].service == SERVICE_CONNECTION
    && r.nresp == k.nreq && r.nresp <= MAX_REPLIES && r.respond == 0
    && (s.asked[0].root ==> RootAllowed(c, DeviceMethod(c, k.device.value), r.forced))
  }

  predicate Earned(c: Config, s: State, p: Packet)
    requires Inv(c, s) && s.end.Running?
  {
    || (p.kind == USERAUTH_REQUEST && s.table[p.kind] == Some(InputRequest) && p.body.Request? && Admits(c, s, p.body))
    || (p.kind == INFO_RESPONSE && s.kbds.ctx.Some? && p.body.Response? && Convinces(c, s, p.body))
  }

  lemma {:induction false} RequestKeeps(c: Config, s: State, r: Body)
    requires Inv(c, s) && s.end.Running? && !s.auth.success && r.Request?
    ensures Inv(c, UserauthRequest(c, s, r))
    ensures UserauthRequest(c, s, r).auth.success <==> Admits(c, s, r)
  {
    EnterKeeps(c, s, r);
    var a := Enter(s, r);
    if a.end.Running? {
      AttemptKeeps(c, a, r);
      AdmitsMeans(c, s, r, a);
    } else {
      RefusedNotAdmitted(c, s, r, a);
    }
  }

  /** What a request is admitted for, once it has been entered. */
  lemma {:induction false} AdmitsMeans(c: Config, s: State, r: Body, a: State)
    requires Inv(c, s) && s.end.Running? && !s.auth.success && r.Request? && a == Enter(s, r) && a.end.Running?
    ensures Admits(c, s, r) <==>
              && Accepts(c, a.auth.valid, Lookup(c, a.auth.noneEnabled, r.meth, 0), r)
              && (a.auth.root ==> RootAllowed(c, r.meth, r.forced))
  {
  }

  lemma {:induction false} RefusedNotAdmitted(c: Config, s: State, r: Body, a: State)
    requires Inv(c, s) && s.end.Running? && !s.auth.success && r.Request? && a == Enter(s, r) && !a.end.Running?
    ensures !Admits(c, s, r) && !a.auth.success
  {
  }

  lemma {:induction false} HandlerFor(c: Config, s: State, p: Packet)
    requires Inv(c, s) && s.end.Running? && !s.auth.success
    ensures var h := HandlerOf(s.table, p.kind);
            && (h == Some(InputRequest) <==> p.kind == USERAUTH_REQUEST && s.table[USERAUTH_REQUEST] == Some(InputRequest))
            && (h == Some(InputResponse) <==> p.kind == INFO_RESPONSE && s.kbds.ctx.Some?)
            && (h == Some(InputService) <==> p.kind == SERVICE_REQUEST)
            && h != Some(ProtocolIgnore)
  {
  }

  lemma {:induction false} HangUpKeeps(c: Config, s: State)
    requires Inv(c, s) && s.end.Running? && !s.auth.success
    ensures Inv(c, s.(end := Disconnected))
  {
  }

  lemma {:induction false} ReplyKeeps(c: Config, s: State, x: Reply)
    requires Inv(c, s) && s.end.Running? && (x.Unimplemented? || x.ServiceAccept?)
    ensures Inv(c, s.(out := s.out + [x]))
  {
    Snoc(s.out, x);
  }

  lemma {:induction false} ServiceKeeps(c: Config, s: State, name: Name)
    requires Inv(c, s) && s.end.Running? && !s.auth.success
    ensures Inv(c, ServiceRequest(s, name)) && !ServiceRequest(s, name).auth.success
  {
    if name == SERVICE_USERAUTH {
      ReplyKeeps(c, s, ServiceAccept);
    } else {
      HangUpKeeps(c, s);
    }
  }

  /** Every packet keeps the invariant, and success comes exactly with a packet that earns it. */
  lemma {:induction false} StepKeeps(c: Config, s: State, p: Packet)
    requires Inv(c, s) && s.end.Running? && !s.auth.success
    ensures Inv(c, Step(c, s, p))
    ensures Step(c, s, p).auth.success <==> Earned(c, s, p)
  {
    HandlerFor(c, s, p);
    HangUpKeeps(c, s);
    var h := HandlerOf(s.table, p.kind);
    if h.None? {
    } else if h.value.InputRequest? {
      if p.body.Request? {
        RequestKeeps(c, s, p.body);
      }
    } else if h.value.InputResponse? {
      if p.body.Response? {
        InfoResponseKeeps(c, s, p.body);
      }
    } else if h.value.InputService? {
      if p.body.Service? {
        ServiceKeeps(c, s, p.body.name);
      }
    } else {
      ReplyKeeps(c, s, Unimplemented);
    }
  }

  lemma {:induction false} RunKeeps(c: Config, s: State, ps: seq<Packet>)
    requires Inv(c, s) && IsRun(c, s, ps)
    ensures Inv(c, After(c, s, ps))
    decreases |ps|
  {
    if ps != [] {
      StepKeeps(c, s, ps[0]);
      RunKeeps(c, Step(c, s, ps[0]), ps[1..]);
    }
  }

  lemma {:induction false} RunInit(c: Config, s: State, ps: seq<Packet>, p: Packet)
    requires Wide(s) && IsRun(c, s, ps + [p])
    ensures IsRun(c, s, ps) && !After(c, s, ps).auth.success && After(c, s, ps).end.Running?
    ensures After(c, s, ps + [p]) == Step(c, After(c, s, ps), p)
    decreases |ps|
  {
    var q := ps + [p];
    if ps == [] {
      assert q[1..] == [];
    } else {
      assert q[0] == ps[0] && q[1..] == ps[1..] + [p];
      RunInit(c, Step(c, s, ps[0]), ps[1..], p);
    }
  }

  lemma {:induction false} RunMore(c: Config, s: State, ps: seq<Packet>, p: Packet)
    requires Wide(s) && IsRun(c, s, ps) && !After(c, s, ps).auth.success && After(c, s, ps).end.Running?
    ensures IsRun(c, s, ps + [p]) && After(c, s, ps + [p]) == Step(c, After(c, s, ps), p)
    decreases |ps|
  {
    var q := ps + [p];
    if ps == [] {
      assert q[1..] == [];
    } else {
      assert q[0] == ps[0] && q[1..] == ps[1..] + [p];
      RunMore(c, Step(c, s, ps[0]), ps[1..], p);
    }
  }

  // ---- results ----

  /**
   A run ends in success exactly when its last packet earns it: the first request named a known
   user and ssh-connection, every request before had the same user and service, and root got
   past auth_root_allowed.
   */
  lemma {:induction false} SuccessIsEarned(c: Config, ps: seq<Packet>, p: Packet)
    requires IsRun(c, Start(), ps + [p])
    ensures IsRun(c, Start(), ps) && Inv(c, After(c, Start(), ps)) && After(c, Start(), ps).end.Running?
    ensures After(c, Start(), ps + [p]).auth.success <==> Earned(c, After(c, Start(), ps), p)
    ensures var t := After(c, Start(), ps + [p]);
            t.auth.success ==>
              && t.asked != [] && t.asked[0].known && t.asked[0].service == SERVICE_CONNECTION && !t.auth.postponed
              && forall i: nat :: i < |t.asked| ==>
                   t.asked[i].user == t.asked[0].user && t.asked[i].service == SERVICE_CONNECTION
  {
    RunInit(c, Start(), ps, p);
    StartInv(c);
    RunKeeps(c, Start(), ps);
    StepKeeps(c, After(c, Start(), ps), p);
  }

  /**
   No run sends more than max_authtries + 1 FAILURE replies, nor more than one SUCCESS, and none
   meets an abort for a missing context or device or for accepting an invalid user.
   */
  lemma {:induction false} RepliesBounded(c: Config, ps: seq<Packet>)
    requires IsRun(c, Start(), ps)
    ensures var t := After(c, Start(), ps);
            && Fails(t.out) <= Most(c)
            && Wins(t.out) == (if t.auth.success then 1 else 0)
            && t.end != Fatal(NoKbdintctxt) && t.end != Fatal(NoDevice) && t.end != Fatal(InvalidUser)
  {
    StartInv(c);
    RunKeeps(c, Start(), ps);
  }

  /**
   Whenever the response handler is installed its context, device and device state are live and
   the request is postponed; no device context is freed twice, and all are freed once the
   handler is gone.
   */
  lemma {:induction false} DevicesAccounted(c: Config, ps: seq<Packet>)
    requires IsRun(c, Start(), ps)
    ensures var t := After(c, Start(), ps);
            && Distinct(t.kbds.freed)
            && (t.end.Running? && t.table[INFO_RESPONSE] == Some(InputResponse) ==>
                  && t.auth.postponed && t.kbds.ctx.Some? && t.kbds.ctx.value.device.Some?
                  && t.kbds.ctx.value.ctxt.Some? && t.kbds.ctx.value.ctxt.value < t.kbds.born
                  && t.kbds.ctx.value.ctxt.value !in t.kbds.freed)
            && (t.end.Running? && t.table[INFO_RESPONSE] != Some(InputResponse) ==>
                  t.kbds.ctx.None? && forall i: nat :: i < t.kbds.born <==> i in t.kbds.freed)
  {
    StartInv(c);
    RunKeeps(c, Start(), ps);
  }
}
