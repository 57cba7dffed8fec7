/** Authctxt, KbdintAuthctxt and the dispatch table as the objects the handlers update in place. */
module UserAuthObject {
  import opened MatchList
  import opened KbdintDevices
  import opened UserAuth
  import UserAuthRuns

  /** authmethod_lookup. */
  method AuthmethodLookup(c: Config, noneEnabled: bool, name: Name) returns (m: Option<Kind>)
    ensures m == Lookup(c, noneEnabled, name, 0)
    ensures m.Some? ==> Authmethod(name, m.value) in METHODS && Enabled(c, noneEnabled, m.value)
    ensures m.None? ==> forall k :: Authmethod(name, k) in METHODS ==> !Enabled(c, noneEnabled, k)
  {
    for i := 0 to |METHODS|
      invariant Lookup(c, noneEnabled, name, 0) == Lookup(c, noneEnabled, name, i)
      invariant forall j: nat :: j < i ==> METHODS[j].name == name ==> !Enabled(c, noneEnabled, METHODS[j].kind)
    {
      if Enabled(c, noneEnabled, METHODS[i].kind) && name == METHODS[i].name {
        return Some(METHODS[i].kind);
      }
    }
    m := None;
  }

  class Kbdint {
    var devices: Option<Name>
    var device: Option<nat>
    var ctxt: Option<nat>
    var nreq: nat

    function View(): (k: Kbd)
      reads this
    {
      Kbd(devices, device, ctxt, nreq)
    }

    /** kbdint_alloc. */
    constructor (c: Config, devs: Name)
      ensures View() == Kbd(Some(if devs == [] then Join(c.devices) else devs), None, None, 0)
    {
      devices := Some(if devs == [] then Join(c.devices) else devs);
      device, ctxt, nreq := None, None, 0;
    }

    /** The loop of kbdint_next_device. */
    method FindDevice(names: seq<Name>)
      requires device.None?
      modifies this
      ensures var f := Search(names, old(devices));
              View() == old(View()).(device := f.device, devices := f.rest)
    {
      var going := true;
      while going
        invariant going ==> device.None?
        invariant Search(names, old(devices)) == if going then Search(names, devices) else Found(device, devices)
        invariant ctxt == old(ctxt) && nreq == old(nreq)
        decreases going, if devices.Some? then |devices.value| + 1 else 0
      {
        var token := if devices.Some? then Field(devices.value) else [];
        if token == [] {
          break;
        }
        PickInto(names, token);
        devices := Behind(devices.value);
        going := devices.Some? && device.None?;
      }
    }

    method PickInto(names: seq<Name>, token: Name)
      requires device.None?
      modifies this`device
      ensures device == Pick(names, token)
    {
      for i := 0 to |names|
        invariant device == Pick(names[..i], token)
      {
        assert names[..i + 1][..i] == names[..i];
        if token <= names[i] {
          device := Some(i);
        }
      }
      assert names[..|names|] == names;
    }
  }

  class Authctxt {
    const dispatch: array<Option<Handler>>
    var success: bool
    var postponed: bool
    var valid: bool
    var noneEnabled: bool
    var attempt: nat
    var failures: nat
    var user: Name
    var service: Name
    var root: bool
    var kbdintctxt: Kbdint?
    var born: nat
    var freed: seq<nat>
    var out: seq<Reply>
    var asked: seq<Asked>
    var end: End

    ghost predicate Valid()
      reads this
    {
      dispatch.Length == DISPATCH_MAX
    }

    function AuthView(): (a: Auth)
      reads this
    {
      Auth(success, postponed, valid, noneEnabled, attempt, failures, user, service, root)
    }

    function KbdsView(): (k: Kbds)
      reads this, kbdintctxt
    {
      Kbds(if kbdintctxt == null then None else Some(kbdintctxt.View()), born, freed)
    }

    function View(): (s: State)
      reads this, dispatch, kbdintctxt
    {
      State(dispatch[..], AuthView(), KbdsView(), out, asked, end)
    }

    /** do_authentication2 up to dispatch_run. */
    constructor ()
      ensures Valid() && View() == Start() && fresh(dispatch) && kbdintctxt == null
    {
      dispatch := new Option<Handler>[DISPATCH_MAX](i => Some(ProtocolError));
      success, postponed, valid, noneEnabled := false, false, false, true;
      attempt, failures, user, service, root := 0, 0, [], [], false;
      kbdintctxt, born, freed, out, asked, end := null, 0, [], [], [], Running;
      new;
      dispatch[SERVICE_REQUEST] := Some(InputService);
      assert dispatch[..] == Start().table;
    }

    method DispatchSet(kind: nat, h: Option<Handler>)
      requires Valid() && kind < DISPATCH_MAX
      modifies dispatch
      ensures View() == Set(old(View()), kind, h)
    {
      dispatch[kind] := h;
      assert dispatch[..] == old(dispatch[..])[kind := h];
    }

    method ResetDevice()
      requires kbdintctxt != null
      modifies this`freed, kbdintctxt
      ensures KbdsView() == UserAuth.ResetDevice(old(KbdsView()))
    {
      if kbdintctxt.ctxt.Some? {
        freed := freed + [kbdintctxt.ctxt.value];
        kbdintctxt.ctxt := None;
      }
      kbdintctxt.device := None;
    }

    /** auth2_challenge_stop. */
    method ChallengeStop()
      requires Valid()
      modifies this`freed, this`kbdintctxt, kbdintctxt, dispatch
      ensures View() == StopChallenge(old(View())) && kbdintctxt == null
    {
      DispatchSet(INFO_RESPONSE, None);
      if kbdintctxt != null {
        if kbdintctxt.device.Some? {
          ResetDevice();
        }
        kbdintctxt := null;
      }
    }

    /** kbdint_next_device. */
    method NextDevice(c: Config) returns (found: bool)
      requires kbdintctxt != null
      modifies this`freed, kbdintctxt
      ensures KbdsView() == UserAuth.NextDevice(c, old(KbdsView()))
      ensures found == kbdintctxt.device.Some?
    {
      if kbdintctxt.device.Some? {
        ResetDevice();
      }
      kbdintctxt.FindDevice(c.devices);
      found := kbdintctxt.device.Some?;
    }

    /** send_userauth_info_request, given what the query of the device answers. */
    method SendUserauthInfoRequest(query: Option<nat>) returns (sent: bool)
      requires Valid() && kbdintctxt != null
      modifies this`out, kbdintctxt
      ensures sent == query.Some?
      ensures View() == if sent then SendInfoRequest(old(View()), query.value) else old(View())
    {
      if query.None? {
        return false;
      }
      kbdintctxt.nreq := query.value;
      out := out + [InfoRequest(query.value)];
      sent := true;
    }

    /** auth2_challenge_start. */
    method ChallengeStart(c: Config, d: Device)
      requires Valid() && kbdintctxt != null
      modifies this, kbdintctxt, dispatch
      ensures View() == StartChallenge(c, old(View()), d)
      ensures kbdintctxt == null || kbdintctxt == old(kbdintctxt)
    {
      var found := NextDevice(c);
      if !found {
        ChallengeStop();
        return;
      }
      if !d.init {
        ChallengeStop();
        return;
      }
      InitDevice();
      var sent := SendUserauthInfoRequest(d.query);
      if !sent {
        ChallengeStop();
        return;
      }
      AwaitResponse();
    }

    /** The device makes a context. */
    method InitDevice()
      requires Valid() && kbdintctxt != null
      modifies this`born, kbdintctxt
      ensures View() == old(View()).(kbds := UserAuth.InitDevice(old(KbdsView())))
    {
      kbdintctxt.ctxt := Some(born);
      born := born + 1;
    }

    method AwaitResponse()
      requires Valid()
      modifies this`postponed, dispatch
      ensures View() == Postpone(Set(old(View()), INFO_RESPONSE, Some(InputResponse)))
    {
      DispatchSet(INFO_RESPONSE, Some(InputResponse));
      postponed := true;
    }

    /** auth2_challenge. */
    method Challenge(c: Config, devs: Name, d: Device)
      requires Valid()
      modifies this, kbdintctxt, dispatch
      ensures View() == UserAuth.Challenge(c, old(View()), devs, d)
      ensures kbdintctxt == null || kbdintctxt == old(kbdintctxt) || fresh(kbdintctxt)
    {
      if kbdintctxt == null {
        kbdintctxt := new Kbdint(c, devs);
      }
      ChallengeStart(c, d);
    }

    method UserauthFinish(c: Config, authenticated: bool, meth: Name, forced: bool)
      requires Valid()
      modifies this, dispatch
      ensures View() == Finish(c, old(View()), authenticated, meth, forced) && kbdintctxt == old(kbdintctxt)
    {
      if !valid && authenticated {
        end := Fatal(InvalidUser);
        return;
      }
      var granted := authenticated;
      if granted && root && !RootAllowed(c, meth, forced) {
        granted := false;
      }
      if postponed {
        return;
      }
      if granted {
        SendSuccess();
      } else {
        SendFailure(c);
      }
    }

    /** SUCCESS, and no more requests are looked at. */
    method SendSuccess()
      requires Valid()
      modifies this`out, this`success, dispatch
      ensures View() == Succeed(old(View()))
    {
      DispatchSet(USERAUTH_REQUEST, Some(ProtocolIgnore));
      out := out + [Success];
      success := true;
    }

    /** FAILURE, up to the limit. */
    method SendFailure(c: Config)
      requires Valid()
      modifies this`out, this`failures, this`end
      ensures View() == Fail(c, old(View()))
    {
      failures := failures + 1;
      if failures - 1 > c.maxAuthtries {
        end := Disconnected;
        return;
      }
      out := out + [Failure];
    }

    /** userauth_pubkey: a query is answered and postponed, a signature is checked. */
    method UserauthPubkey(r: Body) returns (authenticated: bool)
      requires Valid() && r.Request?
      modifies this`out, this`postponed
      ensures authenticated == (valid && !r.later && r.ok)
      ensures View() == if valid && r.later then old(View()).(out := old(out) + [PkOk], auth := old(AuthView()).(postponed := true))
                        else old(View())
    {
      authenticated := valid && !r.later && r.ok;
      if valid && r.later {
        out := out + [PkOk];
        postponed := true;
      }
      assert KbdsView() == old(KbdsView());
    }

    /** m->userauth of the method that was looked up. */
    method Userauth(c: Config, m: Option<Kind>, r: Body) returns (authenticated: bool)
      requires Valid() && r.Request?
      modifies this, kbdintctxt, dispatch
      ensures View() == Try(c, old(View()), m, r)
      ensures kbdintctxt == null || kbdintctxt == old(kbdintctxt) || fresh(kbdintctxt)
      ensures authenticated == Accepts(c, old(valid), m, r)
    {
      authenticated := false;
      match m
      case None =>
      case Some(None_) =>
        noneEnabled := false;
        if c.password {
          authenticated := valid && r.ok;
        }
      case Some(Pubkey) =>
        authenticated := UserauthPubkey(r);
      case Some(Passwd) =>
        authenticated := valid && r.ok;
      case Some(Hostbased) =>
        if valid {
          authenticated := r.ok;
        }
      case Some(Kbdint_) =>
        if c.challengeResponse {
          Challenge(c, r.devs, r.next);
        }
    }

    /** The beginning of input_userauth_request, up to the disconnect for a changed user. */
    method SetUpAuthContext(r: Body)
      requires Valid() && r.Request?
      modifies this`attempt, this`asked, this`user, this`service, this`root, this`valid, this`end
      ensures View() == Enter(old(View()), r)
    {
      var name, first := UserPart(r.user), attempt == 0;
      CountAttempt(name, r);
      if first {
        SetUser(name, r);
      } else if name != user || r.service != service {
        HangUp();
      }
    }

    method CountAttempt(name: Name, r: Body)
      requires Valid() && r.Request?
      modifies this`attempt, this`asked
      ensures View() == old(View()).(auth := old(AuthView()).(attempt := old(attempt) + 1),
                                     asked := old(asked) + [Asked(name, r.service, r.known, r.root)])
    {
      attempt := attempt + 1;
      asked := asked + [Asked(name, r.service, r.known, r.root)];
      assert KbdsView() == old(KbdsView());
    }

    /** The first request fixes the user and the service. */
    method SetUser(name: Name, r: Body)
      requires Valid() && r.Request?
      modifies this`user, this`service, this`root, this`valid
      ensures View() == old(View()).(auth := old(AuthView()).(user := name, service := r.service, root := r.root,
                                                              valid := r.known && r.service == SERVICE_CONNECTION))
    {
      user, service, root := name, r.service, r.root;
      valid := r.known && r.service == SERVICE_CONNECTION;
      assert KbdsView() == old(KbdsView());
    }

    /** packet_disconnect. */
    method HangUp()
      requires Valid()
      modifies this`end
      ensures View() == old(View()).(end := Disconnected)
    {
      end := Disconnected;
      assert KbdsView() == old(KbdsView());
    }

    method InputUserauthRequest(c: Config, r: Body)
      requires Valid() && r.Request?
      modifies this, kbdintctxt, dispatch
      ensures View() == UserauthRequest(c, old(View()), r)
      ensures kbdintctxt == null || kbdintctxt == old(kbdintctxt) || fresh(kbdintctxt)
    {
      SetUpAuthContext(r);
      if !end.Running? {
        return;
      }
      ChallengeStop();
      postponed := false;
      var m := AuthmethodLookup(c, noneEnabled, r.meth);
      var authenticated := Userauth(c, m, r);
      UserauthFinish(c, authenticated, r.meth, r.forced);
    }

    method InputServiceRequest(name: Name)
      requires Valid()
      modifies this`out, this`end, dispatch
      ensures View() == ServiceRequest(old(View()), name)
    {
      var acceptit := false;
      if name == SERVICE_USERAUTH {
        if !success {
          acceptit := true;
          DispatchSet(USERAUTH_REQUEST, Some(InputRequest));
        }
      }
      if acceptit {
        out := out + [ServiceAccept];
      } else {
        end := Disconnected;
      }
    }

    method Respond(c: Config, r: Body) returns (authenticated: bool)
      requires Valid() && kbdintctxt != null && r.Response? && !postponed
      modifies this, kbdintctxt, dispatch
      ensures View() == Responded(c, old(View()), r)
      ensures kbdintctxt == null || kbdintctxt == old(kbdintctxt) || fresh(kbdintctxt)
      ensures authenticated == (r.respond == 0 && old(valid))
    {
      authenticated := false;
      if r.respond == 0 {
        authenticated := valid;
      } else if r.respond == 1 {
        var sent := SendUserauthInfoRequest(r.again);
        if sent {
          postponed := true;
        }
      }
      if !postponed {
        if authenticated {
          ChallengeStop();
        } else {
          ChallengeStart(c, r.next);
        }
      }
    }

    method InputUserauthInfoResponse(c: Config, r: Body)
      requires Valid() && r.Response?
      modifies this, kbdintctxt, dispatch
      ensures View() == InfoResponse(c, old(View()), r)
      ensures kbdintctxt == null || kbdintctxt == old(kbdintctxt) || fresh(kbdintctxt)
    {
      var f := Refusal(if kbdintctxt == null then None else Some(kbdintctxt.View()), r.nresp);
      if f.Some? {
        end := Fatal(f.value);
        return;
      }
      var meth := DeviceMethod(c, kbdintctxt.device.value);
      postponed := false;
      var authenticated := Respond(c, r);
      UserauthFinish(c, authenticated, meth, r.forced);
    }

    /** One round of dispatch_run. */
    method DispatchOne(c: Config, p: Packet)
      requires Valid()
      modifies this, kbdintctxt, dispatch
      ensures View() == Step(c, old(View()), p)
      ensures kbdintctxt == null || kbdintctxt == old(kbdintctxt) || fresh(kbdintctxt)
    {
      if !(0 < p.kind < DISPATCH_MAX) || dispatch[p.kind].None? {
        end := Disconnected;
        return;
      }
      match dispatch[p.kind].value
      case ProtocolError => out := out + [Unimplemented];
      case ProtocolIgnore =>
      case InputService =>
        if p.body.Service? { InputServiceRequest(p.body.name); } else { end := Disconnected; }
      case InputRequest =>
        if p.body.Request? { InputUserauthRequest(c, p.body); } else { end := Disconnected; }
      case InputResponse =>
        if p.body.Response? { InputUserauthInfoResponse(c, p.body); } else { end := Disconnected; }
    }
  }

  /** do_authentication2: packets are taken until success is set or the process gives up. */
  method DoAuthentication2(c: Config, ps: seq<Packet>) returns (a: Authctxt, n: nat)
    ensures n <= |ps| && IsRun(c, Start(), ps[..n]) && a.View() == After(c, Start(), ps[..n])
    ensures n == |ps| || a.success || !a.end.Running?
  {
    a := new Authctxt();
    n := 0;
    while n < |ps| && !a.success && a.end.Running?
      invariant a.Valid() && n <= |ps| && fresh(a) && fresh(a.dispatch)
      invariant a.kbdintctxt == null || fresh(a.kbdintctxt)
      invariant IsRun(c, Start(), ps[..n]) && a.View() == After(c, Start(), ps[..n])
    {
      UserAuthRuns.RunMore(c, Start(), ps[..n], ps[n]);
      assert ps[..n + 1] == ps[..n] + [ps[n]];
      a.DispatchOne(c, ps[n]);
      n := n + 1;
    }
  }
}
