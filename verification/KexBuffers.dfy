/** Proposals on buffers and the choice of algorithms, as kex.c runs them. */
module KexBuffers {
  import opened Bytes
  import opened SshBuffer
  import opened Wire
  import opened BufferAux
  import opened MatchList
  import opened KeyBlob
  import opened KexProposal
  import opened KexChoose

  // ---- kex_prop2buf ----

  lemma {:induction false} EncNamesMore(ps: seq<Name>, p: Name)
    ensures EncNames(ps + [p]) == EncNames(ps) + EncString(p)
  {
    if ps == [] {
      assert ([] + [p])[1..] == [];
      assert EncNames([p]) == EncString(p) + [];
    } else {
      EncNamesMore(ps[1..], p);
      assert (ps + [p])[1..] == ps[1..] + [p];
    }
  }

  /** A list that certainly fits. */
  predicate Fits(p: Name) { |p| <= STRING_MAX }

  /** One list behind those that are there. */
  method PutName(b: Buffer, ghost cookie: seq<u8>, ghost before: seq<Name>, p: Name) returns (r: Outcome)
    requires b.Valid() && b.Contents() == cookie + EncNames(before)
    modifies b, b.buf
    ensures b.Valid() && (b.buf == old(b.buf) || fresh(b.buf))
    ensures r.Pass? ==> b.Contents() == cookie + EncNames(before + [p])
    ensures Fits(p) && old(b.alloc) <= 0x800000 ==> r.Pass? && b.alloc <= old(b.alloc) + 0x60000
  {
    r := PutString(b, p);
    EncNamesMore(before, p);
    assert cookie + EncNames(before) + EncString(p) == cookie + (EncNames(before) + EncString(p));
  }

  /** The first i lists behind the cookie; none of them too long means there is room for the others. */
  ghost predicate Halfway(b: Buffer, cookie: seq<u8>, prop: seq<Name>, i: nat)
    requires i <= |prop|
    reads b, b.buf
  {
    && b.Valid() && b.Contents() == cookie + EncNames(prop[..i])
    && ((forall p :: p in prop ==> Fits(p)) ==> b.alloc <= 0x10000 + i * 0x60000)
  }

  method PutNext(b: Buffer, cookie: seq<u8>, prop: seq<Name>, i: nat) returns (r: Outcome)
    requires i < |prop| <= PROPOSAL_MAX && Halfway(b, cookie, prop, i)
    modifies b, b.buf
    ensures b.Valid() && (b.buf == old(b.buf) || fresh(b.buf))
    ensures r.Pass? ==> Halfway(b, cookie, prop, i + 1)
    ensures (forall p :: p in prop ==> Fits(p)) ==> r.Pass?
  {
    assert prop[..i + 1] == prop[..i] + [prop[i]];
    r := PutName(b, cookie, prop[..i], prop[i]);
  }

  /** A buffer with the cookie in it. */
  method PutCookie(cookie: seq<u8>, prop: seq<Name>) returns (b: Buffer)
    requires |cookie| == KEX_COOKIE_LEN
    ensures fresh(b) && fresh(b.buf) && Halfway(b, cookie, prop, 0)
  {
    b := new Buffer();
    var r := b.Append(cookie);
    assert prop[..0] == [] && cookie + [] == cookie;
  }

  method PropToBuf(cookie: seq<u8>, prop: seq<Name>) returns (r: Outcome, b: Buffer)
    requires |cookie| == KEX_COOKIE_LEN && |prop| == PROPOSAL_MAX
    ensures fresh(b) && fresh(b.buf) && b.Valid()
    ensures r.Pass? ==> b.Contents() == Payload(cookie, prop)
    ensures (forall p :: p in prop ==> Fits(p)) ==> r.Pass?
  {
    b := PutCookie(cookie, prop);
    r := Pass;
    for i := 0 to |prop|
      invariant r.Pass? && fresh(b.buf) && Halfway(b, cookie, prop, i)
    {
      r := PutNext(b, cookie, prop, i);
      if r.Fatal? {
        return;
      }
    }
    assert prop[..|prop|] == prop;
    r := PutTail(b, cookie + EncNames(prop));
  }

  /** first_kex_packet_follows and the reserved word. */
  method PutTail(b: Buffer, ghost was: seq<u8>) returns (r: Outcome)
    requires b.Valid() && b.Contents() == was
    modifies b, b.buf
    ensures b.Valid() && (b.buf == old(b.buf) || fresh(b.buf))
    ensures r.Pass? ==> b.Contents() == was + [0] + PutU32(0)
    ensures old(b.alloc) <= 0x800000 ==> r.Pass?
  {
    r := PutChar(b, 0);
    if r.Fatal? {
      return;
    }
    r := PutInt(b, 0);
  }

  // ---- kex_buf2prop ----

  function Prepend(xs: seq<Name>, p: Parsed<seq<Name>>): (r: Parsed<seq<Name>>) {
    match p
    case Done(more, rest) => Done(xs + more, rest)
    case _ => Aborted
  }

  lemma {:induction false} DecOne(b: seq<u8>, n: nat, xs: seq<Name>)
    requires n > 0
    ensures match DecString(b)
            case Done(s, rest) => Prepend(xs, DecNames(b, n)) == Prepend(xs + [CString(s)], DecNames(rest, n - 1))
            case _ => Prepend(xs, DecNames(b, n)) == Aborted
  {
    var r := DecString(b);
    if r.Done? {
      var more := DecNames(r.rest, n - 1);
      if more.Done? {
        assert xs + ([CString(r.value)] + more.value) == xs + [CString(r.value)] + more.value;
      }
    }
  }

  /** Having read `xs`, with `b` left and n lists to come, is on the way to `all`. */
  ghost predicate Reading(all: Parsed<seq<Name>>, xs: seq<Name>, b: seq<u8>, n: nat) {
    Prepend([], all) == Prepend(xs, DecNames(b, n))
  }

  method GetName(b: Buffer, ghost n: nat, ghost xs: seq<Name>, ghost all: Parsed<seq<Name>>) returns (ok: bool, p: Name)
    requires b.Valid() && n > 0 && Reading(all, xs, b.Contents(), n)
    modifies b
    ensures b.Valid() && b.buf == old(b.buf)
    ensures if ok then Reading(all, xs + [p], b.Contents(), n - 1) else !all.Done?
  {
    DecOne(b.Contents(), n, xs);
    var st, s := GetStringRet(b);
    ok, p := st == Ok, CString(s);
  }

  lemma {:induction false} StartReading(b: seq<u8>, n: nat)
    ensures Reading(DecNames(b, n), [], b, n)
  {
  }

  lemma {:induction false} AllRead(all: Parsed<seq<Name>>, lists: seq<Name>, rest: seq<u8>)
    requires Reading(all, lists, rest, 0)
    ensures all == Done(lists, rest)
  {
    assert lists + [] == lists;
    if all.Done? {
      assert [] + all.value == all.value;
    }
  }

  /** The lists; any failure ends the process. */
  method GetNames(b: Buffer, n: nat, ghost all: Parsed<seq<Name>>) returns (ok: bool, lists: seq<Name>)
    requires b.Valid() && Reading(all, [], b.Contents(), n)
    modifies b
    ensures b.Valid() && b.buf == old(b.buf)
    ensures if ok then all == Done(lists, b.Contents()) else !all.Done?
  {
    lists := [];
    for i := 0 to n
      invariant b.Valid() && b.buf == old(b.buf) && Reading(all, lists, b.Contents(), n - i)
    {
      var s;
      ok, s := GetName(b, n - i, lists, all);
      if !ok {
        return;
      }
      lists := lists + [s];
    }
    AllRead(all, lists, b.Contents());
    ok := true;
  }

  /** kex_buf2prop on a copy of the payload. */
  method BufToProp(raw: seq<u8>) returns (r: Option<Offer>)
    ensures r == if |raw| <= BUFFER_MAX_CHUNK then ParsePayload(raw) else None
  {
    var b := new Buffer();
    var o := b.Append(raw);
    if o.Fatal? {
      return None;
    }
    assert b.Contents() == raw;
    var ok := b.ConsumeRet(KEX_COOKIE_LEN);
    if !ok {
      return None;
    }
    var lists;
    StartReading(b.Contents(), PROPOSAL_MAX);
    ok, lists := GetNames(b, PROPOSAL_MAX, DecNames(b.Contents(), PROPOSAL_MAX));
    if !ok {
      return None;
    }
    ghost var left := b.Contents();
    var flag;
    ok, flag := b.GetRet(1);
    if !ok {
      return None;
    }
    assert left == flag + b.Contents();
    ok := b.ConsumeRet(4);
    if !ok {
      return None;
    }
    r := Some(Offer(lists, flag[0] != 0));
  }

  // ---- kex_choose_conf ----

  /** choose_enc, choose_mac and choose_comp for one direction. */
  method PickSuite(b: Build, bugHmac: bool, cprop: seq<Name>, sprop: seq<Name>, ctos: bool) returns (r: Option<Suite>)
    requires |cprop| == |sprop| == PROPOSAL_MAX
    ensures r == ChooseSuite(b, bugHmac, cprop, sprop, ctos)
  {
    var nenc, nmac, ncomp :=
      if ctos then ENC_CTOS else ENC_STOC, if ctos then MAC_CTOS else MAC_STOC, if ctos then COMP_CTOS else COMP_STOC;
    var enc := MatchLists(cprop[nenc], sprop[nenc]);
    if enc.None? || b.cipher(enc.value).None? {
      return None;
    }
    var mac := MatchLists(cprop[nmac], sprop[nmac]);
    if mac.None? || b.mac(mac.value).None? {
      return None;
    }
    var comp := MatchLists(cprop[ncomp], sprop[ncomp]);
    if comp.None? || ChooseComp(comp.value).None? {
      return None;
    }
    var cipher := b.cipher(enc.value).value;
    r := Some(Suite(enc.value, cipher.keyLen, cipher.blockSize, mac.value,
                    if bugHmac then 16 else b.mac(mac.value).value, ChooseComp(comp.value).value));
  }

  /** The loop that makes we_need large enough for every key. */
  method WeNeed(suites: seq<Suite>) returns (need: nat)
    requires |suites| == 2
    ensures need == Need(suites[1], Need(suites[0], 0))
  {
    need := 0;
    for mode := 0 to 2
      invariant need == if mode == 0 then 0 else if mode == 1 then Need(suites[0], 0) else Need(suites[1], Need(suites[0], 0))
    {
      if need < suites[mode].keyLen {
        need := suites[mode].keyLen;
      }
      if need < suites[mode].blockSize {
        need := suites[mode].blockSize;
      }
      if need < suites[mode].macLen {
        need := suites[mode].macLen;
      }
    }
  }

  /** choose_kex, choose_hostkeyalg and we_need, once both suites are chosen. */
  method PickRest(cprop: seq<Name>, sprop: seq<Name>, inward: Suite, outward: Suite) returns (r: Option<Conf>)
    requires |cprop| == |sprop| == PROPOSAL_MAX
    ensures r == ConfFrom(Some(inward), Some(outward), Match(cprop[KEX_ALGS], sprop[KEX_ALGS]),
                          Match(cprop[HOST_KEY_ALGS], sprop[HOST_KEY_ALGS]))
  {
    var kex := MatchLists(cprop[KEX_ALGS], sprop[KEX_ALGS]);
    if kex.None? || ChooseKexType(kex.value).None? {
      return None;
    }
    var host := MatchLists(cprop[HOST_KEY_ALGS], sprop[HOST_KEY_ALGS]);
    if host.None? || KeyTypeFromName(host.value).KeyUnspec? {
      return None;
    }
    var need := WeNeed([inward, outward]);
    r := Some(Conf(inward, outward, ChooseKexType(kex.value).value, KeyTypeFromName(host.value), need));
  }

  lemma {:induction false} ConfIs(b: Build, bugHmac: bool, server: bool, my: seq<Name>, peer: seq<Name>, cprop: seq<Name>, sprop: seq<Name>)
    requires |my| == |peer| == PROPOSAL_MAX
    requires cprop == (if server then peer else my) && sprop == if server then my else peer
    ensures ChooseConf(b, bugHmac, server, my, peer) ==
            ConfFrom(ChooseSuite(b, bugHmac, cprop, sprop, server), ChooseSuite(b, bugHmac, cprop, sprop, !server),
                     Match(cprop[KEX_ALGS], sprop[KEX_ALGS]), Match(cprop[HOST_KEY_ALGS], sprop[HOST_KEY_ALGS]))
  {
  }

  method PickConf(b: Build, bugHmac: bool, server: bool, my: seq<Name>, peer: seq<Name>) returns (r: Option<Conf>)
    requires |my| == |peer| == PROPOSAL_MAX
    ensures r == ChooseConf(b, bugHmac, server, my, peer)
  {
    var cprop, sprop := if server then peer else my, if server then my else peer;
    ConfIs(b, bugHmac, server, my, peer, cprop, sprop);
    var inward := PickSuite(b, bugHmac, cprop, sprop, server);
    var outward := PickSuite(b, bugHmac, cprop, sprop, !server);
    if inward.None? || outward.None? {
      return None;
    }
    r := PickRest(cprop, sprop, inward.value, outward.value);
  }

  /** kex_choose_conf on the two payloads. */
  method ChooseFromPayloads(b: Build, bugHmac: bool, server: bool, my: seq<u8>, peer: seq<u8>) returns (r: Option<Conf>)
    ensures |my| <= BUFFER_MAX_CHUNK && |peer| <= BUFFER_MAX_CHUNK ==> r == Negotiate(b, bugHmac, server, my, peer)
    ensures |my| > BUFFER_MAX_CHUNK || |peer| > BUFFER_MAX_CHUNK ==> r.None?
  {
    var m := BufToProp(my);
    if m.None? {
      return None;
    }
    var p := BufToProp(peer);
    if p.None? {
      return None;
    }
    r := PickConf(b, bugHmac, server, m.value.lists, p.value.lists);
  }
}
