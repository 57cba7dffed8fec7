/**
 Algorithm negotiation and key derivation of kex.c: sections 7.1 and 7.2 of RFC 4253.
 The same code runs on both sides with the roles swapped.
 */
module KexChoose {
  import opened Bytes
  import opened MatchList
  import opened KeyBlob
  import opened KexProposal

  datatype CipherInfo = CipherInfo(keyLen: nat, blockSize: nat)

  /** The algorithms both programs are built with, and what the peer's version string switched on. */
  datatype Build = Build(cipher: Name -> Option<CipherInfo>, mac: Name -> Option<nat>)

  datatype CompType = CompNone | CompZlib | CompDelayed

  datatype Suite = Suite(enc: Name, keyLen: nat, blockSize: nat, mac: Name, macLen: nat, comp: CompType)

  datatype KexType = Group1 | Group14 | GexSha1 | GexSha256

  /** The indices of enum kex_init_proposals. */
  const KEX_ALGS: nat := 0
  const HOST_KEY_ALGS: nat := 1
  const ENC_CTOS: nat := 2
  const ENC_STOC: nat := 3
  const MAC_CTOS: nat := 4
  const MAC_STOC: nat := 5
  const COMP_CTOS: nat := 6
  const COMP_STOC: nat := 7

  function ChooseComp(name: Name): (r: Option<CompType>) {
    if name == Ascii("zlib@openssh.com") then Some(CompDelayed)
    else if name == Ascii("zlib") then Some(CompZlib)
    else if name == Ascii("none") then Some(CompNone)
    else None
  }

  function ChooseKexType(name: Name): (r: Option<KexType>) {
    if name == Ascii("diffie-hellman-group1-sha1") then Some(Group1)
    else if name == Ascii("diffie-hellman-group14-sha1") then Some(Group14)
    else if name == Ascii("diffie-hellman-group-exchange-sha1") then Some(GexSha1)
    else if name == Ascii("diffie-hellman-group-exchange-sha256") then Some(GexSha256)
    else None
  }

  /** choose_enc, choose_mac and choose_comp for one direction; None where one of them aborts. */
  function ChooseSuite(b: Build, bugHmac: bool, cprop: seq<Name>, sprop: seq<Name>, ctos: bool): (r: Option<Suite>)
    requires |cprop| == |sprop| == PROPOSAL_MAX
  {
    var nenc, nmac, ncomp :=
      if ctos then ENC_CTOS else ENC_STOC, if ctos then MAC_CTOS else MAC_STOC, if ctos then COMP_CTOS else COMP_STOC;
    var enc, mac, comp :=
      Match(cprop[nenc], sprop[nenc]), Match(cprop[nmac], sprop[nmac]), Match(cprop[ncomp], sprop[ncomp]);
    if enc.None? || mac.None? || comp.None? then None
    else
      var cipher, macLen, ct := b.cipher(enc.value), b.mac(mac.value), ChooseComp(comp.value);
      if cipher.None? || macLen.None? || ct.None? then None
      else
        Some(Suite(enc.value, cipher.value.keyLen, cipher.value.blockSize,
                   mac.value, if bugHmac then 16 else macLen.value, ct.value))
  }

  /** What kex_choose_conf leaves in the Kex: the suites for both modes and the rest. */
  datatype Conf = Conf(inward: Suite, outward: Suite, kex: KexType, hostkey: KeyType, weNeed: nat)

  function Need(s: Suite, need: nat): (r: nat)
    ensures r >= need && r >= s.keyLen && r >= s.blockSize && r >= s.macLen
    ensures r == need || r == s.keyLen || r == s.blockSize || r == s.macLen
  {
    var a := if need < s.keyLen then s.keyLen else need;
    var c := if a < s.blockSize then s.blockSize else a;
    if c < s.macLen then s.macLen else c
  }

  /** The end of kex_choose_conf, once the names are matched; None where a choice aborts. */
  function ConfFrom(inward: Option<Suite>, outward: Option<Suite>, kex: Option<Name>, host: Option<Name>): (r: Option<Conf>) {
    if inward.None? || outward.None? || kex.None? || host.None? then None
    else
      var kt, ht := ChooseKexType(kex.value), KeyTypeFromName(host.value);
      if kt.None? || ht.KeyUnspec? then None
      else Some(Conf(inward.value, outward.value, kt.value, ht, Need(outward.value, Need(inward.value, 0))))
  }

  /** kex_choose_conf on parsed proposals; None where it aborts. */
  function ChooseConf(b: Build, bugHmac: bool, server: bool, my: seq<Name>, peer: seq<Name>): (r: Option<Conf>)
    requires |my| == |peer| == PROPOSAL_MAX
  {
    var cprop, sprop := if server then peer else my, if server then my else peer;
    ConfFrom(ChooseSuite(b, bugHmac, cprop, sprop, server), ChooseSuite(b, bugHmac, cprop, sprop, !server),
             Match(cprop[KEX_ALGS], sprop[KEX_ALGS]), Match(cprop[HOST_KEY_ALGS], sprop[HOST_KEY_ALGS]))
  }

  /** Negotiation as it runs on the two KEXINIT payloads. */
  function Negotiate(b: Build, bugHmac: bool, server: bool, my: seq<u8>, peer: seq<u8>): (r: Option<Conf>) {
    var m, p := ParsePayload(my), ParsePayload(peer);
    if m.None? || p.None? then None else ChooseConf(b, bugHmac, server, m.value.lists, p.value.lists)
  }

  /** The same algorithms serve a direction at both of its ends. */
  predicate Mirrored(c: Conf, s: Conf) {
    && c.kex == s.kex && c.hostkey == s.hostkey && c.weNeed == s.weNeed
    && c.outward == s.inward && c.inward == s.outward
  }

  /** Client and server abort together or agree on everything. */
  lemma {:induction false} NegotiationAgrees(b: Build, bugHmac: bool, cpay: seq<u8>, spay: seq<u8>)
    ensures Negotiate(b, bugHmac, false, cpay, spay).None? <==> Negotiate(b, bugHmac, true, spay, cpay).None?
    ensures Negotiate(b, bugHmac, false, cpay, spay).Some? ==>
              Mirrored(Negotiate(b, bugHmac, false, cpay, spay).value, Negotiate(b, bugHmac, true, spay, cpay).value)
  {
  }

  /** The key length of the MAC that the proposals select for one direction. */
  function MacKey(b: Build, cprop: seq<Name>, sprop: seq<Name>, at: nat): (r: Option<nat>)
    requires at < |cprop| == |sprop|
  {
    var m := Match(cprop[at], sprop[at]);
    if m.None? then None else b.mac(m.value)
  }

  /** Everything but what depends on the length of a MAC key. */
  predicate AgreeButMac(c: Conf, s: Conf) {
    && c.kex == s.kex && c.hostkey == s.hostkey
    && c.outward == s.inward.(macLen := c.outward.macLen) && c.inward == s.outward.(macLen := c.inward.macLen)
  }

  /** One direction at both its ends. */
  lemma {:induction false} SuiteWithBug(b: Build, bugC: bool, bugS: bool, cprop: seq<Name>, sprop: seq<Name>, ctos: bool)
    requires |cprop| == |sprop| == PROPOSAL_MAX
    ensures var c, s := ChooseSuite(b, bugC, cprop, sprop, ctos), ChooseSuite(b, bugS, cprop, sprop, ctos);
            && (c.None? <==> s.None?)
            && (c.Some? ==>
                  && c.value == s.value.(macLen := c.value.macLen)
                  && (c == s <==> bugC == bugS || MacKey(b, cprop, sprop, if ctos then MAC_CTOS else MAC_STOC) == Some(16)))
  {
  }

  /** The same direction but for the length of its MAC key. */
  predicate LikeSuite(c: Option<Suite>, s: Option<Suite>) {
    (c.None? <==> s.None?) && (c.Some? ==> c.value == s.value.(macLen := c.value.macLen))
  }

  lemma {:induction false} ConfPair(cin: Option<Suite>, cout: Option<Suite>, sin: Option<Suite>, sout: Option<Suite>,
                                    kex: Option<Name>, host: Option<Name>)
    requires LikeSuite(cout, sin) && LikeSuite(cin, sout)
    ensures var c, s := ConfFrom(cin, cout, kex, host), ConfFrom(sin, sout, kex, host);
            && (c.None? <==> s.None?)
            && (c.Some? ==> cin.Some? && cout.Some? && AgreeButMac(c.value, s.value))
            && (c.Some? ==> (Mirrored(c.value, s.value) <==> cout == sin && cin == sout))
  {
  }

  /**
   Whatever SSH_BUG_HMAC does on either side, the two sides abort together and agree on all but
   the MAC keys.  They agree on everything exactly if the flag is the same on both sides, or the
   MACs that the proposals select have 16-octet keys anyway.
   */
  lemma {:induction false} HmacBugAgreement(b: Build, bugC: bool, bugS: bool, cprop: seq<Name>, sprop: seq<Name>)
    requires |cprop| == |sprop| == PROPOSAL_MAX
    ensures var c, s := ChooseConf(b, bugC, false, cprop, sprop), ChooseConf(b, bugS, true, sprop, cprop);
            && (c.None? <==> s.None?)
            && (c.Some? ==>
                  && AgreeButMac(c.value, s.value)
                  && (Mirrored(c.value, s.value) <==>
                        bugC == bugS ||
                        (MacKey(b, cprop, sprop, MAC_CTOS) == Some(16) && MacKey(b, cprop, sprop, MAC_STOC) == Some(16))))
  {
    SuiteWithBug(b, bugC, bugS, cprop, sprop, true);
    SuiteWithBug(b, bugC, bugS, cprop, sprop, false);
    ConfPair(ChooseSuite(b, bugC, cprop, sprop, false), ChooseSuite(b, bugC, cprop, sprop, true),
             ChooseSuite(b, bugS, cprop, sprop, true), ChooseSuite(b, bugS, cprop, sprop, false),
             Match(cprop[KEX_ALGS], sprop[KEX_ALGS]), Match(cprop[HOST_KEY_ALGS], sprop[HOST_KEY_ALGS]));
  }
}
