/** Concrete proposals: what is assumed elsewhere can be met, and where agreement fails it does fail. */
module KexExample {
  import opened MatchList
  import opened KeyBlob
  import opened KexProposal
  import opened KexChoose

  lemma {:induction false} SingleMatch(s: Name)
    requires s != [] && COMMA !in s
    ensures Match(s, s) == Some(s)
  {
    BehindPlain(s, []);
    assert Names(s) == [s];
    assert Take(Names(s), MAX_PROP) == [s];
  }

  predicate Plain(s: Name) { s != [] && COMMA !in s && 0 !in s }

  lemma {:induction false} AsciiPlain(s: string)
    requires s != [] && forall c :: c in s ==> ',' < c < '~'
    ensures Plain(Ascii(s))
  {
    forall i: nat | i < |s|
      ensures Ascii(s)[i] != COMMA && Ascii(s)[i] != 0
    {
      assert s[i] in s;
    }
  }

  const FIXED_GROUP: Name := Ascii("diffie-hellman-group1-sha1")
  const GROUP_EXCHANGE: Name := Ascii("diffie-hellman-group-exchange-sha256")
  const COMP: Name := Ascii("zlib@openssh.com")

  lemma {:induction false} KexPlain()
    ensures Plain(FIXED_GROUP) && Plain(GROUP_EXCHANGE)
  {
    AsciiPlain("diffie-hellman-group1-sha1");
    AsciiPlain("diffie-hellman-group-exchange-sha256");
  }

  lemma {:induction false} OthersPlain()
    ensures Plain(COMP) && Plain(SSH_RSA)
  {
    AsciiPlain("zlib@openssh.com");
    AsciiPlain("ssh-rsa");
  }

  lemma {:induction false} KexTypes()
    ensures ChooseKexType(FIXED_GROUP) == Some(Group1) && ChooseKexType(GROUP_EXCHANGE) == Some(GexSha256)
  {
  }

  /** One algorithm of each kind. */
  function Proposal(kex: Name): (r: seq<Name>)
    ensures |r| == PROPOSAL_MAX
  {
    [kex, SSH_RSA, [1], [1], [2], [2], COMP, COMP, [], []]
  }

  /** A build whose MACs all have keys of that length. */
  function Toy(macLen: nat): (b: Build) { Build(n => Some(CipherInfo(24, 8)), n => Some(macLen)) }

  /** One algorithm of each kind in common is enough. */
  lemma {:induction false} SuiteIs(b: Build, bug: bool, props: seq<Name>, ctos: bool, enc: Name, mac: Name, comp: Name)
    requires |props| == PROPOSAL_MAX && Plain(enc) && Plain(mac) && Plain(comp)
    requires props[ENC_CTOS] == enc && props[ENC_STOC] == enc && props[MAC_CTOS] == mac && props[MAC_STOC] == mac
    requires props[COMP_CTOS] == comp && props[COMP_STOC] == comp
    requires b.cipher(enc).Some? && b.mac(mac).Some? && ChooseComp(comp).Some?
    ensures ChooseSuite(b, bug, props, props, ctos).Some?
    ensures var s := ChooseSuite(b, bug, props, props, ctos).value;
            && s.keyLen == b.cipher(enc).value.keyLen && s.blockSize == b.cipher(enc).value.blockSize
            && s.macLen == if bug then 16 else b.mac(mac).value
    ensures MacKey(b, props, props, MAC_CTOS) == b.mac(mac)
  {
    SingleMatch(enc);
    SingleMatch(mac);
    SingleMatch(comp);
  }

  lemma {:induction false} ConfIs(b: Build, bug: bool, props: seq<Name>, server: bool, kex: Name, host: Name)
    requires |props| == PROPOSAL_MAX && props[KEX_ALGS] == kex && props[HOST_KEY_ALGS] == host && Plain(kex) && Plain(host)
    requires ChooseSuite(b, bug, props, props, true).Some? && ChooseSuite(b, bug, props, props, false).Some?
    requires ChooseKexType(kex).Some? && !KeyTypeFromName(host).KeyUnspec?
    ensures var c := ChooseConf(b, bug, server, props, props);
            && c.Some? && c.value.kex == ChooseKexType(kex).value && c.value.hostkey == KeyTypeFromName(host)
            && c.value.inward == ChooseSuite(b, bug, props, props, server).value
            && c.value.outward == ChooseSuite(b, bug, props, props, !server).value
            && c.value.weNeed == Need(c.value.outward, Need(c.value.inward, 0))
  {
    SingleMatch(kex);
    SingleMatch(host);
  }

  lemma {:induction false} ToySuite(macLen: nat, bug: bool, kex: Name, ctos: bool)
    ensures ChooseSuite(Toy(macLen), bug, Proposal(kex), Proposal(kex), ctos).Some?
    ensures var s := ChooseSuite(Toy(macLen), bug, Proposal(kex), Proposal(kex), ctos).value;
            s.keyLen == 24 && s.blockSize == 8 && s.macLen == if bug then 16 else macLen
    ensures MacKey(Toy(macLen), Proposal(kex), Proposal(kex), MAC_CTOS) == Some(macLen)
  {
    OthersPlain();
    SuiteIs(Toy(macLen), bug, Proposal(kex), ctos, [1], [2], COMP);
  }

  lemma {:induction false} ToyConf(macLen: nat, bug: bool, kex: Name, server: bool)
    requires Plain(kex) && ChooseKexType(kex).Some?
    ensures var c := ChooseConf(Toy(macLen), bug, server, Proposal(kex), Proposal(kex));
            && c.Some? && c.value.kex == ChooseKexType(kex).value && c.value.hostkey == KeyRsa
            && (!bug ==> c.value.weNeed == if macLen > 24 then macLen else 24)
  {
    OthersPlain();
    NamesAreDistinct();
    ToySuite(macLen, bug, kex, true);
    ToySuite(macLen, bug, kex, false);
    ConfIs(Toy(macLen), bug, Proposal(kex), server, kex, SSH_RSA);
  }

  /** A MAC with a 20-octet key: the side with SSH_BUG_HMAC and the other disagree, whichever it is. */
  lemma {:induction false} HmacBugDisagrees(bugC: bool)
    ensures var p := Proposal(FIXED_GROUP);
            var c, s := ChooseConf(Toy(20), bugC, false, p, p), ChooseConf(Toy(20), !bugC, true, p, p);
            c.Some? && s.Some? && !Mirrored(c.value, s.value)
  {
    var p := Proposal(FIXED_GROUP);
    KexPlain();
    KexTypes();
    ToyConf(20, bugC, FIXED_GROUP, false);
    ToySuite(20, bugC, FIXED_GROUP, true);
    HmacBugAgreement(Toy(20), bugC, !bugC, p, p);
  }
}
