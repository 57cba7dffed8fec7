/** The KEXINIT payload: kex_prop2buf and kex_buf2prop of kex.c, section 7.1 of RFC 4253. */
module KexProposal {
  import opened Bytes
  import opened Wire
  import opened MatchList
  import opened KeyBlob

  const KEX_COOKIE_LEN: nat := 16
  const PROPOSAL_MAX: nat := 10

  /** What a KEXINIT says. */
  datatype Offer = Offer(lists: seq<Name>, follows: bool)

  function EncNames(ps: seq<Name>): (r: seq<u8>) {
    if ps == [] then [] else EncString(ps[0]) + EncNames(ps[1..])
  }

  /** buffer_get_string in a loop; any failure ends the process. */
  function DecNames(b: seq<u8>, n: nat): (r: Parsed<seq<Name>>)
    ensures r.Done? ==> |r.value| == n
    decreases n
  {
    if n == 0 then Done([], b)
    else
      match DecString(b)
      case Done(s, rest) =>
        (match DecNames(rest, n - 1)
         case Done(more, left) => Done([CString(s)] + more, left)
         case _ => Aborted)
      case _ => Aborted
  }

  /** The proposal a side sends, behind a cookie. */
  function Payload(cookie: seq<u8>, prop: seq<Name>): (r: seq<u8>) {
    cookie + EncNames(prop) + [0] + PutU32(0)
  }

  /** kex_buf2prop; None where the program would abort. */
  function ParsePayload(raw: seq<u8>): (r: Option<Offer>)
    ensures r.Some? ==> |r.value.lists| == PROPOSAL_MAX
  {
    if |raw| < KEX_COOKIE_LEN then None
    else
      match DecNames(raw[KEX_COOKIE_LEN..], PROPOSAL_MAX)
      case Done(lists, left) => if |left| < 5 then None else Some(Offer(lists, left[0] != 0))
      case _ => None
  }

  /** A list that survives the string format: short enough, and a C string. */
  predicate Sendable(p: Name) { |p| <= STRING_MAX && 0 !in p }

  lemma {:induction false} NamesRoundTrip(ps: seq<Name>, rest: seq<u8>)
    requires forall p :: p in ps ==> Sendable(p)
    ensures DecNames(EncNames(ps) + rest, |ps|) == Done(ps, rest)
  {
    if ps == [] {
      assert EncNames(ps) + rest == rest;
    } else {
      var more := EncNames(ps[1..]) + rest;
      assert ps[0] in ps;
      assert EncNames(ps) + rest == EncString(ps[0]) + more;
      StringRoundTrip(ps[0], more);
      NoZeros(ps[0]);
      NamesRoundTrip(ps[1..], rest);
      assert ps == [ps[0]] + ps[1..];
    }
  }

  /** A proposal comes back from its payload whatever the cookie. */
  lemma {:induction false} PayloadRoundTrip(cookie: seq<u8>, prop: seq<Name>)
    requires |cookie| == KEX_COOKIE_LEN && |prop| == PROPOSAL_MAX
    requires forall p :: p in prop ==> Sendable(p)
    ensures ParsePayload(Payload(cookie, prop)) == Some(Offer(prop, false))
  {
    var tail := [0 as u8] + PutU32(0);
    var raw := Payload(cookie, prop);
    assert raw == cookie + (EncNames(prop) + tail);
    assert raw[KEX_COOKIE_LEN..] == EncNames(prop) + tail;
    NamesRoundTrip(prop, tail);
  }
}
