/** The SOCKS decoder as the methods that work on a channel in place. */
module SocksObject {
  import opened Bytes
  import opened Wire
  import opened KeyBlob
  import opened Socks

  lemma {:induction false} SameNul(p: seq<u8>, i: nat)
    requires i <= |p|
    ensures NulFrom(p[i..], 0) == NulFrom(p, i) - i
  {
    var q := p[i..];
    assert forall j: nat :: j < |q| ==> q[j] == p[i + j];
    var a, b := NulFrom(q, 0), NulFrom(p, i) - i;
    assert b < |q| ==> q[b] == 0;
    assert a < |q| ==> p[i + a] == 0;
    assert forall j: nat :: j < a ==> q[j] != 0;
    assert forall j: nat :: j < b ==> q[j] != 0;
  }

  lemma {:induction false} Cut(p: seq<u8>, head: nat, len: nat)
    requires head + len + 2 <= |p|
    ensures p[head..][..len] == p[head..head + len]
    ensures p[head..][len..][..2] == p[head + len..head + len + 2]
    ensures p[head..][len..][2..] == p[head + len + 2..]
  {
  }

  /** The fields of a Channel that the decoder works on. */
  class Dynamic {
    var input: seq<u8>
    var authDone: bool
    var output: seq<u8>
    var verdict: Verdict

    function View(): (s: Dyn)
      reads this
    {
      Dyn(input, authDone, output, verdict)
    }

    constructor ()
      ensures View() == START
    {
      input, authDone, output, verdict := [], false, [], Pending;
    }

    method DecodeSocks4() returns (ret: int, dest: Dest, port: nat)
      modifies this`input, this`output
      ensures var a := Socks4(old(input));
              && ret == (if a.More? then 0 else if a.Bad? then -1 else 1)
              && View() == Applied(old(View()), a)
              && (a.Granted? ==> dest == a.dest && port == a.port)
    {
      dest, port := Ip4([]), 0;
      var have, p := |input|, input;
      if have < 8 {
        return 0, dest, port;
      }
      var found, i := false, 8;
      while i < have
        invariant 8 <= i <= have && !found && i <= USER_LIMIT + 1
        invariant NulFrom(p, 8) == NulFrom(p, i)
      {
        if p[i] == 0 {
          found := true;
          break;
        }
        if i > USER_LIMIT {
          return -1, dest, port;
        }
        i := i + 1;
      }
      if !found {
        return 0, dest, port;
      }
      input := input[8..];
      var len := NulFrom(input, 0);
      SameNul(p, 8);
      input := input[len..];
      input := input[1..];
      assert input == p[i + 1..];
      dest, port := Ip4(p[4..8]), Value(p[2..4]);
      if p[1] != 1 {
        return -1, dest, port;
      }
      output := output + SOCKS4_REPLY;
      ret := 1;
    }

    /** The search for the method that needs no authentication. */
    method FindNoAuth(p: seq<u8>, nmethods: nat) returns (found: bool)
      requires nmethods + 2 <= |p|
      ensures found <==> 0 in p[2..nmethods + 2]
    {
      for i := 2 to nmethods + 2
        invariant 0 !in p[2..i]
      {
        if p[i] == 0 {
          assert p[2..nmethods + 2][i - 2] == 0;
          return true;
        }
        assert p[2..i + 1] == p[2..i] + [p[i]];
      }
      found := false;
    }

    method DecodeGreeting() returns (ret: int)
      requires |input| >= 2
      modifies this`input, this`output, this`authDone
      ensures var a := Greeting(old(input));
              ret == (if a.Bad? then -1 else 0) && View() == Applied(old(View()), a)
    {
      var nmethods := input[1] as nat;
      if |input| < nmethods + 2 {
        return 0;
      }
      var found := FindNoAuth(input, nmethods);
      if !found {
        return -1;
      }
      input := input[nmethods + 2..];
      output := output + [5];
      output := output + [0];
      authDone := true;
      ret := 0;
    }

    method DecodeRequest() returns (ret: int, dest: Dest, port: nat)
      modifies this`input, this`output
      ensures var a := Request(old(input));
              && ret == (if a.More? then 0 else if a.Bad? then -1 else 1)
              && View() == Applied(old(View()), a)
              && (a.Granted? ==> dest == a.dest && port == a.port)
    {
      dest, port := Ip4([]), 0;
      var have, p := |input|, input;
      if have < 5 {
        return 0, dest, port;
      }
      if p[0] != 5 || p[1] != 1 || p[2] != 0 {
        return -1, dest, port;
      }
      var addrlen: nat;
      if p[3] == 1 {
        addrlen := 4;
      } else if p[3] == 3 {
        addrlen := p[4] as nat;
      } else if p[3] == 4 {
        addrlen := 16;
      } else {
        return -1, dest, port;
      }
      var need := 4 + addrlen + 2;
      if p[3] == 3 {
        need := need + 1;
      }
      if have < need {
        return 0, dest, port;
      }
      var head := if p[3] == 3 then 5 else 4;
      var a, v := p[head..head + addrlen], p[head + addrlen..need];
      Cut(p, head, addrlen);
      input := input[head..];
      input := input[addrlen..];
      input := input[2..];
      dest := if p[3] == 1 then Ip4(a) else if p[3] == 3 then Domain(CString(a)) else Ip6(a);
      port := Value(v);
      output := output + SOCKS5_REPLY;
      ret := 1;
    }

    method DecodeSocks5() returns (ret: int, dest: Dest, port: nat)
      requires |input| >= 3
      modifies this`input, this`output, this`authDone
      ensures var a := if old(input[0]) != 5 then Bad(0)
                       else if old(authDone) then Request(old(input)) else Greeting(old(input));
              && ret == (if a.More? || a.Greeted? then 0 else if a.Bad? then -1 else 1)
              && View() == Applied(old(View()), a)
              && (a.Granted? ==> dest == a.dest && port == a.port)
    {
      dest, port := Ip4([]), 0;
      if input[0] != 5 {
        return -1, dest, port;
      }
      if !authDone {
        ret := DecodeGreeting();
      } else {
        ret, dest, port := DecodeRequest();
      }
    }

    /** The decoder that the first octet selects. */
    method DecodeAny() returns (ret: int, dest: Dest, port: nat)
      modifies this`input, this`output, this`authDone
      ensures var a := Decode(old(input), old(authDone));
              && ret == (if a.More? || a.Greeted? then 0 else if a.Bad? then -1 else 1)
              && View() == Applied(old(View()), a)
              && (a.Granted? ==> dest == a.dest && port == a.port)
    {
      ret, dest, port := 0, Ip4([]), 0;
      if |input| < 3 {
        return;
      }
      if input[0] == 4 {
        ret, dest, port := DecodeSocks4();
      } else if input[0] == 5 {
        ret, dest, port := DecodeSocks5();
      } else {
        ret := -1;
      }
    }

    /** channel_pre_dynamic. */
    method PreDynamic()
      requires verdict.Pending?
      modifies this
      ensures View() == Round(old(View()))
    {
      var ret, dest, port := DecodeAny();
      if ret < 0 {
        verdict := Dead;
      } else if ret > 0 {
        verdict := Open(dest, port);
      }
    }
  }
}
