/** Comma-separated name lists and match_list of match.c. */
module MatchList {
  import opened Bytes

  type Name = seq<u8>

  datatype Option<T> = None | Some(value: T)

  const COMMA: u8 := 44
  const MAX_PROP: nat := 40

  /** The part of a list before its first comma. */
  function Field(s: Name): (r: Name)
    ensures r <= s && COMMA !in r
    ensures |r| < |s| ==> s[|r|] == COMMA
  {
    if s == [] || s[0] == COMMA then [] else [s[0]] + Field(s[1..])
  }

  /** What is behind the first comma; strsep leaves nothing when there is none. */
  function Behind(s: Name): (r: Option<Name>)
    ensures r.Some? ==> |r.value| < |s|
  {
    if |Field(s)| < |s| then Some(s[|Field(s)| + 1..]) else None
  }

  /** The names of a list, up to the first empty one. */
  function Names(s: Name): (r: seq<Name>)
    decreases |s|
  {
    if Field(s) == [] then []
    else [Field(s)] + (if Behind(s).Some? then Names(Behind(s).value) else [])
  }

  lemma {:induction false} FieldOfJoin(n: Name, tail: Name)
    requires COMMA !in n
    ensures Field(n) == n && Field(n + [COMMA] + tail) == n
  {
    if n != [] {
      FieldOfJoin(n[1..], tail);
      assert (n + [COMMA] + tail)[1..] == n[1..] + [COMMA] + tail;
    }
  }

  lemma {:induction false} BehindPlain(n: Name, tail: Name)
    requires COMMA !in n
    ensures Field(n) == n && Behind(n) == None
    ensures Field(n + [COMMA] + tail) == n && Behind(n + [COMMA] + tail) == Some(tail)
  {
    FieldOfJoin(n, tail);
    assert (n + [COMMA] + tail)[|n| + 1..] == tail;
  }

  function Take(s: seq<Name>, n: nat): (r: seq<Name>) { if |s| <= n then s else s[..n] }

  /** The first name of the client that the server has among its first forty. */
  function FirstMatch(client: seq<Name>, server: seq<Name>): (r: Option<Name>)
    ensures r.Some? ==>
              exists i: nat :: i < |client| && client[i] == r.value && r.value in server &&
                forall j: nat :: j < i ==> client[j] !in server
    ensures r.None? ==> forall n :: n in client ==> n !in server
  {
    if client == [] then None
    else if client[0] in server then Some(client[0])
    else
      var r := FirstMatch(client[1..], server);
      r
  }

  function Match(client: Name, server: Name): (r: Option<Name>) {
    FirstMatch(Names(client), Take(Names(server), MAX_PROP))
  }

  function NamesLeft(rest: Option<Name>): (r: seq<Name>) {
    if rest.Some? then Names(rest.value) else []
  }

  lemma {:induction false} NextName(rest: Option<Name>)
    ensures rest.Some? && Field(rest.value) != [] ==>
              NamesLeft(rest) == [Field(rest.value)] + NamesLeft(Behind(rest.value))
    ensures rest.None? || Field(rest.value) == [] ==> NamesLeft(rest) == []
  {
  }

  lemma {:induction false} Onward(seen: seq<Name>, rest: Option<Name>, names: seq<Name>)
    requires rest.Some? && Field(rest.value) != [] && names == seen + NamesLeft(rest)
    ensures names == seen + [Field(rest.value)] + NamesLeft(Behind(rest.value))
  {
    NextName(rest);
    var p, more := Field(rest.value), NamesLeft(Behind(rest.value));
    assert seen + ([p] + more) == seen + [p] + more;
  }

  /** The first loop of match_list. */
  method ServerNames(server: Name) returns (sproposals: seq<Name>)
    ensures sproposals == Take(Names(server), MAX_PROP)
  {
    ghost var names := Names(server);
    sproposals := [];
    var rest, i := Some(server), 0;
    while rest.Some? && Field(rest.value) != [] && i < MAX_PROP
      invariant |sproposals| == i <= MAX_PROP
      invariant names == sproposals + NamesLeft(rest)
      decreases MAX_PROP - i
    {
      Onward(sproposals, rest, names);
      sproposals := sproposals + [Field(rest.value)];
      rest := Behind(rest.value);
      i := i + 1;
    }
    NextName(rest);
  }

  /** The innermost loop of match_list. */
  method Supported(p: Name, sproposals: seq<Name>) returns (found: bool)
    ensures found == (p in sproposals)
  {
    var j := 0;
    while j < |sproposals|
      invariant 0 <= j <= |sproposals|
      invariant p !in sproposals[..j]
    {
      if p == sproposals[j] {
        return true;
      }
      j := j + 1;
    }
    return false;
  }

  lemma {:induction false} MatchNext(p: Name, more: seq<Name>, server: seq<Name>)
    ensures FirstMatch([p] + more, server) == if p in server then Some(p) else FirstMatch(more, server)
  {
    assert ([p] + more)[1..] == more;
  }

  method MatchLists(client: Name, server: Name) returns (ret: Option<Name>)
    ensures ret == Match(client, server)
  {
    var sproposals := ServerNames(server);
    var rest := Some(client);
    while rest.Some? && Field(rest.value) != []
      invariant FirstMatch(Names(client), sproposals) == FirstMatch(NamesLeft(rest), sproposals)
      decreases if rest.Some? then |rest.value| + 1 else 0
    {
      var p := Field(rest.value);
      NextName(rest);
      MatchNext(p, NamesLeft(Behind(rest.value)), sproposals);
      var found := Supported(p, sproposals);
      if found {
        return Some(p);
      }
      rest := Behind(rest.value);
    }
    NextName(rest);
    return None;
  }
}
