/** The device list of keyboard-interactive authentication: the search of auth2-chall.c. */
module KbdintDevices {
  import opened MatchList

  /** The last device whose name begins with the token, which is what strncmp over its length finds. */
  function Pick(names: seq<Name>, token: Name): (r: Option<nat>)
    ensures r.Some? ==> r.value < |names| && token <= names[r.value]
    ensures r.Some? ==> forall j: nat :: r.value < j < |names| ==> !(token <= names[j])
    ensures r.None? ==> forall j: nat :: j < |names| ==> !(token <= names[j])
  {
    if names == [] then None
    else if token <= names[|names| - 1] then Some(|names| - 1)
    else Pick(names[..|names| - 1], token)
  }

  datatype Found = Found(device: Option<nat>, rest: Option<Name>)

  /** The loop of kbdint_next_device. */
  function Search(names: seq<Name>, list: Option<Name>): (r: Found)
    ensures r.device.Some? ==> r.device.value < |names|
    decreases if list.Some? then |list.value| + 1 else 0
  {
    if list.None? || Field(list.value) == [] then Found(None, list)
    else
      var d, rest := Pick(names, Field(list.value)), Behind(list.value);
      if rest.Some? && d.None? then Search(names, rest) else Found(d, rest)
  }

  /**
   The search takes the first usable name of the list and leaves the names behind it; it fails
   only if the list holds no usable name.
   */
  lemma {:induction false} SearchTakesFirst(names: seq<Name>, list: Option<Name>)
    ensures var r, ts := Search(names, list), NamesLeft(list);
            if r.device.Some? then
              exists k: nat :: k < |ts| && Pick(names, ts[k]) == r.device && NamesLeft(r.rest) == ts[k + 1..] &&
                forall j: nat :: j < k ==> Pick(names, ts[j]).None?
            else NamesLeft(r.rest) == [] && forall t :: t in ts ==> Pick(names, t).None?
    decreases if list.Some? then |list.value| + 1 else 0
  {
    NextName(list);
    if list.Some? && Field(list.value) != [] {
      var ts, d, rest := NamesLeft(list), Pick(names, Field(list.value)), Behind(list.value);
      if d.Some? {
        assert Pick(names, ts[0]) == d && NamesLeft(rest) == ts[1..];
      } else if rest.Some? {
        SearchTakesFirst(names, rest);
        var r, us := Search(names, rest), NamesLeft(rest);
        if r.device.Some? {
          var k: nat :| k < |us| && Pick(names, us[k]) == r.device && NamesLeft(r.rest) == us[k + 1..] &&
            forall j: nat :: j < k ==> Pick(names, us[j]).None?;
          OneNameOn(names, Field(list.value), us, ts, k);
        }
      }
    }
  }

  /** A name that nothing is found for goes in front of the names passed over. */
  lemma {:induction false} OneNameOn(names: seq<Name>, t: Name, us: seq<Name>, ts: seq<Name>, k: nat)
    requires ts == [t] + us && Pick(names, t).None? && k < |us| && forall j: nat :: j < k ==> Pick(names, us[j]).None?
    ensures ts[k + 1] == us[k] && ts[k + 2..] == us[k + 1..] && forall j: nat :: j < k + 1 ==> Pick(names, ts[j]).None?
  {
    forall j: nat | j < k + 1
      ensures Pick(names, ts[j]).None?
    {
      assert j > 0 ==> ts[j] == us[j - 1];
    }
  }

  /** The list kbdint_alloc builds when the client named no devices. */
  function Join(names: seq<Name>): (r: Name) {
    if names == [] then []
    else if |names| == 1 then names[0]
    else names[0] + [COMMA] + Join(names[1..])
  }

  /** A name the search can find: not empty, without a comma, and the beginning of no later name. */
  predicate Distinctive(names: seq<Name>, k: nat)
    requires k < |names|
  {
    names[k] != [] && COMMA !in names[k] && forall j: nat :: k < j < |names| ==> !(names[k] <= names[j])
  }

  lemma {:induction false} JoinSplits(names: seq<Name>, k: nat)
    requires k < |names|
    ensures Join(names[k..]) == if k + 1 < |names| then names[k] + [COMMA] + Join(names[k + 1..]) else names[k]
  {
    if k + 1 < |names| {
      assert names[k..][1..] == names[k + 1..];
    }
  }

  /** The first field of a list that begins with the octets n is no longer than n. */
  lemma {:induction false} FieldWithin(n: Name, tail: Name)
    requires tail == [] || tail[0] == COMMA
    ensures Field(n + tail) <= n
    ensures COMMA in n ==> |Field(n + tail)| < |n|
  {
    if n == [] {
      assert n + tail == tail;
    } else if n[0] != COMMA {
      FieldWithin(n[1..], tail);
      assert (n + tail)[1..] == n[1..] + tail;
    }
  }

  /** The list behind name k, with its comma. */
  function Following(names: seq<Name>, k: nat): (r: Name)
    requires k < |names|
  {
    if k + 1 < |names| then [COMMA] + Join(names[k + 1..]) else []
  }

  lemma {:induction false} PickOwn(names: seq<Name>, k: nat)
    requires k < |names|
    ensures Pick(names, names[k]).Some?
    ensures Pick(names, names[k]) == Some(k) <==> forall j: nat :: k < j < |names| ==> !(names[k] <= names[j])
  {
    assert names[k] <= names[k];
  }

  lemma {:induction false} SearchHits(names: seq<Name>, list: Name, n: Name, rest: Option<Name>)
    requires n != [] && Field(list) == n && Behind(list) == rest && Pick(names, n).Some?
    ensures Search(names, Some(list)) == Found(Pick(names, n), rest)
  {
  }

  lemma {:induction false} FirstPlain(names: seq<Name>, k: nat, list: Name)
    requires k < |names| && list == names[k] + Following(names, k) && COMMA !in names[k]
    ensures Field(list) == names[k]
    ensures Behind(list) == if k + 1 < |names| then Some(Join(names[k + 1..])) else None
  {
    if k + 1 < |names| {
      var rest := Join(names[k + 1..]);
      assert list == names[k] + [COMMA] + rest;
      BehindPlain(names[k], rest);
    } else {
      assert list == names[k];
      BehindPlain(names[k], []);
    }
  }

  lemma {:induction false} PlainTurn(names: seq<Name>, k: nat, list: Name)
    requires k < |names| && list == names[k] + Following(names, k) && COMMA !in names[k] && names[k] != []
    ensures Search(names, Some(list)) ==
              Found(Some(k), if k + 1 < |names| then Some(Join(names[k + 1..])) else None) <==>
            Distinctive(names, k)
  {
    PickOwn(names, k);
    FirstPlain(names, k, list);
    SearchHits(names, list, names[k], if k + 1 < |names| then Some(Join(names[k + 1..])) else None);
  }

  lemma {:induction false} CommaTurn(names: seq<Name>, k: nat, list: Name)
    requires k < |names| && list == names[k] + Following(names, k) && COMMA in names[k]
    ensures Search(names, Some(list)) !=
              Found(Some(k), if k + 1 < |names| then Some(Join(names[k + 1..])) else None)
  {
    FieldWithin(names[k], Following(names, k));
    if Field(list) != [] {
      assert Field(list) <= names[k];
      assert Pick(names, Field(list)).Some?;
    }
  }

  /**
   From the default list a device gets its turn, with the devices behind it left, exactly if its
   name is distinctive.
   */
  lemma {:induction false} EveryDeviceInTurn(names: seq<Name>, k: nat)
    requires k < |names|
    ensures Search(names, Some(Join(names[k..]))) ==
              Found(Some(k), if k + 1 < |names| then Some(Join(names[k + 1..])) else None) <==>
            Distinctive(names, k)
  {
    var list := Join(names[k..]);
    JoinSplits(names, k);
    assert list == names[k] + Following(names, k);
    if COMMA in names[k] {
      CommaTurn(names, k, list);
    } else if names[k] != [] {
      PlainTurn(names, k, list);
    } else {
      FieldWithin(names[k], Following(names, k));
    }
  }

  /** Some token finds the device exactly if its name is the beginning of no later name. */
  lemma {:induction false} WhoCanBeFound(names: seq<Name>, k: nat)
    requires k < |names|
    ensures (exists token: Name :: Pick(names, token) == Some(k)) <==>
            forall j: nat :: k < j < |names| ==> !(names[k] <= names[j])
  {
    if forall j: nat :: k < j < |names| ==> !(names[k] <= names[j]) {
      assert names[k] <= names[k];
      assert Pick(names, names[k]) == Some(k);
    }
  }

  /** Two devices, the first hidden by the second whatever the client asks for. */
  lemma {:induction false} HiddenDevice(token: Name)
    ensures var names: seq<Name> := [[112], [112, 97]];
            && Search(names, Some(Join(names))) == Found(Some(1), Some([112, 97]))
            && Search(names, Some([112, 97])) == Found(Some(1), None)
            && Pick(names, token) != Some(0)
  {
    var names: seq<Name> := [[112], [112, 97]];
    assert names[0] <= names[1];
    WhoCanBeFound(names, 0);
    FieldOfJoin([112], [112, 97]);
    FieldOfJoin([112, 97], []);
    JoinSplits(names, 0);
    assert names[0..] == names && names[1..] == [[112, 97]];
    assert Join(names)[2..] == [112, 97];
  }
}
