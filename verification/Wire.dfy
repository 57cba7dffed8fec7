/**
 The encodings of bufaux.c and bufbn.c as functions on octet strings, and the laws that
 make them a wire format: decoding undoes encoding, and no encoding is a prefix of another.
 */
module Wire {
  import opened Bytes

  /** Reading either succeeds, is refused with an error return, or ends the process. */
  datatype Parsed<T> = Done(value: T, rest: seq<u8>) | Refused | Aborted

  const STRING_MAX: nat := 256 * 1024
  const BIGNUM_MAX: nat := 8 * 1024

  lemma {:induction false} Regrouped(a: seq<u8>, b: seq<u8>, c: seq<u8>, d: seq<u8>)
    ensures a + b + c + d == a + (b + (c + d))
  {
  }

  // ---- integers, most significant octet first ----

  function Octet(v: nat): (r: u8) { (v % 256) as u8 }

  function PutU16(v: nat): (r: seq<u8>) { [Octet(v / 256), Octet(v)] }

  function PutU32(v: nat): (r: seq<u8>) {
    [Octet(v / 0x100_0000), Octet(v / 0x1_0000), Octet(v / 0x100), Octet(v)]
  }

  /** The number whose base-256 digits are `s`, most significant first. */
  function Value(s: seq<u8>): (r: nat) {
    if s == [] then 0 else Value(s[..|s| - 1]) * 256 + s[|s| - 1] as nat
  }

  function GetU32(s: seq<u8>): (r: nat)
    requires |s| >= 4
  {
    Value(s[..4])
  }

  lemma {:induction false} ValueAppend(s: seq<u8>, x: u8)
    ensures Value(s + [x]) == Value(s) * 256 + x as nat
  {
    assert (s + [x])[..|s|] == s;
  }

  lemma {:induction false} Join16(v: nat)
    ensures (v / 256 % 256) * 256 + v % 256 == v % 0x1_0000
  {
  }

  lemma {:induction false} Join24(v: nat)
    ensures (v / 256 % 0x1_0000) * 256 + v % 256 == v % 0x100_0000
  {
  }

  lemma {:induction false} Join32(v: nat)
    ensures (v / 256 % 0x100_0000) * 256 + v % 256 == v % 0x1_0000_0000
  {
  }

  lemma {:induction false} PutGetU16(v: nat)
    ensures Value(PutU16(v)) == v % 0x1_0000
  {
    var a, b := Octet(v / 256), Octet(v);
    ValueAppend([], a);
    ValueAppend([a], b);
    assert [] + [a] == [a] && [a] + [b] == PutU16(v);
    Join16(v);
  }

  lemma {:induction false} Value4(a: u8, b: u8, c: u8, d: u8)
    ensures Value([a, b, c, d]) == ((a as nat * 256 + b as nat) * 256 + c as nat) * 256 + d as nat
  {
    ValueAppend([], a);
    ValueAppend([a], b);
    ValueAppend([a, b], c);
    ValueAppend([a, b, c], d);
    assert [] + [a] == [a] && [a] + [b] == [a, b] && [a, b] + [c] == [a, b, c] && [a, b, c] + [d] == [a, b, c, d];
  }

  lemma {:induction false} Shifted(v: nat)
    ensures v / 0x1_0000 / 256 == v / 0x100_0000 && v / 0x100 / 256 == v / 0x1_0000
  {
  }

  lemma {:induction false} ValueU32(v: nat)
    ensures Value(PutU32(v)) == v % 0x1_0000_0000
  {
    Value4(Octet(v / 0x100_0000), Octet(v / 0x1_0000), Octet(v / 0x100), Octet(v));
    FourOctets(v, v / 0x100, v / 0x1_0000, v / 0x100_0000);
  }

  lemma {:induction false} FourOctets(v: nat, v1: nat, v2: nat, v3: nat)
    requires v1 == v / 0x100 && v2 == v / 0x1_0000 && v3 == v / 0x100_0000
    ensures ((v3 % 256 * 256 + v2 % 256) * 256 + v1 % 256) * 256 + v % 256 == v % 0x1_0000_0000
  {
    Shifted(v);
    Join16(v2);
    Join24(v1);
    Join32(v);
  }

  lemma {:induction false} PutGetU32(v: nat, rest: seq<u8>)
    ensures GetU32(PutU32(v) + rest) == Wrap(v)
  {
    assert (PutU32(v) + rest)[..4] == PutU32(v);
    ValueU32(v);
    WrapIsModulo(v);
  }

  // ---- strings ----

  function EncString(s: seq<u8>): (r: seq<u8>) { PutU32(|s|) + s }

  /** buffer_get_string_ret on the contents of a buffer. */
  function DecString(b: seq<u8>): (r: Parsed<seq<u8>>) {
    if |b| < 4 then Aborted
    else
      var len := GetU32(b);
      if len > STRING_MAX || len > |b| - 4 then Refused else Done(b[4..4 + len], b[4 + len..])
  }

  lemma {:induction false} StringRoundTrip(s: seq<u8>, rest: seq<u8>)
    requires |s| < U32
    ensures DecString(EncString(s) + rest) == if |s| <= STRING_MAX then Done(s, rest) else Refused
  {
    var b := EncString(s) + rest;
    assert b == PutU32(|s|) + (s + rest);
    PutGetU32(|s|, s + rest);
    assert b[4..4 + |s|] == s && b[4 + |s|..] == rest;
  }

  /** No string encoding is a proper prefix of another. */
  lemma {:induction false} StringPrefixFree(s: seq<u8>, t: seq<u8>, x: seq<u8>, y: seq<u8>)
    requires |s| < U32 && |t| < U32
    requires EncString(s) + x == EncString(t) + y
    ensures s == t && x == y
  {
    var b := EncString(s) + x;
    assert b == PutU32(|s|) + (s + x) && b == PutU32(|t|) + (t + y);
    PutGetU32(|s|, s + x);
    PutGetU32(|t|, t + y);
    assert s == b[4..4 + |s|] && t == b[4..4 + |t|];
    assert x == b[4 + |s|..] && y == b[4 + |t|..];
  }

  // ---- multiple precision integers ----

  /** The shortest base-256 form, empty for zero: what BN_bn2bin writes. */
  function Digits(v: nat): (r: seq<u8>)
    ensures v == 0 <==> r == []
    ensures v > 0 ==> r[0] != 0
  {
    if v == 0 then [] else
      var high := Digits(v / 256);
      high + [Octet(v)]
  }

  lemma {:induction false} DigitsValue(v: nat)
    ensures Value(Digits(v)) == v
  {
    if v > 0 {
      DigitsValue(v / 256);
      assert Digits(v)[..|Digits(v)| - 1] == Digits(v / 256);
    }
  }

  /** A leading zero octet changes nothing. */
  lemma {:induction false} LeadingZero(s: seq<u8>)
    ensures Value([0] + s) == Value(s)
  {
    var z := [0 as u8] + s;
    if s == [] {
      assert z[..0] == [];
    } else {
      LeadingZero(s[..|s| - 1]);
      assert z[..|z| - 1] == [0] + s[..|s| - 1];
    }
  }

  /** The shortest form that a reader of two's complement would not take for a negative number. */
  function Magnitude(v: nat): (r: seq<u8>) {
    var d := Digits(v);
    if d != [] && d[0] >= 128 then [0] + d else d
  }

  /** buffer_put_bignum2_ret. */
  function EncMpint(v: nat): (r: seq<u8>) { EncString(Magnitude(v)) }

  /** buffer_get_bignum2_ret. */
  function DecMpint(b: seq<u8>): (r: Parsed<nat>) {
    match DecString(b)
    case Aborted => Aborted
    case Refused => Refused
    case Done(s, rest) =>
      if s != [] && s[0] >= 128 then Refused
      else if |s| > BIGNUM_MAX then Refused
      else Done(Value(s), rest)
  }

  /** Reading undoes writing exactly for the numbers of at most 8192 octets. */
  lemma {:induction false} MpintRoundTrip(v: nat, rest: seq<u8>)
    requires |Magnitude(v)| < U32
    ensures DecMpint(EncMpint(v) + rest) == if |Magnitude(v)| <= BIGNUM_MAX then Done(v, rest) else Refused
  {
    StringRoundTrip(Magnitude(v), rest);
    DigitsValue(v);
    LeadingZero(Digits(v));
  }

  /** Section 5 of RFC 4251: no unnecessary leading octet, and the sign bit is clear. */
  lemma {:induction false} MpintMinimal(v: nat)
    ensures v == 0 <==> Magnitude(v) == []
    ensures v > 0 ==> Magnitude(v)[0] < 128
    ensures |Magnitude(v)| >= 1 && Magnitude(v)[0] == 0 ==> |Magnitude(v)| >= 2 && Magnitude(v)[1] >= 128
    ensures Value(Magnitude(v)) == v
  {
    DigitsValue(v);
    LeadingZero(Digits(v));
  }

  /** No form of a number is shorter than its digits, and only the digits themselves are as short. */
  lemma {:induction false} DigitsShortest(s: seq<u8>)
    ensures |Digits(Value(s))| <= |s|
    ensures |Digits(Value(s))| == |s| ==> Digits(Value(s)) == s
  {
    if s != [] {
      var h, x := s[..|s| - 1], s[|s| - 1];
      DigitsShortest(h);
      assert Value(s) / 256 == Value(h) && Value(s) % 256 == x as nat;
      assert s == h + [x];
    }
  }

  /** Among all forms with a clear sign bit the written one is the shortest. */
  lemma {:induction false} MpintShortest(v: nat, s: seq<u8>)
    requires Value(s) == v && (s == [] || s[0] < 128)
    ensures |Magnitude(v)| <= |s|
  {
    DigitsShortest(s);
  }

  lemma {:induction false} MpintPrefixFree(v: nat, w: nat, x: seq<u8>, y: seq<u8>)
    requires |Magnitude(v)| < U32 && |Magnitude(w)| < U32
    requires EncMpint(v) + x == EncMpint(w) + y
    ensures v == w && x == y
  {
    StringPrefixFree(Magnitude(v), Magnitude(w), x, y);
    MpintMinimal(v);
    MpintMinimal(w);
  }

  // ---- the older bignums with a bit count ----

  /** BN_num_bits. */
  function Bits(v: nat): (r: nat)
    ensures v == 0 <==> r == 0
  {
    if v == 0 then 0 else 1 + Bits(v / 2)
  }

  lemma {:induction false} BitsAreOctets(v: nat)
    ensures |Digits(v)| == (Bits(v) + 7) / 8
  {
    if v >= 256 {
      BitsAreOctets(v / 256);
      EightBits(v);
    } else if v > 0 {
      SmallBits(v);
      assert v / 256 == 0;
    }
  }

  lemma {:induction false} EightBits(v: nat)
    requires v >= 256
    ensures Bits(v) == 8 + Bits(v / 256)
  {
    FourBits(v);
    FourBits(v / 16);
    assert v / 16 / 16 == v / 256;
  }

  lemma {:induction false} FourBits(v: nat)
    requires v >= 16
    ensures Bits(v) == 4 + Bits(v / 16)
  {
    assert Bits(v) == 1 + Bits(v / 2);
    assert Bits(v / 2) == 1 + Bits(v / 2 / 2) && v / 2 / 2 == v / 4;
    assert Bits(v / 4) == 1 + Bits(v / 4 / 2) && v / 4 / 2 == v / 8;
    assert Bits(v / 8) == 1 + Bits(v / 8 / 2) && v / 8 / 2 == v / 16;
  }

  lemma {:induction false} SmallBits(v: nat)
    requires 0 < v < 256
    ensures 1 <= Bits(v) <= 8
  {
    if v >= 16 {
      FourBits(v);
      TinyBits(v / 16);
    } else {
      TinyBits(v);
    }
  }

  lemma {:induction false} TinyBits(v: nat)
    requires v < 16
    ensures Bits(v) <= 4
  {
    assert Bits(v) <= 1 + Bits(v / 2);
    assert Bits(v / 2) <= 1 + Bits(v / 2 / 2);
    assert Bits(v / 2 / 2) <= 1 + Bits(v / 2 / 2 / 2);
    assert v / 2 / 2 / 2 <= 1;
  }

  /** buffer_put_bignum_ret: the bit count goes through a 16-bit field. */
  function EncBignum(v: nat): (r: seq<u8>) { PutU16(Bits(v)) + Digits(v) }

  /** buffer_get_bignum_ret. */
  function DecBignum(b: seq<u8>): (r: Parsed<nat>) {
    if |b| < 2 then Refused
    else
      var bytes := (Value(b[..2]) + 7) / 8;
      if bytes > BIGNUM_MAX || |b| - 2 < bytes then Refused
      else Done(Value(b[2..2 + bytes]), b[2 + bytes..])
  }

  /** How many octets the reader expects after a 16-bit count of `bits` bits. */
  function Expected(bits: nat): (r: nat)
    ensures r <= (bits + 7) / 8 && r <= BIGNUM_MAX
    ensures bits < 0x1_0000 ==> r == (bits + 7) / 8
    ensures bits >= 0x1_0000 ==> r < (bits + 7) / 8
  {
    (bits % 0x1_0000 + 7) / 8
  }

  lemma {:induction false} Skip(h: seq<u8>, t: seq<u8>, n: nat)
    requires n <= |t|
    ensures (h + t)[|h|..|h| + n] == t[..n] && (h + t)[|h| + n..] == t[n..]
  {
  }

  lemma {:induction false} BignumDecodes(v: nat, rest: seq<u8>, t: seq<u8>, bytes: nat)
    requires t == Digits(v) + rest && bytes == Expected(Bits(v))
    ensures bytes <= |Digits(v)| && DecBignum(EncBignum(v) + rest) == Done(Value(t[..bytes]), t[bytes..])
  {
    BitsAreOctets(v);
    PutGetU16(Bits(v));
    Placed(PutU16(Bits(v)), Digits(v), rest, t);
    Skip(PutU16(Bits(v)), t, bytes);
    CountedDecodes(EncBignum(v) + rest, PutU16(Bits(v)), t, bytes, Bits(v));
  }

  lemma {:induction false} Placed(h: seq<u8>, d: seq<u8>, rest: seq<u8>, t: seq<u8>)
    requires t == d + rest
    ensures h + d + rest == h + t && (h + t)[..|h|] == h && |h + t| == |h| + |t|
  {
  }

  /** What the reader makes of a count and what follows it. */
  lemma {:induction false} CountedDecodes(b: seq<u8>, h: seq<u8>, t: seq<u8>, bytes: nat, bits: nat)
    requires |h| == 2 && |b| == 2 + |t| && b[..2] == h && Value(h) == bits % 0x1_0000 && bytes == Expected(bits) <= |t|
    requires b[2..2 + bytes] == t[..bytes] && b[2 + bytes..] == t[bytes..]
    ensures DecBignum(b) == Done(Value(t[..bytes]), t[bytes..])
  {
  }

  /** Reading undoes writing exactly for the numbers of at most 65535 bits. */
  lemma {:induction false} BignumRoundTrip(v: nat, rest: seq<u8>)
    ensures DecBignum(EncBignum(v) + rest) == Done(v, rest) <==> Bits(v) < 0x1_0000
  {
    var t, bytes := Digits(v) + rest, Expected(Bits(v));
    BignumDecodes(v, rest, t, bytes);
    BitsAreOctets(v);
    DigitsValue(v);
    if Bits(v) < 0x1_0000 {
      assert t[..bytes] == Digits(v) && t[bytes..] == rest;
    } else {
      assert |t[bytes..]| > |rest|;
    }
  }
}
