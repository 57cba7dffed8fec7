/**
 The CRC of crc32.c.  The table-driven loop is proved equal to the shift register that
 divides the message by the reflected polynomial, one bit at a time.

 Words are combined through small named functions, so that the proofs reason about
 equations between them and not about single bits.
 */
module Crc32 {
  import opened Bytes

  const POLYNOMIAL: bv32 := 0xedb88320

  function Xor(x: bv32, y: bv32): (r: bv32) { x ^ y }

  function Half(x: bv32): (r: bv32) { x >> 1 }

  function High(x: bv32): (r: bv32) { x >> 8 }

  /** The lowest eight bits. */
  function Low(x: bv32): (r: byte) { (x & 0xff) as bv8 }

  function Wide(b: byte): (r: bv32) { b as bv32 }

  predicate Odd(x: bv32) { x & 1 == 1 }

  function Mask(x: bv32): (r: bv32) { if Odd(x) then POLYNOMIAL else 0 }

  // ---- the specification: bit-serial division ----

  /** The register moves on by one place; a bit that falls out subtracts the polynomial. */
  function Shift(x: bv32): (r: bv32) { Xor(Half(x), Mask(x)) }

  function Bit(b: bool): (r: bv32) { if b then 1 else 0 }

  function FeedBits(crc: bv32, bits: seq<bool>): (r: bv32)
    decreases |bits|
  {
    if bits == [] then crc else FeedBits(Shift(Xor(crc, Bit(bits[0]))), bits[1..])
  }

  /** The lowest `n` bits of a word, least significant first. */
  function BitsOf(w: bv32, n: nat): (r: seq<bool>)
    decreases n
  {
    if n == 0 then [] else [Odd(w)] + BitsOf(Half(w), n - 1)
  }

  /** The register after the bits of `buf`, each octet least significant bit first. */
  function Divide(crc: bv32, buf: seq<byte>): (r: bv32)
    decreases |buf|
  {
    if buf == [] then crc else Divide(FeedBits(crc, BitsOf(Wide(buf[0]), 8)), buf[1..])
  }

  function Shift8(x: bv32): (r: bv32) {
    Shift(Shift(Shift(Shift(Shift(Shift(Shift(Shift(x))))))))
  }

  // ---- crc32tab, sixteen entries to a row ----

  function Row0(j: bv8): (r: bv32)
    requires j < 16
    ensures r == Shift8(0x00 | (j as bv32))
  {
    match j
    case 0 => 0x00000000 case 1 => 0x77073096 case 2 => 0xee0e612c case 3 => 0x990951ba
    case 4 => 0x076dc419 case 5 => 0x706af48f case 6 => 0xe963a535 case 7 => 0x9e6495a3
    case 8 => 0x0edb8832 case 9 => 0x79dcb8a4 case 10 => 0xe0d5e91e case 11 => 0x97d2d988
    case 12 => 0x09b64c2b case 13 => 0x7eb17cbd case 14 => 0xe7b82d07 case _ => 0x90bf1d91
  }

  function Row1(j: bv8): (r: bv32)
    requires j < 16
    ensures r == Shift8(0x10 | (j as bv32))
  {
    match j
    case 0 => 0x1db71064 case 1 => 0x6ab020f2 case 2 => 0xf3b97148 case 3 => 0x84be41de
    case 4 => 0x1adad47d case 5 => 0x6ddde4eb case 6 => 0xf4d4b551 case 7 => 0x83d385c7
    case 8 => 0x136c9856 case 9 => 0x646ba8c0 case 10 => 0xfd62f97a case 11 => 0x8a65c9ec
    case 12 => 0x14015c4f case 13 => 0x63066cd9 case 14 => 0xfa0f3d63 case _ => 0x8d080df5
  }

  function Row2(j: bv8): (r: bv32)
    requires j < 16
    ensures r == Shift8(0x20 | (j as bv32))
  {
    match j
    case 0 => 0x3b6e20c8 case 1 => 0x4c69105e case 2 => 0xd56041e4 case 3 => 0xa2677172
    case 4 => 0x3c03e4d1 case 5 => 0x4b04d447 case 6 => 0xd20d85fd case 7 => 0xa50ab56b
    case 8 => 0x35b5a8fa case 9 => 0x42b2986c case 10 => 0xdbbbc9d6 case 11 => 0xacbcf940
    case 12 => 0x32d86ce3 case 13 => 0x45df5c75 case 14 => 0xdcd60dcf case _ => 0xabd13d59
  }

  function Row3(j: bv8): (r: bv32)
    requires j < 16
    ensures r == Shift8(0x30 | (j as bv32))
  {
    match j
    case 0 => 0x26d930ac case 1 => 0x51de003a case 2 => 0xc8d75180 case 3 => 0xbfd06116
    case 4 => 0x21b4f4b5 case 5 => 0x56b3c423 case 6 => 0xcfba9599 case 7 => 0xb8bda50f
    case 8 => 0x2802b89e case 9 => 0x5f058808 case 10 => 0xc60cd9b2 case 11 => 0xb10be924
    case 12 => 0x2f6f7c87 case 13 => 0x58684c11 case 14 => 0xc1611dab case _ => 0xb6662d3d
  }

  function Row4(j: bv8): (r: bv32)
    requires j < 16
    ensures r == Shift8(0x40 | (j as bv32))
  {
    match j
    case 0 => 0x76dc4190 case 1 => 0x01db7106 case 2 => 0x98d220bc case 3 => 0xefd5102a
    case 4 => 0x71b18589 case 5 => 0x06b6b51f case 6 => 0x9fbfe4a5 case 7 => 0xe8b8d433
    case 8 => 0x7807c9a2 case 9 => 0x0f00f934 case 10 => 0x9609a88e case 11 => 0xe10e9818
    case 12 => 0x7f6a0dbb case 13 => 0x086d3d2d case 14 => 0x91646c97 case _ => 0xe6635c01
  }

  function Row5(j: bv8): (r: bv32)
    requires j < 16
    ensures r == Shift8(0x50 | (j as bv32))
  {
    match j
    case 0 => 0x6b6b51f4 case 1 => 0x1c6c6162 case 2 => 0x856530d8 case 3 => 0xf262004e
    case 4 => 0x6c0695ed case 5 => 0x1b01a57b case 6 => 0x8208f4c1 case 7 => 0xf50fc457
    case 8 => 0x65b0d9c6 case 9 => 0x12b7e950 case 10 => 0x8bbeb8ea case 11 => 0xfcb9887c
    case 12 => 0x62dd1ddf case 13 => 0x15da2d49 case 14 => 0x8cd37cf3 case _ => 0xfbd44c65
  }

  function Row6(j: bv8): (r: bv32)
    requires j < 16
    ensures r == Shift8(0x60 | (j as bv32))
  {
    match j
    case 0 => 0x4db26158 case 1 => 0x3ab551ce case 2 => 0xa3bc0074 case 3 => 0xd4bb30e2
    case 4 => 0x4adfa541 case 5 => 0x3dd895d7 case 6 => 0xa4d1c46d case 7 => 0xd3d6f4fb
    case 8 => 0x4369e96a case 9 => 0x346ed9fc case 10 => 0xad678846 case 11 => 0xda60b8d0
    case 12 => 0x44042d73 case 13 => 0x33031de5 case 14 => 0xaa0a4c5f case _ => 0xdd0d7cc9
  }

  function Row7(j: bv8): (r: bv32)
    requires j < 16
    ensures r == Shift8(0x70 | (j as bv32))
  {
    match j
    case 0 => 0x5005713c case 1 => 0x270241aa case 2 => 0xbe0b1010 case 3 => 0xc90c2086
    case 4 => 0x5768b525 case 5 => 0x206f85b3 case 6 => 0xb966d409 case 7 => 0xce61e49f
    case 8 => 0x5edef90e case 9 => 0x29d9c998 case 10 => 0xb0d09822 case 11 => 0xc7d7a8b4
    case 12 => 0x59b33d17 case 13 => 0x2eb40d81 case 14 => 0xb7bd5c3b case _ => 0xc0ba6cad
  }

  function Row8(j: bv8): (r: bv32)
    requires j < 16
    ensures r == Shift8(0x80 | (j as bv32))
  {
    match j
    case 0 => 0xedb88320 case 1 => 0x9abfb3b6 case 2 => 0x03b6e20c case 3 => 0x74b1d29a
    case 4 => 0xead54739 case 5 => 0x9dd277af case 6 => 0x04db2615 case 7 => 0x73dc1683
    case 8 => 0xe3630b12 case 9 => 0x94643b84 case 10 => 0x0d6d6a3e case 11 => 0x7a6a5aa8
    case 12 => 0xe40ecf0b case 13 => 0x9309ff9d case 14 => 0x0a00ae27 case _ => 0x7d079eb1
  }

  function Row9(j: bv8): (r: bv32)
    requires j < 16
    ensures r == Shift8(0x90 | (j as bv32))
  {
    match j
    case 0 => 0xf00f9344 case 1 => 0x8708a3d2 case 2 => 0x1e01f268 case 3 => 0x6906c2fe
    case 4 => 0xf762575d case 5 => 0x806567cb case 6 => 0x196c3671 case 7 => 0x6e6b06e7
    case 8 => 0xfed41b76 case 9 => 0x89d32be0 case 10 => 0x10da7a5a case 11 => 0x67dd4acc
    case 12 => 0xf9b9df6f case 13 => 0x8ebeeff9 case 14 => 0x17b7be43 case _ => 0x60b08ed5
  }

  function RowA(j: bv8): (r: bv32)
    requires j < 16
    ensures r == Shift8(0xa0 | (j as bv32))
  {
    match j
    case 0 => 0xd6d6a3e8 case 1 => 0xa1d1937e case 2 => 0x38d8c2c4 case 3 => 0x4fdff252
    case 4 => 0xd1bb67f1 case 5 => 0xa6bc5767 case 6 => 0x3fb506dd case 7 => 0x48b2364b
    case 8 => 0xd80d2bda case 9 => 0xaf0a1b4c case 10 => 0x36034af6 case 11 => 0x41047a60
    case 12 => 0xdf60efc3 case 13 => 0xa867df55 case 14 => 0x316e8eef case _ => 0x4669be79
  }

  function RowB(j: bv8): (r: bv32)
    requires j < 16
    ensures r == Shift8(0xb0 | (j as bv32))
  {
    match j
    case 0 => 0xcb61b38c case 1 => 0xbc66831a case 2 => 0x256fd2a0 case 3 => 0x5268e236
    case 4 => 0xcc0c7795 case 5 => 0xbb0b4703 case 6 => 0x220216b9 case 7 => 0x5505262f
    case 8 => 0xc5ba3bbe case 9 => 0xb2bd0b28 case 10 => 0x2bb45a92 case 11 => 0x5cb36a04
    case 12 => 0xc2d7ffa7 case 13 => 0xb5d0cf31 case 14 => 0x2cd99e8b case _ => 0x5bdeae1d
  }

  function RowC(j: bv8): (r: bv32)
    requires j < 16
    ensures r == Shift8(0xc0 | (j as bv32))
  {
    match j
    case 0 => 0x9b64c2b0 case 1 => 0xec63f226 case 2 => 0x756aa39c case 3 => 0x026d930a
    case 4 => 0x9c0906a9 case 5 => 0xeb0e363f case 6 => 0x72076785 case 7 => 0x05005713
    case 8 => 0x95bf4a82 case 9 => 0xe2b87a14 case 10 => 0x7bb12bae case 11 => 0x0cb61b38
    case 12 => 0x92d28e9b case 13 => 0xe5d5be0d case 14 => 0x7cdcefb7 case _ => 0x0bdbdf21
  }

  function RowD(j: bv8): (r: bv32)
    requires j < 16
    ensures r == Shift8(0xd0 | (j as bv32))
  {
    match j
    case 0 => 0x86d3d2d4 case 1 => 0xf1d4e242 case 2 => 0x68ddb3f8 case 3 => 0x1fda836e
    case 4 => 0x81be16cd case 5 => 0xf6b9265b case 6 => 0x6fb077e1 case 7 => 0x18b74777
    case 8 => 0x88085ae6 case 9 => 0xff0f6a70 case 10 => 0x66063bca case 11 => 0x11010b5c
    case 12 => 0x8f659eff case 13 => 0xf862ae69 case 14 => 0x616bffd3 case _ => 0x166ccf45
  }

  function RowE(j: bv8): (r: bv32)
    requires j < 16
    ensures r == Shift8(0xe0 | (j as bv32))
  {
    match j
    case 0 => 0xa00ae278 case 1 => 0xd70dd2ee case 2 => 0x4e048354 case 3 => 0x3903b3c2
    case 4 => 0xa7672661 case 5 => 0xd06016f7 case 6 => 0x4969474d case 7 => 0x3e6e77db
    case 8 => 0xaed16a4a case 9 => 0xd9d65adc case 10 => 0x40df0b66 case 11 => 0x37d83bf0
    case 12 => 0xa9bcae53 case 13 => 0xdebb9ec5 case 14 => 0x47b2cf7f case _ => 0x30b5ffe9
  }

  function RowF(j: bv8): (r: bv32)
    requires j < 16
    ensures r == Shift8(0xf0 | (j as bv32))
  {
    match j
    case 0 => 0xbdbdf21c case 1 => 0xcabac28a case 2 => 0x53b39330 case 3 => 0x24b4a3a6
    case 4 => 0xbad03605 case 5 => 0xcdd70693 case 6 => 0x54de5729 case 7 => 0x23d967bf
    case 8 => 0xb3667a2e case 9 => 0xc4614ab8 case 10 => 0x5d681b02 case 11 => 0x2a6f2b94
    case 12 => 0xb40bbe37 case 13 => 0xc30c8ea1 case 14 => 0x5a05df1b case _ => 0x2d02ef8d
  }

  /** Every entry of crc32tab is what eight shifts make of its index. */
  function Crc32Tab(i: byte): (r: bv32)
    ensures r == Shift8(Wide(i))
  {
    var j := i & 0x0f;
    match i >> 4
    case 0 => Row0(j) case 1 => Row1(j) case 2 => Row2(j) case 3 => Row3(j)
    case 4 => Row4(j) case 5 => Row5(j) case 6 => Row6(j) case 7 => Row7(j)
    case 8 => Row8(j) case 9 => Row9(j) case 10 => RowA(j) case 11 => RowB(j)
    case 12 => RowC(j) case 13 => RowD(j) case 14 => RowE(j) case _ => RowF(j)
  }

  // ---- the register is linear ----

  lemma Assoc(x: bv32, y: bv32, z: bv32)
    ensures Xor(Xor(x, y), z) == Xor(x, Xor(y, z))
  {
  }

  lemma Commute(x: bv32, y: bv32)
    ensures Xor(x, y) == Xor(y, x)
  {
  }

  lemma Interchange(a: bv32, b: bv32, m: bv32, n: bv32)
    ensures Xor(Xor(a, b), Xor(m, n)) == Xor(Xor(a, m), Xor(b, n))
  {
    Assoc(a, b, Xor(m, n));
    Assoc(b, m, n);
    Commute(b, m);
    Assoc(m, b, n);
    Assoc(a, m, Xor(b, n));
  }

  lemma Halves(x: bv32, y: bv32)
    ensures Half(Xor(x, y)) == Xor(Half(x), Half(y))
  {
  }

  lemma Parity(x: bv32, y: bv32)
    ensures Odd(x ^ y) <==> Odd(x) != Odd(y)
  {
    assert (x ^ y) & 1 == (x & 1) ^ (y & 1);
    assert x & 1 == 0 || x & 1 == 1;
    assert y & 1 == 0 || y & 1 == 1;
  }

  lemma Masks(x: bv32, y: bv32)
    ensures Mask(Xor(x, y)) == Xor(Mask(x), Mask(y))
  {
    Parity(x, y);
  }

  lemma ShiftXor(x: bv32, y: bv32)
    ensures Shift(Xor(x, y)) == Xor(Shift(x), Shift(y))
  {
    Halves(x, y);
    Masks(x, y);
    Interchange(Half(x), Half(y), Mask(x), Mask(y));
  }

  lemma ZeroRight(x: bv32)
    ensures Xor(x, 0) == x
  {
  }

  /** What is left of a word without its lowest bit. */
  function Rest(x: bv32): (r: bv32) { x & 0xfffffffe }

  lemma RestIsEven(x: bv32)
    ensures !Odd(Rest(x)) && Half(Rest(x)) == Half(x)
  {
  }

  lemma RestAndBit(x: bv32)
    ensures x == Xor(Bit(Odd(x)), Rest(x))
  {
    assert x == (x & 1) ^ (x & 0xfffffffe);
    assert x & 1 == 0 || x & 1 == 1;
  }

  lemma RestShifts(x: bv32)
    ensures Shift(Rest(x)) == Half(x)
  {
    RestIsEven(x);
    ZeroRight(Half(x));
  }

  /** Feeding one bit of `w` and keeping the others back is the same as feeding none. */
  lemma FeedOne(c: bv32, w: bv32)
    ensures Shift(Xor(c, w)) == Xor(Shift(Xor(c, Bit(Odd(w)))), Half(w))
  {
    RestAndBit(w);
    RestShifts(w);
    var u := Xor(c, Bit(Odd(w)));
    Assoc(c, Bit(Odd(w)), Rest(w));
    ShiftXor(u, Rest(w));
  }

  function Shifts(x: bv32, n: nat): (r: bv32)
    decreases n
  {
    if n == 0 then x else Shifts(Shift(x), n - 1)
  }

  function Halved(x: bv32, n: nat): (r: bv32)
    decreases n
  {
    if n == 0 then x else Halved(Half(x), n - 1)
  }

  lemma {:induction false} FeedMany(c: bv32, w: bv32, n: nat)
    ensures Shifts(Xor(c, w), n) == Xor(FeedBits(c, BitsOf(w, n)), Halved(w, n))
    decreases n
  {
    if n > 0 {
      FeedOne(c, w);
      var d := Shift(Xor(c, Bit(Odd(w))));
      FeedMany(d, Half(w), n - 1);
      assert BitsOf(w, n)[1..] == BitsOf(Half(w), n - 1);
    }
  }

  lemma ShiftsTwo(x: bv32, n: nat)
    ensures Shifts(x, n + 2) == Shifts(Shift(Shift(x)), n)
  {
  }

  lemma EightShifts(x: bv32)
    ensures Shifts(x, 8) == Shift8(x)
  {
    ShiftsTwo(x, 6);
    ShiftsTwo(Shift(Shift(x)), 4);
    ShiftsTwo(Shift(Shift(Shift(Shift(x)))), 2);
    ShiftsTwo(Shift(Shift(Shift(Shift(Shift(Shift(x)))))), 0);
  }

  function Quarter(x: bv32): (r: bv32) { x >> 2 }

  lemma TwoHalves(x: bv32)
    ensures Half(Half(x)) == Quarter(x)
  {
  }

  lemma FourQuarters(x: bv32)
    ensures Quarter(Quarter(Quarter(Quarter(x)))) == High(x)
  {
  }

  lemma HalvedTwo(x: bv32, n: nat)
    ensures Halved(x, n + 2) == Halved(Quarter(x), n)
  {
    TwoHalves(x);
    assert Halved(x, n + 2) == Halved(Half(x), n + 1) == Halved(Half(Half(x)), n);
  }

  lemma EightHalves(x: bv32)
    ensures Halved(x, 8) == High(x)
  {
    var a := Quarter(x);
    var b := Quarter(a);
    var c := Quarter(b);
    HalvedTwo(x, 6);
    HalvedTwo(a, 4);
    HalvedTwo(b, 2);
    HalvedTwo(c, 0);
    FourQuarters(x);
  }

  /** The lowest eight bits are all that eight bits of a word depend on. */
  lemma LowBits(w: bv32)
    ensures BitsOf(w, 8) == BitsOf(Wide(Low(w)), 8)
  {
    LowSame(w);
    SameBits(w, Wide(Low(w)), 8);
  }

  predicate Same(w: bv32, v: bv32, m: bv32) { w & m == v & m }

  /** The mask of the lowest n bits, up to eight. */
  function Ones(n: nat): (r: bv32)
    requires n <= 8
  {
    if n == 0 then 0 else if n == 1 then 1 else if n == 2 then 3 else if n == 3 then 7 else if n == 4 then 15
    else if n == 5 then 31 else if n == 6 then 63 else if n == 7 then 127 else 255
  }

  lemma SameHalves(w: bv32, v: bv32, m: bv32)
    requires Same(w, v, (m << 1) | 1) && m <= 127
    ensures Odd(w) == Odd(v) && Same(Half(w), Half(v), m)
  {
  }

  lemma OnesStep(n: nat)
    requires 0 < n <= 8
    ensures Ones(n) == (Ones(n - 1) << 1) | 1 && Ones(n - 1) <= 127
  {
  }

  lemma {:induction false} SameBits(w: bv32, v: bv32, n: nat)
    requires n <= 8 && Same(w, v, Ones(n))
    ensures BitsOf(w, n) == BitsOf(v, n)
    decreases n
  {
    if n > 0 {
      OnesStep(n);
      SameHalves(w, v, Ones(n - 1));
      SameBits(Half(w), Half(v), n - 1);
    }
  }

  lemma LowSame(w: bv32)
    ensures Same(w, Wide(Low(w)), 255)
  {
  }

  lemma ByteFeeds(c: bv32, w: bv32)
    ensures Shift8(Xor(c, w)) == Xor(FeedBits(c, BitsOf(w, 8)), High(w))
  {
    FeedMany(c, w, 8);
    EightShifts(Xor(c, w));
    EightHalves(w);
  }

  lemma HighOfByte(b: byte)
    ensures High(Wide(b)) == 0
  {
  }

  /** Eight shifts of a word: the low octet goes through the register, the rest moves down. */
  lemma WordStep(c: bv32, w: bv32)
    ensures Shift8(Xor(c, w)) == Xor(FeedBits(c, BitsOf(Wide(Low(w)), 8)), High(w))
    ensures FeedBits(c, BitsOf(Wide(Low(w)), 8)) == Shift8(Xor(c, Wide(Low(w))))
  {
    ByteFeeds(c, w);
    LowBits(w);
    ByteFeeds(c, Wide(Low(w)));
    HighOfByte(Low(w));
    ZeroRight(FeedBits(c, BitsOf(Wide(Low(w)), 8)));
  }

  lemma LowOfByte(b: byte)
    ensures Low(Wide(b)) == b
  {
  }

  lemma HighIgnoresByte(c: bv32, b: byte)
    ensures High(Xor(c, Wide(b))) == High(c)
  {
  }

  lemma ZeroLeft(x: bv32)
    ensures Xor(0, x) == x
  {
  }

  /** One turn of the loop of ssh_crc32. */
  function TableStep(crc: bv32, b: byte): (r: bv32) {
    Xor(Crc32Tab(Low(Xor(crc, Wide(b)))), High(crc))
  }

  lemma TableStepFeeds(crc: bv32, b: byte)
    ensures TableStep(crc, b) == FeedBits(crc, BitsOf(Wide(b), 8))
  {
    var x := Xor(crc, Wide(b));
    WordStep(crc, Wide(b));
    LowOfByte(b);
    WordStep(0, x);
    ZeroLeft(x);
    ZeroLeft(Wide(Low(x)));
    HighIgnoresByte(crc, b);
  }

  /** ssh_crc32 is bit-serial division, for every input. */
  method SshCrc32(buf: seq<byte>) returns (crc: bv32)
    ensures crc == Divide(0, buf)
  {
    crc := 0;
    var i := 0;
    while i < |buf|
      invariant 0 <= i <= |buf|
      invariant Divide(crc, buf[i..]) == Divide(0, buf)
    {
      TableStepFeeds(crc, buf[i]);
      crc := Crc32Tab(Low(Xor(crc, Wide(buf[i])))) ^ (crc >> 8);
      assert buf[i..][1..] == buf[i + 1..];
      i := i + 1;
    }
  }

  // ---- whole words, as the little-endian host stores them ----

  function OctetsOf(w: bv32, n: nat): (r: seq<byte>)
    decreases n
  {
    if n == 0 then [] else [Low(w)] + OctetsOf(High(w), n - 1)
  }

  /** The four octets of a word, in the order the host stores them. */
  function Octets(w: bv32): (r: seq<byte>) { OctetsOf(w, 4) }

  function ShiftOctets(x: bv32, n: nat): (r: bv32)
    decreases n
  {
    if n == 0 then x else ShiftOctets(Shift8(x), n - 1)
  }

  function Highs(w: bv32, n: nat): (r: bv32)
    decreases n
  {
    if n == 0 then w else Highs(High(w), n - 1)
  }

  lemma {:induction false} DivideOctets(c: bv32, w: bv32, n: nat)
    ensures ShiftOctets(Xor(c, w), n) == Xor(Divide(c, OctetsOf(w, n)), Highs(w, n))
    decreases n
  {
    if n > 0 {
      WordStep(c, w);
      DivideOctets(FeedBits(c, BitsOf(Wide(Low(w)), 8)), High(w), n - 1);
      assert OctetsOf(w, n)[1..] == OctetsOf(High(w), n - 1);
    }
  }

  lemma FourHighs(w: bv32)
    ensures Highs(w, 4) == 0
  {
    assert Highs(w, 4) == Highs(High(High(w)), 2);
    assert High(High(High(High(w)))) == 0;
  }

  /** A word can be added to the register first and divided afterwards. */
  lemma {:induction false} DivideWord(c: bv32, w: bv32)
    ensures Divide(c, Octets(w)) == ShiftOctets(Xor(c, w), 4)
  {
    DivideOctets(c, w, 4);
    FourHighs(w);
    ZeroRight(Divide(c, Octets(w)));
  }

  lemma {:induction false} DivideAppend(c: bv32, s: seq<byte>, t: seq<byte>)
    ensures Divide(c, s + t) == Divide(Divide(c, s), t)
    decreases |s|
  {
    if s == [] {
      assert s + t == t;
    } else {
      assert (s + t)[1..] == s[1..] + t;
      DivideAppend(FeedBits(c, BitsOf(Wide(s[0]), 8)), s[1..], t);
    }
  }
}
