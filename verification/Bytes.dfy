/**
 Octets and 32-bit unsigned arithmetic shared by the other modules.  An octet is a `byte`
 where the code works on its bits and a `u8` where it works on its value.
 */
module Bytes {

  type byte = bv8

  newtype u8 = x: int | 0 <= x < 256

  const U32: nat := 0x1_0000_0000

  /** The value a C `u_int` holds after an operation whose exact result is `x`: x modulo 2^32. */
  function Wrap(x: int): (r: nat)
    ensures r < U32
    ensures 0 <= x < U32 ==> r == x
    decreases if x < 0 then U32 - x else x
  {
    if x < 0 then Wrap(x + U32) else if x >= U32 then Wrap(x - U32) else x
  }

  lemma {:induction false} WrapIsModulo(x: int)
    ensures Wrap(x) == x % U32
    decreases if x < 0 then U32 - x else x
  {
    if x < 0 {
      WrapIsModulo(x + U32);
    } else if x >= U32 {
      WrapIsModulo(x - U32);
    }
  }

  function Min(a: nat, b: nat): (r: nat)
    ensures r == a || r == b
    ensures r <= a && r <= b
  {
    if a < b then a else b
  }

  /** Exclusive or of two octets; a second time it takes itself back. */
  function Mix(a: byte, b: byte): (r: byte)
    ensures r ^ b == a
  {
    a ^ b
  }
}
