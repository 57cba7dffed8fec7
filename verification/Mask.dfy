/** Bitwise and on numbers, as detect_attack masks its slot numbers. */
module Mask {

  function And(a: nat, b: nat): (r: nat)
    ensures r <= b
    decreases a
  {
    if a == 0 then 0 else 2 * And(a / 2, b / 2) + if a % 2 == 1 && b % 2 == 1 then 1 else 0
  }

  predicate PowerOfTwo(n: nat) { n == 1 || (n > 1 && n % 2 == 0 && PowerOfTwo(n / 2)) }

  /** A number below n is its own mask. */
  lemma {:induction false} MaskKeeps(x: nat, n: nat)
    requires PowerOfTwo(n) && x < n
    ensures And(x, n - 1) == x
    decreases n
  {
    if n > 1 && x > 0 {
      MaskKeeps(x / 2, n / 2);
      assert (n - 1) / 2 == n / 2 - 1 && (n - 1) % 2 == 1;
    }
  }

  /** n itself is masked to zero. */
  lemma {:induction false} MaskWraps(n: nat)
    requires PowerOfTwo(n)
    ensures And(n, n - 1) == 0
    decreases n
  {
    if n > 1 {
      MaskWraps(n / 2);
      assert (n - 1) / 2 == n / 2 - 1;
    }
  }

  /** The table sizes of the detector: four times as large each time. */
  predicate IsSize(n: nat) { n == 4096 || (n > 4096 && n % 4 == 0 && IsSize(n / 4)) }

  lemma {:induction false} SizeIsPower(n: nat)
    requires IsSize(n)
    ensures PowerOfTwo(n)
  {
    if n == 4096 {
      assert PowerOfTwo(16);
      assert PowerOfTwo(256);
    } else {
      SizeIsPower(n / 4);
      assert n / 2 / 2 == n / 4;
    }
  }

  /** The next slot is one further, or the first one behind the last. */
  lemma {:induction false} NextMasked(i: nat, n: nat)
    requires IsSize(n) && i < n
    ensures And(i + 1, n - 1) == if i + 1 == n then 0 else i + 1
  {
    SizeIsPower(n);
    if i + 1 == n {
      MaskWraps(n);
    } else {
      MaskKeeps(i + 1, n);
    }
  }
}
