/** Powers of two. Masks and shifts of unsigned words are written as arithmetic modulo them. */
module Bits {

  function Pow2(k: nat): (r: nat)
    ensures r >= 1
  {
    if k == 0 then 1 else 2 * Pow2(k - 1)
  }

  /** One past the largest 64-bit word. */
  const WORD: nat := 0x1_0000_0000_0000_0000

  lemma {:induction false} Pow2Monotone(j: nat, k: nat)
    requires j <= k
    ensures Pow2(j) <= Pow2(k)
  {
    if j < k { Pow2Monotone(j, k - 1); }
  }

  lemma {:induction false} Pow2Adds(j: nat, k: nat)
    ensures Pow2(j + k) == Pow2(j) * Pow2(k)
  {
    if j > 0 {
      Pow2Adds(j - 1, k);
      Twice(Pow2(j - 1), Pow2(k));
    }
  }

  lemma {:induction false} Twice(a: nat, b: nat)
    ensures 2 * (a * b) == 2 * a * b
  {}

  lemma {:induction false} Pow2Square(k: nat, v: nat)
    requires Pow2(k) == v
    ensures Pow2(2 * k) == v * v
  {
    hide Pow2;
    Pow2Adds(k, k);
  }

  lemma {:induction false} Pow2Word()
    ensures Pow2(64) == WORD
  {
    assert Pow2(1) == 2;
    hide Pow2;
    Pow2Square(1, 2);
    Pow2Square(2, 4);
    Pow2Square(4, 16);
    Pow2Square(8, 256);
    Pow2Square(16, 65536);
    Pow2Square(32, 4294967296);
  }

  /** Left shift of a 64-bit word. */
  function ShiftLeft(x: nat, k: nat): nat { (x * Pow2(k)) % WORD }

  /** Bitwise or. */
  function Or(x: nat, y: nat): (r: nat)
    ensures y == 0 ==> r == x
    ensures x == 0 ==> r == y
    decreases x + y
  {
    if x == 0 then y else if y == 0 then x
    else 2 * Or(x / 2, y / 2) + if x % 2 == 1 || y % 2 == 1 then 1 else 0
  }

  lemma {:induction false} OrCommutes(x: nat, y: nat)
    ensures Or(x, y) == Or(y, x)
    decreases x + y
  {
    if x > 0 && y > 0 { OrCommutes(x / 2, y / 2); }
  }

  /** Or of a value of k bits and a multiple of 2^k is their sum. */
  lemma {:induction false} OrIsSum(k: nat, x: nat, y: nat)
    requires x < Pow2(k)
    ensures Or(x, Pow2(k) * y) == x + Pow2(k) * y
  {
    if k > 0 && x > 0 && y > 0 {
      Half(Pow2(k - 1), y);
      OrIsSum(k - 1, x / 2, y);
    }
  }

  lemma {:induction false} Half(d: nat, y: nat)
    ensures 2 * d * y == 2 * (d * y) && (2 * d * y) / 2 == d * y && (2 * d * y) % 2 == 0
  {}

  /* Division of words by a power of two (a right shift) and the remainder (a mask). */

  lemma {:induction false} DivMod(a: nat, d: nat)
    requires d >= 1
    ensures 0 <= a / d && 0 <= a % d < d && a % d <= a
    ensures a == (a / d) * d + a % d
  {}

  lemma {:induction false} MulAtLeast(k: int, d: nat)
    requires k >= 1
    ensures k * d >= d && d * k >= d
  {}

  function Quotient(a: nat, d: nat): (q: nat)
    requires d >= 1
  {
    DivMod(a, d); a / d
  }

  function Remainder(a: nat, d: nat): (r: nat)
    requires d >= 1
    ensures r < d && r <= a
  {
    DivMod(a, d); a % d
  }

  /** Quotient and remainder are the only ones. */
  lemma {:induction false} DivUnique(a: nat, d: nat, q: nat, r: nat)
    requires a == q * d + r && r < d
    ensures Quotient(a, d) == q && Remainder(a, d) == r
  {
    DivMod(a, d);
    var k := a / d;
    assert (k - q) * d == r - a % d;
    assert (q - k) * d == a % d - r;
    if k > q { MulAtLeast(k - q, d); }
    if k < q { MulAtLeast(q - k, d); }
  }
}
