/** How teamCache takes an address apart and puts a victim's address together again
    (teamCache/lookup.c, teamCache/eviction.c, teamCache/lifecycle.c). */
module Geometry {
  import opened Bits

  datatype Policy = Lru | Rrip

  /** The options of the cache; S == 2^s sets of E lines, blocks of B == 2^b bytes. */
  datatype Params = Params(s: nat, E: nat, b: nat, policy: Policy, rripBits: nat, mode: nat) {
    function S(): nat { Pow2(s) }
    function B(): nat { Pow2(b) }

    /** The ranges the option parser accepts. */
    ghost predicate Valid() {
      4 <= b <= 10 && s < 64 && s + b <= 64 && E >= 1 && 1 <= rripBits <= 64 && mode <= 1
    }

    function BlockNumber(a: nat): nat { Quotient(a, B()) }
    function SetIndex(a: nat): nat { Remainder(BlockNumber(a), S()) }
    function TagOf(a: nat): nat { Quotient(BlockNumber(a), S()) }
    function BlockAddress(a: nat): nat { a - Remainder(a, B()) }

    /** ((tag << s) | set) << b in 64 bits. */
    function VictimAddress(tag: nat, set_: nat): nat {
      ShiftLeft(Or(ShiftLeft(tag, s), set_), b)
    }

    /** rrip_max */
    function RripMax(): nat { Pow2(rripBits) - 1 }
  }

  /** RRIP's values fit into a 64-bit word, even with 64 prediction bits. */
  lemma {:induction false} RripMaxFits(p: Params)
    requires p.Valid()
    ensures p.RripMax() < WORD
  {
    Pow2Monotone(p.rripBits, 64);
    Pow2Word();
  }

  /** RRIP's maximum is the largest value of rripBits bits: 1 for one bit, and one more one-bit in front
      for every further bit. */
  lemma {:induction false} RripMaxIs(p: Params)
    ensures p.rripBits == 1 ==> p.RripMax() == 1
    ensures p.(rripBits := p.rripBits + 1).RripMax() == 2 * p.RripMax() + 1
    ensures p.rripBits == 64 ==> p.RripMax() == WORD - 1
  {
    if p.rripBits == 64 { Pow2Word(); }
  }

  /** A block address is the multiple of B below its addresses: same block number, offset 0. */
  lemma {:induction false} BlockAddressIs(p: Params, a: nat)
    ensures p.BlockAddress(a) == p.BlockNumber(a) * p.B() && p.BlockAddress(a) <= a
    ensures p.BlockNumber(p.BlockAddress(a)) == p.BlockNumber(a)
    ensures p.BlockAddress(p.BlockAddress(a)) == p.BlockAddress(a)
  {
    DivMod(a, p.B());
    DivUnique(p.BlockAddress(a), p.B(), p.BlockNumber(a), 0);
  }

  /** Taking a 64-bit address apart and putting tag and set together again gives the block address,
      without wrapping; and only addresses of one block share tag and set. */
  lemma {:induction false} AddressRoundTrip(p: Params, a: nat)
    requires a < WORD
    ensures p.VictimAddress(p.TagOf(a), p.SetIndex(a)) == p.BlockAddress(a)
  {
    hide ShiftLeft, Or;
    var n := p.BlockNumber(a);
    DivMod(n, p.S());
    BlockAddressIs(p, a);
    BelowWord(n, p.B(), a);
    OrFillsIn(p.s, p.TagOf(a), p.SetIndex(a));
    Shifted(n, p.b);
  }

  /** A shift that loses no bit is a product. */
  lemma {:induction false} Shifted(x: nat, k: nat)
    requires x * Pow2(k) < WORD
    ensures ShiftLeft(x, k) == x * Pow2(k)
  {}

  /** The set index fills exactly the bits that the shift has cleared. */
  lemma {:induction false} OrFillsIn(s: nat, tag: nat, set_: nat)
    requires set_ < Pow2(s) && tag * Pow2(s) < WORD
    ensures Or(ShiftLeft(tag, s), set_) == tag * Pow2(s) + set_
  {
    var high := tag * Pow2(s);
    Shifted(tag, s);
    OrCommutes(high, set_);
    OrAboveIsSum(s, set_, tag, high);
  }

  lemma {:induction false} OrAboveIsSum(s: nat, low: nat, tag: nat, high: nat)
    requires low < Pow2(s) && high == tag * Pow2(s)
    ensures Or(low, high) == low + high
  {
    OrIsSum(s, low, tag);
    assert Pow2(s) * tag == high;
  }

  lemma {:induction false} BelowWord(n: nat, d: nat, a: nat)
    requires d >= 1 && n * d <= a < WORD
    ensures n < WORD
  {}
}
