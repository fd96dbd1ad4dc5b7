/**
 64-bit masks, as the timing wheel uses them. A mask is the set of the numbers of its one-bits, so
 that bit `i` of `pending[w]` being set is `i in pending[w]`: `&` is intersection, `|` is union,
 `& ~(1 << i)` removes `i`, and a mask is zero when it is empty. Shifts drop the bits that leave the word.
*/
module Bits {

  const WORD := 64

  type Mask = m: set<nat> | forall i :: i in m ==> i < WORD

  /** `(1 << k) - 1`: the `k` lowest bits */
  function LowMask(k: nat): (r: Mask)
    requires k <= WORD
    ensures forall i: nat :: i in r <==> i < k
  {
    if k == 0 then {} else LowMask(k - 1) + {k - 1}
  }

  /** `~0` */
  function AllOnes(): Mask
  {
    LowMask(WORD)
  }

  /** `v << c` in 64 bits */
  function Shl(v: Mask, c: nat): Mask
  {
    set i | i in AllOnes() && i >= c && i - c in v
  }

  /** `v >> c` in 64 bits */
  function Shr(v: Mask, c: nat): Mask
  {
    set i | i in AllOnes() && i + c in v
  }

  /** `1 << i` */
  function One(i: nat): Mask
    requires i < WORD
  {
    {i}
  }

  /** `rotl`: two shifts, with a zero count handled apart. */
  function Rotl(v: Mask, c: nat): Mask
    requires c < WORD
  {
    if c == 0 then v else Shl(v, c) + Shr(v, WORD - c)
  }

  /** `rotr`: two shifts, with a zero count handled apart. */
  function Rotr(v: Mask, c: nat): Mask
    requires c < WORD
  {
    if c == 0 then v else Shr(v, c) + Shl(v, WORD - c)
  }

  /** A left rotation by `c` moves bit `i - c` (modulo 64) to bit `i`. */
  lemma RotlBit(v: Mask, c: nat, i: nat)
    requires c < WORD && i < WORD
    ensures i in Rotl(v, c) <==> (i + WORD - c) % WORD in v
  {
    assert (i + WORD - c) % WORD == if i < c then i + (WORD - c) else i - c;
  }

  /** A right rotation by `c` moves bit `i + c` (modulo 64) to bit `i`. */
  lemma RotrBit(v: Mask, c: nat, i: nat)
    requires c < WORD && i < WORD
    ensures i in Rotr(v, c) <==> (i + c) % WORD in v
  {
    assert (i + c) % WORD == if i + c < WORD then i + c else i - (WORD - c);
  }

  /** The least member of `m` that is at least `i`. */
  function LeastFrom(m: Mask, i: nat): (r: nat)
    requires exists j :: j in m && i <= j
    ensures r in m && i <= r
    ensures forall j :: j in m && i <= j ==> r <= j
    decreases WORD - i
  {
    if i in m then i else LeastFrom(m, i + 1)
  }

  /** `ctz`: the number of the lowest one-bit; the source never asks it of zero. */
  function Ctz(m: Mask): (r: nat)
    requires m != {}
    ensures r in m
    ensures forall j :: j in m ==> r <= j
  {
    var j :| j in m;
    LeastFrom(m, 0)
  }
}
