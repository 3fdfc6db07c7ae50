/** How structmap_amt cuts a key into the slots of successive levels: the low
  * `first` bits choose a slot of the first level, every following group of
  * `level` bits chooses a slot of the next nested node.
  */
module Routes {

  /** The two template parameters of structmap_amt. */
  datatype Bits = Bits(first: nat, level: nat)

  type Geometry = g: Bits | g.level >= 1 witness Bits(0, 5)

  // Keys are stored shifted left by two to make room for the entry's type tag.
  const KEY_LIMIT: nat := 0x4000_0000_0000_0000
  const KEY_BITS: nat := 62

  type Key = k: nat | k < KEY_LIMIT

  // No two distinct keys agree on this many slots, whatever the geometry.
  const MAX_DEPTH: nat := 63

  function Pow2(n: nat): (p: nat)
    ensures p >= 1
  {
    if n == 0 then 1 else 2 * Pow2(n - 1)
  }

  /** k >> n */
  function ShiftRight(k: nat, n: nat): nat
  {
    if n == 0 then k else ShiftRight(k / 2, n - 1)
  }

  /** k & ((1 << n) - 1) */
  function LowBits(k: nat, n: nat): (r: nat)
    ensures r < Pow2(n)
  {
    if n == 0 then 0 else k % 2 + 2 * LowBits(k / 2, n - 1)
  }

  /** Bits of the key used up by a path of `n` slots: the source's key_route_base. */
  function Base(g: Geometry, n: nat): nat
  {
    if n == 0 then 0 else if n == 1 then g.first else Base(g, n - 1) + g.level
  }

  /** The width in bits of the slot index at depth `i`. */
  function Width(g: Geometry, i: nat): nat
  {
    if i == 0 then g.first else g.level
  }

  /** The slot the key takes at depth `i`. */
  function Slot(g: Geometry, k: nat, i: nat): (s: nat)
    ensures s < Pow2(Width(g, i))
  {
    LowBits(ShiftRight(k, Base(g, i)), Width(g, i))
  }

  /** The first `n` slots of the key, outermost first. */
  function Route(g: Geometry, k: nat, n: nat): (p: seq<nat>)
    ensures |p| == n
    ensures forall i :: 0 <= i < n ==> p[i] == Slot(g, k, i)
  {
    seq(n, i requires 0 <= i < n => Slot(g, k, i))
  }

  ghost predicate Agree(g: Geometry, k: nat, l: nat, n: nat)
  {
    forall i :: 0 <= i < n ==> Slot(g, k, i) == Slot(g, l, i)
  }

  lemma RouteAgree(g: Geometry, k: nat, l: nat, n: nat)
    ensures Route(g, k, n) == Route(g, l, n) <==> Agree(g, k, l, n)
  {
    if Route(g, k, n) == Route(g, l, n) {
      forall i | 0 <= i < n ensures Slot(g, k, i) == Slot(g, l, i) {
        assert Route(g, k, n)[i] == Route(g, l, n)[i];
      }
    }
  }

  lemma RoutePrefix(g: Geometry, k: nat, m: nat, n: nat)
    requires m <= n
    ensures Route(g, k, n)[..m] == Route(g, k, m)
  {
  }

  lemma RouteSnoc(g: Geometry, k: nat, n: nat)
    ensures Route(g, k, n + 1) == Route(g, k, n) + [Slot(g, k, n)]
  {
  }

  lemma {:induction false} Pow2Add(m: nat, n: nat)
    ensures Pow2(m + n) == Pow2(m) * Pow2(n)
  {
    if m > 0 {
      Pow2Add(m - 1, n);
    }
  }

  lemma Pow2Of31()
    ensures Pow2(31) == 0x8000_0000
  {
    assert Pow2(8) == 256;
    Pow2Add(8, 8);
    Pow2Add(16, 8);
    assert Pow2(7) == 128;
    Pow2Add(24, 7);
  }

  lemma KeyLimitIsPow2()
    ensures KEY_LIMIT == Pow2(KEY_BITS)
  {
    Pow2Add(31, 31);
    Pow2Of31();
  }

  lemma BaseStep(g: Geometry, n: nat)
    ensures Base(g, n + 1) == Base(g, n) + Width(g, n)
  {
  }

  lemma {:induction false} BaseGrows(g: Geometry, n: nat)
    requires n >= 1
    ensures Base(g, n) >= g.first + n - 1
  {
    if n > 1 {
      BaseGrows(g, n - 1);
    }
  }

  /** The low a+b bits are the low a bits and the next b bits. */
  lemma {:induction false} LowBitsSplit(k: nat, l: nat, a: nat, b: nat)
    requires LowBits(k, a) == LowBits(l, a)
    requires LowBits(ShiftRight(k, a), b) == LowBits(ShiftRight(l, a), b)
    ensures LowBits(k, a + b) == LowBits(l, a + b)
  {
    if a > 0 {
      LowBitsSplit(k / 2, l / 2, a - 1, b);
    }
  }

  lemma {:induction false} LowBitsOfSmall(k: nat, n: nat)
    requires k < Pow2(n)
    ensures LowBits(k, n) == k
  {
    if n > 0 {
      LowBitsOfSmall(k / 2, n - 1);
    }
  }

  lemma {:induction false} Pow2Monotone(m: nat, n: nat)
    requires m <= n
    ensures Pow2(m) <= Pow2(n)
  {
    if m < n {
      Pow2Monotone(m, n - 1);
    }
  }

  /** Agreeing on n slots is agreeing on the low Base(n) bits. */
  lemma {:induction false} AgreeOnLowBits(g: Geometry, k: nat, l: nat, n: nat)
    requires Agree(g, k, l, n)
    ensures LowBits(k, Base(g, n)) == LowBits(l, Base(g, n))
  {
    if n > 0 {
      AgreeOnLowBits(g, k, l, n - 1);
      assert Slot(g, k, n - 1) == Slot(g, l, n - 1);
      LowBitsSplit(k, l, Base(g, n - 1), Width(g, n - 1));
      BaseStep(g, n - 1);
    }
  }

  /** Distinct keys part before their routes have used up the bits of a key, so
    * no shift by key_route_base reaches the width of the machine word. */
  lemma Separation(g: Geometry, k: Key, l: Key, n: nat)
    requires k != l
    requires Agree(g, k, l, n)
    ensures Base(g, n) < KEY_BITS
    ensures n < MAX_DEPTH
  {
    AgreeOnLowBits(g, k, l, n);
    if Base(g, n) >= KEY_BITS {
      KeyLimitIsPow2();
      Pow2Monotone(KEY_BITS, Base(g, n));
      LowBitsOfSmall(k, Base(g, n));
      LowBitsOfSmall(l, Base(g, n));
      assert false;
    }
    if n >= 1 {
      BaseGrows(g, n);
    }
  }
}
