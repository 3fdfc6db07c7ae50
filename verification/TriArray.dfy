/** The layering shared by TriStack and TriFrames: one logical sequence kept in three
  * arrays. Indices from abi on live in the mutable array A, those from bbi on in B,
  * the rest in C; only A is ever written.
  */
module TriArray {
  import opened LayeredSeq

  /** The part of a collection request that describes one layered sequence. */
  datatype Frozen<!T> = Frozen(abi: nat, b: array?<T>, bbi: nat, c: array?<T>, depth: nat)

  class Tri<T(0)> {
    const capacity: nat
    var a: array<T>
    var b: array?<T>
    var c: array?<T>
    var abi: nat
    var bbi: nat
    var depth: nat
    ghost var under: seq<T>  // what B and C hold together, from index 0 on

    /** Below A, index i is stored in B or C and holds v. */
    static ghost predicate Slot(b: array?<T>, bbi: nat, c: array?<T>, i: nat, v: T)
      reads b, c
    {
      if i >= bbi then b != null && i - bbi < b.Length && b[i - bbi] == v
      else c != null && i < c.Length && c[i] == v
    }

    /** B and C hold the sequence s. */
    static ghost predicate Layers(b: array?<T>, bbi: nat, c: array?<T>, s: seq<T>)
      reads b, c
    {
      forall i :: 0 <= i < |s| ==> Slot(b, bbi, c, i, s[i])
    }

    static lemma LayerAt(b: array?<T>, bbi: nat, c: array?<T>, s: seq<T>, i: nat)
      requires Layers(b, bbi, c, s) && i < |s|
      ensures Slot(b, bbi, c, i, s[i])
    {
      var v := s[i];
    }

    ghost predicate Valid()
      reads this, a, b, c
      ensures Valid() ==> abi <= depth <= capacity && a.Length == capacity && a != b && a != c
    {
      && a.Length == capacity && a != b && a != c
      && abi <= depth <= capacity
      && abi <= |under|
      && Layers(b, bbi, c, under)
    }

    /** The layered sequence that the arrays stand for. */
    ghost function Value(): (v: Split<T>)
      reads this, a, b, c
      requires Valid()
      ensures v.Ok()
    {
      Split(under, abi, a[..depth - abi])
    }

    /** The logical sequence. */
    ghost function Contents(): (s: seq<T>)
      reads this, a, b, c
      requires Valid()
      ensures |s| == depth && abi <= |under| && s[..abi] == under[..abi]
    {
      Value().Contents()
    }

    /** No collection is under way: C is out of use and B starts at the bottom. */
    ghost predicate Settled()
      reads this
    {
      c == null && bbi == 0
    }

    constructor (capacity: nat)
      ensures Valid() && fresh(a) && b == null && Settled() && Contents() == [] && this.capacity == capacity
    {
      this.capacity := capacity;
      this.a := new T[capacity];
      this.b, this.c := null, null;
      this.abi, this.bbi, this.depth := 0, 0, 0;
      this.under := [];
    }

    /** tristack_at, triframes_at */
    method At(index: nat) returns (v: T)
      requires Valid() && index < depth
      ensures v == Contents()[index]
    {
      if index >= abi {
        v := a[index - abi];
      } else {
        v := FrozenAt(index);
      }
    }

    /** tristack_at_bc */
    method FrozenAt(index: nat) returns (v: T)
      requires Layers(b, bbi, c, under) && index < |under|
      ensures v == under[index]
    {
      LayerAt(b, bbi, c, under, index);
      if index >= bbi {
        v := b[index - bbi];
      } else {
        v := c[index];
      }
    }

    method Peek(down: nat) returns (v: T)
      requires Valid() && down < depth
      ensures v == Contents()[depth - 1 - down]
    {
      v := At(depth - 1 - down);
    }

    /** A write through a pointer into the mutable array. */
    method Set(index: nat, v: T)
      requires Valid() && abi <= index < depth
      modifies a
      ensures Valid() && Contents() == old(Contents())[index := v]
      ensures Value() == old(Value()).Stored(index, v)
    {
      a[index - abi] := v;
      assert Layers(b, bbi, c, under);
    }

    method Push(v: T)
      requires Valid() && depth < capacity
      modifies a, this`depth
      ensures Valid() && Contents() == old(Contents()) + [v]
      ensures Value() == old(Value()).Pushed(v)
    {
      a[depth - abi] := v;
      depth := depth + 1;
      assert Layers(b, bbi, c, under);
    }

    /** tristack_discardn: popping below A's base takes the base down. */
    method DiscardN(n: nat)
      requires Valid() && n <= depth
      modifies this`depth, this`abi
      ensures Valid() && Contents() == old(Contents())[..old(depth) - n]
      ensures abi == if depth < old(abi) then depth else old(abi)
      ensures Value() == old(Value()).Discarded(n)
    {
      depth := depth - n;
      if depth < abi {
        abi := depth;
      }
    }

    method Pop() returns (v: T)
      requires Valid() && depth > 0
      modifies this`depth, this`abi
      ensures Valid() && old(Contents()) == Contents() + [v]
      ensures abi == if depth < old(abi) then depth else old(abi)
    {
      v := Peek(0);
      DiscardN(1);
    }

    /** freezeARegions: C := B, B := A, A := empty. */
    method Freeze()
      requires Valid() && Settled()
      modifies this
      ensures Valid() && Contents() == old(Contents()) && abi == depth
      ensures fresh(a) && b == old(a) && c == old(b) && bbi == old(abi)
      ensures under == Contents()
    {
      ghost var s := Contents();
      c := b;
      b, bbi := a, abi;
      a := new T[capacity];
      abi := depth;
      forall i | 0 <= i < depth
        ensures Slot(b, bbi, c, i, s[i])
      {
        if i < bbi {
          LayerAt(old(b), 0, null, under, i);
        }
      }
      under := s;
    }

    /** What collectGarbage writes into its request, right after the freeze. */
    method Request() returns (r: Frozen<T>)
      requires Valid() && abi == depth
      ensures r == Frozen(abi, b, bbi, c, depth)
      ensures under[..depth] == Contents() && Layers(r.b, r.bbi, r.c, Contents())
    {
      r := Frozen(abi, b, bbi, c, depth);
      ghost var s := Contents();
      forall i | 0 <= i < depth
        ensures Slot(b, bbi, c, i, s[i])
      {
        LayerAt(b, bbi, c, under, i);
      }
    }

    /** The array part of integrateGCResponse: B := the condensed array, C := none. It
      * may come after any number of pushes and pops, or after a reset: what counts is
      * what lies below A by then. */
    method Integrate(newB: array<T>)
      requires Valid() && newB != a && abi <= newB.Length
      modifies this`b, this`c, this`bbi, this`under
      ensures Valid() && Settled() && b == newB && under == newB[..]
      ensures Contents() == newB[..abi] + old(Contents())[abi..]
      ensures newB[..abi] == old(under)[..abi] ==> Contents() == old(Contents())
    {
      c := null;
      b, bbi := newB, 0;
      under := newB[..];
      assert forall i :: 0 <= i < |under| ==> Slot(b, bbi, c, i, under[i]);
    }

    /** tristack_reset, triframes_reset */
    method Reset()
      modifies this
      ensures Valid() && fresh(a) && b == null && Settled() && Contents() == [] && under == []
    {
      a := new T[capacity];
      b, c := null, null;
      abi, bbi, depth := 0, 0, 0;
      under := [];
    }

    /** Copies the values from `from` on to the bottom of A, downwards from the top, because
      * source and target overlap. */
    method ShiftDown(from: nat)
      requires Valid() && from < abi
      modifies a
      ensures a[..depth - from] == old(Contents())[from..] && Layers(b, bbi, c, under)
    {
      hide Layers, Slot, Contents;
      ghost var s := Contents();
      ContentsAt(s);
      var i := depth;
      while i > from
        invariant from <= i <= depth
        invariant Layers(b, bbi, c, under)
        invariant forall k :: i <= k < depth ==> a[k - from] == s[k]
        invariant forall q :: 0 <= q < i - from ==> a[q] == old(a[q])
      {
        var v;
        if i - 1 >= abi {
          v := a[i - 1 - abi];
        } else {
          v := FrozenAt(i - 1);
        }
        i := i - 1;
        a[i - from] := v;
      }
    }

    lemma ContentsAt(s: seq<T>)
      requires Valid() && s == Contents()
      ensures |s| == depth
      ensures forall k :: 0 <= k < depth ==> s[k] == if k < abi then under[k] else a[k - abi]
    {
    }

    /** The shift of triframes_ensureCurrentFrameIsMutable: makes the values from
      * `from` on one contiguous run in A. */
    method MakeMutable(from: nat)
      requires Valid() && from <= depth
      modifies a, this`abi
      ensures Valid() && Contents() == old(Contents())
      ensures abi == if from < old(abi) then from else old(abi)
    {
      hide Layers, Slot;
      if from < abi {
        ghost var s := Contents();
        ShiftDown(from);
        abi := from;
        assert s == under[..from] + s[from..];
      }
    }

    /** Condensing B and C on the collector thread: two copying loops. It reads frozen
      * arrays only, so the main thread may run meanwhile. */
    static method Condense(r: Frozen<T>, ghost s: seq<T>) returns (newB: array<T>)
      requires |s| == r.depth && r.abi == r.depth
      requires Layers(r.b, r.bbi, r.c, s)
      ensures fresh(newB) && newB.Length == r.depth && newB[..] == s
    {
      newB := new T[r.depth];
      var i := 0;
      while i < r.depth && i < r.bbi
        invariant 0 <= i <= r.depth
        invariant Layers(r.b, r.bbi, r.c, s)
        invariant newB[..i] == s[..i]
        invariant i > 0 ==> i <= r.bbi
      {
        LayerAt(r.b, r.bbi, r.c, s, i);
        newB[i] := r.c[i];
        i := i + 1;
      }
      while i < r.depth && i < r.abi
        invariant 0 <= i <= r.depth && (i < r.depth ==> i >= r.bbi)
        invariant Layers(r.b, r.bbi, r.c, s)
        invariant newB[..i] == s[..i]
      {
        LayerAt(r.b, r.bbi, r.c, s, i);
        newB[i] := r.b[i - r.bbi];
        i := i + 1;
      }
      assert s[..r.depth] == s;
    }
  }
}
