/** One layer of the object table, and how the three layers resolve an id. */
module Layers {
  /** A table value: CB_NULL (an invalidated id), or an offset that may carry
    * ALREADY_WHITE_FLAG. */
  datatype Loc = Null | At(offset: nat, white: bool)

  type Layer = map<nat, Loc>

  datatype Found = Nothing | Offset(offset: nat)

  // The stored word: bit 0 is the flag, since offsets of objects are even.
  function Encode(l: Loc): nat
  {
    match l
    case Null => 0
    case At(offset, white) => offset + if white then 1 else 0
  }

  predicate AlreadyWhite(word: nat)
  {
    word % 2 == 1
  }

  function PureOffset(word: nat): nat
  {
    word - word % 2
  }

  /** The flag and the offset share a word without loss, because objects are aligned
    * and never at offset 0. */
  lemma EncodingIsFaithful(l: Loc, l': Loc)
    requires l.At? ==> l.offset > 0 && l.offset % 2 == 0
    requires l'.At? ==> l'.offset > 0 && l'.offset % 2 == 0
    ensures Encode(l) == Encode(l') <==> l == l'
    ensures l.At? ==> PureOffset(Encode(l)) == l.offset && AlreadyWhite(Encode(l)) == l.white
    ensures Encode(l) == 0 <==> l.Null?
  {
  }

  /** objtablelayer_lookup: an invalidated id counts as not found. */
  predicate Has(layer: Layer, id: nat)
  {
    id in layer && layer[id].At?
  }

  /** objtable_lookup: the first layer that has the id decides. */
  function Resolve(a: Layer, b: Layer, c: Layer, id: nat): Found
  {
    if Has(a, id) then Offset(a[id].offset)
    else if Has(b, id) then Offset(b[id].offset)
    else if Has(c, id) then Offset(c[id].offset)
    else Nothing
  }

  /** A tombstone in A uncovers what lies beneath it; it never hides it. */
  lemma TombstoneDoesNotMask(a: Layer, b: Layer, c: Layer, id: nat, other: nat)
    ensures Resolve(a[id := Null], b, c, other) == if other == id then Resolve(a - {id}, b, c, id) else Resolve(a, b, c, other)
    ensures Has(b, id) ==> Resolve(a[id := Null], b, c, id) == Offset(b[id].offset)
  {
  }

  /** Shifting the layers down changes nothing, provided C was empty. */
  lemma ShiftKeepsResolution(a: Layer, b: Layer, id: nat)
    ensures Resolve(map[], a, b, id) == Resolve(a, b, map[], id)
  {
  }
}
