/** compare: the order on structmaps, computed by walking two tries slot by slot. It
  * is an order on the stored maps only because the layout is canonical.
  */
module StructMapCompare {
  import opened Routes
  import opened Collisions
  import opened TrieShape
  import opened StructMap

  /** What stands at position p in the layout of map m; node offsets do not matter. */
  datatype View<V> = NodeView | EmptyView | ItemView(key: Key, value: V)

  ghost function ViewAt<V>(g: Geometry, m: map<Key, V>, p: seq<nat>): (v: View<V>)
    ensures v.NodeView? <==> Shared(g, m.Keys, p)
    ensures v.EmptyView? <==> forall k :: k in m ==> !OnRoute(g, k, p)
    ensures v.ItemView? ==> v.key in m && v.value == m[v.key] && OnRoute(g, v.key, p)
  {
    if Shared(g, m.Keys, p) then NodeView
    else if exists k :: k in m && OnRoute(g, k, p) then
      var k :| k in m && OnRoute(g, k, p); ItemView(k, m[k])
    else EmptyView
  }

  lemma SoleItem<V>(g: Geometry, m: map<Key, V>, p: seq<nat>, k: Key)
    requires ViewAt(g, m, p).ItemView? && k in m && OnRoute(g, k, p)
    ensures ViewAt(g, m, p) == ItemView(k, m[k])
  {
  }

  /** The numeric order of the entry type tags. */
  function Rank<V>(v: View<V>): int
  {
    match v
    case NodeView => 0
    case EmptyView => 1
    case ItemView(_, _) => 2
  }

  function Sign(i: int): int
  {
    if i < 0 then -1 else if i > 0 then 1 else 0
  }

  type ValueCmp<!V> = (V, V) -> int

  /** The comparison below position p, from slot i on. */
  ghost function CompareFrom<V>(g: Geometry, l: map<Key, V>, r: map<Key, V>, cmp: ValueCmp<V>, p: seq<nat>, i: nat): (c: int)
    requires |p| < MAX_DEPTH
    ensures -1 <= c <= 1
    decreases MAX_DEPTH - |p|, 1, Pow2(Width(g, |p|)) - i
  {
    if i >= Pow2(Width(g, |p|)) then 0
    else
      var c := CompareAt(g, l, r, cmp, p + [i]);
      if c != 0 then c else CompareFrom(g, l, r, cmp, p, i + 1)
  }

  ghost function CompareAt<V>(g: Geometry, l: map<Key, V>, r: map<Key, V>, cmp: ValueCmp<V>, p: seq<nat>): (c: int)
    requires 1 <= |p| <= MAX_DEPTH
    ensures -1 <= c <= 1
    decreases MAX_DEPTH - |p|, 2
  {
    var x, y := ViewAt(g, l, p), ViewAt(g, r, p);
    if Rank(x) < Rank(y) then -1
    else if Rank(x) > Rank(y) then 1
    else match x
      case NodeView => Deep(g, l.Keys, p); CompareFrom(g, l, r, cmp, p, 0)
      case EmptyView => 0
      case ItemView(k, v) =>
        if k < y.key then -1 else if k > y.key then 1 else Sign(cmp(v, y.value))
  }

  lemma Deep(g: Geometry, keys: set<Key>, p: seq<nat>)
    requires |p| >= 1
    ensures Shared(g, keys, p) ==> |p| < MAX_DEPTH
  {
    if Shared(g, keys, p) {
      NodeSetIs(g, keys);
      SharedIsShallow(g, keys, p);
    }
  }

  /** The comparison of whole maps. */
  ghost function Compare<V>(g: Geometry, l: map<Key, V>, r: map<Key, V>, cmp: ValueCmp<V>): int
  {
    CompareFrom(g, l, r, cmp, [], 0)
  }

  // ---------------------------------------------------------------------------
  // The loops

  ghost predicate Shows<V>(e: Entry<V>, v: View<V>)
  {
    match e
    case Empty => v.EmptyView?
    case Item(k, w) => v == ItemView(k, w)
    case Node(_) => v.NodeView?
  }

  lemma EntryShowsView<V>(g: Geometry, st: Store<V>, m: map<Key, V>, p: seq<nat>)
    requires Canonical(g, st, m) && Open(g, st, p)
    ensures Shows(EntryAt(g, st, p), ViewAt(g, m, p))
  {
    hide NodeSet, Slot;
    NodeSetIs(g, m.Keys);
    assert Fits(g, st, m, p, EntryAt(g, st, p));
  }

  function EntryRank<V>(e: Entry<V>): int
  {
    match e
    case Node(_) => 0
    case Empty => 1
    case Item(_, _) => 2
  }

  method CompareEntries<V>(lhs: Amt<V>, rhs: Amt<V>, lentry: Entry<V>, rentry: Entry<V>, valueCmp: ValueCmp<V>, ghost p: seq<nat>)
    returns (c: int)
    requires lhs.Valid() && rhs.Valid() && lhs.g == rhs.g
    requires Open(lhs.g, lhs.Memory(), p) && lentry == EntryAt(lhs.g, lhs.Memory(), p)
    requires Open(rhs.g, rhs.Memory(), p) && rentry == EntryAt(rhs.g, rhs.Memory(), p)
    requires |p| <= MAX_DEPTH
    ensures c == CompareAt(lhs.g, lhs.content, rhs.content, valueCmp, p)
    ensures lentry.Node? && !rentry.Node? ==> c == -1
    ensures lentry.Empty? && !rentry.Empty? ==> c == if rentry.Node? then 1 else -1
    ensures lentry.Item? && !rentry.Item? ==> c == 1
    ensures lentry.Empty? && rentry.Empty? ==> c == 0
    ensures lentry.Item? && rentry.Item? ==>
      c == if lentry.key < rentry.key then -1 else if lentry.key > rentry.key then 1
           else if valueCmp(lentry.value, rentry.value) < 0 then -1
           else if valueCmp(lentry.value, rentry.value) > 0 then 1 else 0
    decreases MAX_DEPTH - |p|, 1
  {
    hide Represents, NodeSet, Slot, Route, ViewAt;
    EntryShowsView(lhs.g, lhs.Memory(), lhs.content, p);
    EntryShowsView(rhs.g, rhs.Memory(), rhs.content, p);
    var ltype, rtype := EntryRank(lentry), EntryRank(rentry);
    if ltype < rtype { return -1; }
    if ltype > rtype { return 1; }
    match lentry
    case Node(loffset) =>
      NodeIsPlaced(lhs.g, lhs.Memory(), lhs.content, p);
      NodeIsPlaced(rhs.g, rhs.Memory(), rhs.content, p);
      Deep(lhs.g, lhs.content.Keys, p);
      c := CompareNode(lhs, rhs, loffset, rentry.offset, valueCmp, p);
    case Empty =>
      c := 0;
    case Item(lkey, lvalue) =>
      if lkey < rentry.key { return -1; }
      if lkey > rentry.key { return 1; }
      var cmp := valueCmp(lvalue, rentry.value);
      if cmp < 0 { return -1; }
      if cmp > 0 { return 1; }
      return 0;
  }

  method CompareNode<V>(lhs: Amt<V>, rhs: Amt<V>, loffset: nat, roffset: nat, valueCmp: ValueCmp<V>, ghost p: seq<nat>)
    returns (c: int)
    requires lhs.Valid() && rhs.Valid() && lhs.g == rhs.g && |p| < MAX_DEPTH
    requires Open(lhs.g, lhs.Memory(), p) && p in lhs.place && lhs.place[p] == loffset
    requires Open(rhs.g, rhs.Memory(), p) && p in rhs.place && rhs.place[p] == roffset
    ensures c == CompareFrom(lhs.g, lhs.content, rhs.content, valueCmp, p, 0)
    decreases MAX_DEPTH - |p|, 0
  {
    hide Canonical, Represents, NodeSet, Slot, Route, ViewAt;
    NodeWidth(lhs.g, lhs.Memory(), lhs.content, p);
    NodeWidth(rhs.g, rhs.Memory(), rhs.content, p);
    for i := 0 to |lhs.nodes[loffset]|
      invariant CompareFrom(lhs.g, lhs.content, rhs.content, valueCmp, p, 0)
             == CompareFrom(lhs.g, lhs.content, rhs.content, valueCmp, p, i)
    {
      ChildOpen(lhs.g, lhs.Memory(), lhs.content, p, i);
      ChildOpen(rhs.g, rhs.Memory(), rhs.content, p, i);
      c := CompareEntries(lhs, rhs, lhs.nodes[loffset][i], rhs.nodes[roffset][i], valueCmp, p + [i]);
      if c != 0 {
        return;
      }
    }
    return 0;
  }

  /** structmap_amt::compare */
  method CompareMaps<V>(lhs: Amt<V>, rhs: Amt<V>, valueCmp: ValueCmp<V>) returns (c: int)
    requires lhs.Valid() && rhs.Valid() && lhs.g == rhs.g
    ensures c == Compare(lhs.g, lhs.content, rhs.content, valueCmp)
  {
    hide Canonical, Represents, NodeSet, Slot, Route, ViewAt;
    RootOpen(lhs.g, lhs.Memory(), lhs.content);
    RootOpen(rhs.g, rhs.Memory(), rhs.content);
    for i := 0 to |lhs.entries|
      invariant CompareFrom(lhs.g, lhs.content, rhs.content, valueCmp, [], 0)
             == CompareFrom(lhs.g, lhs.content, rhs.content, valueCmp, [], i)
    {
      RootEntry(lhs.g, lhs.Memory(), lhs.content, i);
      RootEntry(rhs.g, rhs.Memory(), rhs.content, i);
      c := CompareEntries(lhs, rhs, lhs.entries[i], rhs.entries[i], valueCmp, [i]);
      if c != 0 {
        return;
      }
    }
    return 0;
  }

  // ---------------------------------------------------------------------------
  // What the order means

  ghost predicate SameAt<V>(g: Geometry, l: map<Key, V>, r: map<Key, V>, cmp: ValueCmp<V>, p: seq<nat>)
  {
    forall k: Key :: OnRoute(g, k, p) ==> (k in l <==> k in r) && (k in l ==> cmp(l[k], r[k]) == 0)
  }

  ghost predicate SameFrom<V>(g: Geometry, l: map<Key, V>, r: map<Key, V>, cmp: ValueCmp<V>, p: seq<nat>, i: nat)
  {
    forall k: Key :: OnRoute(g, k, p) && Slot(g, k, |p|) >= i ==>
      (k in l <==> k in r) && (k in l ==> cmp(l[k], r[k]) == 0)
  }

  lemma SameFromStep<V>(g: Geometry, l: map<Key, V>, r: map<Key, V>, cmp: ValueCmp<V>, p: seq<nat>, i: nat)
    ensures SameFrom(g, l, r, cmp, p, i) <==> SameAt(g, l, r, cmp, p + [i]) && SameFrom(g, l, r, cmp, p, i + 1)
  {
    hide Slot;
    forall k: Key ensures OnRoute(g, k, p + [i]) <==> OnRoute(g, k, p) && Slot(g, k, |p|) == i {
      RouteSnoc(g, k, |p|);
      if OnRoute(g, k, p + [i]) {
        RouteOfPrefix(g, k, p + [i], |p|);
        assert (p + [i])[..|p|] == p;
      }
    }
  }

  lemma SameFromEnds<V>(g: Geometry, l: map<Key, V>, r: map<Key, V>, cmp: ValueCmp<V>, p: seq<nat>, i: nat)
    ensures i >= Pow2(Width(g, |p|)) ==> SameFrom(g, l, r, cmp, p, i)
    ensures i == 0 ==> (SameFrom(g, l, r, cmp, p, i) <==> SameAt(g, l, r, cmp, p))
  {
  }

  lemma {:induction false} ZeroFrom<V>(g: Geometry, l: map<Key, V>, r: map<Key, V>, cmp: ValueCmp<V>, p: seq<nat>, i: nat)
    requires |p| < MAX_DEPTH
    ensures CompareFrom(g, l, r, cmp, p, i) == 0 <==> SameFrom(g, l, r, cmp, p, i)
    decreases MAX_DEPTH - |p|, 1, Pow2(Width(g, |p|)) - i
  {
    hide SameFrom, SameAt, Slot;
    SameFromEnds(g, l, r, cmp, p, i);
    if i < Pow2(Width(g, |p|)) {
      SameFromStep(g, l, r, cmp, p, i);
      ZeroAt(g, l, r, cmp, p + [i]);
      ZeroFrom(g, l, r, cmp, p, i + 1);
    }
  }

  lemma {:induction false} ZeroAt<V>(g: Geometry, l: map<Key, V>, r: map<Key, V>, cmp: ValueCmp<V>, p: seq<nat>)
    requires 1 <= |p| <= MAX_DEPTH
    ensures CompareAt(g, l, r, cmp, p) == 0 <==> SameAt(g, l, r, cmp, p)
    decreases MAX_DEPTH - |p|, 2
  {
    hide Slot, Route;
    if ViewAt(g, l, p).NodeView? && ViewAt(g, r, p).NodeView? {
      Deep(g, l.Keys, p);
      ZeroFrom(g, l, r, cmp, p, 0);
      SameFromEnds(g, l, r, cmp, p, 0);
    } else {
      ZeroAtLeaf(g, l, r, cmp, p);
    }
  }

  lemma ZeroAtLeaf<V>(g: Geometry, l: map<Key, V>, r: map<Key, V>, cmp: ValueCmp<V>, p: seq<nat>)
    requires 1 <= |p| <= MAX_DEPTH
    requires !(ViewAt(g, l, p).NodeView? && ViewAt(g, r, p).NodeView?)
    ensures CompareAt(g, l, r, cmp, p) == 0 <==> SameAt(g, l, r, cmp, p)
  {
    hide Slot, Route, ViewAt;
    var x, y := ViewAt(g, l, p), ViewAt(g, r, p);
    if SameAt(g, l, r, cmp, p) && x.ItemView? && y.ItemView? {
      SoleItem(g, r, p, x.key);
    }
    if CompareAt(g, l, r, cmp, p) == 0 {
      forall k: Key | OnRoute(g, k, p)
        ensures (k in l <==> k in r) && (k in l ==> cmp(l[k], r[k]) == 0)
      {
        if x.ItemView? && k in l { SoleItem(g, l, p, k); }
        if y.ItemView? && k in r { SoleItem(g, r, p, k); }
      }
    }
  }

  /** compare is 0 exactly for maps with the same keys and equal values. */
  lemma CompareZero<V>(g: Geometry, l: map<Key, V>, r: map<Key, V>, cmp: ValueCmp<V>)
    ensures Compare(g, l, r, cmp) == 0 <==>
      l.Keys == r.Keys && forall k :: k in l ==> cmp(l[k], r[k]) == 0
  {
    hide Slot;
    ZeroFrom(g, l, r, cmp, [], 0);
    SameFromEnds(g, l, r, cmp, [], 0);
    forall k: Key ensures OnRoute(g, k, []) {
      assert Route(g, k, 0) == [];
    }
    if SameAt(g, l, r, cmp, []) {
      forall k: Key ensures k in l <==> k in r {
        assert OnRoute(g, k, []);
      }
      assert l.Keys == r.Keys;
    }
  }

  /** The first slot in which two maps differ decides. */
  lemma {:induction false} FirstDifferenceDecides<V>(g: Geometry, l: map<Key, V>, r: map<Key, V>, cmp: ValueCmp<V>, p: seq<nat>, i: nat, j: nat)
    requires |p| < MAX_DEPTH && i <= j < Pow2(Width(g, |p|))
    requires forall n :: i <= n < j ==> CompareAt(g, l, r, cmp, p + [n]) == 0
    requires CompareAt(g, l, r, cmp, p + [j]) != 0
    ensures CompareFrom(g, l, r, cmp, p, i) == CompareAt(g, l, r, cmp, p + [j])
    decreases j - i
  {
    hide CompareAt;
    if i < j {
      FirstDifferenceDecides(g, l, r, cmp, p, i + 1, j);
    }
  }

  /** Which way the order goes, on maps of one pair and on none: a map without a pair comes
    * first; in one slot the smaller key does, and of equal keys the smaller value. Across
    * slots, what stands in the lower one decides, and there having nothing comes first. */
  lemma {:induction false} SmallMaps<V>(g: Geometry, k: Key, v: V, l: Key, w: V, cmp: ValueCmp<V>)
    ensures Compare(g, map[], map[k := v], cmp) == -1 && Compare(g, map[k := v], map[], cmp) == 1
    ensures LowBits(k, g.first) == LowBits(l, g.first) && k < l ==> Compare(g, map[k := v], map[l := w], cmp) == -1
    ensures k == l && cmp(v, w) < 0 ==> Compare(g, map[k := v], map[l := w], cmp) == -1
    ensures k == l && cmp(v, w) > 0 ==> Compare(g, map[k := v], map[l := w], cmp) == 1
    ensures LowBits(k, g.first) < LowBits(l, g.first) ==> Compare(g, map[k := v], map[l := w], cmp) == 1
  {
    hide CompareFrom, Route, Slot;
    var s, t := Slot(g, k, 0), Slot(g, l, 0);
    FirstSlot(g, k);
    FirstSlot(g, l);
    SinglesFrom(g, map[], map[k := v], cmp, s);
    SinglesFrom(g, map[k := v], map[], cmp, s);
    var first := if s < t then s else t;
    if CompareAt(g, map[k := v], map[l := w], cmp, [first]) != 0 {
      SinglesFrom(g, map[k := v], map[l := w], cmp, first);
    }
  }

  lemma FirstSlot(g: Geometry, k: Key)
    ensures Slot(g, k, 0) == LowBits(k, g.first) < Pow2(Width(g, 0))
    ensures forall i: nat :: OnRoute(g, k, [i]) <==> i == Slot(g, k, 0)
  {
    ShiftIsSlot(g, k, 0, 0);
    RouteSnoc(g, k, 0);
  }

  ghost predicate Single<V>(m: map<Key, V>)
  {
    forall k, l :: k in m && l in m ==> k == l
  }

  lemma SinglesFrom<V>(g: Geometry, l: map<Key, V>, r: map<Key, V>, cmp: ValueCmp<V>, j: nat)
    requires Single(l) && Single(r) && j < Pow2(Width(g, 0))
    requires forall k :: k in l || k in r ==> j <= Slot(g, k, 0)
    requires CompareAt(g, l, r, cmp, [j]) != 0
    ensures Compare(g, l, r, cmp) == CompareAt(g, l, r, cmp, [j])
  {
    hide CompareFrom, Route, Slot;
    forall n: nat | 0 <= n < j ensures CompareAt(g, l, r, cmp, [] + [n]) == 0 {
      forall k: Key | k in l || k in r ensures !OnRoute(g, k, [n]) {
        FirstSlot(g, k);
      }
      assert [] + [n] == [n];
      assert ViewAt(g, l, [n]).EmptyView? && ViewAt(g, r, [n]).EmptyView?;
    }
    assert [] + [j] == [j];
    FirstDifferenceDecides(g, l, r, cmp, [], 0, j);
  }

  ghost predicate Antisymmetric<V(!new)>(cmp: ValueCmp<V>)
  {
    forall v, w :: Sign(cmp(v, w)) == -Sign(cmp(w, v))
  }

  ghost predicate Transitive<V(!new)>(cmp: ValueCmp<V>)
  {
    forall u, v, w :: cmp(u, v) <= 0 && cmp(v, w) <= 0 ==> cmp(u, w) <= 0
  }

  lemma {:induction false} MirrorFrom<V(!new)>(g: Geometry, l: map<Key, V>, r: map<Key, V>, cmp: ValueCmp<V>, p: seq<nat>, i: nat)
    requires |p| < MAX_DEPTH && Antisymmetric(cmp)
    ensures CompareFrom(g, l, r, cmp, p, i) == -CompareFrom(g, r, l, cmp, p, i)
    decreases MAX_DEPTH - |p|, 1, Pow2(Width(g, |p|)) - i
  {
    hide Slot, ViewAt;
    if i < Pow2(Width(g, |p|)) {
      MirrorAt(g, l, r, cmp, p + [i]);
      MirrorFrom(g, l, r, cmp, p, i + 1);
    }
  }

  lemma {:induction false} MirrorAt<V(!new)>(g: Geometry, l: map<Key, V>, r: map<Key, V>, cmp: ValueCmp<V>, p: seq<nat>)
    requires 1 <= |p| <= MAX_DEPTH && Antisymmetric(cmp)
    ensures CompareAt(g, l, r, cmp, p) == -CompareAt(g, r, l, cmp, p)
    decreases MAX_DEPTH - |p|, 2
  {
    hide Slot, ViewAt;
    if ViewAt(g, l, p).NodeView? && ViewAt(g, r, p).NodeView? {
      Deep(g, l.Keys, p);
      MirrorFrom(g, l, r, cmp, p, 0);
    }
  }

  /** Swapping the operands flips the sign, if value_cmp does. */
  lemma CompareAntisymmetric<V(!new)>(g: Geometry, l: map<Key, V>, r: map<Key, V>, cmp: ValueCmp<V>)
    requires Antisymmetric(cmp)
    ensures Compare(g, l, r, cmp) == -Compare(g, r, l, cmp)
  {
    MirrorFrom(g, l, r, cmp, [], 0);
  }

  /** How two comparisons in a row compose. */
  ghost predicate Chains(x: int, y: int, z: int)
  {
    x <= 0 && y <= 0 ==> z == if x < 0 || y < 0 then -1 else 0
  }

  lemma ValuesChain<V(!new)>(cmp: ValueCmp<V>, u: V, v: V, w: V)
    requires Antisymmetric(cmp) && Transitive(cmp)
    ensures Chains(Sign(cmp(u, v)), Sign(cmp(v, w)), Sign(cmp(u, w)))
  {
    assert Sign(cmp(u, v)) == -Sign(cmp(v, u)) && Sign(cmp(v, w)) == -Sign(cmp(w, v)) && Sign(cmp(u, w)) == -Sign(cmp(w, u));
    assert cmp(v, w) <= 0 && cmp(w, u) <= 0 ==> cmp(v, u) <= 0;
    assert cmp(w, u) <= 0 && cmp(u, v) <= 0 ==> cmp(w, v) <= 0;
  }

  lemma {:induction false} ChainFrom<V(!new)>(g: Geometry, l: map<Key, V>, m: map<Key, V>, r: map<Key, V>, cmp: ValueCmp<V>, p: seq<nat>, i: nat)
    requires |p| < MAX_DEPTH && Antisymmetric(cmp) && Transitive(cmp)
    ensures Chains(CompareFrom(g, l, m, cmp, p, i), CompareFrom(g, m, r, cmp, p, i), CompareFrom(g, l, r, cmp, p, i))
    decreases MAX_DEPTH - |p|, 1, Pow2(Width(g, |p|)) - i
  {
    hide Slot, ViewAt, Antisymmetric, Transitive;
    if i < Pow2(Width(g, |p|)) {
      ChainAt(g, l, m, r, cmp, p + [i]);
      ChainFrom(g, l, m, r, cmp, p, i + 1);
    }
  }

  lemma {:induction false} ChainAt<V(!new)>(g: Geometry, l: map<Key, V>, m: map<Key, V>, r: map<Key, V>, cmp: ValueCmp<V>, p: seq<nat>)
    requires 1 <= |p| <= MAX_DEPTH && Antisymmetric(cmp) && Transitive(cmp)
    ensures Chains(CompareAt(g, l, m, cmp, p), CompareAt(g, m, r, cmp, p), CompareAt(g, l, r, cmp, p))
    decreases MAX_DEPTH - |p|, 2
  {
    hide Slot, ViewAt, Antisymmetric, Transitive;
    var x, y, z := ViewAt(g, l, p), ViewAt(g, m, p), ViewAt(g, r, p);
    if x.NodeView? && y.NodeView? && z.NodeView? {
      Deep(g, l.Keys, p);
      Deep(g, m.Keys, p);
      ChainFrom(g, l, m, r, cmp, p, 0);
    } else if x.ItemView? && y.ItemView? && z.ItemView? {
      ValuesChain(cmp, x.value, y.value, z.value);
    }
  }

  /** The order is transitive, strictly so where a step is strict, if value_cmp is
    * antisymmetric and transitive. */
  lemma CompareTransitive<V(!new)>(g: Geometry, l: map<Key, V>, m: map<Key, V>, r: map<Key, V>, cmp: ValueCmp<V>)
    requires Antisymmetric(cmp) && Transitive(cmp)
    requires Compare(g, l, m, cmp) <= 0 && Compare(g, m, r, cmp) <= 0
    ensures Compare(g, l, r, cmp) <= 0
    ensures Compare(g, l, r, cmp) < 0 <==> Compare(g, l, m, cmp) < 0 || Compare(g, m, r, cmp) < 0
  {
    ChainFrom(g, l, m, r, cmp, [], 0);
  }
}
