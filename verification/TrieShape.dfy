/** What the entries and nodes of a structmap mean: which map they store and when
  * their layout is the canonical one.
  */
module TrieShape {
  import opened Routes
  import opened Collisions

  datatype Entry<V> = Empty | Item(key: Key, value: V) | Node(offset: nat)

  /** A pointer to an entry: a slot of the first level or of a nested node. */
  datatype EntryRef = First(slot: nat) | Nested(offset: nat, slot: nat)

  /** The memory of one structmap, together with the position of every node. */
  datatype Store<V> = Store(entries: seq<Entry<V>>, nodes: seq<seq<Entry<V>>>, place: map<seq<nat>, nat>)

  function Parent(p: seq<nat>): seq<nat>
    requires |p| >= 1
  {
    p[..|p| - 1]
  }

  function Last(p: seq<nat>): nat
    requires |p| >= 1
  {
    p[|p| - 1]
  }

  ghost predicate GoodPosition(g: Geometry, p: seq<nat>)
  {
    |p| >= 1 && forall i :: 0 <= i < |p| ==> p[i] < Pow2(Width(g, i))
  }

  /** The position is a slot of the first level or of an existing node. */
  ghost predicate Open<V>(g: Geometry, st: Store<V>, p: seq<nat>)
  {
    GoodPosition(g, p) && (|p| == 1 || Parent(p) in st.place)
  }

  ghost predicate Sized<V>(g: Geometry, st: Store<V>)
  {
    && |st.entries| == Pow2(g.first)
    && (forall o :: 0 <= o < |st.nodes| ==> |st.nodes[o]| == Pow2(g.level))
    && (forall p {:trigger st.place[p]} :: p in st.place ==> st.place[p] < |st.nodes|)
  }

  ghost function RefOf<V>(st: Store<V>, p: seq<nat>): EntryRef
    requires |p| >= 1 && (|p| == 1 || Parent(p) in st.place)
  {
    if |p| == 1 then First(p[0]) else Nested(st.place[Parent(p)], Last(p))
  }

  ghost function EntryAt<V>(g: Geometry, st: Store<V>, p: seq<nat>): Entry<V>
    requires Sized(g, st) && Open(g, st, p)
  {
    if |p| == 1 then st.entries[p[0]] else st.nodes[st.place[Parent(p)]][Last(p)]
  }

  /** What the entry at position p must be when the map stores m. */
  ghost predicate Fits<V>(g: Geometry, st: Store<V>, m: map<Key, V>, p: seq<nat>, e: Entry<V>)
  {
    if p in st.place then e == Node(st.place[p])
    else match e
      case Empty => forall k :: k in m ==> !OnRoute(g, k, p)
      case Item(key, value) =>
        && key in m && m[key] == value && OnRoute(g, key, p)
        && forall k :: k in m && OnRoute(g, k, p) ==> k == key
      case Node(_) => false
  }

  /** A node hangs off an open position and has its memory to itself. (Named, so
    * that the verifier does not climb from every position to its parents.) */
  ghost predicate Anchored<V>(g: Geometry, st: Store<V>, p: seq<nat>)
  {
    p in st.place ==>
      Open(g, st, p) && forall q :: q in st.place && st.place[q] == st.place[p] ==> q == p
  }

  ghost predicate WellPlaced<V>(g: Geometry, st: Store<V>)
  {
    forall p :: Anchored(g, st, p)
  }

  /** The store holds exactly the map m. */
  ghost predicate Represents<V>(g: Geometry, st: Store<V>, m: map<Key, V>)
  {
    && Sized(g, st)
    && WellPlaced(g, st)
    && (forall p {:trigger EntryAt(g, st, p)} :: Open(g, st, p) ==> Fits(g, st, m, p, EntryAt(g, st, p)))
  }

  /** The canonical layout: a node exactly where two stored keys pass. */
  ghost predicate Canonical<V>(g: Geometry, st: Store<V>, m: map<Key, V>)
  {
    && Represents(g, st, m)
    && st.place.Keys == NodeSet(g, m.Keys)
    && |st.nodes| == |st.place|
  }

  lemma RouteIsGood(g: Geometry, k: nat, n: nat)
    requires n >= 1
    ensures GoodPosition(g, Route(g, k, n))
  {
  }

  /** In a canonical store an entry is EMPTY, an ITEM or a NODE exactly when no
    * key, one key or several keys pass its position. */
  lemma CanonicalEntry<V>(g: Geometry, st: Store<V>, m: map<Key, V>, p: seq<nat>)
    requires Canonical(g, st, m) && Open(g, st, p)
    ensures EntryAt(g, st, p).Empty? <==> !exists k :: k in m && OnRoute(g, k, p)
    ensures EntryAt(g, st, p).Node? <==> Shared(g, m.Keys, p)
    ensures EntryAt(g, st, p).Item? <==> exists k :: k in m && OnRoute(g, k, p) && !Shared(g, m.Keys, p)
  {
    NodeSetIs(g, m.Keys);
    var e := EntryAt(g, st, p);
    assert Fits(g, st, m, p, e);
    if e.Item? {
      assert e.key in m && OnRoute(g, e.key, p);
    }
  }

  /** The layout depends on the stored keys only, never on the insertion order. */
  lemma SameKeysSameLayout<V>(g: Geometry, s: Store<V>, m: map<Key, V>, t: Store<V>, n: map<Key, V>, p: seq<nat>)
    requires Canonical(g, s, m) && Canonical(g, t, n) && m.Keys == n.Keys
    ensures |s.nodes| == |t.nodes|
    ensures Open(g, s, p) <==> Open(g, t, p)
    ensures Open(g, s, p) ==>
      match (EntryAt(g, s, p), EntryAt(g, t, p))
      case (Empty, Empty) => true
      case (Item(k, v), Item(l, w)) => k == l && v == m[k] && w == n[k]
      case (Node(_), Node(_)) => true
      case _ => false
  {
    hide NodeSet, Slot;
    assert |s.place.Keys| == |s.place| && |t.place.Keys| == |t.place|;
    if Open(g, s, p) {
      assert Fits(g, s, m, p, EntryAt(g, s, p));
      assert Fits(g, t, n, p, EntryAt(g, t, p));
    }
  }

  lemma Snoc(p: seq<nat>)
    requires |p| >= 1
    ensures p == Parent(p) + [Last(p)]
  {
  }

  /** Distinct positions are distinct entries. */
  lemma RefsDistinct<V>(g: Geometry, st: Store<V>, p: seq<nat>, q: seq<nat>)
    requires WellPlaced(g, st) && Open(g, st, p) && Open(g, st, q) && p != q
    ensures RefOf(st, p) != RefOf(st, q)
  {
    if |p| > 1 {
      assert Anchored(g, st, Parent(p));
    }
    Snoc(p);
    Snoc(q);
    if |p| == |q| == 1 {
      assert p == [p[0]] && q == [q[0]];
    }
  }

  function Overwrite<V>(st: Store<V>, r: EntryRef, e: Entry<V>): Store<V>
    requires match r
      case First(slot) => slot < |st.entries|
      case Nested(offset, slot) => offset < |st.nodes| && slot < |st.nodes[offset]|
  {
    match r
    case First(slot) => st.(entries := st.entries[slot := e])
    case Nested(offset, slot) => st.(nodes := st.nodes[offset := st.nodes[offset][slot := e]])
  }

  lemma OverwriteAt<V>(g: Geometry, st: Store<V>, p: seq<nat>, e: Entry<V>, q: seq<nat>)
    requires Sized(g, st) && WellPlaced(g, st) && Open(g, st, p) && Open(g, st, q)
    ensures var st' := Overwrite(st, RefOf(st, p), e);
      && Sized(g, st') && Open(g, st', q)
      && EntryAt(g, st', q) == if q == p then e else EntryAt(g, st, q)
  {
    if q != p {
      RefsDistinct(g, st, p, q);
    }
  }

  /** Storing k at the end of its route, where no other key passes. */
  lemma StoreItem<V>(g: Geometry, st: Store<V>, m: map<Key, V>, k: Key, v: V, p: seq<nat>)
    requires Represents(g, st, m) && Open(g, st, p) && OnRoute(g, k, p) && p !in st.place
    requires forall l :: l in m && OnRoute(g, l, p) ==> l == k
    ensures Represents(g, Overwrite(st, RefOf(st, p), Item(k, v)), m[k := v])
  {
    hide Slot, NodeSet;
    var st' := Overwrite(st, RefOf(st, p), Item(k, v));
    var m' := m[k := v];
    OverwriteAt(g, st, p, Item(k, v), p);
    forall q | Open(g, st', q) ensures Fits(g, st', m', q, EntryAt(g, st', q)) {
      assert Open(g, st, q);
      OverwriteAt(g, st, p, Item(k, v), q);
      assert Fits(g, st, m, q, EntryAt(g, st, q));
      if q != p && q !in st.place && OnRoute(g, k, q) {
        NoDetour(g, st, k, p, q);
      }
    }
    forall q ensures Anchored(g, st', q) {
      assert Anchored(g, st, q);
    }
  }

  /** Two open positions on one route that are not nodes are the same position. */
  lemma NoDetour<V>(g: Geometry, st: Store<V>, k: Key, p: seq<nat>, q: seq<nat>)
    requires WellPlaced(g, st) && Open(g, st, p) && Open(g, st, q)
    requires OnRoute(g, k, p) && OnRoute(g, k, q) && p !in st.place && q !in st.place
    ensures p == q
  {
    if |p| <= |q| {
      RoutePrefix(g, k, |p|, |q|);
      assert q[..|p|] == p;
      if |p| < |q| {
        PrefixIsPlaced(g, st, q, |p|);
      }
    } else {
      RoutePrefix(g, k, |q|, |p|);
      assert p[..|q|] == q;
      PrefixIsPlaced(g, st, p, |q|);
    }
  }

  lemma {:induction false} PrefixIsPlaced<V>(g: Geometry, st: Store<V>, p: seq<nat>, n: nat)
    requires WellPlaced(g, st) && Open(g, st, p) && 1 <= n < |p|
    ensures p[..n] in st.place
    decreases |p|
  {
    if n < |p| - 1 {
      assert Anchored(g, st, Parent(p));
      PrefixIsPlaced(g, st, Parent(p), n);
      assert Parent(p)[..n] == p[..n];
    }
  }

  /** Turning the item at p into a node that holds the item one level deeper. */
  function Split<V>(st: Store<V>, p: seq<nat>, r: EntryRef, child: seq<Entry<V>>): Store<V>
    requires match r
      case First(slot) => slot < |st.entries|
      case Nested(offset, slot) => offset < |st.nodes| && slot < |st.nodes[offset]|
  {
    var st' := Overwrite(st, r, Node(|st.nodes|));
    Store(st'.entries, st'.nodes + [child], st.place[p := |st.nodes|])
  }

  ghost predicate Holds<V>(g: Geometry, child: seq<Entry<V>>, k: Key, v: V, depth: nat)
    requires depth >= 1
  {
    && |child| == Pow2(g.level)
    && forall s :: 0 <= s < |child| ==> child[s] == if s == Slot(g, k, depth) then Item(k, v) else Empty
  }

  lemma SplitEntryAt<V>(g: Geometry, st: Store<V>, p: seq<nat>, child: seq<Entry<V>>, q: seq<nat>)
    requires Sized(g, st) && WellPlaced(g, st) && Open(g, st, p) && p !in st.place && |child| == Pow2(g.level)
    ensures var st' := Split(st, p, RefOf(st, p), child);
      Sized(g, st')
      && (Open(g, st', q) <==> Open(g, st, q) || (GoodPosition(g, q) && |q| == |p| + 1 && Parent(q) == p))
      && (Open(g, st', q) ==>
           EntryAt(g, st', q) ==
             if q == p then Node(|st.nodes|)
             else if |q| == |p| + 1 && Parent(q) == p then child[Last(q)]
             else EntryAt(g, st, q))
  {
    var st' := Split(st, p, RefOf(st, p), child);
    if Open(g, st', q) && q != p && !(|q| == |p| + 1 && Parent(q) == p) {
      assert Open(g, st, q);
      RefsDistinct(g, st, p, q);
    }
  }

  lemma SplitPlaced<V>(g: Geometry, st: Store<V>, p: seq<nat>, child: seq<Entry<V>>)
    requires Sized(g, st) && WellPlaced(g, st) && Open(g, st, p) && p !in st.place && |child| == Pow2(g.level)
    ensures var st' := Split(st, p, RefOf(st, p), child); Sized(g, st') && WellPlaced(g, st')
  {
    var st' := Split(st, p, RefOf(st, p), child);
    SplitEntryAt(g, st, p, child, p);
    forall q ensures Anchored(g, st', q) {
      assert Anchored(g, st, q);
    }
  }

  lemma SplitFits<V>(g: Geometry, st: Store<V>, m: map<Key, V>, p: seq<nat>, child: seq<Entry<V>>, k: Key, v: V, q: seq<nat>)
    requires Represents(g, st, m) && Open(g, st, p) && p !in st.place
    requires k in m && m[k] == v && OnRoute(g, k, p) && forall l :: l in m && OnRoute(g, l, p) ==> l == k
    requires Holds(g, child, k, v, |p|)
    requires var st' := Split(st, p, RefOf(st, p), child); Sized(g, st') && Open(g, st', q)
    ensures var st' := Split(st, p, RefOf(st, p), child); Fits(g, st', m, q, EntryAt(g, st', q))
  {
    var st' := Split(st, p, RefOf(st, p), child);
    SplitEntryAt(g, st, p, child, q);
    if q == p {
    } else if |q| == |p| + 1 && Parent(q) == p {
      assert Anchored(g, st, q);
      ChildFits(g, st', m, p, q, k, v);
    } else {
      assert Fits(g, st, m, q, EntryAt(g, st, q));
    }
  }

  lemma SplitRepresents<V>(g: Geometry, st: Store<V>, m: map<Key, V>, p: seq<nat>, child: seq<Entry<V>>, k: Key, v: V)
    requires Represents(g, st, m) && Open(g, st, p) && EntryAt(g, st, p) == Item(k, v)
    requires Holds(g, child, k, v, |p|)
    ensures var st' := Split(st, p, RefOf(st, p), child);
      Represents(g, st', m) && Open(g, st', p)
      && EntryAt(g, st', p) == Node(|st.nodes|) && RefOf(st', p) == RefOf(st, p)
  {
    var st' := Split(st, p, RefOf(st, p), child);
    assert Fits(g, st, m, p, Item(k, v));
    SplitPlaced(g, st, p, child);
    SplitEntryAt(g, st, p, child, p);
    forall q | Open(g, st', q) ensures Fits(g, st', m, q, EntryAt(g, st', q)) {
      SplitFits(g, st, m, p, child, k, v, q);
    }
  }

  lemma ChildFits<V>(g: Geometry, st: Store<V>, m: map<Key, V>, p: seq<nat>, q: seq<nat>, k: Key, v: V)
    requires |p| >= 1 && |q| == |p| + 1 && Parent(q) == p && q !in st.place
    requires k in m && m[k] == v && OnRoute(g, k, p)
    requires forall l :: l in m && OnRoute(g, l, p) ==> l == k
    ensures Fits(g, st, m, q, if Last(q) == Slot(g, k, |p|) then Item(k, v) else Empty)
  {
    assert q == p + [Last(q)];
    RouteSnoc(g, k, |p|);
    assert OnRoute(g, k, q) <==> Last(q) == Slot(g, k, |p|);
    forall l | l in m && OnRoute(g, l, q) ensures l == k {
      RouteOfPrefix(g, l, q, |p|);
      assert q[..|p|] == p;
    }
  }
}
