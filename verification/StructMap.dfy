/** structmap_amt: the array-mapped trie under the object table, the methods of a
  * class and the fields of an instance. Its methods walk a moving entry pointer
  * and overwrite entries in place.
  */
module StructMap {
  import opened Options
  import opened Routes
  import opened Collisions
  import opened TrieShape

  const WORD_BITS: nat := 64

  /** (key >> shift) & ((1 << width) - 1) on a 64-bit word: the shift amount must
    * stay below the width of the word. */
  function ShiftMask(key: Key, shift: nat, width: nat): nat
    requires shift < WORD_BITS
  {
    LowBits(ShiftRight(key, shift), width)
  }

  lemma ShiftIsSlot(g: Geometry, key: Key, base: nat, i: nat)
    requires base == Base(g, i) && base < WORD_BITS
    ensures ShiftMask(key, base, Width(g, i)) == Slot(g, key, i) < Pow2(Width(g, i))
  {
  }

  /** MODIFICATION_MAX_NODES: ceil((64 - FIRSTLEVEL_BITS) / LEVEL_BITS). */
  function ModificationMaxNodes(g: Geometry): nat
  {
    if g.first >= WORD_BITS then 0
    else (WORD_BITS - g.first) / g.level + if (WORD_BITS - g.first) % g.level != 0 then 1 else 0
  }

  lemma MultipleIsFar(d: int, s: int)
    requires d >= 1 && s >= 1
    ensures d * s >= d
  {
    assert d * s == d + d * (s - 1);
  }

  lemma CeilingAbove(room: nat, d: nat, q: nat)
    requires d >= 1 && d * q < room
    ensures q < room / d + if room % d != 0 then 1 else 0
  {
    var s := q - room / d;
    assert room == d * (room / d) + room % d;
    assert d * q == d * (room / d) + d * s;
    if s >= 1 {
      MultipleIsFar(d, s);
    }
  }

  lemma DepthFits(g: Geometry, n: nat)
    requires n >= 1 && Base(g, n) < KEY_BITS
    ensures n <= ModificationMaxNodes(g)
  {
    BaseIsProduct(g, n);
    CeilingAbove(WORD_BITS - g.first, g.level, n - 1);
  }

  lemma {:induction false} BaseIsProduct(g: Geometry, n: nat)
    requires n >= 1
    ensures Base(g, n) == g.first + g.level * (n - 1)
  {
    if n > 1 {
      BaseIsProduct(g, n - 1);
      assert g.level * (n - 1) == g.level * (n - 2) + g.level;
    }
  }

  /** No insertion needs more nodes than are reserved for one modification. */
  lemma ModificationFits(g: Geometry, keys: set<Key>, k: Key)
    ensures |FreshNodes(g, keys, k)| <= ModificationMaxNodes(g)
  {
    FreshNodesAreSpine(g, keys, k);
    var d := Depth(g, keys + {k}, k);
    if d >= 1 {
      SharedIsShallow(g, keys + {k}, Route(g, k, d));
      DepthFits(g, d);
    }
  }

  /** Following a node entry one level down. */
  lemma Descend<V>(g: Geometry, st: Store<V>, m: map<Key, V>, k: nat, n: nat)
    requires Represents(g, st, m) && n >= 1
    requires Open(g, st, Route(g, k, n)) && Route(g, k, n) in st.place
    ensures EntryAt(g, st, Route(g, k, n)) == Node(st.place[Route(g, k, n)])
    ensures Open(g, st, Route(g, k, n + 1))
    ensures st.place[Route(g, k, n)] < |st.nodes| && Slot(g, k, n) < |st.nodes[st.place[Route(g, k, n)]]|
    ensures EntryAt(g, st, Route(g, k, n + 1)) == st.nodes[st.place[Route(g, k, n)]][Slot(g, k, n)]
    ensures RefOf(st, Route(g, k, n + 1)) == Nested(st.place[Route(g, k, n)], Slot(g, k, n))
  {
    hide Slot, NodeSet;
    var p := Route(g, k, n);
    assert Fits(g, st, m, p, EntryAt(g, st, p));
    RouteSnoc(g, k, n);
    RouteIsGood(g, k, n + 1);
    assert Parent(Route(g, k, n + 1)) == p;
  }

  lemma NodeIsPlaced<V>(g: Geometry, st: Store<V>, m: map<Key, V>, p: seq<nat>)
    requires Represents(g, st, m) && Open(g, st, p)
    ensures EntryAt(g, st, p).Node? ==> p in st.place && EntryAt(g, st, p) == Node(st.place[p])
    ensures EntryAt(g, st, p).Item? ==> p !in st.place && Fits(g, st, m, p, EntryAt(g, st, p))
    ensures EntryAt(g, st, p).Empty? ==> p !in st.place && Fits(g, st, m, p, EntryAt(g, st, p))
  {
    hide Slot, NodeSet, Route;
    assert Fits(g, st, m, p, EntryAt(g, st, p));
  }

  lemma StartOfRoute<V>(g: Geometry, st: Store<V>, k: nat)
    requires Sized(g, st)
    ensures Open(g, st, Route(g, k, 1))
    ensures EntryAt(g, st, Route(g, k, 1)) == st.entries[Slot(g, k, 0)]
    ensures RefOf(st, Route(g, k, 1)) == First(Slot(g, k, 0))
  {
    hide NodeSet;
    RouteIsGood(g, k, 1);
  }

  /** A position shared by two keys is above the last bits of a key. */
  lemma SharedIsShallow(g: Geometry, keys: set<Key>, p: seq<nat>)
    requires p in NodeSet(g, keys)
    ensures Base(g, |p|) < KEY_BITS && |p| < MAX_DEPTH
  {
    NodeSetIs(g, keys);
    var x, y :| x in keys && y in keys && x != y && OnRoute(g, x, p) && OnRoute(g, y, p);
    RouteAgree(g, x, y, |p|);
    Separation(g, x, y, |p|);
  }

  /** node_count() is a function of the stored keys alone. */
  lemma CountOfKeys<V>(g: Geometry, st: Store<V>, m: map<Key, V>)
    requires Canonical(g, st, m)
    ensures |st.nodes| == NodeCount(g, m.Keys)
  {
    hide Represents, NodeSet;
    assert |st.place| == |st.place.Keys|;
  }

  // ---------------------------------------------------------------------------
  // A lookup under way

  /** `entry` is the entry at depth n of k's route. */
  ghost predicate Reading<V>(g: Geometry, st: Store<V>, m: map<Key, V>, k: Key, n: nat, entry: Entry<V>)
  {
    && n >= 1
    && Canonical(g, st, m)
    && Open(g, st, Route(g, k, n))
    && entry == EntryAt(g, st, Route(g, k, n))
  }

  lemma ReadStart<V>(g: Geometry, st: Store<V>, m: map<Key, V>, k: Key)
    requires Canonical(g, st, m)
    ensures Slot(g, k, 0) < |st.entries|
    ensures Reading(g, st, m, k, 1, st.entries[Slot(g, k, 0)])
  {
    StartOfRoute(g, st, k);
  }

  lemma ReadDown<V>(g: Geometry, st: Store<V>, m: map<Key, V>, k: Key, n: nat, entry: Entry<V>)
    requires Reading(g, st, m, k, n, entry) && entry.Node?
    ensures Base(g, n) < KEY_BITS && n < MAX_DEPTH
    ensures entry.offset < |st.nodes| && Slot(g, k, n) < |st.nodes[entry.offset]|
    ensures Reading(g, st, m, k, n + 1, st.nodes[entry.offset][Slot(g, k, n)])
  {
    hide Slot, NodeSet, Route, Represents;
    NodeIsPlaced(g, st, m, Route(g, k, n));
    SharedIsShallow(g, m.Keys, Route(g, k, n));
    Descend(g, st, m, k, n);
  }

  lemma ReadEnd<V>(g: Geometry, st: Store<V>, m: map<Key, V>, k: Key, n: nat, entry: Entry<V>)
    requires Reading(g, st, m, k, n, entry) && !entry.Node?
    ensures entry.Item? && entry.key == k ==> k in m && m[k] == entry.value
    ensures entry.Empty? || entry.key != k ==> k !in m
  {
    hide Slot, NodeSet, Represents;
    NodeIsPlaced(g, st, m, Route(g, k, n));
    assert OnRoute(g, k, Route(g, k, n));
  }

  /** Where no other key sits at the end of k's route, k needs no new node. */
  lemma NothingFresh<V>(g: Geometry, st: Store<V>, m: map<Key, V>, k: Key, n: nat, entry: Entry<V>)
    requires Reading(g, st, m, k, n, entry) && (entry.Empty? || (entry.Item? && entry.key == k))
    ensures FreshNodes(g, m.Keys, k) == {}
  {
    hide Slot, NodeSet, Represents, Route;
    NodeIsPlaced(g, st, m, Route(g, k, n));
    if k in m {
      assert m.Keys + {k} == m.Keys;
    } else {
      RouteAbovePlaced(g, st, m, k, n);
      assert forall z :: z in m ==> !OnRoute(g, z, Route(g, k, n));
      forall q | q in FreshNodes(g, m.Keys, k) ensures false {
        FreshIsDeep(g, m, k, n, q);
      }
    }
  }

  lemma FreshIsDeep<V>(g: Geometry, m: map<Key, V>, k: Key, n: nat, q: seq<nat>)
    requires q in FreshNodes(g, m.Keys, k)
    requires forall i :: 1 <= i < n ==> Route(g, k, i) in NodeSet(g, m.Keys)
    ensures exists z :: z in m && OnRoute(g, z, Route(g, k, n))
  {
    hide Slot, NodeSet, Route;
    FreshNodesOnRoute(g, m.Keys, k, q);
    assert Route(g, k, |q|) == q;
    Companion(g, m, k, q, n);
  }

  lemma RouteAbovePlaced<V>(g: Geometry, st: Store<V>, m: map<Key, V>, k: Key, n: nat)
    requires Canonical(g, st, m) && Open(g, st, Route(g, k, n)) && n >= 1
    ensures forall i :: 1 <= i < n ==> Route(g, k, i) in NodeSet(g, m.Keys)
  {
    hide Slot, NodeSet;
    forall i | 1 <= i < n ensures Route(g, k, i) in NodeSet(g, m.Keys) {
      PrefixIsPlaced(g, st, Route(g, k, n), i);
      RoutePrefix(g, k, i, n);
    }
  }

  /** A node that k would create is shared with a stored key. */
  lemma Companion<V>(g: Geometry, m: map<Key, V>, k: Key, q: seq<nat>, n: nat)
    requires q in NodeSet(g, m.Keys + {k}) && OnRoute(g, k, q) && n <= |q|
    ensures exists z :: z in m && z != k && OnRoute(g, z, q) && OnRoute(g, z, Route(g, k, n))
  {
    hide Slot;
    NodeSetIs(g, m.Keys + {k});
    var x, y :| x in m.Keys + {k} && y in m.Keys + {k} && x != y && OnRoute(g, x, q) && OnRoute(g, y, q);
    var z := if x == k then y else x;
    RouteOfPrefix(g, z, q, n);
    RoutePrefix(g, k, n, |q|);
    assert z in m && z != k && OnRoute(g, z, q) && OnRoute(g, z, Route(g, k, n));
  }

  lemma ItemAgrees<V>(g: Geometry, st: Store<V>, m: map<Key, V>, k: Key, n: nat, entry: Entry<V>)
    requires Reading(g, st, m, k, n, entry) && entry.Item?
    ensures Agree(g, k, entry.key, n)
  {
    hide Slot, NodeSet, Represents;
    NodeIsPlaced(g, st, m, Route(g, k, n));
    RouteAgree(g, k, entry.key, n);
  }

  /** A colliding key creates one node per further slot on which the keys agree. */
  lemma FreshRun<V>(g: Geometry, st: Store<V>, m: map<Key, V>, k: Key, n: nat, entry: Entry<V>, depth: nat)
    requires Reading(g, st, m, k, n, entry) && entry.Item? && entry.key != k
    requires n <= depth && Agree(g, k, entry.key, depth) && Slot(g, k, depth) != Slot(g, entry.key, depth)
    ensures |FreshNodes(g, m.Keys, k)| == depth - n + 1
  {
    hide Slot, NodeSet, Represents, Route;
    NodeIsPlaced(g, st, m, Route(g, k, n));
    RouteAbovePlaced(g, st, m, k, n);
    FreshNodesAreSpine(g, m.Keys, k);
    DepthCharacterises(g, m.Keys, k, n);
    DepthCharacterises(g, m.Keys, k, n - 1);
    RouteAgree(g, k, entry.key, depth);
    Collides(g, m, k, depth, entry.key);
    DepthCharacterises(g, m.Keys + {k}, k, depth);
    DepthCharacterises(g, m.Keys + {k}, k, depth + 1);
    if Route(g, k, depth + 1) in NodeSet(g, m.Keys + {k}) {
      Companion(g, m, k, Route(g, k, depth + 1), n);
      RouteAgree(g, k, entry.key, depth + 1);
    }
  }

  // ---------------------------------------------------------------------------
  // A traversal under way

  /** The sequence lists every pair of the map exactly once. */
  ghost predicate Enumerates<V>(s: seq<(Key, V)>, m: map<Key, V>)
  {
    && (forall i :: 0 <= i < |s| ==> s[i].0 in m && m[s[i].0] == s[i].1)
    && (forall i, j :: 0 <= i < j < |s| ==> s[i].0 != s[j].0)
    && (forall k :: k in m ==> exists i :: 0 <= i < |s| && s[i].0 == k)
  }

  /** The pairs whose keys pass position p. */
  ghost function Under<V>(g: Geometry, m: map<Key, V>, p: seq<nat>): map<Key, V>
  {
    map k | k in m && OnRoute(g, k, p) :: m[k]
  }

  /** Those of them that take one of the first i slots below p. */
  ghost function UpTo<V>(g: Geometry, m: map<Key, V>, p: seq<nat>, i: nat): map<Key, V>
  {
    map k | k in m && OnRoute(g, k, p) && Slot(g, k, |p|) < i :: m[k]
  }

  lemma NothingYet<V>(g: Geometry, m: map<Key, V>, p: seq<nat>)
    ensures UpTo(g, m, p, 0) == map[]
  {
  }

  lemma EverythingBelow<V>(g: Geometry, m: map<Key, V>, p: seq<nat>, i: nat)
    requires i == Pow2(Width(g, |p|))
    ensures UpTo(g, m, p, i) == Under(g, m, p)
    ensures p == [] ==> Under(g, m, p) == m
  {
    forall k | k in m ensures p == [] ==> OnRoute(g, k, p) {
      assert Route(g, k, 0) == [];
    }
  }

  lemma OneBelow<V>(g: Geometry, m: map<Key, V>, p: seq<nat>, key: Key)
    requires key in m && OnRoute(g, key, p) && forall k :: k in m && OnRoute(g, k, p) ==> k == key
    ensures Enumerates([(key, m[key])], Under(g, m, p))
  {
    hide Route;
    var s := [(key, m[key])];
    assert s[0].0 == key;
    assert forall k :: k in Under(g, m, p) ==> s[0].0 == k;
  }

  lemma {:induction false} AppendEnumerations<V>(s: seq<(Key, V)>, t: seq<(Key, V)>, m: map<Key, V>, l: map<Key, V>)
    requires Enumerates(s, m) && Enumerates(t, l) && m.Keys !! l.Keys
    ensures Enumerates(s + t, m + l)
  {
    var u := s + t;
    forall i, j | 0 <= i < j < |u| ensures u[i].0 != u[j].0 {
      if i < |s| <= j {
        assert u[i].0 in m && u[j].0 == t[j - |s|].0 && t[j - |s|].0 in l;
      } else if i >= |s| {
        assert t[i - |s|].0 != t[j - |s|].0;
      }
    }
    forall k | k in m + l ensures exists i :: 0 <= i < |u| && u[i].0 == k {
      if k in m {
        var i :| 0 <= i < |s| && s[i].0 == k;
        assert u[i].0 == k;
      } else {
        var i :| 0 <= i < |t| && t[i].0 == k;
        assert u[|s| + i].0 == k;
      }
    }
  }

  lemma AppendNext<V>(g: Geometry, m: map<Key, V>, p: seq<nat>, i: nat, s: seq<(Key, V)>, t: seq<(Key, V)>)
    requires Enumerates(s, UpTo(g, m, p, i)) && Enumerates(t, Under(g, m, p + [i]))
    ensures Enumerates(s + t, UpTo(g, m, p, i + 1))
  {
    forall k | k in m ensures OnRoute(g, k, p + [i]) <==> OnRoute(g, k, p) && Slot(g, k, |p|) == i {
      RouteSnoc(g, k, |p|);
      if OnRoute(g, k, p + [i]) {
        RouteOfPrefix(g, k, p + [i], |p|);
        assert (p + [i])[..|p|] == p;
      }
    }
    AppendEnumerations(s, t, UpTo(g, m, p, i), Under(g, m, p + [i]));
    assert UpTo(g, m, p, i) + Under(g, m, p + [i]) == UpTo(g, m, p, i + 1);
  }

  lemma RootOpen<V>(g: Geometry, st: Store<V>, m: map<Key, V>)
    requires Canonical(g, st, m)
    ensures |st.entries| == Pow2(Width(g, 0))
  {
  }

  lemma RootEntry<V>(g: Geometry, st: Store<V>, m: map<Key, V>, i: nat)
    requires Canonical(g, st, m) && i < |st.entries|
    ensures Open(g, st, [i]) && EntryAt(g, st, [i]) == st.entries[i]
    ensures [] + [i] == [i]
  {
  }

  lemma NodeWidth<V>(g: Geometry, st: Store<V>, m: map<Key, V>, p: seq<nat>)
    requires Canonical(g, st, m) && p in st.place && |p| >= 1
    ensures st.place[p] < |st.nodes| && |st.nodes[st.place[p]]| == Pow2(Width(g, |p|))
  {
  }

  lemma ChildOpen<V>(g: Geometry, st: Store<V>, m: map<Key, V>, p: seq<nat>, i: nat)
    requires Canonical(g, st, m) && Open(g, st, p) && p in st.place
    requires st.place[p] < |st.nodes| && i < |st.nodes[st.place[p]]|
    ensures Open(g, st, p + [i]) && EntryAt(g, st, p + [i]) == st.nodes[st.place[p]][i]
  {
    hide NodeSet;
    assert Parent(p + [i]) == p;
  }

  // ---------------------------------------------------------------------------
  // An insertion under way

  /** While k is on its way in: the canonical nodes for the old keys are there, and
    * those of k's own route above depth n; no other. */
  ghost predicate Pending<V>(g: Geometry, st: Store<V>, keys: set<Key>, k: Key, n: nat)
  {
    && NodeSet(g, keys) <= st.place.Keys <= NodeSet(g, keys + {k})
    && (forall i :: 1 <= i < n ==> Route(g, k, i) in st.place)
    && |st.nodes| == |st.place|
  }

  /** The entry pointer `at` stands at depth n of k's route and reads `entry`. */
  ghost predicate Walking<V>(g: Geometry, st: Store<V>, m: map<Key, V>, k: Key, n: nat, at: EntryRef, entry: Entry<V>)
  {
    && n >= 1
    && Represents(g, st, m)
    && Pending(g, st, m.Keys, k, n)
    && Open(g, st, Route(g, k, n))
    && at == RefOf(st, Route(g, k, n))
    && entry == EntryAt(g, st, Route(g, k, n))
  }

  lemma WalkStart<V>(g: Geometry, st: Store<V>, m: map<Key, V>, k: Key)
    requires Canonical(g, st, m)
    ensures Slot(g, k, 0) < |st.entries|
    ensures Walking(g, st, m, k, 1, First(Slot(g, k, 0)), st.entries[Slot(g, k, 0)])
  {
    hide Slot, NodeSet;
    StartOfRoute(g, st, k);
    NodeSetMonotone(g, m.Keys, m.Keys + {k});
  }

  lemma WalkInBounds<V>(g: Geometry, st: Store<V>, m: map<Key, V>, k: Key, n: nat, at: EntryRef, entry: Entry<V>)
    requires Walking(g, st, m, k, n, at, entry)
    ensures match at
      case First(slot) => slot < |st.entries|
      case Nested(offset, slot) => offset < |st.nodes| && slot < |st.nodes[offset]|
  {
    hide Slot, NodeSet;
  }

  /** An occupied entry keeps the walk above the last bits of a key. */
  lemma WalkShallow<V>(g: Geometry, st: Store<V>, m: map<Key, V>, k: Key, n: nat, at: EntryRef, entry: Entry<V>)
    requires Walking(g, st, m, k, n, at, entry)
    requires entry.Node? || (entry.Item? && entry.key != k)
    ensures Base(g, n) < KEY_BITS && n < MAX_DEPTH
  {
    hide Slot, NodeSet;
    var p := Route(g, k, n);
    assert Fits(g, st, m, p, entry);
    if entry.Item? {
      Collides(g, m, k, n, entry.key);
    }
    SharedIsShallow(g, m.Keys + {k}, p);
  }

  lemma WalkDown<V>(g: Geometry, st: Store<V>, m: map<Key, V>, k: Key, n: nat, at: EntryRef, entry: Entry<V>)
    requires Walking(g, st, m, k, n, at, entry) && entry.Node?
    ensures entry.offset < |st.nodes| && Slot(g, k, n) < |st.nodes[entry.offset]|
    ensures Walking(g, st, m, k, n + 1, Nested(entry.offset, Slot(g, k, n)), st.nodes[entry.offset][Slot(g, k, n)])
  {
    hide Slot, NodeSet, Route, Represents, OnRoute, Fits, RefOf;
    NodeIsPlaced(g, st, m, Route(g, k, n));
    Descend(g, st, m, k, n);
  }

  /** A collision: the item moves into a new child node, which takes its place. */
  lemma WalkSplit<V>(g: Geometry, st: Store<V>, m: map<Key, V>, k: Key, n: nat, at: EntryRef, entry: Entry<V>, child: seq<Entry<V>>)
    requires Walking(g, st, m, k, n, at, entry) && entry.Item? && entry.key != k
    requires Holds(g, child, entry.key, entry.value, n)
    ensures match at
      case First(slot) => slot < |st.entries|
      case Nested(offset, slot) => offset < |st.nodes| && slot < |st.nodes[offset]|
    ensures Walking(g, Split(st, Route(g, k, n), at, child), m, k, n, at, Node(|st.nodes|))
  {
    hide Slot, NodeSet, Represents, OnRoute;
    var p := Route(g, k, n);
    NodeIsPlaced(g, st, m, p);
    WalkInBounds(g, st, m, k, n, at, entry);
    SplitRepresents(g, st, m, p, child, entry.key, entry.value);
    PendingSplit(g, st, m, k, n, at, entry, child);
  }

  lemma PendingSplit<V>(g: Geometry, st: Store<V>, m: map<Key, V>, k: Key, n: nat, at: EntryRef, entry: Entry<V>, child: seq<Entry<V>>)
    requires Walking(g, st, m, k, n, at, entry) && entry.Item? && entry.key != k
    ensures Pending(g, Split(st, Route(g, k, n), at, child), m.Keys, k, n)
  {
    hide Slot, NodeSet, Route, Represents;
    var p := Route(g, k, n);
    NodeIsPlaced(g, st, m, p);
    WalkInBounds(g, st, m, k, n, at, entry);
    Collides(g, m, k, n, entry.key);
    assert Split(st, p, at, child).place.Keys == st.place.Keys + {p};
  }

  /** The end of the walk: storing the pair makes the layout canonical again. */
  lemma WalkEnd<V>(g: Geometry, st: Store<V>, m: map<Key, V>, k: Key, v: V, n: nat, at: EntryRef, entry: Entry<V>)
    requires Walking(g, st, m, k, n, at, entry)
    requires entry.Empty? || (entry.Item? && entry.key == k)
    ensures match at
      case First(slot) => slot < |st.entries|
      case Nested(offset, slot) => offset < |st.nodes| && slot < |st.nodes[offset]|
    ensures Canonical(g, Overwrite(st, at, Item(k, v)), m[k := v])
  {
    hide Slot, NodeSet, Route, Represents;
    var p := Route(g, k, n);
    NodeIsPlaced(g, st, m, p);
    WalkInBounds(g, st, m, k, n, at, entry);
    PendingDone(g, st, m, k, n);
    StoreItem(g, st, m, k, v, p);
    assert m[k := v].Keys == m.Keys + {k};
  }

  lemma Collides<V>(g: Geometry, m: map<Key, V>, k: Key, n: nat, l: Key)
    requires n >= 1 && l in m && l != k && OnRoute(g, l, Route(g, k, n))
    ensures Route(g, k, n) in NodeSet(g, m.Keys + {k})
  {
    NodeSetIs(g, m.Keys + {k});
    assert k in m.Keys + {k} && l in m.Keys + {k} && OnRoute(g, k, Route(g, k, n));
  }

  lemma PendingDone<V>(g: Geometry, st: Store<V>, m: map<Key, V>, k: Key, n: nat)
    requires n >= 1 && Pending(g, st, m.Keys, k, n)
    requires forall l :: l in m && OnRoute(g, l, Route(g, k, n)) ==> l == k
    ensures st.place.Keys == NodeSet(g, m.Keys + {k})
  {
    NodeSetIs(g, m.Keys);
    NodeSetIs(g, m.Keys + {k});
    forall q | q in NodeSet(g, m.Keys + {k}) ensures q in st.place {
      if q !in NodeSet(g, m.Keys) {
        FreshNodesOnRoute(g, m.Keys, k, q);
        if |q| >= n {
          var x, y :| x in m.Keys + {k} && y in m.Keys + {k} && x != y && OnRoute(g, x, q) && OnRoute(g, y, q);
          var z := if x == k then y else x;
          RouteOfPrefix(g, z, q, n);
          RoutePrefix(g, k, n, |q|);
          assert false;
        }
      }
    }
  }

  class Amt<V> {
    const g: Geometry
    const sizeofValue: V -> nat
    var entries: seq<Entry<V>>
    var nodes: seq<seq<Entry<V>>>
    var nodeCount: nat
    var externalSize: nat
    ghost var place: map<seq<nat>, nat>
    ghost var content: map<Key, V>

    ghost function Memory(): Store<V>
      reads this
    {
      Store(entries, nodes, place)
    }

    ghost predicate Valid()
      reads this
    {
      && Canonical(g, Memory(), content)
      && nodeCount == |nodes|
      && forall k :: k in content ==> k > 0
    }

    constructor (g: Geometry, sizeofValue: V -> nat)
      ensures Valid() && content == map[] && this.g == g && this.sizeofValue == sizeofValue
      ensures nodeCount == 0 && externalSize == 0
    {
      this.g := g;
      this.sizeofValue := sizeofValue;
      this.entries := seq(Pow2(g.first), i => Empty);
      this.nodes := [];
      this.nodeCount, this.externalSize := 0, 0;
      this.place, this.content := map[], map[];
      new;
      assert content.Keys == {};
      assert NodeSet(g, content.Keys) == {};
    }

    method Lookup(key: Key) returns (r: Option<V>)
      requires Valid()
      ensures r == if key in content then Some(content[key]) else None
    {
      hide Canonical, Represents, NodeSet, Slot, ShiftMask, Route;
      ghost var n, st := 1, Memory();
      ShiftIsSlot(g, key, 0, 0);
      ReadStart(g, st, content, key);
      var entry := entries[ShiftMask(key, 0, g.first)];
      if entry.Item? && entry.key == key {
        ReadEnd(g, st, content, key, n, entry);
        return Some(entry.value);
      }
      var base := g.first;
      while entry.Node?
        invariant n >= 1 && base == Base(g, n)
        invariant Reading(g, st, content, key, n, entry)
        decreases MAX_DEPTH - n
      {
        ReadDown(g, st, content, key, n, entry);
        BaseStep(g, n);
        ShiftIsSlot(g, key, base, n);
        entry := nodes[entry.offset][ShiftMask(key, base, g.level)];
        base := base + g.level;
        n := n + 1;
      }
      ReadEnd(g, st, content, key, n, entry);
      if entry.Item? && entry.key == key {
        return Some(entry.value);
      }
      return None;
    }

    method ContainsKey(key: Key) returns (found: bool)
      requires Valid()
      ensures found <==> key in content
    {
      var r := Lookup(key);
      return r.Some?;
    }

    /** How many nodes an insertion of the key would create. */
    method WouldCollideNodeCount(key: Key) returns (count: nat)
      requires Valid()
      ensures count == |FreshNodes(g, content.Keys, key)|
      ensures count <= ModificationMaxNodes(g)
    {
      hide Canonical, Represents, NodeSet, Slot, ShiftMask, Route;
      ShiftIsSlot(g, key, 0, 0);
      ReadStart(g, Memory(), content, key);
      var entry := entries[ShiftMask(key, 0, g.first)];
      ModificationFits(g, content.Keys, key);
      if entry.Empty? || (entry.Item? && entry.key == key) {
        NothingFresh(g, Memory(), content, key, 1, entry);
        return 0;
      }
      count := WouldCollideSlowpath(key);
    }

    method WouldCollideSlowpath(key: Key) returns (count: nat)
      requires Valid()
      ensures count == |FreshNodes(g, content.Keys, key)|
    {
      hide Canonical, Represents, NodeSet, Slot, ShiftMask, Route;
      ghost var n, st := 1, Memory();
      ShiftIsSlot(g, key, 0, 0);
      ReadStart(g, st, content, key);
      var entry := entries[ShiftMask(key, 0, g.first)];
      var base := g.first;
      while entry.Node?
        invariant n >= 1 && base == Base(g, n)
        invariant Reading(g, st, content, key, n, entry)
        decreases MAX_DEPTH - n
      {
        ReadDown(g, st, content, key, n, entry);
        BaseStep(g, n);
        ShiftIsSlot(g, key, base, n);
        entry := nodes[entry.offset][ShiftMask(key, base, g.level)];
        base := base + g.level;
        n := n + 1;
      }
      if entry.Empty? || entry.key == key {
        NothingFresh(g, st, content, key, n, entry);
        return 0;
      }
      ghost var depth := n;
      ItemAgrees(g, st, content, key, n, entry);
      Separation(g, key, entry.key, depth);
      ShiftIsSlot(g, key, base, depth);
      ShiftIsSlot(g, entry.key, base, depth);
      count := 1;
      var existingSlot := ShiftMask(entry.key, base, g.level);
      var keySlot := ShiftMask(key, base, g.level);
      while keySlot == existingSlot
        invariant depth >= n && count == depth - n + 1
        invariant base == Base(g, depth) && Agree(g, key, entry.key, depth) && depth < MAX_DEPTH
        invariant keySlot == Slot(g, key, depth) && existingSlot == Slot(g, entry.key, depth)
        decreases MAX_DEPTH - depth
      {
        BaseStep(g, depth);
        base := base + g.level;
        count := count + 1;
        depth := depth + 1;
        Separation(g, key, entry.key, depth);
        ShiftIsSlot(g, key, base, depth);
        ShiftIsSlot(g, entry.key, base, depth);
        existingSlot := ShiftMask(entry.key, base, g.level);
        keySlot := ShiftMask(key, base, g.level);
      }
      FreshRun(g, st, content, key, n, entry, depth);
    }

    /** Visits every stored pair once: the calls of the callback, in order. */
    method Traverse() returns (visited: seq<(Key, V)>)
      requires Valid()
      ensures Enumerates(visited, content)
    {
      hide Canonical, Represents, NodeSet, Slot, Route;
      visited := [];
      NothingYet(g, content, []);
      ghost var st := Memory();
      RootOpen(g, st, content);
      for i := 0 to |entries|
        invariant Enumerates(visited, UpTo(g, content, [], i))
      {
        RootEntry(g, st, content, i);
        var entry := entries[i];
        var below := TraverseEntry(entry, [i]);
        AppendNext(g, content, [], i, visited, below);
        visited := visited + below;
      }
      EverythingBelow(g, content, [], |entries|);
    }

    method TraverseEntry(entry: Entry<V>, ghost p: seq<nat>) returns (visited: seq<(Key, V)>)
      requires Valid() && Open(g, Memory(), p) && entry == EntryAt(g, Memory(), p)
      ensures Enumerates(visited, Under(g, content, p))
      decreases MAX_DEPTH - |p|, 1
    {
      hide Represents, NodeSet, Slot, Route;
      NodeIsPlaced(g, Memory(), content, p);
      match entry
      case Node(offset) =>
        SharedIsShallow(g, content.Keys, p);
        NodeWidth(g, Memory(), content, p);
        visited := TraverseNode(offset, p);
      case Empty =>
        visited := [];
      case Item(key, value) =>
        visited := [(key, value)];
        OneBelow(g, content, p, key);
    }

    method TraverseNode(offset: nat, ghost p: seq<nat>) returns (visited: seq<(Key, V)>)
      requires Valid() && p in place && place[p] == offset && Open(g, Memory(), p)
      requires offset < |nodes| && |p| < MAX_DEPTH
      ensures Enumerates(visited, Under(g, content, p))
      decreases MAX_DEPTH - |p|, 0
    {
      hide Canonical, Represents, NodeSet, Slot, Route;
      visited := [];
      NothingYet(g, content, p);
      ghost var st := Memory();
      NodeWidth(g, st, content, p);
      for i := 0 to |nodes[offset]|
        invariant Enumerates(visited, UpTo(g, content, p, i))
      {
        ChildOpen(g, st, content, p, i);
        var entry := nodes[offset][i];
        var below := TraverseEntry(entry, p + [i]);
        AppendNext(g, content, p, i, visited, below);
        visited := visited + below;
      }
      EverythingBelow(g, content, p, |nodes[offset]|);
    }

    /** node_alloc: a new node full of empty entries. */
    method NodeAlloc() returns (offset: nat)
      modifies this`nodes, this`nodeCount
      ensures offset == |old(nodes)|
      ensures nodes == old(nodes) + [seq(Pow2(g.level), i => Empty)]
      ensures nodeCount == old(nodeCount) + 1
    {
      offset := |nodes|;
      nodes := nodes + [seq(Pow2(g.level), i => Empty)];
      nodeCount := nodeCount + 1;
    }

    method Write(r: EntryRef, e: Entry<V>)
      requires match r
        case First(slot) => slot < |entries|
        case Nested(offset, slot) => offset < |nodes| && slot < |nodes[offset]|
      modifies this`entries, this`nodes
      ensures Memory() == Overwrite(old(Memory()), r, e)
    {
      match r
      case First(slot) => entries := entries[slot := e];
      case Nested(offset, slot) => nodes := nodes[offset := nodes[offset][slot := e]];
    }

    method Insert(key: Key, value: V)
      requires Valid() && key > 0
      modifies this
      ensures Valid()
      ensures content == old(content)[key := value]
      ensures nodeCount == old(nodeCount) + |FreshNodes(g, old(content.Keys), key)|
      ensures nodeCount - old(nodeCount) <= ModificationMaxNodes(g)
      ensures externalSize == old(externalSize) + sizeofValue(value)
    {
      hide Walking, Canonical, Represents, NodeSet, Slot, ShiftMask, Route;
      ghost var m, st := content, Memory();
      CountOfKeys(g, st, m);
      var at := First(ShiftMask(key, 0, g.first));
      ShiftIsSlot(g, key, 0, 0);
      WalkStart(g, st, m, key);
      var entry := entries[at.slot];
      var base := g.first;
      ghost var n := 1;
      while !entry.Empty? && !(entry.Item? && entry.key == key)
        invariant n >= 1 && base == Base(g, n) && st == Memory()
        invariant Walking(g, st, m, key, n, at, entry)
        invariant nodeCount == |nodes| && externalSize == old(externalSize) && content == m
        decreases MAX_DEPTH - n
      {
        WalkShallow(g, st, m, key, n, at, entry);
        if entry.Item? {
          ghost var child := PushDown(at, entry, base, st, m, key, n);
          place := place[Route(g, key, n) := |st.nodes|];
          WalkSplit(g, st, m, key, n, at, entry, child);
          st := Split(st, Route(g, key, n), at, child);
          entry := Node(|nodes| - 1);
        }
        WalkDown(g, st, m, key, n, at, entry);
        BaseStep(g, n);
        ShiftIsSlot(g, key, base, n);
        at := Nested(entry.offset, ShiftMask(key, base, g.level));
        entry := nodes[at.offset][at.slot];
        base := base + g.level;
        n := n + 1;
      }
      WalkEnd(g, st, m, key, value, n, at, entry);
      externalSize := externalSize + sizeofValue(value);
      Write(at, Item(key, value));
      content := m[key := value];
      CountOfKeys(g, Memory(), content);
      ModificationFits(g, m.Keys, key);
      FreshNodeCount(g, m.Keys, key);
      assert content.Keys == m.Keys + {key};
    }

    /** Allocates the child node of a collision, copies the item into it and makes
      * the entry point to it. */
    method PushDown(at: EntryRef, item: Entry<V>, base: nat, ghost st: Store<V>, ghost m: map<Key, V>, ghost key: Key, ghost n: nat)
      returns (ghost child: seq<Entry<V>>)
      requires st == Memory() && Walking(g, st, m, key, n, at, item) && item.Item?
      requires n >= 1 && base == Base(g, n) && base < WORD_BITS
      modifies this`entries, this`nodes, this`nodeCount
      ensures Holds(g, child, item.key, item.value, n)
      ensures match at
        case First(slot) => slot < |st.entries|
        case Nested(offset, slot) => offset < |st.nodes| && slot < |st.nodes[offset]|
      ensures entries == Overwrite(st, at, Node(|st.nodes|)).entries
      ensures nodes == Overwrite(st, at, Node(|st.nodes|)).nodes + [child]
      ensures nodeCount == old(nodeCount) + 1
    {
      hide Walking, Canonical, Represents, NodeSet, Slot, ShiftMask, Route;
      ShiftIsSlot(g, item.key, base, n);
      WalkInBounds(g, st, m, key, n, at, item);
      var childOffset := NodeAlloc();
      var slot := ShiftMask(item.key, base, g.level);
      nodes := nodes[childOffset := nodes[childOffset][slot := Item(item.key, item.value)]];
      child := nodes[childOffset];
      Write(at, Node(childOffset));
    }
  }
}
