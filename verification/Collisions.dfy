/** How many nested nodes a structmap needs for a set of keys, what an insertion
  * adds to that number, and why the collector may reserve space for a merge of
  * layers from the layers' own node counts and the collisions noted on insertion.
  */
module Collisions {
  import opened FiniteSets
  import opened Routes

  ghost predicate OnRoute(g: Geometry, k: nat, p: seq<nat>)
  {
    Route(g, k, |p|) == p
  }

  /** Two different keys pass through position p. */
  ghost predicate Shared(g: Geometry, keys: set<Key>, p: seq<nat>)
  {
    exists k, l :: k in keys && l in keys && k != l && OnRoute(g, k, p) && OnRoute(g, l, p)
  }

  /** The positions that must hold a nested node: those shared by two keys. */
  ghost function NodeSet(g: Geometry, keys: set<Key>): set<seq<nat>>
  {
    var nodes := set k, n | k in keys && 1 <= n < MAX_DEPTH && Shared(g, keys, Route(g, k, n)) :: Route(g, k, n);
    nodes
  }

  lemma NodeSetIs(g: Geometry, keys: set<Key>)
    ensures forall p :: p in NodeSet(g, keys) <==> |p| >= 1 && Shared(g, keys, p)
  {
    forall p | |p| >= 1 && Shared(g, keys, p)
      ensures p in NodeSet(g, keys)
    {
      var k, l :| k in keys && l in keys && k != l && OnRoute(g, k, p) && OnRoute(g, l, p);
      RouteAgree(g, k, l, |p|);
      Separation(g, k, l, |p|);
      assert Route(g, k, |p|) == p;
    }
  }

  ghost function NodeCount(g: Geometry, keys: set<Key>): nat
  {
    |NodeSet(g, keys)|
  }

  /** The nodes an insertion of k creates. */
  ghost function FreshNodes(g: Geometry, keys: set<Key>, k: Key): set<seq<nat>>
  {
    NodeSet(g, keys + {k}) - NodeSet(g, keys)
  }

  lemma NodeSetMonotone(g: Geometry, s: set<Key>, t: set<Key>)
    requires s <= t
    ensures NodeSet(g, s) <= NodeSet(g, t)
  {
    NodeSetIs(g, s);
    NodeSetIs(g, t);
  }

  /** Dropping keys never needs more nodes. */
  lemma NodeCountMonotone(g: Geometry, s: set<Key>, t: set<Key>)
    requires s <= t
    ensures NodeCount(g, s) <= NodeCount(g, t)
  {
    NodeSetMonotone(g, s, t);
    SmallerSet(NodeSet(g, s), NodeSet(g, t));
  }

  lemma FreshPartition(g: Geometry, keys: set<Key>, k: Key)
    ensures NodeSet(g, keys) + FreshNodes(g, keys, k) == NodeSet(g, keys + {k})
    ensures NodeSet(g, keys) !! FreshNodes(g, keys, k)
  {
    NodeSetMonotone(g, keys, keys + {k});
  }

  lemma FreshNodeCount(g: Geometry, keys: set<Key>, k: Key)
    ensures |FreshNodes(g, keys, k)| == NodeCount(g, keys + {k}) - NodeCount(g, keys)
  {
    NodeSetMonotone(g, keys, keys + {k});
    SmallerSet(NodeSet(g, keys), NodeSet(g, keys + {k}));
  }

  lemma RouteOfPrefix(g: Geometry, k: nat, p: seq<nat>, n: nat)
    requires OnRoute(g, k, p) && n <= |p|
    ensures OnRoute(g, k, p[..n])
  {
    RoutePrefix(g, k, n, |p|);
  }

  lemma NodeSetPrefixClosed(g: Geometry, keys: set<Key>, p: seq<nat>, n: nat)
    requires p in NodeSet(g, keys) && 1 <= n <= |p|
    ensures p[..n] in NodeSet(g, keys)
  {
    NodeSetIs(g, keys);
    var k, l :| k in keys && l in keys && k != l && OnRoute(g, k, p) && OnRoute(g, l, p);
    RouteOfPrefix(g, k, p, n);
    RouteOfPrefix(g, l, p, n);
  }

  // ---------------------------------------------------------------------------
  // The nodes on the route of one key

  /** The positions of k's route at depths lo+1 up to hi. */
  ghost function Spine(g: Geometry, k: nat, lo: nat, hi: nat): set<seq<nat>>
  {
    set n | lo < n <= hi :: Route(g, k, n)
  }

  lemma {:induction false} SpineSize(g: Geometry, k: nat, lo: nat, hi: nat)
    requires lo <= hi
    ensures |Spine(g, k, lo, hi)| == hi - lo
  {
    if lo < hi {
      SpineSize(g, k, lo, hi - 1);
      var rest := Spine(g, k, lo, hi - 1);
      forall p | p in Spine(g, k, lo, hi) ensures p in rest + {Route(g, k, hi)} {
        var n :| lo < n <= hi && p == Route(g, k, n);
      }
      assert Route(g, k, hi) !in rest by {
        forall n | lo < n <= hi - 1 ensures Route(g, k, n) != Route(g, k, hi) {
          assert |Route(g, k, n)| != |Route(g, k, hi)|;
        }
      }
      assert Spine(g, k, lo, hi) == rest + {Route(g, k, hi)};
    } else {
      assert Spine(g, k, lo, hi) == {};
    }
  }

  /** How deep the nodes of `keys` reach along the route of k. */
  ghost function Reach(g: Geometry, keys: set<Key>, k: Key, bound: nat): (d: nat)
    ensures d <= bound
    ensures d > 0 ==> Route(g, k, d) in NodeSet(g, keys)
    ensures forall n :: d < n <= bound ==> Route(g, k, n) !in NodeSet(g, keys)
  {
    if bound == 0 || Route(g, k, bound) in NodeSet(g, keys) then bound
    else Reach(g, keys, k, bound - 1)
  }

  ghost function Depth(g: Geometry, keys: set<Key>, k: Key): nat
  {
    Reach(g, keys, k, MAX_DEPTH)
  }

  lemma DepthCharacterises(g: Geometry, keys: set<Key>, k: Key, n: nat)
    ensures Route(g, k, n) in NodeSet(g, keys) <==> 1 <= n <= Depth(g, keys, k)
  {
    NodeSetIs(g, keys);
    var d := Depth(g, keys, k);
    if 1 <= n <= d {
      NodeSetPrefixClosed(g, keys, Route(g, k, d), n);
      RoutePrefix(g, k, n, d);
    }
    if Route(g, k, n) in NodeSet(g, keys) {
      var p := Route(g, k, n);
      var x, y :| x in keys && y in keys && x != y && OnRoute(g, x, p) && OnRoute(g, y, p);
      RouteAgree(g, x, y, n);
      Separation(g, x, y, n);
    }
  }

  lemma FreshNodesOnRoute(g: Geometry, keys: set<Key>, k: Key, p: seq<nat>)
    requires p in FreshNodes(g, keys, k)
    ensures OnRoute(g, k, p) && |p| >= 1
  {
    NodeSetIs(g, keys);
    NodeSetIs(g, keys + {k});
    assert Shared(g, keys + {k}, p) && !Shared(g, keys, p);
  }

  lemma DepthGrows(g: Geometry, s: set<Key>, t: set<Key>, k: Key)
    requires s <= t
    ensures Depth(g, s, k) <= Depth(g, t, k)
  {
    NodeSetMonotone(g, s, t);
    var d := Depth(g, s, k);
    DepthCharacterises(g, s, k, d);
    DepthCharacterises(g, t, k, d);
  }

  /** An insertion creates a contiguous run of nodes along the key's own route. */
  lemma FreshNodesAreSpine(g: Geometry, keys: set<Key>, k: Key)
    ensures Depth(g, keys, k) <= Depth(g, keys + {k}, k)
    ensures FreshNodes(g, keys, k) == Spine(g, k, Depth(g, keys, k), Depth(g, keys + {k}, k))
    ensures |FreshNodes(g, keys, k)| == Depth(g, keys + {k}, k) - Depth(g, keys, k)
  {
    var lo, hi := Depth(g, keys, k), Depth(g, keys + {k}, k);
    DepthGrows(g, keys, keys + {k}, k);
    forall p ensures p in FreshNodes(g, keys, k) <==> p in Spine(g, k, lo, hi) {
      if p in FreshNodes(g, keys, k) {
        FreshNodesOnRoute(g, keys, k, p);
        DepthCharacterises(g, keys, k, |p|);
        DepthCharacterises(g, keys + {k}, k, |p|);
      }
      if p in Spine(g, k, lo, hi) {
        var n :| lo < n <= hi && p == Route(g, k, n);
        DepthCharacterises(g, keys, k, n);
        DepthCharacterises(g, keys + {k}, k, n);
      }
    }
    SpineSize(g, k, lo, hi);
  }

  // ---------------------------------------------------------------------------
  // Two layers under the mutable one

  /** Looking at layers b and c one by one finds at least as many collisions as a
    * look at their merged keys would. */
  lemma MaxCoversMergedLayers(g: Geometry, b: set<Key>, c: set<Key>, k: Key)
    ensures |FreshNodes(g, b + c, k)| <= |FreshNodes(g, b, k)| || |FreshNodes(g, b + c, k)| <= |FreshNodes(g, c, k)|
  {
    NodeSetIs(g, b + c);
    NodeSetIs(g, b + c + {k});
    var added := FreshNodes(g, b + c, k);
    FreshNodesAreSpine(g, b + c, k);
    var lo, hi := Depth(g, b + c, k), Depth(g, b + c + {k}, k);
    if lo < hi {
      var p := Route(g, k, hi);
      DepthCharacterises(g, b + c, k, hi);
      DepthCharacterises(g, b + c + {k}, k, hi);
      assert !Shared(g, b + c, p);
      var x, y :| x in b + c + {k} && y in b + c + {k} && x != y && OnRoute(g, x, p) && OnRoute(g, y, p);
      var u := if x == k then y else x;
      assert u in b + c && u != k && OnRoute(g, u, p);
      if u in b {
        SoleCompanion(g, b, b + c, k, u, lo, hi);
        SmallerSet(added, FreshNodes(g, b, k));
      } else {
        SoleCompanion(g, c, b + c, k, u, lo, hi);
        SmallerSet(added, FreshNodes(g, c, k));
      }
    }
  }

  lemma SoleCompanion(g: Geometry, s: set<Key>, t: set<Key>, k: Key, u: Key, lo: nat, hi: nat)
    requires s <= t && u in s && u != k
    requires OnRoute(g, u, Route(g, k, hi))
    requires lo == Depth(g, t, k) && hi == Depth(g, t + {k}, k)
    requires FreshNodes(g, t, k) == Spine(g, k, lo, hi)
    ensures FreshNodes(g, t, k) <= FreshNodes(g, s, k)
  {
    NodeSetIs(g, s + {k});
    NodeSetMonotone(g, s, t);
    forall p | p in FreshNodes(g, t, k) ensures p in FreshNodes(g, s, k) {
      var n :| lo < n <= hi && p == Route(g, k, n);
      RouteOfPrefix(g, u, Route(g, k, hi), n);
      RoutePrefix(g, k, n, hi);
      assert OnRoute(g, u, p) && OnRoute(g, k, p);
      assert Shared(g, s + {k}, p);
    }
  }

  // ---------------------------------------------------------------------------
  // The reservation for merging the mutable layer down

  /** One tracked insertion: the key, and the frozen layers b and c as they stood. */
  datatype Insertion = Insertion(key: Key, b: set<Key>, c: set<Key>)

  ghost function Larger(m: int, n: int): int
  {
    if m > n then m else n
  }

  /** What objtable_add_at, instanceFieldSet and classMethodSet add to
    * addl_collision_nodes when `key` goes into layer `a`. */
  ghost function AddedCollisions(g: Geometry, a: set<Key>, e: Insertion): nat
  {
    var delta := |FreshNodes(g, a, e.key)|;
    var collide := Larger(|FreshNodes(g, e.b, e.key)|, |FreshNodes(g, e.c, e.key)|);
    if collide > delta then collide - delta else 0
  }

  ghost function KeysAfter(es: seq<Insertion>): set<Key>
  {
    if es == [] then {} else KeysAfter(es[..|es| - 1]) + {es[|es| - 1].key}
  }

  /** addl_collision_nodes after a sequence of insertions into an empty layer. */
  ghost function Tracked(g: Geometry, es: seq<Insertion>): nat
  {
    if es == [] then 0
    else
      var before := es[..|es| - 1];
      Tracked(g, before) + AddedCollisions(g, KeysAfter(before), es[|es| - 1])
  }

  /** Whether the merge had already happened or not when an insertion was made,
    * the frozen layers held the same keys. */
  ghost predicate Against(es: seq<Insertion>, frozen: set<Key>)
  {
    forall i :: 0 <= i < |es| ==> es[i].b + es[i].c == frozen
  }

  /** Positions shared by one key of each side only: nodes of the merge that
    * neither layer has. */
  ghost function CrossNodes(g: Geometry, a: set<Key>, m: set<Key>): set<seq<nat>>
  {
    NodeSet(g, a + m) - NodeSet(g, a) - NodeSet(g, m)
  }

  lemma CrossNodesGrowth(g: Geometry, a: set<Key>, m: set<Key>, k: Key)
    ensures CrossNodes(g, a + {k}, m) <= CrossNodes(g, a, m) + UnpaidNodes(g, a, m, k)
  {
    NodeSetIs(g, a + m);
    NodeSetIs(g, (a + {k}) + m);
    NodeSetIs(g, m + {k});
    forall p | p in CrossNodes(g, a + {k}, m)
      ensures p in CrossNodes(g, a, m) + UnpaidNodes(g, a, m, k)
    {
      var x, y :| x in (a + {k}) + m && y in (a + {k}) + m && x != y && OnRoute(g, x, p) && OnRoute(g, y, p);
      NodeSetMonotone(g, a, a + {k});
      if x in a + m && y in a + m {
        assert Shared(g, a + m, p);
      } else {
        var z := if x == k then y else x;
        assert z != k && z in m;
        assert k in m + {k} && z in m + {k} && OnRoute(g, k, p) && OnRoute(g, z, p);
        assert Shared(g, m + {k}, p);
      }
    }
  }

  /** Nodes that m's side would gain from k and that a's side does not have anyway. */
  ghost function UnpaidNodes(g: Geometry, a: set<Key>, m: set<Key>, k: Key): set<seq<nat>>
  {
    FreshNodes(g, m, k) - NodeSet(g, a + {k})
  }

  lemma UnpaidNodesDeep(g: Geometry, a: set<Key>, m: set<Key>, k: Key)
    ensures var lo := Larger(Depth(g, m, k), Depth(g, a + {k}, k));
      |UnpaidNodes(g, a, m, k)| <= Larger(0, Depth(g, m + {k}, k) - lo)
  {
    var lo, hi := Larger(Depth(g, m, k), Depth(g, a + {k}, k)), Depth(g, m + {k}, k);
    var unpaid := UnpaidNodes(g, a, m, k);
    FreshNodesAreSpine(g, m, k);
    forall p | p in unpaid ensures p in Spine(g, k, lo, hi) {
      var n :| Depth(g, m, k) < n <= hi && p == Route(g, k, n);
      DepthCharacterises(g, a + {k}, k, n);
    }
    SmallerSet(unpaid, Spine(g, k, lo, hi));
    if lo <= hi {
      SpineSize(g, k, lo, hi);
    } else {
      assert Spine(g, k, lo, hi) == {};
    }
  }

  lemma CommonNodesShallow(g: Geometry, a: set<Key>, m: set<Key>, k: Key)
    ensures var hi := if Depth(g, a + {k}, k) < Depth(g, m, k) then Depth(g, a + {k}, k) else Depth(g, m, k);
      hi - Depth(g, a, k) <= |FreshNodes(g, a, k) * NodeSet(g, m)|
  {
    var lo := Depth(g, a, k);
    var hi := if Depth(g, a + {k}, k) < Depth(g, m, k) then Depth(g, a + {k}, k) else Depth(g, m, k);
    FreshNodesAreSpine(g, a, k);
    if lo <= hi {
      var both := FreshNodes(g, a, k) * NodeSet(g, m);
      forall p | p in Spine(g, k, lo, hi) ensures p in both {
        var n :| lo < n <= hi && p == Route(g, k, n);
        DepthCharacterises(g, m, k, n);
      }
      SpineSize(g, k, lo, hi);
      SmallerSet(Spine(g, k, lo, hi), both);
    }
  }

  /** The local accounting: what k leaves unpaid is covered by the collisions
    * added for it and by those of its nodes in a that m has as well. */
  lemma UnpaidNodesCovered(g: Geometry, a: set<Key>, m: set<Key>, k: Key)
    ensures |UnpaidNodes(g, a, m, k)|
         <= Larger(0, |FreshNodes(g, m, k)| - |FreshNodes(g, a, k)|) + |FreshNodes(g, a, k) * NodeSet(g, m)|
  {
    FreshNodesAreSpine(g, a, k);
    FreshNodesAreSpine(g, m, k);
    UnpaidNodesDeep(g, a, m, k);
    CommonNodesShallow(g, a, m, k);
  }

  lemma UnpaidNodesTracked(g: Geometry, a: set<Key>, e: Insertion)
    ensures |UnpaidNodes(g, a, e.b + e.c, e.key)|
         <= AddedCollisions(g, a, e) + |FreshNodes(g, a, e.key) * NodeSet(g, e.b + e.c)|
  {
    UnpaidNodesCovered(g, a, e.b + e.c, e.key);
    MaxCoversMergedLayers(g, e.b, e.c, e.key);
  }

  lemma UnionSize<T>(s: set<T>, t: set<T>)
    ensures |s + t| == |s| + |t| - |s * t|
  {
  }

  lemma Budget<T>(after: set<T>, before: set<T>, unpaid: set<T>, old_: set<T>, added: set<T>, m: set<T>, addl: nat, more: nat)
    requires after <= before + unpaid
    requires |before| <= addl + |old_ * m|
    requires |unpaid| <= more + |added * m|
    requires old_ !! added
    ensures |after| <= addl + more + |(old_ + added) * m|
  {
    SmallerSet(after, before + unpaid);
    UnionSize(before, unpaid);
    assert (old_ + added) * m == old_ * m + added * m;
    assert (old_ * m) * (added * m) == {};
    UnionSize(old_ * m, added * m);
  }

  /** What one tracked insertion keeps true. */
  lemma TrackedStep(g: Geometry, a: set<Key>, e: Insertion, addl: nat)
    requires |CrossNodes(g, a, e.b + e.c)| <= addl + |NodeSet(g, a) * NodeSet(g, e.b + e.c)|
    ensures |CrossNodes(g, a + {e.key}, e.b + e.c)|
         <= addl + AddedCollisions(g, a, e) + |NodeSet(g, a + {e.key}) * NodeSet(g, e.b + e.c)|
  {
    var m, k := e.b + e.c, e.key;
    CrossNodesGrowth(g, a, m, k);
    UnpaidNodesTracked(g, a, e);
    FreshPartition(g, a, k);
    Budget(CrossNodes(g, a + {k}, m), CrossNodes(g, a, m), UnpaidNodes(g, a, m, k),
           NodeSet(g, a), FreshNodes(g, a, k), NodeSet(g, m), addl, AddedCollisions(g, a, e));
  }

  lemma {:induction false} TrackedInvariant(g: Geometry, es: seq<Insertion>, m: set<Key>)
    requires Against(es, m)
    ensures |CrossNodes(g, KeysAfter(es), m)| <= Tracked(g, es) + |NodeSet(g, KeysAfter(es)) * NodeSet(g, m)|
  {
    if es == [] {
      assert {} + m == m;
      assert CrossNodes(g, {}, m) == {};
    } else {
      var before, e := es[..|es| - 1], es[|es| - 1];
      TrackedInvariant(g, before, m);
      TrackedStep(g, KeysAfter(before), e, Tracked(g, before));
    }
  }

  lemma CrossPartition(g: Geometry, a: set<Key>, m: set<Key>)
    ensures NodeCount(g, a + m) == |CrossNodes(g, a, m)| + |NodeSet(g, a) + NodeSet(g, m)|
  {
    NodeSetMonotone(g, a, a + m);
    NodeSetMonotone(g, m, a + m);
    SmallerSet(NodeSet(g, a) + NodeSet(g, m), NodeSet(g, a + m));
    assert CrossNodes(g, a, m) == NodeSet(g, a + m) - (NodeSet(g, a) + NodeSet(g, m));
  }

  /** The merge never needs more nodes than the two layers have plus the tracked
    * collisions, although each insertion only adds what it did not pay for with
    * nodes of its own layer. */
  lemma MergeBound(g: Geometry, es: seq<Insertion>, m: set<Key>)
    requires Against(es, m)
    ensures NodeCount(g, KeysAfter(es) + m) <= NodeCount(g, KeysAfter(es)) + NodeCount(g, m) + Tracked(g, es)
  {
    var a := KeysAfter(es);
    TrackedInvariant(g, es, m);
    CrossPartition(g, a, m);
    UnionSize(NodeSet(g, a), NodeSet(g, m));
  }

  /** What objtable_consolidation_size counts on: whatever subset of the merged
    * keys survives the collection, the reservation suffices. */
  lemma ReservationSuffices(g: Geometry, es: seq<Insertion>, m: set<Key>, kept: set<Key>)
    requires Against(es, m) && kept <= KeysAfter(es) + m
    ensures NodeCount(g, kept) <= NodeCount(g, KeysAfter(es)) + NodeCount(g, m) + Tracked(g, es)
  {
    NodeCountMonotone(g, kept, KeysAfter(es) + m);
    MergeBound(g, es, m);
  }
}
