/** What a step leaves alone. */
module CollectorFrames {
  import opened Options
  import opened Graph
  import opened Objects
  import opened Layers
  import opened Collector
  import opened CollectorInvariant

  ghost predicate SameCells(h: Heap, h': Heap, lo: nat, hi: nat)
  {
    forall o :: lo <= o < hi && o in h ==> o in h' && h'[o] == h[o]
  }

  lemma SameHeap(h: Heap, lo: nat, hi: nat)
    ensures SameCells(h, h, lo, hi)
  {
  }

  lemma RecFrame(l: Layer, h: Heap, h': Heap, lo: nat, hi: nat)
    requires Within(l, h, lo, hi) && SameCells(h, h', lo, hi)
    ensures Within(l, h', lo, hi)
    ensures forall id :: Rec(l, h', id) == Rec(l, h, id)
  {
  }

  /** A new record at the end of the cells of its layer. */
  lemma FreshRecord(l: Layer, h: Heap, lo: nat, o: nat, n: Id, n': Id, id: Id, white: bool, cell: Cell)
    requires PlacedLayer(l, h, lo, o, n) && lo <= o && n <= n' && NIL < id < n'
    ensures PlacedLayer(l[id := At(o, white)], h[o := cell], lo, o + 1, n')
    ensures Rec(l[id := At(o, white)], h[o := cell], id) == Some(cell.obj)
    ensures forall k :: k != id ==> Rec(l[id := At(o, white)], h[o := cell], k) == Rec(l, h, k)
  {
    var l', h' := l[id := At(o, white)], h[o := cell];
    forall k ensures Rec(l', h', k) == if k == id then Some(cell.obj) else Rec(l, h, k) {
      if k != id && Has(l, k) {
        assert l[k].offset != o;
      }
    }
  }

  /** A record overwritten where it is. */
  lemma Overwrite(l: Layer, h: Heap, lo: nat, hi: nat, n: Id, id: Id, cell: Cell)
    requires PlacedLayer(l, h, lo, hi, n) && Has(l, id)
    ensures PlacedLayer(l, h[l[id].offset := cell], lo, hi, n)
    ensures Rec(l, h[l[id].offset := cell], id) == Some(cell.obj)
    ensures forall k :: k != id ==> Rec(l, h[l[id].offset := cell], k) == Rec(l, h, k)
  {
    var h' := h[l[id].offset := cell];
    forall k ensures Rec(l, h', k) == if k == id then Some(cell.obj) else Rec(l, h, k) {
      if k != id && Has(l, k) {
        assert l[k].offset != l[id].offset;
      }
    }
  }

  lemma KeysStayBelow(l: Layer, n: Id, n': Id)
    requires KeysBelow(l, n) && n <= n'
    ensures KeysBelow(l, n')
    ensures forall id :: n <= id ==> !Has(l, id)
  {
  }

  /** Nothing that the collector thread reads or has made is touched. */
  ghost predicate SameFrozen(s: State, s': State)
  {
    && s'.b == s.b && s'.c == s.c && s'.gc == s.gc && s'.weakOld == s.weakOld
    && SameCells(s.heap, s'.heap, 0, s.gc.limit)
  }

  lemma CellsBelow(h: Heap, h': Heap, lo: nat, hi: nat, lo': nat, hi': nat)
    requires SameCells(h, h', lo, hi) && lo <= lo' && hi' <= hi
    ensures SameCells(h, h', lo', hi')
  {
  }

  lemma FrozenRecs(s: State, s': State)
    requires Placed(s) && SameFrozen(s, s')
    ensures forall id :: Rec(s'.b, s'.heap, id) == Rec(s.b, s.heap, id)
    ensures forall id :: Rec(s'.c, s'.heap, id) == Rec(s.c, s.heap, id)
    ensures forall id :: Rec(s'.gc.newB, s'.heap, id) == Rec(s.gc.newB, s.heap, id)
    ensures forall id :: FrozenRefs(s', id) == FrozenRefs(s, id)
    ensures PlacedFrozen(s'.b, s'.heap, FrozenTop(s), s.nextId) && PlacedFrozen(s'.c, s'.heap, FrozenTop(s), s.nextId)
    ensures PlacedLayer(s'.gc.newB, s'.heap, s.gc.start, s.gc.next, s.nextId)
  {
    hide Distinct, KeysBelow, Rec, Within, SameCells;
    CellsBelow(s.heap, s'.heap, 0, s.gc.limit, 0, FrozenTop(s));
    CellsBelow(s.heap, s'.heap, 0, s.gc.limit, s.gc.start, s.gc.next);

    RecFrame(s.b, s.heap, s'.heap, 0, FrozenTop(s));
    RecFrame(s.c, s.heap, s'.heap, 0, FrozenTop(s));
    RecFrame(s.gc.newB, s.heap, s'.heap, s.gc.start, s.gc.next);
  }

  lemma LinkedFrame(l: Layer, heap: Heap, heap': Heap, head: Id, white: seq<Id>, lo: nat, hi: nat)
    requires Linked(l, heap, head, white) && Within(l, heap, lo, hi) && SameCells(heap, heap', lo, hi)
    ensures Linked(l, heap', head, white)
  {
  }

  lemma SnapshotFrame(s: State, s': State, h: History, h': History)
    requires Placed(s) && SameFrozen(s, s') && h' == h.(r := h'.r) && Snapshot(s, h)
    ensures Snapshot(s', h')
  {
    hide FrozenRefs, ReachSet, Placed, OneCleanRecord, CondemnedAlone, KeysBelow, SameFrozen;
    FrozenRecs(s, s');
    assert s'.b == s.b && s'.c == s.c && s'.gc == s.gc && s'.weakOld == s.weakOld by { SameFrozenFields(s, s'); }
  }

  lemma MarkedFrame(s: State, s': State, h: History, h': History)
    requires Placed(s) && SameFrozen(s, s') && h' == h.(r := h'.r) && Marked(s, h)
    ensures Marked(s', h')
  {
    hide FrozenRefs, Placed, SameFrozen;
    FrozenRecs(s, s');
    SameFrozenFields(s, s');
  }

  lemma CondensedFrame(s: State, s': State, h: History, h': History)
    requires Placed(s) && SameFrozen(s, s') && h' == h.(r := h'.r) && Condensed(s, h)
    ensures Condensed(s', h')
  {
    hide Rec, Placed, SameFrozen, FrozenRefs;
    FrozenRecs(s, s');
    SameFrozenFields(s, s');
  }

  lemma SameFrozenFields(s: State, s': State)
    requires SameFrozen(s, s')
    ensures s'.b == s.b && s'.c == s.c && s'.gc == s.gc && s'.weakOld == s.weakOld
  {
  }

  /** The collection goes on as before. */
  lemma CollectionFrame(s: State, s': State, h: History, h': History)
    requires Placed(s) && SameFrozen(s, s') && h' == h.(r := h'.r) && Collecting(s, h)
    ensures Collecting(s', h')
  {
    hide Snapshot, Linked, Marked, Condensed;
    if !s.gc.phase.Idle? {
      SnapshotFrame(s, s', h, h');
      LinkedFrame(s.gc.newB, s.heap, s'.heap, s.gc.whiteHead, h.white, s.gc.start, s.gc.next);
      if s.gc.phase.Marking? {
        MarkedFrame(s, s', h, h');
      } else {
        CondensedFrame(s, s', h, h');
      }
    }
  }

  /** All that the program can reach lies in r. */
  lemma LiveWithin(s: State, p: Program, h: History)
    requires Coupled(s, p, h) && Confined(s, h)
    ensures Live(p) <= h.r
  {
    hide ReachSet;
    forall id | id in h.r && id in Links(p) ensures Links(p)[id] <= h.r {
      assert id in Held(s, h);
      var t := RecsOf(s, id);
      ViewRefs(t.x, t.y, t.z);
    }
    ClosureIsLeast(Links(p), p.roots, h.r);
  }
}
