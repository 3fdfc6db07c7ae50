/** Handing the frozen layers to the collector thread, and taking the condensed one back. */
module CollectorHandover {
  import opened Options
  import opened FiniteSets
  import opened Graph
  import opened Objects
  import opened Layers
  import opened Collector
  import opened CollectorInvariant
  import opened CollectorFrames

  // ----- freezing -----

  lemma IdleParts(s: State, p: Program, h: History)
    requires Inv(s, p, h) && s.gc.phase.Idle?
    ensures Placed(s) && Quiet(s, p, h) && Coupled(s, p, h) && Confined(s, h) && Budgeted(s, h)
  {
    hide Placed, Snapshot, Since, Linked, Marked, Condensed, Coupled, Confined, Quiet, Reserved;
  }

  /** Shifting two layers down over an empty one changes no view. */
  lemma ShiftedRecs(s: State, bound: nat)
    requires s.c == map[]
    ensures forall id :: RecsOf(s, id).z == None
    ensures forall id :: RecsOf(Frozen(s, bound), id) == Recs(None, RecsOf(s, id).x, RecsOf(s, id).y)
    ensures forall id :: FrozenRefs(Frozen(s, bound), id) == RecsOf(s, id).Mentions()
  {
    var s' := Frozen(s, bound);
    assert forall id :: Rec(s.c, s.heap, id) == None;
    assert forall id :: Rec(s'.a, s'.heap, id) == None;
    forall id ensures FrozenRefs(s', id) == RecsOf(s, id).Mentions() {
      ShiftedRefs(RecsOf(s, id).x, RecsOf(s, id).y);
    }
  }

  lemma ShiftedRefs(x: Option<Obj>, y: Option<Obj>)
    ensures Recs(None, x, y).Mentions() == Recs(x, y, None).Mentions()
    ensures Recs(None, x, y).View() == Recs(x, y, None).View()
    ensures Recs(x, y, None).SameKind() ==> Recs(None, x, y).SameKind()
  {
  }

  lemma FrozenPlaced(s: State, bound: nat)
    requires Placed(s) && s.gc.phase.Idle? && s.c == map[] && bound <= s.cursor
    ensures Placed(Frozen(s, bound))
  {
  }

  /** All that is reachable through the frozen records was within r, and is all the
    * marking will find. */
  lemma FrozenReach(s: State, p: Program, h: History, bound: nat)
    requires Coupled(s, p, h) && Confined(s, h) && s.c == map[]
    ensures var h' := NextHistory(s, h, Freeze(bound));
      && h'.d0 <= h.r
      && forall id :: id in h.r ==> id in h'.edges && h'.edges[id] == FrozenRefs(Frozen(s, bound), id)
  {
    hide ReachSet, FrozenRefs, RecsOf, Recs.Mentions, Recs.View, Recs.SameKind;
    var h' := NextHistory(s, h, Freeze(bound));
    ShiftedRecs(s, bound);
    forall id | id in h.r ensures id in h'.edges {
      assert id in Held(s, h);
      Present(s, id);
    }
    ClosureIsLeast(h'.edges, s.roots + s.hidden, h.r);
  }

  lemma Present(s: State, id: Id)
    requires View(s, id).Some?
    ensures Has(s.a, id) || Has(s.b, id) || Has(s.c, id)
  {
  }

  lemma FreezeCoupled(s: State, p: Program, h: History, bound: nat)
    requires Coupled(s, p, h) && Confined(s, h) && s.c == map[]
    ensures Coupled(Frozen(s, bound), p, NextHistory(s, h, Freeze(bound)))
  {
    hide ReachSet, FrozenRefs, RecsOf, Recs.Mentions, Recs.View, Recs.SameKind;
    var s', h' := Frozen(s, bound), NextHistory(s, h, Freeze(bound));
    ShiftedRecs(s, bound);
    FrozenReach(s, p, h, bound);
    forall id | id in Held(s', h') ensures Agrees(s', p, id) {
      assert id in Held(s, h);
      ShiftedRefs(RecsOf(s, id).x, RecsOf(s, id).y);
    }
  }

  lemma FreezeConfined(s: State, p: Program, h: History, bound: nat)
    requires Coupled(s, p, h) && Confined(s, h) && s.c == map[]
    ensures Confined(Frozen(s, bound), NextHistory(s, h, Freeze(bound)))
  {
    hide ReachSet, FrozenRefs, RecsOf, Recs.Mentions, Agrees;
    var s', h' := Frozen(s, bound), NextHistory(s, h, Freeze(bound));
    ShiftedRecs(s, bound);
    FrozenReach(s, p, h, bound);
    ClosureHasRoots(h'.edges, s.roots + s.hidden);
    ClosureIsClosed(h'.edges, s.roots + s.hidden);
    forall id | id in h'.r ensures RecsOf(s', id).Mentions() <= h'.r {
      ShiftedRefs(RecsOf(s, id).x, RecsOf(s, id).y);
    }
  }

  lemma FreezeSnapshot(s: State, p: Program, h: History, bound: nat)
    requires Placed(s) && Quiet(s, p, h) && Coupled(s, p, h) && Confined(s, h) && Budgeted(s, h) && s.gc.phase.Idle?
    ensures Snapshot(Frozen(s, bound), NextHistory(s, h, Freeze(bound)))
  {
    hide ReachSet, FrozenRefs, RecsOf, Within, Distinct, Recs.Mentions, Recs.View, Recs.SameKind;
    var s', h' := Frozen(s, bound), NextHistory(s, h, Freeze(bound));
    FrozenReach(s, p, h, bound);
    SmallerSet(h'.d0, h.r);
    forall id | id in h'.d0 ensures Has(s'.b, id) || Has(s'.c, id) {
      assert id in Held(s, h);
      Present(s, id);
    }
  }

  lemma FreezeMarked(s: State, p: Program, h: History, bound: nat)
    ensures Marked(Frozen(s, bound), NextHistory(s, h, Freeze(bound)))
  {
    hide ReachSet, FrozenRefs;
  }

  lemma FreezeKeepsInv(s: State, p: Program, h: History, bound: nat)
    requires Inv(s, p, h) && Enabled(s, p, Freeze(bound))
    ensures Inv(Run(s, Freeze(bound)), p, NextHistory(s, h, Freeze(bound)))
  {
    hide Inv, Placed, Coupled, Confined, Snapshot, Marked, ReachSet, FrozenRefs, Agrees, Budgeted;
    IdleParts(s, p, h);
    FrozenPlaced(s, bound);
    FreezeCoupled(s, p, h, bound);
    FreezeConfined(s, p, h, bound);
    FreezeSnapshot(s, p, h, bound);
    FreezeMarked(s, p, h, bound);
    FreezeAssembles(s, p, h, bound);
  }

  lemma FreezeAssembles(s: State, p: Program, h: History, bound: nat)
    requires s.gc.phase.Idle? && bound <= s.cursor
    requires var s', h' := Frozen(s, bound), NextHistory(s, h, Freeze(bound));
      Placed(s') && Coupled(s', p, h') && Confined(s', h') && Snapshot(s', h') && Marked(s', h')
    ensures Inv(Frozen(s, bound), p, NextHistory(s, h, Freeze(bound)))
  {
    hide Placed, Coupled, Confined, Snapshot, Marked, ReachSet, FrozenRefs, Agrees;
  }

  // ----- integrating -----

  lemma ReadyParts(s: State, p: Program, h: History)
    requires Inv(s, p, h) && s.gc.phase.Ready?
    ensures Placed(s) && Snapshot(s, h) && Since(s, h) && Condensed(s, h) && Coupled(s, p, h) && Confined(s, h) && Budgeted(s, h)
  {
    hide Placed, Snapshot, Since, Linked, Marked, Condensed, Coupled, Confined, Quiet, Reserved, Budgeted;
  }

  /** The records of an object once its frozen layers are one. */
  function Merged(t: Recs): Recs
  {
    Recs(t.x, Above(t.y, t.z), None)
  }

  lemma MergedReadsTheSame(t: Recs)
    requires t.SameKind()
    ensures Merged(t).View() == t.View() && Merged(t).SameKind()
    ensures Merged(t).Mentions() <= t.Mentions()
  {
    hide EntryRefs, HeaderRefs;
    if t.y.Some? && t.z.Some? {
      OverKeepsKind(t.y.value, t.z.value);
      OverRefs(t.y.value, t.z.value);
      if t.x.Some? {
        OverAssociates(t.x.value, t.y.value, t.z.value);
      }
    }
  }

  lemma RetainedHeap(s: State)
    requires Placed(s)
    ensures var s' := Integrated(s);
      && (forall id :: Rec(s.a, s'.heap, id) == Rec(s.a, s.heap, id))
      && (forall id :: Rec(s.gc.newB, s'.heap, id) == Rec(s.gc.newB, s.heap, id))
      && Within(s.a, s'.heap, s.gc.limit, s.cursor) && Within(s.gc.newB, s'.heap, s.gc.start, s.gc.next)
  {
    var s' := Integrated(s);
    assert SameCells(s.heap, s'.heap, s.gc.limit, s.cursor);
    assert SameCells(s.heap, s'.heap, s.gc.start, s.gc.next);
    hide Within, Rec;
    RecFrame(s.a, s.heap, s'.heap, s.gc.limit, s.cursor);
    RecFrame(s.gc.newB, s.heap, s'.heap, s.gc.start, s.gc.next);
  }

  lemma InvalidatedHas(a: Layer, ids: set<Id>, h: Heap)
    ensures forall id :: Has(Invalidated(a, ids), id) <==> Has(a, id) && id !in ids
    ensures forall id :: id !in ids ==> Rec(Invalidated(a, ids), h, id) == Rec(a, h, id)
    ensures forall id :: !Has(Invalidated(a, ids), id) ==> Rec(Invalidated(a, ids), h, id) == None
    ensures forall id :: Has(Invalidated(a, ids), id) ==> Invalidated(a, ids)[id] == a[id]
    ensures Invalidated(a, ids).Keys == a.Keys + ids
  {
  }

  /** What the table will hold for an id that matters, from each of the three reasons for
    * which an id can matter. */
  lemma ReachedRecs(s: State, h: History, id: Id)
    requires Snapshot(s, h) && Condensed(s, h) && s.gc.phase.Ready? && id in h.d0
    ensures Has(s.gc.newB, id) && id !in WhiteSet(s.gc.newB)
    ensures Rec(s.gc.newB, s.heap, id) == Above(Rec(s.b, s.heap, id), Rec(s.c, s.heap, id))
  {
    hide FrozenRefs, ReachSet, Rec;
    assert Kept(s, id);
  }

  lemma StringRecs(s: State, h: History, id: Id)
    requires Placed(s) && Snapshot(s, h) && Since(s, h) && Condensed(s, h) && s.gc.phase.Ready? && id in s.weakOld
    ensures Has(s.gc.newB, id) && !Has(s.a, id)
    ensures Rec(s.gc.newB, s.heap, id) == Above(Rec(s.b, s.heap, id), Rec(s.c, s.heap, id))
  {
    hide FrozenRefs, ReachSet, Rec, PlacedLayer;
    assert OneCleanRecord(s.b, s.c, id);
    assert Kept(s, id);
    assert id < h.n0;
  }

  lemma NewRecs(s: State, h: History, id: Id)
    requires Snapshot(s, h) && Condensed(s, h) && h.n0 <= id
    ensures !Has(s.gc.newB, id) && !Has(s.b, id) && !Has(s.c, id) && id !in WhiteSet(s.gc.newB)
  {
    hide FrozenRefs, ReachSet, Rec;
    assert !Kept(s, id);
  }

  lemma IntegratedRecs(s: State, p: Program, h: History, id: Id)
    requires Placed(s) && Snapshot(s, h) && Since(s, h) && Condensed(s, h) && s.gc.phase.Ready?
    requires id in h.r + s.weakNew + s.weakOld
    ensures RecsOf(Integrated(s), id) == Merged(RecsOf(s, id))
  {
    hide Snapshot, Condensed, Placed, Rec, Invalidated, WhiteSet;
    var s' := Integrated(s);
    RetainedHeap(s);
    InvalidatedHas(s.a, WhiteSet(s.gc.newB), s'.heap);
    NoRecord(s.a, s.heap, id);
    NoRecord(s.b, s.heap, id);
    NoRecord(s.c, s.heap, id);
    NoRecord(s'.c, s'.heap, id);
    NoRecord(s.gc.newB, s.heap, id);
    if id in h.d0 {
      ReachedRecs(s, h, id);
    } else if id in s.weakOld {
      StringRecs(s, h, id);
    } else {
      NewRecs(s, h, id);
    }
  }

  lemma NoRecord(l: Layer, heap: Heap, id: Id)
    ensures !Has(l, id) ==> Rec(l, heap, id) == None
  {
  }

  lemma IntegrateCoupled(s: State, p: Program, h: History)
    requires Placed(s) && Snapshot(s, h) && Since(s, h) && Condensed(s, h) && s.gc.phase.Ready? && Coupled(s, p, h)
    ensures Coupled(Integrated(s), p, h)
  {
    hide Snapshot, Condensed, Placed, Since, RecsOf, Recs.View, Recs.SameKind, Invalidated, WhiteSet;
    var s' := Integrated(s);
    forall id | id in Held(s', h) ensures Agrees(s', p, id) {
      assert id in Held(s, h);
      assert Agrees(s, p, id);
      IntegratedRecs(s, p, h, id);
      MergedReadsTheSame(RecsOf(s, id));
    }
  }

  lemma IntegrateConfined(s: State, p: Program, h: History)
    requires Placed(s) && Snapshot(s, h) && Since(s, h) && Condensed(s, h) && s.gc.phase.Ready? && Confined(s, h) && Coupled(s, p, h)
    ensures Confined(Integrated(s), h)
  {
    hide Snapshot, Condensed, Placed, Since, RecsOf, Recs.View, Recs.SameKind, Recs.Mentions, Invalidated, WhiteSet;
    var s' := Integrated(s);
    forall id | id in h.r ensures RecsOf(s', id).Mentions() <= h.r {
      assert id in Held(s, h);
      assert Agrees(s, p, id);
      IntegratedRecs(s, p, h, id);
      MergedReadsTheSame(RecsOf(s, id));
    }
  }

  lemma InvalidatedPlaced(a: Layer, ids: set<Id>, heap: Heap, lo: nat, hi: nat, n: Id)
    requires Within(a, heap, lo, hi) && Distinct(a) && KeysBelow(a, n)
    requires forall id :: id in ids ==> NIL < id < n
    ensures PlacedLayer(Invalidated(a, ids), heap, lo, hi, n)
  {
    hide Invalidated;
    InvalidatedHas(a, ids, heap);
  }

  lemma CondensedPlaced(l: Layer, heap: Heap, lo: nat, hi: nat, top: nat, n: Id)
    requires Within(l, heap, lo, hi) && KeysBelow(l, n) && hi <= top
    ensures PlacedFrozen(l, heap, top, n)
    ensures forall id :: id in WhiteSet(l) ==> NIL < id < n
  {
  }

  lemma EmptyPlaced(heap: Heap, lo: nat, hi: nat, n: Id)
    ensures PlacedFrozen(map[], heap, hi, n) && PlacedLayer(map[], heap, lo, hi, n)
  {
  }

  lemma IntegratePlaced(s: State)
    requires Placed(s)
    ensures Placed(Integrated(s))
  {
    var s' := Integrated(s);
    assert Distinct(s.a) && KeysBelow(s.a, s.nextId) && KeysBelow(s.gc.newB, s.nextId);
    hide Invalidated, Rec, Within, Distinct, KeysBelow, PlacedFrozen, PlacedLayer, WhiteSet;
    RetainedHeap(s);
    CondensedPlaced(s.gc.newB, s'.heap, s.gc.start, s.gc.next, s.gc.limit, s.nextId);
    InvalidatedPlaced(s.a, WhiteSet(s.gc.newB), s'.heap, s.gc.limit, s.cursor, s.nextId);
    EmptyPlaced(s'.heap, s.gc.start, s.gc.next, s.nextId);
    EmptyPlaced(s'.heap, 0, s.gc.limit, s.nextId);
  }

  lemma IntegrateQuiet(s: State, p: Program, h: History)
    requires Placed(s) && Snapshot(s, h) && Since(s, h) && Condensed(s, h) && Coupled(s, p, h) && s.gc.phase.Ready?
    ensures Quiet(Integrated(s), p, h)
  {
    hide Placed, FrozenRefs, ReachSet, Rec, Invalidated, Agrees;
    var s' := Integrated(s);
    var white := WhiteSet(s.gc.newB);
    InvalidatedHas(s.a, white, s'.heap);
    forall id | id in s'.weakNew + s'.weakOld ensures OneCleanRecord(s'.a, s'.b, id) {
      if id in s.weakNew {
        NewRecs(s, h, id);
      } else {
        StringRecs(s, h, id);
        ReachedRecs(s, h, id);
      }
    }
    forall id | id in h.r && Flagged(s'.b, id) ensures id in p.objs && p.objs[id].Str? {
      if h.n0 <= id { NewRecs(s, h, id); }
    }
  }

  lemma IntegrateKeepsInv(s: State, p: Program, h: History)
    requires Inv(s, p, h) && Enabled(s, p, Integrate)
    ensures Inv(Run(s, Integrate), p, h)
  {
    hide Inv, Placed, Coupled, Confined, Snapshot, Since, Quiet, Agrees, WhiteSet, Invalidated;
    ReadyParts(s, p, h);
    IntegratePlaced(s);
    IntegrateCoupled(s, p, h);
    IntegrateConfined(s, p, h);
    IntegrateQuiet(s, p, h);
    assert Budgeted(Integrated(s), h);
    IntegrateAssembles(Integrated(s), p, h);
  }

  lemma IntegrateAssembles(s: State, p: Program, h: History)
    requires Placed(s) && Coupled(s, p, h) && Confined(s, h) && Quiet(s, p, h) && Budgeted(s, h) && s.gc.phase.Idle?
    ensures Inv(s, p, h)
  {
    hide Placed, Coupled, Confined, Quiet, Budgeted;
  }
}
