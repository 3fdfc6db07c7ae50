/** The steps of the collector thread keep the invariant, whatever the program is doing. */
module CollectorThread {
  import opened Graph
  import opened Objects
  import opened Collector
  import opened CollectorInvariant
  import opened CollectorFrames

  /** The collector thread writes only to its own state and to the region it was given. */
  ghost predicate SameProgram(s: State, s': State)
  {
    && s' == s.(heap := s'.heap, gc := s'.gc)
    && s'.gc.bound == s.gc.bound && s'.gc.start == s.gc.start && s'.gc.limit == s.gc.limit
    && s'.gc.capacity == s.gc.capacity
    && !s.gc.phase.Idle? && !s'.gc.phase.Idle?
    && SameCells(s.heap, s'.heap, 0, s.gc.start) && SameCells(s.heap, s'.heap, s.gc.limit, s.cursor)
  }

  lemma SameRecs(s: State, s': State)
    requires Placed(s) && SameProgram(s, s')
    ensures forall id :: Rec(s'.b, s'.heap, id) == Rec(s.b, s.heap, id)
    ensures forall id :: Rec(s'.c, s'.heap, id) == Rec(s.c, s.heap, id)
    ensures forall id :: RecsOf(s', id) == RecsOf(s, id)
    ensures forall id :: FrozenRefs(s', id) == FrozenRefs(s, id)
    ensures PlacedLayer(s'.a, s'.heap, s'.gc.limit, s'.cursor, s'.nextId)
    ensures PlacedFrozen(s'.b, s'.heap, FrozenTop(s'), s'.nextId) && PlacedFrozen(s'.c, s'.heap, FrozenTop(s'), s'.nextId)
  {
    hide Within, Distinct, KeysBelow, SameCells, Rec;
    RecFrame(s.a, s.heap, s'.heap, s.gc.limit, s.cursor);
    RecFrame(s.b, s.heap, s'.heap, 0, s.gc.start);
    RecFrame(s.c, s.heap, s'.heap, 0, s.gc.start);
  }

  lemma ProgramCoupled(s: State, s': State, p: Program, h: History, h': History)
    requires Placed(s) && SameProgram(s, s') && h' == h.(white := h'.white) && Coupled(s, p, h)
    ensures Coupled(s', p, h')
  {
    hide Placed, RecsOf, FrozenRefs, Rec, SameCells, Recs.View, Recs.SameKind;
    SameRecs(s, s');
    assert forall id :: Agrees(s', p, id) == Agrees(s, p, id);
    assert Held(s', h') == Held(s, h);
  }

  lemma ProgramConfined(s: State, s': State, h: History, h': History)
    requires Placed(s) && SameProgram(s, s') && h' == h.(white := h'.white) && Confined(s, h)
    ensures Confined(s', h')
  {
    hide Placed, RecsOf, FrozenRefs, Rec, SameCells, Recs.Mentions;
    SameRecs(s, s');
  }

  lemma ProgramSnapshot(s: State, s': State, h: History, h': History)
    requires Placed(s) && SameProgram(s, s') && h' == h.(white := h'.white) && Snapshot(s, h)
    ensures Snapshot(s', h')
  {
    hide Placed, RecsOf, FrozenRefs, Rec, SameCells, ReachSet, KeysBelow, CondemnedAlone, OneCleanRecord;
    SameRecs(s, s');
  }

  /** So the program notices nothing, and what the request describes stays as it was. */
  lemma ProgramFrame(s: State, s': State, p: Program, h: History, h': History)
    requires Inv(s, p, h) && SameProgram(s, s') && h' == h.(white := h'.white)
    ensures Coupled(s', p, h') && Confined(s', h') && Budgeted(s', h') && Since(s', h') && Snapshot(s', h')
  {
    hide Placed, SameCells, Marked, Condensed, Linked, Coupled, Confined, Snapshot;
    ProgramCoupled(s, s', p, h, h');
    ProgramConfined(s, s', h, h');
    ProgramSnapshot(s, s', h, h');
  }

  lemma InvParts(s: State, p: Program, h: History)
    requires Inv(s, p, h) && !s.gc.phase.Idle?
    ensures Placed(s) && Snapshot(s, h) && Reserved(s) && Linked(s.gc.newB, s.heap, s.gc.whiteHead, h.white)
    ensures s.gc.phase.Marking? ==> Marked(s, h)
    ensures !s.gc.phase.Marking? ==> Condensed(s, h)
  {
    hide Placed, Snapshot, Since, Linked, Marked, Condensed, Coupled, Confined, Reserved;
  }

  /** What is left to show of a step of the collector thread. */
  lemma ThreadKeepsInv(s: State, s': State, p: Program, h: History, h': History)
    requires Inv(s, p, h) && SameProgram(s, s') && h' == h.(white := h'.white)
    requires s.gc.start <= s'.gc.next <= s.gc.limit
    requires PlacedLayer(s'.gc.newB, s'.heap, s'.gc.start, s'.gc.next, s'.nextId)
    requires Reserved(s') && Linked(s'.gc.newB, s'.heap, s'.gc.whiteHead, h'.white)
    requires s'.gc.phase.Marking? ==> Marked(s', h')
    requires !s'.gc.phase.Marking? ==> Condensed(s', h')
    ensures Inv(s', p, h')
  {
    hide PlacedLayer, PlacedFrozen, SameCells, Snapshot, Since, Linked, Marked, Condensed, Coupled, Confined, Budgeted, RecsOf, FrozenRefs, Rec, Reserved;
    ProgramFrame(s, s', p, h, h');
    SameRecs(s, s');
  }

  // ----- marking -----

  /** A step that touches no cell and no condensed record. */
  lemma QuietThreadStep(s: State, s': State, p: Program, h: History)
    requires Inv(s, p, h) && !s.gc.phase.Idle? && !s'.gc.phase.Idle?
    requires s' == s.(gc := s.gc.(phase := s'.gc.phase, todo := s'.gc.todo, dark := s'.gc.dark, gray := s'.gc.gray))
    requires s'.gc.phase.Marking? ==> Marked(s', h)
    requires !s'.gc.phase.Marking? ==> Condensed(s', h)
    ensures Inv(s', p, h)
  {
    hide SameCells, Snapshot, Since, Linked, Marked, Condensed, Coupled, Confined, Inv, PlacedLayer, PlacedFrozen;
    InvParts(s, p, h);
    SameHeap(s.heap, 0, s.gc.start);
    SameHeap(s.heap, s.gc.limit, s.cursor);
    ThreadKeepsInv(s, s', p, h, h);
  }

  lemma SameFrozenRefs(s: State, s': State)
    requires s'.b == s.b && s'.c == s.c && s'.heap == s.heap
    ensures forall id :: FrozenRefs(s', id) == FrozenRefs(s, id)
  {
  }

  lemma RootsReached(s: State, h: History)
    requires Snapshot(s, h)
    ensures h.roots0 <= h.d0
  {
    hide ReachSet;
    ClosureHasRoots(h.edges, h.roots0);
  }

  lemma LeavesReached(s: State, h: History, id: Id)
    requires Snapshot(s, h) && id in h.d0
    ensures FrozenRefs(s, id) <= h.d0
  {
    hide ReachSet, FrozenRefs;
    ClosureIsClosed(h.edges, h.roots0);
  }

  lemma GrayRootKeepsInv(s: State, p: Program, h: History, id: Id)
    requires Inv(s, p, h) && Enabled(s, p, GrayRoot(id))
    ensures Inv(Run(s, GrayRoot(id)), p, h)
  {
    hide Inv, Placed, Snapshot, FrozenRefs, Linked;
    var s' := Run(s, GrayRoot(id));
    InvParts(s, p, h);
    RootsReached(s, h);
    SameFrozenRefs(s, s');
    QuietThreadStep(s, s', p, h);
  }

  lemma LeavesOnTop(gray: seq<Id>, order: seq<Id>, dark: set<Id>, ids: set<Id>)
    requires |gray| > 0 && (forall i, j :: 0 <= i < j < |gray| ==> gray[i] != gray[j])
    requires (forall x :: x in gray ==> x in dark) && Lists(order, ids - dark)
    ensures var gray' := gray[..|gray| - 1] + order;
      && (forall i, j :: 0 <= i < j < |gray'| ==> gray'[i] != gray'[j])
      && (forall x :: x in gray' <==> (x in gray && x != gray[|gray| - 1]) || x in ids - dark)
  {
    var last := |gray| - 1;
    forall i, j | 0 <= i < last && 0 <= j < |order| ensures gray[i] != order[j] {
      assert gray[i] in gray && order[j] in order;
    }
    forall x | x in gray && x != gray[last] ensures x in gray[..last] {
      var i :| 0 <= i < |gray| && gray[i] == x;
      assert gray[..last][i] == x;
    }
  }

  lemma LeavesMarked(s: State, s': State, h: History, order: seq<Id>)
    requires Snapshot(s, h) && Marked(s, h) && |s.gc.gray| > 0
    requires var top := s.gc.gray[|s.gc.gray| - 1];
      Lists(order, FrozenRefs(s, top) - s.gc.dark) && s'.gc.dark == s.gc.dark + FrozenRefs(s, top)
    requires s' == s.(gc := s.gc.(dark := s'.gc.dark, gray := s.gc.gray[..|s.gc.gray| - 1] + order))
    ensures Marked(s', h)
  {
    hide Snapshot, FrozenRefs, Lists;
    var top := s.gc.gray[|s.gc.gray| - 1];
    assert top in s.gc.gray;
    LeavesReached(s, h, top);
    LeavesOnTop(s.gc.gray, order, s.gc.dark, FrozenRefs(s, top));
    SameFrozenRefs(s, s');
  }

  lemma GrayLeavesKeepsInv(s: State, p: Program, h: History, order: seq<Id>)
    requires Inv(s, p, h) && Enabled(s, p, GrayLeaves(order))
    ensures Inv(Run(s, GrayLeaves(order)), p, h)
  {
    hide Inv, Placed, Snapshot, FrozenRefs, Linked, Lists, Marked;
    var top := s.gc.gray[|s.gc.gray| - 1];
    InvParts(s, p, h);
    assert s.gc.dark + Elements(order) == s.gc.dark + FrozenRefs(s, top) by {
      ListsAll(order, FrozenRefs(s, top) - s.gc.dark);
    }
    var s' := Run(s, GrayLeaves(order));
    LeavesMarked(s, s', h, order);
    QuietThreadStep(s, s', p, h);
  }

  lemma ListsAll(order: seq<Id>, ids: set<Id>)
    requires Lists(order, ids)
    ensures Elements(order) == ids
  {
  }

  /** When the gray list is empty, dark is exactly what was reachable. */
  lemma MarkingEnds(s: State, h: History)
    requires Snapshot(s, h) && Marked(s, h) && s.gc.todo == {} && s.gc.gray == []
    ensures s.gc.dark == h.d0
  {
    hide ReachSet, FrozenRefs;
    ClosureIsLeast(h.edges, h.roots0, s.gc.dark);
  }

  lemma CondensedEmpty(s: State, h: History)
    requires s.gc.phase.CopyingB? && s.gc.todo == s.b.Keys && s.gc.newB == map[] && s.gc.dark == h.d0
    ensures Condensed(s, h)
  {
    hide Expected, Rec;
  }

  lemma StartBKeepsInv(s: State, p: Program, h: History)
    requires Inv(s, p, h) && Enabled(s, p, StartB)
    ensures Inv(Run(s, StartB), p, h)
  {
    hide Inv, Placed, Snapshot, FrozenRefs, Linked, Condensed;
    InvParts(s, p, h);
    MarkingEnds(s, h);
    CondensedEmpty(Run(s, StartB), h);
    QuietThreadStep(s, Run(s, StartB), p, h);
  }

  lemma CondensedTurns(s: State, s': State, h: History)
    requires Condensed(s, h) && s.gc.phase.CopyingB? && s.gc.todo == {}
    requires s' == s.(gc := s.gc.(phase := CopyingC, todo := s.c.Keys))
    ensures Condensed(s', h)
  {
  }

  lemma StartCKeepsInv(s: State, p: Program, h: History)
    requires Inv(s, p, h) && Enabled(s, p, StartC)
    ensures Inv(Run(s, StartC), p, h)
  {
    hide Inv, Placed, Snapshot, FrozenRefs, Linked, Condensed;
    InvParts(s, p, h);
    CondensedTurns(s, Run(s, StartC), h);
    QuietThreadStep(s, Run(s, StartC), p, h);
  }

  lemma FinishKeepsInv(s: State, p: Program, h: History)
    requires Inv(s, p, h) && Enabled(s, p, Finish)
    ensures Inv(Run(s, Finish), p, h)
  {
    hide Inv, Placed, Snapshot, FrozenRefs, Linked, Rec;
    InvParts(s, p, h);
    QuietThreadStep(s, Run(s, Finish), p, h);
  }
}
