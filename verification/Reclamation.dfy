/** How an id is given up: condemned by one collection, reclaimed by the next. */
module Reclamation {
  import opened Graph
  import opened Objects
  import opened Layers
  import opened Collector
  import opened CollectorInvariant
  import opened CollectorThread
  import opened CollectorHandover
  import opened CollectorTheorems

  function Lookup(s: State, id: Id): Found
  {
    Resolve(s.a, s.b, s.c, id)
  }

  // ----- the white list -----

  lemma CondemnedUnwritten(s: State, h: History)
    requires Snapshot(s, h) && Since(s, h) && Condensed(s, h) && s.gc.phase.Ready?
    ensures forall id :: Flagged(s.gc.newB, id) ==> !Has(s.a, id)
  {
    hide FrozenRefs, ReachSet, Rec;
    forall id | Flagged(s.gc.newB, id) ensures !Has(s.a, id) {
      if h.n0 <= id { NewRecs(s, h, id); }
    }
  }

  lemma InvalidatedNext(a: Layer, ids: set<Id>, id: Id)
    ensures Invalidated(a, ids)[id := Null] == Invalidated(a, ids + {id})
    ensures Invalidated(a, {}) == a
  {
  }

  lemma LinkedAt(l: Layer, heap: Heap, head: Id, white: seq<Id>, i: nat)
    requires Linked(l, heap, head, white) && i < |white|
    ensures Has(l, white[i]) && l[white[i]].white && l[white[i]].offset in heap
    ensures heap[l[white[i]].offset].whiteNext == First(white[i + 1..])
    ensures First(white[i..]) == white[i]
  {
    assert white[i] in white;
  }

  lemma LinkedEnd(l: Layer, heap: Heap, head: Id, white: seq<Id>, i: nat)
    requires Linked(l, heap, head, white) && i <= |white| && NIL !in l && First(white[i..]) == NIL
    ensures i == |white| && Elements(white) == WhiteSet(l)
  {
    forall k | 0 <= k < |white| ensures white[k] != NIL {
      assert white[k] in white;
    }
  }

  /** The freeing loop of integrateGCResponse. Each link is read through the table as it
    * then is, A included; the loop still visits every newly white id once and stops. */
  method FreeWhiteList(s: State, ghost p: Program, ghost h: History) returns (a: Layer, freed: nat)
    requires Inv(s, p, h) && s.gc.phase.Ready?
    ensures a == Integrated(s).a && freed == |WhiteSet(s.gc.newB)|
  {
    hide Inv, Placed, Snapshot, Since, Condensed, Linked, Invalidated, WhiteSet, Elements;
    ReadyParts(s, p, h);
    InvParts(s, p, h);
    CondemnedUnwritten(s, h);
    assert NIL !in s.gc.newB by { PlacedKeys(s); }
    ghost var white, l := h.white, s.gc.newB;
    a, freed := s.a, 0;
    var head := s.gc.whiteHead;
    InvalidatedNext(s.a, {}, NIL);
    assert head == First(white[0..]) by { LinkedHead(l, s.heap, head, white); }
    assert Elements(white[..0]) == {} by { NoElements(white); }
    while head != NIL
      invariant freed <= |white| && head == First(white[freed..])
      invariant a == Invalidated(s.a, Elements(white[..freed]))
      decreases |white| - freed
    {
      LinkedAt(l, s.heap, s.gc.whiteHead, white, freed);
      var unreached := head;
      assert !Has(a, unreached) by { InvalidatedHas(s.a, Elements(white[..freed]), s.heap); }
      var found := Resolve(a, s.gc.newB, map[], unreached);
      head := s.heap[found.offset].whiteNext;
      InvalidatedNext(s.a, Elements(white[..freed]), unreached);
      ElementsNext(white, freed);
      a := a[unreached := Null];
      freed := freed + 1;
    }
    LinkedEnd(l, s.heap, s.gc.whiteHead, white, freed);
    assert white[..freed] == white;
    LinkedSize(l, s.heap, s.gc.whiteHead, white);
  }

  lemma PlacedKeys(s: State)
    requires Placed(s)
    ensures NIL !in s.gc.newB
  {
  }

  lemma LinkedHead(l: Layer, heap: Heap, head: Id, white: seq<Id>)
    requires Linked(l, heap, head, white)
    ensures head == First(white[0..])
  {
    assert white[0..] == white;
  }

  lemma NoElements(white: seq<Id>)
    ensures Elements(white[..0]) == {}
  {
  }

  lemma ElementsNext(white: seq<Id>, i: nat)
    requires i < |white|
    ensures Elements(white[..i + 1]) == Elements(white[..i]) + {white[i]}
  {
    assert white[..i + 1] == white[..i] + [white[i]];
  }

  lemma LinkedSize(l: Layer, heap: Heap, head: Id, white: seq<Id>)
    requires Linked(l, heap, head, white)
    ensures |WhiteSet(l)| == |white|
  {
    ListedSize(white, WhiteSet(l));
  }

  // ----- one integration -----

  /** What one collection does to an id it knows: dark ids are kept and cleared of any
    * flag; undark ones are kept, flagged and invalidated in A, once; an undark id that
    * already has the flag is let go. */
  lemma IntegrationOutcome(s: State, p: Program, h: History, id: Id)
    requires Inv(s, p, h) && s.gc.phase.Ready? && (Has(s.b, id) || Has(s.c, id))
    ensures var s' := Integrated(s);
      && (id in s.gc.dark ==> Has(s'.b, id) && !s'.b[id].white && Has(s'.a, id) == Has(s.a, id))
      && (id !in s.gc.dark && !Flagged(s.c, id) ==>
            Flagged(s'.b, id) && id in s'.a && s'.a[id].Null? && Lookup(s', id) == Offset(s'.b[id].offset))
      && (id !in s.gc.dark && Flagged(s.c, id) ==> Lookup(s', id) == Nothing)
  {
    hide Inv, Placed, FrozenRefs, ReachSet, Rec, Coupled, Confined, Budgeted, Expected, WhiteSet;
    ReadyParts(s, p, h);
    var s', white := Integrated(s), WhiteSet(s.gc.newB);
    hide Integrated;
    IntegratedLayers(s);
    InvalidatedHas(s.a, white, s.heap);
    assert id < h.n0;
    assert Has(s.gc.newB, id) <==> Kept(s, id);
  }

  lemma IntegratedLayers(s: State)
    ensures var s' := Integrated(s);
      s'.a == Invalidated(s.a, WhiteSet(s.gc.newB)) && s'.b == s.gc.newB && s'.c == map[]
    ensures forall id :: id in WhiteSet(s.gc.newB) <==> Flagged(s.gc.newB, id)
  {
  }

  // ----- over the whole of the next collection -----

  /** Carrying the flag: in B between collections, in C during one. */
  predicate Condemned(s: State, id: Id)
  {
    if s.gc.phase.Idle? then Flagged(s.b, id) else Flagged(s.c, id)
  }

  ghost predicate NoIntegration(steps: seq<Step>)
  {
    forall i :: 0 <= i < |steps| ==> !steps[i].Integrate?
  }

  lemma {:induction false} StaysCondemned(s: State, p: Program, h: History, steps: seq<Step>, id: Id)
    requires Inv(s, p, h) && Possible(s, p, steps) && NoIntegration(steps) && Condemned(s, id)
    ensures Condemned(After(s, steps), id)
    decreases |steps|
  {
    hide Inv, Run, NextHistory, Enabled;
    if steps != [] {
      StepKeepsInv(s, p, h, steps[0]);
      assert !steps[0].Integrate?;
      assert Condemned(Run(s, steps[0]), id) by { StepStaysCondemned(s, p, steps[0], id); }
      assert NoIntegration(steps[1..]);
      StaysCondemned(Run(s, steps[0]), RunPlain(p, steps[0]), NextHistory(s, h, steps[0]), steps[1..], id);
    }
  }

  lemma StepStaysCondemned(s: State, p: Program, step: Step, id: Id)
    requires Enabled(s, p, step) && !step.Integrate? && Condemned(s, id)
    ensures Condemned(Run(s, step), id)
  {
  }

  /** Two-cycle reclamation. Take an id that a collection finds undark for the first time.
    * After its integration the id still resolves. Whatever the program then does, the
    * response of the next collection decides: reached again, the id is cleared of its
    * flag and resolves; otherwise it resolves no longer. */
  lemma TwoCycles(s: State, p: Program, h: History, steps: seq<Step>, id: Id)
    requires Inv(s, p, h) && s.gc.phase.Ready? && (Has(s.b, id) || Has(s.c, id))
    requires id !in s.gc.dark && !Flagged(s.c, id)
    requires Possible(Integrated(s), p, steps) && NoIntegration(steps) && After(Integrated(s), steps).gc.phase.Ready?
    ensures Lookup(Integrated(s), id).Offset?
    ensures var t := After(Integrated(s), steps);
      if id in t.gc.dark then Has(Integrated(t).b, id) && !Integrated(t).b[id].white
      else Lookup(Integrated(t), id) == Nothing
  {
    hide Inv, Integrated, Lookup, Enabled, NextHistory, After, Possible;
    IntegrationOutcome(s, p, h, id);
    var s1 := Integrated(s);
    IntegratedPhase(s, p);
    IntegrateKeepsInv(s, p, h);
    RunKeepsInv(s1, p, h, steps);
    StaysCondemned(s1, p, h, steps, id);
    IntegrationOutcome(After(s1, steps), PlainAfter(p, steps), HistoryAfter(s1, h, steps), id);
  }

  lemma IntegratedPhase(s: State, p: Program)
    requires s.gc.phase.Ready?
    ensures Enabled(s, p, Integrate)
    ensures Integrated(s).gc.phase.Idle? && Integrated(s) == Run(s, Integrate)
  {
  }

  /** Whatever the table resolves is in memory, after the space below the bound has been
    * given back as well. */
  lemma NothingDangles(s: State, p: Program, h: History, id: Id)
    requires Inv(s, p, h)
    ensures Lookup(s, id).Offset? ==> Lookup(s, id).offset in s.heap
    ensures s.gc.phase.Ready? && Lookup(Integrated(s), id).Offset? ==>
      Lookup(Integrated(s), id).offset >= s.gc.bound && Lookup(Integrated(s), id).offset in Integrated(s).heap
  {
    hide Coupled, Confined, Budgeted, Quiet, Since, Collecting, KeysBelow, Distinct, Invalidated, WhiteSet;
    if s.gc.phase.Ready? {
      RetainedHeap(s);
      InvalidatedHas(s.a, WhiteSet(s.gc.newB), s.heap);
    }
  }

  /** Everything below the bound is given back, and nothing above it. */
  lemma SpaceIsReclaimed(s: State, offset: nat)
    requires s.gc.phase.Ready?
    ensures offset in Run(s, Integrate).heap <==> offset in s.heap && offset >= s.gc.bound
    ensures offset in Run(s, Integrate).heap ==> Run(s, Integrate).heap[offset] == s.heap[offset]
  {
    hide Invalidated, WhiteSet;
  }

  /** What the copying passes assume of the frozen layers: B has no flags, and C no
    * invalidated ids. */
  lemma FrozenLayersAreClean(s: State, p: Program, h: History, id: Id)
    requires Inv(s, p, h) && !s.gc.phase.Idle?
    ensures id in s.b ==> !Flagged(s.b, id)
    ensures id in s.c ==> s.c[id] != Null
  {
    hide Inv, Placed, Linked, Marked, Condensed, Reserved, FrozenRefs, ReachSet;
    InvParts(s, p, h);
  }
}
