/** The steps of the program keep the invariant, whatever the collector is doing. */
module CollectorProgram {
  import opened Options
  import opened Graph
  import opened Objects
  import opened Layers
  import opened Collector
  import opened CollectorInvariant
  import opened CollectorFrames

  // ----- allocation -----

  lemma Allocating(s: State, obj: Obj)
    requires Placed(s)
    ensures var s' := Allocated(s, obj);
      && Placed(s') && SameFrozen(s, s')
      && RecsOf(s', s.nextId) == Recs(Some(obj), None, None)
      && forall id :: id != s.nextId ==> RecsOf(s', id) == RecsOf(s, id)
  {
    hide PlacedLayer, Rec;
    var s' := Allocated(s, obj);
    FreshRecord(s.a, s.heap, s.gc.limit, s.cursor, s.nextId, s'.nextId, s.nextId, false, Cell(obj, NIL));
    FrozenRecs(s, s');
    KeysStayBelow(s.b, s.nextId, s'.nextId);
    KeysStayBelow(s.c, s.nextId, s'.nextId);
    MoreIds(s.gc.newB, s'.heap, s.gc.start, s.gc.next, s.nextId, s'.nextId);
    Unused(s.b, s.heap, s.nextId);
    Unused(s.c, s.heap, s.nextId);
  }

  lemma Unused(l: Layer, h: Heap, id: Id)
    requires !Has(l, id)
    ensures Rec(l, h, id) == None
  {
  }

  lemma MoreIds(l: Layer, h: Heap, lo: nat, hi: nat, n: Id, n': Id)
    requires PlacedLayer(l, h, lo, hi, n) && n <= n'
    ensures PlacedLayer(l, h, lo, hi, n')
  {
  }

  /** What any allocation does, seen through the records. Rooting the new object, or
    * entering it into the intern table, changes nothing else. */
  ghost predicate Grew(s: State, s': State, obj: Obj)
  {
    && SameFrozen(s, s') && Placed(s')
    && s'.a == s.a[s.nextId := At(s.cursor, false)]
    && s'.nextId == s.nextId + 1 && s'.newCount == s.newCount + 1 && s'.hidden == s.hidden && s'.preserved == s.preserved
    && s.nextId > 0 && KeysBelow(s.a, s.nextId) && KeysBelow(s.b, s.nextId)
    && RecsOf(s, s.nextId) == Recs(None, None, None)
    && RecsOf(s', s.nextId) == Recs(Some(obj), None, None)
    && forall id :: id != s.nextId ==> RecsOf(s', id) == RecsOf(s, id)
  }

  lemma AllocGrows(s: State, obj: Obj, roots: set<Id>, weak: set<Id>)
    requires Placed(s)
    ensures Grew(s, Allocated(s, obj).(roots := roots, weakNew := weak), obj)
  {
    hide PlacedLayer, PlacedFrozen, SameCells, Rec;
    Allocating(s, obj);
    var s', t := Allocated(s, obj), Allocated(s, obj).(roots := roots, weakNew := weak);
    assert forall id :: RecsOf(t, id) == RecsOf(s', id);
    FrozenBelow(s);
  }

  lemma FrozenBelow(s: State)
    requires Placed(s)
    ensures KeysBelow(s.a, s.nextId) && KeysBelow(s.b, s.nextId)
    ensures RecsOf(s, s.nextId) == Recs(None, None, None)
  {
  }

  lemma GrewCoupled(s: State, s': State, p: Program, p': Program, h: History, h': History, obj: Obj)
    requires Coupled(s, p, h) && Grew(s, s', obj)
    requires p'.objs == p.objs[s.nextId := obj] && p'.roots == s'.roots && p'.nextId == s'.nextId
    requires Held(s', h') <= Held(s, h) + {s.nextId}
    requires s'.weakNew <= s.weakNew + s.weakOld + if obj.Str? then {s.nextId} else {}
    ensures Coupled(s', p', h')
  {
    hide RecsOf, Placed, SameFrozen, KeysBelow;
    forall id | id in Held(s', h') ensures Agrees(s', p', id) {
      if id == s.nextId {
        assert Recs(Some(obj), None, None).View() == Some(obj);
      } else {
        assert Agrees(s, p, id);
      }
    }
    SameFrozenFields(s, s');
    assert !Agrees(s, p, s.nextId);
    assert s.nextId !in Held(s, h);
  }

  lemma GrewConfined(s: State, s': State, h: History, h': History, obj: Obj)
    requires Confined(s, h) && Grew(s, s', obj) && Refs(obj) <= h'.r && s'.roots <= h'.r
    requires h.r <= h'.r && NIL !in h'.r
    requires forall id :: id in h'.r ==> id in h.r || id == s.nextId || RecsOf(s, id).Mentions() == {}
    ensures Confined(s', h')
  {
    hide RecsOf, Placed, SameFrozen, KeysBelow;
    forall id | id in h'.r ensures RecsOf(s', id).Mentions() <= h'.r {
      if id == s.nextId {
        assert Recs(Some(obj), None, None).Mentions() == Refs(obj);
      }
    }
  }

  lemma GrewQuiet(s: State, s': State, p: Program, p': Program, h: History, h': History, obj: Obj)
    requires Quiet(s, p, h) && Coupled(s, p, h) && Grew(s, s', obj) && s'.weakNew <= s.weakNew + {s.nextId}
    requires p'.objs == p.objs[s.nextId := obj] && h'.r <= h.r + {s.nextId} + s.weakNew + s.weakOld
    ensures Quiet(s', p', h')
  {
    hide Placed, Recs.View, Rec, RecsOf, Agrees;
    SameFrozenFields(s, s');
    assert s.nextId !in s.a && s.nextId !in s.b;
    forall id | id in s'.weakNew + s'.weakOld ensures OneCleanRecord(s'.a, s'.b, id) {
      assert id != s.nextId ==> id in s.weakNew + s.weakOld;
    }
    forall id | id in h'.r && Flagged(s'.b, id) ensures id in p'.objs && p'.objs[id].Str? {
      assert id in h.r || id in s.weakNew + s.weakOld;
    }
  }

  lemma GrewSince(s: State, s': State, h: History, h': History, obj: Obj)
    requires Since(s, h) && Grew(s, s', obj) && s'.weakNew <= s.weakNew + {s.nextId}
    requires h' == h.(r := h'.r) && h.r <= h'.r <= h.r + {s.nextId} + s.weakNew + s.weakOld
    ensures Since(s', h')
  {
    hide Placed, RecsOf, KeysBelow;
    SameFrozenFields(s, s');
  }

  lemma GrewKeepsInv(s: State, s': State, p: Program, p': Program, h: History, h': History, obj: Obj)
    requires Inv(s, p, h) && Grew(s, s', obj)
    requires p'.objs == p.objs[s.nextId := obj] && p'.roots == s'.roots && p'.nextId == s'.nextId
    requires s'.weakNew <= s.weakNew + if obj.Str? then {s.nextId} else {}
    requires Refs(obj) <= h.r && s'.roots <= h'.r
    requires h' == h.(r := h'.r) && h.r <= h'.r <= h.r + {s.nextId} + s.weakNew + s.weakOld
    requires NIL !in h'.r && |h'.r| <= |h.r| + 1
    requires forall id :: id in h'.r ==> id in h.r || id == s.nextId || RecsOf(s, id).Mentions() == {}
    ensures Inv(s', p', h')
  {
    hide Placed, Collecting, Since, Quiet, Coupled, Confined, SameFrozen, RecsOf, KeysBelow, Refs;
    SameFrozenFields(s, s');
    GrewCoupled(s, s', p, p', h, h', obj);
    GrewConfined(s, s', h, h', obj);
    CollectionFrame(s, s', h, h');
    if s.gc.phase.Idle? {
      GrewQuiet(s, s', p, p', h, h', obj);
    } else {
      GrewSince(s, s', h, h', obj);
    }
  }

  lemma AllocKeepsInv(s: State, p: Program, h: History, obj: Obj, rooted: bool, interned: bool)
    requires Inv(s, p, h) && Enabled(s, p, Alloc(obj, rooted, interned))
    ensures var step := Alloc(obj, rooted, interned); Inv(Run(s, step), RunPlain(p, step), NextHistory(s, h, step))
  {
    hide Inv, Grew, Live, RecsOf, Refs;
    var step := Alloc(obj, rooted, interned);
    var s', p', h' := Run(s, step), RunPlain(p, step), NextHistory(s, h, step);
    InvRoots(s, p, h);
    AllocGrows(s, obj, s'.roots, s'.weakNew);
    GrewKeepsInv(s, s', p, p', h, h', obj);
  }

  lemma InvRoots(s: State, p: Program, h: History)
    requires Inv(s, p, h)
    ensures Placed(s) && s.nextId > 0 && Live(p) <= h.r
    ensures s.roots <= h.r && s.hidden <= h.r && NIL !in h.r && p.roots == s.roots && p.nextId == s.nextId
  {
    hide Collecting, Since, Quiet, PlacedLayer, PlacedFrozen, Live;
    LiveWithin(s, p, h);
  }

  lemma WeakAgrees(s: State, p: Program, h: History, id: Id)
    requires Inv(s, p, h) && id in s.weakNew + s.weakOld
    ensures Agrees(s, p, id)
  {
    hide Collecting, Since, Quiet, Placed, Confined, Agrees;
    assert id in Held(s, h);
  }

  /** A string has no references, in any layer. */
  lemma StringMentionsNothing(s: State, p: Program, id: Id)
    requires Agrees(s, p, id) && p.objs[id].Str? && Placed(s)
    ensures RecsOf(s, id).Mentions() == {} && id != NIL
  {
    var t := RecsOf(s, id);
    assert t.Top().Some? && t.Top().value.Str?;
  }

  lemma ReviveKeepsInv(s: State, p: Program, h: History, id: Id, chars: string)
    requires Inv(s, p, h) && Enabled(s, p, Revive(id, chars))
    ensures var step := Revive(id, chars); Inv(Run(s, step), RunPlain(p, step), NextHistory(s, h, step))
  {
    hide Inv, Grew, RecsOf, Placed, Agrees, Recs.Mentions;
    var step := Revive(id, chars);
    var s', p', h' := Run(s, step), RunPlain(p, step), NextHistory(s, h, step);
    InvRoots(s, p, h);
    WeakAgrees(s, p, h, id);
    StringMentionsNothing(s, p, id);
    AllocGrows(s, Str(chars), s'.roots, s'.weakNew);
    assert Refs(Str(chars)) == {};
    GrewKeepsInv(s, s', p, p', h, h', Str(chars));
  }

  // ----- mutation -----

  /** The record that a write puts on top. */
  function Raised(t: Recs, e: Edit): Obj
    requires t.Top().Some? && EditFits(t.Top().value, e)
  {
    var top := t.Top().value;
    if t.x.None? && Layered(top) then Edited(Derived(top), e) else Edited(top, e)
  }

  lemma ViewOfTop(t: Recs)
    requires t.View().Some? && t.SameKind()
    ensures t.Top().Some? && SameKind(t.Top().value, t.View().value)
  {
    if t.y.Some? && t.z.Some? {
      OverKeepsKind(t.y.value, t.z.value);
    }
    if t.x.Some? && Above(t.y, t.z).Some? {
      OverKeepsKind(t.x.value, Above(t.y, t.z).value);
    }
  }

  /** A write through the top record is a write to the whole. */
  lemma RaisedView(t: Recs, e: Edit)
    requires t.View().Some? && t.SameKind() && EditFits(t.View().value, e)
    ensures t.Top().Some? && EditFits(t.Top().value, e)
    ensures var t' := t.(x := Some(Raised(t, e)));
      t'.View() == Some(Edited(t.View().value, e)) && t'.SameKind()
  {
    ViewOfTop(t);
    var top, under := t.Top().value, Above(t.y, t.z);
    if t.x.Some? {
      EditKeepsKind(top, e);
      if under.Some? {
        if t.y.Some? && t.z.Some? { OverKeepsKind(t.y.value, t.z.value); }
        EditCommutes(top, under.value, e);
      }
    } else {
      if t.y.Some? && t.z.Some? { OverKeepsKind(t.y.value, t.z.value); }
      EditKeepsKind(top, e);
      if Layered(top) {
        DerivedIsNeutral(top, if t.z.Some? then t.z.value else top);
        EditKeepsKind(Derived(top), e);
        EditCommutes(Derived(top), under.value, e);
      }
    }
  }

  lemma RaisedMentions(t: Recs, e: Edit)
    requires t.Top().Some? && EditFits(t.Top().value, e)
    ensures t.(x := Some(Raised(t, e))).Mentions() <= t.Mentions() + EditRefs(e)
  {
    hide EntryRefs, HeaderRefs, EditRefs, SameKind;
    var top := t.Top().value;
    if t.x.None? && Layered(top) {
      DerivedIsNeutral(top, top);
      EditedRefs(Derived(top), e);
    } else {
      EditedRefs(top, e);
    }
  }

  ghost predicate Wrote(s: State, s': State, id: Id, o: Obj)
  {
    && SameFrozen(s, s') && Placed(s')
    && s'.roots == s.roots && s'.hidden == s.hidden && s'.nextId == s.nextId && s'.newCount == s.newCount && s'.preserved == s.preserved
    && s'.weakNew == s.weakNew
    && (forall k :: Has(s'.a, k) <==> Has(s.a, k) || k == id)
    && ((forall k :: Has(s.a, k) ==> !s.a[k].white) ==> forall k :: Has(s'.a, k) ==> !s'.a[k].white)
    && RecsOf(s', id) == RecsOf(s, id).(x := Some(o))
    && forall k :: k != id ==> RecsOf(s', k) == RecsOf(s, k)
  }

  lemma WritingInPlace(s: State, id: Id, o: Obj, cell: Cell)
    requires Placed(s) && Has(s.a, id) && cell.obj == o
    ensures Wrote(s, s.(heap := s.heap[s.a[id].offset := cell]), id, o)
  {
    hide PlacedLayer, Rec;
    var s' := s.(heap := s.heap[s.a[id].offset := cell]);
    PlacedAt(s.a, s.heap, s.gc.limit, s.cursor, s.nextId, id);
    Overwrite(s.a, s.heap, s.gc.limit, s.cursor, s.nextId, id, cell);
    FrozenRecs(s, s');
  }

  lemma WritingAnew(s: State, id: Id, o: Obj, cell: Cell)
    requires Placed(s) && !Has(s.a, id) && NIL < id < s.nextId && cell.obj == o
    ensures Wrote(s, s.(a := s.a[id := At(s.cursor, false)], heap := s.heap[s.cursor := cell], cursor := s.cursor + 1), id, o)
  {
    hide PlacedLayer, Rec;
    var s' := s.(a := s.a[id := At(s.cursor, false)], heap := s.heap[s.cursor := cell], cursor := s.cursor + 1);
    FreshRecord(s.a, s.heap, s.gc.limit, s.cursor, s.nextId, s.nextId, id, false, cell);
    FrozenRecs(s, s');
  }

  lemma Mutating(s: State, id: Id, e: Edit)
    requires Placed(s) && RecsOf(s, id).Top().Some? && EditFits(RecsOf(s, id).Top().value, e)
    ensures Wrote(s, Mutated(s, id, e), id, Raised(RecsOf(s, id), e))
  {
    hide PlacedLayer, PlacedFrozen, Rec, Edited, EditFits, Derived, Layered, Wrote;
    var s', o := Mutated(s, id, e), Raised(RecsOf(s, id), e);
    if Has(s.a, id) {
      PlacedAt(s.a, s.heap, s.gc.limit, s.cursor, s.nextId, id);
      WritingInPlace(s, id, o, s'.heap[s.a[id].offset]);
    } else {
      Unused(s.a, s.heap, id);
      KnownId(s, id);
      WritingAnew(s, id, o, s'.heap[s.cursor]);
    }
  }

  lemma PlacedAt(l: Layer, h: Heap, lo: nat, hi: nat, n: Id, id: Id)
    requires PlacedLayer(l, h, lo, hi, n) && Has(l, id)
    ensures lo <= l[id].offset < hi && Rec(l, h, id) == Some(h[l[id].offset].obj)
  {
  }

  lemma KnownId(s: State, id: Id)
    requires Placed(s) && RecsOf(s, id).Top().Some?
    ensures NIL < id < s.nextId
  {
  }

  lemma WroteCoupled(s: State, s': State, p: Program, p': Program, h: History, id: Id, e: Edit)
    requires Coupled(s, p, h) && id in h.r && id in p.objs && EditFits(p.objs[id], e)
    requires p' == p.(objs := p.objs[id := Edited(p.objs[id], e)])
    requires RecsOf(s, id).Top().Some? && EditFits(RecsOf(s, id).Top().value, e)
    requires Wrote(s, s', id, Raised(RecsOf(s, id), e))
    ensures Coupled(s', p', h)
  {
    hide RecsOf, Placed, SameFrozen, Edited, EditFits, Raised, Recs.View, Recs.Top, Recs.SameKind;
    SameFrozenFields(s, s');
    assert id in Held(s, h) && Held(s', h) == Held(s, h);
    RaisedView(RecsOf(s, id), e);
    EditKeepsKind(p.objs[id], e);
    forall k | k in Held(s', h) ensures Agrees(s', p', k) {
      assert Agrees(s, p, k);
    }
  }

  lemma WroteConfined(s: State, s': State, h: History, id: Id, e: Edit)
    requires Confined(s, h) && id in h.r && EditRefs(e) <= h.r
    requires RecsOf(s, id).Top().Some? && EditFits(RecsOf(s, id).Top().value, e)
    requires Wrote(s, s', id, Raised(RecsOf(s, id), e))
    ensures Confined(s', h)
  {
    hide RecsOf, Placed, SameFrozen, EditRefs, EditFits, Raised, Recs.Top, Recs.Mentions;
    RaisedMentions(RecsOf(s, id), e);
  }

  lemma WroteQuiet(s: State, s': State, p: Program, p': Program, h: History, id: Id, o: Obj, whole: Obj)
    requires Quiet(s, p, h) && Coupled(s, p, h) && Wrote(s, s', id, o)
    requires id in h.r && id in p.objs && !p.objs[id].Str? && p' == p.(objs := p.objs[id := whole])
    ensures Quiet(s', p', h)
  {
    hide Placed, RecsOf, Agrees;
    SameFrozenFields(s, s');
    assert id !in s.weakNew + s.weakOld;
  }

  lemma WroteSince(s: State, s': State, p: Program, h: History, id: Id, o: Obj)
    requires Since(s, h) && Coupled(s, p, h) && Wrote(s, s', id, o)
    requires id in h.r && id in p.objs && !p.objs[id].Str?
    ensures Since(s', h)
  {
    hide Placed, RecsOf, Agrees;
    SameFrozenFields(s, s');
    assert id !in s.weakNew + s.weakOld;
  }

  lemma EditsSpareStrings(o: Obj, e: Edit)
    requires EditFits(o, e)
    ensures !o.Str?
  {
  }

  lemma MutateKeepsInv(s: State, p: Program, h: History, id: Id, e: Edit)
    requires Inv(s, p, h) && Enabled(s, p, Mutate(id, e))
    ensures Inv(Run(s, Mutate(id, e)), RunPlain(p, Mutate(id, e)), h)
  {
    hide Placed, Collecting, Since, Quiet, Confined, SameFrozen, RecsOf, Live, Mutated, Recs.Top, Recs.View, Recs.SameKind, EditFits, Edited, Raised;
    var s', p' := Mutated(s, id, e), RunPlain(p, Mutate(id, e));
    InvRoots(s, p, h);
    assert id in Held(s, h);
    RaisedView(RecsOf(s, id), e);
    Mutating(s, id, e);
    EditsSpareStrings(p.objs[id], e);
    SameFrozenFields(s, s');
    assert p' == p.(objs := p.objs[id := Edited(p.objs[id], e)]);
    hide Coupled;
    WroteCoupled(s, s', p, p', h, id, e);
    WroteConfined(s, s', h, id, e);
    CollectionFrame(s, s', h, h);
    if s.gc.phase.Idle? {
      WroteQuiet(s, s', p, p', h, id, Raised(RecsOf(s, id), e), Edited(p.objs[id], e));
    } else {
      WroteSince(s, s', p, h, id, Raised(RecsOf(s, id), e));
    }
  }

  lemma RetargetKeepsInv(s: State, p: Program, h: History, roots: set<Id>, hidden: set<Id>)
    requires Inv(s, p, h) && Enabled(s, p, Retarget(roots, hidden))
    ensures Inv(Run(s, Retarget(roots, hidden)), RunPlain(p, Retarget(roots, hidden)), h)
  {
    hide Live, PlacedLayer, PlacedFrozen, Rec, Collecting, Agrees, Recs.Mentions, RecsOf, SameCells, Flagged;
    InvRoots(s, p, h);
    var s', p' := s.(roots := roots, hidden := hidden), p.(roots := roots);
    assert SameFrozen(s, s') by { SameHeap(s.heap, 0, s.gc.limit); }
    Rerooted(s, s', p, p');
    CollectionFrame(s, s', h, h);
  }

  lemma Rerooted(s: State, s': State, p: Program, p': Program)
    requires s' == s.(roots := s'.roots, hidden := s'.hidden) && p' == p.(roots := p'.roots)
    ensures forall id :: RecsOf(s', id) == RecsOf(s, id)
    ensures forall id :: Agrees(s', p', id) == Agrees(s, p, id)
  {
  }
}
