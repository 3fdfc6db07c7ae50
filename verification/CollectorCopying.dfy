/** Condensing the frozen layers, record by record. */
module CollectorCopying {
  import opened Options
  import opened FiniteSets
  import opened Graph
  import opened Objects
  import opened Layers
  import opened Collector
  import opened CollectorInvariant
  import opened CollectorFrames
  import opened CollectorThread

  // ----- cloning one object -----

  lemma LinkedKeeps(l: Layer, heap: Heap, head: Id, white: seq<Id>, id: Id, o: nat, cell: Cell)
    requires Linked(l, heap, head, white) && id !in l
    requires forall k :: Has(l, k) ==> l[k].offset != o
    ensures Linked(l[id := At(o, false)], heap[o := cell], head, white)
  {
  }

  lemma LinkedPush(l: Layer, heap: Heap, head: Id, white: seq<Id>, id: Id, o: nat, cell: Cell)
    requires Linked(l, heap, head, white) && id !in l && cell.whiteNext == head
    requires forall k :: Has(l, k) ==> l[k].offset != o
    ensures Linked(l[id := At(o, true)], heap[o := cell], id, [id] + white)
  {
    var l', heap', white' := l[id := At(o, true)], heap[o := cell], [id] + white;
    forall i | 0 <= i < |white'|
      ensures Has(l', white'[i]) && l'[white'[i]].offset in heap' && heap'[l'[white'[i]].offset].whiteNext == First(white'[i + 1..])
    {
      if i == 0 {
        assert white'[1..] == white;
      } else {
        assert white'[i] == white[i - 1] && white'[i + 1..] == white[i..];
        assert white[i - 1] in white;
      }
    }
  }

  /** The clone takes the next free place of the region, unseen by anybody else. */
  lemma Cloning(s: State, s': State, h: History, id: Id, offset: nat, todo: set<Id>)
    requires Placed(s) && !s.gc.phase.Idle? && Linked(s.gc.newB, s.heap, s.gc.whiteHead, h.white)
    requires NIL < id < s.nextId && id !in s.gc.newB && offset in s.heap && s.gc.next < s.gc.limit
    requires s' == Cloned(s.(gc := s.gc.(todo := todo)), id, offset)
    ensures SameProgram(s, s')
    ensures PlacedLayer(s'.gc.newB, s'.heap, s'.gc.start, s'.gc.next, s'.nextId)
    ensures Linked(s'.gc.newB, s'.heap, s'.gc.whiteHead, NewlyWhite(s, s', id, h).white)
    ensures s'.gc == s.gc.(todo := todo, newB := s.gc.newB[id := At(s.gc.next, id !in s.gc.dark)], next := s.gc.next + 1, whiteHead := s'.gc.whiteHead)
    ensures Rec(s'.gc.newB, s'.heap, id) == Some(s.heap[offset].obj)
    ensures forall k :: k != id ==> Rec(s'.gc.newB, s'.heap, k) == Rec(s.gc.newB, s.heap, k)
  {
    hide Linked, Rec, PlacedFrozen;
    var white, cell := id !in s.gc.dark, s'.heap[s.gc.next];
    FreshRecord(s.gc.newB, s.heap, s.gc.start, s.gc.next, s.nextId, s.nextId, id, white, cell);
    assert forall k :: Has(s.gc.newB, k) ==> s.gc.newB[k].offset != s.gc.next;
    if white {
      HeadIsOld(s.gc.newB, s.heap, s.gc.whiteHead, h.white, id);
      LinkedPush(s.gc.newB, s.heap, s.gc.whiteHead, h.white, id, s.gc.next, cell);
    } else {
      LinkedKeeps(s.gc.newB, s.heap, s.gc.whiteHead, h.white, id, s.gc.next, cell);
    }
  }

  lemma HeadIsOld(l: Layer, heap: Heap, head: Id, white: seq<Id>, id: Id)
    requires Linked(l, heap, head, white) && id !in l && id != NIL
    ensures head != id
  {
    assert white != [] ==> white[0] in white;
  }

  /** There is room for it: one place was reserved for every frozen record. */
  lemma RoomForClone(s: State, h: History, id: Id)
    requires Condensed(s, h) && Reserved(s)
    requires !Has(s.gc.newB, id) && (Has(s.b, id) || Has(s.c, id))
    ensures s.gc.next < s.gc.limit && id !in s.gc.newB
  {
    hide Rec, Expected;
    var keys, all := s.gc.newB.Keys, s.b.Keys + s.c.Keys;
    forall k | k in keys ensures k in all - {id} {
      assert Has(s.gc.newB, k) && Kept(s, k);
    }
    SmallerSet(keys, all - {id});
    assert |all| <= |s.b.Keys| + |s.c.Keys| by { SmallerSet(s.c.Keys - s.b.Keys, s.c.Keys); assert all == s.b.Keys + (s.c.Keys - s.b.Keys); }
    assert |s.gc.newB| == |keys| && |s.b| == |s.b.Keys| && |s.c| == |s.c.Keys|;
  }

  lemma NewKey(l: Layer, k: Id, v: Loc)
    requires k !in l
    ensures |l[k := v]| == |l| + 1
  {
    assert l[k := v].Keys == l.Keys + {k};
    assert |l[k := v]| == |l[k := v].Keys| && |l| == |l.Keys|;
  }

  /** Cloning the record that an id is expected to have keeps the condensed layer right. */
  lemma ClonedCondensed(s: State, s': State, h: History, id: Id, obj: Obj)
    requires Placed(s) && Condensed(s, h) && SameProgram(s, s') && id in s.gc.todo
    requires s.gc.phase.CopyingB? || s.gc.phase.CopyingC?
    requires !Has(s.gc.newB, id)
    requires s'.gc == s.gc.(todo := s.gc.todo - {id}, newB := s.gc.newB[id := At(s.gc.next, id !in s.gc.dark)],
                            next := s'.gc.next, whiteHead := s'.gc.whiteHead)
    requires Rec(s'.gc.newB, s'.heap, id) == Some(obj)
    requires forall k :: k != id ==> Rec(s'.gc.newB, s'.heap, k) == Rec(s.gc.newB, s.heap, k)
    requires Kept(s', id) && (id in s.gc.dark || id in s.weakOld ==> Expected(s', id) == Some(obj))
    ensures Condensed(s', h)
  {
    hide Placed, Rec, SameCells, FrozenRefs, RecsOf;
    SameRecs(s, s');
    forall k | k != id ensures Kept(s', k) == Kept(s, k) && Expected(s', k) == Expected(s, k) {}
  }

  lemma RecAt(s: State, l: Layer, hi: nat, id: Id)
    requires PlacedFrozen(l, s.heap, hi, s.nextId) && Has(l, id)
    ensures l[id].offset in s.heap && Rec(l, s.heap, id) == Some(s.heap[l[id].offset].obj) && NIL < id < s.nextId
  {
  }

  lemma ClonedReserved(s: State, s': State, id: Id)
    requires Reserved(s) && id !in s.gc.newB && s'.b == s.b && s'.c == s.c
    requires s'.gc == s.gc.(todo := s'.gc.todo, newB := s.gc.newB[id := At(s.gc.next, id !in s.gc.dark)],
                            next := s.gc.next + 1, whiteHead := s'.gc.whiteHead)
    ensures Reserved(s')
  {
    NewKey(s.gc.newB, id, At(s.gc.next, id !in s.gc.dark));
  }

  /** Cloning, whichever layer the record comes from. */
  lemma CloneKeepsInv(s: State, s': State, p: Program, h: History, id: Id, offset: nat)
    requires Inv(s, p, h) && id in s.gc.todo && (s.gc.phase.CopyingB? || s.gc.phase.CopyingC?)
    requires NIL < id < s.nextId && offset in s.heap && !Has(s.gc.newB, id) && (Has(s.b, id) || Has(s.c, id))
    requires s' == Cloned(s.(gc := s.gc.(todo := s.gc.todo - {id})), id, offset)
    requires Kept(s', id)
    requires id in s.gc.dark || id in s.weakOld ==> Expected(s', id) == Some(s.heap[offset].obj)
    ensures Inv(s', p, NewlyWhite(s, s', id, h))
  {
    hide Inv, Placed, Snapshot, Linked, Condensed, Reserved, Kept, Expected, Rec, SameCells, FrozenRefs, PlacedLayer;
    var h' := NewlyWhite(s, s', id, h);
    InvParts(s, p, h);
    RoomForClone(s, h, id);
    Cloning(s, s', h, id, offset, s.gc.todo - {id});
    ClonedCondensed(s, s', h, id, s.heap[offset].obj);
    ClonedReserved(s, s', id);
    SameHistory(s', h, h');
    PlacedGc(s);
    ThreadKeepsInv(s, s', p, h, h');
  }

  lemma SameHistory(s: State, h: History, h': History)
    requires Condensed(s, h) && h'.d0 == h.d0
    ensures Condensed(s, h')
  {
  }

  lemma PlacedGc(s: State)
    requires Placed(s)
    ensures s.gc.start <= s.gc.next <= s.gc.limit
  {
  }

  lemma CopyBKeepsInv(s: State, p: Program, h: History, id: Id)
    requires Inv(s, p, h) && Enabled(s, p, CopyB(id))
    ensures Inv(Run(s, CopyB(id)), p, NextHistory(s, h, CopyB(id)))
  {
    hide Inv, PlacedLayer, PlacedFrozen, Snapshot, Linked, Reserved, FrozenRefs, Rec, Cloned;
    InvParts(s, p, h);
    var s' := CopiedB(s, id);
    assert !Has(s.gc.newB, id);
    if Has(s.b, id) {
      RecAt(s, s.b, FrozenTop(s), id);
      CopiedBCloned(s, id);
      CloneKeepsInv(s, s', p, h, id, s.b[id].offset);
    } else {
      SkippedB(s, s', h, id);
      QuietThreadStep(s, s', p, h);
    }
  }

  lemma CopiedBCloned(s: State, id: Id)
    requires Placed(s) && s.gc.phase.CopyingB? && Has(s.b, id)
    ensures var s' := CopiedB(s, id); Kept(s', id) && Expected(s', id) == Rec(s.b, s.heap, id)
  {
  }

  lemma SkippedB(s: State, s': State, h: History, id: Id)
    requires Condensed(s, h) && s.gc.phase.CopyingB? && !Has(s.b, id)
    requires s' == s.(gc := s.gc.(todo := s.gc.todo - {id}))
    ensures Condensed(s', h)
  {
  }

  // ----- the older frozen layer -----

  /** An id of C that adds nothing to what B gave. */
  lemma SkippedC(s: State, s': State, h: History, id: Id)
    requires Condensed(s, h) && s.gc.phase.CopyingC? && id in s.gc.todo
    requires !Has(s.c, id) || (Flagged(s.c, id) && id !in s.gc.dark && id !in s.weakOld && !Has(s.b, id))
    requires s' == s.(gc := s.gc.(todo := s.gc.todo - {id}))
    ensures Condensed(s', h)
  {
  }

  /** An interned string has no second record. */
  lemma StringsStayClean(s: State, h: History, id: Id)
    requires Snapshot(s, h)
    ensures Flagged(s.c, id) ==> id !in s.weakOld && !Has(s.b, id)
    ensures Has(s.b, id) && Has(s.c, id) ==> id !in s.weakOld
  {
    hide FrozenRefs, ReachSet;
  }

  /** B's clone absorbs what C adds to it. */
  lemma Merging(s: State, s': State, h: History, id: Id, obj: Obj)
    requires Placed(s) && !s.gc.phase.Idle? && Linked(s.gc.newB, s.heap, s.gc.whiteHead, h.white) && Has(s.gc.newB, id)
    requires s.gc.newB[id].offset in s.heap
    requires s' == s.(heap := s.heap[s.gc.newB[id].offset := s.heap[s.gc.newB[id].offset].(obj := obj)], gc := s.gc.(todo := s.gc.todo - {id}))
    ensures SameProgram(s, s')
    ensures PlacedLayer(s'.gc.newB, s'.heap, s'.gc.start, s'.gc.next, s'.nextId)
    ensures Linked(s'.gc.newB, s'.heap, s'.gc.whiteHead, h.white)
    ensures Rec(s'.gc.newB, s'.heap, id) == Some(obj)
    ensures forall k :: k != id ==> Rec(s'.gc.newB, s'.heap, k) == Rec(s.gc.newB, s.heap, k)
  {
    hide PlacedFrozen, Linked, Rec;
    var o := s.gc.newB[id].offset;
    Overwrite(s.gc.newB, s.heap, s.gc.start, s.gc.next, s.nextId, id, s'.heap[o]);
    LinkedRelabel(s.gc.newB, s.heap, s.gc.whiteHead, h.white, o, obj);
  }

  lemma LinkedRelabel(l: Layer, heap: Heap, head: Id, white: seq<Id>, o: nat, obj: Obj)
    requires Linked(l, heap, head, white) && o in heap
    ensures Linked(l, heap[o := heap[o].(obj := obj)], head, white)
  {
  }

  lemma MergedCondensed(s: State, s': State, h: History, id: Id)
    requires Placed(s) && Snapshot(s, h) && Condensed(s, h) && SameProgram(s, s') && s.gc.phase.CopyingC? && id in s.gc.todo
    requires Has(s.gc.newB, id) && Has(s.c, id)
    requires s'.gc == s.gc.(todo := s.gc.todo - {id})
    requires id in s.gc.dark ==> Rec(s'.gc.newB, s'.heap, id) == Above(Rec(s.gc.newB, s.heap, id), Rec(s.c, s.heap, id))
    requires forall k :: k != id ==> Rec(s'.gc.newB, s'.heap, k) == Rec(s.gc.newB, s.heap, k)
    ensures Condensed(s', h)
  {
    hide Placed, Rec, SameCells, FrozenRefs, RecsOf, Snapshot;
    SameRecs(s, s');
    StringsStayClean(s, h, id);
    assert Kept(s, id) && Has(s.b, id);
    forall k | k != id ensures Kept(s', k) == Kept(s, k) && Expected(s', k) == Expected(s, k) {}
  }

  lemma MergeKeepsInv(s: State, s': State, p: Program, h: History, id: Id, obj: Obj)
    requires Inv(s, p, h) && s.gc.phase.CopyingC? && id in s.gc.todo && Has(s.gc.newB, id) && Has(s.c, id)
    requires s.gc.newB[id].offset in s.heap
    requires s' == s.(heap := s.heap[s.gc.newB[id].offset := s.heap[s.gc.newB[id].offset].(obj := obj)], gc := s.gc.(todo := s.gc.todo - {id}))
    requires id in s.gc.dark ==> Above(Rec(s.gc.newB, s.heap, id), Rec(s.c, s.heap, id)) == Some(obj)
    ensures Inv(s', p, h)
  {
    hide Inv, Placed, Snapshot, Linked, Condensed, Rec, SameCells, FrozenRefs, PlacedLayer;
    InvParts(s, p, h);
    Merging(s, s', h, id, obj);
    MergedCondensed(s, s', h, id);
    PlacedGc(s);
    ThreadKeepsInv(s, s', p, h, h);
  }

  lemma CopiedCCloned(s: State, h: History, id: Id, junk: Obj)
    requires Placed(s) && s.gc.phase.CopyingC? && Has(s.c, id) && !Has(s.gc.newB, id) && Condensed(s, h)
    requires id in s.gc.dark || !s.c[id].white
    ensures var s' := CopiedC(s, id, junk); Kept(s', id) && Expected(s', id) == Rec(s.c, s.heap, id)
  {
    hide PlacedLayer;
    assert !Kept(s, id) && !Has(s.b, id);
    var s' := CopiedC(s, id, junk);
    assert s.c[id].offset < s.gc.start <= s.gc.next;
  }

  lemma NewBAt(s: State, id: Id)
    requires Placed(s) && Has(s.gc.newB, id)
    ensures s.gc.newB[id].offset in s.heap && Rec(s.gc.newB, s.heap, id) == Some(s.heap[s.gc.newB[id].offset].obj)
  {
  }

  lemma CopyCKeepsInv(s: State, p: Program, h: History, id: Id, junk: Obj)
    requires Inv(s, p, h) && Enabled(s, p, CopyC(id, junk))
    ensures Inv(Run(s, CopyC(id, junk)), p, NextHistory(s, h, CopyC(id, junk)))
  {
    hide Inv, PlacedLayer, PlacedFrozen, Snapshot, Linked, Reserved, FrozenRefs, Rec, Cloned, Over, Condensed;
    InvParts(s, p, h);
    var s' := CopiedC(s, id, junk);
    StringsStayClean(s, h, id);
    if !Has(s.c, id) || (id !in s.gc.dark && s.c[id].white) {
      SkippedC(s, s', h, id);
      QuietThreadStep(s, s', p, h);
    } else {
      RecAt(s, s.c, FrozenTop(s), id);
      if Has(s.gc.newB, id) {
        NewBAt(s, id);
        MergeKeepsInv(s, s', p, h, id, s'.heap[s.gc.newB[id].offset].obj);
      } else {
        CopiedCCloned(s, h, id, junk);
        CloneKeepsInv(s, s', p, h, id, s.c[id].offset);
      }
    }
  }
}
