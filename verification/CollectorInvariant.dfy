/** What every step of the two threads keeps. */
module CollectorInvariant {
  import opened Options
  import opened Graph
  import opened Objects
  import opened Layers
  import opened Collector

  /** What the proof remembers of a run; no step reads it. */
  datatype History = History(
    r: set<Id>,        // holds all the program can reach, and no more than the GC budgets for
    n0: Id,            // nextId at the last freeze,
    roots0: set<Id>,   //   the roots then,
    edges: Edges,      //   what the frozen records mention,
    d0: set<Id>,       //   and all that was reachable through them
    white: seq<Id>)    // the white list, from its head

  /** The ids that must resolve: reachable ones, and the strings in the intern table. */
  ghost function Held(s: State, h: History): set<Id>
  {
    h.r + s.weakNew + s.weakOld
  }

  // ----- the two machines agree -----

  ghost predicate Agrees(s: State, p: Program, id: Id)
  {
    id in p.objs && View(s, id) == Some(p.objs[id]) && RecsOf(s, id).SameKind()
  }

  ghost predicate Coupled(s: State, p: Program, h: History)
  {
    && p.roots == s.roots && p.nextId == s.nextId
    && (forall id :: id in Held(s, h) ==> Agrees(s, p, id))
    && forall id :: id in s.weakNew + s.weakOld ==> id in p.objs && p.objs[id].Str?
  }

  /** The program stays within r, even through entries that upper layers hide. */
  ghost predicate Confined(s: State, h: History)
  {
    && s.roots <= h.r && s.hidden <= h.r && NIL !in h.r
    && forall id :: id in h.r ==> RecsOf(s, id).Mentions() <= h.r
  }

  ghost predicate Budgeted(s: State, h: History)
  {
    |h.r| <= s.newCount + if s.gc.phase.Idle? then s.preserved else |h.d0|
  }

  // ----- the heap -----

  ghost predicate Within(l: Layer, h: Heap, lo: nat, hi: nat)
  {
    forall id :: Has(l, id) ==> lo <= l[id].offset < hi && l[id].offset in h
  }

  ghost predicate Distinct(l: Layer)
  {
    forall i, j :: Has(l, i) && Has(l, j) && l[i].offset == l[j].offset ==> i == j
  }

  ghost predicate KeysBelow(l: Layer, n: Id)
  {
    forall id :: id in l ==> NIL < id < n
  }

  ghost predicate PlacedLayer(l: Layer, h: Heap, lo: nat, hi: nat, n: Id)
  {
    Within(l, h, lo, hi) && Distinct(l) && KeysBelow(l, n)
  }

  ghost predicate PlacedFrozen(l: Layer, h: Heap, hi: nat, n: Id)
  {
    Within(l, h, 0, hi) && KeysBelow(l, n)
  }

  function FrozenTop(s: State): nat
  {
    if s.gc.phase.Idle? then s.gc.limit else s.gc.start
  }

  /** Where things are: frozen records below the region of the request, condensed ones in
    * it, and what the main thread may write above it. */
  ghost predicate Placed(s: State)
  {
    && s.gc.bound <= s.gc.start <= s.gc.next <= s.gc.limit <= s.cursor
    && 0 < s.nextId
    && PlacedLayer(s.a, s.heap, s.gc.limit, s.cursor, s.nextId)
    && PlacedFrozen(s.b, s.heap, FrozenTop(s), s.nextId)
    && PlacedFrozen(s.c, s.heap, FrozenTop(s), s.nextId)
    && PlacedLayer(s.gc.newB, s.heap, s.gc.start, s.gc.next, s.nextId)
  }

  // ----- no collection outstanding -----

  /** An interned string has one record, and it is not flagged. */
  predicate OneCleanRecord(upper: Layer, lower: Layer, id: Id)
  {
    (Has(upper, id) && !upper[id].white && !Has(lower, id)) || (!Has(upper, id) && Has(lower, id) && !lower[id].white)
  }

  /** Nothing is written over a condemned object. */
  ghost predicate CondemnedAlone(upper: Layer, lower: Layer)
  {
    forall id :: Flagged(lower, id) ==> !Has(upper, id)
  }

  ghost predicate Quiet(s: State, p: Program, h: History)
  {
    && s.c == map[] && s.gc.newB == map[]
    && (forall id :: id in s.b ==> s.b[id].At?)
    && (forall id :: id in s.weakNew + s.weakOld ==> OneCleanRecord(s.a, s.b, id))
    && CondemnedAlone(s.a, s.b)
    && (forall id :: Has(s.a, id) ==> !s.a[id].white)
    && forall id :: id in h.r && Flagged(s.b, id) ==> id in p.objs && p.objs[id].Str?
  }

  // ----- a collection outstanding -----

  /** What was reachable at the freeze, and the shape of the frozen layers. */
  ghost predicate Snapshot(s: State, h: History)
  {
    && h.d0 == ReachSet(h.edges, h.roots0)
    && (forall id :: id in h.d0 ==> id in h.edges && h.edges[id] == FrozenRefs(s, id))
    && (forall id :: id in h.d0 ==> Has(s.b, id) || Has(s.c, id))
    && |h.d0| <= s.gc.capacity
    && KeysBelow(s.b, h.n0) && KeysBelow(s.c, h.n0)
    && (forall id :: id in s.weakOld ==> OneCleanRecord(s.b, s.c, id))
    && (forall id :: id in s.c ==> s.c[id].At?)
    && (forall id :: Has(s.b, id) ==> !s.b[id].white)
    && CondemnedAlone(s.b, s.c)
  }

  /** What the program has done since: it reaches nothing older than the freeze but what
    * was reachable then or is an interned string. */
  ghost predicate Since(s: State, h: History)
  {
    && h.d0 <= h.r && h.n0 <= s.nextId
    && (forall id :: id in h.r ==> id in h.d0 || id in s.weakOld || h.n0 <= id)
    && (forall id :: Has(s.a, id) ==> (id in h.d0 && id !in s.weakOld) || h.n0 <= id)
    && (forall id :: Has(s.a, id) ==> !s.a[id].white)
    && (forall id :: id in s.weakNew ==> h.n0 <= id && Has(s.a, id))
  }

  /** Tricolour marking from the frozen roots. */
  ghost predicate Marked(s: State, h: History)
  {
    && s.gc.todo <= h.roots0 <= s.gc.dark + s.gc.todo
    && s.gc.dark <= h.d0
    && (forall i, j :: 0 <= i < j < |s.gc.gray| ==> s.gc.gray[i] != s.gc.gray[j])
    && (forall x :: x in s.gc.gray ==> x in s.gc.dark)
    && (forall x :: x in s.gc.dark && x !in s.gc.gray ==> FrozenRefs(s, x) <= s.gc.dark)
    && s.gc.newB == map[] && s.gc.next == s.gc.start && s.gc.whiteHead == NIL
    && h.white == []
  }

  /** Whether the copying so far has put an id into the condensed layer. */
  ghost predicate Kept(s: State, id: Id)
  {
    if s.gc.phase.CopyingB? then Has(s.b, id) && id !in s.gc.todo
    else Has(s.b, id) || (Has(s.c, id) && id !in s.gc.todo && (id in s.gc.dark || !s.c[id].white))
  }

  /** What the condensed layer holds so far for an id that matters. */
  ghost function Expected(s: State, id: Id): Option<Obj>
  {
    if s.gc.phase.CopyingB? || id in s.gc.todo then Rec(s.b, s.heap, id)
    else Above(Rec(s.b, s.heap, id), Rec(s.c, s.heap, id))
  }

  ghost predicate Condensed(s: State, h: History)
  {
    && s.gc.dark == h.d0
    && (forall id :: id in s.gc.newB ==> s.gc.newB[id].At?)
    && (forall id :: Has(s.gc.newB, id) <==> Kept(s, id))
    && (forall id :: Has(s.gc.newB, id) ==> (s.gc.newB[id].white <==> id !in s.gc.dark))
    && (forall id :: Has(s.gc.newB, id) && (id in s.gc.dark || id in s.weakOld) ==>
          Rec(s.gc.newB, s.heap, id) == Expected(s, id))
    && (s.gc.phase.Ready? ==> s.gc.todo == {})
  }

  ghost predicate Reserved(s: State)
  {
    && s.gc.next == s.gc.start + |s.gc.newB|
    && s.gc.limit == s.gc.start + |s.b| + |s.c|
  }

  function First(ids: seq<Id>): Id
  {
    if ids == [] then NIL else ids[0]
  }

  /** The white list links exactly the flagged clones, each once. */
  ghost predicate Linked(l: Layer, heap: Heap, head: Id, white: seq<Id>)
  {
    && head == First(white)
    && (forall i, j :: 0 <= i < j < |white| ==> white[i] != white[j])
    && (forall id :: id in white <==> Flagged(l, id))
    && forall i :: 0 <= i < |white| ==>
         Has(l, white[i]) && l[white[i]].offset in heap && heap[l[white[i]].offset].whiteNext == First(white[i + 1..])
  }

  /** What the invariant says of the collection alone. */
  ghost predicate Collecting(s: State, h: History)
  {
    && (!s.gc.phase.Idle? ==> Snapshot(s, h) && Reserved(s) && Linked(s.gc.newB, s.heap, s.gc.whiteHead, h.white))
    && (s.gc.phase.Marking? ==> Marked(s, h))
    && (!s.gc.phase.Idle? && !s.gc.phase.Marking? ==> Condensed(s, h))
  }

  ghost predicate Inv(s: State, p: Program, h: History)
  {
    && Coupled(s, p, h)
    && Confined(s, h)
    && Budgeted(s, h)
    && Placed(s)
    && (if s.gc.phase.Idle? then Quiet(s, p, h) else Since(s, h))
    && Collecting(s, h)
  }

  ghost function NewlyWhite(s: State, s': State, id: Id, h: History): History
  {
    if s'.gc.whiteHead != s.gc.whiteHead then h.(white := [id] + h.white) else h
  }

  ghost function NextHistory(s: State, h: History, step: Step): History
  {
    match step
    case Alloc(_, _, _) => h.(r := h.r + {s.nextId})
    case Revive(id, _) => h.(r := h.r + {id})
    case Freeze(bound) =>
      var s' := Frozen(s, bound);
      var edges := map id | id in s.a.Keys + s.b.Keys :: FrozenRefs(s', id);
      var d := ReachSet(edges, s.roots + s.hidden);
      History(d, s.nextId, s.roots + s.hidden, edges, d, [])
    case CopyB(id) => NewlyWhite(s, Run(s, step), id, h)
    case CopyC(id, _) => NewlyWhite(s, Run(s, step), id, h)
    case _ => h
  }

  ghost function InitialHistory(): History
  {
    History({}, 1, {}, map[], {}, [])
  }

  lemma InitiallyInv()
    ensures Inv(Initial(), InitialProgram(), InitialHistory())
  {
  }
}
