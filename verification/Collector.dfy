/** The two-thread collector as a state machine: what the main thread and the collector
  * thread do to the layered object table and the heap, one atomic step at a time, beside
  * a plain machine that keeps one record per object and never collects.
  */
module Collector {
  import opened Options
  import opened Graph
  import opened Objects
  import opened Layers

  datatype Cell = Cell(obj: Obj, whiteNext: Id)

  type Heap = map<nat, Cell>

  datatype Phase = Idle | Marking | CopyingB | CopyingC | Ready

  /** What the collector thread works on between a request and its response. */
  datatype Gc = Gc(
    phase: Phase,
    todo: set<Id>,     // roots still to be grayed, or keys still to be traversed
    dark: set<Id>,
    gray: seq<Id>,
    capacity: nat,     // of the region for the gray list
    newB: Layer,
    whiteHead: Id,
    bound: nat,        // everything below is reclaimed when the response is integrated
    start: nat,        // the region for the condensed objects: [start, limit)
    next: nat,
    limit: nat)

  datatype State = State(
    a: Layer, b: Layer, c: Layer,
    heap: Heap,
    cursor: nat,
    nextId: Id,
    roots: set<Id>,     // what the stack, frames, open upvalues, globals and initString hold
    hidden: set<Id>,    // what the entries of the globals hold that upper layers mask
    weakNew: set<Id>,   // interned strings: those added since the last freeze,
    weakOld: set<Id>,   //   and those added before
    preserved: nat,
    newCount: nat,
    gc: Gc)

  /** The machine without layers and without a collector. */
  datatype Program = Program(objs: map<Id, Obj>, roots: set<Id>, nextId: Id)

  function Links(p: Program): Edges
  {
    map id | id in p.objs :: Refs(p.objs[id])
  }

  /** The ids that the program can get hold of. */
  ghost function Live(p: Program): set<Id>
  {
    ReachSet(Links(p), p.roots)
  }

  // ----- reading -----

  /** The records that an id has in the three layers. */
  datatype Recs = Recs(x: Option<Obj>, y: Option<Obj>, z: Option<Obj>)
  {
    function View(): Option<Obj>
    {
      Above(x, Above(y, z))
    }

    /** What objtable_lookup finds. */
    function Top(): Option<Obj>
    {
      if x.Some? then x else if y.Some? then y else z
    }

    function Mentions(): set<Id>
    {
      AllRefs(x, y, z)
    }

    predicate SameKind()
    {
      SameKinds(x, y) && SameKinds(y, z) && SameKinds(x, z)
    }
  }

  function Rec(l: Layer, h: Heap, id: Id): Option<Obj>
  {
    if Has(l, id) && l[id].offset in h then Some(h[l[id].offset].obj) else None
  }

  function RecsOf(s: State, id: Id): Recs
  {
    Recs(Rec(s.a, s.heap, id), Rec(s.b, s.heap, id), Rec(s.c, s.heap, id))
  }

  /** An object as the program sees it, layer over layer. */
  function View(s: State, id: Id): Option<Obj>
  {
    RecsOf(s, id).View()
  }

  // ----- steps -----

  datatype Step =
    // the program
    | Alloc(obj: Obj, rooted: bool, interned: bool)
    | Revive(id: Id, chars: string)
    | Mutate(id: Id, edit: Edit)
    | Retarget(roots: set<Id>, hidden: set<Id>)
    // the main thread, for the collector
    | Freeze(bound: nat)
    | Integrate
    // the collector thread
    | GrayRoot(id: Id)
    | GrayLeaves(order: seq<Id>)
    | StartB
    | CopyB(id: Id)
    | StartC
    | CopyC(id: Id, junk: Obj)
    | Finish

  predicate IsProgramStep(step: Step)
  {
    step.Alloc? || step.Revive? || step.Mutate? || step.Retarget?
  }

  /** What the program does to the plain machine. */
  function RunPlain(p: Program, step: Step): Program
  {
    match step
    case Alloc(obj, rooted, _) =>
      p.(objs := p.objs[p.nextId := obj], nextId := p.nextId + 1,
         roots := if rooted then p.roots + {p.nextId} else p.roots)
    case Revive(id, chars) =>
      p.(objs := p.objs[p.nextId := Str(chars)], nextId := p.nextId + 1, roots := p.roots + {id})
    case Mutate(id, e) =>
      if id in p.objs && EditFits(p.objs[id], e) then p.(objs := p.objs[id := Edited(p.objs[id], e)]) else p
    case Retarget(roots, _) => p.(roots := roots)
    case _ => p
  }

  /** allocateObject and objtable_add: a record in A at the cursor. */
  function Allocated(s: State, obj: Obj): State
  {
    s.(a := s.a[s.nextId := At(s.cursor, false)], heap := s.heap[s.cursor := Cell(obj, NIL)],
       cursor := s.cursor + 1, nextId := s.nextId + 1, newCount := s.newCount + 1)
  }

  /** A write through resolveAsMutableLayer: in place when A has the object, and else to
    * a record derived into A from the topmost one. */
  function Mutated(s: State, id: Id, e: Edit): State
  {
    var top := RecsOf(s, id).Top();
    if top.None? || !EditFits(top.value, e) then s
    else if Has(s.a, id) then
      var o := s.a[id].offset;
      s.(heap := s.heap[o := Cell(Edited(top.value, e), if o in s.heap then s.heap[o].whiteNext else NIL)])
    else
      s.(a := s.a[id := At(s.cursor, false)],
         heap := s.heap[s.cursor := Cell(if Layered(top.value) then Edited(Derived(top.value), e) else Edited(top.value, e), NIL)],
         cursor := s.cursor + 1)
  }

  /** collectGarbage: the layers shift down, and regions are reserved above the cursor
    * for the gray list and for the condensed objects. */
  function Frozen(s: State, bound: nat): State
  {
    var limit := s.cursor + |s.a| + |s.b|;
    State(map[], s.a, s.b, s.heap, limit, s.nextId, s.roots, s.hidden, {}, s.weakNew + s.weakOld, s.preserved, 0,
          Gc(Marking, s.roots + s.hidden, {}, [], s.preserved + s.newCount, map[], NIL, bound, s.cursor, s.cursor, limit))
  }

  /** cloneObject into the region of the request; a newly white object goes to the front
    * of the white list. */
  function Cloned(s: State, id: Id, offset: nat): State
  {
    var white := id !in s.gc.dark;
    var cell := if offset in s.heap then s.heap[offset] else Cell(Str(""), NIL);
    s.(heap := s.heap[s.gc.next := if white then cell.(whiteNext := s.gc.whiteHead) else cell],
       gc := s.gc.(newB := s.gc.newB[id := At(s.gc.next, white)], next := s.gc.next + 1,
                   whiteHead := if white then id else s.gc.whiteHead))
  }

  /** copy_objtable_b */
  function CopiedB(s: State, id: Id): State
  {
    var s' := s.(gc := s.gc.(todo := s.gc.todo - {id}));
    if !Has(s.b, id) then s' else Cloned(s', id, s.b[id].offset)
  }

  /** copy_objtable_c_not_in_b. For an undark id with records in both layers the flagged
    * offset is used as an address; what becomes of its clone is then left open. */
  function CopiedC(s: State, id: Id, junk: Obj): State
  {
    var s' := s.(gc := s.gc.(todo := s.gc.todo - {id}));
    if !Has(s.c, id) then s'
    else if id !in s.gc.dark && s.c[id].white then s'
    else if Has(s.gc.newB, id) then
      var o := s.gc.newB[id].offset;
      var upper := Rec(s.gc.newB, s.heap, id);
      var lower := Rec(s.c, s.heap, id);
      if upper.None? || lower.None? then s'
      else s'.(heap := s.heap[o := s.heap[o].(obj := if id in s.gc.dark then Over(upper.value, lower.value) else junk)])
    else Cloned(s', id, s.c[id].offset)
  }

  predicate Flagged(l: Layer, id: Id)
  {
    Has(l, id) && l[id].white
  }

  /** freeObject for each of a set of ids. */
  function Invalidated(a: Layer, ids: set<Id>): Layer
  {
    a + map id | id in ids :: Null
  }

  function WhiteSet(l: Layer): set<Id>
  {
    set id | id in l && Flagged(l, id)
  }

  /** integrateGCResponse */
  function Integrated(s: State): State
  {
    s.(a := Invalidated(s.a, WhiteSet(s.gc.newB)), b := s.gc.newB, c := map[],
       heap := map o | o in s.heap && o >= s.gc.bound :: s.heap[o],
       weakOld := s.weakOld * s.gc.dark,
       preserved := |s.gc.dark|,
       gc := s.gc.(phase := Idle, newB := map[]))
  }

  /** What grayObjectLeaves grays for an id: what its topmost frozen record mentions, and
    * the entries of the record beneath. */
  function FrozenRefs(s: State, id: Id): set<Id>
  {
    Recs(None, Rec(s.b, s.heap, id), Rec(s.c, s.heap, id)).Mentions()
  }

  function Elements(order: seq<Id>): set<Id>
  {
    set x | x in order
  }

  ghost predicate Lists(order: seq<Id>, ids: set<Id>)
  {
    && (forall i, j :: 0 <= i < j < |order| ==> order[i] != order[j])
    && (forall x :: x in order <==> x in ids)
  }

  /** When a step may be taken: the program holds the ids that it uses, one collection is
    * outstanding at a time, and the collector thread follows gc_perform. */
  ghost predicate Enabled(s: State, p: Program, step: Step)
  {
    match step
    case Alloc(obj, _, interned) => Refs(obj) <= Live(p) && (interned ==> obj.Str?)
    case Revive(id, chars) => id in s.weakNew + s.weakOld && id in p.objs && p.objs[id] == Str(chars)
    case Mutate(id, e) => id in Live(p) && id in p.objs && EditFits(p.objs[id], e) && EditRefs(e) <= Live(p)
    case Retarget(roots, hidden) => roots <= Live(p) && hidden <= Live(p) + s.hidden
    case Freeze(bound) => s.gc.phase.Idle? && bound <= s.cursor
    case Integrate => s.gc.phase.Ready?
    case GrayRoot(id) => s.gc.phase.Marking? && id in s.gc.todo
    case GrayLeaves(order) =>
      s.gc.phase.Marking? && s.gc.todo == {} && |s.gc.gray| > 0
      && Lists(order, FrozenRefs(s, s.gc.gray[|s.gc.gray| - 1]) - s.gc.dark)
    case StartB => s.gc.phase.Marking? && s.gc.todo == {} && s.gc.gray == []
    case CopyB(id) => s.gc.phase.CopyingB? && id in s.gc.todo
    case StartC => s.gc.phase.CopyingB? && s.gc.todo == {}
    case CopyC(id, _) => s.gc.phase.CopyingC? && id in s.gc.todo
    case Finish => s.gc.phase.CopyingC? && s.gc.todo == {}
  }

  function Run(s: State, step: Step): State
  {
    match step
    case Alloc(obj, rooted, interned) =>
      Allocated(s, obj).(roots := if rooted then s.roots + {s.nextId} else s.roots,
                         weakNew := if interned then s.weakNew + {s.nextId} else s.weakNew)
    case Revive(id, chars) => Allocated(s, Str(chars)).(roots := s.roots + {id})
    case Mutate(id, e) => Mutated(s, id, e)
    case Retarget(roots, hidden) => s.(roots := roots, hidden := hidden)
    case Freeze(bound) => Frozen(s, bound)
    case Integrate => Integrated(s)
    case GrayRoot(id) =>
      s.(gc := s.gc.(todo := s.gc.todo - {id}, dark := s.gc.dark + {id},
                     gray := if id in s.gc.dark then s.gc.gray else s.gc.gray + [id]))
    case GrayLeaves(order) =>
      if s.gc.gray == [] then s
      else s.(gc := s.gc.(dark := s.gc.dark + Elements(order), gray := s.gc.gray[..|s.gc.gray| - 1] + order))
    case StartB => s.(gc := s.gc.(phase := CopyingB, todo := s.b.Keys))
    case CopyB(id) => CopiedB(s, id)
    case StartC => s.(gc := s.gc.(phase := CopyingC, todo := s.c.Keys))
    case CopyC(id, junk) => CopiedC(s, id, junk)
    case Finish => s.(gc := s.gc.(phase := Ready))
  }

  /** initVM: three empty layers. */
  function Initial(): State
  {
    State(map[], map[], map[], map[], 1, 1, {}, {}, {}, {}, 0, 0,
          Gc(Idle, {}, {}, [], 0, map[], NIL, 1, 1, 1, 1))
  }

  function InitialProgram(): Program
  {
    Program(map[], {}, 1)
  }
}
