/** The whole of the program's state beside the collector: the layered value stack, the
  * layered frames and the layered globals, with the heap underneath. Everything that is
  * frozen, condensed and swapped goes through one protocol, and none of it shows.
  */
module World {
  import opened Options
  import opened Graph
  import opened Objects
  import opened LayeredSeq
  import opened Tables
  import opened Collector
  import opened CollectorInvariant
  import opened CollectorProgram
  import opened CollectorTheorems

  /** The part of a call frame that is the program's; its cached pointers are not. */
  datatype Call = Call(closure: Id, ip: nat, base: nat)

  /** The condensed parts of the response, as far as the collector thread has got. */
  datatype Response = Response(stack: Option<seq<Value>>, calls: Option<seq<Call>>, globals: Option<Tree<Id, Value>>)

  datatype World = World(
    core: State,
    stack: Split<Value>,
    calls: Split<Call>,
    globalsA: Tree<Id, Value>, globalsB: Tree<Id, Value>, globalsC: Tree<Id, Value>,
    pinned: set<Id>,      // the open upvalues and initString
    response: Response)

  /** The same program without layers and without a collector. */
  datatype Machine = Machine(
    objs: map<Id, Obj>, nextId: Id,
    stack: seq<Value>, calls: seq<Call>, globals: map<Id, Value>, pinned: set<Id>)

  // ----- roots -----

  function StackRefs(s: seq<Value>): set<Id>
  {
    set v | v in s && v.Ref? && v.id != NIL :: v.id
  }

  function CallRefs(s: seq<Call>): set<Id>
  {
    set c | c in s && c.closure != NIL :: c.closure
  }

  function GlobalRefs(m: map<Id, Value>): set<Id>
  {
    (set k | k in m && k != NIL) + (set k | k in m && m[k].Ref? && m[k].id != NIL :: m[k].id)
  }

  /** grayTable: every key and every value of a layer, masked or not. */
  function TreeRefs(t: Tree<Id, Value>): set<Id>
  {
    (set k | k in t && k != NIL) + (set k | k in t && t[k].Holds? && t[k].value.Ref? && t[k].value.id != NIL :: t[k].value.id)
  }

  function Roots(m: Machine): set<Id>
  {
    StackRefs(m.stack) + CallRefs(m.calls) + GlobalRefs(m.globals) + (m.pinned - {NIL})
  }

  function Hidden(w: World): set<Id>
  {
    TreeRefs(w.globalsA) + TreeRefs(w.globalsB) + TreeRefs(w.globalsC)
  }

  function AsProgram(m: Machine): Program
  {
    Program(m.objs, Roots(m), m.nextId)
  }

  // ----- steps -----

  datatype Move =
    | New(obj: Obj, interned: bool)        // allocate and push
    | Reuse(id: Id, chars: string)         // find an interned string and push it
    | Edit(id: Id, edit: Objects.Edit)
    | Push(v: Value) | Pop(n: nat) | Store(i: nat, v: Value)
    | Enter(call: Call) | Leave | Advance(call: Call)
    | SetGlobal(key: Id, value: Value) | DeleteGlobal(key: Id)
    | Pin(ids: set<Id>)
    // the main thread, for itself and for the collector
    | ToTop(stackFrom: nat, callsFrom: nat)
    | FreezeAll(bound: nat)
    | IntegrateAll
    // the collector thread
    | Thread(step: Step)
    | CondenseStack | CondenseCalls | CondenseGlobals

  predicate IsProgramMove(m: Move)
  {
    m.New? || m.Reuse? || m.Edit? || m.Push? || m.Pop? || m.Store? || m.Enter? || m.Leave? || m.Advance?
    || m.SetGlobal? || m.DeleteGlobal? || m.Pin?
  }

  /** What a move does to the machine without a collector. */
  function Do(m: Machine, move: Move): Machine
  {
    match move
    case New(obj, _) => m.(objs := m.objs[m.nextId := obj], nextId := m.nextId + 1, stack := m.stack + [Ref(m.nextId)])
    case Reuse(id, chars) => m.(objs := m.objs[m.nextId := Str(chars)], nextId := m.nextId + 1, stack := m.stack + [Ref(id)])
    case Edit(id, e) => m.(objs := RunPlain(AsProgram(m), Mutate(id, e)).objs)
    case Push(v) => m.(stack := m.stack + [v])
    case Pop(n) => if n <= |m.stack| then m.(stack := m.stack[..|m.stack| - n]) else m
    case Store(i, v) => if i < |m.stack| then m.(stack := m.stack[i := v]) else m
    case Enter(call) => m.(calls := m.calls + [call])
    case Leave => if |m.calls| > 0 then m.(calls := m.calls[..|m.calls| - 1]) else m
    case Advance(call) => if |m.calls| > 0 then m.(calls := m.calls[|m.calls| - 1 := call]) else m
    case SetGlobal(k, v) => m.(globals := m.globals[k := v])
    case DeleteGlobal(k) => m.(globals := m.globals - {k})
    case Pin(ids) => m.(pinned := ids)
    case _ => m
  }

  /** The step of the heap that goes with a move. */
  function HeapStep(move: Move): Option<Step>
  {
    match move
    case New(obj, interned) => Some(Alloc(obj, true, interned))
    case Reuse(id, chars) => Some(Revive(id, chars))
    case Edit(id, e) => Some(Mutate(id, e))
    case FreezeAll(bound) => Some(Freeze(bound))
    case IntegrateAll => Some(Integrate)
    case Thread(step) => Some(step)
    case _ => None
  }

  /** What a move does to the layers other than the heap's. */
  function Relayered(w: World, move: Move): World
  {
    match move
    case New(_, _) => w.(stack := w.stack.Pushed(Ref(w.core.nextId)))
    case Reuse(id, _) => w.(stack := w.stack.Pushed(Ref(id)))
    case Push(v) => w.(stack := w.stack.Pushed(v))
    case Pop(n) => if w.stack.Ok() && n <= w.stack.base + |w.stack.top| then w.(stack := w.stack.Discarded(n)) else w
    case Store(i, v) => if w.stack.base <= i < w.stack.base + |w.stack.top| then w.(stack := w.stack.Stored(i, v)) else w
    case Enter(call) => w.(calls := w.calls.Pushed(call))
    case Leave => if w.calls.Ok() && 1 <= w.calls.base + |w.calls.top| then w.(calls := w.calls.Discarded(1)) else w
    case Advance(call) => if |w.calls.top| > 0 then w.(calls := w.calls.Stored(w.calls.base + |w.calls.top| - 1, call)) else w
    case SetGlobal(k, v) => w.(globalsA := w.globalsA[k := Holds(v)])
    case DeleteGlobal(k) => w.(globalsA := w.globalsA[k := Tombstone])
    case Pin(ids) => w.(pinned := ids)
    case ToTop(i, j) =>
      if w.stack.Ok() && i <= w.stack.base + |w.stack.top| && w.calls.Ok() && j <= w.calls.base + |w.calls.top|
      then w.(stack := w.stack.Raised(i), calls := w.calls.Raised(j)) else w
    case FreezeAll(_) =>
      if w.stack.Ok() && w.calls.Ok()
      then w.(stack := w.stack.Lowered(), calls := w.calls.Lowered(), globalsA := map[], globalsB := w.globalsA, globalsC := w.globalsB,
              response := Response(None, None, None)) else w
    case CondenseStack => w.(response := w.response.(stack := Some(w.stack.under)))
    case CondenseCalls => w.(response := w.response.(calls := Some(w.calls.under)))
    case CondenseGlobals => w.(response := w.response.(globals := Some(w.globalsC + w.globalsB)))
    case IntegrateAll =>
      if w.response.stack.Some? && w.response.calls.Some? && w.response.globals.Some?
      then w.(stack := w.stack.(under := w.response.stack.value), calls := w.calls.(under := w.response.calls.value),
              globalsB := w.response.globals.value, globalsC := map[]) else w
    case _ => w
  }

  /** The machine that the layers stand for, the objects aside. */
  function Unlayered(w: World): Machine
  {
    Machine(map[], w.core.nextId, if w.stack.Ok() then w.stack.Contents() else [], if w.calls.Ok() then w.calls.Contents() else [],
            Visible(w.globalsA, w.globalsB, w.globalsC), w.pinned)
  }

  function HeapAfter(w: World, move: Move): State
  {
    if HeapStep(move).Some? then Run(w.core, HeapStep(move).value) else w.core
  }

  /** A move changes the heap and the other layers, and the roots follow the latter. */
  function DoLayered(w: World, move: Move): World
  {
    var w1 := Relayered(w, move);
    w1.(core := Run(HeapAfter(w, move), Retarget(Roots(Unlayered(w1)), Hidden(w1))))
  }

  /** Values come from what the program can reach; the current frame and the stack slots
    * written lie in A; the collector thread follows gc_perform. */
  ghost predicate Allowed(w: World, m: Machine, move: Move)
  {
    var live := Live(AsProgram(m));
    match move
    case Push(v) => ValueRefs(v) <= live
    case Pop(n) => n <= |m.stack|
    case Store(i, v) => w.stack.base <= i < |m.stack| && ValueRefs(v) <= live
    case Enter(call) => call.closure in live + {NIL}
    case Leave => |m.calls| > 0
    case Advance(call) => |m.calls| > 0 && w.calls.base < |m.calls| && call.closure in live + {NIL}
    case SetGlobal(k, v) => {k} - {NIL} + ValueRefs(v) <= live
    case DeleteGlobal(k) => {k} - {NIL} <= live
    case Pin(ids) => ids <= live
    case ToTop(i, j) => i <= |m.stack| && j <= |m.calls|
    case Thread(step) => IsThreadStep(step) && Enabled(w.core, AsProgram(m), step)
    case CondenseStack => w.core.gc.phase.Ready?
    case CondenseCalls => w.core.gc.phase.Ready?
    case CondenseGlobals => w.core.gc.phase.Ready?
    case IntegrateAll => w.core.gc.phase.Ready? && w.response.stack.Some? && w.response.calls.Some? && w.response.globals.Some?
    case _ => Enabled(w.core, AsProgram(m), HeapStep(move).value)
  }

  ghost predicate Matches(w: World, m: Machine)
  {
    && w.stack.Ok() && w.stack.Contents() == m.stack
    && w.calls.Ok() && w.calls.Contents() == m.calls
    && Visible(w.globalsA, w.globalsB, w.globalsC) == m.globals
    && w.pinned == m.pinned
  }

  ghost predicate Responding(w: World)
  {
    && (w.response.stack.Some? ==> w.response.stack.value == w.stack.under)
    && (w.response.calls.Some? ==> w.response.calls.value == w.calls.under)
    && (w.response.globals.Some? ==> w.response.globals.value == w.globalsC + w.globalsB)
  }

  ghost predicate WorldInv(w: World, m: Machine, h: History)
  {
    && Inv(w.core, AsProgram(m), h)
    && w.core.hidden == Hidden(w)
    && Matches(w, m)
    && (if w.core.gc.phase.Idle? then w.globalsC == map[] else Responding(w))
  }

  ghost function HistoryOf(w: World, h: History, move: Move): History
  {
    if HeapStep(move).Some? then NextHistory(w.core, h, HeapStep(move).value) else h
  }

  // ----- what the roots gain -----

  lemma StackGains(s: seq<Value>, v: Value, n: nat)
    requires n <= |s|
    ensures StackRefs(s + [v]) <= StackRefs(s) + ValueRefs(v)
    ensures StackRefs(s[..n]) <= StackRefs(s)
    ensures n < |s| ==> StackRefs(s[n := v]) <= StackRefs(s) + ValueRefs(v)
  {
  }

  lemma CallsGain(s: seq<Call>, c: Call, n: nat)
    requires n <= |s|
    ensures CallRefs(s + [c]) <= CallRefs(s) + ({c.closure} - {NIL})
    ensures CallRefs(s[..n]) <= CallRefs(s)
    ensures n < |s| ==> CallRefs(s[n := c]) <= CallRefs(s) + ({c.closure} - {NIL})
  {
  }

  lemma GlobalsGain(m: map<Id, Value>, k: Id, v: Value)
    ensures GlobalRefs(m[k := v]) <= GlobalRefs(m) + ({k} - {NIL}) + ValueRefs(v)
    ensures GlobalRefs(m - {k}) <= GlobalRefs(m)
  {
  }

  lemma TreeGains(t: Tree<Id, Value>, k: Id, e: Entry<Value>)
    ensures TreeRefs(t[k := e]) <= TreeRefs(t) + ({k} - {NIL}) + if e.Holds? then ValueRefs(e.value) else {}
  {
  }

  lemma TreesMerge(b: Tree<Id, Value>, c: Tree<Id, Value>)
    ensures TreeRefs(c + b) <= TreeRefs(b) + TreeRefs(c)
    ensures TreeRefs(map[]) == {}
  {
  }

  /** No root comes from nowhere. */
  lemma RootsGain(w: World, m: Machine, move: Move)
    requires Allowed(w, m, move) && !move.New? && !move.Reuse?
    ensures Roots(Do(m, move)) <= Roots(m) + Live(AsProgram(m))
  {
    hide StackRefs, CallRefs, GlobalRefs, Live, Enabled, RunPlain;
    match move
    case Push(v) => StackGains(m.stack, v, 0);
    case Pop(n) => StackGains(m.stack, Ref(NIL), |m.stack| - n);
    case Store(i, v) => StackGains(m.stack, v, i);
    case Enter(call) => CallsGain(m.calls, call, 0);
    case Leave => CallsGain(m.calls, Call(NIL, 0, 0), |m.calls| - 1);
    case Advance(call) => CallsGain(m.calls, call, |m.calls| - 1);
    case SetGlobal(k, v) => GlobalsGain(m.globals, k, v);
    case DeleteGlobal(k) => GlobalsGain(m.globals, k, Ref(NIL));
    case _ =>
  }

  lemma HiddenGains(w: World, m: Machine, move: Move)
    requires Allowed(w, m, move) && (move.IntegrateAll? ==> Responding(w))
    ensures Hidden(Relayered(w, move)) <= Hidden(w) + Live(AsProgram(m))
    ensures HeapStep(move).Some? ==> Hidden(Relayered(w, move)) <= Hidden(w)
  {
    hide TreeRefs, Live, Enabled, AsProgram, Roots, RunPlain,
      Split.Contents, Split.Pushed, Split.Discarded, Split.Stored, Split.Raised, Split.Lowered;
    TreesMerge(w.globalsB, w.globalsC);
    match move
    case SetGlobal(k, v) => TreeGains(w.globalsA, k, Holds(v));
    case DeleteGlobal(k) => TreeGains(w.globalsA, k, Tombstone);
    case _ =>
  }

  // ----- the layers -----

  lemma StackMovesMatch(w: World, m: Machine, move: Move)
    requires Matches(w, m) && Allowed(w, m, move) && w.core.nextId == m.nextId
    requires move.New? || move.Reuse? || move.Push? || move.Pop? || move.Store?
    ensures Matches(Relayered(w, move), Do(m, move))
  {
    hide Enabled, Live, Visible, Split.Contents, Split.Pushed, Split.Discarded, Split.Stored;
    ContentsSize(w.stack);
    match move
    case New(_, _) => PushedContents(w.stack, Ref(m.nextId));
    case Reuse(id, _) => PushedContents(w.stack, Ref(id));
    case Push(v) => PushedContents(w.stack, v);
    case Pop(n) => DiscardedContents(w.stack, n);
    case Store(i, v) => StoredContents(w.stack, i, v);
  }

  lemma CallMovesMatch(w: World, m: Machine, move: Move)
    requires Matches(w, m) && Allowed(w, m, move) && (move.Enter? || move.Leave? || move.Advance?)
    ensures Matches(Relayered(w, move), Do(m, move))
  {
    hide Enabled, Live, Visible, Split.Contents, Split.Pushed, Split.Discarded, Split.Stored;
    ContentsSize(w.calls);
    match move
    case Enter(call) => PushedContents(w.calls, call);
    case Leave => DiscardedContents(w.calls, 1);
    case Advance(call) => StoredContents(w.calls, |m.calls| - 1, call);
  }

  lemma LayerMovesMatch(w: World, m: Machine, move: Move)
    requires Matches(w, m) && Allowed(w, m, move)
    requires move.ToTop? || move.FreezeAll? || move.IntegrateAll?
    requires (move.FreezeAll? ==> w.globalsC == map[]) && (move.IntegrateAll? ==> Responding(w))
    ensures Matches(Relayered(w, move), Do(m, move))
  {
    hide Enabled, Live, Visible, Split.Contents, Split.Raised, Split.Lowered;
    ContentsSize(w.stack);
    ContentsSize(w.calls);
    match move
    case ToTop(i, j) =>
      RaisedContents(w.stack, i);
      RaisedContents(w.calls, j);
    case FreezeAll(_) =>
      LoweredContents(w.stack);
      LoweredContents(w.calls);
      ShiftKeepsVisible(w.globalsA, w.globalsB);
    case IntegrateAll => CondensingKeepsVisible(w.globalsA, w.globalsB, w.globalsC);
  }

  lemma MovesMatch(w: World, m: Machine, move: Move)
    requires Matches(w, m) && Allowed(w, m, move) && w.core.nextId == m.nextId
    requires (move.FreezeAll? ==> w.globalsC == map[]) && (move.IntegrateAll? ==> Responding(w))
    ensures Matches(Relayered(w, move), Do(m, move))
  {
    hide Allowed, Visible, Split.Contents;
    if move.New? || move.Reuse? || move.Push? || move.Pop? || move.Store? {
      StackMovesMatch(w, m, move);
    } else if move.Enter? || move.Leave? || move.Advance? {
      CallMovesMatch(w, m, move);
    } else if move.ToTop? || move.FreezeAll? || move.IntegrateAll? {
      LayerMovesMatch(w, m, move);
    } else if move.SetGlobal? {
      SetIsVisible(w.globalsA, w.globalsB, w.globalsC, move.key, Holds(move.value));
    } else if move.DeleteGlobal? {
      SetIsVisible<Id, Value>(w.globalsA, w.globalsB, w.globalsC, move.key, Tombstone);
    }
  }

  lemma ContentsSize<T>(s: Split<T>)
    requires s.Ok()
    ensures |s.Contents()| == s.base + |s.top|
  {
  }

  lemma ThreadPhase(s: State, p: Program, step: Step)
    requires Enabled(s, p, step) && IsThreadStep(step)
    ensures !s.gc.phase.Idle? && !Run(s, step).gc.phase.Idle?
  {
    hide Live, FrozenRefs, Rec, Over, Lists;
  }

  lemma ProgramPhase(s: State, step: Step)
    requires IsProgramStep(step)
    ensures Run(s, step).gc == s.gc
  {
  }

  lemma PhaseAfter(w: World, m: Machine, move: Move)
    requires Allowed(w, m, move)
    ensures HeapAfter(w, move).gc.phase.Idle? <==> move.IntegrateAll? || (w.core.gc.phase.Idle? && !move.FreezeAll?)
    ensures move.FreezeAll? ==> w.core.gc.phase.Idle?
  {
    hide Enabled, Live, Run;
    var step := HeapStep(move);
    if move.Thread? {
      ThreadPhase(w.core, AsProgram(m), step.value);
    } else if move.FreezeAll? || move.IntegrateAll? {
      HandoverPhase(w.core, AsProgram(m), step.value);
    } else if step.Some? {
      ProgramPhase(w.core, step.value);
    }
  }

  lemma HandoverPhase(s: State, p: Program, step: Step)
    requires step.Freeze? || step.Integrate?
    ensures Run(s, step).gc.phase.Idle? <==> step.Integrate?
    ensures Enabled(s, p, step) ==> if step.Freeze? then s.gc.phase.Idle? else s.gc.phase.Ready?
  {
  }

  /** The frozen layers, and so what has been condensed of them, are out of the program's
    * reach until the response is integrated. */
  lemma MovesRespond(w: World, m: Machine, move: Move)
    requires Allowed(w, m, move) && Matches(w, m)
    requires if w.core.gc.phase.Idle? then w.globalsC == map[] else Responding(w)
    ensures if HeapAfter(w, move).gc.phase.Idle? then Relayered(w, move).globalsC == map[] else Responding(Relayered(w, move))
  {
    hide Enabled, Live, Visible, HeapAfter, Split.Contents;
    PhaseAfter(w, m, move);
  }

  // ----- every move -----

  function ProgramAfter(m: Machine, move: Move): Program
  {
    if HeapStep(move).Some? then RunPlain(AsProgram(m), HeapStep(move).value) else AsProgram(m)
  }

  lemma RootsStayLive(w: World, m: Machine, move: Move)
    requires Allowed(w, m, move)
    ensures Roots(Do(m, move)) <= Live(ProgramAfter(m, move))
    ensures AsProgram(Do(m, move)) == ProgramAfter(m, move).(roots := Roots(Do(m, move)))
  {
    hide StackRefs, CallRefs, GlobalRefs, ReachSet, Enabled, Links;
    var p1 := ProgramAfter(m, move);
    ClosureHasRoots(Links(p1), p1.roots);
    if move.New? {
      StackGains(m.stack, Ref(m.nextId), 0);
    } else if move.Reuse? {
      StackGains(m.stack, Ref(move.id), 0);
    } else {
      hide Allowed, Live;
      RootsGain(w, m, move);
      LiveHasRoots(m);
    }
  }

  lemma LiveHasRoots(m: Machine)
    ensures Roots(m) <= Live(AsProgram(m))
  {
    hide ReachSet, Roots;
    ClosureHasRoots(Links(AsProgram(m)), Roots(m));
  }

  lemma HeapKeepsInv(w: World, m: Machine, h: History, move: Move)
    requires Inv(w.core, AsProgram(m), h) && Allowed(w, m, move)
    ensures Inv(HeapAfter(w, move), ProgramAfter(m, move), HistoryOf(w, h, move))
    ensures HeapAfter(w, move).hidden == w.core.hidden
  {
    hide Inv, Enabled, Run, NextHistory, Live;
    if HeapStep(move).Some? {
      AllowedStep(w, m, move);
      StepKeepsInv(w.core, AsProgram(m), h, HeapStep(move).value);
      HiddenKept(w.core, HeapStep(move).value);
    }
  }

  lemma HiddenKept(s: State, step: Step)
    requires !step.Retarget?
    ensures Run(s, step).hidden == s.hidden
  {
  }

  lemma AllowedStep(w: World, m: Machine, move: Move)
    requires Allowed(w, m, move) && HeapStep(move).Some?
    ensures Enabled(w.core, AsProgram(m), HeapStep(move).value)
  {
    hide Live, FrozenRefs, Lists;
  }

  /** The roots that the layers give are those of the machine. */
  lemma RootsMatch(w: World, m: Machine)
    requires Matches(w, m)
    ensures Roots(Unlayered(w)) == Roots(m)
  {
    hide StackRefs, CallRefs, GlobalRefs, Visible, Split.Contents;
  }

  lemma NextIdMatches(w: World, m: Machine, h: History)
    requires Inv(w.core, AsProgram(m), h)
    ensures w.core.nextId == m.nextId
  {
    hide Live, Collecting, Placed;
    InvRoots(w.core, AsProgram(m), h);
  }

  lemma MoveKeepsInv(w: World, m: Machine, h: History, move: Move)
    requires WorldInv(w, m, h) && Allowed(w, m, move)
    ensures WorldInv(DoLayered(w, move), Do(m, move), HistoryOf(w, h, move))
  {
    hide Inv, Allowed, Matches, Responding, Roots, Hidden, Live, HeapAfter, Relayered, Do, HistoryOf, AsProgram, ProgramAfter;
    var w1, s1, m', p1 := Relayered(w, move), HeapAfter(w, move), Do(m, move), ProgramAfter(m, move);
    NextIdMatches(w, m, h);
    AllowedPhases(w, m, h, move);
    MovesMatch(w, m, move);
    RootsMatch(w1, m');
    RootsStayLive(w, m, move);
    HeapKeepsInv(w, m, h, move);
    HiddenStaysLive(w, m, move);
    MovesRespond(w, m, move);
    var step := Retarget(Roots(m'), Hidden(w1));
    RetargetKeepsInv(s1, p1, HistoryOf(w, h, move), Roots(m'), Hidden(w1));
    OnlyRootsMove(w1, s1, m', step.roots, step.hidden);
  }

  lemma AllowedPhases(w: World, m: Machine, h: History, move: Move)
    requires WorldInv(w, m, h) && Allowed(w, m, move)
    ensures (move.FreezeAll? ==> w.globalsC == map[]) && (move.IntegrateAll? ==> Responding(w))
  {
    hide Inv, Matches, Responding, Live, Hidden, Lists, FrozenRefs;
  }

  lemma HiddenStaysLive(w: World, m: Machine, move: Move)
    requires Allowed(w, m, move) && (move.IntegrateAll? ==> Responding(w)) && w.core.hidden == Hidden(w)
    requires HeapAfter(w, move).hidden == w.core.hidden
    ensures Hidden(Relayered(w, move)) <= Live(ProgramAfter(m, move)) + HeapAfter(w, move).hidden
  {
    hide Allowed, Live, Hidden, Relayered, HeapAfter, Responding;
    HiddenGains(w, m, move);
  }

  lemma OnlyRootsMove(w1: World, s1: State, m: Machine, roots: set<Id>, hidden: set<Id>)
    requires hidden == Hidden(w1)
    ensures var w' := w1.(core := Run(s1, Retarget(roots, hidden)));
      && w'.core.hidden == Hidden(w') && w'.core.gc == s1.gc
      && (Matches(w1, m) ==> Matches(w', m)) && (Responding(w1) ==> Responding(w'))
  {
  }

  // ----- runs -----

  function InitialWorld(): World
  {
    World(Initial(), Split([], 0, []), Split([], 0, []), map[], map[], map[], {}, Response(None, None, None))
  }

  function InitialMachine(): Machine
  {
    Machine(map[], 1, [], [], map[], {})
  }

  ghost function WorldAfter(w: World, moves: seq<Move>): World
    decreases |moves|
  {
    if moves == [] then w else WorldAfter(DoLayered(w, moves[0]), moves[1..])
  }

  ghost function MachineAfter(m: Machine, moves: seq<Move>): Machine
    decreases |moves|
  {
    if moves == [] then m else MachineAfter(Do(m, moves[0]), moves[1..])
  }

  /** An interleaving that the program and the two parts of the collector can take. */
  ghost predicate Plays(w: World, m: Machine, moves: seq<Move>)
    decreases |moves|
  {
    moves != [] ==> Allowed(w, m, moves[0]) && Plays(DoLayered(w, moves[0]), Do(m, moves[0]), moves[1..])
  }

  ghost function ProgramMoves(moves: seq<Move>): seq<Move>
    decreases |moves|
  {
    if moves == [] then [] else (if IsProgramMove(moves[0]) then [moves[0]] else []) + ProgramMoves(moves[1..])
  }

  lemma {:induction false} CollectorLeavesMachine(m: Machine, moves: seq<Move>)
    ensures MachineAfter(m, moves) == MachineAfter(m, ProgramMoves(moves))
    decreases |moves|
  {
    if moves != [] {
      var rest := ProgramMoves(moves[1..]);
      CollectorLeavesMachine(Do(m, moves[0]), moves[1..]);
      if IsProgramMove(moves[0]) {
        assert ProgramMoves(moves)[0] == moves[0] && ProgramMoves(moves)[1..] == rest;
      } else {
        assert ProgramMoves(moves) == rest;
      }
    }
  }

  lemma {:induction false} PlayKeepsInv(w: World, m: Machine, h: History, moves: seq<Move>) returns (h': History)
    requires WorldInv(w, m, h) && Plays(w, m, moves)
    ensures WorldInv(WorldAfter(w, moves), MachineAfter(m, moves), h')
    decreases |moves|
  {
    hide WorldInv, Allowed, DoLayered, Do, HistoryOf;
    if moves == [] {
      h' := h;
    } else {
      MoveKeepsInv(w, m, h, moves[0]);
      h' := PlayKeepsInv(DoLayered(w, moves[0]), Do(m, moves[0]), HistoryOf(w, h, moves[0]), moves[1..]);
    }
  }

  lemma InitiallyWorldInv()
    ensures WorldInv(InitialWorld(), InitialMachine(), InitialHistory())
  {
    hide Inv;
    InitiallyInv();
    assert AsProgram(InitialMachine()) == InitialProgram();
    assert Visible<Id, Value>(map[], map[], map[]) == map[];
  }

  /** Freezing, condensing and integrating never show. Whatever the interleaving, the value
    * stack, the call frames and the globals, and every object that they reach, read as in
    * a machine that takes the program's moves alone, with one stack, one list of frames,
    * one table and one record per object. In particular every object that is on the stack, in
    * a frame, among the globals or pinned is there to be read. */
  lemma NothingShows(moves: seq<Move>, key: Id, id: Id)
    requires Plays(InitialWorld(), InitialMachine(), moves)
    ensures
      var w, m := WorldAfter(InitialWorld(), moves), MachineAfter(InitialMachine(), ProgramMoves(moves));
      && w.stack.Ok() && w.stack.Contents() == m.stack
      && w.calls.Ok() && w.calls.Contents() == m.calls
      && Get(w.globalsA, w.globalsB, w.globalsC, key) == (if key in m.globals then Some(m.globals[key]) else None)
      && (id in Live(AsProgram(m)) ==> id in m.objs && View(w.core, id) == Some(m.objs[id]))
    ensures
      var w, m := WorldAfter(InitialWorld(), moves), MachineAfter(InitialMachine(), ProgramMoves(moves));
      && (forall i :: 0 <= i < |m.stack| && m.stack[i].Ref? && m.stack[i].id != 0 ==>
            m.stack[i].id in m.objs && View(w.core, m.stack[i].id) == Some(m.objs[m.stack[i].id]))
      && (forall i :: 0 <= i < |m.calls| && m.calls[i].closure != 0 ==>
            m.calls[i].closure in m.objs && View(w.core, m.calls[i].closure) == Some(m.objs[m.calls[i].closure]))
      && (forall k :: k in m.globals && k != 0 ==> k in m.objs && View(w.core, k) == Some(m.objs[k]))
      && (forall k :: k in m.globals && m.globals[k].Ref? && m.globals[k].id != 0 ==>
            m.globals[k].id in m.objs && View(w.core, m.globals[k].id) == Some(m.objs[m.globals[k].id]))
      && (forall k :: k in m.pinned && k != 0 ==> k in m.objs && View(w.core, k) == Some(m.objs[k]))
  {
    hide WorldAfter, MachineAfter, Plays, Live, Inv, AsProgram, View, Split.Contents, Get, Visible, Roots;
    InitiallyWorldInv();
    CollectorLeavesMachine(InitialMachine(), moves);
    var h := PlayKeepsInv(InitialWorld(), InitialMachine(), InitialHistory(), moves);
    var w, m := WorldAfter(InitialWorld(), moves), MachineAfter(InitialMachine(), moves);
    GetIsVisible(w.globalsA, w.globalsB, w.globalsC, key);
    forall x | x in Live(AsProgram(m)) ensures x in m.objs && View(w.core, x) == Some(m.objs[x]) {
      ObjectsMatch(w, m, h, x);
    }
    HeldAreRoots(m);
    LiveHasRoots(m);
  }

  /** Whatever the stack, the frames and the globals hold, and what is pinned, are roots. */
  lemma HeldAreRoots(m: Machine)
    ensures forall i :: 0 <= i < |m.stack| && m.stack[i].Ref? && m.stack[i].id != 0 ==> m.stack[i].id in Roots(m)
    ensures forall i :: 0 <= i < |m.calls| && m.calls[i].closure != 0 ==> m.calls[i].closure in Roots(m)
    ensures forall k :: k in m.globals && k != 0 ==> k in Roots(m)
    ensures forall k :: k in m.globals && m.globals[k].Ref? && m.globals[k].id != 0 ==> m.globals[k].id in Roots(m)
    ensures forall k :: k in m.pinned && k != 0 ==> k in Roots(m)
  {
  }

  lemma ObjectsMatch(w: World, m: Machine, h: History, id: Id)
    requires Inv(w.core, AsProgram(m), h) && id in Live(AsProgram(m))
    ensures id in m.objs && View(w.core, id) == Some(m.objs[id])
  {
    hide Inv, Live, RecsOf;
    LiveAgrees(w.core, AsProgram(m), h, id);
  }
}
