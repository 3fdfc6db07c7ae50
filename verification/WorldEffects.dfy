/** Each move of the program, on what the layers read as; and what a freeze leaves to be marked. */
module WorldEffects {
  import opened Options
  import opened Graph
  import opened Objects
  import opened LayeredSeq
  import opened Tables
  import opened Collector
  import opened CollectorInvariant
  import opened World
  import ProgramEffects

  /** What a move does to the value stack, read through its layers; the collector's moves do
    * nothing to it. */
  lemma {:induction false} StackMovesDo(w: World, m: Machine, h: History, move: Move)
    requires WorldInv(w, m, h) && Allowed(w, m, move)
    ensures w.stack.Ok() && DoLayered(w, move).stack.Ok()
    ensures var s, s' := w.stack.Contents(), DoLayered(w, move).stack.Contents();
      match move
      case New(_, _) => s' == s + [Ref(w.core.nextId)]
      case Reuse(id, _) => s' == s + [Ref(id)]
      case Push(v) => s' == s + [v]
      case Pop(n) => n <= |s| && s' == s[..|s| - n]
      case Store(i, v) => i < |s| && s' == s[i := v]
      case _ => s' == s
  {
    hide WorldInv, DoLayered, Visible, Live, Enabled, AsProgram, RunPlain, Split.Contents;
    MoveMatches(w, m, h, move);
  }

  /** What a move does to the frames. */
  lemma {:induction false} CallMovesDo(w: World, m: Machine, h: History, move: Move)
    requires WorldInv(w, m, h) && Allowed(w, m, move)
    ensures w.calls.Ok() && DoLayered(w, move).calls.Ok()
    ensures var c, c' := w.calls.Contents(), DoLayered(w, move).calls.Contents();
      match move
      case Enter(call) => c' == c + [call]
      case Leave => c != [] && c' == c[..|c| - 1]
      case Advance(call) => c != [] && c' == c[|c| - 1 := call]
      case _ => c' == c
  {
    hide WorldInv, DoLayered, Visible, Live, Enabled, AsProgram, RunPlain, Split.Contents;
    MoveMatches(w, m, h, move);
  }

  /** What a move does to the globals and to what is pinned. */
  lemma {:induction false} GlobalMovesDo(w: World, m: Machine, h: History, move: Move, key: Id)
    requires WorldInv(w, m, h) && Allowed(w, m, move)
    ensures var w' := DoLayered(w, move);
      var was, now := Get(w.globalsA, w.globalsB, w.globalsC, key), Get(w'.globalsA, w'.globalsB, w'.globalsC, key);
      && now == (if move.SetGlobal? && move.key == key then Some(move.value)
                 else if move.DeleteGlobal? && move.key == key then None else was)
      && w'.pinned == (if move.Pin? then move.ids else w.pinned)
  {
    hide WorldInv, DoLayered, Get, Visible, Live, Enabled, AsProgram, RunPlain, Split.Contents;
    MoveMatches(w, m, h, move);
    var w' := DoLayered(w, move);
    GetIsVisible(w.globalsA, w.globalsB, w.globalsC, key);
    GetIsVisible(w'.globalsA, w'.globalsB, w'.globalsC, key);
  }

  lemma {:induction false} MoveMatches(w: World, m: Machine, h: History, move: Move)
    requires WorldInv(w, m, h) && Allowed(w, m, move)
    ensures Matches(w, m) && Matches(DoLayered(w, move), Do(m, move)) && w.core.nextId == m.nextId
  {
    hide Inv, Allowed, Relayered, HeapAfter, Visible, Split.Contents, Roots, Hidden, Run, Responding, Do;
    NextIdMatches(w, m, h);
    AllowedPhases(w, m, h, move);
    MovesMatch(w, m, move);
    SameLayers(w, move);
  }

  lemma SameLayers(w: World, move: Move)
    ensures var w', w1 := DoLayered(w, move), Relayered(w, move);
      && w'.stack == w1.stack && w'.calls == w1.calls && w'.pinned == w1.pinned
      && w'.globalsA == w1.globalsA && w'.globalsB == w1.globalsB && w'.globalsC == w1.globalsC
  {
    hide Relayered, HeapAfter, Roots, Hidden, Run, Unlayered;
  }

  /** What a freeze leaves for the collector to gray first: everything on the stack, the closure of
    * every frame, every key and value of the globals, masked by an upper layer or not, and what
    * is pinned. */
  lemma {:induction false} FreezeLeavesRoots(w: World, m: Machine, h: History, bound: nat)
    requires WorldInv(w, m, h) && Allowed(w, m, FreezeAll(bound))
    ensures w.stack.Ok() && w.calls.Ok()
    ensures var todo := DoLayered(w, FreezeAll(bound)).core.gc.todo;
      && (forall i :: 0 <= i < |w.stack.Contents()| && w.stack.Contents()[i].Ref? && w.stack.Contents()[i].id != 0 ==>
            w.stack.Contents()[i].id in todo)
      && (forall i :: 0 <= i < |w.calls.Contents()| && w.calls.Contents()[i].closure != 0 ==> w.calls.Contents()[i].closure in todo)
      && (forall k :: k in w.globalsA && k != 0 ==> k in todo) && (forall k :: k in w.globalsB && k != 0 ==> k in todo)
      && (forall k :: k in w.globalsA && w.globalsA[k].Holds? && w.globalsA[k].value.Ref? && w.globalsA[k].value.id != 0 ==>
            w.globalsA[k].value.id in todo)
      && (forall k :: k in w.globalsB && w.globalsB[k].Holds? && w.globalsB[k].value.Ref? && w.globalsB[k].value.id != 0 ==>
            w.globalsB[k].value.id in todo)
      && (forall k :: k in w.pinned && k != 0 ==> k in todo)
  {
    hide Live, Visible, Split.Contents, Roots, Hidden, Inv, Relayered;
    ProgramEffectsRoots(w, m, h);
    HeldAreRoots(m);
    TreesHold(w);
    FrozenTodo(w, bound);
  }

  lemma ProgramEffectsRoots(w: World, m: Machine, h: History)
    requires WorldInv(w, m, h)
    ensures w.core.roots == Roots(m)
  {
    hide Collecting, Placed, Since, Quiet, Confined, Roots;
  }

  lemma TreesHold(w: World)
    ensures (forall k :: k in w.globalsA && k != 0 ==> k in Hidden(w)) && (forall k :: k in w.globalsB && k != 0 ==> k in Hidden(w))
    ensures forall k :: k in w.globalsA && w.globalsA[k].Holds? && w.globalsA[k].value.Ref? && w.globalsA[k].value.id != 0 ==>
      w.globalsA[k].value.id in Hidden(w)
    ensures forall k :: k in w.globalsB && w.globalsB[k].Holds? && w.globalsB[k].value.Ref? && w.globalsB[k].value.id != 0 ==>
      w.globalsB[k].value.id in Hidden(w)
  {
  }

  lemma FrozenTodo(w: World, bound: nat)
    ensures DoLayered(w, FreezeAll(bound)).core.gc.todo == w.core.roots + w.core.hidden
  {
    hide Relayered, Roots, Hidden;
  }

  /** The program may use what it holds: push it, store it, bind it to a name, or make it the
    * closure of a frame. */
  lemma {:induction false} HeldMayBeUsed(w: World, m: Machine, v: Value, id: Id, slot: nat)
    requires v in m.stack && Ref(id) in m.stack && id != 0
    ensures Allowed(w, m, Push(v)) && Allowed(w, m, SetGlobal(id, v)) && Allowed(w, m, DeleteGlobal(id))
    ensures w.stack.base <= slot < |m.stack| ==> Allowed(w, m, Store(slot, v))
    ensures forall ip, base :: Allowed(w, m, Enter(Call(id, ip, base)))
    ensures slot <= |m.stack| ==> Allowed(w, m, Pop(slot))
    ensures m.calls != [] ==> Allowed(w, m, Leave)
  {
    hide Live, Roots, AsProgram, Enabled;
    HeldAreRoots(m);
    LiveHasRoots(m);
  }

  lemma {:induction false} GlobalsMayBeUsed(w: World, m: Machine, k: Id)
    requires k in m.globals
    ensures Allowed(w, m, Push(m.globals[k]))
  {
    hide Live, Roots, AsProgram, Enabled;
    HeldAreRoots(m);
    LiveHasRoots(m);
  }

  /** A collection may start whenever none is outstanding, and be integrated as soon as everything
    * has been condensed. */
  lemma {:induction false} CollectionsMayHappen(w: World, m: Machine, bound: nat)
    ensures w.core.gc.phase.Idle? && bound <= w.core.cursor ==> Allowed(w, m, FreezeAll(bound))
    ensures w.core.gc.phase.Ready? ==> Allowed(w, m, CondenseStack) && Allowed(w, m, CondenseCalls) && Allowed(w, m, CondenseGlobals)
    ensures w.core.gc.phase.Ready? && w.response.stack.Some? && w.response.calls.Some? && w.response.globals.Some? ==> Allowed(w, m, IntegrateAll)
  {
    hide Live, Roots, FrozenRefs, AsProgram, Refs, EditRefs, Lists;
  }
}
