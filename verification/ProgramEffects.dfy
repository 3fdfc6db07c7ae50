/** What the program's own steps do to what it reads through the three layers, whatever the
  * collector is doing meanwhile; and what it holds when it holds an object.
  */
module ProgramEffects {
  import opened Options
  import opened Graph
  import opened Objects
  import opened Collector
  import opened CollectorInvariant
  import opened CollectorFrames
  import opened CollectorProgram
  import opened CollectorTheorems

  /** A field or a method looked up record by record, top first. */
  function LookedUp(s: State, id: Id, key: Id): Option<Value>
  {
    var t := RecsOf(s, id);
    Cascade(t.x, t.y, t.z, key)
  }

  lemma Reads(s: State, p: Program, h: History, id: Id)
    requires Inv(s, p, h) && id in h.r
    ensures id in p.objs && View(s, id) == Some(p.objs[id]) && RecsOf(s, id).SameKind()
  {
    hide Placed, Collecting, Since, Quiet, Confined, RecsOf;
    assert id in Held(s, h);
  }

  lemma LiveIsHeld(s: State, p: Program, h: History, id: Id)
    requires Inv(s, p, h) && id in Live(p)
    ensures id in h.r && id in p.objs && View(s, id) == Some(p.objs[id])
  {
    hide Inv, Live, View;
    InvRoots(s, p, h);
    Reads(s, p, h, id);
  }

  lemma LookupReads(s: State, p: Program, h: History, id: Id, key: Id)
    requires Inv(s, p, h) && id in h.r
    ensures id in p.objs
    ensures LookedUp(s, id, key) == if key in EntryMap(p.objs[id]) then Some(EntryMap(p.objs[id])[key]) else None
  {
    hide Inv, RecsOf;
    Reads(s, p, h, id);
    var t := RecsOf(s, id);
    CascadeReadsTheView(t.x, t.y, t.z, key);
  }

  lemma WriteReaches(s: State, p: Program, h: History, id: Id, e: Edit, other: Id, key: Id)
    requires Inv(s, p, h) && Enabled(s, p, Mutate(id, e)) && other in Live(p)
    ensures id in p.objs && EditFits(p.objs[id], e)
    ensures var s', o := Run(s, Mutate(id, e)), Edited(p.objs[id], e);
      && View(s', id) == Some(o)
      && LookedUp(s', id, key) == (if key in EntryMap(o) then Some(EntryMap(o)[key]) else None)
      && (other != id ==> View(s', other) == View(s, other) && LookedUp(s', other, key) == LookedUp(s, other, key))
  {
    hide Inv, Live, View, RecsOf, Run, LookedUp, Edited, EditFits;
    var s', p' := Run(s, Mutate(id, e)), RunPlain(p, Mutate(id, e));
    LiveIsHeld(s, p, h, id);
    LiveIsHeld(s, p, h, other);
    MutateKeepsInv(s, p, h, id, e);
    Reads(s', p', h, id);
    Reads(s', p', h, other);
    LookupReads(s', p', h, id, key);
    LookupReads(s, p, h, other, key);
    LookupReads(s', p', h, other, key);
  }

  /** The id of a value that is a reference, as far as the program can reach it. */
  ghost predicate Reached(p: Program, id: Id)
  {
    id == NIL || id in Live(p)
  }

  /** OP_SET_PROPERTY: the field is set, every other field and every other object stays. */
  lemma FieldIsSet(s: State, p: Program, h: History, id: Id, klass: Id, fields: map<Id, Value>, k: Id, v: Value, other: Id, key: Id)
    requires Inv(s, p, h) && id in Live(p) && other in Live(p)
    requires View(s, id) == Some(Instance(klass, fields)) && Reached(p, k) && (v.Ref? ==> Reached(p, v.id))
    ensures var step := Mutate(id, PutEntry(k, v)); var s' := Run(s, step);
      && Enabled(s, p, step)
      && View(s', id) == Some(Instance(klass, fields[k := v]))
      && LookedUp(s', id, k) == Some(v)
      && (key != k ==> LookedUp(s', id, key) == LookedUp(s, id, key))
      && (other != id ==> View(s', other) == View(s, other) && LookedUp(s', other, key) == LookedUp(s, other, key))
      && RunPlain(p, step).objs == p.objs[id := Instance(klass, fields[k := v])]
  {
    hide Inv, Live, View, RecsOf, Run, LookedUp;
    LiveIsHeld(s, p, h, id);
    WriteReaches(s, p, h, id, PutEntry(k, v), other, key);
    WriteReaches(s, p, h, id, PutEntry(k, v), other, k);
    LookupReads(s, p, h, id, key);
  }

  /** OP_METHOD: so is a method of a class. */
  lemma MethodIsSet(s: State, p: Program, h: History, id: Id, name: Id, superclass: Id, methods: map<Id, Value>, k: Id, v: Value, other: Id, key: Id)
    requires Inv(s, p, h) && id in Live(p) && other in Live(p)
    requires View(s, id) == Some(Class(name, superclass, methods)) && Reached(p, k) && (v.Ref? ==> Reached(p, v.id))
    ensures var step := Mutate(id, PutEntry(k, v)); var s' := Run(s, step);
      && Enabled(s, p, step)
      && View(s', id) == Some(Class(name, superclass, methods[k := v]))
      && LookedUp(s', id, k) == Some(v)
      && (key != k ==> LookedUp(s', id, key) == LookedUp(s, id, key))
      && (other != id ==> View(s', other) == View(s, other) && LookedUp(s', other, key) == LookedUp(s, other, key))
      && RunPlain(p, step).objs == p.objs[id := Class(name, superclass, methods[k := v])]
  {
    hide Inv, Live, View, RecsOf, Run, LookedUp;
    LiveIsHeld(s, p, h, id);
    WriteReaches(s, p, h, id, PutEntry(k, v), other, key);
    WriteReaches(s, p, h, id, PutEntry(k, v), other, k);
    LookupReads(s, p, h, id, key);
  }

  /** A write to the header of a class: the superclass changes, the name and the methods do not. */
  lemma SuperclassIsSet(s: State, p: Program, h: History, id: Id, name: Id, superclass: Id, methods: map<Id, Value>, c: Id, other: Id, key: Id)
    requires Inv(s, p, h) && id in Live(p) && other in Live(p)
    requires View(s, id) == Some(Class(name, superclass, methods)) && Reached(p, c)
    ensures var step := Mutate(id, SetSuper(c)); var s' := Run(s, step);
      && Enabled(s, p, step)
      && View(s', id) == Some(Class(name, c, methods))
      && LookedUp(s', id, key) == LookedUp(s, id, key)
      && (other != id ==> View(s', other) == View(s, other) && LookedUp(s', other, key) == LookedUp(s, other, key))
      && RunPlain(p, step).objs == p.objs[id := Class(name, c, methods)]
  {
    hide Inv, Live, View, RecsOf, Run, LookedUp;
    LiveIsHeld(s, p, h, id);
    WriteReaches(s, p, h, id, SetSuper(c), other, key);
    LookupReads(s, p, h, id, key);
  }

  /** An object that is not layered is overwritten as a whole: a closure that is being filled, a
    * function that is being compiled, an upvalue that is closed. */
  lemma ObjectIsReplaced(s: State, p: Program, h: History, id: Id, was: Obj, o: Obj, other: Id, key: Id)
    requires Inv(s, p, h) && id in Live(p) && other in Live(p) && View(s, id) == Some(was)
    requires (was.Closure? && o.Closure?) || (was.Function? && o.Function?) || (was.Upvalue? && o.Upvalue?) || (was.BoundMethod? && o.BoundMethod?)
    requires Refs(o) <= Live(p)
    ensures var step := Mutate(id, Replace(o)); var s' := Run(s, step);
      && Enabled(s, p, step)
      && View(s', id) == Some(o)
      && (other != id ==> View(s', other) == View(s, other) && LookedUp(s', other, key) == LookedUp(s, other, key))
      && RunPlain(p, step).objs == p.objs[id := o]
  {
    hide Inv, Live, View, RecsOf, Run, LookedUp, Refs;
    LiveIsHeld(s, p, h, id);
    WriteReaches(s, p, h, id, Replace(o), other, key);
  }

  /** A new object reads as it was made, under an id that nothing had; the others stay. */
  lemma ObjectIsNew(s: State, p: Program, h: History, obj: Obj, rooted: bool, interned: bool, other: Id)
    requires Inv(s, p, h) && Refs(obj) <= Live(p) && (interned ==> obj.Str?) && other in Live(p)
    ensures var step := Alloc(obj, rooted, interned); var s' := Run(s, step);
      && Enabled(s, p, step)
      && other != s.nextId && View(s', other) == View(s, other)
      && View(s', s.nextId) == Some(obj) && s'.nextId == s.nextId + 1
      && RunPlain(p, step).objs == p.objs[s.nextId := obj]
      && (rooted ==> s.nextId in s'.roots && s.nextId in Live(RunPlain(p, step)))
  {
    hide Inv, Live, View, RecsOf, Refs;
    var step := Alloc(obj, rooted, interned);
    var s', p', h' := Run(s, step), RunPlain(p, step), NextHistory(s, h, step);
    InvRoots(s, p, h);
    LiveIsHeld(s, p, h, other);
    HeldIsOld(s, p, h, other);
    AllocKeepsInv(s, p, h, obj, rooted, interned);
    Reads(s', p', h', s.nextId);
    Reads(s', p', h', other);
    if rooted {
      RootsAreLive(p');
    }
  }

  lemma HeldIsOld(s: State, p: Program, h: History, id: Id)
    requires Inv(s, p, h) && id in h.r
    ensures id < s.nextId
  {
    hide Collecting, Since, Quiet, Confined, Budgeted, Within, Distinct;
    assert id in Held(s, h);
  }

  lemma RootsAreLive(p: Program)
    ensures p.roots <= Live(p)
  {
    hide ReachSet;
    ClosureHasRoots(Links(p), p.roots);
  }

  /** An interned string found again reads as the string that was asked for, and is a root. */
  lemma StringIsFound(s: State, p: Program, h: History, id: Id, chars: string)
    requires Inv(s, p, h) && Enabled(s, p, Revive(id, chars))
    ensures var s' := Run(s, Revive(id, chars)); View(s', id) == Some(Str(chars)) && id in s'.roots
  {
    hide Inv, Live, View, RecsOf, Enabled;
    var step := Revive(id, chars);
    ReviveKeepsInv(s, p, h, id, chars);
    InternedIs(s, p, h, id, chars);
    Reads(Run(s, step), RunPlain(p, step), NextHistory(s, h, step), id);
  }

  lemma InternedIs(s: State, p: Program, h: History, id: Id, chars: string)
    requires Inv(s, p, h) && Enabled(s, p, Revive(id, chars))
    ensures id in p.objs && p.objs[id] == Str(chars) && id < p.nextId
  {
    hide Live, RecsOf, Collecting, Since, Quiet, Confined, Budgeted, Within, Distinct;
    WeakAgrees(s, p, h, id);
    WeakIsOld(s, p, h, id);
  }

  lemma WeakIsOld(s: State, p: Program, h: History, id: Id)
    requires Inv(s, p, h) && id in s.weakNew + s.weakOld
    ensures id < p.nextId
  {
    hide Collecting, Since, Quiet, Confined, Budgeted, Within, Distinct;
    assert id in Held(s, h);
  }

  // ----- what can be reached -----

  lemma LiveIsClosed(p: Program, id: Id)
    requires id in Live(p) && id in p.objs
    ensures Refs(p.objs[id]) <= Live(p)
  {
    hide ReachSet, Refs;
    ClosureIsClosed(Links(p), p.roots);
  }

  /** Whoever can reach an object can reach everything it holds, place by place: every root, and
    * then the class and the fields of an instance, the name, superclass and methods of a class,
    * the function and each upvalue of a closure, the name and each constant of a function, the
    * receiver and method of a bound method, the value of a closed upvalue. */
  lemma {:induction false} LiveHolds(p: Program, id: Id)
    requires id in Live(p) && id in p.objs
    ensures var live := Live(p);
      match p.objs[id]
      case Instance(klass, fields) =>
        && (klass != 0 ==> klass in live)
        && (forall k :: k in fields && k != 0 ==> k in live)
        && (forall k :: k in fields && fields[k].Ref? && fields[k].id != 0 ==> fields[k].id in live)
      case Class(name, superclass, methods) =>
        && (name != 0 ==> name in live) && (superclass != 0 ==> superclass in live)
        && (forall k :: k in methods && k != 0 ==> k in live)
        && (forall k :: k in methods && methods[k].Ref? && methods[k].id != 0 ==> methods[k].id in live)
      case Closure(fn, upvalues) =>
        && (fn != 0 ==> fn in live)
        && (forall i :: 0 <= i < |upvalues| && upvalues[i] != 0 ==> upvalues[i] in live)
      case Function(title, constants, _) =>
        && (title != 0 ==> title in live)
        && (forall i :: 0 <= i < |constants| && constants[i].Ref? && constants[i].id != 0 ==> constants[i].id in live)
      case BoundMethod(receiver, invoked) =>
        && (receiver.Ref? && receiver.id != 0 ==> receiver.id in live) && (invoked != 0 ==> invoked in live)
      case Upvalue(_, closed, _) => closed.Ref? && closed.id != 0 ==> closed.id in live
      case Str(_) => true
      case Native(_) => true
    ensures p.roots <= Live(p)
  {
    hide Live;
    LiveIsClosed(p, id);
    RootsAreLive(p);
    RefsHold(p.objs[id], Live(p));
  }
}
