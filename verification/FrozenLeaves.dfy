/** The leaves of the frozen records: what grayObjectLeaves visits for an id, case by case,
  * and that the marking loop over them marks what the frozen records reach.
  */
module FrozenLeaves {
  import opened Options
  import opened Graph
  import Objects
  import Marking

  type Obj = Objects.Obj
  type Value = Objects.Value

  /** The frozen records of each id, and the order in which a traversal of its fields or methods
    * meets the keys. */
  datatype Frozen = Frozen(b: map<Id, Obj>, c: map<Id, Obj>, orderB: map<Id, seq<Id>>, orderC: map<Id, seq<Id>>)
  {
    function InB(id: Id): Option<Obj>
    {
      if id in b then Some(b[id]) else None
    }

    function InC(id: Id): Option<Obj>
    {
      if id in c then Some(c[id]) else None
    }

    function KeysInB(id: Id): seq<Id>
    {
      if id in orderB then orderB[id] else []
    }

    function KeysInC(id: Id): seq<Id>
    {
      if id in orderC then orderC[id] else []
    }
  }

  predicate Lists(keys: seq<Id>, o: Option<Obj>)
  {
    o.Some? ==> (forall k :: k in keys ==> k in Objects.EntryMap(o.value)) && forall k :: k in Objects.EntryMap(o.value) ==> k in keys
  }

  ghost predicate Ordered(f: Frozen)
  {
    forall id: Id :: Lists(f.KeysInB(id), f.InB(id)) && Lists(f.KeysInC(id), f.InC(id)) && Objects.SameKinds(f.InB(id), f.InC(id))
  }

  /** grayValue */
  function ValueLeaf(v: Value): seq<Id>
  {
    if v.Ref? then [v.id] else []
  }

  function ValueLeaves(vs: seq<Value>): seq<Id>
  {
    if vs == [] then [] else ValueLeaves(vs[..|vs| - 1]) + ValueLeaf(vs[|vs| - 1])
  }

  /** grayMethodsStructmap, grayFieldsStructmap: each key and its value. */
  function EntryLeaves(m: map<Id, Value>, keys: seq<Id>): seq<Id>
    requires forall k :: k in keys ==> k in m
  {
    if keys == [] then []
    else
      var last := keys[|keys| - 1];
      EntryLeaves(m, keys[..|keys| - 1]) + [last] + ValueLeaf(m[last])
  }

  function OptEntryLeaves(o: Option<Obj>, keys: seq<Id>): seq<Id>
    requires Lists(keys, o)
  {
    if o.Some? then EntryLeaves(Objects.EntryMap(o.value), keys) else []
  }

  /** The cases of grayObjectLeaves, the backing record in C only for classes and instances. */
  function RecordLeaves(o: Obj, keys: seq<Id>, backing: Option<Obj>, backingKeys: seq<Id>): seq<Id>
    requires Lists(keys, Some(o)) && Lists(backingKeys, backing)
  {
    match o
    case BoundMethod(receiver, invoked) => ValueLeaf(receiver) + [invoked]
    case Class(name, superclass, methods) =>
      [name, superclass] + EntryLeaves(methods, keys) + OptEntryLeaves(backing, backingKeys)
    case Closure(fn, upvalues) => [fn] + upvalues
    case Function(title, constants, _) => [title] + ValueLeaves(constants)
    case Instance(klass, fields) => [klass] + EntryLeaves(fields, keys) + OptEntryLeaves(backing, backingKeys)
    case Upvalue(_, closed, _) => ValueLeaf(closed)
    case Native(_) => []
    case Str(_) => []
  }

  /** The record in B if there is one, and else the one in C. */
  function LeavesOf(y: Option<Obj>, yKeys: seq<Id>, z: Option<Obj>, zKeys: seq<Id>): seq<Id>
    requires Lists(yKeys, y) && Lists(zKeys, z)
  {
    if y.Some? then RecordLeaves(y.value, yKeys, z, zKeys)
    else if z.Some? then RecordLeaves(z.value, zKeys, None, [])
    else []
  }

  lemma {:induction false} ValueLeavesMention(vs: seq<Value>)
    ensures forall x :: x in ValueLeaves(vs) <==> Objects.Ref(x) in vs
  {
    if vs != [] {
      ValueLeavesMention(vs[..|vs| - 1]);
      assert vs == vs[..|vs| - 1] + [vs[|vs| - 1]];
    }
  }

  lemma {:induction false} EntryLeavesMention(m: map<Id, Value>, keys: seq<Id>)
    requires forall k :: k in keys ==> k in m
    ensures forall x :: x in EntryLeaves(m, keys) <==> x in keys || exists k :: k in keys && m[k] == Objects.Ref(x)
  {
    if keys != [] {
      var init, last := keys[..|keys| - 1], keys[|keys| - 1];
      EntryLeavesMention(m, init);
      assert forall k :: k in keys <==> k in init || k == last;
    }
  }

  lemma OptEntryLeavesMention(o: Option<Obj>, keys: seq<Id>)
    requires Lists(keys, o)
    ensures Marking.Members(OptEntryLeaves(o, keys)) == Objects.OptEntryRefs(o)
  {
    if o.Some? {
      var m := Objects.EntryMap(o.value);
      EntryLeavesMention(m, keys);
      forall x ensures x in Marking.Members(EntryLeaves(m, keys)) <==> x in Objects.EntryRefs(o.value) {
        Objects.InEntryRefs(o.value, x);
      }
    }
  }

  lemma MembersAppend(xs: seq<Id>, ys: seq<Id>)
    ensures Marking.Members(xs + ys) == Marking.Members(xs) + Marking.Members(ys)
  {
  }

  lemma {:induction false} RecordLeavesMention(o: Obj, keys: seq<Id>, backing: Option<Obj>, backingKeys: seq<Id>)
    requires Lists(keys, Some(o)) && Lists(backingKeys, backing) && Objects.SameKinds(Some(o), backing)
    ensures Marking.Members(RecordLeaves(o, keys, backing, backingKeys)) == Objects.Refs(o) + Objects.OptEntryRefs(backing)
  {
    OptEntryLeavesMention(Some(o), keys);
    OptEntryLeavesMention(backing, backingKeys);
    var own, under := OptEntryLeaves(Some(o), keys), OptEntryLeaves(backing, backingKeys);
    match o
    case Class(name, superclass, methods) =>
      MembersAppend([name, superclass] + own, under);
      MembersAppend([name, superclass], own);
    case Instance(klass, fields) =>
      MembersAppend([klass] + own, under);
      MembersAppend([klass], own);
    case Function(title, constants, _) =>
      ValueLeavesMention(constants);
    case _ =>
  }

  /** What is visited for an id is what its frozen records mention. */
  lemma {:induction false} LeavesMention(y: Option<Obj>, yKeys: seq<Id>, z: Option<Obj>, zKeys: seq<Id>)
    requires Lists(yKeys, y) && Lists(zKeys, z) && Objects.SameKinds(y, z)
    ensures Marking.Members(LeavesOf(y, yKeys, z, zKeys)) == Objects.AllRefs(None, y, z)
  {
    hide RecordLeaves;
    if y.Some? {
      RecordLeavesMention(y.value, yKeys, z, zKeys);
    } else if z.Some? {
      RecordLeavesMention(z.value, zKeys, None, []);
    }
  }

  /** The references between the frozen records. */
  function Edges(f: Frozen): Graph.Edges
  {
    map id | id in f.b.Keys + f.c.Keys :: Objects.AllRefs(None, f.InB(id), f.InC(id))
  }

  function AllLeaves(f: Frozen): Marking.Leaves
    requires forall id: Id :: Lists(f.KeysInB(id), f.InB(id)) && Lists(f.KeysInC(id), f.InC(id))
  {
    map id | id in f.b.Keys + f.c.Keys :: LeavesOf(f.InB(id), f.KeysInB(id), f.InC(id), f.KeysInC(id))
  }

  lemma LeavesAreEdges(f: Frozen)
    requires Ordered(f)
    ensures Marking.EdgesOf(AllLeaves(f)) == Edges(f)
  {
    hide LeavesOf;
    forall id | id in f.b.Keys + f.c.Keys ensures Marking.Members(AllLeaves(f)[id]) == Edges(f)[id] {
      LeavesMention(f.InB(id), f.KeysInB(id), f.InC(id), f.KeysInC(id));
    }
  }

  /** What is dark when marking ends, by the places that hold it. */
  lemma {:induction false} DarkHolds(f: Frozen, dark: set<Id>, id: Id)
    requires Closed(Edges(f), dark) && id in dark && (id in f.b || id in f.c)
    ensures Objects.Refs(if id in f.b then f.b[id] else f.c[id]) <= dark
    ensures id in f.b && id in f.c ==> Objects.EntryRefs(f.c[id]) <= dark
  {
    assert Edges(f)[id] <= dark;
  }

  lemma {:induction false} FrozenHolds(f: Frozen, dark: set<Id>, id: Id)
    requires Closed(Edges(f), dark) && id in dark && (id in f.b || id in f.c)
    ensures HoldsByPlace(if id in f.b then f.b[id] else f.c[id], dark)
    ensures id in f.b && id in f.c ==> Objects.EntriesHold(Objects.EntryMap(f.c[id]), dark)
  {
    hide Edges;
    DarkHolds(f, dark, id);
    Objects.RefsHold(if id in f.b then f.b[id] else f.c[id], dark);
    if id in f.b && id in f.c {
      Objects.EntryRefsHold(f.c[id], dark);
    }
  }

  predicate HoldsByPlace(o: Obj, ids: set<Id>)
  {
    match o
    case Instance(klass, fields) => (klass != 0 ==> klass in ids) && Objects.EntriesHold(fields, ids)
    case Class(name, superclass, methods) =>
      (name != 0 ==> name in ids) && (superclass != 0 ==> superclass in ids) && Objects.EntriesHold(methods, ids)
    case Closure(fn, upvalues) =>
      (fn != 0 ==> fn in ids) && forall i :: 0 <= i < |upvalues| && upvalues[i] != 0 ==> upvalues[i] in ids
    case Function(title, constants, _) =>
      && (title != 0 ==> title in ids)
      && (forall i :: 0 <= i < |constants| && constants[i].Ref? && constants[i].id != 0 ==> constants[i].id in ids)
    case BoundMethod(receiver, invoked) =>
      (receiver.Ref? && receiver.id != 0 ==> receiver.id in ids) && (invoked != 0 ==> invoked in ids)
    case Upvalue(_, closed, _) => closed.Ref? && closed.id != 0 ==> closed.id in ids
    case Str(_) => true
    case Native(_) => true
  }

  lemma RootsAreDark(roots: seq<Id>, dark: set<Id>)
    requires Marking.Members(roots) <= dark
    ensures forall i :: 0 <= i < |roots| && roots[i] != 0 ==> roots[i] in dark
  {
  }

  /** The marking phase over the frozen records: dark is what the roots reach through them, in a
    * region for the gray stack that has to hold no more than that. So every root is dark, and of
    * every dark id what its topmost frozen record holds, place by place, as well as the fields or
    * methods of the backing record in C. */
  method MarkFrozen(f: Frozen, roots: seq<Id>, capacity: nat) returns (marker: Marking.Marker)
    requires Ordered(f)
    requires |ReachSet(Edges(f), Marking.Members(roots))| <= capacity
    requires ReachSet(Edges(f), Marking.Members(roots)) <= f.b.Keys + f.c.Keys
    ensures fresh(marker) && marker.dark == ReachSet(Edges(f), Marking.Members(roots))
    ensures marker.grayCount == 0 && marker.grayCountTotal == |marker.dark|
    ensures forall i :: 0 <= i < |roots| && roots[i] != 0 ==> roots[i] in marker.dark
    ensures forall id :: id in marker.dark ==>
      match if id in f.b then f.b[id] else f.c[id]
      case Instance(klass, fields) =>
        && (klass != 0 ==> klass in marker.dark)
        && (forall k :: k in fields && k != 0 ==> k in marker.dark)
        && (forall k :: k in fields && fields[k].Ref? && fields[k].id != 0 ==> fields[k].id in marker.dark)
      case Class(name, superclass, methods) =>
        && (name != 0 ==> name in marker.dark) && (superclass != 0 ==> superclass in marker.dark)
        && (forall k :: k in methods && k != 0 ==> k in marker.dark)
        && (forall k :: k in methods && methods[k].Ref? && methods[k].id != 0 ==> methods[k].id in marker.dark)
      case Closure(fn, upvalues) =>
        && (fn != 0 ==> fn in marker.dark)
        && (forall i :: 0 <= i < |upvalues| && upvalues[i] != 0 ==> upvalues[i] in marker.dark)
      case Function(title, constants, _) =>
        && (title != 0 ==> title in marker.dark)
        && (forall i :: 0 <= i < |constants| && constants[i].Ref? && constants[i].id != 0 ==> constants[i].id in marker.dark)
      case BoundMethod(receiver, invoked) =>
        (receiver.Ref? && receiver.id != 0 ==> receiver.id in marker.dark) && (invoked != 0 ==> invoked in marker.dark)
      case Upvalue(_, closed, _) => closed.Ref? && closed.id != 0 ==> closed.id in marker.dark
      case Str(_) => true
      case Native(_) => true
    ensures forall id :: id in marker.dark && id in f.b && id in f.c && f.b[id].Instance? && f.c[id].Instance? ==>
      && (forall k :: k in f.c[id].fields && k != 0 ==> k in marker.dark)
      && (forall k :: k in f.c[id].fields && f.c[id].fields[k].Ref? && f.c[id].fields[k].id != 0 ==> f.c[id].fields[k].id in marker.dark)
    ensures forall id :: id in marker.dark && id in f.b && id in f.c && f.b[id].Class? && f.c[id].Class? ==>
      && (forall k :: k in f.c[id].methods && k != 0 ==> k in marker.dark)
      && (forall k :: k in f.c[id].methods && f.c[id].methods[k].Ref? && f.c[id].methods[k].id != 0 ==> f.c[id].methods[k].id in marker.dark)
  {
    hide ReachSet, Marking.EdgesOf, LeavesOf, Edges, Marking.Members, Closed;
    LeavesAreEdges(f);
    marker := new Marking.Marker(capacity, AllLeaves(f), Marking.Members(roots));
    marker.Mark(roots);
    ghost var dark := marker.dark;
    ClosureHasRoots(Edges(f), Marking.Members(roots));
    ClosureIsClosed(Edges(f), Marking.Members(roots));
    RootsAreDark(roots, dark);
    forall id | id in dark
      ensures HoldsByPlace(if id in f.b then f.b[id] else f.c[id], dark)
      ensures id in f.b && id in f.c ==> Objects.EntriesHold(Objects.EntryMap(f.c[id]), dark)
    {
      FrozenHolds(f, dark, id);
    }
  }
}
