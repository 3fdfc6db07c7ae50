/** Heap objects. Classes and instances are stored as layers: a derived record starts
  * with the header of the record beneath it and with no entries of its own.
  */
module Objects {
  import opened Options
  import opened Graph

  /** A value: a reference to a heap object, or anything else. */
  datatype Value = Plain(bits: nat) | Ref(id: Id)

  datatype Obj =
    | Instance(klass: Id, fields: map<Id, Value>)
    | Class(name: Id, superclass: Id, methods: map<Id, Value>)
    | Closure(fn: Id, upvalues: seq<Id>)
    | Function(title: Id, constants: seq<Value>, code: seq<nat>)
    | BoundMethod(receiver: Value, invoked: Id)
    | Upvalue(slot: int, closed: Value, next: Id)
    | Str(chars: string)
    | Native(address: nat)

  const NIL: Id := 0

  predicate Layered(o: Obj)
  {
    o.Instance? || o.Class?
  }

  predicate SameKind(o: Obj, o': Obj)
  {
    match o
    case Instance(_, _) => o'.Instance?
    case Class(_, _, _) => o'.Class?
    case Closure(_, _) => o'.Closure?
    case Function(_, _, _) => o'.Function?
    case BoundMethod(_, _) => o'.BoundMethod?
    case Upvalue(_, _, _) => o'.Upvalue?
    case Str(_) => o'.Str?
    case Native(_) => o'.Native?
  }

  function EntryMap(o: Obj): map<Id, Value>
  {
    match o
    case Instance(_, fields) => fields
    case Class(_, _, methods) => methods
    case _ => map[]
  }

  function WithEntries(o: Obj, m: map<Id, Value>): Obj
    requires Layered(o)
  {
    if o.Instance? then o.(fields := m) else o.(methods := m)
  }

  function ValueRefs(v: Value): set<Id>
  {
    if v.Ref? then {v.id} - {NIL} else {}
  }

  /** The ids that the entries of a layer mention: its keys are strings in the heap. */
  function EntryRefs(o: Obj): set<Id>
  {
    (set k | k in EntryMap(o) && k != NIL)
    + (set k | k in EntryMap(o) && EntryMap(o)[k].Ref? && EntryMap(o)[k].id != NIL :: EntryMap(o)[k].id)
  }

  /** The ids in the header of a record. The next pointer of an upvalue is followed
    * only from the list of open upvalues, as a root. */
  function HeaderRefs(o: Obj): set<Id>
  {
    match o
    case Instance(klass, _) => {klass} - {NIL}
    case Class(name, superclass, _) => {name, superclass} - {NIL}
    case Closure(fn, upvalues) => {fn} + (set u | u in upvalues) - {NIL}
    case Function(title, constants, _) => {title} + (set v | v in constants && v.Ref? :: v.id) - {NIL}
    case BoundMethod(receiver, invoked) => ValueRefs(receiver) + {invoked} - {NIL}
    case Upvalue(_, closed, _) => ValueRefs(closed)
    case Str(_) => {}
    case Native(_) => {}
  }

  function Refs(o: Obj): set<Id>
  {
    HeaderRefs(o) + EntryRefs(o)
  }

  /** A record read above another one for the same id: entries of the upper layer hide
    * those of the lower; everything else comes from the upper record alone. */
  function Over(top: Obj, under: Obj): Obj
  {
    if Layered(top) && SameKind(top, under)
    then WithEntries(top, EntryMap(under) + EntryMap(top))
    else top
  }

  /** deriveMutableObjectLayer */
  function Derived(o: Obj): Obj
  {
    if Layered(o) then WithEntries(o, map[]) else o
  }

  /** What the mutator may do to an object it holds: insert a field or method, set the
    * superclass, or overwrite an object that is not layered. */
  datatype Edit = PutEntry(key: Id, value: Value) | SetSuper(id: Id) | Replace(obj: Obj)

  predicate EditFits(o: Obj, e: Edit)
  {
    match e
    case PutEntry(_, _) => Layered(o)
    case SetSuper(_) => o.Class?
    case Replace(o') => !Layered(o) && !o.Str? && SameKind(o, o')
  }

  function EditRefs(e: Edit): set<Id>
  {
    match e
    case PutEntry(k, v) => {k} - {NIL} + ValueRefs(v)
    case SetSuper(id) => {id} - {NIL}
    case Replace(o) => Refs(o)
  }

  function Edited(o: Obj, e: Edit): Obj
    requires EditFits(o, e)
  {
    match e
    case PutEntry(k, v) => WithEntries(o, EntryMap(o)[k := v])
    case SetSuper(id) => o.(superclass := id)
    case Replace(o') => o'
  }

  lemma OverKeepsKind(top: Obj, under: Obj)
    ensures SameKind(Over(top, under), top) && SameKind(top, Over(top, under))
  {
  }

  lemma EditKeepsKind(o: Obj, e: Edit)
    requires EditFits(o, e)
    ensures SameKind(o, Edited(o, e)) && (o.Str? <==> Edited(o, e).Str?)
  {
  }

  lemma DerivedIsNeutral(top: Obj, under: Obj)
    ensures Over(Derived(top), Over(top, under)) == Over(top, under)
    ensures Over(Derived(top), top) == top
    ensures SameKind(Derived(top), top)
    ensures top.Instance? || top.Class? ==> EntryMap(Derived(top)) == map[]
    ensures Refs(Derived(top)) <= Refs(top)
  {
    if Layered(top) {
      assert EntryMap(top) + map[] == EntryMap(top);
      assert EntryMap(Over(top, under)) + map[] == EntryMap(Over(top, under));
      assert EntryRefs(Derived(top)) == {};
    }
  }

  lemma OverAssociates(x: Obj, y: Obj, z: Obj)
    requires SameKind(x, y) && SameKind(y, z)
    ensures Over(x, Over(y, z)) == Over(Over(x, y), z)
  {
    if Layered(x) {
      assert EntryMap(z) + EntryMap(y) + EntryMap(x) == EntryMap(z) + (EntryMap(y) + EntryMap(x));
    }
  }

  lemma EditCommutes(top: Obj, under: Obj, e: Edit)
    requires SameKind(top, under) && EditFits(top, e)
    ensures EditFits(Over(top, under), e)
    ensures Over(Edited(top, e), under) == Edited(Over(top, under), e)
  {
    match e
    case PutEntry(k, v) =>
      assert EntryMap(under) + EntryMap(top)[k := v] == (EntryMap(under) + EntryMap(top))[k := v];
    case SetSuper(id) =>
    case Replace(o) =>
  }

  lemma InEntryRefs(o: Obj, x: Id)
    ensures x in EntryRefs(o) <==> x != NIL && (x in EntryMap(o) || exists k :: k in EntryMap(o) && EntryMap(o)[k] == Ref(x))
  {
  }

  lemma EditedRefs(o: Obj, e: Edit)
    requires EditFits(o, e)
    ensures Refs(Edited(o, e)) <= Refs(o) + EditRefs(e)
  {
    if e.PutEntry? {
      var o' := Edited(o, e);
      assert HeaderRefs(o') == HeaderRefs(o);
      forall x | x in EntryRefs(o') ensures x in EntryRefs(o) + EditRefs(e) {
        InEntryRefs(o', x);
        InEntryRefs(o, x);
      }
    } else if e.SetSuper? {
      assert EntryRefs(Edited(o, e)) == EntryRefs(o);
    }
  }

  lemma OverRefs(top: Obj, under: Obj)
    ensures Refs(Over(top, under)) <= Refs(top) + EntryRefs(under)
    ensures EntryRefs(Over(top, under)) <= EntryRefs(top) + EntryRefs(under)
    ensures HeaderRefs(Over(top, under)) == HeaderRefs(top)
  {
    if Layered(top) && SameKind(top, under) {
      var o := Over(top, under);
      forall x | x in EntryRefs(o) ensures x in EntryRefs(top) + EntryRefs(under) {
        InEntryRefs(o, x);
        InEntryRefs(top, x);
        InEntryRefs(under, x);
      }
    }
  }

  /** What it means that all the references of a record are among given ids, place by place. */
  lemma {:induction false} RefsHold(o: Obj, ids: set<Id>)
    requires Refs(o) <= ids
    ensures match o
      case Instance(klass, fields) =>
        (klass != 0 ==> klass in ids) && EntriesHold(fields, ids)
      case Class(name, superclass, methods) =>
        (name != 0 ==> name in ids) && (superclass != 0 ==> superclass in ids) && EntriesHold(methods, ids)
      case Closure(fn, upvalues) =>
        && (fn != 0 ==> fn in ids)
        && (forall i :: 0 <= i < |upvalues| && upvalues[i] != 0 ==> upvalues[i] in ids)
      case Function(title, constants, _) =>
        && (title != 0 ==> title in ids)
        && (forall i :: 0 <= i < |constants| && constants[i].Ref? && constants[i].id != 0 ==> constants[i].id in ids)
      case BoundMethod(receiver, invoked) =>
        && (receiver.Ref? && receiver.id != 0 ==> receiver.id in ids) && (invoked != 0 ==> invoked in ids)
      case Upvalue(_, closed, _) => closed.Ref? && closed.id != 0 ==> closed.id in ids
      case Str(_) => true
      case Native(_) => true
  {
    hide EntryRefs;
    match o
    case Instance(_, fields) => EntryRefsHold(o, ids);
    case Class(_, _, methods) => EntryRefsHold(o, ids);
    case Function(_, constants, _) =>
      forall i | 0 <= i < |constants| && constants[i].Ref? && constants[i].id != 0 ensures constants[i].id in ids {
        assert constants[i] in constants;
      }
    case _ =>
  }

  predicate EntriesHold(m: map<Id, Value>, ids: set<Id>)
  {
    && (forall k :: k in m && k != 0 ==> k in ids)
    && (forall k :: k in m && m[k].Ref? && m[k].id != 0 ==> m[k].id in ids)
  }

  lemma EntryRefsHold(o: Obj, ids: set<Id>)
    requires EntryRefs(o) <= ids
    ensures EntriesHold(EntryMap(o), ids)
  {
  }

  /** Looking a field or method up layer by layer, top first, finds what the layers
    * read together hold. */
  function Cascade(top: Option<Obj>, middle: Option<Obj>, bottom: Option<Obj>, key: Id): Option<Value>
  {
    if top.Some? && key in EntryMap(top.value) then Some(EntryMap(top.value)[key])
    else if middle.Some? && key in EntryMap(middle.value) then Some(EntryMap(middle.value)[key])
    else if bottom.Some? && key in EntryMap(bottom.value) then Some(EntryMap(bottom.value)[key])
    else None
  }

  function Above(top: Option<Obj>, under: Option<Obj>): Option<Obj>
  {
    if top.None? then under else if under.None? then top else Some(Over(top.value, under.value))
  }

  predicate SameKinds(x: Option<Obj>, y: Option<Obj>)
  {
    x.Some? && y.Some? ==> SameKind(x.value, y.value)
  }

  lemma CascadeReadsTheView(x: Option<Obj>, y: Option<Obj>, z: Option<Obj>, key: Id)
    requires SameKinds(x, y) && SameKinds(y, z) && SameKinds(x, z)
    ensures
      var view := Above(x, Above(y, z));
      Cascade(x, y, z, key) ==
      if view.Some? && key in EntryMap(view.value) then Some(EntryMap(view.value)[key]) else None
  {
    if x.Some? && y.Some? && z.Some? {
      OverKeepsKind(y.value, z.value);
    }
  }

  /** Every id that the records of one object mention, hidden entries included. */
  function AllRefs(x: Option<Obj>, y: Option<Obj>, z: Option<Obj>): set<Id>
  {
    if x.Some? then Refs(x.value) + OptEntryRefs(y) + OptEntryRefs(z)
    else if y.Some? then Refs(y.value) + OptEntryRefs(z)
    else if z.Some? then Refs(z.value)
    else {}
  }

  function OptEntryRefs(x: Option<Obj>): set<Id>
  {
    if x.Some? then EntryRefs(x.value) else {}
  }

  lemma ViewRefs(x: Option<Obj>, y: Option<Obj>, z: Option<Obj>)
    ensures var view := Above(x, Above(y, z)); view.Some? ==> Refs(view.value) <= AllRefs(x, y, z)
  {
    if y.Some? && z.Some? {
      OverRefs(y.value, z.value);
      if x.Some? {
        OverRefs(x.value, Over(y.value, z.value));
      }
    } else if x.Some? && Above(y, z).Some? {
      OverRefs(x.value, Above(y, z).value);
    }
  }
}
