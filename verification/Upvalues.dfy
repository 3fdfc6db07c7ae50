/** Captured variables. Open upvalues form a linked list ordered by stack index; closing
  * one moves the variable's value into it. To the program, a captured variable is one
  * cell, whether it still lives on the stack or not.
  */
module Upvalues {
  import opened Graph

  const NIL: Id := 0

  datatype Upvalue<V> = Upvalue(slot: int, closed: V, next: Id)

  function IdAt(ids: seq<Id>, i: nat): Id
  {
    if i < |ids| then ids[i] else NIL
  }

  /** One link of the list. */
  ghost predicate Link<V>(records: map<Id, Upvalue<V>>, list: seq<Id>, i: nat)
    requires i < |list|
  {
    list[i] in records && records[list[i]].slot >= 0 && records[list[i]].next == IdAt(list, i + 1)
  }

  /** The list from head on: linked as given, at strictly decreasing stack indices. */
  ghost predicate Chained<V>(records: map<Id, Upvalue<V>>, head: Id, list: seq<Id>)
  {
    && head == IdAt(list, 0)
    && (forall i :: 0 <= i < |list| ==> Link(records, list, i))
    && (forall id :: id in list ==> id in records)
    && forall i, j :: 0 <= i < j < |list| ==> records[list[j]].slot < records[list[i]].slot
  }

  lemma LinkAt<V>(records: map<Id, Upvalue<V>>, head: Id, list: seq<Id>, i: nat)
    requires Chained(records, head, list) && i < |list|
    ensures list[i] in records && records[list[i]].slot >= 0 && records[list[i]].next == IdAt(list, i + 1)
  {
    assert Link(records, list, i);
  }

  /** Every open upvalue is in the list. */
  ghost predicate Listed<V>(records: map<Id, Upvalue<V>>, list: seq<Id>)
  {
    forall id :: id in records ==> (records[id].slot >= 0 <==> id in list) && records[id].slot >= -1
  }

  lemma OnePerSlot<V>(records: map<Id, Upvalue<V>>, head: Id, list: seq<Id>, u: Id, v: Id)
    requires Chained(records, head, list) && Listed(records, list)
    requires u in records && v in records && records[u].slot == records[v].slot >= 0
    ensures u == v
  {
    var i :| 0 <= i < |list| && list[i] == u;
    var j :| 0 <= j < |list| && list[j] == v;
  }

  /** A cell for each variable: those on the stack, and those that closures hold. */
  ghost predicate Tied<V>(records: map<Id, Upvalue<V>>, stack: seq<V>, vars: seq<nat>, store: map<nat, V>, bound: map<Id, nat>)
  {
    && |vars| == |stack|
    && (forall i, j :: 0 <= i < j < |vars| ==> vars[i] != vars[j])
    && (forall i :: 0 <= i < |vars| ==> vars[i] in store && store[vars[i]] == stack[i])
    && bound.Keys == records.Keys
    && (forall id :: id in records ==> bound[id] in store)
    && (forall u, v :: u in records && v in records && bound[u] == bound[v] ==> u == v)
    && (forall id :: id in records && records[id].slot >= 0 ==> records[id].slot < |vars| && bound[id] == vars[records[id].slot])
    && (forall id :: id in records && records[id].slot < 0 ==> store[bound[id]] == records[id].closed && bound[id] !in vars)
  }

  /** What a closure sees through an upvalue. */
  function Observed<V>(u: Upvalue<V>, stack: seq<V>): V
  {
    if 0 <= u.slot < |stack| then stack[u.slot] else u.closed
  }

  /** An upvalue at or above a stack index takes its variable's value along. */
  function Closing<V>(u: Upvalue<V>, stack: seq<V>, n: nat): Upvalue<V>
  {
    if n <= u.slot < |stack| then u.(closed := stack[u.slot], slot := -1) else u
  }

  class Machine<V> {
    var stack: seq<V>
    var records: map<Id, Upvalue<V>>
    var openUpvalues: Id
    var nextId: Id
    const nil: V
    ghost var list: seq<Id>          // the open upvalues
    ghost var vars: seq<nat>         // which variable each stack slot is
    ghost var store: map<nat, V>     // what each variable holds
    ghost var bound: map<Id, nat>    // which variable each upvalue stands for

    ghost predicate Valid()
      reads this
    {
      && nextId > NIL
      && (forall id :: id in records ==> NIL < id < nextId)
      && Chained(records, openUpvalues, list) && Listed(records, list)
      && Tied(records, stack, vars, store, bound)
    }

    constructor (nil: V)
      ensures Valid() && stack == [] && records == map[] && vars == []
    {
      this.nil := nil;
      stack, records, openUpvalues, nextId := [], map[], NIL, 1;
      list, vars, store, bound := [], [], map[], map[];
    }

    // ----- the stack -----

    ghost function FreshVar(): (x: nat)
      reads this
      ensures x !in store
    {
      FreshBelow(store.Keys)
    }

    /** A new local variable. */
    method Push(v: V)
      requires Valid()
      modifies this`stack, this`vars, this`store
      ensures Valid() && stack == old(stack) + [v]
      ensures vars == old(vars) + [old(FreshVar())] && store == old(store)[old(FreshVar()) := v]
    {
      ghost var x := FreshVar();
      stack := stack + [v];
      vars := vars + [x];
      store := store[x := v];
    }

    method GetLocal(i: nat) returns (v: V)
      requires Valid() && i < |stack|
      ensures v == store[vars[i]]
    {
      v := stack[i];
    }

    method SetLocal(i: nat, v: V)
      requires Valid() && i < |stack|
      modifies this`stack, this`store
      ensures Valid() && store == old(store)[vars[i] := v] && |stack| == |old(stack)|
    {
      stack := stack[i := v];
      store := store[vars[i] := v];
    }

    // ----- upvalues -----

    /** The walk of captureUpvalue, to the first upvalue at or below a stack index. */
    method Seek(stackIndex: nat) returns (prev: Id, upvalue: Id, ghost i: nat)
      requires Valid()
      ensures i <= |list| && upvalue == IdAt(list, i) && prev == if i == 0 then NIL else list[i - 1]
      ensures forall k :: 0 <= k < |list| ==> list[k] in records
      ensures forall k :: 0 <= k < i ==> records[list[k]].slot > stackIndex
      ensures upvalue != NIL ==> upvalue in records && 0 <= records[upvalue].slot <= stackIndex
      ensures i < |list| ==> upvalue != NIL
    {
      hide Tied, Listed, Chained;
      prev, upvalue, i := NIL, openUpvalues, 0;
      ChainHead(records, openUpvalues, list);
      while upvalue != NIL && records[upvalue].slot > stackIndex
        invariant i <= |list| && upvalue == IdAt(list, i)
        invariant prev == if i == 0 then NIL else list[i - 1]
        invariant forall k :: 0 <= k < i ==> records[list[k]].slot > stackIndex
        decreases |list| - i
      {
        LinkAt(records, openUpvalues, list, i);
        prev, upvalue := upvalue, records[upvalue].next;
        i := i + 1;
      }
      if i < |list| { LinkAt(records, openUpvalues, list, i); }
    }

    /** captureUpvalue: the upvalue that stands for the variable at a stack index, which is
      * a new one only if there is none yet. */
    method Capture(stackIndex: nat) returns (u: Id)
      requires Valid() && stackIndex < |stack|
      modifies this`records, this`openUpvalues, this`nextId, this`list, this`bound
      ensures Valid() && u in records && bound[u] == vars[stackIndex] && records[u].slot == stackIndex
      ensures records.Keys == old(records).Keys + {u}
      ensures forall id :: id in old(records) ==> bound[id] == old(bound)[id] && records[id].slot == old(records)[id].slot
      ensures u !in old(records) ==> forall id :: id in old(records) ==> old(records)[id].slot != stackIndex
    {
      hide Tied, Listed, Chained, Inserted;
      ghost var i;
      var prev, upvalue;
      prev, upvalue, i := Seek(stackIndex);
      if upvalue != NIL && records[upvalue].slot == stackIndex {
        OpenIsBound(records, stack, vars, store, bound, upvalue);
        return upvalue;
      }
      NoneAt(records, openUpvalues, list, i, stackIndex);
      u := Create(stackIndex, prev, upvalue, i);
    }

    /** A new open upvalue, linked in where the walk stopped. */
    method Create(stackIndex: nat, prev: Id, upvalue: Id, ghost i: nat) returns (u: Id)
      requires Valid() && stackIndex < |stack|
      requires i <= |list| && upvalue == IdAt(list, i) && prev == if i == 0 then NIL else list[i - 1]
      requires forall k :: 0 <= k < |list| ==> list[k] in records
      requires forall k :: 0 <= k < i ==> records[list[k]].slot > stackIndex
      requires i < |list| ==> records[list[i]].slot < stackIndex
      requires forall id :: id in records ==> records[id].slot != stackIndex
      modifies this`records, this`openUpvalues, this`nextId, this`list, this`bound
      ensures Valid() && u in records && bound[u] == vars[stackIndex] && records[u].slot == stackIndex
      ensures u !in old(records) && records.Keys == old(records).Keys + {u}
      ensures forall id :: id in old(records) ==> bound[id] == old(bound)[id] && records[id].slot == old(records)[id].slot
    {
      hide Tied, Listed, Chained, Inserted;
      u := nextId;
      var created := Upvalue(stackIndex, nil, upvalue);
      InsertKeepsChain(records, openUpvalues, list, i, u, stackIndex, created);
      InsertKeepsListed(records, list, i, u, prev, created);
      InsertKeepsTied(records, stack, vars, store, bound, prev, u, stackIndex, created);
      InsertedRecords(records, prev, u, created);
      list, bound := list[..i] + [u] + list[i..], bound[u := vars[stackIndex]];
      LinkIn(u, prev, created);
    }

    method LinkIn(u: Id, prev: Id, created: Upvalue<V>)
      requires u == nextId && u !in records && (prev == NIL || prev in records)
      modifies this`records, this`openUpvalues, this`nextId
      ensures records == Inserted(old(records), prev, u, created) && nextId == u + 1
      ensures openUpvalues == if prev == NIL then u else old(openUpvalues)
    {
      nextId := nextId + 1;
      records := records[u := created];
      if prev == NIL {
        openUpvalues := u;
      } else {
        records := records[prev := records[prev].(next := u)];
      }
    }

    /** closeUpvalues: exactly the upvalues at or above the index are closed, the others are as
      * they were, and every closure sees the value that it saw. The stack, which still holds the
      * closed variables, is sound as far as the index. */
    method CloseUpvalues(lastStackIndex: nat)
      requires Valid() && lastStackIndex <= |stack|
      modifies this`records, this`openUpvalues, this`list
      ensures Chained(records, openUpvalues, list) && Listed(records, list)
      ensures |vars| == |stack| && Tied(records, stack[..lastStackIndex], vars[..lastStackIndex], store, bound)
      ensures records.Keys == old(records).Keys
      ensures forall id :: id in records ==> records[id] == Closing(old(records)[id], stack, lastStackIndex)
      ensures forall id :: id in records ==> Observed(records[id], stack) == Observed(old(records)[id], stack)
    {
      hide Tied, Listed, Chained, ClosedTo;
      ghost var records0 := records;
      ghost var i := 0;
      ChainHead(records, openUpvalues, list);
      ClosedNone(records, stack, list);
      while openUpvalues != NIL && records[openUpvalues].slot >= lastStackIndex
        invariant unchanged(this`list, this`stack, this`vars)
        invariant i <= |list| && openUpvalues == IdAt(list, i)
        invariant records == ClosedTo(records0, stack, list[..i]) && records.Keys == records0.Keys
        invariant forall k :: 0 <= k < i ==> lastStackIndex <= records0[list[k]].slot < |stack|
        decreases |list| - i
      {
        UnclosedStays(records0, stack, list, i);
        SlotOnStack(records0, stack, vars, store, bound, list[i]);
        ClosedNext(records0, stack, list, i);
        var upvalue := openUpvalues;
        var next := records[upvalue].next;
        var v := stack[records[upvalue].slot];
        records := records[upvalue := records[upvalue].(closed := v, slot := -1)];
        openUpvalues := next;
        i := i + 1;
      }
      if i < |list| { UnclosedStays(records0, stack, list, i); }
      LeftIsChained(records0, stack, list, i, lastStackIndex);
      LeftIsListed(records0, stack, list, i, lastStackIndex);
      LeftIsTied(records0, stack, vars, store, bound, list, i, lastStackIndex);
      LeftIsClosing(records0, stack, list, i, lastStackIndex);
      list := list[i..];
    }

    /** closeUpvalues and the pops that follow it: a scope or a frame is left. Exactly the
      * upvalues of the variables that go away are closed, and no variable changes. */
    method Leave(lastStackIndex: nat)
      requires Valid() && lastStackIndex <= |stack|
      modifies this`stack, this`records, this`openUpvalues, this`list, this`vars
      ensures Valid() && stack == old(stack)[..lastStackIndex] && vars == old(vars)[..lastStackIndex]
      ensures records.Keys == old(records).Keys
      ensures forall id :: id in records ==> records[id] == Closing(old(records)[id], old(stack), lastStackIndex)
    {
      hide Tied, Listed, Chained;
      CloseUpvalues(lastStackIndex);
      stack, vars := stack[..lastStackIndex], vars[..lastStackIndex];
    }

    method GetUpvalue(u: Id) returns (v: V)
      requires Valid() && u in records
      ensures v == store[bound[u]]
    {
      if records[u].slot == -1 {
        v := records[u].closed;
      } else {
        v := stack[records[u].slot];
      }
    }

    /** A write through one closure is seen by every other that captured the variable,
      * and by nothing else. */
    method SetUpvalue(u: Id, v: V)
      requires Valid() && u in records
      modifies this`stack, this`records, this`store
      ensures Valid() && store == old(store)[bound[u] := v]
      ensures |stack| == |old(stack)| && records.Keys == old(records).Keys
    {
      hide Tied, Listed, Chained;
      if records[u].slot == -1 {
        WriteClosed(records, openUpvalues, list, stack, vars, store, bound, u, v);
        records := records[u := records[u].(closed := v)];
      } else {
        WriteOpen(records, list, stack, vars, store, bound, u, v);
        stack := stack[records[u].slot := v];
      }
      store := store[bound[u] := v];
    }
  }

  lemma WriteClosed<V>(records: map<Id, Upvalue<V>>, head: Id, list: seq<Id>, stack: seq<V>, vars: seq<nat>, store: map<nat, V>, bound: map<Id, nat>, u: Id, v: V)
    requires Chained(records, head, list) && Listed(records, list) && Tied(records, stack, vars, store, bound)
    requires u in records && records[u].slot == -1
    ensures u in bound
    ensures var records' := records[u := records[u].(closed := v)];
      Chained(records', head, list) && Listed(records', list) && Tied(records', stack, vars, store[bound[u] := v], bound)
  {
    var records' := records[u := records[u].(closed := v)];
    assert u !in list;
    forall i | 0 <= i < |list| ensures Link(records', list, i) {
      assert Link(records, list, i) && list[i] != u;
    }
    TieClosed(records, stack, vars, store, bound, u, v);
  }

  lemma TieClosed<V>(records: map<Id, Upvalue<V>>, stack: seq<V>, vars: seq<nat>, store: map<nat, V>, bound: map<Id, nat>, u: Id, v: V)
    requires Tied(records, stack, vars, store, bound) && u in records && records[u].slot == -1
    ensures Tied(records[u := records[u].(closed := v)], stack, vars, store[bound[u] := v], bound)
  {
  }

  lemma WriteOpen<V>(records: map<Id, Upvalue<V>>, list: seq<Id>, stack: seq<V>, vars: seq<nat>, store: map<nat, V>, bound: map<Id, nat>, u: Id, v: V)
    requires Listed(records, list) && Tied(records, stack, vars, store, bound) && u in records && records[u].slot != -1
    ensures 0 <= records[u].slot < |stack| && u in bound
    ensures Tied(records, stack[records[u].slot := v], vars, store[bound[u] := v], bound)
  {
  }

  lemma ChainHead<V>(records: map<Id, Upvalue<V>>, head: Id, list: seq<Id>)
    requires Chained(records, head, list)
    ensures head == IdAt(list, 0) && forall k :: 0 <= k < |list| ==> list[k] in records
  {
  }

  // ----- capturing -----

  lemma OpenIsBound<V>(records: map<Id, Upvalue<V>>, stack: seq<V>, vars: seq<nat>, store: map<nat, V>, bound: map<Id, nat>, u: Id)
    requires Tied(records, stack, vars, store, bound) && u in records && records[u].slot >= 0
    ensures records[u].slot < |vars| && u in bound && bound[u] == vars[records[u].slot]
  {
  }

  lemma NoneAt<V>(records: map<Id, Upvalue<V>>, head: Id, list: seq<Id>, i: nat, slot: nat)
    requires Chained(records, head, list) && Listed(records, list) && i <= |list|
    requires forall k :: 0 <= k < i ==> records[list[k]].slot > slot
    requires i < |list| ==> records[list[i]].slot < slot
    ensures forall id :: id in records ==> records[id].slot != slot
  {
    forall id | id in records && records[id].slot >= 0 ensures records[id].slot != slot {
      var k :| 0 <= k < |list| && list[k] == id;
      if k > i {
        assert records[list[k]].slot < records[list[i]].slot;
      }
    }
  }

  function Inserted<V>(records: map<Id, Upvalue<V>>, prev: Id, u: Id, created: Upvalue<V>): map<Id, Upvalue<V>>
  {
    var r := records[u := created];
    if prev == NIL || prev !in r then r else r[prev := r[prev].(next := u)]
  }

  lemma InsertedRecords<V>(records: map<Id, Upvalue<V>>, prev: Id, u: Id, created: Upvalue<V>)
    requires u !in records && (prev == NIL || prev in records)
    ensures Inserted(records, prev, u, created).Keys == records.Keys + {u}
    ensures forall id :: id in records ==> Inserted(records, prev, u, created)[id].slot == records[id].slot
    ensures prev == NIL ==> Inserted(records, prev, u, created) == records[u := created]
    ensures prev != NIL ==> Inserted(records, prev, u, created) == records[u := created][prev := records[prev].(next := u)]
    ensures prev != u ==> Inserted(records, prev, u, created)[u] == created
  {
  }

  lemma InsertedAt(list: seq<Id>, i: nat, u: Id, k: nat)
    requires i <= |list|
    ensures IdAt(list[..i] + [u] + list[i..], k) == if k < i then list[k] else if k == i then u else IdAt(list, k - 1)
  {
  }

  lemma InsertedLink<V>(records: map<Id, Upvalue<V>>, head: Id, list: seq<Id>, i: nat, u: Id, created: Upvalue<V>, k: nat)
    requires Chained(records, head, list) && i <= |list| && u !in records && NIL !in records && k <= |list|
    requires created.slot >= 0 && created.next == IdAt(list, i)
    ensures var list' := list[..i] + [u] + list[i..];
      Link(Inserted(records, if i == 0 then NIL else list[i - 1], u, created), list', k)
  {
    hide Chained, Inserted;
    var list' := list[..i] + [u] + list[i..];
    var prev := if i == 0 then NIL else list[i - 1];
    ChainIsDistinct(records, head, list);
    ChainHead(records, head, list);
    InsertedAt(list, i, u, k);
    InsertedAt(list, i, u, k + 1);
    InsertedNext(records, prev, u, created);
    if k < i {
      LinkAt(records, head, list, k);
    } else if k > i {
      LinkAt(records, head, list, k - 1);
    }
  }

  lemma InsertedNext<V>(records: map<Id, Upvalue<V>>, prev: Id, u: Id, created: Upvalue<V>)
    requires u !in records && (prev == NIL || prev in records)
    ensures forall id :: id in records ==> id in Inserted(records, prev, u, created)
    ensures forall id :: id in records ==>
      Inserted(records, prev, u, created)[id] == if id == prev && prev != NIL then records[id].(next := u) else records[id]
    ensures u in Inserted(records, prev, u, created) && Inserted(records, prev, u, created)[u] == created
  {
  }

  lemma InsertKeepsChain<V>(records: map<Id, Upvalue<V>>, head: Id, list: seq<Id>, i: nat, u: Id, slot: nat, created: Upvalue<V>)
    requires Chained(records, head, list) && i <= |list| && u !in records && NIL !in records
    requires created.slot == slot && created.next == IdAt(list, i)
    requires forall k :: 0 <= k < i ==> records[list[k]].slot > slot
    requires i < |list| ==> records[list[i]].slot < slot
    ensures var records' := Inserted(records, if i == 0 then NIL else list[i - 1], u, created);
      Chained(records', if i == 0 then u else head, list[..i] + [u] + list[i..])
  {
    var records' := Inserted(records, if i == 0 then NIL else list[i - 1], u, created);
    var list' := list[..i] + [u] + list[i..];
    forall k | 0 <= k < |list'| ensures Link(records', list', k) {
      InsertedLink(records, head, list, i, u, created, k);
    }
    forall j, k | 0 <= j < k < |list'| ensures records'[list'[k]].slot < records'[list'[j]].slot {
      InsertedAt(list, i, u, j);
      InsertedAt(list, i, u, k);
      if i < |list| && k - 1 > i { assert records[list[k - 1]].slot < records[list[i]].slot; }
    }
    InsertedAt(list, i, u, 0);
  }

  lemma ChainIsDistinct<V>(records: map<Id, Upvalue<V>>, head: Id, list: seq<Id>)
    requires Chained(records, head, list)
    ensures forall j, k :: 0 <= j < k < |list| ==> list[j] != list[k]
  {
    forall j, k | 0 <= j < k < |list| ensures list[j] != list[k] {
      assert records[list[k]].slot < records[list[j]].slot;
    }
  }

  lemma InsertKeepsListed<V>(records: map<Id, Upvalue<V>>, list: seq<Id>, i: nat, u: Id, prev: Id, created: Upvalue<V>)
    requires Listed(records, list) && i <= |list| && u !in records && created.slot >= 0
    ensures Listed(Inserted(records, prev, u, created), list[..i] + [u] + list[i..])
  {
    assert list == list[..i] + list[i..];
    forall id ensures id in list[..i] + [u] + list[i..] <==> id in list || id == u {}
  }

  lemma InsertKeepsTied<V>(records: map<Id, Upvalue<V>>, stack: seq<V>, vars: seq<nat>, store: map<nat, V>, bound: map<Id, nat>,
                           prev: Id, u: Id, slot: nat, created: Upvalue<V>)
    requires Tied(records, stack, vars, store, bound) && u !in records && slot < |stack| && created.slot == slot
    requires forall id :: id in records ==> records[id].slot != slot
    ensures |vars| == |stack| && Tied(Inserted(records, prev, u, created), stack, vars, store, bound[u := vars[slot]])
  {
  }

  // ----- closing -----

  /** The records once some of the open upvalues have been closed. */
  ghost function ClosedTo<V>(records: map<Id, Upvalue<V>>, stack: seq<V>, ids: seq<Id>): map<Id, Upvalue<V>>
  {
    map id | id in records ::
      if id in ids && 0 <= records[id].slot < |stack| then records[id].(closed := stack[records[id].slot], slot := -1) else records[id]
  }

  lemma ClosedNone<V>(records: map<Id, Upvalue<V>>, stack: seq<V>, list: seq<Id>)
    ensures ClosedTo(records, stack, list[..0]) == records
  {
  }

  lemma UnclosedStays<V>(records: map<Id, Upvalue<V>>, stack: seq<V>, list: seq<Id>, i: nat)
    requires Chained(records, IdAt(list, 0), list) && i < |list|
    ensures list[i] in records && list[i] !in list[..i] && ClosedTo(records, stack, list[..i])[list[i]] == records[list[i]]
    ensures records[list[i]].next == IdAt(list, i + 1) && records[list[i]].slot >= 0
  {
    LinkAt(records, IdAt(list, 0), list, i);
    ChainIsDistinct(records, IdAt(list, 0), list);
  }

  lemma SlotOnStack<V>(records: map<Id, Upvalue<V>>, stack: seq<V>, vars: seq<nat>, store: map<nat, V>, bound: map<Id, nat>, u: Id)
    requires Tied(records, stack, vars, store, bound) && u in records
    ensures records[u].slot < |stack|
  {
  }

  lemma ClosedNext<V>(records: map<Id, Upvalue<V>>, stack: seq<V>, list: seq<Id>, i: nat)
    requires i < |list| && list[i] in records && list[i] !in list[..i] && 0 <= records[list[i]].slot < |stack|
    ensures ClosedTo(records, stack, list[..i + 1]) == ClosedTo(records, stack, list[..i])[
      list[i] := records[list[i]].(closed := stack[records[list[i]].slot], slot := -1)]
  {
    assert list[..i + 1] == list[..i] + [list[i]];
  }

  /** What is left of the list is below the scope's first index; what was closed is not. */
  lemma LeftBehind<V>(records: map<Id, Upvalue<V>>, list: seq<Id>, i: nat, n: nat)
    requires Chained(records, IdAt(list, 0), list) && i <= |list|
    requires i < |list| ==> records[list[i]].slot < n
    ensures forall k :: i <= k < |list| ==> list[k] !in list[..i] && records[list[k]].slot < n
  {
    ChainIsDistinct(records, IdAt(list, 0), list);
    forall k | i <= k < |list| ensures records[list[k]].slot < n {
      assert k > i ==> records[list[k]].slot < records[list[i]].slot;
    }
  }

  lemma LeftIsChained<V>(records: map<Id, Upvalue<V>>, stack: seq<V>, list: seq<Id>, i: nat, n: nat)
    requires Chained(records, IdAt(list, 0), list) && i <= |list|
    requires i < |list| ==> records[list[i]].slot < n
    ensures Chained(ClosedTo(records, stack, list[..i]), IdAt(list, i), list[i..])
  {
    var records', list' := ClosedTo(records, stack, list[..i]), list[i..];
    LeftBehind(records, list, i, n);
    forall k | 0 <= k < |list'| ensures Link(records', list', k) {
      LinkAt(records, IdAt(list, 0), list, i + k);
      assert list'[k] == list[i + k] && IdAt(list', k + 1) == IdAt(list, i + k + 1);
    }
    assert forall k :: 0 <= k < |list'| ==> records'[list'[k]] == records[list[i + k]];
  }

  lemma LeftMember<V>(records: map<Id, Upvalue<V>>, list: seq<Id>, i: nat, n: nat, size: nat, id: Id)
    requires Chained(records, IdAt(list, 0), list) && i <= |list|
    requires forall k :: 0 <= k < i ==> n <= records[list[k]].slot < size
    requires i < |list| ==> records[list[i]].slot < n
    ensures id in list <==> id in list[..i] || id in list[i..]
    ensures id in list[..i] ==> id in records && n <= records[id].slot < size
    ensures id in list[i..] ==> id !in list[..i] && id in records && records[id].slot < n
  {
    LeftBehind(records, list, i, n);
    ChainHead(records, IdAt(list, 0), list);
    hide Chained;
    assert list == list[..i] + list[i..];
    if id in list[..i] {
      var k :| 0 <= k < i && list[..i][k] == id;
      assert list[k] == id;
    }
    if id in list[i..] {
      var k :| 0 <= k < |list| - i && list[i..][k] == id;
      assert list[i + k] == id;
    }
  }

  lemma LeftIsListed<V>(records: map<Id, Upvalue<V>>, stack: seq<V>, list: seq<Id>, i: nat, n: nat)
    requires Chained(records, IdAt(list, 0), list) && Listed(records, list) && i <= |list|
    requires forall k :: 0 <= k < i ==> n <= records[list[k]].slot < |stack|
    requires i < |list| ==> records[list[i]].slot < n
    ensures Listed(ClosedTo(records, stack, list[..i]), list[i..])
    ensures forall id :: id in records ==>
      ClosedTo(records, stack, list[..i])[id].slot == if records[id].slot >= n then -1 else records[id].slot
  {
    hide Chained;
    var records' := ClosedTo(records, stack, list[..i]);
    forall id | id in records
      ensures records'[id].slot == if records[id].slot >= n then -1 else records[id].slot
      ensures (records'[id].slot >= 0 <==> id in list[i..]) && records'[id].slot >= -1
    {
      LeftMember(records, list, i, n, |stack|, id);
    }
  }

  lemma LeftIsClosing<V>(records: map<Id, Upvalue<V>>, stack: seq<V>, list: seq<Id>, i: nat, n: nat)
    requires Chained(records, IdAt(list, 0), list) && Listed(records, list) && i <= |list|
    requires forall k :: 0 <= k < i ==> n <= records[list[k]].slot < |stack|
    requires i < |list| ==> records[list[i]].slot < n
    ensures ClosedTo(records, stack, list[..i]).Keys == records.Keys
    ensures forall id :: id in records ==> ClosedTo(records, stack, list[..i])[id] == Closing(records[id], stack, n)
  {
    hide Chained;
    forall id | id in records ensures ClosedTo(records, stack, list[..i])[id] == Closing(records[id], stack, n) {
      LeftMember(records, list, i, n, |stack|, id);
    }
  }

  lemma LeftIsTied<V>(records: map<Id, Upvalue<V>>, stack: seq<V>, vars: seq<nat>, store: map<nat, V>, bound: map<Id, nat>,
                      list: seq<Id>, i: nat, n: nat)
    requires Tied(records, stack, vars, store, bound) && n <= |stack| && i <= |list|
    requires var records' := ClosedTo(records, stack, list[..i]);
      forall id :: id in records ==> records'[id].slot == if records[id].slot >= n then -1 else records[id].slot
    ensures |vars| == |stack| && Tied(ClosedTo(records, stack, list[..i]), stack[..n], vars[..n], store, bound)
  {
  }

  ghost function FreshBelow(s: set<nat>): (x: nat)
    ensures x !in s
  {
    Above(s)
  }

  ghost function Above(s: set<nat>): (x: nat)
    ensures forall y :: y in s ==> y < x
    decreases s
  {
    if s == {} then 0
    else
      var y :| y in s;
      var rest := Above(s - {y});
      assert forall z :: z in s ==> z == y || z in s - {y};
      if rest <= y then y + 1 else rest
  }
}
