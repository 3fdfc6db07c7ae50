/** The object table: three structmaps from object ids to offsets. Only layer A is
  * ever written by the main thread.
  */
module ObjTable {
  import opened Options
  import opened Routes
  import opened Collisions
  import opened TrieShape
  import opened Layers
  import opened StructMap

  class Table {
    const g: Geometry
    const sizeofObject: Loc -> nat
    var a: Amt<Loc>
    var b: Amt<Loc>
    var c: Amt<Loc>
    var nextId: Key
    var addlCollisionNodes: nat
    var snapAddlCollisionNodes: nat
    ghost var log: seq<Insertion>        // insertions into the present A
    ghost var frozenLog: seq<Insertion>  // insertions into what was A at the last freeze

    ghost predicate Valid()
      reads this, a, b, c
    {
      && a.Valid() && b.Valid() && c.Valid()
      && a.g == g && b.g == g && c.g == g
      && a != b && a != c && nextId > 0
      && KeysAfter(log) == a.content.Keys
      && addlCollisionNodes == Tracked(g, log)
      && snapAddlCollisionNodes == Tracked(g, frozenLog)
    }

    /** initVM: layers B and C start as one blank layer. */
    constructor (g: Geometry, sizeofObject: Loc -> nat)
      ensures Valid() && fresh(a) && fresh(b) && fresh(c) && this.g == g
      ensures a.content == map[] && b.content == map[] && c.content == map[]
      ensures nextId == 1 && log == [] && frozenLog == []
    {
      this.g, this.sizeofObject := g, sizeofObject;
      var first := new Amt<Loc>(g, sizeofObject);
      var blank := new Amt<Loc>(g, sizeofObject);
      this.a, this.b, this.c := first, blank, blank;
      this.nextId := 1;
      this.addlCollisionNodes, this.snapAddlCollisionNodes := 0, 0;
      this.log, this.frozenLog := [], [];
    }

    method LayerLookup(layer: Amt<Loc>, id: Key) returns (r: Found)
      requires layer.Valid()
      ensures r == if Has(layer.content, id) then Offset(layer.content[id].offset) else Nothing
    {
      var v := layer.Lookup(id);
      match v
      case Some(At(offset, _)) => return Offset(offset);
      case _ => return Nothing;
    }

    method Lookup(id: Key) returns (r: Found)
      requires Valid()
      ensures r == Resolve(a.content, b.content, c.content, id)
      ensures id in a.content && a.content[id].At? ==> r == Offset(a.content[id].offset)
      ensures !(id in a.content && a.content[id].At?) && id in b.content && b.content[id].At? ==> r == Offset(b.content[id].offset)
      ensures !(id in a.content && a.content[id].At?) && !(id in b.content && b.content[id].At?) ==>
        r == if id in c.content && c.content[id].At? then Offset(c.content[id].offset) else Nothing
    {
      r := LayerLookup(a, id);
      if r.Offset? { return; }
      r := LayerLookup(b, id);
      if r.Offset? { return; }
      r := LayerLookup(c, id);
    }

    /** objtable_add_at: records the pair in A and notes the collisions that a later
      * merge with B and C will have to pay for. */
    method AddAt(id: Key, l: Loc)
      requires Valid() && id > 0
      modifies this`addlCollisionNodes, this`log, a
      ensures Valid()
      ensures a.content == old(a.content)[id := l]
      ensures log == old(log) + [Insertion(id, b.content.Keys, c.content.Keys)]
      ensures var own, inB, inC := |FreshNodes(g, old(a.content).Keys, id)|, |FreshNodes(g, b.content.Keys, id)|, |FreshNodes(g, c.content.Keys, id)|;
        addlCollisionNodes - old(addlCollisionNodes) ==
          if inB >= inC && inB > own then inB - own else if inC > own then inC - own else 0
    {
      hide Amt.Valid, Canonical, NodeSet, FreshNodes, Tracked, AddedCollisions, KeysAfter;
      ghost var keys := a.content.Keys;
      ghost var e := Insertion(id, b.content.Keys, c.content.Keys);
      var preNodeCount := a.nodeCount;
      a.Insert(id, l);
      var delta := a.nodeCount - preNodeCount;
      var bCollide := b.WouldCollideNodeCount(id);
      var cCollide := c.WouldCollideNodeCount(id);
      var maxCollide := if bCollide > cCollide then bCollide else cCollide;
      if maxCollide > delta {
        addlCollisionNodes := addlCollisionNodes + (maxCollide - delta);
      }
      log := log + [e];
      TrackedNext(g, old(log), e);
      assert a.content.Keys == keys + {id};
    }

    method Add(l: Loc) returns (id: Key)
      requires Valid() && nextId + 1 < KEY_LIMIT
      modifies this`addlCollisionNodes, this`log, this`nextId, a
      ensures Valid()
      ensures id == old(nextId) && nextId == id + 1
      ensures a.content == old(a.content)[id := l]
    {
      hide Amt.Valid, Canonical, NodeSet, NodeCount, Tracked, KeysAfter;
      id := nextId;
      AddAt(id, l);
      nextId := nextId + 1;
    }

    /** objtable_invalidate */
    method Invalidate(id: Key)
      requires Valid() && id > 0
      modifies this`addlCollisionNodes, this`log, a
      ensures Valid()
      ensures a.content == old(a.content)[id := Null]
    {
      hide Amt.Valid, Canonical, NodeSet, NodeCount, Tracked, KeysAfter;
      AddAt(id, Null);
    }

    /** objtable_freeze: C := B, B := A, A := empty. */
    method Freeze()
      requires Valid()
      modifies this`a, this`b, this`c, this`addlCollisionNodes, this`snapAddlCollisionNodes, this`log, this`frozenLog
      ensures Valid() && fresh(a)
      ensures c == old(b) && b == old(a) && a.content == map[]
      ensures log == [] && frozenLog == old(log)
      ensures KeysAfter(frozenLog) == b.content.Keys
      ensures addlCollisionNodes == 0 && snapAddlCollisionNodes == old(addlCollisionNodes)
      ensures old(c.content) == map[] ==> forall id: Key ::
        Resolve(a.content, b.content, c.content, id) == old(Resolve(a.content, b.content, c.content, id))
    {
      hide Amt.Valid, Canonical, NodeSet, NodeCount, Tracked;
      c := b;
      b := a;
      a := new Amt<Loc>(g, sizeofObject);
      snapAddlCollisionNodes := addlCollisionNodes;
      addlCollisionNodes := 0;
      log, frozenLog := [], log;
      NothingTracked(g);
    }

    /** The node part of objtable_consolidation_size: enough for condensing B and C,
      * whatever the collection keeps of them, if B's keys were added while the
      * layers beneath held the keys that C has now. */
    method ConsolidationNodes() returns (reserved: nat)
      requires Valid() && KeysAfter(frozenLog) == b.content.Keys
      ensures reserved == b.nodeCount + c.nodeCount + snapAddlCollisionNodes
      ensures Against(frozenLog, c.content.Keys) ==>
        forall kept :: kept <= b.content.Keys + c.content.Keys ==> NodeCount(g, kept) <= reserved
    {
      hide Canonical, NodeSet, NodeCount, Tracked;
      reserved := b.nodeCount + c.nodeCount + snapAddlCollisionNodes;
      CountOfKeys(g, b.Memory(), b.content);
      CountOfKeys(g, c.Memory(), c.content);
      if Against(frozenLog, c.content.Keys) {
        forall kept | kept <= b.content.Keys + c.content.Keys ensures NodeCount(g, kept) <= reserved {
          ReservationSuffices(g, frozenLog, c.content.Keys, kept);
        }
      }
    }

    /** The objtable part of integrateGCResponse: C := blank, B := the condensed layer. */
    method Integrate(newB: Amt<Loc>)
      requires Valid() && newB.Valid() && newB.g == g && newB != a
      modifies this`b, this`c
      ensures Valid() && fresh(c) && b == newB && c.content == map[]
    {
      hide Amt.Valid, Canonical, NodeSet, NodeCount, Tracked, KeysAfter;
      c := new Amt<Loc>(g, sizeofObject);
      b := newB;
    }
  }

  lemma NothingTracked(g: Geometry)
    ensures Tracked(g, []) == 0 && KeysAfter([]) == {}
  {
  }

  lemma TrackedNext(g: Geometry, es: seq<Insertion>, e: Insertion)
    ensures Tracked(g, es + [e]) == Tracked(g, es) + AddedCollisions(g, KeysAfter(es), e)
    ensures KeysAfter(es + [e]) == KeysAfter(es) + {e.key}
    ensures AddedCollisions(g, KeysAfter(es), e) ==
      var delta := |FreshNodes(g, KeysAfter(es), e.key)|;
      var collide := Larger(|FreshNodes(g, e.b, e.key)|, |FreshNodes(g, e.c, e.key)|);
      if collide > delta then collide - delta else 0
  {
    hide NodeSet, FreshNodes;
    assert (es + [e])[..|es|] == es;
  }
}
