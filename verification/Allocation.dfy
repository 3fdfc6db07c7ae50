/** Bytes: what cloning objects and growing their maps takes from a region whose cursor
  * only moves up, against the sizes that the collector reserves beforehand.
  */
module Allocation {
  import opened FiniteSets
  import opened Routes
  import opened Collisions
  import StructMap

  const HEADER_SIZE := 17   // size, alignment and isObject
  const HEADER_ALIGN := 8
  const NODE_SIZE := 512
  const NODE_ALIGN := 64
  const NODE_BYTES := NODE_SIZE + NODE_ALIGN - 1

  /** A request to the allocator: an object or a side array, behind a header; or the node
    * of a structmap, without one. */
  datatype Request = Block(size: nat, align: nat) | Node

  predicate Sound(r: Request)
  {
    r.Block? ==> r.align > 0
  }

  /** cb_offset_aligned_gte: the first multiple of align that is not below x. */
  function AlignUp(x: nat, align: nat): (r: nat)
    requires align > 0
    ensures x <= r < x + align && r % align == 0
  {
    var rest := x % align;
    if rest == 0 then x
    else
      RoundedUp(x, align);
      x + (align - rest)
  }

  lemma RoundedUp(x: nat, align: nat)
    requires align > 0
    ensures (x + (align - x % align)) % align == 0
  {
    var y, k := x + (align - x % align), x / align + 1;
    assert y == align * k by {
      assert x == align * (x / align) + x % align;
    }
    MultipleOf(align, k);
  }

  lemma {:induction false} MultipleOf(align: nat, k: nat)
    requires align > 0
    ensures (align * k) % align == 0
  {
    var y := align * k;
    var q, r := y / align, y % align;
    assert y == align * q + r && 0 <= r < align;
    if k > q {
      Times(align, k, q + 1);
    } else if k < q {
      Times(align, q, k + 1);
    }
  }

  lemma Times(align: nat, a: nat, b: nat)
    requires a >= b
    ensures align * a >= align * b && align * b == align * (b - 1) + align
  {
  }

  /** reallocate_within and node_alloc: where the cursor stands afterwards. */
  function Advance(cursor: nat, r: Request): (next: nat)
    requires Sound(r)
    ensures cursor <= next
  {
    match r
    case Block(size, align) => if size == 0 then cursor else AlignUp(cursor, align) + HEADER_SIZE + (align - 1) + size
    case Node => AlignUp(cursor, NODE_ALIGN) + NODE_SIZE
  }

  /** The offset that an allocation of a positive size returns. */
  function Placed(cursor: nat, size: nat, align: nat): nat
    requires align > 0
  {
    AlignUp(AlignUp(cursor, align) + HEADER_SIZE, align)
  }

  /** The header in front of a block and the block itself lie in the space taken. */
  lemma BlockFits(cursor: nat, size: nat, align: nat)
    requires size > 0 && align > 0
    ensures var o := Placed(cursor, size, align);
      cursor + HEADER_SIZE <= o && o % align == 0 && o + size <= Advance(cursor, Block(size, align))
  {
  }

  /** What the size estimates allow for one request. */
  function Estimate(r: Request): nat
  {
    match r
    case Block(size, align) => if align == 0 then 0 else size + align - 1 + HEADER_SIZE + HEADER_ALIGN - 1
    case Node => NODE_BYTES
  }

  /** The estimate charges the header as if it were aligned to a word. It holds at every
    * cursor exactly for blocks that ask for no more than that. */
  lemma EstimateCovers(r: Request)
    requires Sound(r) && (r.Block? ==> r.size > 0)
    ensures (forall cursor: nat :: Advance(cursor, r) - cursor <= Estimate(r)) <==> (r.Block? ==> r.align <= HEADER_ALIGN)
  {
    if r.Block? && r.align > HEADER_ALIGN {
      SmallMod(r.align);
      assert Advance(1, r) - 1 > Estimate(r);
    }
  }

  lemma SmallMod(align: nat)
    requires align > 1
    ensures AlignUp(1, align) == align
  {
    assert 1 % align == 1;
  }

  // ----- sequences of requests -----

  predicate Modest(rs: seq<Request>)
  {
    forall i :: 0 <= i < |rs| ==> Sound(rs[i]) && (rs[i].Block? ==> rs[i].align <= HEADER_ALIGN)
  }

  function AdvanceAll(cursor: nat, rs: seq<Request>): nat
    requires Modest(rs)
    decreases |rs|
  {
    if rs == [] then cursor else AdvanceAll(Advance(cursor, rs[0]), rs[1..])
  }

  function Estimates(rs: seq<Request>): nat
  {
    if rs == [] then 0 else Estimate(rs[0]) + Estimates(rs[1..])
  }

  /** Requests may come in any order: each is charged its own alignment. */
  lemma {:induction false} EstimatesCover(cursor: nat, rs: seq<Request>)
    requires Modest(rs)
    ensures AdvanceAll(cursor, rs) - cursor <= Estimates(rs)
    decreases |rs|
  {
    if rs != [] {
      EstimatesCover(Advance(cursor, rs[0]), rs[1..]);
      assert Sound(rs[0]);
    }
  }

  lemma {:induction false} EstimatesAdd(xs: seq<Request>, ys: seq<Request>)
    ensures Estimates(xs + ys) == Estimates(xs) + Estimates(ys)
  {
    if xs == [] {
      assert xs + ys == ys;
    } else {
      assert (xs + ys)[0] == xs[0] && (xs + ys)[1..] == xs[1..] + ys;
      EstimatesAdd(xs[1..], ys);
    }
  }

  lemma Without<T>(s: seq<T>, i: nat)
    requires i < |s|
    ensures multiset(s[..i] + s[i + 1..]) == multiset(s) - multiset{s[i]}
  {
    assert s == s[..i] + [s[i]] + s[i + 1..];
  }

  lemma EstimateOut(rs: seq<Request>, i: nat)
    requires i < |rs|
    ensures Estimates(rs) == Estimate(rs[i]) + Estimates(rs[..i] + rs[i + 1..])
  {
    hide Estimate;
    assert rs == rs[..i] + rs[i..];
    EstimatesAdd(rs[..i], rs[i..]);
    EstimatesAdd(rs[..i], rs[i + 1..]);
    assert rs[i..][1..] == rs[i + 1..];
  }

  /** Only which requests there are matters, not their order. */
  lemma {:induction false} EstimatesPermute(xs: seq<Request>, ys: seq<Request>)
    requires multiset(xs) == multiset(ys)
    ensures Estimates(xs) == Estimates(ys)
  {
    hide Estimate, Estimates;
    if xs == [] {
      assert |multiset(ys)| == 0;
    } else {
      assert xs[0] in multiset(ys);
      var i :| 0 <= i < |ys| && ys[i] == xs[0];
      Without(xs, 0);
      Without(ys, i);
      EstimateOut(xs, 0);
      EstimateOut(ys, i);
      EstimatesPermute(xs[..0] + xs[1..], ys[..i] + ys[i + 1..]);
    }
  }

  lemma ModestPermute(xs: seq<Request>, ys: seq<Request>)
    requires multiset(xs) == multiset(ys) && Modest(xs)
    ensures Modest(ys)
  {
    forall i | 0 <= i < |ys| ensures Sound(ys[i]) && (ys[i].Block? ==> ys[i].align <= HEADER_ALIGN) {
      assert ys[i] in multiset(xs);
    }
  }

  /** After the first few requests the cursor is no further than all the estimates allow. */
  lemma PrefixCovered(cursor: nat, rs: seq<Request>, n: nat)
    requires Modest(rs) && n <= |rs|
    ensures AdvanceAll(cursor, rs[..n]) - cursor <= Estimates(rs)
  {
    EstimatesCover(cursor, rs[..n]);
    EstimatesAdd(rs[..n], rs[n..]);
    assert rs == rs[..n] + rs[n..];
  }

  function Nodes(n: nat): (rs: seq<Request>)
    ensures Modest(rs)
  {
    if n == 0 then [] else Nodes(n - 1) + [Node]
  }

  lemma {:induction false} NodesEstimate(n: nat)
    ensures Estimates(Nodes(n)) == n * NODE_BYTES
  {
    if n > 0 {
      NodesEstimate(n - 1);
      EstimatesAdd(Nodes(n - 1), [Node]);
      assert Estimates([Node]) == NODE_BYTES;
    }
  }

  // ----- objects -----

  /** The size and alignment of each record type, by the compiler's layout. */
  datatype Layouts = Layouts(
    boundMethod: Request, class_: Request, closure: Request, function_: Request,
    instance: Request, native: Request, string_: Request, upvalue: Request)

  /** What the size of an object depends on. */
  datatype Shape =
    | BoundMethod
    | Class(methods: set<Key>)
    | Closure(upvalueCount: nat)
    | Function(capacity: nat, constantCapacity: nat)
    | Instance(fields: set<Key>)
    | Native
    | Str(length: nat)
    | Upvalue

  const ENTRIES: Geometry := Bits(0, 5)   // of MethodsSM and FieldsSM
  const TABLE: Geometry := Bits(19, 5)    // of ObjTableSM

  predicate Words(l: Layouts)
  {
    Modest([l.boundMethod, l.class_, l.closure, l.function_, l.instance, l.native, l.string_, l.upvalue])
  }

  /** What deriveMutableObjectLayer asks for: the record, then its side arrays. */
  function DerivedRequests(l: Layouts, o: Shape): seq<Request>
  {
    match o
    case BoundMethod => [l.boundMethod]
    case Class(_) => [l.class_]
    case Closure(n) => [l.closure, Block(8 * n, 8)]
    case Function(code, constants) => [l.function_, Block(code, 1), Block(4 * code, 4), Block(8 * constants, 8)]
    case Instance(_) => [l.instance]
    case Native => [l.native]
    case Str(length) => [l.string_, Block(length + 1, 1)]
    case Upvalue => [l.upvalue]
  }

  ghost function EntryNodes(o: Shape): nat
  {
    match o
    case Class(methods) => NodeCount(ENTRIES, methods)
    case Instance(fields) => NodeCount(ENTRIES, fields)
    case _ => 0
  }

  /** cloneObject: the copy's map gets the same keys, hence as many nodes. */
  ghost function CloneRequests(l: Layouts, o: Shape): seq<Request>
  {
    DerivedRequests(l, o) + Nodes(EntryNodes(o))
  }

  function RecordSize(r: Request): nat
  {
    if r.Block? && r.align > 0 then r.size + r.align - 1 else 0
  }

  const HEADER := HEADER_SIZE + HEADER_ALIGN - 1

  /** klox_Obj_external_size, term by term. */
  ghost function ExternalSize(l: Layouts, o: Shape): nat
  {
    match o
    case BoundMethod => RecordSize(l.boundMethod) + HEADER
    case Class(methods) => RecordSize(l.class_) + NodeCount(ENTRIES, methods) * NODE_BYTES + HEADER
    case Closure(n) => RecordSize(l.closure) + (8 * n + 7) + 2 * HEADER
    case Function(code, constants) => RecordSize(l.function_) + code + (4 * code + 3) + (8 * constants + 7) + 4 * HEADER
    case Instance(fields) => RecordSize(l.instance) + NodeCount(ENTRIES, fields) * NODE_BYTES + HEADER
    case Native => RecordSize(l.native) + HEADER
    case Str(length) => RecordSize(l.string_) + (length + 1) + 2 * HEADER
    case Upvalue => RecordSize(l.upvalue) + HEADER
  }

  predicate AllBlocks(l: Layouts)
  {
    l.boundMethod.Block? && l.class_.Block? && l.closure.Block? && l.function_.Block?
    && l.instance.Block? && l.native.Block? && l.string_.Block? && l.upvalue.Block?
  }

  lemma WordsAt(l: Layouts)
    requires Words(l) && AllBlocks(l)
    ensures forall r :: r in [l.boundMethod, l.class_, l.closure, l.function_, l.instance, l.native, l.string_, l.upvalue] ==>
      0 < r.align <= HEADER_ALIGN && Estimate(r) == RecordSize(r) + HEADER
  {
  }

  lemma DerivedEstimate(l: Layouts, o: Shape)
    requires Words(l) && AllBlocks(l)
    ensures Modest(DerivedRequests(l, o))
    ensures Estimates(DerivedRequests(l, o)) + EntryNodes(o) * NODE_BYTES == ExternalSize(l, o)
  {
    WordsAt(l);
    var rs := DerivedRequests(l, o);
    EstimatesOf(rs);
  }

  lemma EstimatesOf(rs: seq<Request>)
    ensures |rs| == 1 ==> Estimates(rs) == Estimate(rs[0])
    ensures |rs| == 2 ==> Estimates(rs) == Estimate(rs[0]) + Estimate(rs[1])
    ensures |rs| == 4 ==> Estimates(rs) == Estimate(rs[0]) + Estimate(rs[1]) + Estimate(rs[2]) + Estimate(rs[3])
  {
    if |rs| >= 2 {
      assert Estimates(rs[1..]) == Estimate(rs[1]) + Estimates(rs[1..][1..]);
      if |rs| == 4 {
        assert Estimates(rs[1..][1..]) == Estimate(rs[2]) + Estimates(rs[1..][1..][1..]);
      }
    }
  }

  lemma CloneEstimate(l: Layouts, o: Shape)
    requires Words(l) && AllBlocks(l)
    ensures Modest(CloneRequests(l, o)) && Estimates(CloneRequests(l, o)) == ExternalSize(l, o)
  {
    DerivedEstimate(l, o);
    NodesEstimate(EntryNodes(o));
    EstimatesAdd(DerivedRequests(l, o), Nodes(EntryNodes(o)));
  }

  /** Cloning any object takes no more than its external size, wherever the cursor is. */
  lemma CloneFits(l: Layouts, o: Shape, cursor: nat)
    requires Words(l) && AllBlocks(l)
    ensures Modest(CloneRequests(l, o))
    ensures AdvanceAll(cursor, CloneRequests(l, o)) - cursor <= ExternalSize(l, o)
  {
    CloneEstimate(l, o);
    EstimatesCover(cursor, CloneRequests(l, o));
  }

  /** What the requests ask for, without headers and alignment. */
  function Payload(rs: seq<Request>): nat
  {
    if rs == [] then 0 else (match rs[0] case Block(size, _) => size case Node => NODE_SIZE) + Payload(rs[1..])
  }

  lemma {:induction false} PayloadFits(cursor: nat, rs: seq<Request>)
    requires Modest(rs)
    ensures cursor + Payload(rs) <= AdvanceAll(cursor, rs)
    decreases |rs|
  {
    if rs != [] {
      assert Sound(rs[0]);
      PayloadFits(Advance(cursor, rs[0]), rs[1..]);
    }
  }

  lemma {:induction false} PayloadAdds(xs: seq<Request>, ys: seq<Request>)
    ensures Payload(xs + ys) == Payload(xs) + Payload(ys)
  {
    if xs == [] {
      assert xs + ys == ys;
    } else {
      assert (xs + ys)[0] == xs[0] && (xs + ys)[1..] == xs[1..] + ys;
      PayloadAdds(xs[1..], ys);
    }
  }

  lemma {:induction false} NodesPayload(n: nat)
    ensures Payload(Nodes(n)) == 512 * n
  {
    hide Payload;
    NodePayload();
    if n > 0 {
      NodesPayload(n - 1);
      PayloadAdds(Nodes(n - 1), [Node]);
    }
  }

  lemma NodePayload()
    ensures Payload([]) == 0 && Payload([Node]) == 512
  {
  }

  /** And a clone takes at least what it consists of: the record, a word for each upvalue, a byte
    * of code and four of line number for each instruction byte, a word for each constant, the
    * characters of a string and its end, and every node of a map. */
  lemma {:induction false} CloneHoldsEverything(l: Layouts, o: Shape, cursor: nat)
    requires Words(l) && AllBlocks(l)
    ensures Modest(CloneRequests(l, o))
    ensures AdvanceAll(cursor, CloneRequests(l, o)) - cursor >=
      match o
      case BoundMethod => l.boundMethod.size
      case Class(methods) => l.class_.size + 512 * NodeCount(ENTRIES, methods)
      case Closure(n) => l.closure.size + 8 * n
      case Function(code, constants) => l.function_.size + code + 4 * code + 8 * constants
      case Instance(fields) => l.instance.size + 512 * NodeCount(ENTRIES, fields)
      case Native => l.native.size
      case Str(length) => l.string_.size + length + 1
      case Upvalue => l.upvalue.size
  {
    hide NodeCount;
    CloneEstimate(l, o);
    PayloadFits(cursor, CloneRequests(l, o));
    PayloadAdds(DerivedRequests(l, o), Nodes(EntryNodes(o)));
    NodesPayload(EntryNodes(o));
    PayloadOf(DerivedRequests(l, o));
  }

  lemma PayloadOf(rs: seq<Request>)
    requires forall i :: 0 <= i < |rs| ==> rs[i].Block?
    ensures |rs| == 1 ==> Payload(rs) == rs[0].size
    ensures |rs| == 2 ==> Payload(rs) == rs[0].size + rs[1].size
    ensures |rs| == 4 ==> Payload(rs) == rs[0].size + rs[1].size + rs[2].size + rs[3].size
  {
    if |rs| >= 2 {
      assert rs[1..][0] == rs[1];
      assert Payload(rs[1..]) == rs[1].size + Payload(rs[1..][1..]);
      if |rs| == 4 {
        assert rs[1..][1..][0] == rs[2] && rs[1..][1..][1..][0] == rs[3];
        assert Payload(rs[1..][1..]) == rs[2].size + Payload(rs[1..][1..][1..]);
      }
    }
  }

  // ----- the whole condensation -----

  function EntryKeys(o: Shape): set<Key>
  {
    match o
    case Class(methods) => methods
    case Instance(fields) => fields
    case _ => {}
  }

  predicate Mergeable(upper: Shape, lower: Shape)
  {
    (upper.Class? && lower.Class?) || (upper.Instance? && lower.Instance?)
  }

  /** copy_objtable_b: a clone of each record that is kept. */
  ghost function RequestsForB(l: Layouts, b: map<Key, Shape>, kept: set<Key>, id: Key): seq<Request>
  {
    if id in kept && id in b then CloneRequests(l, b[id]) else []
  }

  ghost function BytesForB(l: Layouts, b: map<Key, Shape>, kept: set<Key>, id: Key): nat
  {
    if id in kept && id in b then ExternalSize(l, b[id]) else 0
  }

  /** By how many nodes the map of B's clone grows when C's entries are merged into it. */
  ghost function Growth(upper: Shape, lower: Shape): nat
  {
    NodeCountMonotone(ENTRIES, EntryKeys(upper), EntryKeys(upper) + EntryKeys(lower));
    NodeCount(ENTRIES, EntryKeys(upper) + EntryKeys(lower)) - NodeCount(ENTRIES, EntryKeys(upper))
  }

  /** copy_objtable_c_not_in_b: the growth of the map that B's clone already has, or a
    * clone of its own, or nothing. */
  ghost function RequestsForC(l: Layouts, b: map<Key, Shape>, c: map<Key, Shape>, kept: set<Key>, id: Key): seq<Request>
  {
    if id !in kept || id !in c then []
    else if id !in b then CloneRequests(l, c[id])
    else if Mergeable(b[id], c[id]) then Nodes(Growth(b[id], c[id]))
    else []
  }

  ghost function BytesForC(l: Layouts, b: map<Key, Shape>, c: map<Key, Shape>, kept: set<Key>, id: Key): nat
  {
    if id !in kept || id !in c then 0
    else if id !in b then ExternalSize(l, c[id])
    else if Mergeable(b[id], c[id]) then Growth(b[id], c[id]) * NODE_BYTES
    else 0
  }

  ghost function AllForB(l: Layouts, b: map<Key, Shape>, kept: set<Key>, bs: seq<Key>): seq<Request>
  {
    if bs == [] then [] else AllForB(l, b, kept, bs[..|bs| - 1]) + RequestsForB(l, b, kept, bs[|bs| - 1])
  }

  ghost function AllForC(l: Layouts, b: map<Key, Shape>, c: map<Key, Shape>, kept: set<Key>, cs: seq<Key>): seq<Request>
  {
    if cs == [] then [] else AllForC(l, b, c, kept, cs[..|cs| - 1]) + RequestsForC(l, b, c, kept, cs[|cs| - 1])
  }

  ghost function SumB(l: Layouts, b: map<Key, Shape>, kept: set<Key>, bs: seq<Key>): nat
  {
    if bs == [] then 0 else SumB(l, b, kept, bs[..|bs| - 1]) + BytesForB(l, b, kept, bs[|bs| - 1])
  }

  ghost function SumC(l: Layouts, b: map<Key, Shape>, c: map<Key, Shape>, kept: set<Key>, cs: seq<Key>): nat
  {
    if cs == [] then 0 else SumC(l, b, c, kept, cs[..|cs| - 1]) + BytesForC(l, b, c, kept, cs[|cs| - 1])
  }

  lemma {:induction false} AllForBEstimate(l: Layouts, b: map<Key, Shape>, kept: set<Key>, bs: seq<Key>)
    requires Words(l) && AllBlocks(l)
    ensures Modest(AllForB(l, b, kept, bs)) && Estimates(AllForB(l, b, kept, bs)) == SumB(l, b, kept, bs)
  {
    hide CloneRequests, ExternalSize, Words, Estimate;
    if bs != [] {
      var id := bs[|bs| - 1];
      AllForBEstimate(l, b, kept, bs[..|bs| - 1]);
      if id in kept && id in b {
        CloneEstimate(l, b[id]);
      }
      EstimatesAdd(AllForB(l, b, kept, bs[..|bs| - 1]), RequestsForB(l, b, kept, id));
    }
  }

  lemma {:induction false} AllForCEstimate(l: Layouts, b: map<Key, Shape>, c: map<Key, Shape>, kept: set<Key>, cs: seq<Key>)
    requires Words(l) && AllBlocks(l)
    ensures Modest(AllForC(l, b, c, kept, cs)) && Estimates(AllForC(l, b, c, kept, cs)) == SumC(l, b, c, kept, cs)
  {
    hide CloneRequests, ExternalSize, Words, Estimate, Growth;
    if cs != [] {
      var id := cs[|cs| - 1];
      AllForCEstimate(l, b, c, kept, cs[..|cs| - 1]);
      if id in kept && id in c {
        if id !in b {
          CloneEstimate(l, c[id]);
        } else if Mergeable(b[id], c[id]) {
          NodesEstimate(Growth(b[id], c[id]));
        }
      }
      EstimatesAdd(AllForC(l, b, c, kept, cs[..|cs| - 1]), RequestsForC(l, b, c, kept, id));
    }
  }

  // ----- what a layer's total_external_size tracks -----

  ghost function SizeAt(l: Layouts, layer: map<Key, Shape>, id: Key): nat
  {
    if id in layer then ExternalSize(l, layer[id]) else 0
  }

  /** The sizes of the records of a layer, added up. */
  ghost function LayerSize(l: Layouts, layer: map<Key, Shape>, ids: seq<Key>): nat
  {
    if ids == [] then 0 else LayerSize(l, layer, ids[..|ids| - 1]) + SizeAt(l, layer, ids[|ids| - 1])
  }

  /** What happens to a layer while it is A: an object, or a tombstone, is inserted; a field or
    * method is added in place; the arrays of a function grow in place. */
  datatype Change =
    | Insert(id: Key, o: Shape)
    | Invalidate(id: Key)
    | AddEntry(id: Key, key: Key)
    | Grow(id: Key, capacity: nat, constantCapacity: nat)

  predicate Happens(layer: map<Key, Shape>, e: Change)
  {
    match e
    case Insert(_, _) => true
    case Invalidate(_) => true
    case AddEntry(id, _) => id in layer && (layer[id].Class? || layer[id].Instance?)
    case Grow(id, code, constants) =>
      id in layer && layer[id].Function? && layer[id].capacity <= code && layer[id].constantCapacity <= constants
  }

  function Entered(o: Shape, key: Key): Shape
  {
    match o
    case Class(methods) => Class(methods + {key})
    case Instance(fields) => Instance(fields + {key})
    case _ => o
  }

  function Changed(layer: map<Key, Shape>, e: Change): map<Key, Shape>
    requires Happens(layer, e)
  {
    match e
    case Insert(id, o) => layer[id := o]
    case Invalidate(id) => layer - {id}
    case AddEntry(id, key) => layer[id := Entered(layer[id], key)]
    case Grow(id, code, constants) => layer[id := Function(code, constants)]
  }

  /** Every insertion adds the whole size, whatever it replaces; a change in place adds the
    * growth of the map, or of the arrays that have grown. */
  ghost function Adjustment(l: Layouts, layer: map<Key, Shape>, e: Change): int
    requires Happens(layer, e)
  {
    match e
    case Insert(_, o) => ExternalSize(l, o)
    case Invalidate(_) => 0
    case AddEntry(id, key) => (EntryNodes(Entered(layer[id], key)) - EntryNodes(layer[id])) * NODE_BYTES
    case Grow(id, code, constants) => (code - layer[id].capacity) * (1 + 4) + (constants - layer[id].constantCapacity) * 8
  }

  predicate AllHappen(es: seq<Change>)
    decreases |es|, 0
  {
    es != [] ==> AllHappen(es[..|es| - 1]) && Happens(Records(es[..|es| - 1]), es[|es| - 1])
  }

  /** What the layer holds in the end. */
  function Records(es: seq<Change>): map<Key, Shape>
    requires AllHappen(es)
    decreases |es|, 1
  {
    if es == [] then map[] else Changed(Records(es[..|es| - 1]), es[|es| - 1])
  }

  /** total_external_size */
  ghost function ExternalTotal(l: Layouts, es: seq<Change>): int
    requires AllHappen(es)
  {
    if es == [] then 0
    else ExternalTotal(l, es[..|es| - 1]) + Adjustment(l, Records(es[..|es| - 1]), es[|es| - 1])
  }

  lemma {:induction false} LayerSizeWith(l: Layouts, layer: map<Key, Shape>, ids: seq<Key>, id: Key, other: map<Key, Shape>)
    requires NoDuplicates(ids) && layer - {id} == other - {id}
    ensures LayerSize(l, other, ids) == LayerSize(l, layer, ids) + if id in ids then SizeAt(l, other, id) - SizeAt(l, layer, id) else 0
  {
    hide ExternalSize;
    if ids != [] {
      var last := ids[|ids| - 1];
      LayerSizeWith(l, layer, ids[..|ids| - 1], id, other);
      assert id in ids <==> id in ids[..|ids| - 1] || id == last;
      if id != last {
        assert (last in layer <==> last in layer - {id}) && (last in other <==> last in other - {id});
        assert last in layer ==> layer[last] == (layer - {id})[last] == (other - {id})[last];
      }
    }
  }

  lemma ChangeIsTracked(l: Layouts, layer: map<Key, Shape>, e: Change)
    requires Happens(layer, e)
    ensures layer - {e.id} == Changed(layer, e) - {e.id}
    ensures SizeAt(l, Changed(layer, e), e.id) - SizeAt(l, layer, e.id) <= Adjustment(l, layer, e) && Adjustment(l, layer, e) >= 0
  {
    if e.AddEntry? {
      hide NodeCount;
      NodeCountMonotone(ENTRIES, EntryKeys(layer[e.id]), EntryKeys(layer[e.id]) + {e.key});
    }
  }

  /** The tracked total is never less than what the records of the layer come to. */
  lemma {:induction false} TotalCovers(l: Layouts, es: seq<Change>, ids: seq<Key>)
    requires AllHappen(es) && NoDuplicates(ids)
    ensures LayerSize(l, Records(es), ids) <= ExternalTotal(l, es)
  {
    hide ExternalSize, Adjustment, Happens, Changed;
    if es == [] {
      NothingToSize(l, ids);
    } else {
      var before, e := Records(es[..|es| - 1]), es[|es| - 1];
      TotalCovers(l, es[..|es| - 1], ids);
      ChangeIsTracked(l, before, e);
      LayerSizeWith(l, before, ids, e.id, Records(es));
    }
  }

  lemma {:induction false} NothingToSize(l: Layouts, ids: seq<Key>)
    ensures LayerSize(l, map[], ids) == 0
  {
    if ids != [] {
      NothingToSize(l, ids[..|ids| - 1]);
    }
  }

  // ----- what was reserved -----

  /** What the insertions into the maps of the upper records have added to
    * addl_collision_nodes. */
  ghost function TrackedInMaps(logs: map<Key, seq<Insertion>>, ids: seq<Key>): nat
  {
    if ids == [] then 0
    else TrackedInMaps(logs, ids[..|ids| - 1]) + if ids[|ids| - 1] in logs then Tracked(ENTRIES, logs[ids[|ids| - 1]]) else 0
  }

  /** The fields or methods of a record in B were put there while the record beneath, now
    * in C, held the keys that it holds. */
  ghost predicate TrackedMaps(b: map<Key, Shape>, c: map<Key, Shape>, logs: map<Key, seq<Insertion>>)
  {
    forall id :: id in b && id in c && Mergeable(b[id], c[id]) ==>
      id in logs && KeysAfter(logs[id]) == EntryKeys(b[id]) && Against(logs[id], EntryKeys(c[id]))
  }

  lemma MergeGrowth(l: Layouts, b: map<Key, Shape>, c: map<Key, Shape>, kept: set<Key>, logs: map<Key, seq<Insertion>>, id: Key)
    requires TrackedMaps(b, c, logs) && id in c
    ensures BytesForC(l, b, c, kept, id) <=
      ExternalSize(l, c[id]) + (if id in logs then Tracked(ENTRIES, logs[id]) else 0) * NODE_BYTES
  {
    hide NodeCount, Tracked, KeysAfter, Against;
    if id in kept && id in b && Mergeable(b[id], c[id]) {
      MergeBound(ENTRIES, logs[id], EntryKeys(c[id]));
    }
  }

  lemma {:induction false} SumBFits(l: Layouts, b: map<Key, Shape>, kept: set<Key>, bs: seq<Key>)
    ensures SumB(l, b, kept, bs) <= LayerSize(l, b, bs)
  {
    hide ExternalSize;
    if bs != [] {
      SumBFits(l, b, kept, bs[..|bs| - 1]);
    }
  }

  lemma {:induction false} SumCFits(l: Layouts, b: map<Key, Shape>, c: map<Key, Shape>, kept: set<Key>, logs: map<Key, seq<Insertion>>, cs: seq<Key>)
    requires TrackedMaps(b, c, logs) && forall id :: id in cs ==> id in c
    ensures SumC(l, b, c, kept, cs) <= LayerSize(l, c, cs) + TrackedInMaps(logs, cs) * NODE_BYTES
  {
    hide ExternalSize, BytesForC, Tracked, TrackedMaps;
    if cs != [] {
      var last := cs[|cs| - 1];
      assert last in cs;
      forall id | id in cs[..|cs| - 1] ensures id in c {}
      SumCFits(l, b, c, kept, logs, cs[..|cs| - 1]);
      MergeGrowth(l, b, c, kept, logs, last);
    }
  }

  function ModificationMaxSize(g: Geometry): nat
  {
    StructMap.ModificationMaxNodes(g) * NODE_SIZE + NODE_ALIGN - 1
  }

  /** How far ensure_modification_size reaches, before an insertion into a map. */
  function ReservationEnd(cursor: nat, g: Geometry): nat
  {
    AlignUp(cursor, NODE_ALIGN) + StructMap.ModificationMaxNodes(g) * NODE_SIZE
  }

  lemma MaxNodes()
    ensures StructMap.ModificationMaxNodes(TABLE) == 9 && StructMap.ModificationMaxNodes(ENTRIES) == 13
    ensures ModificationMaxSize(TABLE) < ModificationMaxSize(ENTRIES) <= 2 * ModificationMaxSize(TABLE)
  {
  }

  /** objtable_consolidation_size. */
  ghost function ConsolidationSize(b: map<Key, Shape>, bTotal: int, c: map<Key, Shape>, cTotal: int, addl: nat): int
  {
    bTotal + NodeCount(TABLE, b.Keys) * NODE_BYTES + cTotal + NodeCount(TABLE, c.Keys) * NODE_BYTES
    + 2 * ModificationMaxSize(TABLE) + addl * NODE_BYTES
  }

  /** What condensing asks of the allocator: clones, nodes of merged maps, nodes of the table. */
  ghost function CondensingRequests(l: Layouts, b: map<Key, Shape>, c: map<Key, Shape>, bs: seq<Key>, cs: seq<Key>, kept: set<Key>): seq<Request>
  {
    AllForB(l, b, kept, bs) + AllForC(l, b, c, kept, cs) + Nodes(NodeCount(TABLE, kept))
  }

  /** A clone of every record that is kept, and a node for each that the merge of two maps adds. */
  lemma {:induction false} KeptIsAskedFor(l: Layouts, b: map<Key, Shape>, c: map<Key, Shape>, bs: seq<Key>, cs: seq<Key>, kept: set<Key>, id: Key)
    requires id in kept
    ensures var all := multiset(CondensingRequests(l, b, c, bs, cs, kept));
      && (id in bs && id in b ==> multiset(CloneRequests(l, b[id])) <= all)
      && (id in cs && id in c && id !in b ==> multiset(CloneRequests(l, c[id])) <= all)
      && (id in cs && id in c && id in b && b[id].Instance? && c[id].Instance? ==>
            var both := NodeCount(ENTRIES, b[id].fields + c[id].fields);
            both >= NodeCount(ENTRIES, b[id].fields) && multiset(Nodes(both - NodeCount(ENTRIES, b[id].fields))) <= all)
      && (id in cs && id in c && id in b && b[id].Class? && c[id].Class? ==>
            var both := NodeCount(ENTRIES, b[id].methods + c[id].methods);
            both >= NodeCount(ENTRIES, b[id].methods) && multiset(Nodes(both - NodeCount(ENTRIES, b[id].methods))) <= all)
      && multiset(Nodes(NodeCount(TABLE, kept))) <= all
  {
    hide NodeCount, CloneRequests, CondensingRequests, Nodes, Growth, RequestsForB, RequestsForC;
    AskedFor(l, b, c, bs, cs, kept, id);
    if id in b {
      AskedOfB(l, b, kept, id);
    }
    if id in c {
      AskedOfC(l, b, c, kept, id);
    }
  }

  lemma AskedOfB(l: Layouts, b: map<Key, Shape>, kept: set<Key>, id: Key)
    requires id in kept && id in b
    ensures RequestsForB(l, b, kept, id) == CloneRequests(l, b[id])
  {
  }

  lemma AskedOfC(l: Layouts, b: map<Key, Shape>, c: map<Key, Shape>, kept: set<Key>, id: Key)
    requires id in kept && id in c
    ensures id !in b ==> RequestsForC(l, b, c, kept, id) == CloneRequests(l, c[id])
    ensures id in b && b[id].Instance? && c[id].Instance? ==>
      var both := NodeCount(ENTRIES, b[id].fields + c[id].fields);
      both >= NodeCount(ENTRIES, b[id].fields) && RequestsForC(l, b, c, kept, id) == Nodes(both - NodeCount(ENTRIES, b[id].fields))
    ensures id in b && b[id].Class? && c[id].Class? ==>
      var both := NodeCount(ENTRIES, b[id].methods + c[id].methods);
      both >= NodeCount(ENTRIES, b[id].methods) && RequestsForC(l, b, c, kept, id) == Nodes(both - NodeCount(ENTRIES, b[id].methods))
  {
    hide NodeCount, CloneRequests, Nodes;
    if id in b {
      NodeCountMonotone(ENTRIES, EntryKeys(b[id]), EntryKeys(b[id]) + EntryKeys(c[id]));
    }
  }

  lemma AskedFor(l: Layouts, b: map<Key, Shape>, c: map<Key, Shape>, bs: seq<Key>, cs: seq<Key>, kept: set<Key>, id: Key)
    ensures var all := multiset(CondensingRequests(l, b, c, bs, cs, kept));
      && (id in bs ==> multiset(RequestsForB(l, b, kept, id)) <= all)
      && (id in cs ==> multiset(RequestsForC(l, b, c, kept, id)) <= all)
      && multiset(Nodes(NodeCount(TABLE, kept))) <= all
  {
    hide NodeCount, Nodes, RequestsForB, RequestsForC, AllForB, AllForC;
    if id in bs {
      AskedInB(l, b, kept, bs, id);
    }
    if id in cs {
      AskedInC(l, b, c, kept, cs, id);
    }
  }

  lemma {:induction false} AskedInB(l: Layouts, b: map<Key, Shape>, kept: set<Key>, bs: seq<Key>, id: Key)
    requires id in bs
    ensures multiset(RequestsForB(l, b, kept, id)) <= multiset(AllForB(l, b, kept, bs))
  {
    hide RequestsForB;
    if id != bs[|bs| - 1] {
      assert bs == bs[..|bs| - 1] + [bs[|bs| - 1]];
      AskedInB(l, b, kept, bs[..|bs| - 1], id);
    }
  }

  lemma {:induction false} AskedInC(l: Layouts, b: map<Key, Shape>, c: map<Key, Shape>, kept: set<Key>, cs: seq<Key>, id: Key)
    requires id in cs
    ensures multiset(RequestsForC(l, b, c, kept, id)) <= multiset(AllForC(l, b, c, kept, cs))
  {
    hide RequestsForC;
    if id != cs[|cs| - 1] {
      assert cs == cs[..|cs| - 1] + [cs[|cs| - 1]];
      AskedInC(l, b, c, kept, cs[..|cs| - 1], id);
    }
  }

  lemma CondensingEstimate(l: Layouts, b: map<Key, Shape>, c: map<Key, Shape>, bs: seq<Key>, cs: seq<Key>, kept: set<Key>)
    requires Words(l) && AllBlocks(l)
    ensures Modest(CondensingRequests(l, b, c, bs, cs, kept))
    ensures Estimates(CondensingRequests(l, b, c, bs, cs, kept)) ==
      SumB(l, b, kept, bs) + SumC(l, b, c, kept, cs) + NodeCount(TABLE, kept) * NODE_BYTES
  {
    hide NodeCount, AllForB, AllForC, SumB, SumC, Words, AllBlocks;
    AllForBEstimate(l, b, kept, bs);
    AllForCEstimate(l, b, c, kept, cs);
    NodesEstimate(NodeCount(TABLE, kept));
    EstimatesAdd(AllForB(l, b, kept, bs), AllForC(l, b, c, kept, cs));
    EstimatesAdd(AllForB(l, b, kept, bs) + AllForC(l, b, c, kept, cs), Nodes(NodeCount(TABLE, kept)));
  }

  lemma SumsFit(l: Layouts, b: map<Key, Shape>, c: map<Key, Shape>, bs: seq<Key>, cs: seq<Key>, kept: set<Key>,
                log: seq<Insertion>, logs: map<Key, seq<Insertion>>, addl: nat)
    requires TrackedMaps(b, c, logs) && (forall id :: id in cs ==> id in c)
    requires KeysAfter(log) == b.Keys && Against(log, c.Keys) && kept <= b.Keys + c.Keys
    requires addl >= Tracked(TABLE, log) + TrackedInMaps(logs, cs)
    ensures SumB(l, b, kept, bs) + SumC(l, b, c, kept, cs) + NodeCount(TABLE, kept) * NODE_BYTES <=
      LayerSize(l, b, bs) + LayerSize(l, c, cs)
      + NodeCount(TABLE, b.Keys) * NODE_BYTES + NodeCount(TABLE, c.Keys) * NODE_BYTES + addl * NODE_BYTES
  {
    hide NodeCount, Tracked, KeysAfter, Against, ExternalSize, TrackedMaps, SumB, SumC, LayerSize, TrackedInMaps;
    SumBFits(l, b, kept, bs);
    SumCFits(l, b, c, kept, logs, cs);
    ReservationSuffices(TABLE, log, c.Keys, kept);
  }

  /** The reservation suffices. Let B and C have come about by any changes while they were A,
    * and let a collection keep any of their ids. In whatever order the clones, the nodes of
    * merged maps and the nodes of the condensed table are allocated, the cursor stays within
    * the bytes that were reserved at the freeze; and before each allocation there is still room
    * for what an insertion into either kind of map sets aside beforehand. */
  lemma ReservedBytesSuffice(l: Layouts, esB: seq<Change>, esC: seq<Change>, bs: seq<Key>, cs: seq<Key>, kept: set<Key>,
                             log: seq<Insertion>, logs: map<Key, seq<Insertion>>, addl: nat, cursor: nat, rs: seq<Request>)
    requires Words(l) && AllBlocks(l) && AllHappen(esB) && AllHappen(esC) && NoDuplicates(bs) && NoDuplicates(cs)
    requires TrackedMaps(Records(esB), Records(esC), logs) && (forall id :: id in cs ==> id in Records(esC))
    requires KeysAfter(log) == Records(esB).Keys && Against(log, Records(esC).Keys) && kept <= Records(esB).Keys + Records(esC).Keys
    requires addl >= Tracked(TABLE, log) + TrackedInMaps(logs, cs)
    requires multiset(rs) == multiset(CondensingRequests(l, Records(esB), Records(esC), bs, cs, kept))
    ensures Modest(rs)
    ensures var size := ConsolidationSize(Records(esB), ExternalTotal(l, esB), Records(esC), ExternalTotal(l, esC), addl);
      && AdvanceAll(cursor, rs) <= cursor + size
      && forall n, g :: 0 <= n <= |rs| && (g == TABLE || g == ENTRIES) ==>
           ReservationEnd(AdvanceAll(cursor, rs[..n]), g) <= cursor + size
  {
    hide NodeCount, Tracked, KeysAfter, Against, ExternalSize, TrackedMaps, SumB, SumC, LayerSize, TrackedInMaps,
      AllHappen, Records, ExternalTotal, CondensingRequests, Words, AllBlocks, NoDuplicates, StructMap.ModificationMaxNodes, Modest;
    var b, c := Records(esB), Records(esC);
    var all := CondensingRequests(l, b, c, bs, cs, kept);
    CondensingEstimate(l, b, c, bs, cs, kept);
    EstimatesPermute(all, rs);
    ModestPermute(all, rs);
    TotalCovers(l, esB, bs);
    TotalCovers(l, esC, cs);
    SumsFit(l, b, c, bs, cs, kept, log, logs, addl);
    MaxNodes();
    EstimatesCover(cursor, rs);
    forall n, g | 0 <= n <= |rs| && (g == TABLE || g == ENTRIES)
      ensures Modest(rs[..n])
      ensures ReservationEnd(AdvanceAll(cursor, rs[..n]), g)
        <= cursor + ConsolidationSize(b, ExternalTotal(l, esB), c, ExternalTotal(l, esC), addl)
    {
      PrefixModest(rs, n);
      PrefixCovered(cursor, rs, n);
    }
  }

  lemma PrefixModest(rs: seq<Request>, n: nat)
    requires Modest(rs) && n <= |rs|
    ensures Modest(rs[..n])
  {
  }
}
