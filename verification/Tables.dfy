/** The layered table of the globals. Unlike the object table's, its tombstones mask. */
module Tables {
  import opened Options
  datatype Entry<V> = Tombstone | Holds(value: V)

  type Tree<K, V> = map<K, Entry<V>>

  /** tableGet: the first layer that has the key decides, tombstone or not. */
  function Get<K, V>(a: Tree<K, V>, b: Tree<K, V>, c: Tree<K, V>, key: K): Option<V>
  {
    var e := if key in a then a[key] else if key in b then b[key] else if key in c then c[key] else Tombstone;
    match e
    case Tombstone => None
    case Holds(v) => Some(v)
  }

  /** The whole table as one map. */
  function Visible<K, V>(a: Tree<K, V>, b: Tree<K, V>, c: Tree<K, V>): map<K, V>
  {
    map k | k in a.Keys + b.Keys + c.Keys && Get(a, b, c, k).Some? :: Get(a, b, c, k).value
  }

  lemma GetIsVisible<K, V>(a: Tree<K, V>, b: Tree<K, V>, c: Tree<K, V>, key: K)
    ensures Get(a, b, c, key) == if key in Visible(a, b, c) then Some(Visible(a, b, c)[key]) else None
  {
  }

  lemma SetIsVisible<K, V>(a: Tree<K, V>, b: Tree<K, V>, c: Tree<K, V>, key: K, e: Entry<V>)
    ensures Visible(a[key := e], b, c) == if e.Holds? then Visible(a, b, c)[key := e.value] else Visible(a, b, c) - {key}
  {
    var a' := a[key := e];
    forall k ensures k != key ==> Get(a', b, c, k) == Get(a, b, c, k) {}
    assert Get(a', b, c, key) == if e.Holds? then Some(e.value) else None;
  }

  /** The entries of one layer whose keys read at all. */
  function Readable<K, V>(tree: Tree<K, V>, read: map<K, V>): Tree<K, V>
  {
    map k | k in tree && k in read :: tree[k]
  }

  lemma ReadableNone<K, V>(tree: Tree<K, V>, read: map<K, V>)
    ensures Readable(tree - tree.Keys, read) == map[]
  {
  }

  lemma ReadableNext<K, V>(tree: Tree<K, V>, todo: set<K>, key: K, read: map<K, V>)
    requires key in todo && key in tree
    ensures var before, next := Readable(tree - todo, read), Readable(tree - (todo - {key}), read);
      next == if key in read then before[key := tree[key]] else before
  {
  }

  lemma AddedAt<K, V>(a: Tree<K, V>, b: Tree<K, V>, c: Tree<K, V>, x: Tree<K, V>, y: Tree<K, V>, z: Tree<K, V>, k: K)
    ensures var read := Visible(x, y, z);
      Get(a + Readable(z, read) + Readable(y, read) + Readable(x, read), b, c, k) == if k in read then Some(read[k]) else Get(a, b, c, k)
  {
    hide Visible;
    GetIsVisible(x, y, z, k);
  }

  /** Laying the readable entries of a table's layers over A, lowest first, adds what the
    * table reads as: the stale values and tombstones among them end up covered. */
  lemma AddedLayers<K, V>(a: Tree<K, V>, b: Tree<K, V>, c: Tree<K, V>, x: Tree<K, V>, y: Tree<K, V>, z: Tree<K, V>)
    ensures var read := Visible(x, y, z);
      Visible(a + Readable(z, read) + Readable(y, read) + Readable(x, read), b, c) == Visible(a, b, c) + read
  {
    hide Get, Readable, Visible;
    var read := Visible(x, y, z);
    var a' := a + Readable(z, read) + Readable(y, read) + Readable(x, read);
    var now, sum := Visible(a', b, c), Visible(a, b, c) + read;
    forall k | k in now.Keys + sum.Keys ensures k in now && k in sum && now[k] == sum[k] {
      AddedAt(a, b, c, x, y, z, k);
      GetIsVisible(a', b, c, k);
      GetIsVisible(a, b, c, k);
    }
    assert now.Keys == sum.Keys;
    assert now == sum;
  }

  /** Shifting the layers down over an empty C changes nothing. */
  lemma ShiftKeepsVisible<K, V>(a: Tree<K, V>, b: Tree<K, V>)
    ensures Visible(map[], a, b) == Visible(a, b, map[])
  {
    assert forall k :: Get(map[], a, b, k) == Get(a, b, map[], k);
  }

  /** Nor does condensing B over C, tombstones of B included, whatever A is by then. */
  lemma CondensingKeepsVisible<K, V>(a: Tree<K, V>, b: Tree<K, V>, c: Tree<K, V>)
    ensures Visible(a, c + b, map[]) == Visible(a, b, c)
  {
    assert forall k :: Get(a, c + b, map[], k) == Get(a, b, c, k);
  }

  class Table<K(==), V> {
    var a: Tree<K, V>
    var b: Tree<K, V>
    var c: Tree<K, V>

    ghost function Contents(): map<K, V>
      reads this
    {
      Visible(a, b, c)
    }

    constructor ()
      ensures Contents() == map[] && c == map[]
    {
      a, b, c := map[], map[], map[];
    }

    /** tableGet, lookup by lookup. */
    method Lookup(key: K) returns (r: Option<V>)
      ensures r == if key in Contents() then Some(Contents()[key]) else None
    {
      GetIsVisible(a, b, c, key);
      var e: Entry<V>;
      if key in a {
        e := a[key];
      } else if key in b {
        e := b[key];
      } else if key in c {
        e := c[key];
      } else {
        return None;
      }
      match e
      case Tombstone => return None;
      case Holds(v) => return Some(v);
    }

    /** tableSet answers whether the key is new to the table as it reads. */
    method Set(key: K, v: V) returns (isNew: bool)
      modifies this`a
      ensures Contents() == old(Contents())[key := v]
      ensures isNew <==> key !in old(Contents())
    {
      var before := Lookup(key);
      SetIsVisible(a, b, c, key, Holds(v));
      a := a[key := Holds(v)];
      isNew := before.None?;
    }

    method Delete(key: K)
      modifies this`a
      ensures Contents() == old(Contents()) - {key}
    {
      SetIsVisible(a, b, c, key, Tombstone);
      a := a[key := Tombstone];
    }

    /** OP_SET_GLOBAL: an assignment to an undefined variable fails and leaves the
      * table reading as before, although it sets the key and deletes it again. */
    method Assign(key: K, v: V) returns (defined: bool)
      modifies this`a
      ensures defined <==> key in old(Contents())
      ensures Contents() == if defined then old(Contents())[key := v] else old(Contents())
    {
      var isNew := Set(key, v);
      if isNew {
        Delete(key);
        assert old(Contents())[key := v] - {key} == old(Contents());
      }
      defined := !isNew;
    }

    /** freezeARegions */
    method Freeze()
      requires c == map[]
      modifies this
      ensures Contents() == old(Contents()) && b == old(a) && c == old(b) && a == map[]
    {
      ShiftKeepsVisible(a, b);
      a, b, c := map[], a, b;
    }

    /** integrateGCResponse, after any writes to A. */
    method Integrate(newB: Tree<K, V>)
      requires newB == c + b
      modifies this`b, this`c
      ensures Contents() == old(Contents()) && c == map[]
    {
      CondensingKeepsVisible(a, b, c);
      b, c := newB, map[];
    }

    /** tableAddAll: C, then B, then A of another table, each entry as its own layer has
      * it, tombstones and stale values included, as long as the key reads at all. */
    method AddAll(from: Table<K, V>)
      requires from != this
      modifies this`a
      ensures Contents() == old(Contents()) + from.Contents()
    {
      AddTree(from, from.c);
      AddTree(from, from.b);
      AddTree(from, from.a);
      AddedLayers(old(a), b, c, from.a, from.b, from.c);
    }

    /** One traversal of traversalAdd, in any order. */
    method AddTree(from: Table<K, V>, tree: Tree<K, V>)
      requires from != this
      modifies this`a
      ensures a == old(a) + Readable(tree, from.Contents())
    {
      hide Visible, Readable;
      ReadableNone(tree, from.Contents());
      var todo := tree.Keys;
      while todo != {}
        invariant todo <= tree.Keys
        invariant a == old(a) + Readable(tree - todo, from.Contents())
      {
        var key :| key in todo;
        ReadableNext(tree, todo, key, from.Contents());
        var read := from.Lookup(key);
        if read.Some? {
          a := a[key := tree[key]];
        }
        todo := todo - {key};
      }
      assert tree - {} == tree;
    }
  }

  /** copy_globals_b and copy_globals_c_not_in_b: two traversals, in any order. */
  method Condense<K, V>(b: Tree<K, V>, c: Tree<K, V>) returns (newB: Tree<K, V>)
    ensures newB == c + b
  {
    newB := map[];
    var todo := b.Keys;
    while todo != {}
      invariant todo <= b.Keys && newB == b - todo
    {
      var key :| key in todo;
      newB := newB[key := b[key]];
      todo := todo - {key};
    }
    assert newB == b;
    todo := c.Keys;
    while todo != {}
      invariant todo <= c.Keys && newB == (c - todo) + b
    {
      var key :| key in todo;
      if key !in b {
        newB := newB[key := c[key]];
      }
      todo := todo - {key};
    }
    assert c - {} == c;
  }
}
