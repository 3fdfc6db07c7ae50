/** Copying the entries of one structmap into another: the clone of an object's
  * methods or fields, and the merge of a class's or an instance's C layer into
  * the condensed copy of its B layer.
  */
module LayerMerge {
  import opened Routes
  import opened Collisions
  import opened TrieShape
  import opened StructMap

  /** The map that a sequence of insertions builds. */
  ghost function FromPairs<V>(s: seq<(Key, V)>): map<Key, V>
  {
    if s == [] then map[]
    else FromPairs(s[..|s| - 1])[s[|s| - 1].0 := s[|s| - 1].1]
  }

  lemma {:induction false} FromPairsKeys<V>(s: seq<(Key, V)>, k: Key)
    ensures k in FromPairs(s) <==> exists i :: 0 <= i < |s| && s[i].0 == k
  {
    if s != [] {
      var n := |s| - 1;
      FromPairsKeys(s[..n], k);
      if k in FromPairs(s[..n]) {
        var i :| 0 <= i < n && s[..n][i].0 == k;
        assert s[i].0 == k;
      }
      if exists i :: 0 <= i < |s| && s[i].0 == k {
        var i :| 0 <= i < |s| && s[i].0 == k;
        assert i < n ==> s[..n][i].0 == k;
      }
    }
  }

  lemma {:induction false} FromPairsValue<V>(s: seq<(Key, V)>, m: map<Key, V>, i: nat)
    requires Enumerates(s, m) && i < |s|
    ensures s[i].0 in FromPairs(s) && FromPairs(s)[s[i].0] == s[i].1
    decreases |s|
  {
    FromPairsKeys(s, s[i].0);
    var n := |s| - 1;
    if i < n {
      var t := s[..n];
      var rest := map k | k in m && k != s[n].0 :: m[k];
      assert Enumerates(t, rest) by {
        forall k | k in rest ensures exists j :: 0 <= j < |t| && t[j].0 == k {
          var j :| 0 <= j < |s| && s[j].0 == k;
          assert t[j].0 == k;
        }
      }
      FromPairsValue(t, rest, i);
    }
  }

  lemma FromEnumeration<V>(s: seq<(Key, V)>, m: map<Key, V>)
    requires Enumerates(s, m)
    ensures FromPairs(s) == m
  {
    forall k ensures (k in FromPairs(s) <==> k in m) && (k in m ==> FromPairs(s)[k] == m[k]) {
      FromPairsKeys(s, k);
      if k in m {
        var i :| 0 <= i < |s| && s[i].0 == k;
        FromPairsValue(s, m, i);
      }
    }
  }

  lemma NoPairs<V>(s: seq<(Key, V)>)
    ensures FromPairs(s[..0]) == map[]
  {
  }

  lemma FromPairsNext<V>(s: seq<(Key, V)>, i: nat)
    requires i < |s|
    ensures FromPairs(s[..i + 1]) == FromPairs(s[..i])[s[i].0 := s[i].1]
  {
    assert s[..i + 1][..i] == s[..i];
  }

  lemma NotYetCopied<V>(s: seq<(Key, V)>, m: map<Key, V>, i: nat)
    requires Enumerates(s, m) && i < |s|
    ensures s[i].0 !in FromPairs(s[..i])
  {
    FromPairsKeys(s[..i], s[i].0);
  }

  /** cloneObject's copy of the entries into a fresh structmap: same map, and by
    * canonicity the same number of nodes. */
  method CopyEntries<V>(dest: Amt<V>, src: Amt<V>)
    requires dest.Valid() && src.Valid() && dest != src && dest.g == src.g
    requires dest.content == map[]
    modifies dest
    ensures dest.Valid() && dest.content == src.content
    ensures dest.nodeCount == src.nodeCount
  {
    hide Canonical, NodeSet, FromPairs;
    var entries := src.Traverse();
    NoPairs(entries);
    ghost var m := src.content;
    for i := 0 to |entries|
      invariant dest.Valid() && src.Valid() && src.content == m && src.nodeCount == old(src.nodeCount)
      invariant dest.content == FromPairs(entries[..i])
    {
      FromPairsNext(entries, i);
      dest.Insert(entries[i].0, entries[i].1);
    }
    assert entries[..|entries|] == entries;
    FromEnumeration(entries, m);
    CountOfKeys(dest.g, dest.Memory(), dest.content);
    CountOfKeys(src.g, src.Memory(), src.content);
  }

  /** merge_c_class_methods and merge_c_instance_fields over a whole traversal: the
    * entries of C that B does not mask go into B, although the map consulted for
    * masking is the very map that grows. */
  method MergeUnderneath<V>(b: Amt<V>, c: Amt<V>)
    requires b.Valid() && c.Valid() && b != c && b.g == c.g
    modifies b
    ensures b.Valid()
    ensures b.content == old(c.content) + old(b.content)
    ensures b.nodeCount == NodeCount(b.g, old(b.content.Keys) + old(c.content.Keys))
  {
    hide Canonical, NodeSet, FromPairs;
    var entries := c.Traverse();
    NoPairs(entries);
    ghost var lower, upper := c.content, b.content;
    for i := 0 to |entries|
      invariant b.Valid() && c.Valid() && c.content == lower
      invariant b.content == FromPairs(entries[..i]) + upper
    {
      var k, v := entries[i].0, entries[i].1;
      FromPairsNext(entries, i);
      NotYetCopied(entries, lower, i);
      var masked := b.ContainsKey(k);
      if !masked {
        b.Insert(k, v);
      }
    }
    assert entries[..|entries|] == entries;
    FromEnumeration(entries, lower);
    CountOfKeys(b.g, b.Memory(), b.content);
    assert b.content.Keys == upper.Keys + lower.Keys;
  }
}
