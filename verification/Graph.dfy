/** Reachability in a finite graph of object ids. */
module Graph {
  type Id = nat

  type Edges = map<Id, set<Id>>

  ghost predicate Path(g: Edges, p: seq<Id>)
  {
    |p| > 0 && forall i :: 0 <= i < |p| - 1 ==> p[i] in g && p[i + 1] in g[p[i]]
  }

  ghost predicate Reaches(g: Edges, roots: set<Id>, id: Id)
  {
    exists p :: Path(g, p) && p[0] in roots && p[|p| - 1] == id
  }

  ghost function Targets(g: Edges): set<Id>
  {
    set k, x | k in g && x in g[k] :: x
  }

  /** The ids reachable from the roots. */
  ghost function ReachSet(g: Edges, roots: set<Id>): (c: set<Id>)
  {
    set id | id in roots + Targets(g) && Reaches(g, roots, id)
  }

  ghost predicate Closed(g: Edges, s: set<Id>)
  {
    forall id :: id in s && id in g ==> g[id] <= s
  }

  lemma InClosure(g: Edges, roots: set<Id>, id: Id)
    ensures id in ReachSet(g, roots) <==> Reaches(g, roots, id)
  {
    if Reaches(g, roots, id) {
      var p :| Path(g, p) && p[0] in roots && p[|p| - 1] == id;
      if |p| > 1 {
        assert p[|p| - 2 + 1] in g[p[|p| - 2]];
      }
    }
  }

  lemma ClosureHasRoots(g: Edges, roots: set<Id>)
    ensures roots <= ReachSet(g, roots)
  {
    forall id | id in roots ensures id in ReachSet(g, roots) {
      assert Path(g, [id]);
      InClosure(g, roots, id);
    }
  }

  lemma ClosureIsClosed(g: Edges, roots: set<Id>)
    ensures Closed(g, ReachSet(g, roots))
  {
    forall id, x | id in ReachSet(g, roots) && id in g && x in g[id] ensures x in ReachSet(g, roots) {
      InClosure(g, roots, id);
      var p :| Path(g, p) && p[0] in roots && p[|p| - 1] == id;
      assert Path(g, p + [x]);
      assert (p + [x])[0] in roots && (p + [x])[|p + [x]| - 1] == x;
      InClosure(g, roots, x);
    }
  }

  lemma {:induction false} PathStays(g: Edges, s: set<Id>, p: seq<Id>)
    requires Closed(g, s) && Path(g, p) && p[0] in s
    ensures p[|p| - 1] in s
    decreases |p|
  {
    if |p| > 1 {
      var q := p[..|p| - 1];
      assert Path(g, q);
      PathStays(g, s, q);
      assert q[|q| - 1] == p[|p| - 2];
      assert p[|p| - 2 + 1] in g[p[|p| - 2]];
    }
  }

  /** The closure is the least closed set with the roots. */
  lemma ClosureIsLeast(g: Edges, roots: set<Id>, s: set<Id>)
    requires roots <= s && Closed(g, s)
    ensures ReachSet(g, roots) <= s
  {
    forall id | id in ReachSet(g, roots) ensures id in s {
      InClosure(g, roots, id);
      var p :| Path(g, p) && p[0] in roots && p[|p| - 1] == id;
      PathStays(g, s, p);
    }
  }
}
