/** The marking loop of the collector thread: a gray stack in a region reserved before
  * the collection began, and the set of dark ids.
  */
module Marking {
  import opened FiniteSets
  import opened Graph

  const NIL: Id := 0

  /** What each object mentions, in the order in which its leaves are visited. */
  type Leaves = map<Id, seq<Id>>

  ghost function Members(ids: seq<Id>): set<Id>
  {
    (set x | x in ids) - {NIL}
  }

  ghost function EdgesOf(leaves: Leaves): Edges
  {
    map id | id in leaves :: Members(leaves[id])
  }

  /** Whatever is on the gray stack is dark and is there once; whatever is dark has been
    * visited, or is on the stack, or is the object being visited. */
  ghost predicate Tricolor(leaves: Leaves, stack: seq<Id>, dark: set<Id>, visiting: Id)
  {
    && NIL !in dark
    && NoDuplicates(stack)
    && (forall x :: x in stack ==> x in dark && x != visiting)
    && forall x :: x in dark ==> x == visiting || x in stack || (x in leaves && Members(leaves[x]) <= dark)
  }

  lemma PushKeepsTricolor(leaves: Leaves, stack: seq<Id>, dark: set<Id>, visiting: Id, id: Id)
    requires Tricolor(leaves, stack, dark, visiting) && id != NIL && id !in dark && visiting in dark + {NIL}
    ensures Tricolor(leaves, stack + [id], dark + {id}, visiting)
  {
  }

  lemma PopKeepsTricolor(leaves: Leaves, stack: seq<Id>, dark: set<Id>)
    requires Tricolor(leaves, stack, dark, NIL) && |stack| > 0
    ensures Tricolor(leaves, stack[..|stack| - 1], dark, stack[|stack| - 1])
  {
    var last := |stack| - 1;
    forall x | x in dark ensures x == stack[last] || x in stack[..last] || (x in leaves && Members(leaves[x]) <= dark) {
      if x in stack && x != stack[last] {
        var i :| 0 <= i < |stack| && stack[i] == x;
        assert stack[..last][i] == x;
      }
    }
  }

  ghost predicate Covered(leaves: Leaves, reach: set<Id>)
  {
    forall id :: id in reach ==> id in leaves && Members(leaves[id]) <= reach
  }

  class Marker {
    const gray: array<Id>
    var grayCount: nat
    var grayCountTotal: nat
    var dark: set<Id>
    const leaves: Leaves
    ghost const reach: set<Id>  // the ids that the collection can reach

    ghost predicate Valid(visiting: Id)
      reads this, gray
    {
      && grayCount <= gray.Length
      && dark <= reach && |reach| <= gray.Length
      && Covered(leaves, reach)
      && grayCountTotal == |dark|
      && Tricolor(leaves, gray[..grayCount], dark, visiting)
    }

    constructor (capacity: nat, leaves: Leaves, ghost roots: set<Id>)
      requires |ReachSet(EdgesOf(leaves), roots)| <= capacity
      requires forall id :: id in ReachSet(EdgesOf(leaves), roots) ==> id in leaves
      ensures Valid(NIL) && fresh(gray) && gray.Length == capacity && this.leaves == leaves
      ensures dark == {} && grayCount == 0 && grayCountTotal == 0
      ensures reach == ReachSet(EdgesOf(leaves), roots)
    {
      ClosureIsClosed(EdgesOf(leaves), roots);
      gray := new Id[capacity];
      grayCount, grayCountTotal, dark := 0, 0, {};
      this.leaves, this.reach := leaves, ReachSet(EdgesOf(leaves), roots);
    }

    /** grayObject: nil and dark ids are left alone; the push always fits. */
    method GrayObject(id: Id, ghost visiting: Id)
      requires Valid(visiting) && visiting in dark + {NIL}
      requires id != NIL ==> id in reach
      modifies this`grayCount, this`grayCountTotal, this`dark, gray
      ensures Valid(visiting)
      ensures dark == old(dark) + ({id} - {NIL})
      ensures grayCountTotal - old(grayCountTotal) == grayCount - old(grayCount)
      ensures grayCountTotal - old(grayCountTotal) == if id == NIL || id in old(dark) then 0 else 1
    {
      hide Tricolor, Covered, Members;
      if id == NIL || id in dark { return; }
      ghost var stack := gray[..grayCount];
      PushKeepsTricolor(leaves, stack, dark, visiting, id);
      dark := dark + {id};
      grayCountTotal := grayCountTotal + 1;
      GrayFits(leaves, stack + [id], dark, visiting, reach);
      gray[grayCount] := id;
      grayCount := grayCount + 1;
      assert gray[..grayCount] == stack + [id];
    }

    /** grayObjectLeaves */
    method GrayObjectLeaves(id: Id)
      requires Valid(id) && id in dark && id in leaves
      modifies this`grayCount, this`grayCountTotal, this`dark, gray
      ensures Valid(NIL)
      ensures dark == old(dark) + Members(leaves[id])
      ensures grayCountTotal - old(grayCountTotal) == grayCount - old(grayCount)
    {
      hide Tricolor, Members, Covered;
      CoveredAt(leaves, reach, id);
      var ids := leaves[id];
      MembersEmpty();
      for i := 0 to |ids|
        invariant Valid(id)
        invariant dark == old(dark) + Members(ids[..i])
        invariant grayCountTotal - old(grayCountTotal) == grayCount - old(grayCount)
      {
        MembersNext(ids, i);
        GrayObject(ids[i], id);
      }
      assert ids[..|ids|] == ids;
      VisitedKeepsTricolor(leaves, gray[..grayCount], dark, id);
    }

    /** The marking phase: the dark set ends as exactly what the roots reach, and each of
      * its ids has been pushed once. */
    method Mark(roots: seq<Id>)
      requires Valid(NIL) && dark == {} && grayCount == 0 && grayCountTotal == 0
      requires reach == ReachSet(EdgesOf(leaves), Members(roots))
      modifies this`grayCount, this`grayCountTotal, this`dark, gray
      ensures dark == ReachSet(EdgesOf(leaves), Members(roots))
      ensures grayCount == 0 && grayCountTotal == |dark|
    {
      hide Tricolor, Members, EdgesOf, ReachSet, Covered;
      ClosureHasRoots(EdgesOf(leaves), Members(roots));
      MembersEmpty();
      for i := 0 to |roots|
        invariant Valid(NIL)
        invariant dark == Members(roots[..i])
      {
        MembersNext(roots, i);
        GrayObject(roots[i], NIL);
      }
      assert roots[..|roots|] == roots;
      while grayCount > 0
        invariant Valid(NIL)
        invariant Members(roots) <= dark
        decreases |reach| - (grayCountTotal - grayCount)
      {
        ghost var stack := gray[..grayCount];
        grayCount := grayCount - 1;
        assert gray[..grayCount] == stack[..|stack| - 1];
        PopKeepsTricolor(leaves, stack, dark);
        SmallerSet(dark, reach);
        TopIsDark(leaves, stack, dark);
        CoveredAt(leaves, reach, gray[grayCount]);
        GrayObjectLeaves(gray[grayCount]);
        SmallerSet(dark, reach);
      }
      DarkIsClosed(leaves, gray[..grayCount], dark, Members(roots));
    }
  }

  lemma CoveredAt(leaves: Leaves, reach: set<Id>, id: Id)
    requires Covered(leaves, reach) && id in reach
    ensures id in leaves && Members(leaves[id]) <= reach
  {
  }

  lemma MembersEmpty()
    ensures forall s: seq<Id> :: Members(s[..0]) == {}
  {
  }

  lemma MembersNext(s: seq<Id>, i: nat)
    requires i < |s|
    ensures Members(s[..i + 1]) == Members(s[..i]) + ({s[i]} - {NIL})
    ensures s[i] != NIL ==> s[i] in Members(s)
  {
    assert s[..i + 1] == s[..i] + [s[i]];
  }

  lemma GrayFits(leaves: Leaves, stack: seq<Id>, dark: set<Id>, visiting: Id, reach: set<Id>)
    requires Tricolor(leaves, stack, dark, visiting) && dark <= reach
    ensures |stack| <= |dark| <= |reach|
  {
    DistinctFit(stack, dark);
    SmallerSet(dark, reach);
  }

  lemma TopIsDark(leaves: Leaves, stack: seq<Id>, dark: set<Id>)
    requires Tricolor(leaves, stack, dark, NIL) && |stack| > 0
    ensures stack[|stack| - 1] in dark && stack[|stack| - 1] in stack
  {
  }

  lemma VisitedKeepsTricolor(leaves: Leaves, stack: seq<Id>, dark: set<Id>, id: Id)
    requires Tricolor(leaves, stack, dark, id) && id in leaves && Members(leaves[id]) <= dark
    ensures Tricolor(leaves, stack, dark, NIL)
  {
  }

  /** With an empty gray stack, what is dark is closed, hence all that is reachable. */
  lemma DarkIsClosed(leaves: Leaves, stack: seq<Id>, dark: set<Id>, roots: set<Id>)
    requires Tricolor(leaves, stack, dark, NIL) && stack == []
    requires roots <= dark <= ReachSet(EdgesOf(leaves), roots)
    ensures dark == ReachSet(EdgesOf(leaves), roots)
  {
    hide ReachSet, Members;
    ClosureIsLeast(EdgesOf(leaves), roots, dark);
  }
}
