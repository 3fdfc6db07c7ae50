/** What the collector promises, over every interleaving of the two threads. */
module CollectorTheorems {
  import opened Options
  import opened FiniteSets
  import opened Graph
  import opened Objects
  import opened Collector
  import opened CollectorInvariant
  import opened CollectorFrames
  import opened CollectorProgram
  import opened CollectorThread
  import opened CollectorCopying
  import opened CollectorHandover

  lemma StepKeepsInv(s: State, p: Program, h: History, step: Step)
    requires Inv(s, p, h) && Enabled(s, p, step)
    ensures Inv(Run(s, step), RunPlain(p, step), NextHistory(s, h, step))
  {
    hide Inv, Enabled, Run, NextHistory;
    match step
    case Alloc(obj, rooted, interned) => AllocKeepsInv(s, p, h, obj, rooted, interned);
    case Revive(id, chars) => ReviveKeepsInv(s, p, h, id, chars);
    case Mutate(id, e) => MutateKeepsInv(s, p, h, id, e); SameHistoryOf(s, h, step);
    case Retarget(roots, hidden) => RetargetKeepsInv(s, p, h, roots, hidden); SameHistoryOf(s, h, step);
    case Freeze(bound) => FreezeKeepsInv(s, p, h, bound);
    case Integrate => IntegrateKeepsInv(s, p, h); SameHistoryOf(s, h, step);
    case GrayRoot(id) => GrayRootKeepsInv(s, p, h, id); SameHistoryOf(s, h, step);
    case GrayLeaves(order) => GrayLeavesKeepsInv(s, p, h, order); SameHistoryOf(s, h, step);
    case StartB => StartBKeepsInv(s, p, h); SameHistoryOf(s, h, step);
    case CopyB(id) => CopyBKeepsInv(s, p, h, id);
    case StartC => StartCKeepsInv(s, p, h); SameHistoryOf(s, h, step);
    case CopyC(id, junk) => CopyCKeepsInv(s, p, h, id, junk);
    case Finish => FinishKeepsInv(s, p, h); SameHistoryOf(s, h, step);
  }

  lemma SameHistoryOf(s: State, h: History, step: Step)
    requires !step.Alloc? && !step.Revive? && !step.Freeze? && !step.CopyB? && !step.CopyC?
    ensures NextHistory(s, h, step) == h
  {
  }

  // ----- runs -----

  ghost function After(s: State, steps: seq<Step>): State
    decreases |steps|
  {
    if steps == [] then s else After(Run(s, steps[0]), steps[1..])
  }

  ghost function PlainAfter(p: Program, steps: seq<Step>): Program
    decreases |steps|
  {
    if steps == [] then p else PlainAfter(RunPlain(p, steps[0]), steps[1..])
  }

  ghost function HistoryAfter(s: State, h: History, steps: seq<Step>): History
    decreases |steps|
  {
    if steps == [] then h else HistoryAfter(Run(s, steps[0]), NextHistory(s, h, steps[0]), steps[1..])
  }

  /** An interleaving that the two threads can take. */
  ghost predicate Possible(s: State, p: Program, steps: seq<Step>)
    decreases |steps|
  {
    steps != [] ==> Enabled(s, p, steps[0]) && Possible(Run(s, steps[0]), RunPlain(p, steps[0]), steps[1..])
  }

  lemma {:induction false} RunKeepsInv(s: State, p: Program, h: History, steps: seq<Step>)
    requires Inv(s, p, h) && Possible(s, p, steps)
    ensures Inv(After(s, steps), PlainAfter(p, steps), HistoryAfter(s, h, steps))
    decreases |steps|
  {
    hide Inv, Enabled, Run, RunPlain, NextHistory;
    if steps != [] {
      StepKeepsInv(s, p, h, steps[0]);
      RunKeepsInv(Run(s, steps[0]), RunPlain(p, steps[0]), NextHistory(s, h, steps[0]), steps[1..]);
    }
  }

  /** The steps of a run that the program takes itself. */
  ghost function ProgramSteps(steps: seq<Step>): seq<Step>
    decreases |steps|
  {
    if steps == [] then []
    else (if IsProgramStep(steps[0]) then [steps[0]] else []) + ProgramSteps(steps[1..])
  }

  lemma {:induction false} CollectorLeavesPlain(p: Program, steps: seq<Step>)
    ensures PlainAfter(p, steps) == PlainAfter(p, ProgramSteps(steps))
    decreases |steps|
  {
    if steps != [] {
      var rest := ProgramSteps(steps[1..]);
      CollectorLeavesPlain(RunPlain(p, steps[0]), steps[1..]);
      if IsProgramStep(steps[0]) {
        assert ProgramSteps(steps)[0] == steps[0] && ProgramSteps(steps)[1..] == rest;
      } else {
        assert ProgramSteps(steps) == rest;
      }
    }
  }

  lemma LiveAgrees(s: State, p: Program, h: History, id: Id)
    requires Inv(s, p, h) && id in Live(p)
    ensures Agrees(s, p, id)
  {
    hide Live, Collecting, Since, Quiet, Placed, RecsOf, Agrees, Recs.Mentions;
    LiveWithin(s, p, h);
    assert id in Held(s, h);
  }

  /** Collection is invisible: after any interleaving of the two threads, every object
    * that the program can reach reads, layer over layer, as in a machine that has taken
    * the program's own steps alone, keeps one record per object and never collects. */
  lemma CollectionIsInvisible(steps: seq<Step>, id: Id)
    requires Possible(Initial(), InitialProgram(), steps)
    ensures
      var s, p := After(Initial(), steps), PlainAfter(InitialProgram(), ProgramSteps(steps));
      && s.roots == p.roots
      && (id in Live(p) ==> id in p.objs && View(s, id) == Some(p.objs[id]))
  {
    hide Inv, After, PlainAfter, Possible, Live, View, Initial, InitialProgram;
    var s, p := After(Initial(), steps), PlainAfter(InitialProgram(), steps);
    CollectorLeavesPlain(InitialProgram(), steps);
    InitiallyInv();
    RunKeepsInv(Initial(), InitialProgram(), InitialHistory(), steps);
    var h := HistoryAfter(Initial(), InitialHistory(), steps);
    InvRoots(s, p, h);
    if id in Live(p) {
      LiveAgrees(s, p, h, id);
    }
  }

  /** In particular no step of the collector changes what the program reads. */
  lemma CollectorStepsChangeNothing(s: State, p: Program, h: History, step: Step, id: Id)
    requires Inv(s, p, h) && Enabled(s, p, step) && !IsProgramStep(step) && id in Live(p)
    ensures View(Run(s, step), id) == View(s, id) && Run(s, step).roots == s.roots
  {
    hide Inv, Enabled, Run, NextHistory, Live, View, RecsOf;
    StepKeepsInv(s, p, h, step);
    LiveAgrees(s, p, h, id);
    LiveAgrees(Run(s, step), p, NextHistory(s, h, step), id);
    InvRoots(s, p, h);
    InvRoots(Run(s, step), p, NextHistory(s, h, step));
  }

  /** A field or method looked up through the three layers is the one that the object has. */
  lemma LookupReadsTheObject(s: State, p: Program, h: History, id: Id, key: Id)
    requires Inv(s, p, h) && id in Live(p)
    ensures id in p.objs
    ensures var t := RecsOf(s, id); var entries := EntryMap(p.objs[id]);
      Cascade(t.x, t.y, t.z, key) == if key in entries then Some(entries[key]) else None
  {
    hide Inv, Live, RecsOf;
    LiveAgrees(s, p, h, id);
    var t := RecsOf(s, id);
    CascadeReadsTheView(t.x, t.y, t.z, key);
  }

  // ----- marking -----

  /** The gray list and the dark set never outgrow the regions that were reserved for them
    * from the counts of preserved and new objects. */
  lemma GrayFits(s: State, p: Program, h: History)
    requires Inv(s, p, h) && !s.gc.phase.Idle?
    ensures |s.gc.dark| <= s.gc.capacity
    ensures s.gc.phase.Marking? ==> |s.gc.gray| <= |s.gc.dark|
  {
    hide Inv, Placed, ReachSet, FrozenRefs, Linked, Rec;
    InvParts(s, p, h);
    SmallerSet(s.gc.dark, h.d0);
    if s.gc.phase.Marking? {
      DistinctFit(s.gc.gray, s.gc.dark);
    }
  }

  /** Once marking is over, dark is what the frozen roots reach through the frozen records,
    * masked entries of C included. */
  lemma DarkIsReachable(s: State, p: Program, h: History)
    requires Inv(s, p, h) && !s.gc.phase.Idle? && !s.gc.phase.Marking?
    ensures s.gc.dark == ReachSet(h.edges, h.roots0)
    ensures forall id :: id in s.gc.dark ==> id in h.edges && h.edges[id] == FrozenRefs(s, id)
  {
    hide Inv, Placed, ReachSet, FrozenRefs, Linked, Rec;
    InvParts(s, p, h);
  }

  // ----- progress -----

  function Rank(phase: Phase): nat
  {
    match phase
    case Marking => 3
    case CopyingB => 2
    case CopyingC => 1
    case _ => 0
  }

  /** The steps left in the present phase of the collector thread. */
  ghost function Work(s: State, h: History): nat
  {
    |s.gc.todo| + if s.gc.phase.Marking? then |h.d0 - s.gc.dark| + |s.gc.gray| else 0
  }

  predicate IsThreadStep(step: Step)
  {
    !IsProgramStep(step) && !step.Freeze? && !step.Integrate?
  }

  lemma {:induction false} SomeOrder(ids: set<Id>) returns (order: seq<Id>)
    ensures Lists(order, ids)
    decreases ids
  {
    order := [];
    if ids != {} {
      var x :| x in ids;
      var rest := SomeOrder(ids - {x});
      order := rest + [x];
    }
  }

  lemma GrayShrinks(x: set<Id>, y: set<Id>, d: set<Id>)
    requires x <= d && y <= d && x !! y
    ensures |d - (x + y)| == |d - x| - |y|
  {
    assert d - x == (d - (x + y)) + y;
  }

  lemma {:induction false} ListedSize(order: seq<Id>, ids: set<Id>)
    requires Lists(order, ids)
    ensures |order| == |ids|
  {
    if |order| > 0 {
      var last := |order| - 1;
      assert order[last] in order;
      forall x ensures x in order[..last] <==> x in ids - {order[last]} {
        if x in order && x != order[last] {
          var i :| 0 <= i < |order| && order[i] == x;
          assert order[..last][i] == x;
        }
      }
      ListedSize(order[..last], ids - {order[last]});
    } else {
      assert forall x :: x in ids ==> x in order;
    }
  }

  lemma RootGetsCloser(s: State, h: History, id: Id)
    requires Snapshot(s, h) && Marked(s, h) && s.gc.phase.Marking? && id in s.gc.todo
    ensures Work(Run(s, GrayRoot(id)), h) < Work(s, h)
  {
    hide Snapshot, ReachSet, FrozenRefs;
    RootsReached(s, h);
    if id !in s.gc.dark {
      GrayShrinks(s.gc.dark, {id}, h.d0);
    } else {
      assert s.gc.dark + {id} == s.gc.dark;
    }
  }

  lemma LeavesGetCloser(s: State, h: History, order: seq<Id>)
    requires Snapshot(s, h) && Marked(s, h) && s.gc.phase.Marking? && |s.gc.gray| > 0
    requires Lists(order, FrozenRefs(s, s.gc.gray[|s.gc.gray| - 1]) - s.gc.dark)
    ensures Work(Run(s, GrayLeaves(order)), h) < Work(s, h)
  {
    hide Snapshot, ReachSet, FrozenRefs, Lists;
    var top := s.gc.gray[|s.gc.gray| - 1];
    var leaves := FrozenRefs(s, top) - s.gc.dark;
    assert top in s.gc.gray;
    LeavesReached(s, h, top);
    ListsAll(order, leaves);
    ListedSize(order, leaves);
    GrayShrinks(s.gc.dark, leaves, h.d0);
  }

  lemma CopyGetsCloser(s: State, h: History, step: Step)
    requires (step.CopyB? || step.CopyC?) && step.id in s.gc.todo && (s.gc.phase.CopyingB? || s.gc.phase.CopyingC?)
    ensures Run(s, step).gc.phase == s.gc.phase && Work(Run(s, step), NextHistory(s, h, step)) < Work(s, h)
  {
    hide Over, Rec, SameKind;
    assert Run(s, step).gc.todo == s.gc.todo - {step.id};
  }

  /** Each step of the collector thread brings the response closer, however the program's
    * steps fall in between; those leave the distance as it is. */
  lemma ThreadStepsGetCloser(s: State, p: Program, h: History, step: Step)
    requires Inv(s, p, h) && Enabled(s, p, step) && IsThreadStep(step)
    ensures var s', h' := Run(s, step), NextHistory(s, h, step);
      Rank(s'.gc.phase) < Rank(s.gc.phase) || (s'.gc.phase == s.gc.phase && Work(s', h') < Work(s, h))
  {
    hide Inv, Placed, FrozenRefs, Linked, Lists, Snapshot, Marked, Condensed, Reserved, Work, CopiedB, CopiedC;
    InvParts(s, p, h);
    match step
    case GrayRoot(id) => RootGetsCloser(s, h, id);
    case GrayLeaves(order) => LeavesGetCloser(s, h, order);
    case CopyB(id) => CopyGetsCloser(s, h, step);
    case CopyC(id, _) => CopyGetsCloser(s, h, step);
    case _ =>
  }

  lemma ProgramStepsKeepDistance(s: State, h: History, step: Step)
    requires IsProgramStep(step)
    ensures Run(s, step).gc == s.gc && Work(Run(s, step), NextHistory(s, h, step)) == Work(s, h)
  {
  }

  /** And until there is a response, the collector thread is never stuck. */
  lemma ThreadCanStep(s: State, p: Program, h: History) returns (step: Step)
    requires Inv(s, p, h) && Rank(s.gc.phase) > 0
    ensures Enabled(s, p, step) && IsThreadStep(step)
  {
    hide Inv, FrozenRefs, Lists;
    if s.gc.todo != {} {
      var id :| id in s.gc.todo;
      step := if s.gc.phase.Marking? then GrayRoot(id) else if s.gc.phase.CopyingB? then CopyB(id) else CopyC(id, Str(""));
    } else if s.gc.phase.Marking? && s.gc.gray != [] {
      var order := SomeOrder(FrozenRefs(s, s.gc.gray[|s.gc.gray| - 1]) - s.gc.dark);
      step := GrayLeaves(order);
    } else {
      step := if s.gc.phase.Marking? then StartB else if s.gc.phase.CopyingB? then StartC else Finish;
    }
  }
}
