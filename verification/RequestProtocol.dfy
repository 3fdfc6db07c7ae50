/** How the main thread and the collector thread hand over requests and responses
  * through two shared atomics. The threads tell old requests from new ones by
  * their addresses only.
  */
module RequestProtocol {

  type Address = nat

  const NULL: Address := 0

  // Where the main thread is. The steps of integrate_any_gc_response are separate,
  // because the other thread may run between any two of them.
  datatype MainAt = Running | Published | Sampled(rr1: Address) | Integrating(rr: Address) | Integrated(rr: Address)

  // Where gc_main_loop is.
  datatype GcAt = Polling | Working(curr: Address) | Answering(curr: Address) | Answered(curr: Address)

  /** The shared and private variables of both threads. `record` and `answer` say, for
    * each address, which request (counting from 1) was last written there and
    * which one the response there belongs to. */
  datatype State = State(
    currentRequest: Address,
    currentResponse: Address,
    lastProcessed: Address,
    outstanding: bool,
    main: MainAt,
    lastRequest: Address,
    gc: GcAt,
    record: map<Address, nat>,
    answer: map<Address, nat>,
    submitted: seq<Address>,
    processed: seq<nat>,
    integrated: seq<nat>)

  ghost predicate Init(s: State)
  {
    s == State(NULL, NULL, NULL, false, Running, NULL, Polling, map[], map[], [], [], [])
  }

  // ---------------------------------------------------------------------------
  // Steps of the main thread

  /** collectGarbage: reached only without an outstanding request, at an address other
    * than that of the last processed one. */
  ghost predicate Submit(s: State, t: State, rr: Address)
  {
    && s.main.Running? && !s.outstanding && rr != s.lastProcessed && rr != NULL
    && t == s.(currentRequest := rr, main := Published,
               record := s.record[rr := |s.submitted| + 1], submitted := s.submitted + [rr])
  }

  ghost predicate SetOutstanding(s: State, t: State)
  {
    s.main.Published? && t == s.(outstanding := true, main := Running)
  }

  /** The first, relaxed, load of integrate_any_gc_response. */
  ghost predicate Sample(s: State, t: State)
  {
    s.main.Running? &&
    t == if s.currentResponse == s.lastProcessed then s else s.(main := Sampled(s.currentResponse))
  }

  ghost predicate SampleAgain(s: State, t: State)
  {
    s.main.Sampled? && t == s.(main := Integrating(s.currentResponse))
  }

  ghost predicate Integrate(s: State, t: State)
  {
    && s.main.Integrating? && s.main.rr in s.answer
    && t == s.(integrated := s.integrated + [s.answer[s.main.rr]], outstanding := false, main := Integrated(s.main.rr))
  }

  ghost predicate SetLastProcessed(s: State, t: State)
  {
    s.main.Integrated? && t == s.(lastProcessed := s.main.rr, main := Running)
  }

  // ---------------------------------------------------------------------------
  // Steps of the collector thread

  ghost predicate Poll(s: State, t: State)
  {
    s.gc.Polling? &&
    t == if s.currentRequest == s.lastRequest then s else s.(gc := Working(s.currentRequest))
  }

  ghost predicate Perform(s: State, t: State)
  {
    && s.gc.Working? && s.gc.curr in s.record
    && t == s.(processed := s.processed + [s.record[s.gc.curr]],
               answer := s.answer[s.gc.curr := s.record[s.gc.curr]], gc := Answering(s.gc.curr))
  }

  ghost predicate Respond(s: State, t: State)
  {
    s.gc.Answering? && t == s.(currentResponse := s.gc.curr, gc := Answered(s.gc.curr))
  }

  ghost predicate Remember(s: State, t: State)
  {
    s.gc.Answered? && t == s.(lastRequest := s.gc.curr, gc := Polling)
  }

  ghost predicate MainNext(s: State, t: State)
  {
    || (exists rr :: Submit(s, t, rr))
    || SetOutstanding(s, t) || Sample(s, t) || SampleAgain(s, t) || Integrate(s, t) || SetLastProcessed(s, t)
  }

  ghost predicate GcNext(s: State, t: State)
  {
    Poll(s, t) || Perform(s, t) || Respond(s, t) || Remember(s, t)
  }

  ghost predicate Next(s: State, t: State)
  {
    MainNext(s, t) || GcNext(s, t)
  }

  // ---------------------------------------------------------------------------
  // The invariant

  /** The address of the n-th request. */
  ghost function Nth(s: State, n: nat): Address
    requires n <= |s.submitted|
  {
    if n == 0 then NULL else s.submitted[n - 1]
  }

  ghost function Responses(s: State): int
  {
    if s.gc.Answering? then |s.processed| - 1 else |s.processed|
  }

  ghost function Acknowledged(s: State): int
  {
    if s.main.Integrated? then |s.integrated| - 1 else |s.integrated|
  }

  ghost function Remembered(s: State): int
  {
    if s.gc.Answering? || s.gc.Answered? then |s.processed| - 1 else |s.processed|
  }

  /** The sequence 1, 2, ..., n. */
  ghost predicate Counts(ns: seq<nat>)
  {
    forall i :: 0 <= i < |ns| ==> ns[i] == i + 1
  }

  ghost predicate Inv(s: State)
  {
    var n := |s.submitted|;
    && |s.integrated| <= Responses(s) <= |s.processed| <= n <= |s.integrated| + 1
    && 0 <= Acknowledged(s) && 0 <= Remembered(s)
    && Counts(s.processed) && Counts(s.integrated)
    && (forall i :: 1 <= i <= n ==> Nth(s, i) != Nth(s, i - 1))
    && s.currentRequest == Nth(s, n)
    && s.currentResponse == Nth(s, Responses(s))
    && s.lastProcessed == Nth(s, Acknowledged(s))
    && s.lastRequest == Nth(s, Remembered(s))
    && (n > 0 ==> s.currentRequest in s.record && s.record[s.currentRequest] == n)
    && (Responses(s) > 0 ==> s.currentResponse in s.answer && s.answer[s.currentResponse] == Responses(s))
    && (match s.gc
        case Polling => true
        case Working(curr) => n == |s.processed| + 1 && curr == Nth(s, n)
        case Answering(curr) => |s.processed| > 0 && curr == Nth(s, |s.processed|)
                                && curr in s.answer && s.answer[curr] == |s.processed|
        case Answered(curr) => |s.processed| > 0 && curr == Nth(s, |s.processed|))
    && (match s.main
        case Running => s.outstanding <==> n == |s.integrated| + 1
        case Published => n == |s.integrated| + 1 && !s.outstanding
        case Sampled(rr) => n == Responses(s) == |s.integrated| + 1 && rr == Nth(s, n) && s.outstanding
        case Integrating(rr) => n == Responses(s) == |s.integrated| + 1 && rr == Nth(s, n) && s.outstanding
        case Integrated(rr) => n == |s.integrated| > 0 && rr == Nth(s, n) && !s.outstanding)
  }

  lemma InitInv(s: State)
    requires Init(s)
    ensures Inv(s)
  {
  }

  lemma SubmitInv(s: State, t: State, rr: Address)
    requires Inv(s) && Submit(s, t, rr)
    ensures Inv(t)
  {
    forall i | 0 <= i <= |s.submitted| ensures Nth(t, i) == Nth(s, i) {
    }
    assert Nth(t, |t.submitted|) == rr;
    forall i | 1 <= i <= |t.submitted| ensures Nth(t, i) != Nth(t, i - 1) {
      if i <= |s.submitted| {
        assert Nth(t, i) == Nth(s, i) && Nth(t, i - 1) == Nth(s, i - 1);
      }
    }
  }

  lemma MainInv(s: State, t: State)
    requires Inv(s) && (SetOutstanding(s, t) || Sample(s, t) || SampleAgain(s, t) || Integrate(s, t) || SetLastProcessed(s, t))
    ensures Inv(t)
  {
    forall i | 0 <= i <= |s.submitted| ensures Nth(t, i) == Nth(s, i) {
    }
    if Sample(s, t) && s != t {
      assert Responses(s) == |s.integrated| + 1;
    }
  }

  lemma PollInv(s: State, t: State)
    requires Inv(s) && Poll(s, t)
    ensures Inv(t)
  {
    forall i | 0 <= i <= |s.submitted| ensures Nth(t, i) == Nth(s, i) {
    }
    if s != t {
      assert |s.submitted| == |s.processed| + 1;
    }
  }

  lemma AnswerInv(s: State, t: State)
    requires Inv(s) && (Perform(s, t) || Respond(s, t) || Remember(s, t))
    ensures Inv(t)
  {
    forall i | 0 <= i <= |s.submitted| ensures Nth(t, i) == Nth(s, i) {
    }
  }

  lemma NextInv(s: State, t: State)
    requires Inv(s) && Next(s, t)
    ensures Inv(t)
  {
    if exists rr :: Submit(s, t, rr) {
      var rr :| Submit(s, t, rr);
      SubmitInv(s, t, rr);
    } else if Poll(s, t) {
      PollInv(s, t);
    } else if GcNext(s, t) {
      AnswerInv(s, t);
    } else {
      MainInv(s, t);
    }
  }

  ghost predicate Run(ss: seq<State>)
  {
    |ss| > 0 && Init(ss[0]) && forall i :: 0 <= i < |ss| - 1 ==> Next(ss[i], ss[i + 1])
  }

  lemma {:induction false} RunInv(ss: seq<State>, i: nat)
    requires Run(ss) && i < |ss|
    ensures Inv(ss[i])
  {
    if i == 0 {
      InitInv(ss[0]);
    } else {
      RunInv(ss, i - 1);
      NextInv(ss[i - 1], ss[i]);
    }
  }

  /** In every interleaving: requests are processed in order, each once; they are
    * integrated in order, each once, and only after they were processed; and at
    * most one is under way. */
  lemma ExactlyOnce(ss: seq<State>, i: nat)
    requires Run(ss) && i < |ss|
    ensures Counts(ss[i].processed) && Counts(ss[i].integrated)
    ensures |ss[i].integrated| <= |ss[i].processed| <= |ss[i].submitted| <= |ss[i].integrated| + 1
  {
    RunInv(ss, i);
  }

  /** The assertions of integrate_any_gc_response hold: both loads see the same
    * response, and it answers the current request. */
  lemma ResponseIsCurrent(ss: seq<State>, i: nat)
    requires Run(ss) && i < |ss|
    ensures ss[i].main.Sampled? ==> ss[i].currentResponse == ss[i].main.rr1 == ss[i].currentRequest
    ensures ss[i].main.Integrating? ==>
      ss[i].main.rr == ss[i].currentRequest && ss[i].main.rr in ss[i].answer
      && ss[i].answer[ss[i].main.rr] == |ss[i].submitted|
  {
    RunInv(ss, i);
  }

  /** The snapshot that the collector works on is never replaced under it. */
  lemma SnapshotIsStable(ss: seq<State>, i: nat)
    requires Run(ss) && i < |ss| && ss[i].gc.Working?
    ensures ss[i].gc.curr == ss[i].currentRequest && ss[i].gc.curr in ss[i].record
    ensures ss[i].record[ss[i].gc.curr] == |ss[i].submitted| == |ss[i].processed| + 1
  {
    RunInv(ss, i);
  }

  /** Why collectGarbage allocates again on an address clash: a request published
    * while the collector polls is noticed exactly when its address differs from the
    * last processed one. */
  lemma NoticedIffFreshAddress(s: State, rr: Address, t: State, u: State)
    requires Inv(s) && s.main.Running? && !s.outstanding && s.gc.Polling? && rr != NULL
    requires t == s.(currentRequest := rr, main := Published,
                     record := s.record[rr := |s.submitted| + 1], submitted := s.submitted + [rr])
    requires Poll(t, u)
    ensures u.gc.Working? <==> rr != s.lastProcessed
  {
  }

  /** No request gets stuck: until it is integrated, one of the threads has a step
    * that brings it closer. */
  lemma Progress(s: State) returns (t: State)
    requires Inv(s) && |s.integrated| < |s.submitted|
    ensures Next(s, t)
    ensures t.submitted == s.submitted
    ensures |t.integrated| == |t.submitted| || Stage(t) > Stage(s)
  {
    if s.main.Published? {
      t := s.(outstanding := true, main := Running);
      assert SetOutstanding(s, t);
    } else if s.main.Sampled? {
      t := s.(main := Integrating(s.currentResponse));
      assert SampleAgain(s, t);
    } else if s.main.Integrating? {
      t := s.(integrated := s.integrated + [s.answer[s.main.rr]], outstanding := false, main := Integrated(s.main.rr));
      assert Integrate(s, t);
    } else {
      match s.gc
      case Polling =>
        if |s.processed| == |s.submitted| {
          t := s.(main := Sampled(s.currentResponse));
          assert Sample(s, t);
        } else {
          t := s.(gc := Working(s.currentRequest));
          assert Poll(s, t);
        }
      case Working(curr) =>
        t := s.(processed := s.processed + [s.record[curr]], answer := s.answer[curr := s.record[curr]], gc := Answering(curr));
        assert Perform(s, t);
      case Answering(curr) =>
        t := s.(currentResponse := curr, gc := Answered(curr));
        assert Respond(s, t);
      case Answered(curr) =>
        t := s.(lastRequest := curr, gc := Polling);
        assert Remember(s, t);
    }
  }

  /** A measure of progress: requests processed, then the collector's position in its
    * loop, then the main thread's position. */
  ghost function Stage(s: State): nat
  {
    10 * |s.processed|
    + (match s.gc case Answering(_) => 0 case Answered(_) => 1 case Polling => 2 case Working(_) => 3)
    + (match s.main case Published => 0 case Running => 1 case Sampled(_) => 2 case Integrating(_) => 3 case Integrated(_) => 4)
  }

  ghost predicate Steps(ss: seq<State>)
  {
    |ss| > 0 && forall i :: 0 <= i < |ss| - 1 ==> Next(ss[i], ss[i + 1])
  }

  /** From every reachable state the request under way can be brought to its
    * integration without a further submission. */
  lemma {:induction false} Drains(s: State) returns (ss: seq<State>)
    requires Inv(s)
    ensures Steps(ss) && ss[0] == s
    ensures var t := ss[|ss| - 1]; |t.integrated| == |t.submitted| && t.submitted == s.submitted
    decreases 10 * |s.submitted| + 8 - Stage(s)
  {
    if |s.integrated| == |s.submitted| {
      ss := [s];
    } else {
      var t := Progress(s);
      NextInv(s, t);
      if |t.integrated| == |t.submitted| {
        ss := [s, t];
      } else {
        var rest := Drains(t);
        ss := [s] + rest;
      }
    }
  }
}
