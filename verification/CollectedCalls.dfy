/** Runs of the machine across collections: pushes, calls, returns and runtime errors, with
  * the freeze, the condensation and the integration falling anywhere between them.
  */
module CollectedCalls {
  import opened TriArray
  import opened CallFrames

  datatype Op<V> =
    | Push(v: V) | Pop
    | GetLocal(slot: nat) | SetLocal(slot: nat, v: V)
    | Advance(offset: nat)
    | Define(fun: Id, code: Code)
    | Call(closure: Id, callee: Id, arity: nat, argCount: nat)
    | Return
    | Fail                                     // a runtime error
    // the collector's
    | Freeze
    | Condense(condensed: map<Id, Code>)       // on the other thread
    | Integrate(integrated: map<Id, Code>)

  /** The machine without layers, caches and collections. */
  datatype Plain<V> = Plain(values: seq<V>, calls: seq<Activation>)

  datatype Limits = Limits(stackMax: nat, framesMax: nat)

  function Last(as_: seq<Activation>): Activation
    requires as_ != []
  {
    as_[|as_| - 1]
  }

  /** What compiled code and the interpreter see to: no instruction reaches below the slots of
    * its own frame, and a script is called alone on the stack and returns alone from it. */
  predicate Fits<V>(lim: Limits, p: Plain<V>, op: Op<V>)
  {
    match op
    case Push(_) => |p.values| < lim.stackMax
    case Pop => p.values != [] && (p.calls != [] ==> Last(p.calls).slotsIndex < |p.values| - 1)
    case GetLocal(slot) => p.calls != [] && Last(p.calls).slotsIndex + slot < |p.values| < lim.stackMax
    case SetLocal(slot, _) => p.calls != [] && Last(p.calls).slotsIndex + slot < |p.values|
    case Advance(_) => p.calls != []
    case Call(_, _, _, n) =>
      n + 1 <= |p.values| && if p.calls == [] then |p.values| == n + 1 else Last(p.calls).slotsIndex < |p.values| - (n + 1)
    case Return => p.calls != [] && Last(p.calls).slotsIndex + 2 <= |p.values| && (|p.calls| == 1 ==> |p.values| == 2)
    case _ => true
  }

  function Do<V>(lim: Limits, p: Plain<V>, op: Op<V>): Plain<V>
    requires Fits(lim, p, op)
  {
    match op
    case Push(v) => p.(values := p.values + [v])
    case Pop => p.(values := p.values[..|p.values| - 1])
    case GetLocal(slot) => p.(values := p.values + [p.values[Last(p.calls).slotsIndex + slot]])
    case SetLocal(slot, v) => p.(values := p.values[Last(p.calls).slotsIndex + slot := v])
    case Advance(offset) => p.(calls := p.calls[|p.calls| - 1 := Last(p.calls).(ipOffset := offset)])
    case Call(closure, callee, arity, n) =>
      if n == arity && |p.calls| < lim.framesMax
      then p.(calls := p.calls + [Activation(closure, callee, 0, |p.values| - (n + 1), n + 1)])
      else Plain([], [])
    case Return =>
      if |p.calls| == 1 then Plain([], [])
      else Plain(p.values[..Last(p.calls).slotsIndex] + [p.values[|p.values| - 1]], p.calls[..|p.calls| - 1])
    case Fail => Plain([], [])
    case _ => p
  }

  // ----- schedules -----

  /** How far a collection has got, and the functions that its frozen frames run. */
  datatype Mode = Quiet | Asked(running: set<Id>) | Answered

  /** The plain machine, what the object table resolves, and where the collection is. */
  datatype Progress<V> = Progress(plain: Plain<V>, known: set<Id>, mode: Mode)

  function Running(as_: seq<Activation>): set<Id>
  {
    set a | a in as_ :: a.fun
  }

  /** A collection starts when none is outstanding, is answered once, and is integrated while
    * a program runs; the object tables it produces still have what is being run. */
  predicate CanDo<V>(lim: Limits, r: Progress<V>, op: Op<V>)
  {
    Fits(lim, r.plain, op) &&
    match op
    case Define(fun, _) => fun !in r.known
    case Call(_, callee, _, _) => callee in r.known
    case Freeze => r.mode.Quiet? && r.plain.calls != []
    case Condense(condensed) => r.mode.Asked? && r.mode.running <= condensed.Keys
    case Integrate(integrated) => r.mode.Answered? && r.plain.calls != [] && Running(r.plain.calls) <= integrated.Keys
    case _ => true
  }

  function Next<V>(lim: Limits, r: Progress<V>, op: Op<V>): Progress<V>
    requires CanDo(lim, r, op)
  {
    var plain := Do(lim, r.plain, op);
    match op
    case Define(fun, _) => Progress(plain, r.known + {fun}, r.mode)
    case Freeze => Progress(plain, r.known, Asked(Running(r.plain.calls)))
    case Condense(_) => Progress(plain, r.known, Answered)
    case Integrate(integrated) => Progress(plain, integrated.Keys, Quiet)
    case _ => Progress(plain, r.known, r.mode)
  }

  predicate Feasible<V>(lim: Limits, r: Progress<V>, ops: seq<Op<V>>)
    decreases |ops|
  {
    ops != [] ==> CanDo(lim, r, ops[0]) && Feasible(lim, Next(lim, r, ops[0]), ops[1..])
  }

  function After<V>(lim: Limits, r: Progress<V>, ops: seq<Op<V>>): Progress<V>
    requires Feasible(lim, r, ops)
    decreases |ops|
  {
    if ops == [] then r else After(lim, Next(lim, r, ops[0]), ops[1..])
  }

  // ----- the program alone -----

  predicate IsCollection<V>(op: Op<V>)
  {
    op.Freeze? || op.Condense? || op.Integrate?
  }

  function ProgramOnly<V>(ops: seq<Op<V>>): seq<Op<V>>
  {
    if ops == [] then []
    else (if IsCollection(ops[0]) then [] else [ops[0]]) + ProgramOnly(ops[1..])
  }

  predicate Runs<V>(lim: Limits, p: Plain<V>, ops: seq<Op<V>>)
    decreases |ops|
  {
    ops != [] ==> Fits(lim, p, ops[0]) && Runs(lim, Do(lim, p, ops[0]), ops[1..])
  }

  function Outcome<V>(lim: Limits, p: Plain<V>, ops: seq<Op<V>>): Plain<V>
    requires Runs(lim, p, ops)
    decreases |ops|
  {
    if ops == [] then p else Outcome(lim, Do(lim, p, ops[0]), ops[1..])
  }

  /** Wherever the collections fall, the program runs as it does without them. */
  lemma {:induction false} CollectionsDropOut<V>(lim: Limits, r: Progress<V>, ops: seq<Op<V>>)
    requires Feasible(lim, r, ops)
    ensures Runs(lim, r.plain, ProgramOnly(ops))
    ensures Outcome(lim, r.plain, ProgramOnly(ops)) == After(lim, r, ops).plain
    decreases |ops|
  {
    if ops != [] {
      var rest := ProgramOnly(ops[1..]);
      CollectionsDropOut(lim, Next(lim, r, ops[0]), ops[1..]);
      if !IsCollection(ops[0]) {
        assert ([ops[0]] + rest)[1..] == rest;
      } else {
        assert [] + rest == rest;
      }
    }
  }

  // ----- the layered machine -----

  /** Below A there is still what was frozen, or less of it. */
  ghost predicate Still<T>(under: seq<T>, held: seq<T>, abi: nat)
  {
    abi <= |under| && abi <= |held| && under[..abi] == held[..abi]
  }

  lemma StillLower<T>(under: seq<T>, held: seq<T>, abi: nat, lower: nat)
    requires Still(under, held, abi) && lower <= abi
    ensures Still(under, held, lower)
  {
    assert under[..lower] == under[..abi][..lower];
    assert held[..lower] == held[..abi][..lower];
  }

  lemma StillIs<T>(under: seq<T>, held: seq<T>, abi: nat)
    requires Still(under, held, abi)
    ensures abi <= |under| && abi <= |held| && under[..abi] == held[..abi]
  {
  }

  /** A reset forgets what is frozen. */
  lemma StillNothing<T>(under: seq<T>, held: seq<T>)
    ensures Still(under, held, 0)
  {
  }

  lemma StillAll<T>(s: seq<T>, abi: nat)
    requires abi <= |s|
    ensures Still(s, s, abi)
  {
  }

  lemma RunningResolves(fs: seq<Frame>, functions: map<Id, Code>)
    requires Running(Meanings(fs)) <= functions.Keys
    ensures Resolves(fs, functions)
  {
    forall i | 0 <= i < |fs| ensures fs[i].fun in functions {
      assert Meanings(fs)[i] in Meanings(fs);
    }
  }

  lemma AllRun(fs: seq<Frame>)
    ensures forall i :: 0 <= i < |fs| ==> fs[i].fun in Running(Meanings(fs))
  {
    forall i | 0 <= i < |fs| ensures fs[i].fun in Running(Meanings(fs)) {
      assert Meanings(fs)[i] in Meanings(fs);
    }
  }

  lemma FrozenFrames(fs: seq<Frame>, functions: map<Id, Code>, epoch: nat, depth: nat)
    requires FramesOk(fs, functions, epoch, depth)
    ensures forall i :: 0 <= i < |fs| ==> fs[i].ip >= fs[i].code.ipRoot
  {
  }

  lemma MovedBelow(under: seq<Frame>, held: seq<Frame>, abi: nat, moved: seq<Frame>)
    requires Still(under, held, abi) && Moved(held, moved)
    ensures abi <= |under| && abi <= |moved| && Moved(under[..abi], moved[..abi])
  {
    forall i | 0 <= i < abi ensures MovedFrame(under[..abi][i], moved[..abi][i]) {
      assert under[..abi][i] == held[..abi][i];
      assert MovedFrame(held[i], moved[i]);
    }
  }

  /** What the main thread hands over, and what it gets back. */
  datatype Request<!V> = Request(values: Frozen<V>, calls: Frozen<Frame>)
  datatype Response<!V> = Response(values: array<V>, calls: array<Frame>)

  /** What the freeze found. */
  datatype Held<V> = Held(mode: Mode, values: seq<V>, calls: seq<Frame>)

  /** The machine and the collection under way: what the request describes, what the response
    * brings. */
  class Session<V(0)> {
    const vm: Vm<V>
    var request: Request<V>
    var response: Response<V>
    ghost var held: Held<V>

    /** Nothing that the program writes to. */
    ghost predicate Aside(o: object?)
      reads vm.stack, vm.frames
    {
      Apart(o, this) && Apart(o, vm) && Apart(o, vm.stack) && Apart(o, vm.stack.a) && Apart(o, vm.frames) && Apart(o, vm.frames.a)
    }

    ghost predicate Separate()
      reads this, vm, vm.stack, vm.frames
    {
      && vm.Alone() && Apart(this, vm) && Apart(this, vm.stack) && Apart(this, vm.stack.a) && Apart(this, vm.frames) && Apart(this, vm.frames.a)
      && Aside(vm.stack.b) && Aside(vm.stack.c) && Aside(vm.frames.b) && Aside(vm.frames.c)
      && Aside(request.values.b) && Aside(request.values.c) && Aside(request.calls.b) && Aside(request.calls.c)
      && Aside(response.values) && Aside(response.calls)
    }

    /** The frozen arrays, or the condensed ones, still hold what the freeze found. */
    ghost predicate HeldStill()
      reads this, request.values.b, request.values.c, request.calls.b, request.calls.c, response.values, response.calls
    {
      match held.mode
      case Quiet => true
      case Asked(running) =>
        Describes(request.values, held.values) && Describes(request.calls, held.calls)
        && forall i :: 0 <= i < |held.calls| ==> held.calls[i].fun in running && held.calls[i].ip >= held.calls[i].code.ipRoot
      case Answered => response.values[..] == held.values && Moved(held.calls, response.calls[..])
    }

    ghost predicate Pending()
      reads this, vm, vm.stack, vm.frames
    {
      if held.mode.Quiet? then vm.stack.Settled() && vm.frames.Settled()
      else Still(vm.stack.under, held.values, vm.stack.abi) && Still(vm.frames.under, held.calls, vm.frames.abi)
    }

    ghost predicate Valid()
      reads this, vm, vm.stack, vm.stack.a, vm.stack.b, vm.stack.c, vm.frames, vm.frames.a, vm.frames.b, vm.frames.c
      reads request.values.b, request.values.c, request.calls.b, request.calls.c, response.values, response.calls
      ensures Valid() ==> vm.Ready()
    {
      Separate() && vm.Ready() && HeldStill() && Pending() && (vm.frames.depth == 0 ==> vm.stack.abi == 0)
    }

    function Bounds(): Limits
    {
      Limits(vm.stack.capacity, vm.frames.capacity)
    }

    ghost function Plainly(): Progress<V>
      reads this, vm, vm.stack, vm.stack.a, vm.stack.b, vm.stack.c, vm.frames, vm.frames.a, vm.frames.b, vm.frames.c
      requires vm.Ready()
    {
      Progress(Plain(vm.stack.Contents(), Meanings(vm.frames.Contents())), vm.functions.Keys, held.mode)
    }

    constructor (stackMax: nat, framesMax: nat, functions: map<Id, Code>)
      ensures Valid() && fresh(vm) && fresh(vm.stack) && fresh(vm.stack.a) && fresh(vm.frames) && fresh(vm.frames.a)
      ensures Plainly() == Progress(Plain([], []), functions.Keys, Quiet) && Bounds() == Limits(stackMax, framesMax)
    {
      hide Vm.Ready, Vm.Valid, Vm.Alone, Vm.Separate, Tri.Valid, Tri.Contents, FramesOk, Coherent;
      vm := new Vm(stackMax, framesMax, functions);
      request := Request(Frozen(0, null, 0, null, 0), Frozen(0, null, 0, null, 0));
      var noValues, noCalls := new V[0], new Frame[0];
      response := Response(noValues, noCalls);
      held := Held(Quiet, [], []);
      new;
      assert Meanings([]) == [];
    }

    /** Popping and returning only take the base of A down. */
    lemma Lowered(stackAbi: nat, framesAbi: nat)
      requires vm.stack.abi <= stackAbi && vm.frames.abi <= framesAbi
      requires !held.mode.Quiet? ==> Still(vm.stack.under, held.values, stackAbi) && Still(vm.frames.under, held.calls, framesAbi)
      requires held.mode.Quiet? ==> vm.stack.Settled() && vm.frames.Settled()
      ensures Pending()
    {
      hide Still;
      if !held.mode.Quiet? {
        StillLower(vm.stack.under, held.values, stackAbi, vm.stack.abi);
        StillLower(vm.frames.under, held.calls, framesAbi, vm.frames.abi);
      }
    }

    method Push(v: V)
      requires Valid() && CanDo(Bounds(), Plainly(), Op.Push(v))
      modifies vm.stack.a, vm.stack`depth
      ensures Valid() && Plainly() == Next(Bounds(), old(Plainly()), Op.Push(v))
    {
      hide Tri.Valid, Tri.Contents, Meanings, FramesOk, Coherent, Describes, Moved, Still;
      vm.Push(v);
    }

    method Pop()
      requires Valid() && CanDo(Bounds(), Plainly(), Op.Pop)
      modifies vm.stack`depth, vm.stack`abi
      ensures Valid() && Plainly() == Next(Bounds(), old(Plainly()), Op.Pop)
    {
      hide Tri.Valid, Tri.Contents, Meanings, FramesOk, Coherent, Describes, Moved, Still;
      if vm.frames.depth > 0 {
        LastActivation(vm.frames.Contents(), Meanings(vm.frames.Contents()));
      }
      var v := vm.Pop();
      Lowered(old(vm.stack.abi), old(vm.frames.abi));
    }

    method GetLocal(slot: nat)
      requires Valid() && CanDo(Bounds(), Plainly(), Op.GetLocal(slot))
      modifies vm.stack.a, vm.stack`depth
      ensures Valid() && Plainly() == Next(Bounds(), old(Plainly()), Op.GetLocal(slot))
    {
      hide Tri.Valid, Tri.Contents, Meanings, FramesOk, Coherent, Describes, Moved, Still;
      LastActivation(vm.frames.Contents(), Meanings(vm.frames.Contents()));
      var v := vm.GetLocal(slot);
      vm.Push(v);
    }

    method SetLocal(slot: nat, v: V)
      requires Valid() && CanDo(Bounds(), Plainly(), Op.SetLocal(slot, v))
      modifies vm.stack.a
      ensures Valid() && Plainly() == Next(Bounds(), old(Plainly()), Op.SetLocal(slot, v))
    {
      hide Tri.Valid, Tri.Contents, Meanings, FramesOk, Coherent, Describes, Moved, Still;
      LastActivation(vm.frames.Contents(), Meanings(vm.frames.Contents()));
      vm.SetLocal(slot, v);
    }

    method Advance(offset: nat)
      requires Valid() && CanDo(Bounds(), Plainly(), Op.Advance(offset))
      modifies vm.frames.a
      ensures Valid() && Plainly() == Next(Bounds(), old(Plainly()), Op.Advance(offset))
    {
      hide Tri.Valid, Tri.Contents, Meanings, FramesOk, Coherent, Describes, Moved, Still;
      vm.Advance(offset);
    }

    method Define(fun: Id, code: Code)
      requires Valid() && CanDo(Bounds(), Plainly(), Op.Define(fun, code))
      modifies vm`functions
      ensures Valid() && Plainly() == Next(Bounds(), old(Plainly()), Op.Define(fun, code))
    {
      hide Tri.Valid, Tri.Contents, Meanings, FramesOk, Coherent, Describes, Moved, Still;
      vm.Define(fun, code);
    }

    method Call(closure: Id, callee: Id, arity: nat, argCount: nat)
      requires Valid() && CanDo(Bounds(), Plainly(), Op.Call(closure, callee, arity, argCount))
      modifies vm.stack, vm.frames, vm.frames.a
      ensures vm.stack.a == old(vm.stack.a) || fresh(vm.stack.a)
      ensures vm.frames.a == old(vm.frames.a) || fresh(vm.frames.a)
      ensures Valid() && Plainly() == Next(Bounds(), old(Plainly()), Op.Call(closure, callee, arity, argCount))
    {
      hide Tri.Valid, Tri.Contents, Meanings, FramesOk, Coherent, Describes, Moved, Still;
      if vm.frames.depth > 0 {
        LastActivation(vm.frames.Contents(), Meanings(vm.frames.Contents()));
      }
      var ok := vm.Call(closure, callee, arity, argCount);
      StillNothing(vm.stack.under, held.values);
      StillNothing(vm.frames.under, held.calls);
    }

    method Return()
      requires Valid() && CanDo(Bounds(), Plainly(), Op.Return)
      modifies vm.stack.a, vm.stack`abi, vm.stack`depth, vm.frames.a, vm.frames`abi, vm.frames`depth
      ensures Valid() && Plainly() == Next(Bounds(), old(Plainly()), Op.Return)
    {
      hide Tri.Valid, Tri.Contents, Meanings, FramesOk, Coherent, Describes, Moved, Still;
      LastActivation(vm.frames.Contents(), Meanings(vm.frames.Contents()));
      var finished := vm.Return();
      Lowered(old(vm.stack.abi), old(vm.frames.abi));
    }

    method Fail()
      requires Valid() && CanDo(Bounds(), Plainly(), Op.Fail)
      modifies vm.stack, vm.frames
      ensures fresh(vm.stack.a) && fresh(vm.frames.a)
      ensures Valid() && Plainly() == Next(Bounds(), old(Plainly()), Op.Fail)
    {
      hide Tri.Valid, Tri.Contents, Meanings, FramesOk, Coherent, Describes, Moved, Still;
      vm.ResetStacks();
      StillNothing(vm.stack.under, held.values);
      StillNothing(vm.frames.under, held.calls);
    }

    method Freeze()
      requires Valid() && CanDo(Bounds(), Plainly(), Op.Freeze)
      modifies this, vm.stack, vm.frames
      ensures Valid() && Plainly() == Next(Bounds(), old(Plainly()), Op.Freeze)
      ensures fresh(vm.stack.a) && fresh(vm.frames.a)
    {
      hide Tri.Valid, Tri.Contents, Meanings, FramesOk, Coherent, Describes, Moved, Still;
      ghost var fs := vm.frames.Contents();
      AllRun(fs);
      FrozenFrames(fs, vm.functions, vm.epoch, vm.stack.depth);
      var frozenValues, frozenCalls := vm.Freeze();
      StillAll(vm.stack.under, vm.stack.abi);
      StillAll(vm.frames.under, vm.frames.abi);
      Ask(frozenValues, frozenCalls, Running(Meanings(fs)));
    }

    /** Keeps the request. */
    method Ask(frozenValues: Frozen<V>, frozenCalls: Frozen<Frame>, ghost running: set<Id>)
      requires Separate() && vm.Ready() && (vm.frames.depth == 0 ==> vm.stack.abi == 0)
      requires Aside(frozenValues.b) && Aside(frozenValues.c) && Aside(frozenCalls.b) && Aside(frozenCalls.c)
      requires Describes(frozenValues, vm.stack.under) && Describes(frozenCalls, vm.frames.under)
      requires forall i :: 0 <= i < |vm.frames.under| ==>
        vm.frames.under[i].fun in running && vm.frames.under[i].ip >= vm.frames.under[i].code.ipRoot
      requires Still(vm.stack.under, vm.stack.under, vm.stack.abi) && Still(vm.frames.under, vm.frames.under, vm.frames.abi)
      modifies this
      ensures Valid() && Plainly() == old(Plainly()).(mode := Asked(running))
    {
      hide Aside, Vm.Ready, Vm.Alone, Running, Tri.Valid, Tri.Contents, Meanings, FramesOk, Coherent, Describes, Moved, Still;
      request := Request(frozenValues, frozenCalls);
      held := Held(Asked(running), vm.stack.under, vm.frames.under);
    }

    /** The collector thread's part, from the request alone. */
    method Condense(condensed: map<Id, Code>)
      requires Valid() && CanDo(Bounds(), Plainly(), Op.Condense(condensed))
      modifies this
      ensures Valid() && Plainly() == Next(Bounds(), old(Plainly()), Op.Condense(condensed))
    {
      hide Tri.Valid, Tri.Contents, Meanings, FramesOk, Coherent, Describes, Moved, Still;
      var condensedValues := CondenseValues(request.values, held.values);
      var condensedCalls := CondenseFrames(request.calls, condensed, held.calls);
      RelocatedIsMoved(held.calls, condensed, |held.calls|);
      assert held.calls[..|held.calls|] == held.calls && condensedCalls[..][..|held.calls|] == condensedCalls[..];
      Answer(condensedValues, condensedCalls);
    }

    /** Keeps the response. */
    method Answer(condensedValues: array<V>, condensedCalls: array<Frame>)
      requires Valid() && held.mode.Asked? && Aside(condensedValues) && Aside(condensedCalls)
      requires condensedValues[..] == held.values && Moved(held.calls, condensedCalls[..])
      modifies this
      ensures Valid() && Plainly() == old(Plainly()).(mode := Answered)
    {
      hide Aside, Vm.Ready, Vm.Alone, Tri.Valid, Tri.Contents, Meanings, FramesOk, Coherent, Describes, Moved, Still;
      response := Response(condensedValues, condensedCalls);
      held := held.(mode := Answered);
    }

    method Integrate(integrated: map<Id, Code>)
      requires Valid() && CanDo(Bounds(), Plainly(), Op.Integrate(integrated))
      modifies this, vm, vm.stack, vm.stack.a, vm.frames, vm.frames.a
      ensures Valid() && Plainly() == Next(Bounds(), old(Plainly()), Op.Integrate(integrated))
      ensures vm.stack.a == old(vm.stack.a) && vm.frames.a == old(vm.frames.a)
    {
      hide Tri.Valid, Tri.Contents, Meanings, FramesOk, Coherent, Describes, Moved, Still;
      StillIs(vm.stack.under, held.values, vm.stack.abi);
      MovedBelow(vm.frames.under, held.calls, vm.frames.abi, response.calls[..]);
      RunningResolves(vm.frames.Contents(), integrated);
      vm.Integrate(response.values, response.calls, integrated);
      held := held.(mode := Quiet);
    }

    /** One step, of the program or of the collector. */
    method Step(op: Op<V>)
      requires Valid() && CanDo(Bounds(), Plainly(), op)
      modifies this, vm, vm.stack, vm.stack.a, vm.frames, vm.frames.a
      ensures Valid() && Plainly() == Next(Bounds(), old(Plainly()), op)
      ensures vm.stack.a == old(vm.stack.a) || fresh(vm.stack.a)
      ensures vm.frames.a == old(vm.frames.a) || fresh(vm.frames.a)
    {
      hide Valid, CanDo, Next, Plainly;
      match op
      case Push(v) => Push(v);
      case Pop => Pop();
      case GetLocal(slot) => GetLocal(slot);
      case SetLocal(slot, v) => SetLocal(slot, v);
      case Advance(offset) => Advance(offset);
      case Define(fun, code) => Define(fun, code);
      case Call(closure, callee, arity, argCount) => Call(closure, callee, arity, argCount);
      case Return => Return();
      case Fail => Fail();
      case Freeze => Freeze();
      case Condense(condensed) => Condense(condensed);
      case Integrate(integrated) => Integrate(integrated);
    }

    /** Any run, with collections anywhere: at its end the machine is ready, and its stack and
      * its frames are those of a machine that took the program's steps alone. */
    method Execute(ops: seq<Op<V>>)
      requires Valid() && Feasible(Bounds(), Plainly(), ops)
      modifies this, vm, vm.stack, vm.stack.a, vm.frames, vm.frames.a
      ensures Valid() && vm.Ready() && Plainly() == After(Bounds(), old(Plainly()), ops)
      ensures Runs(Bounds(), old(Plainly()).plain, ProgramOnly(ops))
      ensures Plainly().plain == Outcome(Bounds(), old(Plainly()).plain, ProgramOnly(ops))
    {
      hide Valid, CanDo, Next, Plainly, Runs, Outcome, ProgramOnly;
      CollectionsDropOut(Bounds(), Plainly(), ops);
      for i := 0 to |ops|
        invariant Valid() && Feasible(Bounds(), Plainly(), ops[i..])
        invariant After(Bounds(), Plainly(), ops[i..]) == After(Bounds(), old(Plainly()), ops)
        invariant vm.stack.a == old(vm.stack.a) || fresh(vm.stack.a)
        invariant vm.frames.a == old(vm.frames.a) || fresh(vm.frames.a)
      {
        assert ops[i..][1..] == ops[i + 1..];
        Step(ops[i]);
      }
    }
  }
}
