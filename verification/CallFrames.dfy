/** The call stack: frames and values in layered arrays, with cached pointers in the
  * frames that every collection relocates. A frame may be used only while its
  * slots form one run in the mutable array and its pointers match the object table.
  */
module CallFrames {
  import opened TriArray

  type Id = nat

  /** Where a function's record, its constants and its bytecode are. */
  datatype Code = Code(functionP: nat, constants: nat, ipRoot: nat)

  datatype Frame = Frame(
    closure: Id,
    fun: Id,
    code: Code,        // functionP, constantsValuesP, ip_root
    ip: nat,
    slots: nat,        // where the frame's values start, as an index of the mutable array
    slotsIndex: nat,   // and as an index of the logical stack
    slotsCount: nat,
    epoch: nat)        // gc_integration_epoch when the pointers were cached

  /** A frame without its caches. */
  datatype Activation = Activation(closure: Id, fun: Id, ipOffset: int, slotsIndex: nat, slotsCount: nat)

  function Meaning(f: Frame): Activation
  {
    Activation(f.closure, f.fun, f.ip - f.code.ipRoot, f.slotsIndex, f.slotsCount)
  }

  function Meanings(fs: seq<Frame>): (as_: seq<Activation>)
    ensures |as_| == |fs|
  {
    seq(|fs|, i requires 0 <= i < |fs| => Meaning(fs[i]))
  }

  /** The pointers re-derived from the object table; the offset of ip stays. */
  function Relocate(f: Frame, functions: map<Id, Code>): Frame
    requires f.fun in functions && f.ip >= f.code.ipRoot
  {
    var code := functions[f.fun];
    f.(code := code, ip := code.ipRoot + (f.ip - f.code.ipRoot))
  }

  function Refreshed(f: Frame, functions: map<Id, Code>, epoch: nat): Frame
    requires f.fun in functions && f.ip >= f.code.ipRoot
  {
    if f.epoch != epoch then Relocate(f, functions).(epoch := epoch) else f
  }

  /** The frames after triframes_ensureCurrentFrameIsMutable, when the mutable part of
    * the value stack starts at abi. */
  ghost function Ensured(fs: seq<Frame>, functions: map<Id, Code>, epoch: nat, abi: nat): seq<Frame>
    requires |fs| > 0
  {
    var f := fs[|fs| - 1];
    if f.fun in functions && f.ip >= f.code.ipRoot && abi <= f.slotsIndex then
      fs[|fs| - 1 := Refreshed(f, functions, epoch).(slots := f.slotsIndex - abi)]
    else fs
  }

  ghost predicate FramesOk(fs: seq<Frame>, functions: map<Id, Code>, epoch: nat, depth: nat)
  {
    && (forall i :: 0 <= i < |fs| ==>
          && fs[i].fun in functions
          && fs[i].ip >= fs[i].code.ipRoot
          && fs[i].epoch <= epoch
          && fs[i].slotsIndex < depth)
    && (forall i, j :: 0 <= i < j < |fs| ==> fs[i].slotsIndex < fs[j].slotsIndex)
  }

  /** Pointers cached in the present epoch match the object table. */
  ghost predicate Coherent(fs: seq<Frame>, functions: map<Id, Code>, epoch: nat)
  {
    forall i :: 0 <= i < |fs| && fs[i].epoch == epoch && fs[i].fun in functions ==>
      fs[i].code == functions[fs[i].fun]
  }

  /** A return leaves the values below the callee's slots, and the result. */
  function AfterReturn<V>(s: seq<V>, fs: seq<Frame>): seq<V>
    requires |fs| > 0 && fs[|fs| - 1].slotsIndex < |s|
  {
    s[..fs[|fs| - 1].slotsIndex] + [s[|s| - 1]]
  }

  lemma LastFrameOk(fs: seq<Frame>, functions: map<Id, Code>, epoch: nat, depth: nat)
    requires |fs| > 0 && FramesOk(fs, functions, epoch, depth)
    ensures var f := fs[|fs| - 1]; f.fun in functions && f.ip >= f.code.ipRoot && f.epoch <= epoch && f.slotsIndex < depth
  {
  }

  lemma NoFrames(functions: map<Id, Code>, epoch: nat, depth: nat)
    ensures FramesOk([], functions, epoch, depth) && Coherent([], functions, epoch)
  {
  }

  lemma CallerBelow(fs: seq<Frame>, functions: map<Id, Code>, epoch: nat, depth: nat)
    requires |fs| > 1 && FramesOk(fs, functions, epoch, depth)
    ensures fs[|fs| - 2].slotsIndex < fs[|fs| - 1].slotsIndex
  {
  }

  /** Refreshing the caches of the last frame changes no activation. */
  lemma SameActivations(fs: seq<Frame>, f: Frame, functions: map<Id, Code>, epoch: nat, depth: nat)
    requires |fs| > 0 && FramesOk(fs, functions, epoch, depth)
    requires Meaning(f) == Meaning(fs[|fs| - 1]) && f.ip >= f.code.ipRoot && f.epoch <= epoch
    ensures var gs := fs[|fs| - 1 := f];
      FramesOk(gs, functions, epoch, depth) && Meanings(gs) == Meanings(fs) && gs[..|fs| - 1] == fs[..|fs| - 1]
  {
    assert f.fun == fs[|fs| - 1].fun && f.slotsIndex == fs[|fs| - 1].slotsIndex;
  }

  lemma Entered(fs: seq<Frame>, f: Frame, functions: map<Id, Code>, epoch: nat, depth: nat)
    requires FramesOk(fs, functions, epoch, depth) && Coherent(fs, functions, epoch)
    requires f.fun in functions && f.code == functions[f.fun] && f.ip >= f.code.ipRoot && f.epoch == epoch
    requires f.slotsIndex < depth && (|fs| > 0 ==> fs[|fs| - 1].slotsIndex < f.slotsIndex)
    ensures FramesOk(fs + [f], functions, epoch, depth) && Coherent(fs + [f], functions, epoch)
    ensures Meanings(fs + [f]) == Meanings(fs) + [Meaning(f)] && (fs + [f])[|fs|] == f
  {
    forall i | 0 <= i < |fs| ensures fs[i].slotsIndex < f.slotsIndex {
      if i < |fs| - 1 {
        assert fs[i].slotsIndex < fs[|fs| - 1].slotsIndex;
      }
    }
  }

  /** Moving the current frame's instruction pointer. */
  lemma Advanced(fs: seq<Frame>, ip: nat, functions: map<Id, Code>, epoch: nat, depth: nat)
    requires |fs| > 0 && FramesOk(fs, functions, epoch, depth) && Coherent(fs, functions, epoch)
    requires ip >= fs[|fs| - 1].code.ipRoot
    ensures var f := fs[|fs| - 1].(ip := ip); var gs := fs[|fs| - 1 := f];
      && FramesOk(gs, functions, epoch, depth) && Coherent(gs, functions, epoch)
      && Meanings(gs) == Meanings(fs)[|fs| - 1 := Meaning(f)]
  {
  }

  /** A function that no frame runs yet. */
  lemma Defined(fs: seq<Frame>, fun: Id, code: Code, functions: map<Id, Code>, epoch: nat, depth: nat)
    requires FramesOk(fs, functions, epoch, depth) && Coherent(fs, functions, epoch) && fun !in functions
    ensures FramesOk(fs, functions[fun := code], epoch, depth) && Coherent(fs, functions[fun := code], epoch)
    ensures forall i :: 0 <= i < |fs| ==> fs[i].fun in functions
  {
  }

  lemma Left(fs: seq<Frame>)
    requires |fs| > 0
    ensures Meanings(fs[..|fs| - 1]) == Meanings(fs)[..|fs| - 1]
    ensures |fs| > 1 ==> Meanings(fs)[|fs| - 2] == Meaning(fs[|fs| - 2])
  {
  }

  lemma LastActivation(fs: seq<Frame>, as_: seq<Activation>)
    requires |fs| > 0 && Meanings(fs) == as_
    ensures Meaning(fs[|fs| - 1]) == as_[|fs| - 1]
  {
  }

  predicate Apart(x: object?, y: object?)
  {
    x != y
  }

  lemma EnsuredIsUsable(fs: seq<Frame>, functions: map<Id, Code>, epoch: nat, depth: nat, abi: nat)
    requires |fs| > 0 && FramesOk(fs, functions, epoch, depth) && Coherent(fs, functions, epoch)
    requires abi <= fs[|fs| - 1].slotsIndex
    ensures var gs := Ensured(fs, functions, epoch, abi);
      && Coherent(gs, functions, epoch) && gs[|fs| - 1].slots == fs[|fs| - 1].slotsIndex - abi
      && gs[|fs| - 1].slotsIndex == fs[|fs| - 1].slotsIndex
      && gs[|fs| - 1].fun in functions && gs[|fs| - 1].code == functions[gs[|fs| - 1].fun]
  {
  }

  lemma LastIsDeepest(fs: seq<Frame>, functions: map<Id, Code>, epoch: nat, depth: nat, newDepth: nat)
    requires |fs| > 0 && FramesOk(fs, functions, epoch, depth) && fs[|fs| - 1].slotsIndex < newDepth
    ensures FramesOk(fs, functions, epoch, newDepth)
  {
    forall i | 0 <= i < |fs| ensures fs[i].slotsIndex < newDepth {
      if i < |fs| - 1 {
        assert fs[i].slotsIndex < fs[|fs| - 1].slotsIndex;
      }
    }
  }

  /** A request that describes the sequence s. */
  ghost predicate Describes<T(0)>(r: Frozen<T>, s: seq<T>)
    reads r.b, r.c
  {
    r.depth == r.abi == |s| && Tri<T>.Layers(r.b, r.bbi, r.c, s)
  }

  ghost predicate Relocatable(fs: seq<Frame>, functions: map<Id, Code>)
  {
    forall i :: 0 <= i < |fs| ==> fs[i].fun in functions && fs[i].ip >= fs[i].code.ipRoot
  }

  ghost function RelocateAll(fs: seq<Frame>, functions: map<Id, Code>): (gs: seq<Frame>)
    requires Relocatable(fs, functions)
    ensures |gs| == |fs|
  {
    seq(|fs|, i requires 0 <= i < |fs| => Relocate(fs[i], functions))
  }

  /** No frame has cached its pointers in an epoch that has yet to come. */
  lemma OlderEpoch(fs: seq<Frame>, functions: map<Id, Code>, epoch: nat, depth: nat)
    requires FramesOk(fs, functions, epoch, depth)
    ensures FramesOk(fs, functions, epoch + 1, depth) && Coherent(fs, functions, epoch + 1)
  {
  }

  /** The same activations, cached in the same epochs, with pointers of any kind. */
  ghost predicate Moved(fs: seq<Frame>, gs: seq<Frame>)
  {
    |fs| == |gs| && forall i :: 0 <= i < |fs| ==> MovedFrame(fs[i], gs[i])
  }

  predicate MovedFrame(f: Frame, g: Frame)
  {
    Meaning(g) == Meaning(f) && g.epoch == f.epoch && g.ip >= g.code.ipRoot
  }

  lemma RelocatedIsMoved(fs: seq<Frame>, functions: map<Id, Code>, n: nat)
    requires Relocatable(fs, functions) && n <= |fs|
    ensures Moved(fs[..n], RelocateAll(fs, functions)[..n])
  {
  }

  /** The object table still has the function of every frame. */
  ghost predicate Resolves(fs: seq<Frame>, functions: map<Id, Code>)
  {
    forall i :: 0 <= i < |fs| ==> fs[i].fun in functions
  }

  /** Below A the relocated frames, from A on the present ones: the same activations. */
  lemma MixedFrames(fs: seq<Frame>, gs: seq<Frame>, new_: seq<Frame>, abi: nat,
                    functions: map<Id, Code>, newFunctions: map<Id, Code>, epoch: nat, depth: nat)
    requires FramesOk(fs, functions, epoch, depth) && Resolves(fs, newFunctions)
    requires abi <= |fs| && abi <= |new_| && Moved(fs[..abi], new_[..abi])
    requires gs == new_[..abi] + fs[abi..]
    ensures FramesOk(gs, newFunctions, epoch, depth) && Meanings(gs) == Meanings(fs)
  {
    forall i | 0 <= i < |fs|
      ensures Meaning(gs[i]) == Meaning(fs[i]) && gs[i].epoch == fs[i].epoch && gs[i].ip >= gs[i].code.ipRoot
      ensures gs[i].fun == fs[i].fun && gs[i].slotsIndex == fs[i].slotsIndex
    {
      if i < abi {
        assert MovedFrame(fs[..abi][i], new_[..abi][i]);
      }
    }
  }

  /** gc_perform's condensation of the frames: the copy of Condense, with the pointers
    * of every frame re-derived from the condensed object table. */
  method CondenseFrames(r: Frozen<Frame>, functions: map<Id, Code>, ghost fs: seq<Frame>) returns (newB: array<Frame>)
    requires Describes(r, fs) && Relocatable(fs, functions)
    ensures fresh(newB) && newB[..] == RelocateAll(fs, functions)
  {
    newB := Tri<Frame>.Condense(r, fs);
    var i := 0;
    while i < newB.Length
      invariant 0 <= i <= newB.Length == |fs|
      invariant forall k :: 0 <= k < i ==> newB[k] == Relocate(fs[k], functions)
      invariant forall k :: i <= k < |fs| ==> newB[k] == fs[k]
    {
      newB[i] := Relocate(newB[i], functions);
      i := i + 1;
    }
  }

  /** gc_perform's condensation of the value stack. */
  method CondenseValues<V(0)>(r: Frozen<V>, ghost s: seq<V>) returns (newB: array<V>)
    requires Describes(r, s)
    ensures fresh(newB) && newB[..] == s
  {
    newB := Tri<V>.Condense(r, s);
  }

  class Vm<V(0)> {
    const stack: Tri<V>
    const frames: Tri<Frame>
    var functions: map<Id, Code>  // what the object table resolves functions to
    var epoch: nat

    /** Values and frames never share memory. */
    ghost predicate Separate()
      reads this, stack, frames
    {
      && Apart(stack, frames) && Apart(stack, frames.a) && Apart(stack, frames.b) && Apart(stack, frames.c)
      && Apart(stack.a, frames) && Apart(stack.a, frames.a) && Apart(stack.a, frames.b) && Apart(stack.a, frames.c)
      && Apart(frames, stack.b) && Apart(frames, stack.c) && Apart(frames.a, stack.b) && Apart(frames.a, stack.c)
    }

    ghost predicate Valid()
      reads this, stack, stack.a, stack.b, stack.c, frames, frames.a, frames.b, frames.c
    {
      && Separate() && stack.Valid() && frames.Valid()
      && FramesOk(frames.Contents(), functions, epoch, stack.depth)
    }

    /** What holds at every dispatch of an instruction: the current frame is in the
      * mutable array, its values are one run of the mutable array, and its cached
      * pointers are right. */
    ghost predicate Ready()
      reads this, stack, stack.a, stack.b, stack.c, frames, frames.a, frames.b, frames.c
    {
      && Valid()
      && Coherent(frames.Contents(), functions, epoch)
      && (frames.depth > 0 ==> CurrentUsable())
    }

    ghost predicate CurrentUsable()
      reads this, stack, stack.a, stack.b, stack.c, frames, frames.a, frames.b, frames.c
      requires Valid() && frames.depth > 0
    {
      var f := frames.Contents()[frames.depth - 1];
      && frames.abi < frames.depth
      && stack.abi <= f.slotsIndex
      && f.slots == f.slotsIndex - stack.abi
      && f.code == functions[f.fun]
    }

    constructor (stackMax: nat, framesMax: nat, functions: map<Id, Code>)
      ensures Ready() && stack.Contents() == [] && frames.Contents() == []
      ensures Alone() && this.functions == functions && stack.capacity == stackMax && frames.capacity == framesMax
      ensures fresh(stack) && fresh(stack.a) && fresh(frames) && fresh(frames.a)
      ensures stack.b == null && frames.b == null && stack.Settled() && frames.Settled() && stack.abi == 0
    {
      stack := new Tri(stackMax);
      frames := new Tri(framesMax);
      this.functions := functions;
      this.epoch := 0;
    }

    method Push(v: V)
      requires Ready() && stack.depth < stack.capacity
      modifies stack.a, stack`depth
      ensures Ready() && stack.Contents() == old(stack.Contents()) + [v]
    {
      hide Tri.Valid, Tri.Contents;
      stack.Push(v);
    }

    /** The compiled code never pops below the first slot of its own frame. */
    method Pop() returns (v: V)
      requires Ready() && stack.depth > 0
      requires frames.depth > 0 ==> frames.Contents()[frames.depth - 1].slotsIndex < stack.depth - 1
      modifies stack`depth, stack`abi
      ensures Ready() && old(stack.Contents()) == stack.Contents() + [v] && stack.abi <= old(stack.abi)
    {
      hide Tri.Valid, Tri.Contents;
      v := stack.Pop();
    }

    /** OP_GET_LOCAL, through the frame's cached pointer. */
    method GetLocal(slot: nat) returns (v: V)
      requires Ready() && frames.depth > 0
      requires frames.Contents()[frames.depth - 1].slotsIndex + slot < stack.depth
      ensures v == stack.Contents()[frames.Contents()[frames.depth - 1].slotsIndex + slot]
    {
      var f := frames.Peek(0);
      v := stack.a[f.slots + slot];
    }

    /** OP_SET_LOCAL */
    method SetLocal(slot: nat, v: V)
      requires Ready() && frames.depth > 0
      requires frames.Contents()[frames.depth - 1].slotsIndex + slot < stack.depth
      modifies stack.a
      ensures Ready()
      ensures stack.Contents() ==
        old(stack.Contents())[frames.Contents()[frames.depth - 1].slotsIndex + slot := v]
    {
      hide Tri.Valid, Tri.Contents;
      var f := frames.Peek(0);
      stack.Set(f.slotsIndex + slot, v);
    }

    /** The jumps, and reading on: the instruction pointer of the current frame. */
    method Advance(offset: nat)
      requires Ready() && frames.depth > 0
      modifies frames.a
      ensures Ready() && stack.Contents() == old(stack.Contents())
      ensures var as_ := old(Meanings(frames.Contents()));
        Meanings(frames.Contents()) == as_[|as_| - 1 := as_[|as_| - 1].(ipOffset := offset)]
    {
      hide Meanings, Tri.Valid, Tri.Contents, FramesOk, Coherent;
      var f := frames.Peek(0);
      Advanced(frames.Contents(), f.code.ipRoot + offset, functions, epoch, stack.depth);
      LastActivation(frames.Contents(), Meanings(frames.Contents()));
      frames.Set(frames.depth - 1, f.(ip := f.code.ipRoot + offset));
    }

    /** A function is compiled or created: the object table resolves it from now on. */
    method Define(fun: Id, code: Code)
      requires Ready() && Alone() && fun !in functions
      modifies this`functions
      ensures Ready() && functions == old(functions)[fun := code]
      ensures stack.Contents() == old(stack.Contents()) && frames.Contents() == old(frames.Contents())
    {
      hide Tri.Valid, Tri.Contents, FramesOk, Coherent;
      Defined(frames.Contents(), fun, code, functions, epoch, stack.depth);
      functions := functions[fun := code];
    }

    /** The frame part: moves the current frame into the mutable array and reads it,
      * with its pointers re-derived if they were cached in an earlier epoch. */
    method FetchCurrentFrame() returns (f: Frame)
      requires Valid() && frames.depth > 0
      modifies frames.a, frames`abi
      ensures Valid() && frames.Contents() == old(frames.Contents()) && stack.Contents() == old(stack.Contents())
      ensures frames.abi < frames.depth && frames.abi <= old(frames.abi)
      ensures f == Refreshed(frames.Contents()[frames.depth - 1], functions, epoch)
    {
      hide Tri.Valid, Tri.Contents;
      frames.MakeMutable(frames.depth - 1);
      f := frames.Peek(0);
      if f.epoch != epoch {
        f := Relocate(f, functions).(epoch := epoch);
      }
    }

    /** Brings the values from an index on up into the mutable array. */
    method RaiseValues(from: nat)
      requires Valid() && from <= stack.depth
      modifies stack.a, stack`abi
      ensures Valid() && stack.abi <= from && stack.abi <= old(stack.abi)
      ensures stack.Contents() == old(stack.Contents()) && frames.Contents() == old(frames.Contents())
    {
      hide Tri.Valid, Tri.Contents, FramesOk;
      if from < stack.abi {
        stack.MakeMutable(from);
      }
    }

    /** Overwrites the caches of the current frame. */
    method StoreCurrent(f: Frame)
      requires Valid() && frames.abi < frames.depth
      requires Meaning(f) == Meaning(frames.Contents()[frames.depth - 1]) && f.ip >= f.code.ipRoot && f.epoch <= epoch
      modifies frames.a
      ensures Valid() && frames.Contents() == old(frames.Contents())[frames.depth - 1 := f]
      ensures stack.Contents() == old(stack.Contents())
      ensures Meanings(frames.Contents()) == old(Meanings(frames.Contents()))
    {
      hide Meanings, Tri.Valid, Tri.Contents, FramesOk;
      SameActivations(frames.Contents(), f, functions, epoch, stack.depth);
      frames.Set(frames.depth - 1, f);
    }

    /** triframes_ensureCurrentFrameIsMutable: the current frame, refreshed, ends up in
      * the mutable array, and so do its values. Nothing else changes. */
    method EnsureCurrentFrameIsMutable()
      requires Valid()
      modifies stack.a, stack`abi, frames.a, frames`abi
      ensures Valid()
      ensures stack.Contents() == old(stack.Contents())
      ensures Meanings(frames.Contents()) == old(Meanings(frames.Contents()))
      ensures stack.abi <= old(stack.abi) && frames.abi <= old(frames.abi)
      ensures frames.depth == 0 ==> frames.Contents() == old(frames.Contents())
      ensures frames.depth > 0 ==> frames.abi < frames.depth
      ensures frames.depth > 0 ==> frames.Contents() == Ensured(old(frames.Contents()), functions, epoch, stack.abi)
      ensures frames.depth > 0 ==> stack.abi <= frames.Contents()[frames.depth - 1].slotsIndex
    {
      hide Meanings, Tri.Valid, Tri.Contents, FramesOk;
      if frames.depth == 0 {
        return;
      }
      LastFrameOk(frames.Contents(), functions, epoch, stack.depth);
      var f := FetchCurrentFrame();
      RaiseValues(f.slotsIndex);
      StoreCurrent(f.(slots := f.slotsIndex - stack.abi));
    }

    /** resetStack, after a runtime error. */
    method ResetStacks()
      requires Valid() && Alone()
      modifies stack, frames
      ensures Ready() && Alone() && stack.Contents() == [] && frames.Contents() == []
      ensures fresh(stack.a) && fresh(frames.a) && stack.abi == 0 && frames.abi == 0
      ensures stack.b == null && frames.b == null && stack.Settled() && frames.Settled()
    {
      hide Tri.Valid, Tri.Contents, FramesOk, Coherent;
      stack.Reset();
      frames.Reset();
      NoFrames(functions, epoch, 0);
    }

    /** triframes_enterFrame, and what call writes into the frame. */
    method EnterFrame(f: Frame)
      requires Ready() && frames.depth < frames.capacity
      requires f.fun in functions && f.code == functions[f.fun] && f.ip >= f.code.ipRoot && f.epoch == epoch
      requires stack.abi <= f.slotsIndex < stack.depth && f.slots == f.slotsIndex - stack.abi
      requires frames.depth > 0 ==> frames.Contents()[frames.depth - 1].slotsIndex < f.slotsIndex
      modifies frames.a, frames`depth
      ensures Ready() && stack.Contents() == old(stack.Contents())
      ensures Meanings(frames.Contents()) == old(Meanings(frames.Contents())) + [Meaning(f)]
    {
      hide Meanings, Tri.Valid, Tri.Contents, FramesOk, Coherent;
      Entered(frames.Contents(), f, functions, epoch, stack.depth);
      frames.Push(f);
    }

    /** call: enters a frame for a closure whose callee and arguments are on top of
      * the stack. What is frozen stays as it was, unless a runtime error drops it all. */
    method Call(closure: Id, fun: Id, arity: nat, argCount: nat) returns (ok: bool)
      requires Ready() && Alone() && fun in functions
      requires argCount + 1 <= stack.depth
      requires frames.depth > 0 ==> frames.Contents()[frames.depth - 1].slotsIndex < stack.depth - (argCount + 1)
      requires stack.abi <= stack.depth - (argCount + 1)
      modifies stack, frames, frames.a
      ensures Ready() && Alone() && (ok <==> argCount == arity && old(frames.depth) < frames.capacity)
      ensures ok ==> stack.Contents() == old(stack.Contents())
      ensures ok ==> Meanings(frames.Contents()) == old(Meanings(frames.Contents()))
                     + [Activation(closure, fun, 0, stack.depth - (argCount + 1), argCount + 1)]
      ensures ok ==> unchanged(stack) && unchanged(frames`a, frames`b, frames`c, frames`abi, frames`bbi, frames`under)
      ensures !ok ==> stack.Contents() == [] && frames.Contents() == []
      ensures !ok ==> fresh(stack.a) && fresh(frames.a) && stack.abi == 0 && frames.abi == 0
      ensures !ok ==> stack.b == null && frames.b == null && stack.Settled() && frames.Settled()
    {
      hide Meanings, Tri.Valid, Tri.Contents, FramesOk, Coherent;
      if argCount != arity || frames.depth == frames.capacity {
        ResetStacks();
        return false;
      }
      var code := functions[fun];
      var slotsIndex := stack.depth - (argCount + 1);
      EnterFrame(Frame(closure, fun, code, code.ipRoot, slotsIndex - stack.abi, slotsIndex, argCount + 1, epoch));
      return true;
    }

    /** triframes_leaveFrame */
    method LeaveFrame()
      requires Valid() && Coherent(frames.Contents(), functions, epoch) && frames.depth > 0
      modifies stack.a, stack`abi, frames.a, frames`abi, frames`depth
      ensures Ready() && frames.depth == old(frames.depth) - 1
      ensures stack.abi <= old(stack.abi) && frames.abi <= old(frames.abi)
      ensures stack.Contents() == old(stack.Contents())
      ensures Meanings(frames.Contents()) == old(Meanings(frames.Contents()))[..frames.depth]
      ensures frames.depth > 0 ==> stack.abi <= old(frames.Contents()[frames.depth - 2]).slotsIndex
      ensures frames.depth > 0 ==> frames.Contents()[frames.depth - 1].slotsIndex == old(frames.Contents()[frames.depth - 2]).slotsIndex
    {
      hide Meanings, Tri.Valid, Tri.Contents;
      ghost var fs := frames.Contents();
      Left(fs);
      frames.DiscardN(1);
      ghost var gs := frames.Contents();
      EnsureCurrentFrameIsMutable();
      if frames.depth > 0 {
        EnsuredIsUsable(gs, functions, epoch, stack.depth, stack.abi);
      }
    }

    /** The caller's stack shrinks to what it was before the call and takes the result. */
    method TakeResult(oldFrameSlotsIndex: nat, result: V)
      requires Ready() && frames.depth > 0
      requires frames.Contents()[frames.depth - 1].slotsIndex < oldFrameSlotsIndex < stack.depth
      modifies stack.a, stack`abi, stack`depth
      ensures Ready() && stack.abi <= old(stack.abi)
      ensures stack.Contents() == old(stack.Contents())[..oldFrameSlotsIndex] + [result]
    {
      hide Tri.Valid, Tri.Contents, FramesOk, Coherent;
      LastIsDeepest(frames.Contents(), functions, epoch, stack.depth, oldFrameSlotsIndex);
      LastIsDeepest(frames.Contents(), functions, epoch, stack.depth, oldFrameSlotsIndex + 1);
      stack.DiscardN(stack.depth - oldFrameSlotsIndex);
      stack.Push(result);
    }

    /** Takes the result off the stack and leaves the callee's frame. */
    method LeaveWithResult() returns (result: V)
      requires Ready() && frames.depth > 0
      requires stack.depth >= frames.Contents()[frames.depth - 1].slotsIndex + 2
      modifies stack.a, stack`abi, stack`depth, frames.a, frames`abi, frames`depth
      ensures Ready() && stack.abi <= old(stack.abi) && frames.abi <= old(frames.abi)
      ensures frames.depth == old(frames.depth) - 1
      ensures old(stack.Contents()) == stack.Contents() + [result]
      ensures Meanings(frames.Contents()) == old(Meanings(frames.Contents()))[..frames.depth]
      ensures frames.depth > 0 ==>
        frames.Contents()[frames.depth - 1].slotsIndex < old(frames.Contents()[frames.depth - 1]).slotsIndex
    {
      hide Meanings, Tri.Valid, Tri.Contents, Coherent, FramesOk;
      result := Pop();
      if frames.depth > 1 {
        CallerBelow(frames.Contents(), functions, epoch, stack.depth);
      }
      LeaveFrame();
    }

    /** The stack part of OP_RETURN; its upvalues have been closed. The caller's values
      * are one run of A when its frame is: the second copy that the source keeps in
      * reserve is never needed. */
    method Return() returns (finished: bool)
      requires Ready() && frames.depth > 0
      requires stack.depth >= frames.Contents()[frames.depth - 1].slotsIndex + 2
      modifies stack.a, stack`abi, stack`depth, frames.a, frames`abi, frames`depth
      ensures Ready() && stack.abi <= old(stack.abi) && frames.abi <= old(frames.abi)
      ensures frames.depth == old(frames.depth) - 1 && (finished <==> frames.depth == 0)
      ensures Meanings(frames.Contents()) == old(Meanings(frames.Contents()))[..frames.depth]
      ensures !finished ==> stack.Contents() == AfterReturn(old(stack.Contents()), old(frames.Contents()))
      ensures finished ==> stack.Contents() == old(stack.Contents())[..old(stack.depth) - 2]
    {
      hide Meanings, Tri.Valid, Tri.Contents, Coherent, FramesOk;
      var top := frames.Peek(0);
      var oldFrameSlotsIndex := top.slotsIndex;
      var result := LeaveWithResult();
      if frames.depth == 0 {
        NoFrames(functions, epoch, stack.depth - 1);
        stack.DiscardN(1);
        return true;
      }
      TakeResult(oldFrameSlotsIndex, result);
      return false;
    }

    /** freezeARegions for both stacks, and what the request records about them. */
    method ShiftLayers() returns (values: Frozen<V>, calls: Frozen<Frame>)
      requires Ready() && stack.Settled() && frames.Settled()
      modifies stack, frames
      ensures Valid() && fresh(stack.a) && fresh(frames.a)
      ensures stack.Contents() == old(stack.Contents()) && stack.under == stack.Contents()
      ensures frames.Contents() == old(frames.Contents()) && frames.under == frames.Contents()
      ensures Describes(values, stack.under) && Describes(calls, frames.under)
      ensures stack.b == old(stack.a) && stack.c == old(stack.b) && frames.b == old(frames.a) && frames.c == old(frames.b)
      ensures values.b == stack.b && values.c == stack.c && calls.b == frames.b && calls.c == frames.c
    {
      hide Meanings, Tri.Valid, Tri.Contents, Tri.Layers, Coherent;
      stack.Freeze();
      frames.Freeze();
      values := stack.Request();
      calls := frames.Request();
    }

    /** The stacks' part of collectGarbage: the shift of the layers, the request taken
      * right after it, and the recovery of a mutable current frame. */
    method Freeze() returns (values: Frozen<V>, calls: Frozen<Frame>)
      requires Ready() && stack.Settled() && frames.Settled()
      modifies stack, frames
      ensures Ready()
      ensures stack.Contents() == old(stack.Contents()) && stack.under == stack.Contents()
      ensures Meanings(frames.Contents()) == old(Meanings(frames.Contents())) && frames.under == old(frames.Contents())
      ensures Describes(values, stack.under) && Describes(calls, frames.under)
      ensures fresh(stack.a) && stack.b == old(stack.a) && stack.c == old(stack.b)
      ensures fresh(frames.a) && frames.b == old(frames.a) && frames.c == old(frames.b)
      ensures values.b == stack.b && values.c == stack.c && calls.b == frames.b && calls.c == frames.c
    {
      hide Meanings, Tri.Valid, Tri.Contents, Tri.Layers, FramesOk;
      values, calls := ShiftLayers();
      ghost var fs := frames.Contents();
      EnsureCurrentFrameIsMutable();
      if frames.depth > 0 {
        EnsuredIsUsable(fs, functions, epoch, stack.depth, stack.abi);
      }
    }

    /** The condensed arrays and the new object table replace the frozen ones. */
    method SwapIn(newValues: array<V>, newCalls: array<Frame>, newFunctions: map<Id, Code>)
      requires Valid() && Alone() && Incoming(newValues, newCalls, newFunctions)
      modifies this`functions, stack`b, stack`c, stack`bbi, stack`under, frames`b, frames`c, frames`bbi, frames`under
      ensures Valid() && Alone() && stack.Settled() && frames.Settled() && functions == newFunctions
      ensures stack.b == newValues && frames.b == newCalls
      ensures stack.Contents() == old(stack.Contents())
      ensures Meanings(frames.Contents()) == old(Meanings(frames.Contents()))
    {
      hide Meanings, Tri.Valid, Tri.Contents, Tri.Layers, FramesOk, Resolves, Moved;
      ghost var fs := frames.Contents();
      functions := newFunctions;
      stack.Integrate(newValues);
      frames.Integrate(newCalls);
      MixedFrames(fs, frames.Contents(), newCalls[..], frames.abi, old(functions), newFunctions, epoch, stack.depth);
    }

    /** The machine itself shares no memory with its parts. */
    ghost predicate Alone()
      reads this, stack, frames
    {
      && Apart(this, stack) && Apart(this, frames) && Apart(this, stack.a) && Apart(this, frames.a)
      && Apart(this, stack.b) && Apart(this, frames.b) && Apart(this, stack.c) && Apart(this, frames.c)
    }

    /** What the collector hands over, in memory of its own. As far as A does not cover it,
      * it holds the frozen values and the frozen frames, these with other pointers; and
      * the new object table has the functions that are being run. */
    ghost predicate Incoming(newValues: array<V>, newCalls: array<Frame>, newFunctions: map<Id, Code>)
      reads this, stack, stack.a, stack.b, stack.c, frames, frames.a, frames.b, frames.c, newValues, newCalls
      requires Valid()
    {
      && stack.abi <= newValues.Length && newValues[..stack.abi] == stack.under[..stack.abi]
      && frames.abi <= newCalls.Length && Moved(frames.under[..frames.abi], newCalls[..frames.abi])
      && Resolves(frames.Contents(), newFunctions)
      && Aside(newValues) && Aside(newCalls)
    }

    ghost predicate Aside(o: object)
      reads this, stack, frames
    {
      Apart(o, this) && Apart(o, stack) && Apart(o, stack.a) && Apart(o, frames) && Apart(o, frames.a)
    }

    /** Re-deriving the pointers of the current frame from the new object table. */
    method RecacheCurrent(currentFrameIpOffset: nat)
      requires Valid() && frames.depth > 0 && frames.abi < frames.depth
      requires Meaning(frames.Contents()[frames.depth - 1]).ipOffset == currentFrameIpOffset
      modifies frames.a
      ensures Valid() && Meanings(frames.Contents()) == old(Meanings(frames.Contents()))
      ensures var f, was := frames.Contents()[frames.depth - 1], old(frames.Contents()[frames.depth - 1]);
        f.code == functions[f.fun] && f.slots == was.slots && f.slotsIndex == was.slotsIndex
    {
      hide Meanings, Tri.Valid, Tri.Contents, Tri.Layers;
      var f := frames.Peek(0);
      var code := functions[f.fun];
      f := f.(code := code, ip := code.ipRoot + currentFrameIpOffset);
      StoreCurrent(f);
    }

    /** From here on the caches of every other frame are stale. */
    method NextEpoch()
      requires Valid() && Alone() && frames.depth > 0 && CurrentUsable()
      modifies this`epoch
      ensures Ready() && Alone() && epoch == old(epoch) + 1
      ensures stack.Contents() == old(stack.Contents()) && frames.Contents() == old(frames.Contents())
    {
      hide Tri.Valid, Tri.Contents, Tri.Layers, FramesOk, Coherent;
      OlderEpoch(frames.Contents(), functions, epoch, stack.depth);
      epoch := epoch + 1;
    }

    /** The stacks' part of integrateGCResponse. It may come after any calls, returns,
      * pushes and pops since the freeze: every value and every activation is as
      * before, whatever addresses the functions have now. */
    method Integrate(newValues: array<V>, newCalls: array<Frame>, newFunctions: map<Id, Code>)
      requires Ready() && Alone() && frames.depth > 0 && Incoming(newValues, newCalls, newFunctions)
      modifies this, stack, stack.a, frames, frames.a
      ensures Ready() && Alone() && stack.Settled() && frames.Settled()
      ensures stack.Contents() == old(stack.Contents())
      ensures Meanings(frames.Contents()) == old(Meanings(frames.Contents()))
      ensures functions == newFunctions && epoch == old(epoch) + 1
      ensures stack.a == old(stack.a) && frames.a == old(frames.a) && stack.b == newValues && frames.b == newCalls
    {
      hide Meanings, Tri.Valid, Tri.Contents, Tri.Layers, Resolves, Moved, FramesOk, Coherent;
      ghost var fs := frames.Contents();
      var current := frames.Peek(0);
      LastFrameOk(fs, functions, epoch, stack.depth);
      var currentFrameIpOffset := current.ip - current.code.ipRoot;
      SwapIn(newValues, newCalls, newFunctions);
      LastFrameOk(frames.Contents(), functions, epoch, stack.depth);
      EnsureCurrentFrameIsMutable();
      LastActivation(fs, Meanings(frames.Contents()));
      LastActivation(frames.Contents(), Meanings(fs));
      RecacheCurrent(currentFrameIpOffset);
      NextEpoch();
    }
  }
}
