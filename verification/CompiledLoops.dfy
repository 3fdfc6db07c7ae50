/** The code around the parts of a loop and of a conditional. */
module CompiledLoops {
  import opened Options
  import opened Lox
  import opened Bytecode
  import opened Emission
  import opened CompiledExpressions

  // ----- where the parts are -----

  /** The positions in the code of a loop. */
  datatype Place = Place(start: nat, layout: Layout)
  {
    function Body(): nat { start + layout.Head() + layout.Middle() }
    function Back(): nat { Body() + |layout.body| }
    function End(): nat { start + |layout.Code()| }
  }

  lemma {:induction false} LoopParts(code: seq<Byte>, p: Place)
    requires At(code, p.start, p.layout.Code())
    ensures At(code, p.start, p.layout.TestCode()) && At(code, p.start + p.layout.Head(), p.layout.StepCode())
    ensures At(code, p.Body(), p.layout.body) && At(code, p.Back(), p.layout.EndCode())
  {
    hide At, Layout.TestCode, Layout.StepCode, Layout.EndCode;
    var l := p.layout;
    AtParts(code, p.start, l.TestCode(), l.StepCode() + (l.body + l.EndCode()));
    AtParts(code, p.start + l.Head(), l.StepCode(), l.body + l.EndCode());
    AtParts(code, p.Body(), l.body, l.EndCode());
  }

  lemma {:induction false} TestParts(code: seq<Byte>, pos: nat, l: Layout)
    requires At(code, pos, l.TestCode()) && l.hasTest
    ensures At(code, pos, l.test) && At(code, pos + |l.test|, JumpCode(JumpIfFalseOp, l.Exit())) && At(code, pos + |l.test| + 3, [ByteOf(PopOp)])
  {
    hide At;
    AtParts(code, pos, l.test, JumpCode(JumpIfFalseOp, l.Exit()) + [ByteOf(PopOp)]);
    AtParts(code, pos + |l.test|, JumpCode(JumpIfFalseOp, l.Exit()), [ByteOf(PopOp)]);
  }

  lemma {:induction false} StepParts(code: seq<Byte>, pos: nat, l: Layout)
    requires At(code, pos, l.StepCode()) && l.hasStep
    ensures At(code, pos, JumpCode(JumpOp, |l.step| + 4)) && At(code, pos + 3, l.step)
    ensures At(code, pos + 3 + |l.step|, [ByteOf(PopOp)]) && At(code, pos + 4 + |l.step|, JumpCode(LoopOp, l.Head() + l.Middle()))
  {
    hide At;
    var back := [ByteOf(PopOp)] + JumpCode(LoopOp, l.Head() + l.Middle());
    AtParts(code, pos, JumpCode(JumpOp, |l.step| + 4), l.step + back);
    AtParts(code, pos + 3, l.step, back);
    AtParts(code, pos + 3 + |l.step|, [ByteOf(PopOp)], JumpCode(LoopOp, l.Head() + l.Middle()));
  }

  lemma {:induction false} EndParts(code: seq<Byte>, pos: nat, l: Layout)
    requires At(code, pos, l.EndCode())
    ensures At(code, pos, JumpCode(LoopOp, l.Again())) && (l.hasTest ==> At(code, pos + 3, [ByteOf(PopOp)]))
  {
    hide At;
    AtParts(code, pos, JumpCode(LoopOp, l.Again()), if l.hasTest then [ByteOf(PopOp)] else []);
  }

  lemma {:induction false} IfParts(code: seq<Byte>, pos: nat, c: seq<Byte>, t: seq<Byte>, f: seq<Byte>)
    requires At(code, pos, IfCode(c, t, f))
    ensures var mid := pos + |c|; var over := mid + 4 + |t|;
      && At(code, pos, c) && At(code, mid, JumpCode(JumpIfFalseOp, |t| + 4)) && At(code, mid + 3, [ByteOf(PopOp)])
      && At(code, mid + 4, t) && At(code, over, JumpCode(JumpOp, |f| + 1)) && At(code, over + 3, [ByteOf(PopOp)])
      && At(code, over + 4, f)
  {
    hide At;
    var mid, over := pos + |c|, pos + |c| + 4 + |t|;
    var tail := JumpCode(JumpOp, |f| + 1) + ([ByteOf(PopOp)] + f);
    AtParts(code, pos, c, JumpCode(JumpIfFalseOp, |t| + 4) + ([ByteOf(PopOp)] + (t + tail)));
    AtParts(code, mid, JumpCode(JumpIfFalseOp, |t| + 4), [ByteOf(PopOp)] + (t + tail));
    AtParts(code, mid + 3, [ByteOf(PopOp)], t + tail);
    AtParts(code, mid + 4, t, tail);
    AtParts(code, over, JumpCode(JumpOp, |f| + 1), [ByteOf(PopOp)] + f);
    AtParts(code, over + 3, [ByteOf(PopOp)], f);
  }

  lemma {:induction false} BackRuns(ops: Arith, chunk: Chunk, pos: nat, offset: nat, s: State)
    requires At(chunk.code, pos, JumpCode(LoopOp, offset)) && offset <= MAX_JUMP && offset <= pos + 3
    ensures Steps(ops, chunk, Going(VmAt(pos, s, [])), 1) == Going(VmAt(pos + 3 - offset, s, []))
  {
    hide Steps;
    StepShortAt(ops, chunk, VmAt(pos, s, []), LoopOp, offset);
  }

  // ----- the test -----

  function Tested(ops: Arith, test: Option<Expr>, s: State): Outcome
  {
    if test.Some? then Eval(ops, test.value, s) else Yields(Bool(true), s)
  }

  function Stepped(ops: Arith, step: Option<Expr>, s: State): Outcome
  {
    if step.Some? then Eval(ops, step.value, s) else Yields(Nil, s)
  }

  /** Where the test of a loop leads: out of it, or to the body. */
  function AfterLoopTest(r: Outcome, p: Place): Run
  {
    match r
    case Fails(s) => Failed(s.globals, s.output)
    case Yields(v, s) => Going(VmAt(if Falsey(v) then p.End() else p.Body(), s, []))
  }

  lemma {:induction false} TestRuns(ops: Arith, chunk: Chunk, p: Place, test: Option<Expr>, locals: seq<Local>, constants: seq<Value>, s: State) returns (n: nat)
    requires At(chunk.code, p.start, p.layout.Code()) && p.layout.Fits() && p.layout.hasTest == test.Some?
    requires var u := OptExprUnit(test, locals, constants);
      u.ok && u.code == p.layout.test && Extends(chunk.constants, u.constants)
    requires Matched(locals, s.env)
    ensures Steps(ops, chunk, Going(VmAt(p.start, s, [])), n) == AfterLoopTest(Tested(ops, test, s), p)
  {
    hide Steps, VmAt, Extends, Matched, At, ExprUnit, Eval, Layout.TestCode, Layout.StepCode, Layout.EndCode;
    var start, l := Going(VmAt(p.start, s, [])), p.layout;
    LoopParts(chunk.code, p);
    var r := Tested(ops, test, s);
    n := 0;
    if test.Some? {
      TestParts(chunk.code, p.start, l);
      EndParts(chunk.code, p.Back(), l);
      var mid := p.start + |l.test|;
      n := ExprRuns(ops, chunk, p.start, test.value, locals, constants, s, []);
      if r.Fails? { return; }
      assert [] + [r.value] == [r.value];
      BranchRuns(ops, chunk, mid, l.Exit(), r.state, [], r.value);
      Then(ops, chunk, start, n, Going(VmAt(mid, r.state, [r.value])), 1);
      n := n + 1;
      var next := if Falsey(r.value) then p.Back() + 3 else mid + 3;
      PopRuns(ops, chunk, next, r.state, [], r.value);
      Then(ops, chunk, start, n, Going(VmAt(next, r.state, [r.value])), 1);
      n := n + 1;
      if Falsey(r.value) { return; }
    } else {
      assert Steps(ops, chunk, start, 0) == start by { NoSteps(ops, chunk, start); }
    }
    if l.hasStep {
      StepParts(chunk.code, p.start + l.Head(), l);
      JumpRuns(ops, chunk, p.start + l.Head(), |l.step| + 4, r.state, []);
      Then(ops, chunk, start, n, Going(VmAt(p.start + l.Head(), r.state, [])), 1);
      n := n + 1;
    }
  }

  lemma {:induction false} NoSteps(ops: Arith, chunk: Chunk, run: Run)
    ensures Steps(ops, chunk, run, 0) == run
  {
  }

  // ----- the way back -----

  function AfterLoopStep(r: Outcome, p: Place): Run
  {
    match r
    case Fails(s) => Failed(s.globals, s.output)
    case Yields(_, s) => Going(VmAt(p.start, s, []))
  }

  lemma {:induction false} StepRuns(ops: Arith, chunk: Chunk, p: Place, step: Option<Expr>, locals: seq<Local>, constants: seq<Value>, s: State) returns (n: nat)
    requires At(chunk.code, p.start, p.layout.Code()) && p.layout.Fits() && p.layout.hasStep == step.Some?
    requires var u := OptExprUnit(step, locals, constants);
      u.ok && u.code == p.layout.step && Extends(chunk.constants, u.constants)
    requires Matched(locals, s.env)
    ensures n > 0 && Steps(ops, chunk, Going(VmAt(p.Back(), s, [])), n) == AfterLoopStep(Stepped(ops, step, s), p)
  {
    hide Steps, VmAt, Extends, Matched, At, ExprUnit, Eval, Layout.TestCode, Layout.StepCode, Layout.EndCode;
    var start, l := Going(VmAt(p.Back(), s, [])), p.layout;
    LoopParts(chunk.code, p);
    EndParts(chunk.code, p.Back(), l);
    BackRuns(ops, chunk, p.Back(), l.Again(), s);
    n := 1;
    if step.Some? {
      var pos := p.start + l.Head() + 3;
      StepParts(chunk.code, p.start + l.Head(), l);
      var m := ExprRuns(ops, chunk, pos, step.value, locals, constants, s, []);
      Then(ops, chunk, start, n, Going(VmAt(pos, s, [])), m);
      n := n + m;
      var r := Eval(ops, step.value, s);
      if r.Yields? {
        assert [] + [r.value] == [r.value];
        PopRuns(ops, chunk, pos + |l.step|, r.state, [], r.value);
        Then(ops, chunk, start, n, Going(VmAt(pos + |l.step|, r.state, [r.value])), 1);
        BackRuns(ops, chunk, pos + |l.step| + 1, l.Head() + l.Middle(), r.state);
        Then(ops, chunk, start, n + 1, Going(VmAt(pos + |l.step| + 1, r.state, [])), 1);
        n := n + 2;
      }
    }
  }
}
