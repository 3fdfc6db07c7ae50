/** Running the code of an expression has the effect of evaluating its tree. */
module CompiledExpressions {
  import opened Options
  import opened Lox
  import opened Bytecode
  import opened Emission

  function Values(env: seq<Binding>): seq<Value>
  {
    seq(|env|, i requires 0 <= i < |env| => env[i].value)
  }

  /** The machine at a position: the bindings in their slots, temporaries above them. */
  function VmAt(pos: nat, s: State, temps: seq<Value>): Vm
  {
    Vm(pos, Values(s.env) + temps, s.globals, s.output)
  }

  /** A local's index in the compiler is its slot at run time. At most one more has been
    * declared: the one whose initializer is being compiled. */
  ghost predicate Matched(locals: seq<Local>, env: seq<Binding>)
  {
    && |env| <= |locals| <= |env| + 1 && |locals| <= MAX_LOCALS
    && (forall i :: 0 <= i < |env| ==> locals[i].name == env[i].name && locals[i].depth >= 0)
    && forall i :: |env| <= i < |locals| ==> locals[i].depth == -1
  }

  ghost predicate SameNames(env: seq<Binding>, env': seq<Binding>)
  {
    |env| == |env'| && forall i :: 0 <= i < |env| ==> env[i].name == env'[i].name
  }

  lemma {:induction false} MatchedStill(locals: seq<Local>, env: seq<Binding>, env': seq<Binding>)
    requires Matched(locals, env) && SameNames(env, env')
    ensures Matched(locals, env')
  {
  }

  lemma {:induction false} EvalKeepsNames(ops: Arith, e: Expr, s: State)
    ensures SameNames(s.env, Eval(ops, e, s).state.env)
    decreases e
  {
    match e
    case Literal(_) =>
    case Variable(_) =>
    case Assign(_, e1) => EvalKeepsNames(ops, e1, s);
    case Unary(_, e1) => EvalKeepsNames(ops, e1, s);
    case Binary(_, left, right) =>
      EvalKeepsNames(ops, left, s);
      EvalKeepsNames(ops, right, Eval(ops, left, s).state);
    case And(left, right) =>
      EvalKeepsNames(ops, left, s);
      EvalKeepsNames(ops, right, Eval(ops, left, s).state);
    case Or(left, right) =>
      EvalKeepsNames(ops, left, s);
      EvalKeepsNames(ops, right, Eval(ops, left, s).state);
  }

  /** Names resolve to the same variable at compile time and at run time. */
  lemma {:induction false} ResolvesAlike(locals: seq<Local>, env: seq<Binding>, name: string)
    requires Matched(locals, env)
    requires Resolve(locals, name).Some? ==> locals[Resolve(locals, name).value].depth != -1
    ensures Resolve(locals, name) == Innermost(env, name)
    ensures Resolve(locals, name).Some? ==> Resolve(locals, name).value < |env|
  {
  }

  /** Where running the code of an expression leads. */
  function AfterExpr(r: Outcome, pos: nat, temps: seq<Value>): Run
  {
    match r
    case Yields(v, s) => Going(VmAt(pos, s, temps + [v]))
    case Fails(s) => Failed(s.globals, s.output)
  }

  lemma {:induction false} Slot(env: seq<Binding>, temps: seq<Value>, i: nat, v: Value)
    requires i < |env|
    ensures i < |Values(env) + temps| && (Values(env) + temps)[i] == env[i].value
    ensures (Values(env) + temps)[i := v] == Values(env[i := Binding(env[i].name, v)]) + temps
  {
  }

  lemma {:induction false} Temp(env: seq<Binding>, temps: seq<Value>, v: Value)
    ensures var stack := Values(env) + (temps + [v]);
      |stack| > 0 && Peek(stack, 0) == v && Pop(stack, 1) == Values(env) + temps && stack == Values(env) + temps + [v]
  {
  }

  lemma {:induction false} ExtendsTransitive(x: seq<Value>, y: seq<Value>, z: seq<Value>)
    requires Extends(x, y) && Extends(y, z)
    ensures Extends(x, z)
  {
  }

  // ----- the leaves -----

  lemma {:induction false} ConstantAt(chunk: Chunk, constants: seq<Value>, v: Value)
    requires Extends(chunk.constants, constants + [v]) && |constants| < 256
    ensures |constants| < |chunk.constants| && chunk.constants[ConstantIndex(constants)] == v
  {
    assert (constants + [v])[|constants|] == v;
  }

  lemma {:induction false} LiteralRuns(ops: Arith, chunk: Chunk, pos: nat, v: Value, constants: seq<Value>, s: State, temps: seq<Value>)
    requires var u := LiteralUnit(v, constants); u.ok && At(chunk.code, pos, u.code) && Extends(chunk.constants, u.constants)
    ensures Steps(ops, chunk, Going(VmAt(pos, s, temps)), 1) ==
      Going(VmAt(pos + |LiteralUnit(v, constants).code|, s, temps + [v]))
  {
    hide Steps;
    var vm := VmAt(pos, s, temps);
    assert Values(s.env) + temps + [v] == Values(s.env) + (temps + [v]);
    match v
    case Nil => StepPlainAt(ops, chunk, vm, NilOp);
    case Bool(b) => StepPlainAt(ops, chunk, vm, if b then TrueOp else FalseOp);
    case _ =>
      ConstantAt(chunk, constants, v);
      StepByteAt(ops, chunk, vm, ConstantOp, ConstantIndex(constants));
  }

  lemma {:induction false} VariableRuns(ops: Arith, chunk: Chunk, pos: nat, name: string, locals: seq<Local>, constants: seq<Value>, s: State, temps: seq<Value>)
    requires var u := ExprUnit(Variable(name), locals, constants);
      u.ok && At(chunk.code, pos, u.code) && Extends(chunk.constants, u.constants)
    requires Matched(locals, s.env)
    ensures Steps(ops, chunk, Going(VmAt(pos, s, temps)), 1) == AfterExpr(Eval(ops, Variable(name), s), pos + 2, temps)
  {
    hide Steps;
    var vm, t := VmAt(pos, s, temps), Named(locals, name, constants);
    ResolvesAlike(locals, s.env, name);
    if t.isLocal {
      Slot(s.env, temps, t.arg, Nil);
      StepByteAt(ops, chunk, vm, GetLocalOp, t.arg);
      var v := s.env[t.arg].value;
      assert Values(s.env) + temps + [v] == Values(s.env) + (temps + [v]);
    } else {
      ConstantAt(chunk, constants, Text(name));
      StepByteAt(ops, chunk, vm, GetGlobalOp, t.arg);
      if name in s.globals {
        assert Values(s.env) + temps + [s.globals[name]] == Values(s.env) + (temps + [s.globals[name]]);
      }
    }
  }

  function SetCode(t: Target): seq<Byte>
  {
    [ByteOf(if t.isLocal then SetLocalOp else SetGlobalOp), t.arg]
  }

  lemma {:induction false} AssignRuns(ops: Arith, chunk: Chunk, pos: nat, name: string, locals: seq<Local>, constants: seq<Value>, s: State, temps: seq<Value>, v: Value)
    requires Named(locals, name, constants).ok && Extends(chunk.constants, Named(locals, name, constants).constants)
    requires At(chunk.code, pos, SetCode(Named(locals, name, constants)))
    requires Matched(locals, s.env)
    ensures Steps(ops, chunk, Going(VmAt(pos, s, temps + [v])), 1) == AfterExpr(Eval(ops, Assign(name, Literal(v)), s), pos + 2, temps)
  {
    hide Steps;
    var vm, t := VmAt(pos, s, temps + [v]), Named(locals, name, constants);
    ResolvesAlike(locals, s.env, name);
    Temp(s.env, temps, v);
    if t.isLocal {
      Slot(s.env, temps + [v], t.arg, v);
      StepByteAt(ops, chunk, vm, SetLocalOp, t.arg);
    } else {
      ConstantAt(chunk, constants, Text(name));
      StepByteAt(ops, chunk, vm, SetGlobalOp, t.arg);
    }
  }

  lemma {:induction false} UnaryRuns(ops: Arith, chunk: Chunk, pos: nat, op: UnaryOp, s: State, temps: seq<Value>, v: Value)
    requires At(chunk.code, pos, [ByteOf(if op.Not? then NotOp else NegateOp)])
    ensures Steps(ops, chunk, Going(VmAt(pos, s, temps + [v])), 1) == AfterExpr(Eval(ops, Unary(op, Literal(v)), s), pos + 1, temps)
  {
    hide Steps;
    var vm := VmAt(pos, s, temps + [v]);
    Temp(s.env, temps, v);
    StepPlainAt(ops, chunk, vm, if op.Not? then NotOp else NegateOp);
    var w := Apply1(ops, op, v);
    if w.Some? {
      assert Values(s.env) + temps + [w.value] == Values(s.env) + (temps + [w.value]);
    }
  }

  lemma {:induction false} TwoTemps(env: seq<Binding>, temps: seq<Value>, v: Value, w: Value)
    ensures var stack := Values(env) + (temps + [v] + [w]);
      |stack| >= 2 && Peek(stack, 0) == w && Peek(stack, 1) == v && Pop(stack, 2) == Values(env) + temps
  {
  }

  function PlainOp(op: BinaryOp): Op
  {
    match op
    case Equal => EqualOp case NotEqual => EqualOp
    case Less => LessOp case GreaterEqual => LessOp
    case Greater => GreaterOp case LessEqual => GreaterOp
    case Add => AddOp case Subtract => SubtractOp case Multiply => MultiplyOp case Divide => DivideOp
  }

  predicate Negated(op: BinaryOp)
  {
    op.NotEqual? || op.LessEqual? || op.GreaterEqual?
  }

  lemma {:induction false} PlainRuns(ops: Arith, chunk: Chunk, pos: nat, op: Op, s: State, temps: seq<Value>, v: Value, w: Value)
    requires At(chunk.code, pos, [ByteOf(op)]) && BinaryOpOf(op).Some?
    ensures Steps(ops, chunk, Going(VmAt(pos, s, temps + [v] + [w])), 1) ==
      AfterExpr(Eval(ops, Binary(BinaryOpOf(op).value, Literal(v), Literal(w)), s), pos + 1, temps)
  {
    hide Steps, Apply2;
    TwoTemps(s.env, temps, v, w);
    StepPlainAt(ops, chunk, VmAt(pos, s, temps + [v] + [w]), op);
    var x := Apply2(ops, BinaryOpOf(op).value, v, w);
    if x.Some? {
      assert Values(s.env) + temps + [x.value] == Values(s.env) + (temps + [x.value]);
    }
  }

  /** x != y is !(x == y), x <= y is !(x > y) and x >= y is !(x < y). */
  lemma {:induction false} NegatedApply(ops: Arith, op: BinaryOp, v: Value, w: Value)
    ensures BinaryOpOf(PlainOp(op)).Some?
    ensures var x := Apply2(ops, BinaryOpOf(PlainOp(op)).value, v, w);
      Apply2(ops, op, v, w) == if x.Some? && Negated(op) then Some(Bool(Falsey(x.value))) else x
  {
  }

  lemma {:induction false} BinaryRuns(ops: Arith, chunk: Chunk, pos: nat, op: BinaryOp, s: State, temps: seq<Value>, v: Value, w: Value) returns (n: nat)
    requires At(chunk.code, pos, BinaryCode(op))
    ensures Steps(ops, chunk, Going(VmAt(pos, s, temps + [v] + [w])), n) ==
      AfterExpr(Eval(ops, Binary(op, Literal(v), Literal(w)), s), pos + |BinaryCode(op)|, temps)
  {
    hide Steps, VmAt, Apply2, At, Falsey;
    var plain, negation := [ByteOf(PlainOp(op))], if Negated(op) then [ByteOf(NotOp)] else [];
    assert BinaryCode(op) == plain + negation;
    AtParts(chunk.code, pos, plain, negation);
    NegatedApply(ops, op, v, w);
    PlainRuns(ops, chunk, pos, PlainOp(op), s, temps, v, w);
    var x := Apply2(ops, BinaryOpOf(PlainOp(op)).value, v, w);
    n := 1;
    if x.Some? && Negated(op) {
      UnaryRuns(ops, chunk, pos + 1, Not, s, temps, x.value);
      StepsAdd(ops, chunk, Going(VmAt(pos, s, temps + [v] + [w])), 1, 1);
      n := 2;
    }
  }

  // ----- control -----

  lemma {:induction false} PopRuns(ops: Arith, chunk: Chunk, pos: nat, s: State, temps: seq<Value>, v: Value)
    requires At(chunk.code, pos, [ByteOf(PopOp)])
    ensures Steps(ops, chunk, Going(VmAt(pos, s, temps + [v])), 1) == Going(VmAt(pos + 1, s, temps))
  {
    hide Steps;
    Temp(s.env, temps, v);
    StepPlainAt(ops, chunk, VmAt(pos, s, temps + [v]), PopOp);
  }

  lemma {:induction false} BranchRuns(ops: Arith, chunk: Chunk, pos: nat, jump: nat, s: State, temps: seq<Value>, v: Value)
    requires At(chunk.code, pos, JumpCode(JumpIfFalseOp, jump)) && jump <= MAX_JUMP
    ensures Steps(ops, chunk, Going(VmAt(pos, s, temps + [v])), 1) ==
      Going(VmAt(if Falsey(v) then pos + 3 + jump else pos + 3, s, temps + [v]))
  {
    hide Steps;
    Temp(s.env, temps, v);
    StepShortAt(ops, chunk, VmAt(pos, s, temps + [v]), JumpIfFalseOp, jump);
  }

  lemma {:induction false} JumpRuns(ops: Arith, chunk: Chunk, pos: nat, jump: nat, s: State, temps: seq<Value>)
    requires At(chunk.code, pos, JumpCode(JumpOp, jump)) && jump <= MAX_JUMP
    ensures Steps(ops, chunk, Going(VmAt(pos, s, temps)), 1) == Going(VmAt(pos + 3 + jump, s, temps))
  {
    hide Steps;
    StepShortAt(ops, chunk, VmAt(pos, s, temps), JumpOp, jump);
  }

  lemma {:induction false} Then(ops: Arith, chunk: Chunk, run: Run, a: nat, mid: Run, b: nat)
    requires Steps(ops, chunk, run, a) == mid
    ensures Steps(ops, chunk, run, a + b) == Steps(ops, chunk, mid, b)
  {
    StepsAdd(ops, chunk, run, a, b);
  }

  /** The code of an expression, wherever it stands, evaluates it on top of the stack. */
  lemma {:induction false} ExprRuns(ops: Arith, chunk: Chunk, pos: nat, e: Expr, locals: seq<Local>, constants: seq<Value>, s: State, temps: seq<Value>) returns (n: nat)
    requires var u := ExprUnit(e, locals, constants);
      u.ok && At(chunk.code, pos, u.code) && Extends(chunk.constants, u.constants)
    requires Matched(locals, s.env)
    ensures Steps(ops, chunk, Going(VmAt(pos, s, temps)), n) ==
      AfterExpr(Eval(ops, e, s), pos + |ExprUnit(e, locals, constants).code|, temps)
    decreases e, 1
  {
    hide Steps, VmAt, LiteralUnit, Named, Extends, Matched, At, BinaryCode;
    match e
    case Literal(v) =>
      LiteralRuns(ops, chunk, pos, v, constants, s, temps);
      n := 1;
    case Variable(name) =>
      VariableRuns(ops, chunk, pos, name, locals, constants, s, temps);
      n := 1;
    case Assign(name, e1) =>
      n := AssignExprRuns(ops, chunk, pos, e, locals, constants, s, temps);
    case Unary(op, e1) =>
      n := UnaryExprRuns(ops, chunk, pos, e, locals, constants, s, temps);
    case Binary(op, left, right) =>
      n := BinaryExprRuns(ops, chunk, pos, e, locals, constants, s, temps);
    case And(left, right) =>
      n := AndRuns(ops, chunk, pos, e, locals, constants, s, temps);
    case Or(left, right) =>
      n := OrRuns(ops, chunk, pos, e, locals, constants, s, temps);
  }

  lemma {:induction false} AssignExprRuns(ops: Arith, chunk: Chunk, pos: nat, e: Expr, locals: seq<Local>, constants: seq<Value>, s: State, temps: seq<Value>) returns (n: nat)
    requires var u := ExprUnit(e, locals, constants);
      u.ok && At(chunk.code, pos, u.code) && Extends(chunk.constants, u.constants)
    requires Matched(locals, s.env) && e.Assign?
    ensures Steps(ops, chunk, Going(VmAt(pos, s, temps)), n) ==
      AfterExpr(Eval(ops, e, s), pos + |ExprUnit(e, locals, constants).code|, temps)
    decreases e, 0
  {
    hide Steps, VmAt, Named, Extends, Matched, At;
    var t := Named(locals, e.name, constants);
    var u := ExprUnit(e.expr, locals, t.constants);
    AtParts(chunk.code, pos, u.code, SetCode(t));
    n := ExprRuns(ops, chunk, pos, e.expr, locals, t.constants, s, temps);
    var r := Eval(ops, e.expr, s);
    if r.Yields? {
      EvalKeepsNames(ops, e.expr, s);
      MatchedStill(locals, s.env, r.state.env);
      ExtendsTransitive(chunk.constants, u.constants, t.constants);
      AssignRuns(ops, chunk, pos + |u.code|, e.name, locals, constants, r.state, temps, r.value);
      Then(ops, chunk, Going(VmAt(pos, s, temps)), n, AfterExpr(r, pos + |u.code|, temps), 1);
      n := n + 1;
    }
  }

  lemma {:induction false} UnaryExprRuns(ops: Arith, chunk: Chunk, pos: nat, e: Expr, locals: seq<Local>, constants: seq<Value>, s: State, temps: seq<Value>) returns (n: nat)
    requires var u := ExprUnit(e, locals, constants);
      u.ok && At(chunk.code, pos, u.code) && Extends(chunk.constants, u.constants)
    requires Matched(locals, s.env) && e.Unary?
    ensures Steps(ops, chunk, Going(VmAt(pos, s, temps)), n) ==
      AfterExpr(Eval(ops, e, s), pos + |ExprUnit(e, locals, constants).code|, temps)
    decreases e, 0
  {
    hide Steps, VmAt, Extends, Matched, At, Apply1;
    var u := ExprUnit(e.expr, locals, constants);
    AtParts(chunk.code, pos, u.code, [ByteOf(if e.op1.Not? then NotOp else NegateOp)]);
    n := ExprRuns(ops, chunk, pos, e.expr, locals, constants, s, temps);
    var r := Eval(ops, e.expr, s);
    if r.Yields? {
      UnaryRuns(ops, chunk, pos + |u.code|, e.op1, r.state, temps, r.value);
      Then(ops, chunk, Going(VmAt(pos, s, temps)), n, AfterExpr(r, pos + |u.code|, temps), 1);
      n := n + 1;
    }
  }

  lemma {:induction false} BinaryExprRuns(ops: Arith, chunk: Chunk, pos: nat, e: Expr, locals: seq<Local>, constants: seq<Value>, s: State, temps: seq<Value>) returns (n: nat)
    requires var u := ExprUnit(e, locals, constants);
      u.ok && At(chunk.code, pos, u.code) && Extends(chunk.constants, u.constants)
    requires Matched(locals, s.env) && e.Binary?
    ensures Steps(ops, chunk, Going(VmAt(pos, s, temps)), n) ==
      AfterExpr(Eval(ops, e, s), pos + |ExprUnit(e, locals, constants).code|, temps)
    decreases e, 0
  {
    hide Steps, VmAt, Extends, Matched, At, Apply2, BinaryCode;
    var start := Going(VmAt(pos, s, temps));
    var l := ExprUnit(e.left, locals, constants);
    var r := ExprUnit(e.right, locals, l.constants);
    AtParts(chunk.code, pos, l.code, r.code + BinaryCode(e.op2));
    AtParts(chunk.code, pos + |l.code|, r.code, BinaryCode(e.op2));
    ExtendsTransitive(chunk.constants, r.constants, l.constants);
    n := ExprRuns(ops, chunk, pos, e.left, locals, constants, s, temps);
    var x := Eval(ops, e.left, s);
    if x.Yields? {
      EvalKeepsNames(ops, e.left, s);
      MatchedStill(locals, s.env, x.state.env);
      var temps' := temps + [x.value];
      var m := ExprRuns(ops, chunk, pos + |l.code|, e.right, locals, l.constants, x.state, temps');
      Then(ops, chunk, start, n, AfterExpr(x, pos + |l.code|, temps), m);
      n := n + m;
      var y := Eval(ops, e.right, x.state);
      if y.Yields? {
        var k := BinaryRuns(ops, chunk, pos + |l.code| + |r.code|, e.op2, y.state, temps, x.value, y.value);
        Then(ops, chunk, start, n, AfterExpr(y, pos + |l.code| + |r.code|, temps'), k);
        n := n + k;
      }
    }
  }

  lemma {:induction false} AndParts(code: seq<Byte>, pos: nat, l: seq<Byte>, r: seq<Byte>, jump: nat)
    requires At(code, pos, AndCode(l, r, jump))
    ensures var mid := pos + |l|;
      At(code, pos, l) && At(code, mid, JumpCode(JumpIfFalseOp, jump)) && At(code, mid + 3, [ByteOf(PopOp)]) && At(code, mid + 4, r)
  {
    hide At;
    var mid := pos + |l|;
    AtParts(code, pos, l, JumpCode(JumpIfFalseOp, jump) + ([ByteOf(PopOp)] + r));
    AtParts(code, mid, JumpCode(JumpIfFalseOp, jump), [ByteOf(PopOp)] + r);
    AtParts(code, mid + 3, [ByteOf(PopOp)], r);
  }

  lemma {:induction false} OrParts(code: seq<Byte>, pos: nat, l: seq<Byte>, r: seq<Byte>, jump: nat)
    requires At(code, pos, OrCode(l, r, jump))
    ensures var mid := pos + |l|;
      At(code, pos, l) && At(code, mid, JumpCode(JumpIfFalseOp, 3)) && At(code, mid + 3, JumpCode(JumpOp, jump))
      && At(code, mid + 6, [ByteOf(PopOp)]) && At(code, mid + 7, r)
  {
    hide At;
    var mid := pos + |l|;
    AtParts(code, pos, l, JumpCode(JumpIfFalseOp, 3) + (JumpCode(JumpOp, jump) + ([ByteOf(PopOp)] + r)));
    AtParts(code, mid, JumpCode(JumpIfFalseOp, 3), JumpCode(JumpOp, jump) + ([ByteOf(PopOp)] + r));
    AtParts(code, mid + 3, JumpCode(JumpOp, jump), [ByteOf(PopOp)] + r);
    AtParts(code, mid + 6, [ByteOf(PopOp)], r);
  }

  lemma {:induction false} AndMeans(ops: Arith, e: Expr, s: State)
    requires e.And?
    ensures var l := Eval(ops, e.left, s);
      Eval(ops, e, s) == if l.Fails? || Falsey(l.value) then l else Eval(ops, e.right, l.state)
  {
  }

  lemma {:induction false} OrMeans(ops: Arith, e: Expr, s: State)
    requires e.Or?
    ensures var l := Eval(ops, e.left, s);
      Eval(ops, e, s) == if l.Fails? || !Falsey(l.value) then l else Eval(ops, e.right, l.state)
  {
  }

  lemma {:induction false} AndRuns(ops: Arith, chunk: Chunk, pos: nat, e: Expr, locals: seq<Local>, constants: seq<Value>, s: State, temps: seq<Value>) returns (n: nat)
    requires var u := ExprUnit(e, locals, constants);
      u.ok && At(chunk.code, pos, u.code) && Extends(chunk.constants, u.constants)
    requires Matched(locals, s.env) && e.And?
    ensures Steps(ops, chunk, Going(VmAt(pos, s, temps)), n) ==
      AfterExpr(Eval(ops, e, s), pos + |ExprUnit(e, locals, constants).code|, temps)
    decreases e, 0
  {
    hide Steps, VmAt, Extends, Matched, At, AndCode, OrCode, SameNames, ExprUnit, Eval;
    AndIs(e, locals, constants);
    AndMeans(ops, e, s);
    var start := Going(VmAt(pos, s, temps));
    var l := ExprUnit(e.left, locals, constants);
    var r := ExprUnit(e.right, locals, l.constants);
    var jump := 1 + |r.code|;
    var mid := pos + |l.code|;
    AndParts(chunk.code, pos, l.code, r.code, jump);
    ExtendsTransitive(chunk.constants, r.constants, l.constants);
    n := ExprRuns(ops, chunk, pos, e.left, locals, constants, s, temps);
    var x := Eval(ops, e.left, s);
    if x.Yields? {
      BranchRuns(ops, chunk, mid, jump, x.state, temps, x.value);
      Then(ops, chunk, start, n, AfterExpr(x, mid, temps), 1);
      n := n + 1;
      if !Falsey(x.value) {
        EvalKeepsNames(ops, e.left, s);
        var m := AfterTest(ops, chunk, mid + 3, e.right, locals, l.constants, s, x, temps);
        Then(ops, chunk, start, n, Going(VmAt(mid + 3, x.state, temps + [x.value])), m);
        n := n + m;
      }
    }
  }

  /** The pop of the left operand and the right operand, common to both connectives. */
  lemma {:induction false} AfterTest(ops: Arith, chunk: Chunk, pos: nat, right: Expr, locals: seq<Local>, constants: seq<Value>,
                                     s: State, x: Outcome, temps: seq<Value>) returns (n: nat)
    requires var r := ExprUnit(right, locals, constants);
      r.ok && At(chunk.code, pos + 1, r.code) && Extends(chunk.constants, r.constants)
    requires At(chunk.code, pos, [ByteOf(PopOp)])
    requires Matched(locals, s.env) && x.Yields? && SameNames(s.env, x.state.env)
    ensures Steps(ops, chunk, Going(VmAt(pos, x.state, temps + [x.value])), n) ==
      AfterExpr(Eval(ops, right, x.state), pos + 1 + |ExprUnit(right, locals, constants).code|, temps)
    decreases right, 2
  {
    hide Steps, VmAt, Extends, At, ExprUnit, Eval;
    MatchedStill(locals, s.env, x.state.env);
    PopRuns(ops, chunk, pos, x.state, temps, x.value);
    var m := ExprRuns(ops, chunk, pos + 1, right, locals, constants, x.state, temps);
    Then(ops, chunk, Going(VmAt(pos, x.state, temps + [x.value])), 1, Going(VmAt(pos + 1, x.state, temps)), m);
    n := 1 + m;
  }

  lemma {:induction false} OrRuns(ops: Arith, chunk: Chunk, pos: nat, e: Expr, locals: seq<Local>, constants: seq<Value>, s: State, temps: seq<Value>) returns (n: nat)
    requires var u := ExprUnit(e, locals, constants);
      u.ok && At(chunk.code, pos, u.code) && Extends(chunk.constants, u.constants)
    requires Matched(locals, s.env) && e.Or?
    ensures Steps(ops, chunk, Going(VmAt(pos, s, temps)), n) ==
      AfterExpr(Eval(ops, e, s), pos + |ExprUnit(e, locals, constants).code|, temps)
    decreases e, 0
  {
    hide Steps, VmAt, Extends, Matched, At, AndCode, OrCode, SameNames, ExprUnit, Eval;
    OrIs(e, locals, constants);
    OrMeans(ops, e, s);
    var start := Going(VmAt(pos, s, temps));
    var l := ExprUnit(e.left, locals, constants);
    var r := ExprUnit(e.right, locals, l.constants);
    var jump := 1 + |r.code|;
    var mid := pos + |l.code|;
    OrParts(chunk.code, pos, l.code, r.code, jump);
    ExtendsTransitive(chunk.constants, r.constants, l.constants);
    n := ExprRuns(ops, chunk, pos, e.left, locals, constants, s, temps);
    var x := Eval(ops, e.left, s);
    if x.Yields? {
      BranchRuns(ops, chunk, mid, 3, x.state, temps, x.value);
      Then(ops, chunk, start, n, AfterExpr(x, mid, temps), 1);
      n := n + 1;
      if Falsey(x.value) {
        EvalKeepsNames(ops, e.left, s);
        var m := AfterTest(ops, chunk, mid + 6, e.right, locals, l.constants, s, x, temps);
        Then(ops, chunk, start, n, Going(VmAt(mid + 6, x.state, temps + [x.value])), m);
        n := n + m;
      } else {
        JumpRuns(ops, chunk, mid + 3, jump, x.state, temps + [x.value]);
        Then(ops, chunk, start, n, Going(VmAt(mid + 3, x.state, temps + [x.value])), 1);
        n := n + 1;
      }
    }
  }
}
