/** What compiled scripts print: the operators, the tests and the branches, from source tree to
  * output, in plain terms.
  */
module ScriptResults {
  import opened Options
  import opened Lox
  import opened Bytecode
  import opened Emission
  import opened CompiledScripts

  function Script(stmt: Stmt): Decls
  {
    More(Do(stmt), End)
  }

  /** The script of one statement compiles, and its run finishes with this output. */
  ghost predicate Outputs(ops: Arith, stmt: Stmt, output: seq<Value>)
  {
    ScriptUnit(Script(stmt)).ok &&
    exists n :: Steps(ops, ScriptChunk(Script(stmt)), StartRun(Nil, map[]), n) == Finished(map[], output)
  }

  /** It compiles, and its run ends in a runtime error before anything is printed. */
  ghost predicate Errs(ops: Arith, stmt: Stmt)
  {
    ScriptUnit(Script(stmt)).ok &&
    exists n :: Steps(ops, ScriptChunk(Script(stmt)), StartRun(Nil, map[]), n) == Failed(map[], [])
  }

  ghost predicate Prints(ops: Arith, e: Expr, v: Value)
  {
    Outputs(ops, Print(e), [v])
  }

  lemma {:induction false} RunOf(ops: Arith, stmt: Stmt, fuel: nat)
    requires ScriptUnit(Script(stmt)).ok
    ensures var r := Exec(ops, stmt, StartState(Nil, map[]), 0, fuel);
      && (r.Ends? && r.state.globals == map[] ==> Outputs(ops, stmt, r.state.output))
      && (r.Stops? && r.state.globals == map[] && r.state.output == [] ==> Errs(ops, stmt))
  {
    hide Steps, ScriptUnit, ScriptChunk, StartRun, Exec;
    var n := CompiledScriptRuns(ops, Script(stmt), Nil, map[], fuel);
    var r := Exec(ops, stmt, StartState(Nil, map[]), 0, fuel);
    MeaningOf(ops, stmt, fuel);
  }

  lemma {:induction false} MeaningOf(ops: Arith, stmt: Stmt, fuel: nat)
    ensures Meaning(ops, Script(stmt), Nil, map[], fuel) == Exec(ops, stmt, StartState(Nil, map[]), 0, fuel)
  {
    hide Exec;
    var s := StartState(Nil, map[]);
    assert ExecDecl(ops, Do(stmt), s, 0, fuel) == Exec(ops, stmt, s, 0, fuel);
    var r := ExecDecl(ops, Do(stmt), s, 0, fuel);
    assert r.Ends? ==> ExecAll(ops, End, r.state, 0, fuel) == r;
  }

  /** Few constants and no declarations: nothing to reject. */
  lemma {:induction false} SmallScript(stmt: Stmt)
    requires StmtUnit(stmt, SCRIPT_LOCALS, [], 0).unit.ok
    ensures ScriptUnit(Script(stmt)).ok
  {
    hide StmtUnit;
    var u := StmtUnit(stmt, SCRIPT_LOCALS, [], 0);
    assert DeclUnit(Do(stmt), SCRIPT_LOCALS, [], 0) == u;
    assert DeclsUnit(End, u.locals, u.unit.constants, 0).unit.ok;
    assert DeclsUnit(Script(stmt), SCRIPT_LOCALS, [], 0).unit.ok;
  }

  /** Printing an expression that leaves the state alone. */
  lemma {:induction false} PrintOf(ops: Arith, e: Expr)
    requires ExprUnit(e, SCRIPT_LOCALS, []).ok
    ensures var r := Eval(ops, e, StartState(Nil, map[]));
      && (r.Yields? && r.state == StartState(Nil, map[]) ==> Prints(ops, e, r.value))
      && (r == Fails(StartState(Nil, map[])) ==> Errs(ops, Print(e)))
  {
    hide Eval, ExprUnit, Outputs, Errs, ScriptUnit;
    var s := StartState(Nil, map[]);
    var u := ExprUnit(e, SCRIPT_LOCALS, []);
    assert StmtUnit(Print(e), SCRIPT_LOCALS, [], 0) == Scoped(u.(code := u.code + [ByteOf(PrintOp)]), SCRIPT_LOCALS);
    SmallScript(Print(e));
    RunOf(ops, Print(e), 0);
    var r := Eval(ops, e, s);
    assert Exec(ops, Print(e), s, 0, 0) ==
      if r.Fails? then Stops(r.state) else Ends(r.state.(output := r.state.output + [r.value]));
    assert r.Yields? ==> s.output + [r.value] == [r.value];
  }

  lemma {:induction false} LiteralOk(v: Value, constants: seq<Value>)
    requires |constants| < 256
    ensures var u := ExprUnit(Literal(v), SCRIPT_LOCALS, constants); u.ok && |u.constants| <= |constants| + 1 && |u.code| <= 2
  {
  }

  lemma {:induction false} BinaryOk(op: BinaryOp, a: Value, b: Value)
    ensures ExprUnit(Binary(op, Literal(a), Literal(b)), SCRIPT_LOCALS, []).ok
  {
    hide LiteralUnit, BinaryCode, AndCode, OrCode, Named, ByteOf;
    var l := ExprUnit(Literal(a), SCRIPT_LOCALS, []);
    var r := ExprUnit(Literal(b), SCRIPT_LOCALS, l.constants);
    LiteralOk(a, []);
    LiteralOk(b, l.constants);
    assert ExprUnit(Binary(op, Literal(a), Literal(b)), SCRIPT_LOCALS, []).ok == (l.ok && r.ok);
  }

  lemma {:induction false} PrintBinary(ops: Arith, op: BinaryOp, a: Value, b: Value)
    ensures match Apply2(ops, op, a, b)
      case Some(v) => Prints(ops, Binary(op, Literal(a), Literal(b)), v)
      case None => Errs(ops, Print(Binary(op, Literal(a), Literal(b))))
  {
    hide Apply2, Prints, Errs, ExprUnit;
    var e := Binary(op, Literal(a), Literal(b));
    BinaryOk(op, a, b);
    PrintOf(ops, e);
    var s := StartState(Nil, map[]);
    assert Eval(ops, Literal(a), s) == Yields(a, s) && Eval(ops, Literal(b), s) == Yields(b, s);
    assert Eval(ops, e, s) == if Apply2(ops, op, a, b).Some? then Yields(Apply2(ops, op, a, b).value, s) else Fails(s);
  }

  /** Arithmetic and comparison of numbers, operands in order; >= and <= as the negations of < and >. */
  lemma {:induction false} NumbersCompute(ops: Arith, x: nat, y: nat)
    ensures Prints(ops, Binary(Add, Literal(Number(x)), Literal(Number(y))), Number((ops.add)(x, y)))
    ensures Prints(ops, Binary(Subtract, Literal(Number(x)), Literal(Number(y))), Number((ops.subtract)(x, y)))
    ensures Prints(ops, Binary(Multiply, Literal(Number(x)), Literal(Number(y))), Number((ops.multiply)(x, y)))
    ensures Prints(ops, Binary(Divide, Literal(Number(x)), Literal(Number(y))), Number((ops.divide)(x, y)))
    ensures Prints(ops, Binary(Less, Literal(Number(x)), Literal(Number(y))), Bool((ops.less)(x, y)))
    ensures Prints(ops, Binary(Greater, Literal(Number(x)), Literal(Number(y))), Bool((ops.greater)(x, y)))
    ensures Prints(ops, Binary(LessEqual, Literal(Number(x)), Literal(Number(y))), Bool(!(ops.greater)(x, y)))
    ensures Prints(ops, Binary(GreaterEqual, Literal(Number(x)), Literal(Number(y))), Bool(!(ops.less)(x, y)))
    ensures Prints(ops, Binary(Equal, Literal(Number(x)), Literal(Number(y))), Bool((ops.same)(x, y)))
    ensures Prints(ops, Binary(NotEqual, Literal(Number(x)), Literal(Number(y))), Bool(!(ops.same)(x, y)))
  {
    hide Prints, Errs;
    var a, b := Number(x), Number(y);
    PrintBinary(ops, Add, a, b);
    PrintBinary(ops, Subtract, a, b);
    PrintBinary(ops, Multiply, a, b);
    PrintBinary(ops, Divide, a, b);
    PrintBinary(ops, Less, a, b);
    PrintBinary(ops, Greater, a, b);
    PrintBinary(ops, LessEqual, a, b);
    PrintBinary(ops, GreaterEqual, a, b);
    PrintBinary(ops, Equal, a, b);
    PrintBinary(ops, NotEqual, a, b);
  }

  /** Strings are joined, values of any kind compared, and everything else is a runtime error. */
  lemma {:induction false} OthersCompute(ops: Arith, a: Value, b: Value, s: string, t: string, op: BinaryOp)
    requires !a.Number? || !b.Number?
    ensures Prints(ops, Binary(Add, Literal(Text(s)), Literal(Text(t))), Text(s + t))
    ensures Prints(ops, Binary(Equal, Literal(a), Literal(b)), Bool(a == b))
    ensures Prints(ops, Binary(NotEqual, Literal(a), Literal(b)), Bool(a != b))
    ensures op == Less || op == LessEqual || op == Greater || op == GreaterEqual || op == Subtract || op == Multiply || op == Divide ==>
      Errs(ops, Print(Binary(op, Literal(a), Literal(b))))
    ensures !a.Text? || !b.Text? ==> Errs(ops, Print(Binary(Add, Literal(a), Literal(b))))
  {
    hide Prints, Errs;
    PrintBinary(ops, Add, Text(s), Text(t));
    PrintBinary(ops, Equal, a, b);
    PrintBinary(ops, NotEqual, a, b);
    PrintBinary(ops, op, a, b);
    PrintBinary(ops, Add, a, b);
  }

  lemma {:induction false} UnaryOk(op: UnaryOp, a: Value)
    ensures ExprUnit(Unary(op, Literal(a)), SCRIPT_LOCALS, []).ok
  {
    hide LiteralUnit, BinaryCode, AndCode, OrCode, Named, ByteOf;
    LiteralOk(a, []);
    assert ExprUnit(Unary(op, Literal(a)), SCRIPT_LOCALS, []).ok == ExprUnit(Literal(a), SCRIPT_LOCALS, []).ok;
  }

  lemma {:induction false} PrintUnary(ops: Arith, op: UnaryOp, a: Value)
    ensures match Apply1(ops, op, a)
      case Some(v) => Prints(ops, Unary(op, Literal(a)), v)
      case None => Errs(ops, Print(Unary(op, Literal(a))))
  {
    hide Apply1, Prints, Errs, ExprUnit;
    var e := Unary(op, Literal(a));
    UnaryOk(op, a);
    PrintOf(ops, e);
    var s := StartState(Nil, map[]);
    assert Eval(ops, Literal(a), s) == Yields(a, s);
    assert Eval(ops, e, s) == if Apply1(ops, op, a).Some? then Yields(Apply1(ops, op, a).value, s) else Fails(s);
  }

  /** Only nil and false are false; only numbers can be negated. */
  lemma {:induction false} UnaryComputes(ops: Arith, a: Value, x: nat)
    ensures Prints(ops, Unary(Not, Literal(a)), Bool(a == Nil || a == Bool(false)))
    ensures Prints(ops, Unary(Negate, Literal(Number(x))), Number((ops.negate)(x)))
    ensures !a.Number? ==> Errs(ops, Print(Unary(Negate, Literal(a))))
  {
    hide Prints, Errs;
    PrintUnary(ops, Not, a);
    PrintUnary(ops, Negate, Number(x));
    PrintUnary(ops, Negate, a);
  }

  /** `and` gives its left operand if that is false and else its right one, `or` the other way
    * round, and only that operand is evaluated: the other may be an error. */
  lemma {:induction false} ShortCircuits(ops: Arith, a: Value, b: Value)
    ensures Prints(ops, And(Literal(a), Literal(b)), if a == Nil || a == Bool(false) then a else b)
    ensures Prints(ops, Or(Literal(a), Literal(b)), if a == Nil || a == Bool(false) then b else a)
    ensures var failing := Unary(Negate, Literal(Nil));
      && (a == Nil || a == Bool(false) ==> Prints(ops, And(Literal(a), failing), a))
      && (a != Nil && a != Bool(false) ==> Prints(ops, Or(Literal(a), failing), a))
  {
    hide Prints, ExprUnit;
    LogicOk(a, Literal(b));
    LogicOk(a, Unary(Negate, Literal(Nil)));
    PrintLogic(ops, a, Literal(b));
    PrintLogic(ops, a, Unary(Negate, Literal(Nil)));
  }

  lemma {:induction false} LogicOk(a: Value, e: Expr)
    requires e.Literal? || e == Unary(Negate, Literal(Nil))
    ensures ExprUnit(And(Literal(a), e), SCRIPT_LOCALS, []).ok && ExprUnit(Or(Literal(a), e), SCRIPT_LOCALS, []).ok
  {
    hide ExprUnit, AndCode, OrCode;
    LiteralOk(a, []);
    var constants := ExprUnit(Literal(a), SCRIPT_LOCALS, []).constants;
    RightOk(e, constants);
    AndIs(And(Literal(a), e), SCRIPT_LOCALS, []);
    OrIs(Or(Literal(a), e), SCRIPT_LOCALS, []);
  }

  lemma {:induction false} RightOk(e: Expr, constants: seq<Value>)
    requires (e.Literal? || e == Unary(Negate, Literal(Nil))) && |constants| <= 1
    ensures ExprUnit(e, SCRIPT_LOCALS, constants).ok && |ExprUnit(e, SCRIPT_LOCALS, constants).code| <= 3
  {
    LiteralOk(if e.Literal? then e.value else Nil, constants);
  }

  lemma {:induction false} PrintLogic(ops: Arith, a: Value, e: Expr)
    requires ExprUnit(And(Literal(a), e), SCRIPT_LOCALS, []).ok && ExprUnit(Or(Literal(a), e), SCRIPT_LOCALS, []).ok
    ensures a == Nil || a == Bool(false) ==> Prints(ops, And(Literal(a), e), a)
    ensures a != Nil && a != Bool(false) ==> Prints(ops, Or(Literal(a), e), a)
    ensures e.Literal? && (a == Nil || a == Bool(false)) ==> Prints(ops, Or(Literal(a), e), e.value)
    ensures e.Literal? && a != Nil && a != Bool(false) ==> Prints(ops, And(Literal(a), e), e.value)
  {
    hide Prints, ExprUnit;
    var s := StartState(Nil, map[]);
    assert Eval(ops, Literal(a), s) == Yields(a, s);
    assert e.Literal? ==> Eval(ops, e, s) == Yields(e.value, s);
    PrintOf(ops, And(Literal(a), e));
    PrintOf(ops, Or(Literal(a), e));
    assert Eval(ops, And(Literal(a), e), s) == if Falsey(a) then Yields(a, s) else Eval(ops, e, s);
    assert Eval(ops, Or(Literal(a), e), s) == if !Falsey(a) then Yields(a, s) else Eval(ops, e, s);
  }

  /** `if` runs one branch: the first unless its condition is nil or false. */
  lemma {:induction false} BranchesRun(ops: Arith, a: Value, x: Value, y: Value)
    ensures Outputs(ops, If(Literal(a), Print(Literal(x)), Some(Print(Literal(y)))), [if a == Nil || a == Bool(false) then y else x])
    ensures Outputs(ops, If(Literal(a), Print(Literal(x)), None), if a == Nil || a == Bool(false) then [] else [x])
  {
    hide Outputs;
    BranchRuns(ops, a, x, Some(Print(Literal(y))));
    BranchRuns(ops, a, x, None);
  }

  lemma {:induction false} BranchRuns(ops: Arith, a: Value, x: Value, other: Option<Stmt>)
    requires other.Some? ==> other.value.Print? && other.value.expr.Literal?
    ensures Outputs(ops, If(Literal(a), Print(Literal(x)), other),
      if a != Nil && a != Bool(false) then [x] else if other.Some? then [other.value.expr.value] else [])
  {
    hide Outputs, Errs, ScriptUnit, ExprUnit, StmtUnit, Exec;
    var stmt := If(Literal(a), Print(Literal(x)), other);
    BranchOk(a, x, other);
    SmallScript(stmt);
    RunOf(ops, stmt, 0);
    PrintEnds(ops, x);
    if other.Some? {
      PrintEnds(ops, other.value.expr.value);
    }
    IfExec(ops, a, stmt);
  }

  lemma {:induction false} IfExec(ops: Arith, a: Value, stmt: Stmt)
    requires stmt.If? && stmt.cond == Literal(a)
    ensures var s := StartState(Nil, map[]);
      Exec(ops, stmt, s, 0, 0) == if !Falsey(a) then Exec(ops, stmt.then_, s, 0, 0)
                                  else if stmt.else_.Some? then Exec(ops, stmt.else_.value, s, 0, 0) else Ends(s)
  {
    assert Eval(ops, Literal(a), StartState(Nil, map[])) == Yields(a, StartState(Nil, map[]));
  }

  lemma {:induction false} PrintEnds(ops: Arith, x: Value)
    ensures Exec(ops, Print(Literal(x)), StartState(Nil, map[]), 0, 0) == Ends(StartState(Nil, map[]).(output := [x]))
  {
    var s := StartState(Nil, map[]);
    assert Eval(ops, Literal(x), s) == Yields(x, s) && s.output + [x] == [x];
  }

  lemma {:induction false} BranchOk(a: Value, x: Value, other: Option<Stmt>)
    requires other.Some? ==> other.value.Print? && other.value.expr.Literal?
    ensures StmtUnit(If(Literal(a), Print(Literal(x)), other), SCRIPT_LOCALS, [], 0).unit.ok
  {
    hide ExprUnit, IfCode;
    var stmt := If(Literal(a), Print(Literal(x)), other);
    IfIs(stmt, SCRIPT_LOCALS, [], 0);
    LiteralOk(a, []);
    var c := ExprUnit(Literal(a), SCRIPT_LOCALS, []);
    LiteralOk(x, c.constants);
    var t := ExprUnit(Literal(x), SCRIPT_LOCALS, c.constants);
    assert StmtUnit(Print(Literal(x)), SCRIPT_LOCALS, c.constants, 0) == Scoped(t.(code := t.code + [ByteOf(PrintOp)]), SCRIPT_LOCALS);
    if other.Some? {
      LiteralOk(other.value.expr.value, t.constants);
      var u := ExprUnit(other.value.expr, SCRIPT_LOCALS, t.constants);
      assert StmtUnit(other.value, SCRIPT_LOCALS, t.constants, 0) == Scoped(u.(code := u.code + [ByteOf(PrintOp)]), SCRIPT_LOCALS);
    }
  }

  // ----- loops -----

  /** `for (var n = true; n; n = !n) print n;` */
  function ForOnce(n: string): Stmt
  {
    For(More(Var(n, Some(Literal(Bool(true)))), End), Some(Variable(n)), Some(Flip(n)), Print(Variable(n)))
  }

  function Flip(n: string): Expr
  {
    Assign(n, Unary(Not, Variable(n)))
  }

  /** A `for` loop makes its variable, tests, runs its body, then its step, and tests again; the
    * variable is gone afterwards. */
  lemma {:induction false} ForLoopsRun(ops: Arith, n: string)
    ensures Outputs(ops, ForOnce(n), [Bool(true)])
  {
    hide Outputs, Errs, ScriptUnit, StmtUnit, Exec;
    ForAccepted(n);
    SmallScript(ForOnce(n));
    RunOf(ops, ForOnce(n), 1);
    ForMeans(ops, n);
  }

  function OneLocal(n: string, b: bool, output: seq<Value>): State
  {
    State([Binding("this", Nil), Binding(n, Bool(b))], map[], output)
  }

  lemma {:induction false} LocalIs(ops: Arith, n: string, b: bool, output: seq<Value>)
    ensures var s := OneLocal(n, b, output);
      && Innermost(s.env, n) == Some(1)
      && Eval(ops, Variable(n), s) == Yields(Bool(b), s)
      && Eval(ops, Flip(n), s) == Yields(Bool(!b), OneLocal(n, !b, output))
      && Exec(ops, Print(Variable(n)), s, 1, 1) == Ends(OneLocal(n, b, output + [Bool(b)]))
  {
    var s := OneLocal(n, b, output);
    assert s.env[|s.env| - 1].name == n;
    assert Innermost(s.env, n) == Some(1);
    assert Eval(ops, Variable(n), s) == Yields(Bool(b), s);
    assert Eval(ops, Unary(Not, Variable(n)), s) == Yields(Bool(!b), s);
    assert s.env[1 := Binding(n, Bool(!b))] == OneLocal(n, !b, output).env;
  }

  lemma {:induction false} ForMeans(ops: Arith, n: string)
    ensures Exec(ops, ForOnce(n), StartState(Nil, map[]), 0, 1) == Ends(State(StartState(Nil, map[]).env, map[], [Bool(true)]))
  {
    hide Innermost, Eval;
    var s := StartState(Nil, map[]);
    LocalIs(ops, n, true, []);
    LocalIs(ops, n, false, [Bool(true)]);
    assert [] + [Bool(true)] == [Bool(true)];
    InitMeans(ops, n);
    var body, test, step := Print(Variable(n)), Some(Variable(n)), Some(Flip(n));
    LoopRound(ops, n);
    assert Loop(ops, test, step, body, OneLocal(n, true, []), 1, 1) == Ends(OneLocal(n, false, [Bool(true)]));
    assert OneLocal(n, false, [Bool(true)]).env[..1] == s.env;
  }

  lemma {:induction false} InitMeans(ops: Arith, n: string)
    ensures ExecAll(ops, More(Var(n, Some(Literal(Bool(true)))), End), StartState(Nil, map[]), 1, 1) == Ends(OneLocal(n, true, []))
  {
    var s := StartState(Nil, map[]);
    assert Eval(ops, Literal(Bool(true)), s) == Yields(Bool(true), s);
    assert s.env + [Binding(n, Bool(true))] == OneLocal(n, true, []).env;
    assert ExecDecl(ops, Var(n, Some(Literal(Bool(true)))), s, 1, 1) == Ends(OneLocal(n, true, []));
    assert ExecAll(ops, End, OneLocal(n, true, []), 1, 1) == Ends(OneLocal(n, true, []));
  }

  lemma {:induction false} LoopRound(ops: Arith, n: string)
    ensures var body, test, step := Print(Variable(n)), Some(Variable(n)), Some(Flip(n));
      Loop(ops, test, step, body, OneLocal(n, true, []), 1, 1) == Ends(OneLocal(n, false, [Bool(true)]))
  {
    hide Innermost, Eval, Exec;
    var body, test, step := Print(Variable(n)), Some(Variable(n)), Some(Flip(n));
    LocalIs(ops, n, true, []);
    LocalIs(ops, n, true, [Bool(true)]);
    LocalIs(ops, n, false, [Bool(true)]);
    assert [] + [Bool(true)] == [Bool(true)];
    assert Loop(ops, test, step, body, OneLocal(n, false, [Bool(true)]), 1, 0) == Ends(OneLocal(n, false, [Bool(true)]));
  }

  lemma {:induction false} ForAccepted(n: string)
    ensures StmtUnit(ForOnce(n), SCRIPT_LOCALS, [], 0).unit.ok
  {
    hide StmtUnit, LoopScoped, ExprUnit, DeclsUnit;
    var locals := SCRIPT_LOCALS + [Local(n, 1)];
    ForIs(ForOnce(n), SCRIPT_LOCALS, [], 0);
    InitAccepted(n);
    LoopIs(Some(Variable(n)), Some(Flip(n)), Print(Variable(n)), locals, [], 1);
    PartsAccepted(n);
  }

  lemma {:induction false} InitAccepted(n: string)
    ensures var i := DeclsUnit(More(Var(n, Some(Literal(Bool(true)))), End), SCRIPT_LOCALS, [], 1);
      i.unit.ok && i.unit.constants == [] && i.locals == SCRIPT_LOCALS + [Local(n, 1)]
  {
    var d := Var(n, Some(Literal(Bool(true))));
    var during := Declared(SCRIPT_LOCALS, n);
    assert during == SCRIPT_LOCALS + [Local(n, -1)];
    assert !Redeclared(SCRIPT_LOCALS, n, 1);
    assert Initialized(during, 1) == SCRIPT_LOCALS + [Local(n, 1)];
    var u := ExprUnit(Literal(Bool(true)), during, []);
    assert u.ok && u.constants == [];
    assert DeclUnit(d, SCRIPT_LOCALS, [], 1) == Scoped(u, SCRIPT_LOCALS + [Local(n, 1)]);
  }

  lemma {:induction false} PartsAccepted(n: string)
    ensures var locals := SCRIPT_LOCALS + [Local(n, 1)];
      var test, step, body := ExprUnit(Variable(n), locals, []), ExprUnit(Flip(n), locals, []), StmtUnit(Print(Variable(n)), locals, [], 1).unit;
      && test.ok && test.constants == [] && |test.code| == 2
      && step.ok && step.constants == [] && |step.code| == 5
      && body.ok && body.constants == [] && |body.code| == 3
  {
    var locals := SCRIPT_LOCALS + [Local(n, 1)];
    assert locals[|locals| - 1].name == n;
    assert Resolve(locals, n) == Some(1);
    assert Named(locals, n, []) == Target(true, 1, [], true);
    assert ExprUnit(Variable(n), locals, []) == Unit([ByteOf(GetLocalOp), 1], [], true);
    assert ExprUnit(Unary(Not, Variable(n)), locals, []) == Unit([ByteOf(GetLocalOp), 1, ByteOf(NotOp)], [], true);
  }

  // ----- sequences, scopes and globals -----

  /** A whole program compiles, and its run finishes with these globals and this output. */
  ghost predicate Leaves(ops: Arith, program: Decls, globals: map<string, Value>, output: seq<Value>)
  {
    ScriptUnit(program).ok &&
    exists n :: Steps(ops, ScriptChunk(program), StartRun(Nil, map[]), n) == Finished(globals, output)
  }

  lemma {:induction false} LeavesOf(ops: Arith, program: Decls)
    requires ScriptUnit(program).ok
    ensures var r := ExecAll(ops, program, StartState(Nil, map[]), 0, 0);
      r.Ends? ==> Leaves(ops, program, r.state.globals, r.state.output)
  {
    hide Steps, ScriptUnit, ScriptChunk, StartRun, ExecAll;
    var n := CompiledScriptRuns(ops, program, Nil, map[], 0);
  }

  /** `print x; var n = y; print n;`: statements run in order, and a global keeps what it was given. */
  function DefineAndPrint(n: string, x: Value, y: Value): Decls
  {
    More(Do(Print(Literal(x))), More(Var(n, Some(Literal(y))), More(Do(Print(Variable(n))), End)))
  }

  lemma {:induction false} GlobalsRun(ops: Arith, n: string, x: Value, y: Value)
    requires n != "this"
    ensures Leaves(ops, DefineAndPrint(n, x, y), map[n := y], [x, y])
  {
    hide Leaves, ScriptUnit, ExecAll;
    GlobalsAccepted(n, x, y);
    LeavesOf(ops, DefineAndPrint(n, x, y));
    GlobalsMean(ops, n, x, y);
  }

  lemma {:induction false} GlobalsMean(ops: Arith, n: string, x: Value, y: Value)
    requires n != "this"
    ensures ExecAll(ops, DefineAndPrint(n, x, y), StartState(Nil, map[]), 0, 0) == Ends(State(StartState(Nil, map[]).env, map[n := y], [x, y]))
  {
    hide ExecAll, Innermost;
    var s0 := StartState(Nil, map[]);
    var s1 := s0.(output := [x]);
    var s2 := s1.(globals := map[n := y]);
    var s3 := s2.(output := [x, y]);
    PrintEnds(ops, x);
    assert Eval(ops, Literal(y), s1) == Yields(y, s1);
    assert ExecDecl(ops, Var(n, Some(Literal(y))), s1, 0, 0) == Ends(s2) by { assert map[][n := y] == map[n := y]; }
    assert Innermost(s2.env, n).None?;
    assert Eval(ops, Variable(n), s2) == Yields(y, s2);
    assert Exec(ops, Print(Variable(n)), s2, 0, 0) == Ends(s3) by { assert [x] + [y] == [x, y]; }
    InTurn(ops, Do(Print(Literal(x))), More(Var(n, Some(Literal(y))), More(Do(Print(Variable(n))), End)), s0, s1);
    InTurn(ops, Var(n, Some(Literal(y))), More(Do(Print(Variable(n))), End), s1, s2);
    InTurn(ops, Do(Print(Variable(n))), End, s2, s3);
    AtEnd(ops, s3);
  }

  lemma {:induction false} InTurn(ops: Arith, d: Decl, rest: Decls, s: State, t: State)
    requires ExecDecl(ops, d, s, 0, 0) == Ends(t)
    ensures ExecAll(ops, More(d, rest), s, 0, 0) == ExecAll(ops, rest, t, 0, 0)
  {
    hide ExecDecl;
  }

  lemma {:induction false} AtEnd(ops: Arith, s: State)
    ensures ExecAll(ops, End, s, 0, 0) == Ends(s)
  {
  }

  lemma {:induction false} GlobalsAccepted(n: string, x: Value, y: Value)
    requires n != "this"
    ensures ScriptUnit(DefineAndPrint(n, x, y)).ok
  {
    hide StmtUnit, ExprUnit, DeclsUnit, VarUnit;
    var locals := SCRIPT_LOCALS;
    LiteralOk(x, []);
    var u := ExprUnit(Literal(x), locals, []);
    PrintAccepted(Literal(x), []);
    var named := u.constants + [Text(n)];
    LiteralOk(y, named);
    var v := ExprUnit(Literal(y), locals, named);
    GlobalAccepted(n, y, u.constants);
    NameOk(n, v.constants);
    PrintAccepted(Variable(n), v.constants);
    LastAccepted(Do(Print(Variable(n))), v.constants);
    MoreAccepted(Var(n, Some(Literal(y))), More(Do(Print(Variable(n))), End), u.constants, v.constants);
    MoreAccepted(Do(Print(Literal(x))), More(Var(n, Some(Literal(y))), More(Do(Print(Variable(n))), End)), [], u.constants);
  }

  lemma {:induction false} PrintAccepted(e: Expr, constants: seq<Value>)
    ensures var u := ExprUnit(e, SCRIPT_LOCALS, constants); var d := DeclUnit(Do(Print(e)), SCRIPT_LOCALS, constants, 0);
      d.unit.ok == u.ok && d.unit.constants == u.constants && d.locals == SCRIPT_LOCALS
  {
    hide ExprUnit;
  }

  lemma {:induction false} GlobalAccepted(n: string, y: Value, constants: seq<Value>)
    requires |constants| < 255
    ensures var u := ExprUnit(Literal(y), SCRIPT_LOCALS, constants + [Text(n)]); var d := DeclUnit(Var(n, Some(Literal(y))), SCRIPT_LOCALS, constants, 0);
      d.unit.ok == u.ok && d.unit.constants == u.constants && d.locals == SCRIPT_LOCALS
  {
    hide ExprUnit;
  }

  lemma {:induction false} NameOk(n: string, constants: seq<Value>)
    requires n != "this" && |constants| < 256
    ensures ExprUnit(Variable(n), SCRIPT_LOCALS, constants).ok
  {
    assert SCRIPT_LOCALS[0].name == "this";
    assert Resolve(SCRIPT_LOCALS, n).None?;
  }

  lemma {:induction false} LastAccepted(d: Decl, constants: seq<Value>)
    requires DeclUnit(d, SCRIPT_LOCALS, constants, 0).unit.ok
    ensures DeclsUnit(More(d, End), SCRIPT_LOCALS, constants, 0).unit.ok
  {
    hide DeclUnit;
    var first := DeclUnit(d, SCRIPT_LOCALS, constants, 0);
    assert DeclsUnit(End, first.locals, first.unit.constants, 0).unit.ok;
  }

  lemma {:induction false} MoreAccepted(d: Decl, rest: Decls, constants: seq<Value>, after: seq<Value>)
    requires var first := DeclUnit(d, SCRIPT_LOCALS, constants, 0);
      first.unit.ok && first.locals == SCRIPT_LOCALS && first.unit.constants == after
    requires DeclsUnit(rest, SCRIPT_LOCALS, after, 0).unit.ok
    ensures DeclsUnit(More(d, rest), SCRIPT_LOCALS, constants, 0).unit.ok
  {
    hide DeclUnit;
  }

  /** Reading or assigning a global that was never defined is a runtime error. */
  lemma {:induction false} UndefinedGlobalsErr(ops: Arith, n: string, x: Value)
    requires n != "this"
    ensures Errs(ops, Print(Variable(n))) && Errs(ops, Print(Assign(n, Literal(x))))
  {
    hide Errs, Prints, ExprUnit;
    var s := StartState(Nil, map[]);
    assert Innermost(s.env, n).None? by { assert s.env[0].name == "this"; }
    NameOk(n, []);
    AssignOk(n, x);
    PrintOf(ops, Variable(n));
    PrintOf(ops, Assign(n, Literal(x)));
    assert Eval(ops, Variable(n), s) == Fails(s);
    assert Eval(ops, Literal(x), s) == Yields(x, s);
    assert Eval(ops, Assign(n, Literal(x)), s) == Fails(s);
  }

  lemma {:induction false} AssignOk(n: string, x: Value)
    requires n != "this"
    ensures ExprUnit(Assign(n, Literal(x)), SCRIPT_LOCALS, []).ok
  {
    hide LiteralUnit, BinaryCode, AndCode, OrCode, ByteOf;
    assert SCRIPT_LOCALS[0].name == "this";
    assert Resolve(SCRIPT_LOCALS, n).None?;
    LiteralOk(x, [Text(n)]);
    assert Named(SCRIPT_LOCALS, n, []) == Target(false, 0, [] + [Text(n)], true);
    assert [] + [Text(n)] == [Text(n)];
  }

  // ----- bytes -----

  /** Two scripts to the byte: constants by index, the operator after its operands, jumps with the
    * high byte of their distance first, and the return at the end. */
  lemma {:induction false} SumInBytes(x: nat, y: nat)
    ensures ScriptUnit(Script(Print(Binary(Add, Literal(Number(x)), Literal(Number(y)))))) ==
      Unit([0, 0, 0, 1, 18, 24, 1, 33], [Number(x), Number(y)], true)
  {
    hide StmtUnit, ExprUnit;
    var e := Binary(Add, Literal(Number(x)), Literal(Number(y)));
    SumUnit(x, y);
    ScriptOf(Print(e), Unit([0, 0, 0, 1, 18], [Number(x), Number(y)], true), 24);
  }

  lemma {:induction false} SumUnit(x: nat, y: nat)
    ensures ExprUnit(Binary(Add, Literal(Number(x)), Literal(Number(y))), SCRIPT_LOCALS, []) ==
      Unit([0, 0, 0, 1, 18], [Number(x), Number(y)], true)
  {
    assert ExprUnit(Literal(Number(x)), SCRIPT_LOCALS, []) == Unit([0, 0], [Number(x)], true);
    assert ExprUnit(Literal(Number(y)), SCRIPT_LOCALS, [Number(x)]) == Unit([0, 1], [Number(x), Number(y)], true);
    assert [0 as Byte, 0] + ([0, 1] + [18]) == [0, 0, 0, 1, 18];
  }

  lemma {:induction false} ScriptOf(stmt: Stmt, u: Unit, last: Byte)
    requires (stmt.Print? && last == 24) || (stmt.Evaluate? && last == 4)
    requires ExprUnit(stmt.expr, SCRIPT_LOCALS, []) == u
    ensures ScriptUnit(Script(stmt)) == Unit(u.code + [last, 1, 33], u.constants, u.ok)
  {
    hide ExprUnit;
    var v := u.(code := u.code + [last]);
    assert StmtUnit(stmt, SCRIPT_LOCALS, [], 0) == Scoped(v, SCRIPT_LOCALS);
    assert DeclUnit(Do(stmt), SCRIPT_LOCALS, [], 0) == Scoped(v, SCRIPT_LOCALS);
    assert DeclsUnit(End, SCRIPT_LOCALS, v.constants, 0) == Scoped(Unit([], v.constants, true), SCRIPT_LOCALS);
    assert v.code + [] == v.code;
    assert DeclsUnit(Script(stmt), SCRIPT_LOCALS, [], 0) == Scoped(v, SCRIPT_LOCALS);
    assert v.code + [1, 33] == u.code + [last, 1, 33];
  }

  lemma {:induction false} LogicInBytes()
    ensures ScriptUnit(Script(Evaluate(And(Literal(Nil), Literal(Bool(true)))))) == Unit([1, 26, 0, 2, 4, 2, 4, 1, 33], [], true)
  {
    hide ExprUnit, StmtUnit, ScriptUnit, JumpCode, AndCode;
    var e := And(Literal(Nil), Literal(Bool(true)));
    SimpleLiterals();
    AndBytes();
    AndIs(e, SCRIPT_LOCALS, []);
    ScriptOf(Evaluate(e), Unit([1, 26, 0, 2, 4, 2], [], true), 4);
  }

  lemma {:induction false} SimpleLiterals()
    ensures ExprUnit(Literal(Nil), SCRIPT_LOCALS, []) == Unit([1], [], true)
    ensures ExprUnit(Literal(Bool(true)), SCRIPT_LOCALS, []) == Unit([2], [], true)
  {
  }

  lemma {:induction false} AndBytes()
    ensures AndCode([1], [2], 2) == [1, 26, 0, 2, 4, 2]
  {
    assert JumpCode(JumpIfFalseOp, 2) == [26, 0, 2];
  }
}
