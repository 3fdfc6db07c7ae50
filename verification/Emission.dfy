/** What the compiler emits for each construct, as code that does not depend on where it
  * ends up: every jump is relative.
  */
module Emission {
  import opened Options
  import opened Lox
  import opened Bytecode

  const MAX_LOCALS := 256
  const MAX_JUMP := 0xffff

  /** A local variable of the function being compiled; depth -1 while its initializer is
    * being compiled. */
  datatype Local = Local(name: string, depth: int)

  /** Code, the constant table once it has been emitted, and whether no error was reported. */
  datatype Unit = Unit(code: seq<Byte>, constants: seq<Value>, ok: bool)

  /** The same with the locals in scope afterwards. */
  datatype Scoped = Scoped(unit: Unit, locals: seq<Local>)

  predicate Extends(longer: seq<Value>, shorter: seq<Value>)
  {
    |shorter| <= |longer| && forall i :: 0 <= i < |shorter| ==> longer[i] == shorter[i]
  }

  /** resolveLocal */
  function Resolve(locals: seq<Local>, name: string): (r: Option<nat>)
    ensures r.Some? ==> r.value < |locals| && locals[r.value].name == name
    ensures r.Some? ==> forall i :: r.value < i < |locals| ==> locals[i].name != name
    ensures r.None? ==> forall i :: 0 <= i < |locals| ==> locals[i].name != name
  {
    if locals == [] then None
    else if locals[|locals| - 1].name == name then Some(|locals| - 1)
    else Resolve(locals[..|locals| - 1], name)
  }

  /** makeConstant: the index is 0 when the table is full. */
  function ConstantIndex(constants: seq<Value>): Byte
  {
    if |constants| < 256 then |constants| else 0
  }

  function ConstantUnit(op: Op, v: Value, constants: seq<Value>): Unit
  {
    Unit([ByteOf(op), ConstantIndex(constants)], constants + [v], |constants| < 256)
  }

  function JumpCode(op: Op, jump: nat): (code: seq<Byte>)
    ensures |code| == 3
  {
    [ByteOf(op), High(jump), Low(jump)]
  }

  function LiteralUnit(v: Value, constants: seq<Value>): Unit
  {
    match v
    case Nil => Unit([ByteOf(NilOp)], constants, true)
    case Bool(b) => Unit([ByteOf(if b then TrueOp else FalseOp)], constants, true)
    case _ => ConstantUnit(ConstantOp, v, constants)
  }

  function BinaryCode(op: BinaryOp): seq<Byte>
  {
    match op
    case Equal => [ByteOf(EqualOp)]
    case NotEqual => [ByteOf(EqualOp), ByteOf(NotOp)]
    case Less => [ByteOf(LessOp)]
    case LessEqual => [ByteOf(GreaterOp), ByteOf(NotOp)]
    case Greater => [ByteOf(GreaterOp)]
    case GreaterEqual => [ByteOf(LessOp), ByteOf(NotOp)]
    case Add => [ByteOf(AddOp)]
    case Subtract => [ByteOf(SubtractOp)]
    case Multiply => [ByteOf(MultiplyOp)]
    case Divide => [ByteOf(DivideOp)]
  }

  /** and_ and or_, given the code of their operands. */
  function AndCode(l: seq<Byte>, r: seq<Byte>, jump: nat): (code: seq<Byte>)
    ensures |code| == |l| + 4 + |r|
  {
    l + (JumpCode(JumpIfFalseOp, jump) + ([ByteOf(PopOp)] + r))
  }

  function OrCode(l: seq<Byte>, r: seq<Byte>, jump: nat): (code: seq<Byte>)
    ensures |code| == |l| + 7 + |r|
  {
    l + (JumpCode(JumpIfFalseOp, 3) + (JumpCode(JumpOp, jump) + ([ByteOf(PopOp)] + r)))
  }

  /** namedVariable, up to its operand: the table after a global's name was entered, the
    * operand, and whether a local is read in its own initializer. */
  datatype Target = Target(isLocal: bool, arg: Byte, constants: seq<Value>, ok: bool)

  function Named(locals: seq<Local>, name: string, constants: seq<Value>): Target
  {
    var i := Resolve(locals, name);
    if i.Some? then Target(true, i.value % 256, constants, locals[i.value].depth != -1)
    else Target(false, ConstantIndex(constants), constants + [Text(name)], |constants| < 256)
  }

  function ExprUnit(e: Expr, locals: seq<Local>, constants: seq<Value>): (u: Unit)
    ensures Extends(u.constants, constants)
    decreases e
  {
    match e
    case Literal(v) => LiteralUnit(v, constants)
    case Variable(name) =>
      var t := Named(locals, name, constants);
      Unit([ByteOf(if t.isLocal then GetLocalOp else GetGlobalOp), t.arg], t.constants, t.ok)
    case Assign(name, e1) =>
      var t := Named(locals, name, constants);
      var u := ExprUnit(e1, locals, t.constants);
      Unit(u.code + [ByteOf(if t.isLocal then SetLocalOp else SetGlobalOp), t.arg], u.constants, t.ok && u.ok)
    case Unary(op, e1) =>
      var u := ExprUnit(e1, locals, constants);
      Unit(u.code + [ByteOf(if op.Not? then NotOp else NegateOp)], u.constants, u.ok)
    case Binary(op, left, right) =>
      var l := ExprUnit(left, locals, constants);
      var r := ExprUnit(right, locals, l.constants);
      Unit(l.code + (r.code + BinaryCode(op)), r.constants, l.ok && r.ok)
    case And(left, right) =>
      var l := ExprUnit(left, locals, constants);
      var r := ExprUnit(right, locals, l.constants);
      var jump := 1 + |r.code|;
      Unit(AndCode(l.code, r.code, jump), r.constants, l.ok && r.ok && jump <= MAX_JUMP)
    case Or(left, right) =>
      var l := ExprUnit(left, locals, constants);
      var r := ExprUnit(right, locals, l.constants);
      var jump := 1 + |r.code|;
      Unit(OrCode(l.code, r.code, jump), r.constants, l.ok && r.ok && jump <= MAX_JUMP)
  }

  lemma {:induction false} AndIs(e: Expr, locals: seq<Local>, constants: seq<Value>)
    requires e.And?
    ensures var l := ExprUnit(e.left, locals, constants); var r := ExprUnit(e.right, locals, l.constants);
      ExprUnit(e, locals, constants) == Unit(AndCode(l.code, r.code, 1 + |r.code|), r.constants, l.ok && r.ok && 1 + |r.code| <= MAX_JUMP)
  {
    hide AndCode, OrCode;
  }

  lemma {:induction false} BinaryIs(e: Expr, locals: seq<Local>, constants: seq<Value>)
    requires e.Binary?
    ensures var l := ExprUnit(e.left, locals, constants); var r := ExprUnit(e.right, locals, l.constants);
      ExprUnit(e, locals, constants) == Unit(l.code + (r.code + BinaryCode(e.op2)), r.constants, l.ok && r.ok)
  {
    hide AndCode, OrCode, BinaryCode;
  }

  lemma {:induction false} OrIs(e: Expr, locals: seq<Local>, constants: seq<Value>)
    requires e.Or?
    ensures var l := ExprUnit(e.left, locals, constants); var r := ExprUnit(e.right, locals, l.constants);
      ExprUnit(e, locals, constants) == Unit(OrCode(l.code, r.code, 1 + |r.code|), r.constants, l.ok && r.ok && 1 + |r.code| <= MAX_JUMP)
  {
    hide AndCode, OrCode;
  }

  /** Whether a name is taken in the present scope. */
  predicate Redeclared(locals: seq<Local>, name: string, depth: nat)
  {
    locals != [] &&
    var last := locals[|locals| - 1];
    !(last.depth != -1 && last.depth < depth) && (last.name == name || Redeclared(locals[..|locals| - 1], name, depth))
  }

  /** declareVariable, in a scope: there is room for 256 locals. */
  function Declared(locals: seq<Local>, name: string): seq<Local>
  {
    if |locals| < MAX_LOCALS then locals + [Local(name, -1)] else locals
  }

  /** markInitialized, in a scope. */
  function Initialized(locals: seq<Local>, depth: nat): seq<Local>
  {
    if locals == [] then [] else locals[|locals| - 1 := locals[|locals| - 1].(depth := depth)]
  }

  /** endScope: the locals that stay, once the deeper ones have been dropped. */
  function Outer(locals: seq<Local>, depth: nat): (r: seq<Local>)
    ensures |r| <= |locals| && r == locals[..|r|]
  {
    if locals == [] || locals[|locals| - 1].depth <= depth then locals else Outer(locals[..|locals| - 1], depth)
  }

  function Pops(n: nat): seq<Byte>
  {
    seq(n, i => ByteOf(PopOp))
  }

  function OptExprUnit(e: Option<Expr>, locals: seq<Local>, constants: seq<Value>): (u: Unit)
    ensures Extends(u.constants, constants)
  {
    if e.Some? then ExprUnit(e.value, locals, constants) else Unit([], constants, true)
  }

  function EndScope(s: Scoped, depth: nat): Scoped
  {
    var outer := Outer(s.locals, depth);
    Scoped(s.unit.(code := s.unit.code + Pops(|s.locals| - |outer|)), outer)
  }

  /** The parts of a loop, laid out as whileStatement and forStatement lay them out: the
    * test and a jump out, the step behind a jump over it, the body, and the jump back to
    * the step or else to the test. */
  datatype Layout = Layout(hasTest: bool, hasStep: bool, test: seq<Byte>, step: seq<Byte>, body: seq<Byte>)
  {
    function Head(): nat
    {
      if hasTest then |test| + 4 else 0
    }

    function Middle(): nat
    {
      if hasStep then |step| + 7 else 0
    }

    function Exit(): nat
    {
      1 + Middle() + |body| + 3
    }

    function Again(): nat
    {
      if hasStep then |step| + 4 + |body| + 3 else Head() + |body| + 3
    }

    function TestCode(): (code: seq<Byte>)
      ensures |code| == Head()
    {
      if hasTest then test + (JumpCode(JumpIfFalseOp, Exit()) + [ByteOf(PopOp)]) else []
    }

    function StepCode(): (code: seq<Byte>)
      ensures |code| == Middle()
    {
      if hasStep then JumpCode(JumpOp, |step| + 4) + (step + ([ByteOf(PopOp)] + JumpCode(LoopOp, Head() + Middle()))) else []
    }

    function EndCode(): seq<Byte>
    {
      JumpCode(LoopOp, Again()) + if hasTest then [ByteOf(PopOp)] else []
    }

    function Code(): (code: seq<Byte>)
      ensures |code| == Head() + Middle() + |body| + 3 + if hasTest then 1 else 0
    {
      TestCode() + (StepCode() + (body + EndCode()))
    }

    predicate Fits()
    {
      && Again() <= MAX_JUMP
      && (hasStep ==> |step| + 4 <= MAX_JUMP && Head() + Middle() <= MAX_JUMP)
      && (hasTest ==> Exit() <= MAX_JUMP)
    }
  }

  function LoopUnit(hasTest: bool, hasStep: bool, test: Unit, step: Unit, body: Unit): Unit
  {
    var layout := Layout(hasTest, hasStep, test.code, step.code, body.code);
    Unit(layout.Code(), body.constants, test.ok && step.ok && body.ok && layout.Fits())
  }

  /** ifStatement, given the code of its parts. */
  function IfCode(cond: seq<Byte>, then_: seq<Byte>, else_: seq<Byte>): (code: seq<Byte>)
    ensures |code| == |cond| + 4 + |then_| + 4 + |else_|
  {
    cond + (JumpCode(JumpIfFalseOp, |then_| + 4) + ([ByteOf(PopOp)] + (then_
      + (JumpCode(JumpOp, |else_| + 1) + ([ByteOf(PopOp)] + else_)))))
  }

  function StmtUnit(stmt: Stmt, locals: seq<Local>, constants: seq<Value>, depth: nat): (r: Scoped)
    ensures Extends(r.unit.constants, constants)
    decreases stmt, 0
  {
    match stmt
    case Evaluate(e) =>
      var u := ExprUnit(e, locals, constants);
      Scoped(u.(code := u.code + [ByteOf(PopOp)]), locals)
    case Print(e) =>
      var u := ExprUnit(e, locals, constants);
      Scoped(u.(code := u.code + [ByteOf(PrintOp)]), locals)
    case Block(decls) => EndScope(DeclsUnit(decls, locals, constants, depth + 1), depth)
    case If(cond, then_, else_) =>
      var c := ExprUnit(cond, locals, constants);
      var t := StmtUnit(then_, locals, c.constants, depth);
      var f := if else_.Some? then StmtUnit(else_.value, t.locals, t.unit.constants, depth) else Scoped(Unit([], t.unit.constants, true), t.locals);
      Scoped(Unit(IfCode(c.code, t.unit.code, f.unit.code), f.unit.constants,
                  c.ok && t.unit.ok && f.unit.ok && |t.unit.code| + 4 <= MAX_JUMP && |f.unit.code| + 1 <= MAX_JUMP), f.locals)
    case While(cond, body) => LoopScoped(Some(cond), None, body, locals, constants, depth)
    case For(init, test, step, body) =>
      var i := DeclsUnit(init, locals, constants, depth + 1);
      var l := LoopScoped(test, step, body, i.locals, i.unit.constants, depth + 1);
      EndScope(Scoped(Unit(i.unit.code + l.unit.code, l.unit.constants, i.unit.ok && l.unit.ok), l.locals), depth)
  }

  function LoopScoped(test: Option<Expr>, step: Option<Expr>, body: Stmt, locals: seq<Local>, constants: seq<Value>, depth: nat): (r: Scoped)
    ensures Extends(r.unit.constants, constants)
    decreases body, 1
  {
    var t := OptExprUnit(test, locals, constants);
    var s := OptExprUnit(step, locals, t.constants);
    var b := StmtUnit(body, locals, s.constants, depth);
    Scoped(LoopUnit(test.Some?, step.Some?, t, s, b.unit), b.locals)
  }

  function InitUnit(init: Option<Expr>, locals: seq<Local>, constants: seq<Value>): (u: Unit)
    ensures Extends(u.constants, constants)
  {
    if init.Some? then ExprUnit(init.value, locals, constants) else LiteralUnit(Nil, constants)
  }

  function VarUnit(name: string, init: Option<Expr>, locals: seq<Local>, constants: seq<Value>, depth: nat): (r: Scoped)
    ensures Extends(r.unit.constants, constants)
  {
    if depth == 0 then
      var index := ConstantIndex(constants);
      var u := InitUnit(init, locals, constants + [Text(name)]);
      Scoped(Unit(u.code + [ByteOf(DefineGlobalOp), index], u.constants, u.ok && |constants| < 256), locals)
    else
      var during := Declared(locals, name);
      var u := InitUnit(init, during, constants);
      Scoped(u.(ok := u.ok && !Redeclared(locals, name, depth) && |locals| < MAX_LOCALS), Initialized(during, depth))
  }

  function DeclUnit(d: Decl, locals: seq<Local>, constants: seq<Value>, depth: nat): (r: Scoped)
    ensures Extends(r.unit.constants, constants)
    decreases d
  {
    match d
    case Do(stmt) => StmtUnit(stmt, locals, constants, depth)
    case Var(name, init) => VarUnit(name, init, locals, constants, depth)
  }

  function DeclsUnit(ds: Decls, locals: seq<Local>, constants: seq<Value>, depth: nat): (r: Scoped)
    ensures Extends(r.unit.constants, constants)
    decreases ds
  {
    match ds
    case End => Scoped(Unit([], constants, true), locals)
    case More(d, rest) =>
      var first := DeclUnit(d, locals, constants, depth);
      var others := DeclsUnit(rest, first.locals, first.unit.constants, depth);
      Scoped(Unit(first.unit.code + others.unit.code, others.unit.constants, first.unit.ok && others.unit.ok), others.locals)
  }

  // ----- one construct at a time -----

  lemma {:induction false} BlockIs(stmt: Stmt, locals: seq<Local>, constants: seq<Value>, depth: nat)
    requires stmt.Block?
    ensures StmtUnit(stmt, locals, constants, depth) == EndScope(DeclsUnit(stmt.decls, locals, constants, depth + 1), depth)
  {
  }

  lemma {:induction false} ForIs(stmt: Stmt, locals: seq<Local>, constants: seq<Value>, depth: nat)
    requires stmt.For?
    ensures var i := DeclsUnit(stmt.init, locals, constants, depth + 1);
      var l := LoopScoped(stmt.test, stmt.step, stmt.body, i.locals, i.unit.constants, depth + 1);
      StmtUnit(stmt, locals, constants, depth) ==
      EndScope(Scoped(Unit(i.unit.code + l.unit.code, l.unit.constants, i.unit.ok && l.unit.ok), l.locals), depth)
  {
  }

  lemma {:induction false} IfIs(stmt: Stmt, locals: seq<Local>, constants: seq<Value>, depth: nat)
    requires stmt.If?
    ensures var c := ExprUnit(stmt.cond, locals, constants);
      var t := StmtUnit(stmt.then_, locals, c.constants, depth);
      var f := if stmt.else_.Some? then StmtUnit(stmt.else_.value, t.locals, t.unit.constants, depth) else Scoped(Unit([], t.unit.constants, true), t.locals);
      StmtUnit(stmt, locals, constants, depth) ==
      Scoped(Unit(IfCode(c.code, t.unit.code, f.unit.code), f.unit.constants,
                  c.ok && t.unit.ok && f.unit.ok && |t.unit.code| + 4 <= MAX_JUMP && |f.unit.code| + 1 <= MAX_JUMP), f.locals)
  {
  }

  lemma {:induction false} LoopIs(test: Option<Expr>, step: Option<Expr>, body: Stmt, locals: seq<Local>, constants: seq<Value>, depth: nat)
    ensures var t := OptExprUnit(test, locals, constants); var s := OptExprUnit(step, locals, t.constants);
      var b := StmtUnit(body, locals, s.constants, depth);
      LoopScoped(test, step, body, locals, constants, depth) == Scoped(LoopUnit(test.Some?, step.Some?, t, s, b.unit), b.locals)
  {
  }

  const SCRIPT_LOCALS := [Local("this", 0)]

  /** compile: a whole script, ending in the return of endCompiler. */
  function ScriptUnit(program: Decls): Unit
  {
    var u := DeclsUnit(program, SCRIPT_LOCALS, [], 0).unit;
    u.(code := u.code + [ByteOf(NilOp), ByteOf(ReturnOp)])
  }
}
