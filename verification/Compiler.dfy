/** The single-pass compiler: one instruction stream that is appended to, and in which the
  * operands of forward jumps are overwritten once their targets are known.
  */
module Compiler {
  import opened Options
  import opened Lox
  import opened Bytecode
  import opened Emission
  import opened Declarations

  /** A placeholder overwritten in the middle of the code. */
  function Patched(code: seq<Byte>, at: nat, jump: nat): seq<Byte>
    requires at + 1 < |code|
  {
    code[at := High(jump)][at + 1 := Low(jump)]
  }

  function Placeholder(op: Op): (code: seq<Byte>)
    ensures |code| == 3
  {
    [ByteOf(op), 0xff, 0xff]
  }

  lemma {:induction false} PatchedJump(before: seq<Byte>, op: Op, after: seq<Byte>, jump: nat)
    ensures |before + Placeholder(op) + after| == |before| + 3 + |after|
    ensures Patched(before + Placeholder(op) + after, |before| + 1, jump) == before + JumpCode(op, jump) + after
  {
  }

  // ----- how the patched code reads in the end -----

  lemma {:induction false} AndAssembles(code: seq<Byte>, l: seq<Byte>, r: seq<Byte>)
    ensures var x := code + l + Placeholder(JumpIfFalseOp) + [ByteOf(PopOp)] + r;
      |x| == |code| + |l| + 4 + |r| && Patched(x, |code| + |l| + 1, |r| + 1) == code + AndCode(l, r, |r| + 1)
  {
    hide JumpCode, Patched, Placeholder;
    var before, after := code + l, [ByteOf(PopOp)] + r;
    assert code + l + Placeholder(JumpIfFalseOp) + [ByteOf(PopOp)] + r == before + Placeholder(JumpIfFalseOp) + after;
    PatchedJump(before, JumpIfFalseOp, after, |r| + 1);
    assert before + JumpCode(JumpIfFalseOp, |r| + 1) + after == code + AndCode(l, r, |r| + 1);
  }

  lemma {:induction false} OrAssembles(code: seq<Byte>, l: seq<Byte>, r: seq<Byte>)
    ensures var x := code + l + Placeholder(JumpIfFalseOp) + Placeholder(JumpOp);
      |x| == |code| + |l| + 6 && Patched(x, |code| + |l| + 1, 3) == code + l + JumpCode(JumpIfFalseOp, 3) + Placeholder(JumpOp)
    ensures var y := code + l + JumpCode(JumpIfFalseOp, 3) + Placeholder(JumpOp) + [ByteOf(PopOp)] + r;
      |y| == |code| + |l| + 7 + |r| && Patched(y, |code| + |l| + 4, |r| + 1) == code + OrCode(l, r, |r| + 1)
  {
    hide JumpCode, Patched, Placeholder;
    PatchedJump(code + l, JumpIfFalseOp, Placeholder(JumpOp), 3);
    var before, after := code + l + JumpCode(JumpIfFalseOp, 3), [ByteOf(PopOp)] + r;
    assert code + l + JumpCode(JumpIfFalseOp, 3) + Placeholder(JumpOp) + [ByteOf(PopOp)] + r == before + Placeholder(JumpOp) + after;
    PatchedJump(before, JumpOp, after, |r| + 1);
    assert before + JumpCode(JumpOp, |r| + 1) + after == code + OrCode(l, r, |r| + 1);
  }

  lemma {:induction false} IfAssembles(code: seq<Byte>, c: seq<Byte>, t: seq<Byte>, f: seq<Byte>)
    ensures var x := code + c + Placeholder(JumpIfFalseOp) + [ByteOf(PopOp)] + t + Placeholder(JumpOp);
      |x| == |code| + |c| + 7 + |t|
      && Patched(x, |code| + |c| + 1, |t| + 4) == code + c + JumpCode(JumpIfFalseOp, |t| + 4) + [ByteOf(PopOp)] + t + Placeholder(JumpOp)
    ensures var y := code + c + JumpCode(JumpIfFalseOp, |t| + 4) + [ByteOf(PopOp)] + t + Placeholder(JumpOp) + [ByteOf(PopOp)] + f;
      |y| == |code| + |c| + 8 + |t| + |f| && Patched(y, |code| + |c| + 5 + |t|, |f| + 1) == code + IfCode(c, t, f)
  {
    hide JumpCode, Patched, Placeholder;
    var pop := [ByteOf(PopOp)];
    var middle := pop + t + Placeholder(JumpOp);
    assert code + c + Placeholder(JumpIfFalseOp) + pop + t + Placeholder(JumpOp) == code + c + Placeholder(JumpIfFalseOp) + middle;
    PatchedJump(code + c, JumpIfFalseOp, middle, |t| + 4);
    var start := code + c + JumpCode(JumpIfFalseOp, |t| + 4);
    assert start + middle == start + pop + t + Placeholder(JumpOp);
    var before, after := start + pop + t, pop + f;
    assert start + pop + t + Placeholder(JumpOp) + pop + f == before + Placeholder(JumpOp) + after;
    PatchedJump(before, JumpOp, after, |f| + 1);
    IfReads(code, c, t, f);
  }

  lemma {:induction false} IfReads(code: seq<Byte>, c: seq<Byte>, t: seq<Byte>, f: seq<Byte>)
    ensures code + IfCode(c, t, f) ==
      code + c + JumpCode(JumpIfFalseOp, |t| + 4) + [ByteOf(PopOp)] + t + JumpCode(JumpOp, |f| + 1) + ([ByteOf(PopOp)] + f)
  {
    hide JumpCode;
  }

  lemma {:induction false} StepAssembles(code: seq<Byte>, s: seq<Byte>, back: nat)
    ensures var x := code + Placeholder(JumpOp) + s + [ByteOf(PopOp)] + JumpCode(LoopOp, back);
      |x| == |code| + 7 + |s|
      && Patched(x, |code| + 1, |s| + 4) == code + (JumpCode(JumpOp, |s| + 4) + (s + ([ByteOf(PopOp)] + JumpCode(LoopOp, back))))
  {
    hide JumpCode, Patched, Placeholder;
    var after := s + ([ByteOf(PopOp)] + JumpCode(LoopOp, back));
    assert code + Placeholder(JumpOp) + s + [ByteOf(PopOp)] + JumpCode(LoopOp, back) == code + Placeholder(JumpOp) + after;
    PatchedJump(code, JumpOp, after, |s| + 4);
    assert code + JumpCode(JumpOp, |s| + 4) + after == code + (JumpCode(JumpOp, |s| + 4) + after);
  }

  /** A loop with a test: the jump out is patched last. */
  lemma {:induction false} LoopAssembles(code: seq<Byte>, l: Layout)
    requires l.hasTest
    ensures var x := code + l.test + Placeholder(JumpIfFalseOp) + [ByteOf(PopOp)] + l.StepCode() + l.body + JumpCode(LoopOp, l.Again());
      |x| == |code| + l.Head() + l.Middle() + |l.body| + 3
      && Patched(x, |code| + |l.test| + 1, l.Exit()) + [ByteOf(PopOp)] == code + l.Code()
  {
    hide JumpCode, Patched, Placeholder, Layout.StepCode;
    var pop, back := [ByteOf(PopOp)], JumpCode(LoopOp, l.Again());
    var before, after := code + l.test, pop + l.StepCode() + l.body + back;
    assert code + l.test + Placeholder(JumpIfFalseOp) + pop + l.StepCode() + l.body + back == before + Placeholder(JumpIfFalseOp) + after;
    PatchedJump(before, JumpIfFalseOp, after, l.Exit());
    LoopReads(code, l);
  }

  lemma {:induction false} LoopReads(code: seq<Byte>, l: Layout)
    ensures code + l.Code() ==
      if l.hasTest
      then code + l.test + JumpCode(JumpIfFalseOp, l.Exit()) + ([ByteOf(PopOp)] + l.StepCode() + l.body + JumpCode(LoopOp, l.Again())) + [ByteOf(PopOp)]
      else code + l.StepCode() + l.body + JumpCode(LoopOp, l.Again())
  {
    hide JumpCode, Layout.StepCode;
  }

  class Compiler {
    var code: seq<Byte>
    var constants: seq<Value>
    var locals: seq<Local>
    var scopeDepth: nat
    var hadError: bool

    /** The table of locals has 256 places. */
    ghost predicate Valid()
      reads this
    {
      |locals| <= MAX_LOCALS
    }

    /** What has been emitted since: the code of a construct, and its errors. */
    ghost predicate Emitted(code0: seq<Byte>, hadError0: bool, u: Unit)
      reads this
    {
      code == code0 + u.code && constants == u.constants && hadError == (hadError0 || !u.ok)
    }

    /** initCompiler for a script. */
    constructor ()
      ensures code == [] && constants == [] && locals == SCRIPT_LOCALS && scopeDepth == 0 && !hadError
    {
      code, constants, locals, scopeDepth, hadError := [], [], SCRIPT_LOCALS, 0, false;
    }

    method Error()
      modifies this`hadError
      ensures hadError
    {
      hadError := true;
    }

    method EmitByte(b: Byte)
      modifies this`code
      ensures code == old(code) + [b]
    {
      code := code + [b];
    }

    method EmitOp(op: Op)
      modifies this`code
      ensures code == old(code) + [ByteOf(op)]
    {
      EmitByte(ByteOf(op));
    }

    /** emitJump: the operand is filled in later. */
    method EmitJump(op: Op) returns (offset: nat)
      modifies this`code
      ensures code == old(code) + Placeholder(op) && offset == |old(code)| + 1
    {
      EmitOp(op);
      EmitByte(0xff);
      EmitByte(0xff);
      offset := |code| - 2;
    }

    /** patchJump: the jump will land at the present end of the code. */
    method PatchJump(offset: nat)
      requires offset + 2 <= |code|
      modifies this`code, this`hadError
      ensures code == Patched(old(code), offset, |old(code)| - offset - 2)
      ensures hadError == (old(hadError) || |old(code)| - offset - 2 > MAX_JUMP)
    {
      var jump := |code| - offset - 2;
      if jump > MAX_JUMP {
        Error();
      }
      code := code[offset := jump / 256 % 256];
      code := code[offset + 1 := jump % 256];
    }

    /** emitLoop: a jump back to a place already emitted. */
    method EmitLoop(loopStart: nat)
      requires loopStart <= |code|
      modifies this`code, this`hadError
      ensures var back := |old(code)| + 3 - loopStart;
        code == old(code) + JumpCode(LoopOp, back) && hadError == (old(hadError) || back > MAX_JUMP)
    {
      EmitOp(LoopOp);
      var offset := |code| - loopStart + 2;
      if offset > MAX_JUMP {
        Error();
      }
      EmitByte(offset / 256 % 256);
      EmitByte(offset % 256);
    }

    method MakeConstant(v: Value) returns (index: Byte)
      modifies this`constants, this`hadError
      ensures index == ConstantIndex(old(constants)) && constants == old(constants) + [v]
      ensures hadError == (old(hadError) || |old(constants)| >= 256)
    {
      constants := constants + [v];
      var constant := |constants| - 1;
      if constant > 255 {
        Error();
        return 0;
      }
      index := constant;
    }

    method BeginScope()
      modifies this`scopeDepth
      ensures scopeDepth == old(scopeDepth) + 1
    {
      scopeDepth := scopeDepth + 1;
    }

    method EndScope()
      requires scopeDepth > 0
      modifies this`scopeDepth, this`code, this`locals
      ensures scopeDepth == old(scopeDepth) - 1 && locals == Outer(old(locals), scopeDepth)
      ensures code == old(code) + Pops(|old(locals)| - |locals|)
    {
      scopeDepth := scopeDepth - 1;
      assert code == code + Pops(0);
      while |locals| > 0 && locals[|locals| - 1].depth > scopeDepth
        invariant scopeDepth == old(scopeDepth) - 1 && |locals| <= |old(locals)|
        invariant Outer(locals, scopeDepth) == Outer(old(locals), scopeDepth)
        invariant code == old(code) + Pops(|old(locals)| - |locals|)
      {
        EmitOp(PopOp);
        locals := locals[..|locals| - 1];
        assert Pops(|old(locals)| - |locals| - 1) + [ByteOf(PopOp)] == Pops(|old(locals)| - |locals|);
      }
    }

    /** resolveLocal: the most nested variable is found first. */
    method ResolveLocal(name: string) returns (r: Option<nat>)
      modifies this`hadError
      ensures r == Resolve(locals, name)
      ensures hadError == (old(hadError) || (r.Some? && locals[r.value].depth == -1))
    {
      var i := |locals|;
      assert locals[..i] == locals;
      while i > 0
        invariant i <= |locals| && Resolve(locals[..i], name) == Resolve(locals, name) && hadError == old(hadError)
      {
        i := i - 1;
        assert locals[..i + 1][..i] == locals[..i];
        if locals[i].name == name {
          if locals[i].depth == -1 {
            Error();
          }
          return Some(i);
        }
      }
      r := None;
    }

    /** declareVariable and addLocal. */
    method DeclareVariable(name: string)
      requires scopeDepth > 0 && Valid()
      modifies this`locals, this`hadError
      ensures locals == Declared(old(locals), name)
      ensures hadError == (old(hadError) || Redeclared(old(locals), name, scopeDepth) || |old(locals)| >= MAX_LOCALS)
      ensures var ls := old(locals);
        var taken := exists i :: 0 <= i < |ls| && ls[i].name == name && forall j :: i <= j < |ls| ==> ls[j].depth == -1 || ls[j].depth >= scopeDepth;
        hadError == (old(hadError) || |ls| >= 256 || taken)
    {
      TakenMeans(locals, name, scopeDepth);
      var i := |locals|;
      assert locals[..i] == locals;
      while i > 0 && !(locals[i - 1].depth != -1 && locals[i - 1].depth < scopeDepth)
        invariant i <= |locals| && locals == old(locals)
        invariant (hadError || Redeclared(locals[..i], name, scopeDepth)) == (old(hadError) || Redeclared(locals, name, scopeDepth))
      {
        i := i - 1;
        assert locals[..i + 1][..i] == locals[..i];
        if locals[i].name == name {
          Error();
        }
      }
      if |locals| == MAX_LOCALS {
        Error();
        return;
      }
      locals := locals + [Local(name, -1)];
    }

    // ----- expressions -----

    /** number, string and literal. */
    method EmitLiteral(v: Value)
      modifies this`code, this`constants, this`hadError
      ensures Emitted(old(code), old(hadError), LiteralUnit(v, old(constants)))
    {
      match v
      case Nil => EmitOp(NilOp);
      case Bool(b) => EmitOp(if b then TrueOp else FalseOp);
      case _ =>
        var index := MakeConstant(v);
        EmitOp(ConstantOp);
        EmitByte(index);
    }

    /** The first half of namedVariable: what the name stands for. */
    method NamedVariable(name: string) returns (isLocal: bool, arg: Byte)
      modifies this`constants, this`hadError
      ensures var t := Named(locals, name, old(constants));
        isLocal == t.isLocal && arg == t.arg && constants == t.constants && hadError == (old(hadError) || !t.ok)
    {
      var i := ResolveLocal(name);
      if i.Some? {
        return true, i.value % 256;
      }
      isLocal := false;
      arg := MakeConstant(Text(name));
    }

    method Expression(e: Expr)
      modifies this`code, this`constants, this`hadError
      ensures Emitted(old(code), old(hadError), ExprUnit(e, locals, old(constants)))
      decreases e, 1
    {
      match e
      case Literal(v) => EmitLiteral(v);
      case Variable(name) =>
        var isLocal, arg := NamedVariable(name);
        EmitOp(if isLocal then GetLocalOp else GetGlobalOp);
        EmitByte(arg);
      case Assign(_, _) => Assignment(e);
      case Unary(_, _) => UnaryExpression(e);
      case Binary(_, _, _) => BinaryExpression(e);
      case And(_, _) => AndExpression(e);
      case Or(_, _) => OrExpression(e);
    }

    method Assignment(e: Expr)
      requires e.Assign?
      modifies this`code, this`constants, this`hadError
      ensures Emitted(old(code), old(hadError), ExprUnit(e, locals, old(constants)))
      decreases e, 0
    {
      hide Named;
      var isLocal, arg := NamedVariable(e.name);
      Expression(e.expr);
      EmitOp(if isLocal then SetLocalOp else SetGlobalOp);
      EmitByte(arg);
    }

    method UnaryExpression(e: Expr)
      requires e.Unary?
      modifies this`code, this`constants, this`hadError
      ensures Emitted(old(code), old(hadError), ExprUnit(e, locals, old(constants)))
      decreases e, 0
    {
      Expression(e.expr);
      EmitOp(if e.op1.Not? then NotOp else NegateOp);
    }

    method BinaryExpression(e: Expr)
      requires e.Binary?
      modifies this`code, this`constants, this`hadError
      ensures Emitted(old(code), old(hadError), ExprUnit(e, locals, old(constants)))
      decreases e, 0
    {
      hide BinaryCode, ExprUnit;
      BinaryIs(e, locals, constants);
      Expression(e.left);
      Expression(e.right);
      Operator(e.op2);
    }

    /** The operator of binary. */
    method Operator(op: BinaryOp)
      modifies this`code
      ensures code == old(code) + BinaryCode(op)
    {
      match op
      case NotEqual => EmitOp(EqualOp); EmitOp(NotOp);
      case Equal => EmitOp(EqualOp);
      case Greater => EmitOp(GreaterOp);
      case GreaterEqual => EmitOp(LessOp); EmitOp(NotOp);
      case Less => EmitOp(LessOp);
      case LessEqual => EmitOp(GreaterOp); EmitOp(NotOp);
      case Add => EmitOp(AddOp);
      case Subtract => EmitOp(SubtractOp);
      case Multiply => EmitOp(MultiplyOp);
      case Divide => EmitOp(DivideOp);
    }

    /** and_ */
    method AndExpression(e: Expr)
      requires e.And?
      modifies this`code, this`constants, this`hadError
      ensures Emitted(old(code), old(hadError), ExprUnit(e, locals, old(constants)))
      decreases e, 0
    {
      hide JumpCode, Patched, Placeholder, AndCode, ExprUnit;
      AndIs(e, locals, constants);
      ghost var l := ExprUnit(e.left, locals, constants);
      AndAssembles(code, l.code, ExprUnit(e.right, locals, l.constants).code);
      Expression(e.left);
      var endJump := EmitJump(JumpIfFalseOp);
      EmitOp(PopOp);
      Expression(e.right);
      PatchJump(endJump);
    }

    /** or_ */
    method OrExpression(e: Expr)
      requires e.Or?
      modifies this`code, this`constants, this`hadError
      ensures Emitted(old(code), old(hadError), ExprUnit(e, locals, old(constants)))
      decreases e, 0
    {
      hide JumpCode, Patched, Placeholder, OrCode, ExprUnit;
      OrIs(e, locals, constants);
      ghost var l := ExprUnit(e.left, locals, constants);
      OrAssembles(code, l.code, ExprUnit(e.right, locals, l.constants).code);
      Expression(e.left);
      var elseJump := EmitJump(JumpIfFalseOp);
      var endJump := EmitJump(JumpOp);
      PatchJump(elseJump);
      EmitOp(PopOp);
      Expression(e.right);
      PatchJump(endJump);
    }

    // ----- statements -----

    /** What a statement or a declaration leaves behind. */
    ghost predicate Compiled(code0: seq<Byte>, hadError0: bool, u: Scoped)
      reads this
    {
      Valid() && Emitted(code0, hadError0, u.unit) && locals == u.locals
    }

    method Statement(stmt: Stmt)
      requires Valid()
      modifies this`code, this`constants, this`hadError, this`locals, this`scopeDepth
      ensures Compiled(old(code), old(hadError), StmtUnit(stmt, old(locals), old(constants), scopeDepth)) && scopeDepth == old(scopeDepth)
      decreases stmt, 2
    {
      hide StmtUnit, ExprUnit, Compiled;
      match stmt
      case Evaluate(_) => ExpressionStatement(stmt);
      case Print(_) => ExpressionStatement(stmt);
      case Block(_) => BlockStatement(stmt);
      case If(_, _, _) => IfStatement(stmt);
      case While(_, _) => WhileStatement(stmt);
      case For(_, _, _, _) => ForStatement(stmt);
    }

    /** expressionStatement and printStatement */
    method ExpressionStatement(stmt: Stmt)
      requires Valid() && (stmt.Evaluate? || stmt.Print?)
      modifies this`code, this`constants, this`hadError
      ensures Compiled(old(code), old(hadError), StmtUnit(stmt, locals, old(constants), scopeDepth))
    {
      hide ExprUnit;
      Expression(stmt.expr);
      EmitOp(if stmt.Print? then PrintOp else PopOp);
    }

    method BlockStatement(stmt: Stmt)
      requires Valid() && stmt.Block?
      modifies this`code, this`constants, this`hadError, this`locals, this`scopeDepth
      ensures Compiled(old(code), old(hadError), StmtUnit(stmt, old(locals), old(constants), scopeDepth)) && scopeDepth == old(scopeDepth)
      decreases stmt, 0
    {
      hide StmtUnit, DeclsUnit, Pops;
      BlockIs(stmt, locals, constants, scopeDepth);
      BeginScope();
      Declarations(stmt.decls);
      EndScope();
    }

    method IfStatement(stmt: Stmt)
      requires Valid() && stmt.If?
      modifies this`code, this`constants, this`hadError, this`locals, this`scopeDepth
      ensures Compiled(old(code), old(hadError), StmtUnit(stmt, old(locals), old(constants), scopeDepth)) && scopeDepth == old(scopeDepth)
      decreases stmt, 1
    {
      hide ExprUnit, JumpCode, Patched, Placeholder, IfCode, StmtUnit;
      IfIs(stmt, locals, constants, scopeDepth);
      ghost var c := ExprUnit(stmt.cond, locals, constants);
      ghost var t := StmtUnit(stmt.then_, locals, c.constants, scopeDepth);
      ghost var f := if stmt.else_.Some? then StmtUnit(stmt.else_.value, t.locals, t.unit.constants, scopeDepth).unit.code else [];
      IfAssembles(code, c.code, t.unit.code, f);
      var elseJump := ThenBranch(stmt);
      if stmt.else_.Some? {
        Statement(stmt.else_.value);
      } else {
        assert code + f == code;
      }
      PatchJump(elseJump);
    }

    /** The condition and the branch for when it holds, up to the jump over the other branch. */
    method ThenBranch(stmt: Stmt) returns (elseJump: nat)
      requires Valid() && stmt.If?
      modifies this`code, this`constants, this`hadError, this`locals, this`scopeDepth
      ensures Valid() && scopeDepth == old(scopeDepth)
      ensures var c := ExprUnit(stmt.cond, old(locals), old(constants));
        var t := StmtUnit(stmt.then_, old(locals), c.constants, scopeDepth);
        && code == old(code) + c.code + JumpCode(JumpIfFalseOp, |t.unit.code| + 4) + [ByteOf(PopOp)] + t.unit.code + Placeholder(JumpOp) + [ByteOf(PopOp)]
        && elseJump == |old(code)| + |c.code| + 5 + |t.unit.code|
        && constants == t.unit.constants && locals == t.locals
        && hadError == (old(hadError) || !c.ok || !t.unit.ok || |t.unit.code| + 4 > MAX_JUMP)
      decreases stmt, 0
    {
      hide ExprUnit, JumpCode, Patched, Placeholder, IfCode, StmtUnit;
      ghost var c := ExprUnit(stmt.cond, locals, constants);
      IfAssembles(code, c.code, StmtUnit(stmt.then_, locals, c.constants, scopeDepth).unit.code, []);
      Expression(stmt.cond);
      var thenJump := EmitJump(JumpIfFalseOp);
      EmitOp(PopOp);
      Statement(stmt.then_);
      elseJump := EmitJump(JumpOp);
      PatchJump(thenJump);
      EmitOp(PopOp);
    }

    method WhileStatement(stmt: Stmt)
      requires Valid() && stmt.While?
      modifies this`code, this`constants, this`hadError, this`locals, this`scopeDepth
      ensures Compiled(old(code), old(hadError), StmtUnit(stmt, old(locals), old(constants), scopeDepth)) && scopeDepth == old(scopeDepth)
      decreases stmt, 0
    {
      hide ExprUnit, JumpCode, Patched, Placeholder, Layout.Code, Layout.StepCode;
      ghost var c := ExprUnit(stmt.cond, locals, constants);
      ghost var layout := Layout(true, false, c.code, [], StmtUnit(stmt.body, locals, c.constants, scopeDepth).unit.code);
      NoStep(layout);
      var loopStart := |code|;
      Expression(stmt.cond);
      var exitJump := EmitJump(JumpIfFalseOp);
      EmitOp(PopOp);
      assert code + [] == code;
      Statement(stmt.body);
      EndLoop(loopStart, exitJump, true, layout, old(code));
    }

    /** The increment clause, in front of the body: jumped over on the way in, and jumping
      * back to the test on the way out. */
    method StepClause(step: Expr, loopStart: nat)
      requires loopStart <= |code|
      modifies this`code, this`constants, this`hadError
      ensures var s := ExprUnit(step, locals, old(constants)); var back := |old(code)| - loopStart + |s.code| + 7;
        && code == old(code) + (JumpCode(JumpOp, |s.code| + 4) + (s.code + ([ByteOf(PopOp)] + JumpCode(LoopOp, back))))
        && constants == s.constants
        && hadError == (old(hadError) || !s.ok || back > MAX_JUMP || |s.code| + 4 > MAX_JUMP)
    {
      hide ExprUnit, JumpCode, Patched, Placeholder;
      ghost var s := ExprUnit(step, locals, constants);
      StepAssembles(code, s.code, |code| - loopStart + |s.code| + 7);
      var bodyJump := EmitJump(JumpOp);
      Expression(step);
      EmitOp(PopOp);
      EmitLoop(loopStart);
      PatchJump(bodyJump);
    }

    method ForStatement(stmt: Stmt)
      requires Valid() && stmt.For?
      modifies this`code, this`constants, this`hadError, this`locals, this`scopeDepth
      ensures Compiled(old(code), old(hadError), StmtUnit(stmt, old(locals), old(constants), scopeDepth)) && scopeDepth == old(scopeDepth)
      decreases stmt, 0
    {
      hide ExprUnit, LoopScoped, StmtUnit, DeclsUnit, Pops;
      ForIs(stmt, locals, constants, scopeDepth);
      BeginScope();
      Declarations(stmt.init);
      ForLoop(stmt.test, stmt.step, stmt.body);
      EndScope();
    }

    /** forStatement after its initializer. */
    method ForLoop(test: Option<Expr>, step: Option<Expr>, body: Stmt)
      requires Valid()
      modifies this`code, this`constants, this`hadError, this`locals, this`scopeDepth
      ensures Compiled(old(code), old(hadError), LoopScoped(test, step, body, old(locals), old(constants), scopeDepth)) && scopeDepth == old(scopeDepth)
      decreases body, 3
    {
      hide ExprUnit, JumpCode, Patched, Placeholder, Layout.Code, Layout.StepCode, StmtUnit, OptExprUnit, LoopScoped;
      LoopIs(test, step, body, locals, constants, scopeDepth);
      ghost var t := OptExprUnit(test, locals, constants);
      ghost var s := OptExprUnit(step, locals, t.constants);
      ghost var layout := Layout(test.Some?, step.Some?, t.code, s.code, StmtUnit(body, locals, s.constants, scopeDepth).unit.code);
      StepReads(layout);
      var loopStart := |code|;
      var exitJump := TestClause(test);
      loopStart := ClauseBeforeBody(step, loopStart, layout);
      Statement(body);
      EndLoop(loopStart, exitJump, test.Some?, layout, old(code));
    }

    /** After the body: the jump back, and the landing of the jump out. */
    method EndLoop(loopStart: nat, exitJump: nat, hasTest: bool, ghost l: Layout, ghost code0: seq<Byte>)
      requires hasTest == l.hasTest
      requires code == (if hasTest then code0 + l.test + Placeholder(JumpIfFalseOp) + [ByteOf(PopOp)] else code0) + l.StepCode() + l.body
      requires loopStart <= |code| && |code| + 3 - loopStart == l.Again()
      requires hasTest ==> exitJump == |code0| + |l.test| + 1
      modifies this`code, this`hadError
      ensures code == code0 + l.Code()
      ensures hadError == (old(hadError) || l.Again() > MAX_JUMP || (hasTest && l.Exit() > MAX_JUMP))
    {
      hide JumpCode, Patched, Placeholder, Layout.Code, Layout.StepCode;
      LoopReads(code0, l);
      if hasTest {
        LoopAssembles(code0, l);
      }
      EmitLoop(loopStart);
      if hasTest {
        PatchJump(exitJump);
        EmitOp(PopOp);
      }
    }

    /** The exit condition: out of the loop if it is false. */
    method TestClause(test: Option<Expr>) returns (exitJump: nat)
      modifies this`code, this`constants, this`hadError
      ensures var t := OptExprUnit(test, locals, old(constants));
        && constants == t.constants && hadError == (old(hadError) || !t.ok)
        && code == (if test.Some? then old(code) + t.code + Placeholder(JumpIfFalseOp) + [ByteOf(PopOp)] else old(code))
        && (test.Some? ==> exitJump == |old(code)| + |t.code| + 1)
    {
      hide ExprUnit, Placeholder;
      exitJump := 0;
      if test.Some? {
        Expression(test.value);
        exitJump := EmitJump(JumpIfFalseOp);
        EmitOp(PopOp);
      }
    }

    method ClauseBeforeBody(step: Option<Expr>, loopStart: nat, ghost l: Layout) returns (again: nat)
      requires loopStart <= |code| && l.step == OptExprUnit(step, locals, constants).code
      requires l.hasStep == step.Some? && l.Head() == |code| - loopStart
      modifies this`code, this`constants, this`hadError
      ensures var s := OptExprUnit(step, locals, old(constants));
        && constants == s.constants && code == old(code) + l.StepCode()
        && again == (if step.Some? then |old(code)| + 3 else loopStart)
        && hadError == (old(hadError) || !s.ok || (step.Some? && (l.Head() + l.Middle() > MAX_JUMP || |s.code| + 4 > MAX_JUMP)))
    {
      hide ExprUnit, JumpCode, Layout.StepCode;
      StepReads(l);
      again := loopStart;
      if step.Some? {
        again := |code| + 3;
        StepClause(step.value, loopStart);
      } else {
        assert code + [] == code;
      }
    }

    method Declaration(d: Decl)
      requires Valid()
      modifies this`code, this`constants, this`hadError, this`locals, this`scopeDepth
      ensures Compiled(old(code), old(hadError), DeclUnit(d, old(locals), old(constants), scopeDepth)) && scopeDepth == old(scopeDepth)
      decreases d, 1
    {
      match d
      case Do(stmt) => Statement(stmt);
      case Var(name, init) => VarDeclaration(name, init);
    }

    /** varDeclaration, with parseVariable before the initializer and defineVariable after. */
    method VarDeclaration(name: string, init: Option<Expr>)
      requires Valid()
      modifies this`code, this`constants, this`hadError, this`locals
      ensures Compiled(old(code), old(hadError), VarUnit(name, init, old(locals), old(constants), scopeDepth))
    {
      hide ExprUnit, Redeclared;
      var global := 0;
      if scopeDepth > 0 {
        DeclareVariable(name);
      } else {
        global := MakeConstant(Text(name));
      }
      if init.Some? {
        Expression(init.value);
      } else {
        EmitOp(NilOp);
      }
      if scopeDepth > 0 {
        if |locals| > 0 {
          locals := locals[|locals| - 1 := locals[|locals| - 1].(depth := scopeDepth)];
        }
      } else {
        EmitOp(DefineGlobalOp);
        EmitByte(global);
      }
    }

    method Declarations(ds: Decls)
      requires Valid()
      modifies this`code, this`constants, this`hadError, this`locals, this`scopeDepth
      ensures Compiled(old(code), old(hadError), DeclsUnit(ds, old(locals), old(constants), scopeDepth)) && scopeDepth == old(scopeDepth)
      decreases ds, 0
    {
      hide DeclUnit;
      match ds
      case End =>
      case More(d, rest) =>
        Declaration(d);
        Declarations(rest);
    }

    /** compile: the chunk of a script, unless there was an error. */
    method CompileScript(program: Decls) returns (chunk: Option<Chunk>)
      requires Valid() && code == [] && constants == [] && locals == SCRIPT_LOCALS && scopeDepth == 0 && !hadError
      modifies this`code, this`constants, this`hadError, this`locals, this`scopeDepth
      ensures var u := ScriptUnit(program);
        chunk == if u.ok then Some(Chunk(u.code, u.constants)) else None
      ensures AnyFaulty(program) ==> chunk == None
      ensures forall decls, i, j :: Within(Block(decls), program) && 0 <= i < j < |OwnNames(decls)| && OwnNames(decls)[i] == OwnNames(decls)[j] ==>
        chunk == None
    {
      hide DeclsUnit, AnyFaulty, Within;
      FaultyScriptsAreRejected(program);
      forall decls, i, j | Within(Block(decls), program) && 0 <= i < j < |OwnNames(decls)| && OwnNames(decls)[i] == OwnNames(decls)[j]
        ensures !ScriptUnit(program).ok
      {
        TwiceInABlock(program, decls, i, j);
      }
      assert [] + DeclsUnit(program, SCRIPT_LOCALS, [], 0).unit.code == DeclsUnit(program, SCRIPT_LOCALS, [], 0).unit.code;
      Declarations(program);
      EmitOp(NilOp);
      EmitOp(ReturnOp);
      assert code == ScriptUnit(program).code;
      chunk := if hadError then None else Some(Chunk(code, constants));
    }
  }

  lemma {:induction false} NoStep(l: Layout)
    requires !l.hasStep
    ensures l.StepCode() == []
  {
  }

  lemma {:induction false} StepReads(l: Layout)
    ensures l.StepCode() ==
      if l.hasStep then JumpCode(JumpOp, |l.step| + 4) + (l.step + ([ByteOf(PopOp)] + JumpCode(LoopOp, l.Head() + |l.step| + 7))) else []
  {
  }
}
