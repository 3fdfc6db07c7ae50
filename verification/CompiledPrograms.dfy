/** Compilation preserves meaning: the main theorem about the compiler. */
module CompiledPrograms {
  import opened Options
  import opened Lox
  import opened Bytecode
  import opened Emission
  import opened CompiledExpressions
  import opened CompiledLoops
  import opened CompiledStatements

  ghost predicate Placed(chunk: Chunk, pos: nat, u: Unit)
  {
    u.ok && At(chunk.code, pos, u.code) && Extends(chunk.constants, u.constants)
  }

  /** What there is to show of a statement, or of several. */
  ghost predicate Correct(ops: Arith, chunk: Chunk, pos: nat, n: nat, r: Effect, u: Scoped, s: State, depth: nat, fuel: nat)
  {
    && Follows(ops, chunk, Going(VmAt(pos, s, [])), n, r, pos + |u.unit.code|, fuel)
    && (r.Ends? ==> InScope(u.locals, r.state.env, depth))
  }

  lemma {:induction false} StmtRuns(ops: Arith, chunk: Chunk, pos: nat, stmt: Stmt, locals: seq<Local>, constants: seq<Value>, s: State, depth: nat, fuel: nat) returns (n: nat)
    requires Placed(chunk, pos, StmtUnit(stmt, locals, constants, depth).unit) && InScope(locals, s.env, depth)
    ensures Correct(ops, chunk, pos, n, Exec(ops, stmt, s, depth, fuel), StmtUnit(stmt, locals, constants, depth), s, depth, fuel)
    decreases fuel, stmt, 2
  {
    hide Follows, At, Extends, Steps, InScope, ExprUnit, Eval, DeclsUnit, LoopScoped, ExecAll, Loop, EndScope, LeaveScope, IfCode;
    match stmt
    case Evaluate(e) => n := ExprStmtRuns(ops, chunk, pos, stmt, locals, constants, s, depth, fuel);
    case Print(e) => n := ExprStmtRuns(ops, chunk, pos, stmt, locals, constants, s, depth, fuel);
    case Block(decls) => n := BlockRuns(ops, chunk, pos, stmt, locals, constants, s, depth, fuel);
    case If(cond, then_, else_) => n := IfRuns(ops, chunk, pos, stmt, locals, constants, s, depth, fuel);
    case While(cond, body) => n := LoopRuns(ops, chunk, pos, Some(cond), None, body, locals, constants, s, depth, fuel);
    case For(init, test, step, body) => n := ForRuns(ops, chunk, pos, stmt, locals, constants, s, depth, fuel);
  }

  lemma {:induction false} BlockRuns(ops: Arith, chunk: Chunk, pos: nat, stmt: Stmt, locals: seq<Local>, constants: seq<Value>, s: State, depth: nat, fuel: nat) returns (n: nat)
    requires Placed(chunk, pos, StmtUnit(stmt, locals, constants, depth).unit) && InScope(locals, s.env, depth) && stmt.Block?
    ensures Correct(ops, chunk, pos, n, Exec(ops, stmt, s, depth, fuel), StmtUnit(stmt, locals, constants, depth), s, depth, fuel)
    decreases fuel, stmt, 1
  {
    hide Follows, At, Extends, Steps, DeclsUnit, ExecAll, LeaveScope, Pops, Outer, Opened;
    var u := DeclsUnit(stmt.decls, locals, constants, depth + 1);
    ScopeOpens(locals, s.env, depth);
    DeclsOpen(stmt.decls, locals, locals, constants, depth + 1);
    OuterRestores(locals, u.locals, depth);
    OpenedSize(locals, u.locals, depth + 1);
    AtParts(chunk.code, pos, u.unit.code, Pops(|u.locals| - |locals|));
    n := DeclsRuns(ops, chunk, pos, stmt.decls, locals, constants, s, depth + 1, fuel);
    var r := ExecAll(ops, stmt.decls, s, depth + 1, fuel);
    n := ScopeRuns(ops, chunk, Going(VmAt(pos, s, [])), n, r, pos + |u.unit.code|, fuel, locals, u.locals, s.env, depth);
    PopsSize(|u.locals| - |locals|);
  }

  lemma {:induction false} PopsSize(n: nat)
    ensures |Pops(n)| == n
  {
  }

  lemma {:induction false} OpenedSize(outer: seq<Local>, locals: seq<Local>, depth: nat)
    requires Opened(outer, locals, depth)
    ensures |outer| <= |locals|
  {
  }

  lemma {:induction false} ScopeOpens(locals: seq<Local>, env: seq<Binding>, depth: nat)
    requires InScope(locals, env, depth)
    ensures InScope(locals, env, depth + 1) && UpTo(locals, depth) && UpTo(locals, depth + 1) && Opened(locals, locals, depth + 1)
  {
    UpToDeeper(locals, depth);
  }

  lemma {:induction false} IfRuns(ops: Arith, chunk: Chunk, pos: nat, stmt: Stmt, locals: seq<Local>, constants: seq<Value>, s: State, depth: nat, fuel: nat) returns (n: nat)
    requires Placed(chunk, pos, StmtUnit(stmt, locals, constants, depth).unit) && InScope(locals, s.env, depth) && stmt.If?
    ensures Correct(ops, chunk, pos, n, Exec(ops, stmt, s, depth, fuel), StmtUnit(stmt, locals, constants, depth), s, depth, fuel)
    decreases fuel, stmt, 1
  {
    hide Follows, At, Extends, Steps, InScope, ExprUnit, Eval, IfCode, Matched, SameNames, VmAt;
    var start := Going(VmAt(pos, s, []));
    var c := ExprUnit(stmt.cond, locals, constants);
    var t := StmtUnit(stmt.then_, locals, c.constants, depth);
    InScopeUpTo(locals, s.env, depth);
    StmtKeepsLocals(stmt.then_, locals, c.constants, depth);
    var f := if stmt.else_.Some? then StmtUnit(stmt.else_.value, locals, t.unit.constants, depth) else Scoped(Unit([], t.unit.constants, true), locals);
    if stmt.else_.Some? {
      StmtKeepsLocals(stmt.else_.value, locals, t.unit.constants, depth);
    }
    var mid := pos + |c.code|;
    var over := mid + 4 + |t.unit.code|;
    var end := over + 4 + |f.unit.code|;
    IfParts(chunk.code, pos, c.code, t.unit.code, f.unit.code);
    ExtendsTransitive(chunk.constants, f.unit.constants, t.unit.constants);
    ExtendsTransitive(chunk.constants, t.unit.constants, c.constants);
    InScopeMatches(locals, s.env, depth);
    n := ExprRuns(ops, chunk, pos, stmt.cond, locals, constants, s, []);
    var r := Eval(ops, stmt.cond, s);
    EvalKeepsNames(ops, stmt.cond, s);
    InScopeStill(locals, s.env, r.state.env, depth);
    if r.Fails? {
      FailsFollows(ops, chunk, start, n, r.state, end, fuel);
      return;
    }
    n := ChoiceRuns(ops, chunk, start, n, mid, over, |t.unit.code| + 4, r.state, r.value);
    if !Falsey(r.value) {
      var m := StmtRuns(ops, chunk, mid + 4, stmt.then_, locals, c.constants, r.state, depth, fuel);
      var e := Exec(ops, stmt.then_, r.state, depth, fuel);
      m := SkipElse(ops, chunk, Going(VmAt(mid + 4, r.state, [])), m, e, over, |f.unit.code| + 1, fuel);
      FollowsThen(ops, chunk, start, n, Going(VmAt(mid + 4, r.state, [])), m, e, end, fuel);
      n := n + m;
    } else if stmt.else_.Some? {
      var m := StmtRuns(ops, chunk, over + 4, stmt.else_.value, locals, t.unit.constants, r.state, depth, fuel);
      FollowsThen(ops, chunk, start, n, Going(VmAt(over + 4, r.state, [])), m, Exec(ops, stmt.else_.value, r.state, depth, fuel), end, fuel);
      n := n + m;
    } else {
      EndsFollows(ops, chunk, start, n, r.state, end, fuel);
    }
  }

  /** The test of a conditional, with the pop on either side. */
  lemma {:induction false} ChoiceRuns(ops: Arith, chunk: Chunk, start: Run, n: nat, mid: nat, over: nat, jump: nat, s: State, v: Value) returns (n': nat)
    requires Steps(ops, chunk, start, n) == Going(VmAt(mid, s, [] + [v]))
    requires At(chunk.code, mid, JumpCode(JumpIfFalseOp, jump)) && jump <= MAX_JUMP && over + 3 == mid + 3 + jump
    requires At(chunk.code, mid + 3, [ByteOf(PopOp)]) && At(chunk.code, over + 3, [ByteOf(PopOp)])
    ensures Steps(ops, chunk, start, n') == Going(VmAt(if Falsey(v) then over + 4 else mid + 4, s, []))
  {
    hide Steps, VmAt, At;
    BranchRuns(ops, chunk, mid, jump, s, [], v);
    Then(ops, chunk, start, n, Going(VmAt(mid, s, [] + [v])), 1);
    var next := if Falsey(v) then over + 3 else mid + 3;
    PopRuns(ops, chunk, next, s, [], v);
    Then(ops, chunk, start, n + 1, Going(VmAt(next, s, [] + [v])), 1);
    n' := n + 2;
  }

  lemma {:induction false} InScopeUpTo(locals: seq<Local>, env: seq<Binding>, depth: nat)
    requires InScope(locals, env, depth)
    ensures UpTo(locals, depth)
  {
  }

  lemma {:induction false} FailsFollows(ops: Arith, chunk: Chunk, start: Run, n: nat, s: State, pos: nat, fuel: nat)
    requires Steps(ops, chunk, start, n) == Failed(s.globals, s.output)
    ensures Follows(ops, chunk, start, n, Stops(s), pos, fuel)
  {
  }

  lemma {:induction false} EndsFollows(ops: Arith, chunk: Chunk, start: Run, n: nat, s: State, pos: nat, fuel: nat)
    requires Steps(ops, chunk, start, n) == Going(VmAt(pos, s, []))
    ensures Follows(ops, chunk, start, n, Ends(s), pos, fuel)
  {
  }

  /** The jump over the else branch. */
  lemma {:induction false} SkipElse(ops: Arith, chunk: Chunk, start: Run, n: nat, r: Effect, pos: nat, jump: nat, fuel: nat) returns (n': nat)
    requires Follows(ops, chunk, start, n, r, pos, fuel)
    requires At(chunk.code, pos, JumpCode(JumpOp, jump)) && jump <= MAX_JUMP
    ensures Follows(ops, chunk, start, n', r, pos + 3 + jump, fuel)
  {
    hide Steps, VmAt, At;
    n' := n;
    if r.Ends? {
      JumpRuns(ops, chunk, pos, jump, r.state, []);
      Then(ops, chunk, start, n, Going(VmAt(pos, r.state, [])), 1);
      n' := n + 1;
    }
  }

  lemma {:induction false} LoopRuns(ops: Arith, chunk: Chunk, pos: nat, test: Option<Expr>, step: Option<Expr>, body: Stmt,
                                    locals: seq<Local>, constants: seq<Value>, s: State, depth: nat, fuel: nat) returns (n: nat)
    requires Placed(chunk, pos, LoopScoped(test, step, body, locals, constants, depth).unit) && InScope(locals, s.env, depth)
    ensures Correct(ops, chunk, pos, n, Loop(ops, test, step, body, s, depth, fuel), LoopScoped(test, step, body, locals, constants, depth), s, depth, fuel)
    decreases fuel, body, 3
  {
    hide Follows, At, Extends, Steps, InScope, OptExprUnit, Eval, Matched, SameNames, VmAt, StmtUnit, Exec, Layout.Code, Layout.Fits, Layout.Head, Layout.Middle;
    var start := Going(VmAt(pos, s, []));
    var t := OptExprUnit(test, locals, constants);
    var u := OptExprUnit(step, locals, t.constants);
    var b := StmtUnit(body, locals, u.constants, depth);
    var p := Place(pos, Layout(test.Some?, step.Some?, t.code, u.code, b.unit.code));
    InScopeUpTo(locals, s.env, depth);
    StmtKeepsLocals(body, locals, u.constants, depth);
    ExtendsTransitive(chunk.constants, b.unit.constants, u.constants);
    ExtendsTransitive(chunk.constants, u.constants, t.constants);
    LoopParts(chunk.code, p);
    InScopeMatches(locals, s.env, depth);
    n := TestRuns(ops, chunk, p, test, locals, constants, s);
    var x := Tested(ops, test, s);
    TestedKeepsScope(ops, test, locals, s, depth);
    if x.Fails? {
      FailsFollows(ops, chunk, start, n, x.state, p.End(), fuel);
      return;
    }
    if Falsey(x.value) {
      EndsFollows(ops, chunk, start, n, x.state, p.End(), fuel);
      return;
    }
    var m := StmtRuns(ops, chunk, p.Body(), body, locals, u.constants, x.state, depth, fuel);
    var e := Exec(ops, body, x.state, depth, fuel);
    if e.Ends? {
      EndsRuns(ops, chunk, Going(VmAt(p.Body(), x.state, [])), m, e, p.Back(), fuel);
      m := AgainRuns(ops, chunk, p, test, step, body, locals, constants, x.state, m, depth, fuel);
    } else {
      StopsAnywhere(ops, chunk, Going(VmAt(p.Body(), x.state, [])), m, e, p.Back(), p.End(), fuel);
    }
    FollowsThen(ops, chunk, start, n, Going(VmAt(p.Body(), x.state, [])), m, Loop(ops, test, step, body, s, depth, fuel), p.End(), fuel);
    n := n + m;
  }

  lemma {:induction false} TestedKeepsScope(ops: Arith, test: Option<Expr>, locals: seq<Local>, s: State, depth: nat)
    requires InScope(locals, s.env, depth)
    ensures InScope(locals, Tested(ops, test, s).state.env, depth)
  {
    hide InScope;
    if test.Some? {
      EvalKeepsNames(ops, test.value, s);
      InScopeStill(locals, s.env, Tested(ops, test, s).state.env, depth);
    }
  }

  lemma {:induction false} StopsAnywhere(ops: Arith, chunk: Chunk, start: Run, n: nat, r: Effect, pos: nat, pos': nat, fuel: nat)
    requires Follows(ops, chunk, start, n, r, pos, fuel) && !r.Ends?
    ensures Follows(ops, chunk, start, n, r, pos', fuel)
  {
  }

  /** The effect of a loop once its test has been passed. */
  function FromBody(ops: Arith, test: Option<Expr>, step: Option<Expr>, body: Stmt, s: State, depth: nat, fuel: nat): Effect
  {
    var b := Exec(ops, body, s, depth, fuel);
    if !b.Ends? then b
    else
      var u := Stepped(ops, step, b.state);
      if u.Fails? then Stops(u.state)
      else if fuel == 0 then Unfinished
      else Loop(ops, test, step, body, u.state, depth, fuel - 1)
  }

  /** From the end of the body through the step back to the test. */
  lemma {:induction false} AgainRuns(ops: Arith, chunk: Chunk, p: Place, test: Option<Expr>, step: Option<Expr>, body: Stmt,
                                     locals: seq<Local>, constants: seq<Value>, s: State, m: nat, depth: nat, fuel: nat) returns (n: nat)
    requires Placed(chunk, p.start, LoopScoped(test, step, body, locals, constants, depth).unit)
    requires var t := OptExprUnit(test, locals, constants); var u := OptExprUnit(step, locals, t.constants);
      p.layout == Layout(test.Some?, step.Some?, t.code, u.code, StmtUnit(body, locals, u.constants, depth).unit.code)
    requires var b := Exec(ops, body, s, depth, fuel);
      b.Ends? && InScope(locals, b.state.env, depth) && Steps(ops, chunk, Going(VmAt(p.Body(), s, [])), m) == Going(VmAt(p.Back(), b.state, []))
    requires UpTo(locals, depth)
    ensures Follows(ops, chunk, Going(VmAt(p.Body(), s, [])), n, FromBody(ops, test, step, body, s, depth, fuel), p.End(), fuel)
    ensures FromBody(ops, test, step, body, s, depth, fuel).Ends? ==> InScope(locals, FromBody(ops, test, step, body, s, depth, fuel).state.env, depth)
    decreases fuel, body, 2
  {
    hide Follows, At, Extends, Steps, InScope, OptExprUnit, Eval, Matched, SameNames, VmAt, StmtUnit, Exec, Layout.Code, Layout.Fits, Layout.Head, Layout.Middle, UpTo;
    var start := Going(VmAt(p.Body(), s, []));
    var t := OptExprUnit(test, locals, constants);
    var u := OptExprUnit(step, locals, t.constants);
    var body' := StmtUnit(body, locals, u.constants, depth);
    ExtendsTransitive(chunk.constants, body'.unit.constants, u.constants);
    var b := Exec(ops, body, s, depth, fuel);
    InScopeMatches(locals, b.state.env, depth);
    var k := StepRuns(ops, chunk, p, step, locals, t.constants, b.state);
    Then(ops, chunk, start, m, Going(VmAt(p.Back(), b.state, [])), k);
    n := m + k;
    var x := Stepped(ops, step, b.state);
    SteppedKeepsScope(ops, step, locals, b.state, depth);
    if x.Fails? {
      FailsFollows(ops, chunk, start, n, x.state, p.End(), fuel);
    } else if fuel == 0 {
      UnfinishedFollows(ops, chunk, start, n, VmAt(p.start, x.state, []), p.End());
    } else {
      var j := LoopRuns(ops, chunk, p.start, test, step, body, locals, constants, x.state, depth, fuel - 1);
      FollowsThen(ops, chunk, start, n, Going(VmAt(p.start, x.state, [])), j, Loop(ops, test, step, body, x.state, depth, fuel - 1), p.End(), fuel - 1);
      n := n + j;
      LoopKeepsLocals(test, step, body, locals, constants, depth);
    }
  }

  lemma {:induction false} SteppedKeepsScope(ops: Arith, step: Option<Expr>, locals: seq<Local>, s: State, depth: nat)
    requires InScope(locals, s.env, depth)
    ensures InScope(locals, Stepped(ops, step, s).state.env, depth)
  {
    hide InScope;
    if step.Some? {
      EvalKeepsNames(ops, step.value, s);
      InScopeStill(locals, s.env, Stepped(ops, step, s).state.env, depth);
    }
  }

  lemma {:induction false} UnfinishedFollows(ops: Arith, chunk: Chunk, start: Run, n: nat, vm: Vm, pos: nat)
    requires Steps(ops, chunk, start, n) == Going(vm)
    ensures Follows(ops, chunk, start, n, Unfinished, pos, 0)
  {
  }

  lemma {:induction false} ForRuns(ops: Arith, chunk: Chunk, pos: nat, stmt: Stmt, locals: seq<Local>, constants: seq<Value>, s: State, depth: nat, fuel: nat) returns (n: nat)
    requires Placed(chunk, pos, StmtUnit(stmt, locals, constants, depth).unit) && InScope(locals, s.env, depth) && stmt.For?
    ensures Correct(ops, chunk, pos, n, Exec(ops, stmt, s, depth, fuel), StmtUnit(stmt, locals, constants, depth), s, depth, fuel)
    decreases fuel, stmt, 1
  {
    hide Follows, At, Extends, Steps, DeclsUnit, LoopScoped, ExecAll, Loop, LeaveScope, Pops, Outer, Opened, UpTo, InScope, VmAt;
    var start := Going(VmAt(pos, s, []));
    var i := DeclsUnit(stmt.init, locals, constants, depth + 1);
    var l := LoopScoped(stmt.test, stmt.step, stmt.body, i.locals, i.unit.constants, depth + 1);
    ScopeOpens(locals, s.env, depth);
    DeclsOpen(stmt.init, locals, locals, constants, depth + 1);
    LoopKeepsLocals(stmt.test, stmt.step, stmt.body, i.locals, i.unit.constants, depth + 1);
    OuterRestores(locals, i.locals, depth);
    OpenedSize(locals, i.locals, depth + 1);
    var k := |i.locals| - |locals|;
    PopsSize(k);
    AtParts(chunk.code, pos, i.unit.code + l.unit.code, Pops(k));
    AtParts(chunk.code, pos, i.unit.code, l.unit.code);
    ExtendsTransitive(chunk.constants, l.unit.constants, i.unit.constants);
    n := DeclsRuns(ops, chunk, pos, stmt.init, locals, constants, s, depth + 1, fuel);
    var r := ExecAll(ops, stmt.init, s, depth + 1, fuel);
    var mid := pos + |i.unit.code|;
    var end := mid + |l.unit.code|;
    if r.Ends? {
      EndsRuns(ops, chunk, start, n, r, mid, fuel);
      var m := LoopRuns(ops, chunk, mid, stmt.test, stmt.step, stmt.body, i.locals, i.unit.constants, r.state, depth + 1, fuel);
      var e := Loop(ops, stmt.test, stmt.step, stmt.body, r.state, depth + 1, fuel);
      FollowsThen(ops, chunk, start, n, Going(VmAt(mid, r.state, [])), m, e, end, fuel);
      n := ScopeRuns(ops, chunk, start, n + m, e, end, fuel, locals, i.locals, s.env, depth);
    } else {
      StopsAnywhere(ops, chunk, start, n, r, mid, end, fuel);
      n := ScopeRuns(ops, chunk, start, n, r, end, fuel, locals, i.locals, s.env, depth);
    }
  }

  lemma {:induction false} EndsRuns(ops: Arith, chunk: Chunk, start: Run, n: nat, r: Effect, pos: nat, fuel: nat)
    requires Follows(ops, chunk, start, n, r, pos, fuel) && r.Ends?
    ensures Steps(ops, chunk, start, n) == Going(VmAt(pos, r.state, []))
  {
  }

  lemma {:induction false} DeclsRuns(ops: Arith, chunk: Chunk, pos: nat, ds: Decls, locals: seq<Local>, constants: seq<Value>, s: State, depth: nat, fuel: nat) returns (n: nat)
    requires Placed(chunk, pos, DeclsUnit(ds, locals, constants, depth).unit) && InScope(locals, s.env, depth)
    ensures Correct(ops, chunk, pos, n, ExecAll(ops, ds, s, depth, fuel), DeclsUnit(ds, locals, constants, depth), s, depth, fuel)
    decreases fuel, ds, 0
  {
    hide Follows, At, Extends, Steps, InScope, VmAt, DeclUnit, ExecDecl;
    var start := Going(VmAt(pos, s, []));
    match ds
    case End =>
      n := 0;
      NoSteps(ops, chunk, start);
      EndsFollows(ops, chunk, start, n, s, pos, fuel);
    case More(d, rest) =>
      var first := DeclUnit(d, locals, constants, depth);
      var others := DeclsUnit(rest, first.locals, first.unit.constants, depth);
      var mid := pos + |first.unit.code|;
      var end := mid + |others.unit.code|;
      AtParts(chunk.code, pos, first.unit.code, others.unit.code);
      ExtendsTransitive(chunk.constants, others.unit.constants, first.unit.constants);
      n := DeclRuns(ops, chunk, pos, d, locals, constants, s, depth, fuel);
      var r := ExecDecl(ops, d, s, depth, fuel);
      if r.Ends? {
        EndsRuns(ops, chunk, start, n, r, mid, fuel);
        var m := DeclsRuns(ops, chunk, mid, rest, first.locals, first.unit.constants, r.state, depth, fuel);
        FollowsThen(ops, chunk, start, n, Going(VmAt(mid, r.state, [])), m, ExecAll(ops, rest, r.state, depth, fuel), end, fuel);
        n := n + m;
      } else {
        StopsAnywhere(ops, chunk, start, n, r, mid, end, fuel);
      }
  }

  lemma {:induction false} DeclRuns(ops: Arith, chunk: Chunk, pos: nat, d: Decl, locals: seq<Local>, constants: seq<Value>, s: State, depth: nat, fuel: nat) returns (n: nat)
    requires Placed(chunk, pos, DeclUnit(d, locals, constants, depth).unit) && InScope(locals, s.env, depth)
    ensures Correct(ops, chunk, pos, n, ExecDecl(ops, d, s, depth, fuel), DeclUnit(d, locals, constants, depth), s, depth, fuel)
    decreases fuel, d, 0
  {
    hide Follows, At, Extends, Steps, InScope, VmAt, VarUnit, StmtUnit, Exec, Eval;
    match d
    case Do(stmt) => n := StmtRuns(ops, chunk, pos, stmt, locals, constants, s, depth, fuel);
    case Var(name, init) =>
      if depth == 0 {
        n := GlobalRuns(ops, chunk, pos, d, locals, constants, s, fuel);
      } else {
        n := LocalRuns(ops, chunk, pos, d, locals, constants, s, depth, fuel);
      }
  }

  /** The value of a declaration, nil when it has no initializer. */
  lemma {:induction false} InitRuns(ops: Arith, chunk: Chunk, pos: nat, init: Option<Expr>, locals: seq<Local>, constants: seq<Value>, s: State) returns (n: nat)
    requires Placed(chunk, pos, InitUnit(init, locals, constants)) && Matched(locals, s.env)
    ensures Steps(ops, chunk, Going(VmAt(pos, s, [])), n) == AfterExpr(Stepped(ops, init, s), pos + |InitUnit(init, locals, constants).code|, [])
  {
    hide Steps, VmAt, Extends, Matched, At, ExprUnit, Eval;
    if init.Some? {
      n := ExprRuns(ops, chunk, pos, init.value, locals, constants, s, []);
    } else {
      LiteralRuns(ops, chunk, pos, Nil, constants, s, []);
      n := 1;
    }
  }

  lemma {:induction false} GlobalRuns(ops: Arith, chunk: Chunk, pos: nat, d: Decl, locals: seq<Local>, constants: seq<Value>, s: State, fuel: nat) returns (n: nat)
    requires d.Var? && Placed(chunk, pos, DeclUnit(d, locals, constants, 0).unit) && InScope(locals, s.env, 0)
    ensures Correct(ops, chunk, pos, n, ExecDecl(ops, d, s, 0, fuel), DeclUnit(d, locals, constants, 0), s, 0, fuel)
  {
    hide Follows, At, Steps, InScope, VmAt, Eval, InitUnit, Matched, Extends, SameNames;
    var start := Going(VmAt(pos, s, []));
    var table := constants + [Text(d.name)];
    var u := InitUnit(d.init, locals, table);
    AtParts(chunk.code, pos, u.code, [ByteOf(DefineGlobalOp), ConstantIndex(constants)]);
    InScopeMatches(locals, s.env, 0);
    n := InitRuns(ops, chunk, pos, d.init, locals, table, s);
    var r := Stepped(ops, d.init, s);
    SteppedKeepsScope(ops, d.init, locals, s, 0);
    var end := pos + |u.code| + 2;
    if r.Fails? {
      FailsFollows(ops, chunk, start, n, r.state, end, fuel);
    } else {
      ExtendsTransitive(chunk.constants, u.constants, table);
      DefineRuns(ops, chunk, pos + |u.code|, d.name, constants, r.state, r.value);
      Then(ops, chunk, start, n, Going(VmAt(pos + |u.code|, r.state, [] + [r.value])), 1);
      n := n + 1;
      EndsFollows(ops, chunk, start, n, r.state.(globals := r.state.globals[d.name := r.value]), end, fuel);
    }
  }

  lemma {:induction false} DefineRuns(ops: Arith, chunk: Chunk, pos: nat, name: string, constants: seq<Value>, s: State, v: Value)
    requires At(chunk.code, pos, [ByteOf(DefineGlobalOp), ConstantIndex(constants)])
    requires Extends(chunk.constants, constants + [Text(name)]) && |constants| < 256
    ensures Steps(ops, chunk, Going(VmAt(pos, s, [] + [v])), 1) == Going(VmAt(pos + 2, s.(globals := s.globals[name := v]), []))
  {
    hide Steps;
    Temp(s.env, [], v);
    ConstantAt(chunk, constants, Text(name));
    StepByteAt(ops, chunk, VmAt(pos, s, [] + [v]), DefineGlobalOp, ConstantIndex(constants));
  }

  /** A local's value stays where its initializer left it: that is its slot. */
  lemma {:induction false} LocalRuns(ops: Arith, chunk: Chunk, pos: nat, d: Decl, locals: seq<Local>, constants: seq<Value>, s: State, depth: nat, fuel: nat) returns (n: nat)
    requires d.Var? && depth > 0 && Placed(chunk, pos, DeclUnit(d, locals, constants, depth).unit) && InScope(locals, s.env, depth)
    ensures Correct(ops, chunk, pos, n, ExecDecl(ops, d, s, depth, fuel), DeclUnit(d, locals, constants, depth), s, depth, fuel)
  {
    hide Follows, At, Steps, VmAt, Eval, InitUnit, Extends, SameNames;
    var start := Going(VmAt(pos, s, []));
    var during := Declared(locals, d.name);
    var u := InitUnit(d.init, during, constants);
    assert Matched(during, s.env);
    n := InitRuns(ops, chunk, pos, d.init, during, constants, s);
    var r := Stepped(ops, d.init, s);
    SteppedKeepsScope(ops, d.init, locals, s, depth);
    var end := pos + |u.code|;
    if r.Fails? {
      FailsFollows(ops, chunk, start, n, r.state, end, fuel);
    } else {
      var s' := r.state.(env := r.state.env + [Binding(d.name, r.value)]);
      SlotOfValue(end, r.state, d.name, r.value);
      EndsFollows(ops, chunk, start, n, s', end, fuel);
      assert Initialized(during, depth) == locals + [Local(d.name, depth)];
    }
  }

  lemma {:induction false} SlotOfValue(pos: nat, s: State, name: string, v: Value)
    ensures VmAt(pos, s, [] + [v]) == VmAt(pos, s.(env := s.env + [Binding(name, v)]), [])
  {
    assert Values(s.env + [Binding(name, v)]) == Values(s.env) + [v];
  }
}
