/** Running the code of a statement has the effect of executing its tree. */
module CompiledStatements {
  import opened Options
  import opened Lox
  import opened Bytecode
  import opened Emission
  import opened CompiledExpressions
  import opened CompiledLoops

  /** Between statements the locals in scope are the bindings, in the same order, and every
    * scope left open has its own depth. */
  ghost predicate InScope(locals: seq<Local>, env: seq<Binding>, depth: nat)
  {
    && |env| == |locals| <= MAX_LOCALS
    && (forall i :: 0 <= i < |locals| ==> locals[i].name == env[i].name)
    && UpTo(locals, depth)
  }

  ghost predicate UpTo(locals: seq<Local>, depth: nat)
  {
    forall i :: 0 <= i < |locals| ==> 0 <= locals[i].depth <= depth
  }

  /** The locals of an enclosing scope, and above them those of the present one. */
  ghost predicate Opened(outer: seq<Local>, locals: seq<Local>, depth: nat)
  {
    |outer| <= |locals| && locals[..|outer|] == outer && forall i :: |outer| <= i < |locals| ==> locals[i].depth == depth
  }

  lemma {:induction false} InScopeMatches(locals: seq<Local>, env: seq<Binding>, depth: nat)
    requires InScope(locals, env, depth)
    ensures Matched(locals, env)
  {
  }

  lemma {:induction false} InScopeStill(locals: seq<Local>, env: seq<Binding>, env': seq<Binding>, depth: nat)
    requires InScope(locals, env, depth) && SameNames(env, env')
    ensures InScope(locals, env', depth)
  {
  }

  // ----- what a statement does to the locals -----

  lemma {:induction false} OuterRestores(outer: seq<Local>, locals: seq<Local>, depth: nat)
    requires UpTo(outer, depth) && Opened(outer, locals, depth + 1)
    ensures Outer(locals, depth) == outer
    decreases |locals|
  {
    if |locals| == |outer| {
      assert locals == outer;
    } else {
      var shorter := locals[..|locals| - 1];
      assert shorter[..|outer|] == outer;
      OuterRestores(outer, shorter, depth);
    }
  }

  lemma {:induction false} OpenedUpTo(outer: seq<Local>, locals: seq<Local>, depth: nat)
    requires UpTo(outer, depth) && Opened(outer, locals, depth + 1)
    ensures UpTo(locals, depth + 1)
  {
    forall i | 0 <= i < |outer| ensures locals[i] == outer[i] {
      assert locals[..|outer|][i] == outer[i];
    }
  }

  lemma {:induction false} UpToDeeper(locals: seq<Local>, depth: nat)
    requires UpTo(locals, depth)
    ensures UpTo(locals, depth + 1) && Opened(locals, locals, depth + 1)
  {
    assert locals[..|locals|] == locals;
  }

  lemma {:induction false} StmtKeepsLocals(stmt: Stmt, locals: seq<Local>, constants: seq<Value>, depth: nat)
    requires StmtUnit(stmt, locals, constants, depth).unit.ok && UpTo(locals, depth)
    ensures StmtUnit(stmt, locals, constants, depth).locals == locals
    decreases stmt, 0
  {
    match stmt
    case Evaluate(_) =>
    case Print(_) =>
    case Block(decls) =>
      UpToDeeper(locals, depth);
      DeclsOpen(decls, locals, locals, constants, depth + 1);
      OuterRestores(locals, DeclsUnit(decls, locals, constants, depth + 1).locals, depth);
    case If(cond, then_, else_) =>
      var c := ExprUnit(cond, locals, constants);
      StmtKeepsLocals(then_, locals, c.constants, depth);
      if else_.Some? {
        StmtKeepsLocals(else_.value, locals, StmtUnit(then_, locals, c.constants, depth).unit.constants, depth);
      }
    case While(cond, body) => LoopKeepsLocals(Some(cond), None, body, locals, constants, depth);
    case For(init, test, step, body) =>
      UpToDeeper(locals, depth);
      DeclsOpen(init, locals, locals, constants, depth + 1);
      var i := DeclsUnit(init, locals, constants, depth + 1);
      OpenedUpTo(locals, i.locals, depth);
      LoopKeepsLocals(test, step, body, i.locals, i.unit.constants, depth + 1);
      OuterRestores(locals, i.locals, depth);
  }

  lemma {:induction false} LoopKeepsLocals(test: Option<Expr>, step: Option<Expr>, body: Stmt, locals: seq<Local>, constants: seq<Value>, depth: nat)
    requires LoopScoped(test, step, body, locals, constants, depth).unit.ok && UpTo(locals, depth)
    ensures LoopScoped(test, step, body, locals, constants, depth).locals == locals
    decreases body, 1
  {
    StmtKeepsLocals(body, locals, OptExprUnit(step, locals, OptExprUnit(test, locals, constants).constants).constants, depth);
  }

  lemma {:induction false} DeclOpens(d: Decl, outer: seq<Local>, locals: seq<Local>, constants: seq<Value>, depth: nat)
    requires DeclUnit(d, locals, constants, depth).unit.ok && UpTo(locals, depth)
    requires depth > 0 && Opened(outer, locals, depth)
    ensures Opened(outer, DeclUnit(d, locals, constants, depth).locals, depth)
    ensures UpTo(DeclUnit(d, locals, constants, depth).locals, depth)
    decreases d
  {
    match d
    case Do(stmt) => StmtKeepsLocals(stmt, locals, constants, depth);
    case Var(name, init) =>
      assert DeclUnit(d, locals, constants, depth).locals == locals + [Local(name, depth)];
  }

  lemma {:induction false} DeclsOpen(ds: Decls, outer: seq<Local>, locals: seq<Local>, constants: seq<Value>, depth: nat)
    requires DeclsUnit(ds, locals, constants, depth).unit.ok && UpTo(locals, depth)
    requires depth > 0 && Opened(outer, locals, depth)
    ensures Opened(outer, DeclsUnit(ds, locals, constants, depth).locals, depth)
    ensures UpTo(DeclsUnit(ds, locals, constants, depth).locals, depth)
    decreases ds
  {
    match ds
    case End =>
    case More(d, rest) =>
      DeclOpens(d, outer, locals, constants, depth);
      var first := DeclUnit(d, locals, constants, depth);
      DeclsOpen(rest, outer, first.locals, first.unit.constants, depth);
  }

  // ----- running -----

  /** Where running the code of a statement leads: to its end with the effect of the tree,
    * or to its runtime error; and while the tree has not ended, neither has the run. */
  ghost predicate Follows(ops: Arith, chunk: Chunk, start: Run, n: nat, r: Effect, pos: nat, fuel: nat)
  {
    match r
    case Ends(s) => Steps(ops, chunk, start, n) == Going(VmAt(pos, s, []))
    case Stops(s) => Steps(ops, chunk, start, n) == Failed(s.globals, s.output)
    case Unfinished => n >= fuel && Steps(ops, chunk, start, n).Going?
  }

  lemma {:induction false} FollowsThen(ops: Arith, chunk: Chunk, start: Run, a: nat, mid: Run, b: nat, r: Effect, pos: nat, fuel: nat)
    requires Steps(ops, chunk, start, a) == mid && Follows(ops, chunk, mid, b, r, pos, fuel)
    ensures Follows(ops, chunk, start, a + b, r, pos, fuel)
    ensures a > 0 ==> Follows(ops, chunk, start, a + b, r, pos, fuel + 1)
  {
    hide Steps;
    StepsAdd(ops, chunk, start, a, b);
  }

  /** One more instruction after an expression. */
  lemma {:induction false} ExprStmtRuns(ops: Arith, chunk: Chunk, pos: nat, stmt: Stmt, locals: seq<Local>, constants: seq<Value>, s: State, depth: nat, fuel: nat) returns (n: nat)
    requires stmt.Evaluate? || stmt.Print?
    requires var u := StmtUnit(stmt, locals, constants, depth).unit;
      u.ok && At(chunk.code, pos, u.code) && Extends(chunk.constants, u.constants)
    requires InScope(locals, s.env, depth)
    ensures Follows(ops, chunk, Going(VmAt(pos, s, [])), n, Exec(ops, stmt, s, depth, fuel), pos + |StmtUnit(stmt, locals, constants, depth).unit.code|, fuel)
    ensures Exec(ops, stmt, s, depth, fuel).Ends? ==> InScope(locals, Exec(ops, stmt, s, depth, fuel).state.env, depth)
  {
    hide Steps, VmAt, Extends, Matched, At, ExprUnit, Eval, InScope, SameNames;
    var u := ExprUnit(stmt.expr, locals, constants);
    var op := [ByteOf(if stmt.Print? then PrintOp else PopOp)];
    AtParts(chunk.code, pos, u.code, op);
    InScopeMatches(locals, s.env, depth);
    n := ExprRuns(ops, chunk, pos, stmt.expr, locals, constants, s, []);
    var r := Eval(ops, stmt.expr, s);
    EvalKeepsNames(ops, stmt.expr, s);
    InScopeStill(locals, s.env, r.state.env, depth);
    if r.Yields? {
      if stmt.Print? {
        PrintRuns(ops, chunk, pos + |u.code|, r.state, r.value);
      } else {
        PopRuns(ops, chunk, pos + |u.code|, r.state, [], r.value);
      }
      Then(ops, chunk, Going(VmAt(pos, s, [])), n, Going(VmAt(pos + |u.code|, r.state, [] + [r.value])), 1);
      n := n + 1;
    }
  }

  lemma {:induction false} PrintRuns(ops: Arith, chunk: Chunk, pos: nat, s: State, v: Value)
    requires At(chunk.code, pos, [ByteOf(PrintOp)])
    ensures Steps(ops, chunk, Going(VmAt(pos, s, [] + [v])), 1) == Going(VmAt(pos + 1, s.(output := s.output + [v]), []))
  {
    hide Steps;
    Temp(s.env, [], v);
    StepPlainAt(ops, chunk, VmAt(pos, s, [] + [v]), PrintOp);
  }

  /** Leaving a scope pops its bindings, the innermost first. */
  lemma {:induction false} PopsRun(ops: Arith, chunk: Chunk, pos: nat, s: State, k: nat)
    requires At(chunk.code, pos, Pops(k)) && k <= |s.env|
    ensures Steps(ops, chunk, Going(VmAt(pos, s, [])), k) == Going(VmAt(pos + k, s.(env := s.env[..|s.env| - k]), []))
    decreases k
  {
    if k == 0 {
      assert s.env[..|s.env|] == s.env;
    } else {
      var last := |s.env| - 1;
      var s' := s.(env := s.env[..last]);
      assert Pops(k) == [ByteOf(PopOp)] + Pops(k - 1);
      AtParts(chunk.code, pos, [ByteOf(PopOp)], Pops(k - 1));
      assert Values(s.env) + [] == Values(s'.env) + ([] + [s.env[last].value]);
      PopRuns(ops, chunk, pos, s', [], s.env[last].value);
      PopsRun(ops, chunk, pos + 1, s', k - 1);
      assert s'.env[..|s'.env| - (k - 1)] == s.env[..|s.env| - k];
      StepsAdd(ops, chunk, Going(VmAt(pos, s, [])), 1, k - 1);
    }
  }

  lemma {:induction false} ScopeLeft(outer: seq<Local>, locals: seq<Local>, env0: seq<Binding>, env: seq<Binding>, depth: nat)
    requires InScope(outer, env0, depth) && InScope(locals, env, depth + 1) && Opened(outer, locals, depth + 1)
    ensures |env0| == |outer| <= |env| && InScope(outer, env[..|outer|], depth)
  {
    forall i | 0 <= i < |outer| ensures outer[i] == locals[i] {
      assert locals[..|outer|][i] == outer[i];
    }
  }

  /** The end of a block or of a loop with its own scope. */
  lemma {:induction false} ScopeRuns(ops: Arith, chunk: Chunk, start: Run, n: nat, r: Effect, pos: nat, fuel: nat,
                  outer: seq<Local>, locals: seq<Local>, env0: seq<Binding>, depth: nat) returns (n': nat)
    requires Follows(ops, chunk, start, n, r, pos, fuel) && InScope(outer, env0, depth) && Opened(outer, locals, depth + 1)
    requires r.Ends? ==> InScope(locals, r.state.env, depth + 1)
    requires At(chunk.code, pos, Pops(|locals| - |outer|))
    ensures Follows(ops, chunk, start, n', LeaveScope(r, |env0|), pos + |locals| - |outer|, fuel)
    ensures LeaveScope(r, |env0|).Ends? ==> InScope(outer, LeaveScope(r, |env0|).state.env, depth)
  {
    hide Steps, VmAt, At, Pops;
    n' := n;
    if r.Ends? {
      ScopeLeft(outer, locals, env0, r.state.env, depth);
      var k := |locals| - |outer|;
      assert |r.state.env| - k == |outer|;
      PopsRun(ops, chunk, pos, r.state, k);
      Then(ops, chunk, start, n, Going(VmAt(pos, r.state, [])), k);
      n' := n + k;
    }
  }
}
