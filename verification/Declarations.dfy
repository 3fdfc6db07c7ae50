/** Which scripts are rejected for their declarations: a block may not declare a name twice, and
  * the initializer of a local may not mention that local.
  */
module Declarations {
  import opened Options
  import opened Lox
  import opened Emission
  import opened CompiledStatements

  // ----- on the tree -----

  /** The names that a list declares itself, not in blocks within. */
  function OwnNames(ds: Decls): seq<string>
  {
    match ds
    case End => []
    case More(d, rest) => (if d.Var? then [d.name] else []) + OwnNames(rest)
  }

  predicate Twice(names: seq<string>)
  {
    exists i, j :: 0 <= i < j < |names| && names[i] == names[j]
  }

  predicate Mentions(e: Expr, name: string)
  {
    match e
    case Literal(_) => false
    case Variable(n) => n == name
    case Assign(n, e1) => n == name || Mentions(e1, name)
    case Unary(_, e1) => Mentions(e1, name)
    case Binary(_, l, r) => Mentions(l, name) || Mentions(r, name)
    case And(l, r) => Mentions(l, name) || Mentions(r, name)
    case Or(l, r) => Mentions(l, name) || Mentions(r, name)
  }

  /** A declaration whose initializer mentions what is being declared. */
  predicate SelfReference(ds: Decls)
  {
    match ds
    case End => false
    case More(d, rest) => (d.Var? && d.init.Some? && Mentions(d.init.value, d.name)) || SelfReference(rest)
  }

  /** Somewhere in a statement there is a scope with one of the two faults. */
  predicate Faulty(stmt: Stmt)
  {
    match stmt
    case Evaluate(_) => false
    case Print(_) => false
    case Block(decls) => FaultyScope(decls) || AnyFaulty(decls)
    case If(_, then_, else_) => Faulty(then_) || (else_.Some? && Faulty(else_.value))
    case While(_, body) => Faulty(body)
    case For(init, _, _, body) => FaultyScope(init) || AnyFaulty(init) || Faulty(body)
  }

  predicate FaultyScope(ds: Decls)
  {
    Twice(OwnNames(ds)) || SelfReference(ds)
  }

  predicate AnyFaulty(ds: Decls)
  {
    match ds
    case End => false
    case More(d, rest) => (d.Do? && Faulty(d.stmt)) || AnyFaulty(rest)
  }

  // ----- on what the compiler keeps -----

  /** A name is taken when a local above every shallower one has it. */
  lemma {:induction false} TakenMeans(locals: seq<Local>, name: string, depth: nat)
    ensures Redeclared(locals, name, depth) <==>
      exists i :: 0 <= i < |locals| && locals[i].name == name
                  && forall j :: i <= j < |locals| ==> locals[j].depth == -1 || locals[j].depth >= depth
  {
    if locals != [] {
      var last, init := |locals| - 1, locals[..|locals| - 1];
      TakenMeans(init, name, depth);
      if Redeclared(locals, name, depth) {
        var i := TakenWhere(locals, name, depth);
      }
      if i: nat :| i < |locals| && locals[i].name == name && forall j :: i <= j < |locals| ==> locals[j].depth == -1 || locals[j].depth >= depth {
        assert locals[last].depth == -1 || locals[last].depth >= depth;
        if i < last {
          assert init[i] == locals[i] && forall j :: i <= j < |init| ==> init[j] == locals[j];
        }
      }
    }
  }

  lemma {:induction false} TakenWhere(locals: seq<Local>, name: string, depth: nat) returns (i: nat)
    requires Redeclared(locals, name, depth)
    ensures i < |locals| && locals[i].name == name
    ensures forall j :: i <= j < |locals| ==> locals[j].depth == -1 || locals[j].depth >= depth
  {
    var last := |locals| - 1;
    if locals[last].name == name {
      i := last;
    } else {
      i := TakenWhere(locals[..last], name, depth);
    }
  }

  lemma {:induction false} NewLocalTakes(locals: seq<Local>, name: string, other: string, depth: nat)
    ensures Redeclared(locals + [Local(name, depth)], other, depth) <==> other == name || Redeclared(locals, other, depth)
  {
    var all := locals + [Local(name, depth)];
    assert all[|all| - 1] == Local(name, depth) && all[..|all| - 1] == locals;
  }

  /** A local that is being declared is what its name stands for, and may not be used. */
  lemma {:induction false} NotYet(e: Expr, locals: seq<Local>, name: string, constants: seq<Value>)
    requires locals != [] && locals[|locals| - 1] == Local(name, -1) && ExprUnit(e, locals, constants).ok
    ensures !Mentions(e, name)
  {
    match e
    case Literal(_) =>
    case Variable(n) =>
    case Assign(n, e1) => NotYet(e1, locals, name, Named(locals, n, constants).constants);
    case Unary(_, e1) => NotYet(e1, locals, name, constants);
    case Binary(_, l, r) => NotYet(l, locals, name, constants); NotYet(r, locals, name, ExprUnit(l, locals, constants).constants);
    case And(l, r) => NotYet(l, locals, name, constants); NotYet(r, locals, name, ExprUnit(l, locals, constants).constants);
    case Or(l, r) => NotYet(l, locals, name, constants); NotYet(r, locals, name, ExprUnit(l, locals, constants).constants);
  }

  lemma {:induction false} VarIsNew(name: string, init: Option<Expr>, locals: seq<Local>, constants: seq<Value>, depth: nat)
    requires depth > 0 && VarUnit(name, init, locals, constants, depth).unit.ok
    ensures !Redeclared(locals, name, depth) && (init.Some? ==> !Mentions(init.value, name))
    ensures VarUnit(name, init, locals, constants, depth).locals == locals + [Local(name, depth)]
  {
    var during := Declared(locals, name);
    assert during == locals + [Local(name, -1)];
    if init.Some? {
      NotYet(init.value, during, name, constants);
    }
    assert Initialized(during, depth) == locals + [Local(name, depth)];
  }

  /** The names of an accepted scope are new to it, one after the other. */
  lemma {:induction false} ScopeIsSound(ds: Decls, locals: seq<Local>, constants: seq<Value>, depth: nat)
    requires depth > 0 && DeclsUnit(ds, locals, constants, depth).unit.ok && UpTo(locals, depth)
    ensures forall n :: n in OwnNames(ds) ==> !Redeclared(locals, n, depth)
    ensures !FaultyScope(ds)
    decreases ds
  {
    match ds
    case End =>
    case More(d, rest) =>
      var first := DeclUnit(d, locals, constants, depth);
      UpToStays(d, locals, constants, depth);
      ScopeIsSound(rest, first.locals, first.unit.constants, depth);
      if d.Do? {
        StmtKeepsLocals(d.stmt, locals, constants, depth);
        assert OwnNames(ds) == OwnNames(rest);
      } else {
        VarIsNew(d.name, d.init, locals, constants, depth);
        forall n | n in OwnNames(rest) ensures n != d.name && !Redeclared(locals, n, depth) {
          NewLocalTakes(locals, d.name, n, depth);
        }
        ConsOnce(d.name, OwnNames(rest));
      }
  }

  lemma ConsOnce(name: string, names: seq<string>)
    requires name !in names && !Twice(names)
    ensures !Twice([name] + names)
  {
    var all := [name] + names;
    forall i, j | 0 <= i < j < |all| ensures all[i] != all[j] {
      assert all[j] == names[j - 1];
      if i > 0 {
        assert all[i] == names[i - 1];
      }
    }
  }

  lemma {:induction false} UpToStays(d: Decl, locals: seq<Local>, constants: seq<Value>, depth: nat)
    requires DeclUnit(d, locals, constants, depth).unit.ok && UpTo(locals, depth)
    ensures UpTo(DeclUnit(d, locals, constants, depth).locals, depth)
  {
    if d.Do? {
      StmtKeepsLocals(d.stmt, locals, constants, depth);
    } else if depth > 0 {
      VarIsNew(d.name, d.init, locals, constants, depth);
    }
  }

  lemma {:induction false} AcceptedStmt(stmt: Stmt, locals: seq<Local>, constants: seq<Value>, depth: nat)
    requires StmtUnit(stmt, locals, constants, depth).unit.ok && UpTo(locals, depth)
    ensures !Faulty(stmt)
    decreases stmt
  {
    match stmt
    case Evaluate(_) =>
    case Print(_) =>
    case Block(decls) =>
      BlockIs(stmt, locals, constants, depth);
      ScopeIsSound(decls, locals, constants, depth + 1);
      AcceptedDecls(decls, locals, constants, depth + 1);
    case If(cond, then_, else_) =>
      IfIs(stmt, locals, constants, depth);
      var c := ExprUnit(cond, locals, constants);
      AcceptedStmt(then_, locals, c.constants, depth);
      StmtKeepsLocals(then_, locals, c.constants, depth);
      if else_.Some? {
        AcceptedStmt(else_.value, locals, StmtUnit(then_, locals, c.constants, depth).unit.constants, depth);
      }
    case While(cond, body) =>
      AcceptedStmt(body, locals, OptExprUnit(None, locals, OptExprUnit(Some(cond), locals, constants).constants).constants, depth);
    case For(init, test, step, body) =>
      ForIs(stmt, locals, constants, depth);
      var i := DeclsUnit(init, locals, constants, depth + 1);
      UpToDeeper(locals, depth);
      DeclsOpen(init, locals, locals, constants, depth + 1);
      ScopeIsSound(init, locals, constants, depth + 1);
      AcceptedDecls(init, locals, constants, depth + 1);
      AcceptedStmt(body, i.locals, OptExprUnit(step, i.locals, OptExprUnit(test, i.locals, i.unit.constants).constants).constants, depth + 1);
  }

  lemma {:induction false} AcceptedDecls(ds: Decls, locals: seq<Local>, constants: seq<Value>, depth: nat)
    requires DeclsUnit(ds, locals, constants, depth).unit.ok && UpTo(locals, depth)
    ensures !AnyFaulty(ds)
    decreases ds
  {
    match ds
    case End =>
    case More(d, rest) =>
      var first := DeclUnit(d, locals, constants, depth);
      if d.Do? {
        AcceptedStmt(d.stmt, locals, constants, depth);
      }
      UpToStays(d, locals, constants, depth);
      AcceptedDecls(rest, first.locals, first.unit.constants, depth);
  }

  /** No script is accepted in which a scope declares a name twice, or a local's initializer
    * mentions the local. */
  lemma {:induction false} FaultyScriptsAreRejected(program: Decls)
    ensures AnyFaulty(program) ==> !ScriptUnit(program).ok
  {
    hide DeclsUnit, AnyFaulty;
    if ScriptUnit(program).ok {
      AcceptedDecls(program, SCRIPT_LOCALS, [], 0);
    }
  }

  /** The same spelled out: two declarations of one name in a block, with any statements and other
    * declarations before, between and after them, wherever the block stands. */
  lemma {:induction false} TwiceInABlock(program: Decls, decls: Decls, i: nat, j: nat)
    requires Within(Block(decls), program) && i < j < |OwnNames(decls)| && OwnNames(decls)[i] == OwnNames(decls)[j]
    ensures !ScriptUnit(program).ok
  {
    hide ScriptUnit;
    FaultyScriptsAreRejected(program);
    assert FaultyScope(decls);
    WithinFaulty(Block(decls), program);
  }

  /** A statement stands in a list of declarations, at any depth. */
  predicate Within(stmt: Stmt, ds: Decls)
  {
    match ds
    case End => false
    case More(d, rest) => (d.Do? && Inside(stmt, d.stmt)) || Within(stmt, rest)
  }

  predicate Inside(stmt: Stmt, whole: Stmt)
  {
    stmt == whole ||
    match whole
    case Evaluate(_) => false
    case Print(_) => false
    case Block(decls) => Within(stmt, decls)
    case If(_, then_, else_) => Inside(stmt, then_) || (else_.Some? && Inside(stmt, else_.value))
    case While(_, body) => Inside(stmt, body)
    case For(init, _, _, body) => Within(stmt, init) || Inside(stmt, body)
  }

  lemma {:induction false} WithinFaulty(stmt: Stmt, ds: Decls)
    requires Faulty(stmt) && Within(stmt, ds)
    ensures AnyFaulty(ds)
    decreases ds
  {
    match ds
    case More(d, rest) =>
      if d.Do? && Inside(stmt, d.stmt) {
        InsideFaulty(stmt, d.stmt);
      } else {
        WithinFaulty(stmt, rest);
      }
  }

  lemma {:induction false} InsideFaulty(stmt: Stmt, whole: Stmt)
    requires Faulty(stmt) && Inside(stmt, whole)
    ensures Faulty(whole)
    decreases whole
  {
    if stmt != whole {
      match whole
      case Block(decls) => WithinFaulty(stmt, decls);
      case If(_, then_, else_) =>
        if Inside(stmt, then_) { InsideFaulty(stmt, then_); } else { InsideFaulty(stmt, else_.value); }
      case While(_, body) => InsideFaulty(stmt, body);
      case For(init, _, _, body) =>
        if Within(stmt, init) { WithinFaulty(stmt, init); } else { InsideFaulty(stmt, body); }
    }
  }
}
