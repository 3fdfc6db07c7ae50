/** The part of the language without functions and classes, and what it means: a tree
  * evaluator over named scopes.
  */
module Lox {
  import opened Options

  datatype Value = Nil | Bool(b: bool) | Number(bits: nat) | Text(chars: string) | Object(id: nat)

  /** Arithmetic on numbers, whatever the format: the theorems hold for each choice. */
  datatype Arith = Arith(
    add: (nat, nat) -> nat, subtract: (nat, nat) -> nat, multiply: (nat, nat) -> nat, divide: (nat, nat) -> nat,
    negate: nat -> nat,
    less: (nat, nat) -> bool, greater: (nat, nat) -> bool, same: (nat, nat) -> bool)

  datatype UnaryOp = Not | Negate
  datatype BinaryOp = Equal | NotEqual | Less | LessEqual | Greater | GreaterEqual | Add | Subtract | Multiply | Divide

  datatype Expr =
    | Literal(value: Value)
    | Variable(name: string)
    | Assign(name: string, expr: Expr)
    | Unary(op1: UnaryOp, expr: Expr)
    | Binary(op2: BinaryOp, left: Expr, right: Expr)
    | And(left: Expr, right: Expr)
    | Or(left: Expr, right: Expr)

  datatype Stmt =
    | Evaluate(expr: Expr)
    | Print(expr: Expr)
    | Block(decls: Decls)
    | If(cond: Expr, then_: Stmt, else_: Option<Stmt>)
    | While(cond: Expr, body: Stmt)
    | For(init: Decls, test: Option<Expr>, step: Option<Expr>, body: Stmt)

  datatype Decl = Var(name: string, init: Option<Expr>) | Do(stmt: Stmt)

  datatype Decls = End | More(first: Decl, rest: Decls)

  // ----- meaning -----

  datatype Binding = Binding(name: string, value: Value)

  datatype State = State(env: seq<Binding>, globals: map<string, Value>, output: seq<Value>)

  /** The value of an expression, or a runtime error. */
  datatype Outcome = Yields(value: Value, state: State) | Fails(state: State)

  /** A statement ends, fails, or has not ended when a loop has gone round as often as it
    * was allowed to. */
  datatype Effect = Ends(state: State) | Stops(state: State) | Unfinished

  predicate Falsey(v: Value)
  {
    v.Nil? || v == Bool(false)
  }

  function Apply1(ops: Arith, op: UnaryOp, v: Value): Option<Value>
  {
    match op
    case Not => Some(Bool(Falsey(v)))
    case Negate => if v.Number? then Some(Number((ops.negate)(v.bits))) else None
  }

  /** >= and <= are compiled as the negations of < and >. */
  function OnNumbers(ops: Arith, op: BinaryOp, x: nat, y: nat): Value
  {
    match op
    case Equal => Bool((ops.same)(x, y))
    case NotEqual => Bool(!(ops.same)(x, y))
    case Less => Bool((ops.less)(x, y))
    case LessEqual => Bool(!(ops.greater)(x, y))
    case Greater => Bool((ops.greater)(x, y))
    case GreaterEqual => Bool(!(ops.less)(x, y))
    case Add => Number((ops.add)(x, y))
    case Subtract => Number((ops.subtract)(x, y))
    case Multiply => Number((ops.multiply)(x, y))
    case Divide => Number((ops.divide)(x, y))
  }

  function Apply2(ops: Arith, op: BinaryOp, a: Value, b: Value): Option<Value>
  {
    if a.Number? && b.Number? then Some(OnNumbers(ops, op, a.bits, b.bits))
    else
      match op
      case Equal => Some(Bool(a == b))
      case NotEqual => Some(Bool(a != b))
      case Add => if a.Text? && b.Text? then Some(Text(a.chars + b.chars)) else None
      case _ => None
  }

  /** The innermost binding of a name, or none. */
  function Innermost(env: seq<Binding>, name: string): (r: Option<nat>)
    ensures r.Some? ==> r.value < |env| && env[r.value].name == name
    ensures r.Some? ==> forall i :: r.value < i < |env| ==> env[i].name != name
    ensures r.None? ==> forall i :: 0 <= i < |env| ==> env[i].name != name
  {
    if env == [] then None
    else if env[|env| - 1].name == name then Some(|env| - 1)
    else Innermost(env[..|env| - 1], name)
  }

  function Eval(ops: Arith, e: Expr, s: State): Outcome
    decreases e
  {
    match e
    case Literal(v) => Yields(v, s)
    case Variable(name) =>
      var i := Innermost(s.env, name);
      if i.Some? then Yields(s.env[i.value].value, s)
      else if name in s.globals then Yields(s.globals[name], s)
      else Fails(s)
    case Assign(name, e1) =>
      var r := Eval(ops, e1, s);
      if r.Fails? then r
      else
        var i := Innermost(r.state.env, name);
        if i.Some? then Yields(r.value, r.state.(env := r.state.env[i.value := Binding(name, r.value)]))
        else if name in r.state.globals then Yields(r.value, r.state.(globals := r.state.globals[name := r.value]))
        else Fails(r.state)
    case Unary(op, e1) =>
      var r := Eval(ops, e1, s);
      if r.Fails? then r
      else
        var v := Apply1(ops, op, r.value);
        if v.Some? then Yields(v.value, r.state) else Fails(r.state)
    case Binary(op, left, right) =>
      var l := Eval(ops, left, s);
      if l.Fails? then l
      else
        var r := Eval(ops, right, l.state);
        if r.Fails? then r
        else
          var v := Apply2(ops, op, l.value, r.value);
          if v.Some? then Yields(v.value, r.state) else Fails(r.state)
    case And(left, right) =>
      var l := Eval(ops, left, s);
      if l.Fails? || Falsey(l.value) then l else Eval(ops, right, l.state)
    case Or(left, right) =>
      var l := Eval(ops, left, s);
      if l.Fails? || !Falsey(l.value) then l else Eval(ops, right, l.state)
  }

  function LeaveScope(r: Effect, size: nat): Effect
  {
    if r.Ends? && size <= |r.state.env| then Ends(r.state.(env := r.state.env[..size])) else r
  }

  function Exec(ops: Arith, stmt: Stmt, s: State, depth: nat, fuel: nat): Effect
    decreases fuel, stmt, 0
  {
    match stmt
    case Evaluate(e) =>
      var r := Eval(ops, e, s);
      if r.Fails? then Stops(r.state) else Ends(r.state)
    case Print(e) =>
      var r := Eval(ops, e, s);
      if r.Fails? then Stops(r.state) else Ends(r.state.(output := r.state.output + [r.value]))
    case Block(decls) => LeaveScope(ExecAll(ops, decls, s, depth + 1, fuel), |s.env|)
    case If(cond, then_, else_) =>
      var r := Eval(ops, cond, s);
      if r.Fails? then Stops(r.state)
      else if !Falsey(r.value) then Exec(ops, then_, r.state, depth, fuel)
      else if else_.Some? then Exec(ops, else_.value, r.state, depth, fuel)
      else Ends(r.state)
    case While(cond, body) => Loop(ops, Some(cond), None, body, s, depth, fuel)
    case For(init, test, step, body) =>
      var r := ExecAll(ops, init, s, depth + 1, fuel);
      LeaveScope(if r.Ends? then Loop(ops, test, step, body, r.state, depth + 1, fuel) else r, |s.env|)
  }

  /** Test, body, step, and again. */
  function Loop(ops: Arith, test: Option<Expr>, step: Option<Expr>, body: Stmt, s: State, depth: nat, fuel: nat): Effect
    decreases fuel, body, 1
  {
    var t := if test.Some? then Eval(ops, test.value, s) else Yields(Bool(true), s);
    if t.Fails? then Stops(t.state)
    else if Falsey(t.value) then Ends(t.state)
    else
      var b := Exec(ops, body, t.state, depth, fuel);
      if !b.Ends? then b
      else
        var u := if step.Some? then Eval(ops, step.value, b.state) else Yields(Nil, b.state);
        if u.Fails? then Stops(u.state)
        else if fuel == 0 then Unfinished
        else Loop(ops, test, step, body, u.state, depth, fuel - 1)
  }

  function ExecDecl(ops: Arith, d: Decl, s: State, depth: nat, fuel: nat): Effect
    decreases fuel, d
  {
    match d
    case Do(stmt) => Exec(ops, stmt, s, depth, fuel)
    case Var(name, init) =>
      var r := if init.Some? then Eval(ops, init.value, s) else Yields(Nil, s);
      if r.Fails? then Stops(r.state)
      else if depth == 0 then Ends(r.state.(globals := r.state.globals[name := r.value]))
      else Ends(r.state.(env := r.state.env + [Binding(name, r.value)]))
  }

  function ExecAll(ops: Arith, ds: Decls, s: State, depth: nat, fuel: nat): Effect
    decreases fuel, ds
  {
    match ds
    case End => Ends(s)
    case More(d, rest) =>
      var r := ExecDecl(ops, d, s, depth, fuel);
      if r.Ends? then ExecAll(ops, rest, r.state, depth, fuel) else r
  }
}
