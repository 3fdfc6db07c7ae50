/** Expressions from tokens, by precedence: parsePrecedence and its rules accept exactly the
  * phrases of a layered grammar, and read each of them in the one way the grammar allows.
  */
module Pratt {
  import opened Options
  import opened Lox

  /** The tokens of expressions, and whatever ends one. */
  datatype Token =
    | LeftParen | RightParen | Dot | Equals | Bang | Minus
    | Name(name: string) | Constant(value: Value)
    | Operator(op: BinaryOp)   // every infix operator but `-`, `and` and `or`
    | AndToken | OrToken
    | Other(code: nat)

  const NONE := 0
  const ASSIGNMENT := 1
  const OR := 2
  const AND := 3
  const EQUALITY := 4
  const COMPARISON := 5
  const TERM := 6
  const FACTOR := 7
  const UNARY := 8
  const CALL := 9
  const PRIMARY := 10

  function Precedence(op: BinaryOp): nat
  {
    match op
    case Equal => EQUALITY
    case NotEqual => EQUALITY
    case Less => COMPARISON
    case LessEqual => COMPARISON
    case Greater => COMPARISON
    case GreaterEqual => COMPARISON
    case Add => TERM
    case Subtract => TERM
    case Multiply => FACTOR
    case Divide => FACTOR
  }

  /** The infix column of the rule table. A minus sign is the operator of a difference. */
  function InfixOp(t: Token): Option<BinaryOp>
  {
    match t
    case Minus => Some(Subtract)
    case Operator(op) => if op == Subtract then None else Some(op)
    case _ => None
  }

  function InfixPrecedence(t: Token): nat
  {
    match t
    case AndToken => AND
    case OrToken => OR
    case LeftParen => CALL
    case Dot => CALL
    case _ => if InfixOp(t).Some? then Precedence(InfixOp(t).value) else NONE
  }

  /** A call or a property: outside this model, and refused. */
  predicate IsCall(t: Token)
  {
    t.LeftParen? || t.Dot?
  }

  datatype Parsed = Parsed(expr: Expr, rest: seq<Token>) | Refused

  predicate Shorter(r: Parsed, ts: seq<Token>)
  {
    r.Parsed? ==> |r.rest| < |ts|
  }

  predicate CanAssign(prec: nat)
  {
    prec <= ASSIGNMENT
  }

  /** The prefix rules: grouping, unary, literals and variables with their assignments. */
  function Prefix(ts: seq<Token>, prec: nat): (r: Parsed)
    requires ASSIGNMENT <= prec
    ensures Shorter(r, ts)
    decreases |ts|, 0
  {
    if ts == [] then Refused
    else
      match ts[0]
      case Constant(v) => Parsed(Literal(v), ts[1..])
      case Name(name) =>
        if CanAssign(prec) && |ts| > 1 && ts[1].Equals? then
          var r := Parse(ts[2..], ASSIGNMENT);
          if r.Refused? then r else Parsed(Assign(name, r.expr), r.rest)
        else Parsed(Variable(name), ts[1..])
      case LeftParen =>
        var r := Parse(ts[1..], ASSIGNMENT);
        if r.Parsed? && r.rest != [] && r.rest[0].RightParen? then Parsed(r.expr, r.rest[1..]) else Refused
      case Minus =>
        var r := Parse(ts[1..], UNARY);
        if r.Refused? then r else Parsed(Unary(Negate, r.expr), r.rest)
      case Bang =>
        var r := Parse(ts[1..], UNARY);
        if r.Refused? then r else Parsed(Unary(Not, r.expr), r.rest)
      case _ => Refused
  }

  /** The infix rules, as long as the next token binds tightly enough. */
  function Infix(left: Expr, ts: seq<Token>, prec: nat): (r: Parsed)
    requires ASSIGNMENT <= prec
    ensures r.Parsed? ==> |r.rest| <= |ts|
    decreases |ts|, 2
  {
    if ts == [] || InfixPrecedence(ts[0]) < prec then
      if CanAssign(prec) && ts != [] && ts[0].Equals? then Refused else Parsed(left, ts)
    else if IsCall(ts[0]) then Refused
    else
      var r := Parse(ts[1..], RightPrecedence(ts[0]));
      if r.Refused? then r else Infix(Combined(left, ts[0], r.expr), r.rest, prec)
  }

  /** and_ and or_ parse their right operand at their own level, binary one level up. */
  function RightPrecedence(t: Token): nat
  {
    if t.AndToken? || t.OrToken? then InfixPrecedence(t) else InfixPrecedence(t) + 1
  }

  function Combined(left: Expr, t: Token, right: Expr): Expr
  {
    match t
    case AndToken => And(left, right)
    case OrToken => Or(left, right)
    case _ => if InfixOp(t).Some? then Binary(InfixOp(t).value, left, right) else left
  }

  /** parsePrecedence */
  function Parse(ts: seq<Token>, prec: nat): (r: Parsed)
    requires ASSIGNMENT <= prec
    ensures Shorter(r, ts)
    decreases |ts|, 1
  {
    var r := Prefix(ts, prec);
    if r.Refused? then r else Infix(r.expr, r.rest, prec)
  }

  /** The loop of parsePrecedence. */
  method ParsePrecedence(ts: seq<Token>, prec: nat) returns (r: Parsed)
    requires ASSIGNMENT <= prec
    ensures r == Parse(ts, prec)
    decreases |ts|, 1
  {
    r := ParsePrefix(ts, prec);
    if r.Refused? { return; }
    var left, rest := r.expr, r.rest;
    while rest != [] && prec <= InfixPrecedence(rest[0])
      invariant |rest| < |ts| && Infix(left, rest, prec) == Parse(ts, prec)
      decreases |rest|
    {
      if IsCall(rest[0]) { return Refused; }
      var right := ParsePrecedence(rest[1..], RightPrecedence(rest[0]));
      if right.Refused? { return Refused; }
      left, rest := Combined(left, rest[0], right.expr), right.rest;
    }
    if CanAssign(prec) && rest != [] && rest[0].Equals? { return Refused; }
    r := Parsed(left, rest);
  }

  method ParsePrefix(ts: seq<Token>, prec: nat) returns (r: Parsed)
    requires ASSIGNMENT <= prec
    ensures r == Prefix(ts, prec)
    decreases |ts|, 0
  {
    if ts == [] { return Refused; }
    match ts[0]
    case Constant(v) => r := Parsed(Literal(v), ts[1..]);
    case Name(name) =>
      if CanAssign(prec) && |ts| > 1 && ts[1].Equals? {
        r := ParsePrecedence(ts[2..], ASSIGNMENT);
        if r.Parsed? { r := Parsed(Assign(name, r.expr), r.rest); }
      } else {
        r := Parsed(Variable(name), ts[1..]);
      }
    case LeftParen =>
      r := ParsePrecedence(ts[1..], ASSIGNMENT);
      if r.Parsed? && r.rest != [] && r.rest[0].RightParen? {
        r := Parsed(r.expr, r.rest[1..]);
      } else {
        r := Refused;
      }
    case Minus =>
      r := ParsePrecedence(ts[1..], UNARY);
      if r.Parsed? { r := Parsed(Unary(Negate, r.expr), r.rest); }
    case Bang =>
      r := ParsePrecedence(ts[1..], UNARY);
      if r.Parsed? { r := Parsed(Unary(Not, r.expr), r.rest); }
    case _ => r := Refused;
  }

  // ----- the grammar -----

  /** Phrases keep the parentheses that expressions drop. */
  datatype Phrase =
    | Fixed(value: Value)
    | Named(name: string)
    | Group(inner: Phrase)
    | Assigned(target: string, source: Phrase)
    | Prefixed(op: UnaryOp, operand: Phrase)
    | Joined(left: Phrase, joint: Token, right: Phrase)

  function Level(p: Phrase): nat
  {
    match p
    case Fixed(_) => PRIMARY
    case Named(_) => PRIMARY
    case Group(_) => PRIMARY
    case Assigned(_, _) => ASSIGNMENT
    case Prefixed(_, _) => UNARY
    case Joined(_, t, _) => InfixPrecedence(t)
  }

  predicate Joins(t: Token)
  {
    t.AndToken? || t.OrToken? || InfixOp(t).Some?
  }

  /** `and` and `or` lean to the right, every other operator to the left. */
  function LeftPrecedence(t: Token): nat
  {
    if t.AndToken? || t.OrToken? then InfixPrecedence(t) + 1 else InfixPrecedence(t)
  }

  predicate Grammatical(p: Phrase)
  {
    match p
    case Fixed(_) => true
    case Named(_) => true
    case Group(q) => Grammatical(q)
    case Assigned(_, q) => Grammatical(q)
    case Prefixed(_, q) => Grammatical(q) && UNARY <= Level(q)
    case Joined(l, t, r) =>
      Joins(t) && Grammatical(l) && Grammatical(r) && LeftPrecedence(t) <= Level(l) && RightPrecedence(t) <= Level(r)
  }

  function Meaning(p: Phrase): Expr
  {
    match p
    case Fixed(v) => Literal(v)
    case Named(name) => Variable(name)
    case Group(q) => Meaning(q)
    case Assigned(name, q) => Assign(name, Meaning(q))
    case Prefixed(op, q) => Unary(op, Meaning(q))
    case Joined(l, t, r) => Combined(Meaning(l), t, Meaning(r))
  }

  function Tokens(p: Phrase): (ts: seq<Token>)
    ensures ts != []
  {
    match p
    case Fixed(v) => [Constant(v)]
    case Named(name) => [Name(name)]
    case Group(q) => [LeftParen] + Tokens(q) + [RightParen]
    case Assigned(name, q) => [Name(name), Equals] + Tokens(q)
    case Prefixed(op, q) => [Sign(op)] + Tokens(q)
    case Joined(l, t, r) => Tokens(l) + [t] + Tokens(r)
  }

  function Sign(op: UnaryOp): Token
  {
    if op.Not? then Bang else Minus
  }

  /** Where a phrase of a level has to end. */
  predicate Stops(rest: seq<Token>, prec: nat)
  {
    rest == [] || (InfixPrecedence(rest[0]) < prec && (rest[0].Equals? ==> !CanAssign(prec)))
  }

  // ----- every phrase of the grammar is read -----

  /** What may follow a phrase of a level without becoming part of it. */
  predicate Separate(rest: seq<Token>, level: nat, prec: nat)
  {
    rest == [] ||
    (!IsCall(rest[0]) && (rest[0].Equals? ==> !CanAssign(prec))
     && (InfixPrecedence(rest[0]) < level || (InfixPrecedence(rest[0]) == level && EQUALITY <= level)))
  }

  /** Reading goes on with the phrase as the left operand of what follows. */
  lemma {:induction false} Reads(p: Phrase, level: nat, prec: nat, rest: seq<Token>)
    requires Grammatical(p) && ASSIGNMENT <= prec <= level <= Level(p) && Separate(rest, level, prec)
    ensures Parse(Tokens(p) + rest, prec) == Infix(Meaning(p), rest, prec)
    decreases p, 1
  {
    hide Parse, Infix;
    match p
    case Fixed(v) => ReadsToken(Constant(v), prec, rest);
    case Named(name) => ReadsToken(Name(name), prec, rest);
    case Group(q) =>
      ReadsAlone(q, ASSIGNMENT, [RightParen] + rest);
      assert Tokens(p) + rest == [LeftParen] + (Tokens(q) + ([RightParen] + rest));
      InGroup(Meaning(q), Tokens(q) + ([RightParen] + rest), rest, prec);
    case Assigned(_, _) => ReadsAssigned(p, prec, rest);
    case Prefixed(_, _) => ReadsPrefixed(p, level, prec, rest);
    case Joined(_, _, _) => ReadsJoined(p, level, prec, rest);
  }

  /** A phrase alone: nothing of what follows belongs to it. */
  lemma {:induction false} ReadsAlone(p: Phrase, prec: nat, rest: seq<Token>)
    requires Grammatical(p) && ASSIGNMENT <= prec <= UNARY && prec <= Level(p) && Stops(rest, prec)
    ensures Parse(Tokens(p) + rest, prec) == Parsed(Meaning(p), rest)
    decreases p, 2
  {
    hide Parse, Tokens, Grammatical, Meaning;
    Reads(p, prec, prec, rest);
  }

  lemma {:induction false} InGroup(e: Expr, inside: seq<Token>, rest: seq<Token>, prec: nat)
    requires ASSIGNMENT <= prec && Parse(inside, ASSIGNMENT) == Parsed(e, [RightParen] + rest)
    ensures Parse([LeftParen] + inside, prec) == Infix(e, rest, prec)
  {
    var ts := [LeftParen] + inside;
    assert ts[1..] == inside && ([RightParen] + rest)[1..] == rest;
    hide Infix;
  }

  lemma {:induction false} ReadsToken(t: Token, prec: nat, rest: seq<Token>)
    requires ASSIGNMENT <= prec && (t.Constant? || t.Name?)
    requires rest != [] && rest[0].Equals? ==> !CanAssign(prec)
    ensures Parse([t] + rest, prec) == Infix(if t.Name? then Variable(t.name) else Literal(t.value), rest, prec)
  {
    hide Infix;
    assert ([t] + rest)[1..] == rest;
  }

  lemma {:induction false} ReadsAssigned(p: Phrase, prec: nat, rest: seq<Token>)
    requires p.Assigned? && Grammatical(p) && prec == ASSIGNMENT && Separate(rest, ASSIGNMENT, prec)
    ensures Parse(Tokens(p) + rest, prec) == Infix(Meaning(p), rest, prec)
    decreases p, 0
  {
    hide Infix;
    var right := Tokens(p.source) + rest;
    var ts := Tokens(p) + rest;
    assert ts == [Name(p.target), Equals] + right;
    assert ts[2..] == right;
    ReadsAlone(p.source, ASSIGNMENT, rest);
    assert Prefix(ts, prec) == Parsed(Meaning(p), rest);
  }

  lemma {:induction false} ReadsPrefixed(p: Phrase, level: nat, prec: nat, rest: seq<Token>)
    requires p.Prefixed? && Grammatical(p) && ASSIGNMENT <= prec <= level <= UNARY && Separate(rest, level, prec)
    ensures Parse(Tokens(p) + rest, prec) == Infix(Meaning(p), rest, prec)
    decreases p, 0
  {
    hide Infix;
    var right := Tokens(p.operand) + rest;
    var ts := Tokens(p) + rest;
    assert ts == [Sign(p.op)] + right;
    assert ts[1..] == right;
    ReadsAlone(p.operand, UNARY, rest);
    assert Prefix(ts, prec) == Parsed(Meaning(p), rest);
  }

  lemma {:induction false} ReadsJoined(p: Phrase, level: nat, prec: nat, rest: seq<Token>)
    requires p.Joined? && Grammatical(p) && ASSIGNMENT <= prec <= level <= Level(p) && Separate(rest, level, prec)
    ensures Parse(Tokens(p) + rest, prec) == Infix(Meaning(p), rest, prec)
    decreases p, 0
  {
    hide Parse, Infix;
    var t := p.joint;
    var right := Tokens(p.right) + rest;
    var after := [t] + right;
    assert Tokens(p) + rest == Tokens(p.left) + after;
    assert after[1..] == right;
    Reads(p.left, LeftPrecedence(t), prec, after);
    ReadsAlone(p.right, RightPrecedence(t), rest);
    TakesOperand(Meaning(p.left), t, Meaning(p.right), after, rest, prec);
  }

  lemma {:induction false} TakesOperand(l: Expr, t: Token, r: Expr, after: seq<Token>, rest: seq<Token>, prec: nat)
    requires ASSIGNMENT <= prec <= InfixPrecedence(t) && !IsCall(t) && after != [] && after[0] == t
    requires Parse(after[1..], RightPrecedence(t)) == Parsed(r, rest)
    ensures Infix(l, after, prec) == Infix(Combined(l, t, r), rest, prec)
  {
    hide Parse;
  }

  // ----- nothing else is read -----

  /** The phrase a successful reading took. */
  predicate Explains(p: Phrase, ts: seq<Token>, r: Parsed)
  {
    r.Parsed? && Grammatical(p) && Meaning(p) == r.expr && ts == Tokens(p) + r.rest
  }

  predicate Fits(rest: seq<Token>, p: Phrase)
  {
    rest == [] || LeftPrecedence(rest[0]) <= Level(p)
  }

  lemma {:induction false} Taken(ts: seq<Token>, prec: nat) returns (p: Phrase)
    requires ASSIGNMENT <= prec <= UNARY && Parse(ts, prec).Parsed?
    ensures Explains(p, ts, Parse(ts, prec)) && prec <= Level(p) && Stops(Parse(ts, prec).rest, prec)
    decreases |ts|, 1
  {
    hide Prefix, Infix, Tokens, Meaning, Grammatical;
    var r := Prefix(ts, prec);
    p := TakenPrefix(ts, prec);
    p := TakenInfix(ts, p, r.rest, prec);
  }

  lemma {:induction false} TakenPrefix(ts: seq<Token>, prec: nat) returns (p: Phrase)
    requires ASSIGNMENT <= prec <= UNARY && Prefix(ts, prec).Parsed?
    ensures Explains(p, ts, Prefix(ts, prec)) && prec <= Level(p) && Fits(Prefix(ts, prec).rest, p)
    decreases |ts|, 0
  {
    hide Parse, Explains;
    match ts[0]
    case Constant(v) =>
      p := Fixed(v);
      IsPhrase(p, ts, Prefix(ts, prec));
    case Name(name) =>
      if CanAssign(prec) && |ts| > 1 && ts[1].Equals? {
        var q := Taken(ts[2..], ASSIGNMENT);
        p := Assigned(name, q);
        IsAssigned(name, q, ts, Parse(ts[2..], ASSIGNMENT));
      } else {
        p := Named(name);
        IsPhrase(p, ts, Prefix(ts, prec));
      }
    case LeftParen =>
      var q := Taken(ts[1..], ASSIGNMENT);
      p := Group(q);
      IsGroup(q, ts, Parse(ts[1..], ASSIGNMENT));
    case Minus =>
      var q := Taken(ts[1..], UNARY);
      p := Prefixed(Negate, q);
      IsPrefixed(Negate, q, ts, Parse(ts[1..], UNARY));
    case Bang =>
      var q := Taken(ts[1..], UNARY);
      p := Prefixed(Not, q);
      IsPrefixed(Not, q, ts, Parse(ts[1..], UNARY));
  }

  lemma {:induction false} IsPhrase(p: Phrase, ts: seq<Token>, r: Parsed)
    requires p.Fixed? || p.Named?
    requires ts != [] && r == Parsed(Meaning(p), ts[1..]) && Tokens(p) == [ts[0]]
    ensures Explains(p, ts, r)
  {
  }

  lemma {:induction false} IsAssigned(name: string, q: Phrase, ts: seq<Token>, r: Parsed)
    requires |ts| > 1 && ts[0] == Name(name) && ts[1] == Equals && Explains(q, ts[2..], r)
    ensures Explains(Assigned(name, q), ts, Parsed(Assign(name, r.expr), r.rest))
  {
    assert ts == [Name(name), Equals] + ts[2..];
  }

  lemma {:induction false} IsGroup(q: Phrase, ts: seq<Token>, r: Parsed)
    requires ts != [] && ts[0] == LeftParen && Explains(q, ts[1..], r) && r.rest != [] && r.rest[0] == RightParen
    ensures Explains(Group(q), ts, Parsed(r.expr, r.rest[1..]))
  {
    assert ts == [LeftParen] + ts[1..] && r.rest == [RightParen] + r.rest[1..];
  }

  lemma {:induction false} IsPrefixed(op: UnaryOp, q: Phrase, ts: seq<Token>, r: Parsed)
    requires ts != [] && ts[0] == Sign(op) && Explains(q, ts[1..], r) && UNARY <= Level(q)
    ensures Explains(Prefixed(op, q), ts, Parsed(Unary(op, r.expr), r.rest))
  {
    assert ts == [Sign(op)] + ts[1..];
  }

  lemma {:induction false} IsJoined(l: Phrase, t: Token, q: Phrase, ts: seq<Token>, rest: seq<Token>, r: Parsed)
    requires Grammatical(l) && ts == Tokens(l) + rest && rest != [] && rest[0] == t && Joins(t)
    requires LeftPrecedence(t) <= Level(l) && Explains(q, rest[1..], r) && RightPrecedence(t) <= Level(q)
    ensures Explains(Joined(l, t, q), ts, Parsed(Combined(Meaning(l), t, r.expr), r.rest))
  {
    assert rest == [t] + rest[1..];
  }

  lemma {:induction false} TakenInfix(ts: seq<Token>, left: Phrase, rest: seq<Token>, prec: nat) returns (p: Phrase)
    requires ASSIGNMENT <= prec <= UNARY && Grammatical(left) && prec <= Level(left) && Fits(rest, left)
    requires ts == Tokens(left) + rest
    requires Infix(Meaning(left), rest, prec).Parsed?
    ensures Explains(p, ts, Infix(Meaning(left), rest, prec)) && prec <= Level(p)
    ensures Stops(Infix(Meaning(left), rest, prec).rest, prec)
    decreases |rest|, 2
  {
    hide Parse, Tokens, Meaning, Grammatical;
    if rest == [] || InfixPrecedence(rest[0]) < prec {
      p := left;
    } else {
      var t := rest[0];
      var r := Parse(rest[1..], RightPrecedence(t));
      var right := Taken(rest[1..], RightPrecedence(t));
      IsJoined(left, t, right, ts, rest, r);
      p := TakenInfix(ts, Joined(left, t, right), r.rest, prec);
    }
  }

  // ----- the grammar is what parsePrecedence accepts -----

  ghost predicate Phrased(ts: seq<Token>, prec: nat, e: Expr, rest: seq<Token>)
  {
    exists p :: Explains(p, ts, Parsed(e, rest)) && prec <= Level(p)
  }

  /** At every precedence the compiler asks for, an expression is read and a rest left exactly
    * when the tokens are a phrase of that level with that meaning, followed by what cannot
    * belong to it. */
  lemma {:induction false} ReadsTheGrammar(ts: seq<Token>, prec: nat, e: Expr, rest: seq<Token>)
    requires ASSIGNMENT <= prec <= UNARY
    ensures Parse(ts, prec) == Parsed(e, rest) <==> Phrased(ts, prec, e, rest) && Stops(rest, prec)
  {
    hide Parse, Tokens, Meaning, Grammatical;
    if Parse(ts, prec) == Parsed(e, rest) {
      var p := Taken(ts, prec);
      assert Explains(p, ts, Parsed(e, rest));
    }
    if Phrased(ts, prec, e, rest) && Stops(rest, prec) {
      var p :| Explains(p, ts, Parsed(e, rest)) && prec <= Level(p);
      ReadsAlone(p, prec, rest);
    }
  }

  /** The grammar is unambiguous: the same tokens never have two meanings. */
  lemma {:induction false} OneMeaning(p: Phrase, q: Phrase)
    requires Grammatical(p) && Grammatical(q) && Tokens(p) == Tokens(q)
    ensures Meaning(p) == Meaning(q)
  {
    hide Parse, Tokens, Meaning, Grammatical;
    LevelsBegin(p);
    LevelsBegin(q);
    ReadsAlone(p, ASSIGNMENT, []);
    ReadsAlone(q, ASSIGNMENT, []);
    assert Tokens(p) + [] == Tokens(p);
  }

  lemma {:induction false} LevelsBegin(p: Phrase)
    requires Grammatical(p)
    ensures ASSIGNMENT <= Level(p)
  {
  }

  // ----- writing expressions down -----

  function Grouped(p: Phrase, level: nat): Phrase
  {
    if Level(p) < level then Group(p) else p
  }

  function TokenOf(op: BinaryOp): Token
  {
    if op == Subtract then Minus else Operator(op)
  }

  /** An expression with no more parentheses than a level asks for. */
  function Written(e: Expr, level: nat): Phrase
  {
    match e
    case Literal(v) => Fixed(v)
    case Variable(name) => Named(name)
    case Assign(name, e1) => Grouped(Assigned(name, Written(e1, ASSIGNMENT)), level)
    case Unary(op, e1) => Grouped(Prefixed(op, Written(e1, UNARY)), level)
    case Binary(op, l, r) =>
      Grouped(Joined(Written(l, Precedence(op)), TokenOf(op), Written(r, Precedence(op) + 1)), level)
    case And(l, r) => Grouped(Joined(Written(l, AND + 1), AndToken, Written(r, AND)), level)
    case Or(l, r) => Grouped(Joined(Written(l, OR + 1), OrToken, Written(r, OR)), level)
  }

  lemma {:induction false} WrittenMeans(e: Expr, level: nat)
    requires level <= PRIMARY
    ensures Grammatical(Written(e, level)) && level <= Level(Written(e, level)) && Meaning(Written(e, level)) == e
  {
    hide Grouped, Grammatical, Meaning;
    match e
    case Literal(v) => AtomMeans(e, Fixed(v));
    case Variable(name) => AtomMeans(e, Named(name));
    case Assign(name, e1) =>
      WrittenMeans(e1, ASSIGNMENT);
      AssignedMeans(name, Written(e1, ASSIGNMENT));
      GroupedMeans(Assigned(name, Written(e1, ASSIGNMENT)), level);
    case Unary(op, e1) =>
      WrittenMeans(e1, UNARY);
      PrefixedMeans(op, Written(e1, UNARY));
      GroupedMeans(Prefixed(op, Written(e1, UNARY)), level);
    case Binary(op, l, r) =>
      WrittenMeans(l, Precedence(op));
      WrittenMeans(r, Precedence(op) + 1);
      TokenJoins(op, l, r);
      JoinedMeans(Written(l, Precedence(op)), TokenOf(op), Written(r, Precedence(op) + 1));
      GroupedMeans(Joined(Written(l, Precedence(op)), TokenOf(op), Written(r, Precedence(op) + 1)), level);
    case And(l, r) =>
      WrittenMeans(l, AND + 1);
      WrittenMeans(r, AND);
      JoinedMeans(Written(l, AND + 1), AndToken, Written(r, AND));
      GroupedMeans(Joined(Written(l, AND + 1), AndToken, Written(r, AND)), level);
    case Or(l, r) =>
      WrittenMeans(l, OR + 1);
      WrittenMeans(r, OR);
      JoinedMeans(Written(l, OR + 1), OrToken, Written(r, OR));
      GroupedMeans(Joined(Written(l, OR + 1), OrToken, Written(r, OR)), level);
  }

  lemma {:induction false} AtomMeans(e: Expr, p: Phrase)
    requires (e.Literal? && p == Fixed(e.value)) || (e.Variable? && p == Named(e.name))
    ensures Grammatical(p) && Level(p) == PRIMARY && Meaning(p) == e
  {
  }

  lemma {:induction false} AssignedMeans(name: string, q: Phrase)
    requires Grammatical(q)
    ensures Grammatical(Assigned(name, q)) && Meaning(Assigned(name, q)) == Assign(name, Meaning(q))
  {
  }

  lemma {:induction false} PrefixedMeans(op: UnaryOp, q: Phrase)
    requires Grammatical(q) && UNARY <= Level(q)
    ensures Grammatical(Prefixed(op, q)) && Meaning(Prefixed(op, q)) == Unary(op, Meaning(q))
  {
  }

  lemma {:induction false} JoinedMeans(l: Phrase, t: Token, r: Phrase)
    requires Joins(t) && Grammatical(l) && Grammatical(r) && LeftPrecedence(t) <= Level(l) && RightPrecedence(t) <= Level(r)
    ensures Grammatical(Joined(l, t, r)) && Meaning(Joined(l, t, r)) == Combined(Meaning(l), t, Meaning(r))
  {
  }

  lemma {:induction false} GroupedMeans(p: Phrase, level: nat)
    requires Grammatical(p) && level <= PRIMARY
    ensures Grammatical(Grouped(p, level)) && level <= Level(Grouped(p, level)) && Meaning(Grouped(p, level)) == Meaning(p)
  {
  }

  lemma {:induction false} TokenJoins(op: BinaryOp, l: Expr, r: Expr)
    ensures Joins(TokenOf(op)) && InfixPrecedence(TokenOf(op)) == Precedence(op) <= FACTOR
    ensures !TokenOf(op).AndToken? && !TokenOf(op).OrToken?
    ensures Combined(l, TokenOf(op), r) == Binary(op, l, r)
  {
  }

  /** The round trip: every expression, written down for a level, is read back as it was meant,
    * and what follows is left. */
  lemma {:induction false} RoundTrip(e: Expr, level: nat, rest: seq<Token>)
    requires ASSIGNMENT <= level <= UNARY && Stops(rest, level)
    ensures Parse(Tokens(Written(e, level)) + rest, level) == Parsed(e, rest)
  {
    hide Parse, Tokens, Written, Grammatical, Meaning;
    WrittenMeans(e, level);
    ReadsAlone(Written(e, level), level, rest);
  }

  // ----- which operators bind tighter -----

  /** expression() */
  function ParseExpression(ts: seq<Token>): Parsed
  {
    Parse(ts, ASSIGNMENT)
  }

  /** A phrase with nothing after it. */
  lemma {:induction false} ReadsWhole(p: Phrase, ts: seq<Token>)
    requires Grammatical(p) && ts == Tokens(p)
    ensures ParseExpression(ts) == Parsed(Meaning(p), [])
  {
    hide Parse, Tokens, Meaning, Grammatical;
    LevelsBegin(p);
    ReadsAlone(p, ASSIGNMENT, []);
    assert Tokens(p) + [] == Tokens(p);
  }

  /** A phrase with its tokens and its meaning. */
  ghost predicate Spells(p: Phrase, ts: seq<Token>, e: Expr)
  {
    Grammatical(p) && Tokens(p) == ts && Meaning(p) == e
  }

  lemma {:induction false} SpellsReads(p: Phrase, ts: seq<Token>, e: Expr)
    requires Spells(p, ts, e)
    ensures ParseExpression(ts) == Parsed(e, [])
  {
    ReadsWhole(p, ts);
  }

  lemma {:induction false} SpellsFixed(x: Value)
    ensures Spells(Fixed(x), [Constant(x)], Literal(x)) && Level(Fixed(x)) == PRIMARY
  {
  }

  lemma {:induction false} SpellsPrefixed(op: UnaryOp, p: Phrase, ts: seq<Token>, e: Expr)
    requires Spells(p, ts, e) && UNARY <= Level(p)
    ensures Spells(Prefixed(op, p), [Sign(op)] + ts, Unary(op, e)) && Level(Prefixed(op, p)) == UNARY
  {
  }

  lemma {:induction false} SpellsGroup(p: Phrase, ts: seq<Token>, e: Expr)
    requires Spells(p, ts, e)
    ensures Spells(Group(p), [LeftParen] + ts + [RightParen], e) && Level(Group(p)) == PRIMARY
  {
  }

  lemma {:induction false} SpellsAssigned(n: string, p: Phrase, ts: seq<Token>, e: Expr)
    requires Spells(p, ts, e)
    ensures Spells(Assigned(n, p), [Name(n), Equals] + ts, Assign(n, e))
  {
  }

  lemma {:induction false} SpellsJoined(p: Phrase, ps: seq<Token>, d: Expr, t: Token, q: Phrase, qs: seq<Token>, e: Expr)
    requires Spells(p, ps, d) && Spells(q, qs, e) && Joins(t) && LeftPrecedence(t) <= Level(p) && RightPrecedence(t) <= Level(q)
    ensures Spells(Joined(p, t, q), ps + [t] + qs, Combined(d, t, e)) && Level(Joined(p, t, q)) == InfixPrecedence(t)
  {
  }

  /** Two literals around an operator. */
  lemma {:induction false} SpellsPair(x: Value, t: Token, y: Value) returns (p: Phrase)
    requires Joins(t) && InfixPrecedence(t) <= FACTOR
    ensures Spells(p, [Constant(x), t, Constant(y)], Combined(Literal(x), t, Literal(y))) && Level(p) == InfixPrecedence(t)
  {
    hide Spells, Level, Combined;
    SpellsFixed(x);
    SpellsFixed(y);
    SpellsJoined(Fixed(x), [Constant(x)], Literal(x), t, Fixed(y), [Constant(y)], Literal(y));
    assert [Constant(x)] + [t] + [Constant(y)] == [Constant(x), t, Constant(y)];
    p := Joined(Fixed(x), t, Fixed(y));
  }

  /** What each token means between two operands, in that order, or in front of one. */
  lemma {:induction false} OperatorsRead(x: Value, y: Value)
    ensures ParseExpression([Constant(x), OrToken, Constant(y)]) == Parsed(Or(Literal(x), Literal(y)), [])
    ensures ParseExpression([Constant(x), AndToken, Constant(y)]) == Parsed(And(Literal(x), Literal(y)), [])
    ensures ParseExpression([Constant(x), Minus, Constant(y)]) == Parsed(Binary(Subtract, Literal(x), Literal(y)), [])
    ensures forall op :: op != Subtract ==>
      ParseExpression([Constant(x), Operator(op), Constant(y)]) == Parsed(Binary(op, Literal(x), Literal(y)), [])
    ensures ParseExpression([Minus, Constant(x)]) == Parsed(Unary(Negate, Literal(x)), [])
    ensures ParseExpression([Bang, Constant(x)]) == Parsed(Unary(Not, Literal(x)), [])
  {
    hide Parse, ParseExpression;
    ReadsWhole(Joined(Fixed(x), OrToken, Fixed(y)), [Constant(x), OrToken, Constant(y)]);
    ReadsWhole(Joined(Fixed(x), AndToken, Fixed(y)), [Constant(x), AndToken, Constant(y)]);
    ReadsWhole(Joined(Fixed(x), Minus, Fixed(y)), [Constant(x), Minus, Constant(y)]);
    forall op | op != Subtract
      ensures ParseExpression([Constant(x), Operator(op), Constant(y)]) == Parsed(Binary(op, Literal(x), Literal(y)), [])
    {
      TokenJoins(op, Literal(x), Literal(y));
      ReadsWhole(Joined(Fixed(x), Operator(op), Fixed(y)), [Constant(x), Operator(op), Constant(y)]);
    }
    ReadsWhole(Prefixed(Negate, Fixed(x)), [Minus, Constant(x)]);
    ReadsWhole(Prefixed(Not, Fixed(x)), [Bang, Constant(x)]);
  }

  /** `or`, `and`, equality, comparison, terms, factors: each group binds tighter than those before
    * it. Within a group operators associate to the left, but `or` and `and` to the right. */
  lemma {:induction false} TighterGroupsFirst(x: Value, y: Value, z: Value, t: Token, u: Token, i: nat, j: nat)
    requires i < 6 && j < 6
    requires var groups := [
        [OrToken], [AndToken], [Operator(Equal), Operator(NotEqual)],
        [Operator(Less), Operator(LessEqual), Operator(Greater), Operator(GreaterEqual)],
        [Operator(Add), Minus], [Operator(Multiply), Operator(Divide)]];
      t in groups[i] && u in groups[j]
    ensures ParseExpression([Constant(x), t, Constant(y), u, Constant(z)]) ==
      Parsed(if i < j || (i == j && i <= 1)
             then Combined(Literal(x), t, Combined(Literal(y), u, Literal(z)))
             else Combined(Combined(Literal(x), t, Literal(y)), u, Literal(z)), [])
  {
    hide Parse, ParseExpression, Spells, Level, Combined, Joins, InfixPrecedence;
    GroupJoins(t, i);
    GroupJoins(u, j);
    var ts := [Constant(x), t, Constant(y), u, Constant(z)];
    if i < j || (i == j && i <= 1) {
      var p := SpellsPair(y, u, z);
      SpellsFixed(x);
      SpellsJoined(Fixed(x), [Constant(x)], Literal(x), t, p, [Constant(y), u, Constant(z)], Combined(Literal(y), u, Literal(z)));
      assert [Constant(x)] + [t] + [Constant(y), u, Constant(z)] == ts;
      SpellsReads(Joined(Fixed(x), t, p), ts, Combined(Literal(x), t, Combined(Literal(y), u, Literal(z))));
    } else {
      var p := SpellsPair(x, t, y);
      SpellsFixed(z);
      SpellsJoined(p, [Constant(x), t, Constant(y)], Combined(Literal(x), t, Literal(y)), u, Fixed(z), [Constant(z)], Literal(z));
      assert [Constant(x), t, Constant(y)] + [u] + [Constant(z)] == ts;
      SpellsReads(Joined(p, u, Fixed(z)), ts, Combined(Combined(Literal(x), t, Literal(y)), u, Literal(z)));
    }
  }

  lemma GroupJoins(t: Token, i: nat)
    requires i < 6
    requires t in [
      [OrToken], [AndToken], [Operator(Equal), Operator(NotEqual)],
      [Operator(Less), Operator(LessEqual), Operator(Greater), Operator(GreaterEqual)],
      [Operator(Add), Minus], [Operator(Multiply), Operator(Divide)]][i]
    ensures Joins(t) && InfixPrecedence(t) == OR + i && (t.AndToken? || t.OrToken? <==> i <= 1)
  {
  }

  /** Unary operators bind tighter than all of these, on either side; parentheses tighter still. */
  lemma {:induction false} UnaryFirst(x: Value, y: Value, z: Value, t: Token, u: Token, i: nat, j: nat)
    requires i < 6 && j < 6
    requires var groups := [
        [OrToken], [AndToken], [Operator(Equal), Operator(NotEqual)],
        [Operator(Less), Operator(LessEqual), Operator(Greater), Operator(GreaterEqual)],
        [Operator(Add), Minus], [Operator(Multiply), Operator(Divide)]];
      t in groups[i] && u in groups[j]
    ensures ParseExpression([Minus, Constant(x), t, Constant(y)]) == Parsed(Combined(Unary(Negate, Literal(x)), t, Literal(y)), [])
    ensures ParseExpression([Bang, Constant(x), t, Constant(y)]) == Parsed(Combined(Unary(Not, Literal(x)), t, Literal(y)), [])
    ensures ParseExpression([Constant(x), t, Minus, Constant(y)]) == Parsed(Combined(Literal(x), t, Unary(Negate, Literal(y))), [])
    ensures ParseExpression([Constant(x), t, Bang, Constant(y)]) == Parsed(Combined(Literal(x), t, Unary(Not, Literal(y))), [])
    ensures ParseExpression([LeftParen, Constant(x), t, Constant(y), RightParen, u, Constant(z)]) ==
      Parsed(Combined(Combined(Literal(x), t, Literal(y)), u, Literal(z)), [])
    ensures ParseExpression([Constant(x), t, LeftParen, Constant(y), u, Constant(z), RightParen]) ==
      Parsed(Combined(Literal(x), t, Combined(Literal(y), u, Literal(z))), [])
  {
    GroupJoins(t, i);
    GroupJoins(u, j);
    SignsRead(x, y, t);
    ParenthesesRead(x, y, z, t, u);
  }

  lemma {:induction false} SignsRead(x: Value, y: Value, t: Token)
    requires Joins(t) && InfixPrecedence(t) <= FACTOR
    ensures ParseExpression([Minus, Constant(x), t, Constant(y)]) == Parsed(Combined(Unary(Negate, Literal(x)), t, Literal(y)), [])
    ensures ParseExpression([Bang, Constant(x), t, Constant(y)]) == Parsed(Combined(Unary(Not, Literal(x)), t, Literal(y)), [])
    ensures ParseExpression([Constant(x), t, Minus, Constant(y)]) == Parsed(Combined(Literal(x), t, Unary(Negate, Literal(y))), [])
    ensures ParseExpression([Constant(x), t, Bang, Constant(y)]) == Parsed(Combined(Literal(x), t, Unary(Not, Literal(y))), [])
  {
    hide Parse, ParseExpression, Spells, Level, Combined, Joins, InfixPrecedence;
    var ps, qs := [Constant(x)], [Constant(y)];
    SpellsFixed(x);
    SpellsFixed(y);
    forall op: UnaryOp
      ensures ParseExpression([Sign(op), Constant(x), t, Constant(y)]) == Parsed(Combined(Unary(op, Literal(x)), t, Literal(y)), [])
      ensures ParseExpression([Constant(x), t, Sign(op), Constant(y)]) == Parsed(Combined(Literal(x), t, Unary(op, Literal(y))), [])
    {
      SpellsPrefixed(op, Fixed(x), ps, Literal(x));
      SpellsPrefixed(op, Fixed(y), qs, Literal(y));
      SpellsJoined(Prefixed(op, Fixed(x)), [Sign(op)] + ps, Unary(op, Literal(x)), t, Fixed(y), qs, Literal(y));
      SpellsJoined(Fixed(x), ps, Literal(x), t, Prefixed(op, Fixed(y)), [Sign(op)] + qs, Unary(op, Literal(y)));
      assert [Sign(op)] + ps + [t] + qs == [Sign(op), Constant(x), t, Constant(y)];
      assert ps + [t] + ([Sign(op)] + qs) == [Constant(x), t, Sign(op), Constant(y)];
      SpellsReads(Joined(Prefixed(op, Fixed(x)), t, Fixed(y)), [Sign(op)] + ps + [t] + qs, Combined(Unary(op, Literal(x)), t, Literal(y)));
      SpellsReads(Joined(Fixed(x), t, Prefixed(op, Fixed(y))), ps + [t] + ([Sign(op)] + qs), Combined(Literal(x), t, Unary(op, Literal(y))));
    }
    assert Sign(Negate) == Minus && Sign(Not) == Bang;
  }

  lemma {:induction false} ParenthesesRead(x: Value, y: Value, z: Value, t: Token, u: Token)
    requires Joins(t) && InfixPrecedence(t) <= FACTOR && Joins(u) && InfixPrecedence(u) <= FACTOR
    ensures ParseExpression([LeftParen, Constant(x), t, Constant(y), RightParen, u, Constant(z)]) ==
      Parsed(Combined(Combined(Literal(x), t, Literal(y)), u, Literal(z)), [])
    ensures ParseExpression([Constant(x), t, LeftParen, Constant(y), u, Constant(z), RightParen]) ==
      Parsed(Combined(Literal(x), t, Combined(Literal(y), u, Literal(z))), [])
  {
    hide Parse, ParseExpression, Spells, Level, Combined, Joins, InfixPrecedence;
    var p := SpellsPair(x, t, y);
    var q := SpellsPair(y, u, z);
    var ps, qs := [Constant(x), t, Constant(y)], [Constant(y), u, Constant(z)];
    var d, e := Combined(Literal(x), t, Literal(y)), Combined(Literal(y), u, Literal(z));
    SpellsGroup(p, ps, d);
    SpellsGroup(q, qs, e);
    SpellsFixed(x);
    SpellsFixed(z);
    SpellsJoined(Group(p), [LeftParen] + ps + [RightParen], d, u, Fixed(z), [Constant(z)], Literal(z));
    SpellsJoined(Fixed(x), [Constant(x)], Literal(x), t, Group(q), [LeftParen] + qs + [RightParen], e);
    assert [LeftParen] + ps + [RightParen] + [u] + [Constant(z)] == [LeftParen, Constant(x), t, Constant(y), RightParen, u, Constant(z)];
    assert [Constant(x)] + [t] + ([LeftParen] + qs + [RightParen]) == [Constant(x), t, LeftParen, Constant(y), u, Constant(z), RightParen];
    SpellsReads(Joined(Group(p), u, Fixed(z)), [LeftParen] + ps + [RightParen] + [u] + [Constant(z)], Combined(d, u, Literal(z)));
    SpellsReads(Joined(Fixed(x), t, Group(q)), [Constant(x)] + [t] + ([LeftParen] + qs + [RightParen]), Combined(Literal(x), t, e));
  }

  /** Assignment takes in everything to its right, associates to the right, and needs a variable
    * on its left. */
  lemma {:induction false} AssignmentLast(n: string, m: string, x: Value, y: Value, t: Token, i: nat)
    requires i < 6
    requires t in [
      [OrToken], [AndToken], [Operator(Equal), Operator(NotEqual)],
      [Operator(Less), Operator(LessEqual), Operator(Greater), Operator(GreaterEqual)],
      [Operator(Add), Minus], [Operator(Multiply), Operator(Divide)]][i]
    ensures ParseExpression([Name(n), Equals, Constant(x), t, Constant(y)]) == Parsed(Assign(n, Combined(Literal(x), t, Literal(y))), [])
    ensures ParseExpression([Name(n), Equals, Name(m), Equals, Constant(x)]) == Parsed(Assign(n, Assign(m, Literal(x))), [])
    ensures ParseExpression([Constant(x), t, Name(n), Equals, Constant(y)]) == Refused
  {
    GroupJoins(t, i);
    AssignmentReads(n, m, x, y, t);
    AssignmentRefused(n, x, y, t);
  }

  lemma {:induction false} AssignmentReads(n: string, m: string, x: Value, y: Value, t: Token)
    requires Joins(t) && OR <= InfixPrecedence(t) <= FACTOR
    ensures ParseExpression([Name(n), Equals, Constant(x), t, Constant(y)]) == Parsed(Assign(n, Combined(Literal(x), t, Literal(y))), [])
    ensures ParseExpression([Name(n), Equals, Name(m), Equals, Constant(x)]) == Parsed(Assign(n, Assign(m, Literal(x))), [])
  {
    hide Parse, ParseExpression, Spells, Level, Combined, Joins, InfixPrecedence;
    var p := SpellsPair(x, t, y);
    var ps, d := [Constant(x), t, Constant(y)], Combined(Literal(x), t, Literal(y));
    SpellsAssigned(n, p, ps, d);
    assert [Name(n), Equals] + ps == [Name(n), Equals, Constant(x), t, Constant(y)];
    SpellsReads(Assigned(n, p), [Name(n), Equals] + ps, Assign(n, d));
    SpellsFixed(x);
    SpellsAssigned(m, Fixed(x), [Constant(x)], Literal(x));
    var ms := [Name(m), Equals] + [Constant(x)];
    SpellsAssigned(n, Assigned(m, Fixed(x)), ms, Assign(m, Literal(x)));
    assert [Name(n), Equals] + ms == [Name(n), Equals, Name(m), Equals, Constant(x)];
    SpellsReads(Assigned(n, Assigned(m, Fixed(x))), [Name(n), Equals] + ms, Assign(n, Assign(m, Literal(x))));
  }

  lemma {:induction false} AssignmentRefused(n: string, x: Value, y: Value, t: Token)
    requires Joins(t) && OR <= InfixPrecedence(t) <= FACTOR
    ensures ParseExpression([Constant(x), t, Name(n), Equals, Constant(y)]) == Refused
  {
    hide Parse;
    var rest := [Equals, Constant(y)];
    var after := [t, Name(n)] + rest;
    var ts := [Constant(x)] + after;
    assert ts == [Constant(x), t, Name(n), Equals, Constant(y)];
    ReadsToken(Name(n), RightPrecedence(t), rest);
    assert after[1..] == [Name(n)] + rest;
    assert Infix(Variable(n), rest, RightPrecedence(t)) == Parsed(Variable(n), rest);
    ReadsToken(Constant(x), ASSIGNMENT, after);
    TakesOperand(Literal(x), t, Variable(n), after, rest, ASSIGNMENT);
  }
}
