/** The instructions that the compiled part of the language uses, and the interpreter loop
  * over bytes.
  */
module Bytecode {
  import opened Options
  import opened Lox

  type Byte = x: nat | x < 256

  datatype Op =
    | ConstantOp | NilOp | TrueOp | FalseOp | PopOp
    | GetLocalOp | SetLocalOp | GetGlobalOp | DefineGlobalOp | SetGlobalOp
    | EqualOp | GreaterOp | LessOp | AddOp | SubtractOp | MultiplyOp | DivideOp | NotOp | NegateOp
    | PrintOp | JumpOp | JumpIfFalseOp | LoopOp | ReturnOp

  /** The numbering of the instruction set. */
  function ByteOf(op: Op): Byte
  {
    match op
    case ConstantOp => 0 case NilOp => 1 case TrueOp => 2 case FalseOp => 3 case PopOp => 4
    case GetLocalOp => 5 case SetLocalOp => 6 case GetGlobalOp => 7 case DefineGlobalOp => 8 case SetGlobalOp => 9
    case EqualOp => 15 case GreaterOp => 16 case LessOp => 17 case AddOp => 18 case SubtractOp => 19
    case MultiplyOp => 20 case DivideOp => 21 case NotOp => 22 case NegateOp => 23
    case PrintOp => 24 case JumpOp => 25 case JumpIfFalseOp => 26 case LoopOp => 27 case ReturnOp => 33
  }

  function OpOf(b: Byte): Option<Op>
  {
    if b == 0 then Some(ConstantOp) else if b == 1 then Some(NilOp) else if b == 2 then Some(TrueOp)
    else if b == 3 then Some(FalseOp) else if b == 4 then Some(PopOp) else if b == 5 then Some(GetLocalOp)
    else if b == 6 then Some(SetLocalOp) else if b == 7 then Some(GetGlobalOp) else if b == 8 then Some(DefineGlobalOp)
    else if b == 9 then Some(SetGlobalOp) else if b == 15 then Some(EqualOp) else if b == 16 then Some(GreaterOp)
    else if b == 17 then Some(LessOp) else if b == 18 then Some(AddOp) else if b == 19 then Some(SubtractOp)
    else if b == 20 then Some(MultiplyOp) else if b == 21 then Some(DivideOp) else if b == 22 then Some(NotOp)
    else if b == 23 then Some(NegateOp) else if b == 24 then Some(PrintOp) else if b == 25 then Some(JumpOp)
    else if b == 26 then Some(JumpIfFalseOp) else if b == 27 then Some(LoopOp) else if b == 33 then Some(ReturnOp)
    else None
  }

  lemma {:induction false} OpRoundTrip(op: Op)
    ensures OpOf(ByteOf(op)) == Some(op)
  {
  }

  /** A chunk: its code and its constants. */
  datatype Chunk = Chunk(code: seq<Byte>, constants: seq<Value>)

  /** A top-level frame: its slots start at the bottom of the stack. */
  datatype Vm = Vm(ip: nat, stack: seq<Value>, globals: map<string, Value>, output: seq<Value>)

  datatype Run =
    | Going(vm: Vm)
    | Failed(globals: map<string, Value>, output: seq<Value>)    // a runtime error
    | Finished(globals: map<string, Value>, output: seq<Value>)
    | Broken                                                     // what no compiled chunk does

  function Pop(stack: seq<Value>, n: nat): seq<Value>
    requires n <= |stack|
  {
    stack[..|stack| - n]
  }

  function Peek(stack: seq<Value>, down: nat): Value
    requires down < |stack|
  {
    stack[|stack| - 1 - down]
  }

  function BinaryOpOf(op: Op): Option<BinaryOp>
  {
    match op
    case EqualOp => Some(Equal)
    case GreaterOp => Some(Greater)
    case LessOp => Some(Less)
    case AddOp => Some(Add)
    case SubtractOp => Some(Subtract)
    case MultiplyOp => Some(Multiply)
    case DivideOp => Some(Divide)
    case _ => None
  }

  /** READ_SHORT */
  function Short(code: seq<Byte>, at: nat): nat
    requires at + 1 < |code|
  {
    (code[at] as nat) * 256 + (code[at + 1] as nat)
  }

  function OperandSize(op: Op): nat
  {
    match op
    case ConstantOp => 1
    case GetLocalOp => 1
    case SetLocalOp => 1
    case GetGlobalOp => 1
    case DefineGlobalOp => 1
    case SetGlobalOp => 1
    case JumpOp => 2
    case JumpIfFalseOp => 2
    case LoopOp => 2
    case _ => 0
  }

  function Pushed(vm: Vm, ip: nat, v: Value): Run
  {
    Going(vm.(ip := ip, stack := vm.stack + [v]))
  }

  /** Instructions without an operand. */
  function StepPlain(ops: Arith, vm: Vm, op: Op, next: nat): Run
  {
    var n := |vm.stack|;
    match op
    case NilOp => Pushed(vm, next, Nil)
    case TrueOp => Pushed(vm, next, Bool(true))
    case FalseOp => Pushed(vm, next, Bool(false))
    case PopOp => if n == 0 then Broken else Going(vm.(ip := next, stack := Pop(vm.stack, 1)))
    case NotOp => if n == 0 then Broken else Pushed(vm.(stack := Pop(vm.stack, 1)), next, Bool(Falsey(Peek(vm.stack, 0))))
    case NegateOp =>
      if n == 0 then Broken
      else
        var v := Apply1(ops, Negate, Peek(vm.stack, 0));
        if v.None? then Failed(vm.globals, vm.output) else Pushed(vm.(stack := Pop(vm.stack, 1)), next, v.value)
    case PrintOp =>
      if n == 0 then Broken
      else Going(vm.(ip := next, stack := Pop(vm.stack, 1), output := vm.output + [Peek(vm.stack, 0)]))
    case ReturnOp => if n == 0 then Broken else Finished(vm.globals, vm.output)
    case _ =>
      if n < 2 || BinaryOpOf(op).None? then Broken
      else
        var v := Apply2(ops, BinaryOpOf(op).value, Peek(vm.stack, 1), Peek(vm.stack, 0));
        if v.None? then Failed(vm.globals, vm.output) else Pushed(vm.(stack := Pop(vm.stack, 2)), next, v.value)
  }

  /** Instructions with one operand byte. */
  function StepByte(chunk: Chunk, vm: Vm, op: Op, arg: Byte, next: nat): Run
  {
    if op.GetLocalOp? then
      if arg < |vm.stack| then Pushed(vm, next, vm.stack[arg]) else Broken
    else if op.SetLocalOp? then
      if arg < |vm.stack| then Going(vm.(ip := next, stack := vm.stack[arg := Peek(vm.stack, 0)])) else Broken
    else if arg >= |chunk.constants| then Broken
    else
      var c := chunk.constants[arg];
      match op
      case ConstantOp => Pushed(vm, next, c)
      case GetGlobalOp =>
        if !c.Text? then Broken
        else if c.chars in vm.globals then Pushed(vm, next, vm.globals[c.chars])
        else Failed(vm.globals, vm.output)
      case DefineGlobalOp =>
        if !c.Text? || |vm.stack| == 0 then Broken
        else Going(vm.(ip := next, stack := Pop(vm.stack, 1), globals := vm.globals[c.chars := Peek(vm.stack, 0)]))
      case SetGlobalOp =>
        if !c.Text? || |vm.stack| == 0 then Broken
        else if c.chars in vm.globals then Going(vm.(ip := next, globals := vm.globals[c.chars := Peek(vm.stack, 0)]))
        else Failed(vm.globals, vm.output)
      case _ => Broken
  }

  /** Jumps. */
  function StepShort(vm: Vm, op: Op, offset: nat, next: nat): Run
  {
    match op
    case JumpOp => Going(vm.(ip := next + offset))
    case JumpIfFalseOp =>
      if |vm.stack| == 0 then Broken
      else Going(vm.(ip := if Falsey(Peek(vm.stack, 0)) then next + offset else next))
    case LoopOp => if offset <= next then Going(vm.(ip := next - offset)) else Broken
    case _ => Broken
  }

  /** One round of run(). */
  function Step(ops: Arith, chunk: Chunk, vm: Vm): Run
  {
    if vm.ip >= |chunk.code| then Broken
    else
      var op := OpOf(chunk.code[vm.ip]);
      if op.None? || vm.ip + OperandSize(op.value) >= |chunk.code| then Broken
      else
        var next := vm.ip + 1 + OperandSize(op.value);
        if OperandSize(op.value) == 0 then StepPlain(ops, vm, op.value, next)
        else if OperandSize(op.value) == 1 then StepByte(chunk, vm, op.value, chunk.code[vm.ip + 1], next)
        else StepShort(vm, op.value, Short(chunk.code, vm.ip + 1), next)
  }

  function Steps(ops: Arith, chunk: Chunk, run: Run, n: nat): Run
    decreases n
  {
    if n == 0 || !run.Going? then run else Steps(ops, chunk, Step(ops, chunk, run.vm), n - 1)
  }

  lemma {:induction false} StepsAdd(ops: Arith, chunk: Chunk, run: Run, a: nat, b: nat)
    ensures Steps(ops, chunk, Steps(ops, chunk, run, a), b) == Steps(ops, chunk, run, a + b)
    decreases a
  {
    if a > 0 && run.Going? {
      StepsAdd(ops, chunk, Step(ops, chunk, run.vm), a - 1, b);
    } else if !run.Going? {
      StoppedStays(ops, chunk, run, b);
    }
  }

  lemma {:induction false} StoppedStays(ops: Arith, chunk: Chunk, run: Run, n: nat)
    requires !run.Going?
    ensures Steps(ops, chunk, run, n) == run
  {
  }

  // ----- code in place -----

  /** The bytes stand in the code at a position. */
  ghost predicate At(code: seq<Byte>, pos: nat, bytes: seq<Byte>)
  {
    pos + |bytes| <= |code| && code[pos..pos + |bytes|] == bytes
  }

  lemma {:induction false} AtParts(code: seq<Byte>, pos: nat, x: seq<Byte>, y: seq<Byte>)
    requires At(code, pos, x + y)
    ensures At(code, pos, x) && At(code, pos + |x|, y)
  {
    var s := code[pos..pos + |x| + |y|];
    assert s[..|x|] == x && s[|x|..] == y;
    assert code[pos..pos + |x|] == s[..|x|];
    assert code[pos + |x|..pos + |x| + |y|] == s[|x|..];
  }

  lemma {:induction false} AtByte(code: seq<Byte>, pos: nat, bytes: seq<Byte>, i: nat)
    requires At(code, pos, bytes) && i < |bytes|
    ensures code[pos + i] == bytes[i]
  {
    assert code[pos..pos + |bytes|][i] == bytes[i];
  }

  /** One instruction in place takes one step. */
  lemma {:induction false} StepPlainAt(ops: Arith, chunk: Chunk, vm: Vm, op: Op)
    requires At(chunk.code, vm.ip, [ByteOf(op)]) && OperandSize(op) == 0
    ensures Steps(ops, chunk, Going(vm), 1) == StepPlain(ops, vm, op, vm.ip + 1)
  {
    hide StepPlain, StepByte, StepShort;
    AtByte(chunk.code, vm.ip, [ByteOf(op)], 0);
    OpRoundTrip(op);
    assert Steps(ops, chunk, Going(vm), 1) == Steps(ops, chunk, Step(ops, chunk, vm), 0);
  }

  lemma {:induction false} StepByteAt(ops: Arith, chunk: Chunk, vm: Vm, op: Op, arg: Byte)
    requires At(chunk.code, vm.ip, [ByteOf(op), arg]) && OperandSize(op) == 1
    ensures Steps(ops, chunk, Going(vm), 1) == StepByte(chunk, vm, op, arg, vm.ip + 2)
  {
    hide StepPlain, StepByte, StepShort;
    AtByte(chunk.code, vm.ip, [ByteOf(op), arg], 0);
    AtByte(chunk.code, vm.ip, [ByteOf(op), arg], 1);
    OpRoundTrip(op);
    assert Steps(ops, chunk, Going(vm), 1) == Steps(ops, chunk, Step(ops, chunk, vm), 0);
  }

  function High(jump: nat): Byte
  {
    jump / 256 % 256
  }

  function Low(jump: nat): Byte
  {
    jump % 256
  }

  lemma {:induction false} StepShortAt(ops: Arith, chunk: Chunk, vm: Vm, op: Op, jump: nat)
    requires At(chunk.code, vm.ip, [ByteOf(op), High(jump), Low(jump)]) && OperandSize(op) == 2 && jump < 0x1_0000
    ensures Steps(ops, chunk, Going(vm), 1) == StepShort(vm, op, jump, vm.ip + 3)
  {
    hide StepPlain, StepByte, StepShort;
    var bytes := [ByteOf(op), High(jump), Low(jump)];
    AtByte(chunk.code, vm.ip, bytes, 0);
    AtByte(chunk.code, vm.ip, bytes, 1);
    AtByte(chunk.code, vm.ip, bytes, 2);
    OpRoundTrip(op);
    assert Short(chunk.code, vm.ip + 1) == jump;
    assert Steps(ops, chunk, Going(vm), 1) == Steps(ops, chunk, Step(ops, chunk, vm), 0);
  }
}
