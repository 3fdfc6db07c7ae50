/** A whole script, compiled and run from the start. */
module CompiledScripts {
  import opened Lox
  import opened Bytecode
  import opened Emission
  import opened CompiledExpressions
  import opened CompiledStatements
  import opened CompiledPrograms

  function ScriptChunk(program: Decls): Chunk
  {
    Chunk(ScriptUnit(program).code, ScriptUnit(program).constants)
  }

  /** The script's own closure is in slot 0. */
  function StartState(closure: Value, globals: map<string, Value>): State
  {
    State([Binding("this", closure)], globals, [])
  }

  function StartRun(closure: Value, globals: map<string, Value>): Run
  {
    Going(Vm(0, [closure], globals, []))
  }

  function Meaning(ops: Arith, program: Decls, closure: Value, globals: map<string, Value>, fuel: nat): Effect
  {
    ExecAll(ops, program, StartState(closure, globals), 0, fuel)
  }

  /** Compilation preserves meaning. If no error was reported, then running the chunk does
    * what the tree does: it finishes or fails with the same globals and output, and for
    * as long as the tree has not ended the run has not either. */
  lemma {:induction false} CompiledScriptRuns(ops: Arith, program: Decls, closure: Value, globals: map<string, Value>, fuel: nat) returns (n: nat)
    requires ScriptUnit(program).ok
    ensures var run := Steps(ops, ScriptChunk(program), StartRun(closure, globals), n);
      match Meaning(ops, program, closure, globals, fuel)
      case Ends(s) => run == Finished(s.globals, s.output)
      case Stops(s) => run == Failed(s.globals, s.output)
      case Unfinished => n >= fuel && run.Going?
  {
    hide Steps, At, InScope, DeclsUnit, ExecAll, VmAt;
    var chunk, s := ScriptChunk(program), StartState(closure, globals);
    var u := DeclsUnit(program, SCRIPT_LOCALS, [], 0);
    var start := StartRun(closure, globals);
    WholeScript(chunk.code, u.unit.code);
    Initially(closure, globals);
    n := DeclsRuns(ops, chunk, 0, program, SCRIPT_LOCALS, [], s, 0, fuel);
    var r := ExecAll(ops, program, s, 0, fuel);
    if r.Ends? {
      ReturnRuns(ops, chunk, |u.unit.code|, r.state);
      Then(ops, chunk, start, n, Going(VmAt(|u.unit.code|, r.state, [])), 2);
      n := n + 2;
    }
  }

  lemma {:induction false} Initially(closure: Value, globals: map<string, Value>)
    ensures StartRun(closure, globals) == Going(VmAt(0, StartState(closure, globals), []))
    ensures InScope(SCRIPT_LOCALS, StartState(closure, globals).env, 0)
  {
  }

  lemma {:induction false} WholeScript(code: seq<Byte>, body: seq<Byte>)
    requires code == body + [ByteOf(NilOp), ByteOf(ReturnOp)]
    ensures At(code, 0, body) && At(code, |body|, [ByteOf(NilOp)]) && At(code, |body| + 1, [ByteOf(ReturnOp)])
  {
  }

  lemma {:induction false} ReturnRuns(ops: Arith, chunk: Chunk, pos: nat, s: State)
    requires At(chunk.code, pos, [ByteOf(NilOp)]) && At(chunk.code, pos + 1, [ByteOf(ReturnOp)])
    ensures Steps(ops, chunk, Going(VmAt(pos, s, [])), 2) == Finished(s.globals, s.output)
  {
    hide Steps;
    var vm := VmAt(pos, s, []);
    StepPlainAt(ops, chunk, vm, NilOp);
    StepPlainAt(ops, chunk, vm.(ip := pos + 1, stack := vm.stack + [Nil]), ReturnOp);
    StepsAdd(ops, chunk, Going(vm), 1, 1);
  }

  lemma {:induction false} SameRun(ops: Arith, chunk: Chunk, start: Run, n: nat, m: nat)
    requires !Steps(ops, chunk, start, n).Going? && n <= m
    ensures Steps(ops, chunk, start, m) == Steps(ops, chunk, start, n)
  {
    StepsAdd(ops, chunk, start, n, m - n);
    StoppedStays(ops, chunk, Steps(ops, chunk, start, n), m - n);
  }

  /** And the other way round: whenever the run stops, the tree has ended, with the same
    * outcome. In particular no compiled script breaks the machine. */
  lemma {:induction false} StoppedScriptsAreMeant(ops: Arith, program: Decls, closure: Value, globals: map<string, Value>, n: nat)
    requires ScriptUnit(program).ok
    requires !Steps(ops, ScriptChunk(program), StartRun(closure, globals), n).Going?
    ensures var run := Steps(ops, ScriptChunk(program), StartRun(closure, globals), n);
      match Meaning(ops, program, closure, globals, n + 1)
      case Ends(s) => run == Finished(s.globals, s.output)
      case Stops(s) => run == Failed(s.globals, s.output)
      case Unfinished => false
  {
    hide Steps, Meaning, ScriptUnit, ScriptChunk, StartRun;
    var m := CompiledScriptRuns(ops, program, closure, globals, n + 1);
    var chunk, start := ScriptChunk(program), StartRun(closure, globals);
    if n <= m {
      SameRun(ops, chunk, start, n, m);
    } else if !Steps(ops, chunk, start, m).Going? {
      SameRun(ops, chunk, start, m, n);
    }
  }
}
