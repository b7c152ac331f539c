/** Properties of compiled code run on the virtual machine. */
module PipelineFacts {
  import opened Wrappers
  import opened Decimal
  import opened Ast
  import opened Machine
  import opened MachineFacts
  import opened Lowering
  import opened LoweringFacts
  import Lexer
  import LexerFacts
  import ParserSpec
  import ParserFacts

  /** The errors only a faulty compiler could cause: an opcode the machine lacks, an unknown builtin, a missing constant. */
  predicate CompilerFault(e: VmError) {
    e.Unsupported? || e.UnknownBuiltin? || e.ConstantOutOfRange?
  }

  lemma RunnableInstruction(i: Bytecode, constants: seq<RuntimeValue>, s: State)
    requires Emittable(i) || i == Return
    requires i.LoadConst? ==> i.index < |constants|
    ensures Execute(i, constants, s).Fault? ==> !CompilerFault(Execute(i, constants, s).error)
  {
    if i.IsBinary() {
      BinaryNeverCompilerFault(i, s);
    } else if i.IsEffect() {
      EffectNeverCompilerFault(i, s);
    }
  }

  lemma BinaryNeverCompilerFault(i: Bytecode, s: State)
    requires i.IsBinary()
    ensures ExecuteBinary(i, s).Fault? ==> !CompilerFault(ExecuteBinary(i, s).error)
  {
  }

  lemma EffectNeverCompilerFault(i: Bytecode, s: State)
    requires i.IsEffect() && (i.CallBuiltin? ==> i.builtin <= 1)
    ensures ExecuteEffect(i, s).Fault? ==> !CompilerFault(ExecuteEffect(i, s).error)
  {
  }

  /** Code the compiler emits never stops the machine with a compiler fault, from any state. */
  lemma {:induction false} RunnableNeverFaultsAsCompiler(code: seq<Bytecode>, constants: seq<RuntimeValue>, s: State)
    requires Runnable(code, constants)
    ensures RunFrom(code, constants, s).result.Err? ==> !CompilerFault(RunFrom(code, constants, s).result.error)
    decreases |code| - s.ip
  {
    if s.ip < |code| {
      RunnableInstruction(code[s.ip], constants, s.(ip := s.ip + 1));
      match Step(code, constants, s)
      case Next(s') => RunnableNeverFaultsAsCompiler(code, constants, s');
      case Fault(_, _) =>
    }
  }

  /** In particular, running a freshly compiled function never ends in a compiler fault. */
  lemma CompiledFunctionNeverFaultsAsCompiler(f: Ast.Function, s: State)
    requires LowerFunction(f, Buffers([], [])).status.Ok?
    ensures var out := LowerFunction(f, Buffers([], [])).out;
      var r := RunFrom(out.code, out.constants, s).result;
      r.Err? ==> !CompilerFault(r.error)
  {
    FunctionRunnable(f, Buffers([], []));
    var out := LowerFunction(f, Buffers([], [])).out;
    RunnableNeverFaultsAsCompiler(out.code, out.constants, s);
  }

  /**
    A call to anything but `puts`/`print` compiles to a load of the callee's
    name followed by `Call`, both at the end of what the call emits.
  */
  lemma UserCallLowering(name: string, arguments: seq<Expression>, b: Buffers)
    requires !IsBuiltinName(name)
    ensures var r := LowerExpression(Expression.Call(name, arguments), b);
      && (r.status.Ok? <==> AllCompilable(arguments))
      && (r.status.Ok? ==>
            && |r.out.code| >= 2 && |r.out.constants| >= 1
            && r.out.code[|r.out.code| - 2] == LoadConst(|r.out.constants| - 1)
            && r.out.code[|r.out.code| - 1] == Bytecode.Call(|arguments|)
            && r.out.constants[|r.out.constants| - 1] == RuntimeValue.String(name))
  {
    ExpressionCompiles(Expression.Call(name, arguments), b);
  }

  /** Once the machine reaches such a load and call, the run stops: the machine knows no function but the builtins. */
  lemma UserCallFails(code: seq<Bytecode>, constants: seq<RuntimeValue>, s: State, k: nat, n: nat, name: string)
    requires s.ip + 1 < |code| && code[s.ip] == LoadConst(k) && code[s.ip + 1] == Bytecode.Call(n)
    requires k < |constants| && constants[k] == RuntimeValue.String(name) && !IsBuiltinName(name)
    ensures RunFrom(code, constants, s).result == Err(UnknownFunction(name))
  {
    var s1 := s.(ip := s.ip + 1, stack := s.stack + [RuntimeValue.String(name)]);
    assert Step(code, constants, s) == Next(s1);
    var s2 := s1.(ip := s1.ip + 1);
    assert s2.stack[..|s2.stack| - 1] == s.stack;
    assert Step(code, constants, s1) == Fault(s2.(stack := s.stack), UnknownFunction(name));
  }

  /**
    The tree of `fn main() { let x = 2; let y = 3; puts("{}", x + y); }`. The
    format string keeps its quotes, as the lexer's string token does.
  */
  function SumExample(): Ast.Function {
    Ast.Function.Function("main", [], Type.Void, ParserFacts.SumBody())
  }

  /** A name of that program is a token the lexer can emit. */
  lemma NameWellFormed(n: string)
    requires n in ["main", "puts", "x", "y"]
    ensures LexerFacts.WellFormed(Lexer.Identifier(n))
  {
  }

  /** Its format string is one too: quoted, with no quote or backslash inside. */
  lemma FormatWellFormed()
    ensures LexerFacts.WellFormed(Lexer.String("\"{}\""))
  {
    assert "\"{}\""[1..3] == "{}";
    assert "{}"[1..] == "}" && "}"[1..] == [];
  }

  /** The names, numbers and strings among that program's tokens. */
  lemma SumTokenPayload(ts: seq<Lexer.Token>, i: nat)
    requires ParserFacts.SumTokens(ts) && i < |ts|
    ensures ts[i].Identifier? ==> ts[i].name in ["main", "puts", "x", "y"]
    ensures ts[i].Number? ==> ts[i].value >= 0
    ensures ts[i].String? ==> ts[i].text == "\"{}\""
    ensures !ts[i].Whitespace?
  {
  }

  lemma SumTokenWellFormed(ts: seq<Lexer.Token>, i: nat)
    requires ParserFacts.SumTokens(ts) && i < |ts|
    ensures LexerFacts.WellFormed(ts[i])
  {
    SumTokenPayload(ts, i);
    if ts[i].Identifier? {
      NameWellFormed(ts[i].name);
    } else if ts[i].String? {
      FormatWellFormed();
    }
  }

  /**
    The program printed with a space after each token lexes back to its tokens
    and parses to `SumExample`, the tree the compiler is given.
  */
  lemma SumExampleParses(ts: seq<Lexer.Token>)
    requires ParserFacts.SumTokens(ts)
    ensures forall t :: t in ts ==> LexerFacts.WellFormed(t)
    ensures ParserSpec.ParseProgram(Lexer.Lex(LexerFacts.Unlex(ts))) == ParserSpec.Program([Statement.Function(SumExample())])
  {
    forall t | t in ts
      ensures LexerFacts.WellFormed(t)
    {
      var i :| 0 <= i < |ts| && ts[i] == t;
      SumTokenWellFormed(ts, i);
    }
    LexerFacts.LexUnlex(ts);
    ParserFacts.SumExampleParses(ts);
  }

  function SumCode(): seq<Bytecode> {
    [LoadConst(0), Pop, LoadConst(1), Pop, LoadGlobal("x"), LoadGlobal("y"), Bytecode.Add, CallBuiltin(0), Pop,
     LoadConst(3), Return]
  }

  function SumConstants(): seq<RuntimeValue> {
    [RuntimeValue.Integer(2), RuntimeValue.Integer(3), RuntimeValue.String("\"{}\""), RuntimeValue.Integer(0)]
  }

  /** What the compiler emits for `SumExample`: each `let` evaluates its value and pops it. */
  lemma SumExampleCompiles()
    ensures LowerFunction(SumExample(), Buffers([], [])) == Succeed(Buffers(SumCode(), SumConstants()))
  {
    var f := SumExample();
    var b0 := Buffers([], []);
    var b2 := Buffers([LoadConst(0), Pop, LoadConst(1), Pop], [RuntimeValue.Integer(2), RuntimeValue.Integer(3)]);
    SumLetsCompile();
    SumCallCompiles();
    assert LowerStatements(f.body, b0) == LowerStatements(f.body[2..], b2);
  }

  lemma SumLetsCompile()
    ensures var b0 := Buffers([], []);
      var b1 := Buffers([LoadConst(0), Pop], [RuntimeValue.Integer(2)]);
      && LowerStatement(SumExample().body[0], b0) == Succeed(b1)
      && LowerStatement(SumExample().body[1], b1)
         == Succeed(Buffers([LoadConst(0), Pop, LoadConst(1), Pop], [RuntimeValue.Integer(2), RuntimeValue.Integer(3)]))
  {
  }

  lemma SumCallCompiles()
    ensures var b2 := Buffers([LoadConst(0), Pop, LoadConst(1), Pop], [RuntimeValue.Integer(2), RuntimeValue.Integer(3)]);
      var b3 := Buffers(SumCode()[..9], SumConstants()[..3]);
      LowerStatements(SumExample().body[2..], b2) == Succeed(b3)
  {
    var b2 := Buffers([LoadConst(0), Pop, LoadConst(1), Pop], [RuntimeValue.Integer(2), RuntimeValue.Integer(3)]);
    var call := SumExample().body[2].expr;
    var b2f := b2.(constants := b2.constants + [RuntimeValue.String("\"{}\"")]);
    var sum := Emit(b2f, [LoadGlobal("x"), LoadGlobal("y"), Bytecode.Add]);
    assert LowerExpression(call.arguments[0], b2f) == Succeed(sum);
    assert LowerExpressions(call.arguments, b2f) == Succeed(sum);
    assert LowerStatement(SumExample().body[2], b2) == Succeed(Emit(sum, [CallBuiltin(0), Pop]));
    assert SumExample().body[2..][1..] == [];
  }

  /**
    A run that passes through `states`, each one step from the one before,
    and whose last state has run off the end, finishes as that last state does.
  */
  lemma {:induction false} RunTrace(code: seq<Bytecode>, constants: seq<RuntimeValue>, states: seq<State>)
    requires |states| >= 1 && states[|states| - 1].ip >= |code|
    requires forall i | 0 <= i < |states| - 1 ::
      states[i].ip < |code| && Step(code, constants, states[i]) == Next(states[i + 1])
    ensures RunFrom(code, constants, states[0]).result == Ok(Finish(states[|states| - 1]).0)
    ensures RunFrom(code, constants, states[0]).state == Finish(states[|states| - 1]).1
    decreases |states|
  {
    if |states| > 1 {
      assert forall i | 0 <= i < |states| - 2 :: states[1..][i] == states[i + 1];
      RunTrace(code, constants, states[1..]);
    }
  }

  /** The states a fresh machine passes through running `SumCode`. */
  function SumTrace(): seq<State> {
    var zero := RuntimeValue.Integer(0);
    var out := [Printed(zero, true)];
    [State([], map[], 0, []), State([RuntimeValue.Integer(2)], map[], 1, []), State([], map[], 2, []),
     State([RuntimeValue.Integer(3)], map[], 3, []), State([], map[], 4, []), State([zero], map[], 5, []),
     State([zero, zero], map[], 6, []), State([zero], map[], 7, []), State([Null], map[], 8, out),
     State([], map[], 9, out), State([zero], map[], 10, out), State([], map[], 11, out)]
  }

  /**
    Run on a fresh machine, `SumExample` writes `0` and a newline, not `5`: the
    `let` bindings store nothing, and the machine reads the unset `x` and `y`
    as 0. It returns `Null` and leaves no globals behind.
  */
  lemma SumExampleWritesZero()
    ensures RunFrom(SumCode(), SumConstants(), State([], map[], 0, [])).result == Ok(Null)
    ensures RunFrom(SumCode(), SumConstants(), State([], map[], 0, [])).state
      == State([], map[], 11, [Printed(RuntimeValue.Integer(0), true)])
  {
    var code, constants, states := SumCode(), SumConstants(), SumTrace();
    forall i | 0 <= i < |states| - 1
      ensures states[i].ip < |code| && Step(code, constants, states[i]) == Next(states[i + 1])
    {
      SumStep(i);
    }
    RunTrace(code, constants, states);
  }

  /** Instruction `i` of `SumCode` takes the fresh machine from `SumTrace()[i]` to `SumTrace()[i + 1]`. */
  predicate SumStepHolds(i: nat)
    requires i < 11
  {
    SumTrace()[i].ip < |SumCode()| && Step(SumCode(), SumConstants(), SumTrace()[i]) == Next(SumTrace()[i + 1])
  }

  lemma SumStep(i: nat)
    requires i < 11
    ensures SumTrace()[i].ip < |SumCode()|
    ensures Step(SumCode(), SumConstants(), SumTrace()[i]) == Next(SumTrace()[i + 1])
  {
    SumLetSteps();
    SumReadSteps();
    SumCallSteps();
    SumReturnSteps();
    assert SumStepHolds(i) by {
      if i == 0 { } else if i == 1 { } else if i == 2 { } else if i == 3 { } else if i == 4 { }
      else if i == 5 { } else if i == 6 { } else if i == 7 { } else if i == 8 { } else if i == 9 { }
    }
  }

  /** `let x = 2; let y = 3;`: load each constant, pop it. */
  lemma SumLetSteps()
    ensures SumStepHolds(0) && SumStepHolds(1) && SumStepHolds(2) && SumStepHolds(3)
  {
  }

  /** `x + y`: both globals read as 0. */
  lemma SumReadSteps()
    ensures SumStepHolds(4) && SumStepHolds(5)
  {
  }

  /** `x + y`, then `puts`: the sum 0 is written with a newline and `Null` pushed. */
  lemma SumCallSteps()
    ensures SumStepHolds(6) && SumStepHolds(7)
  {
  }

  /** Pop the call's `Null`, then the function's trailing load of 0 and `Return`. */
  lemma SumReturnSteps()
    ensures SumStepHolds(8) && SumStepHolds(9) && SumStepHolds(10)
  {
  }
}
