/**
  The instruction set, runtime values and the meaning of every instruction of
  the stack virtual machine, as pure functions over a machine `State`. The
  `VirtualMachine` class in module `Vm` executes the same instructions in place
  and is proved to agree with `RunFrom`.

  Rust's `i64` is the subset type `I64`; overflow, which panics in a debug
  build, is the error `IntegerOverflow`. An `f64` is a `real`: its arithmetic
  is exact here (no rounding, no infinities, no NaN). Standard output is a log
  of `Printed` events; `ValueToString` gives their text.
*/
module Machine {
  import opened Wrappers
  import opened Decimal

  datatype Bytecode =
    | LoadConst(index: nat)
    | StoreLocal(slot: nat)
    | LoadLocal(slot: nat)
    | StoreGlobal(name: string)
    | LoadGlobal(name: string)
    | Add | Sub | Mul | Div | Mod
    | Eq | Ne | Lt | Gt | Le | Ge
    | Jump(target: nat)
    | JumpIfFalse(target: nat)
    | JumpIfTrue(target: nat)
    | Call(argumentCount: nat)
    | CallBuiltin(builtin: nat)
    | Return
    | Print
    | Puts
    | Pop
    | Dup
  {
    predicate IsArithmetic() {
      Add? || Sub? || Mul? || Div? || Mod?
    }

    predicate IsOrdering() {
      Lt? || Gt? || Le? || Ge?
    }

    /** The instructions that pop two operands and push one result. */
    predicate IsBinary() {
      IsArithmetic() || IsOrdering() || Eq? || Ne?
    }

    predicate IsDataMove() {
      LoadConst? || StoreLocal? || LoadLocal? || StoreGlobal? || LoadGlobal?
    }

    predicate IsEffect() {
      Print? || Puts? || Call? || CallBuiltin? || Return? || Pop?
    }

    /** The instructions `run` has no case for. */
    predicate IsUnsupported() {
      Jump? || JumpIfFalse? || JumpIfTrue? || Dup?
    }
  }

  datatype RuntimeValue =
    | Integer(i: I64)
    | Float(f: real)
    | String(s: string)
    | Boolean(b: bool)
    | Function(name: string, entry: nat, parameterCount: nat)
    | Null

  /** `f64::EPSILON`, 2 to the power -52. */
  const Epsilon: real := 1.0 / 4503599627370496.0

  function Abs(x: real): real {
    if x < 0.0 then -x else x
  }

  /**
    The hand-written `PartialEq`: floats are equal when closer than `Epsilon`,
    functions when their names agree, and values of different variants never.
  */
  predicate ValuesEqual(a: RuntimeValue, b: RuntimeValue) {
    match (a, b)
    case (Integer(x), Integer(y)) => x == y
    case (Float(x), Float(y)) => Abs(x - y) < Epsilon
    case (String(x), String(y)) => x == y
    case (Boolean(x), Boolean(y)) => x == y
    case (Function(x, _, _), Function(y, _, _)) => x == y
    case (Null, Null) => true
    case _ => false
  }

  /** The failures of `run`. The last two are panics in the Rust code, not `Err` values. */
  datatype VmError =
    | StackUnderflow
    | NonNumeric(instruction: Bytecode)
    | DivisionByZero
    | ModuloByZero
    | WrongArgumentCount(callee: string)
    | UnknownFunction(callee: string)
    | CalleeNotString
    | UnknownBuiltin(id: nat)
    | Unsupported(instruction: Bytecode)
    | ConstantOutOfRange(index: nat)
    | IntegerOverflow
  {
    predicate IsPanic() {
      ConstantOutOfRange? || IntegerOverflow?
    }
  }

  /** The text of the `Err` string `run` returns for a non-panic failure. */
  function Message(e: VmError): string
    requires !e.IsPanic()
  {
    match e
    case StackUnderflow => "Stack underflow"
    case NonNumeric(op) => "Type error: Cannot " + Verb(op) + " non-numeric values"
    case DivisionByZero => "Division by zero"
    case ModuloByZero => "Modulo by zero"
    case WrongArgumentCount(name) => name + " expects 1 argument"
    case UnknownFunction(name) => "Unknown function: " + name
    case CalleeNotString => "Function call expects function name as string"
    case UnknownBuiltin(id) => "Unknown builtin function ID: " + NatToDecimal(id)
    case Unsupported(op) => "Unsupported instruction: " + DebugText(op)
  }

  function Verb(op: Bytecode): string {
    match op
    case Add => "add"
    case Sub => "subtract"
    case Mul => "multiply"
    case Div => "divide"
    case Mod => "perform modulo on"
    case _ => "compare"
  }

  /** The derived `Debug` text of the instructions `run` rejects. */
  function DebugText(op: Bytecode): string {
    match op
    case Jump(n) => "Jump(" + NatToDecimal(n) + ")"
    case JumpIfFalse(n) => "JumpIfFalse(" + NatToDecimal(n) + ")"
    case JumpIfTrue(n) => "JumpIfTrue(" + NatToDecimal(n) + ")"
    case _ => "Dup"
  }

  /** Rust's `/` on integers: the quotient rounded toward zero. */
  function TruncDiv(a: int, b: int): int
    requires b != 0
  {
    var q := Magnitude(a) / Magnitude(b);
    if (a < 0) == (b < 0) then q else -q
  }

  /** Rust's `%` on integers: the remainder takes the sign of the dividend. */
  function TruncMod(a: int, b: int): int
    requires b != 0
  {
    var r := Magnitude(a) % Magnitude(b);
    if a < 0 then -r else r
  }

  function Magnitude(a: int): nat {
    if a < 0 then -a else a
  }

  /** Rounding toward zero of a real, as the remainder of `f64` uses it. */
  function Truncate(x: real): int {
    if x < 0.0 then -((-x).Floor) else x.Floor
  }

  /** An `i64` result, or the overflow a debug build panics on. */
  function Checked(x: int): (r: Result<RuntimeValue, VmError>)
    ensures r.Ok? <==> I64Min <= x <= I64Max
    ensures r.Ok? ==> r.value == Integer(x)
  {
    if I64Min <= x <= I64Max then Ok(Integer(x)) else Err(IntegerOverflow)
  }

  function IntegerArithmetic(op: Bytecode, a: I64, b: I64): Result<RuntimeValue, VmError>
    requires op.IsArithmetic()
  {
    match op
    case Add => Checked(a + b)
    case Sub => Checked(a - b)
    case Mul => Checked(a * b)
    case Div => if b == 0 then Err(DivisionByZero) else Checked(TruncDiv(a, b))
    case Mod =>
      if b == 0 then Err(ModuloByZero)
      else if a == I64Min && b == -1 then Err(IntegerOverflow)
      else Checked(TruncMod(a, b))
  }

  function FloatArithmetic(op: Bytecode, a: real, b: real): Result<RuntimeValue, VmError>
    requires op.IsArithmetic()
  {
    match op
    case Add => Ok(Float(a + b))
    case Sub => Ok(Float(a - b))
    case Mul => Ok(Float(a * b))
    case Div => if b == 0.0 then Err(DivisionByZero) else Ok(Float(a / b))
    case Mod => if b == 0.0 then Err(ModuloByZero) else Ok(Float(a - b * Truncate(a / b) as real))
  }

  function Ordering(op: Bytecode, a: real, b: real): bool
    requires op.IsOrdering()
  {
    match op
    case Lt => a < b
    case Gt => a > b
    case Le => a <= b
    case Ge => a >= b
  }

  predicate BothIntegers(a: RuntimeValue, b: RuntimeValue) {
    a.Integer? && b.Integer?
  }

  predicate BothFloats(a: RuntimeValue, b: RuntimeValue) {
    a.Float? && b.Float?
  }

  /**
    What a two-operand instruction computes from its operands: arithmetic and
    ordering need two integers or two floats, `Eq` and `Ne` accept anything.
  */
  function BinaryResult(op: Bytecode, left: RuntimeValue, right: RuntimeValue): (r: Result<RuntimeValue, VmError>)
    requires op.IsBinary()
    ensures op.Eq? ==> r == Ok(Boolean(ValuesEqual(left, right)))
    ensures op.Ne? ==> r == Ok(Boolean(!ValuesEqual(left, right)))
    ensures !BothIntegers(left, right) && !BothFloats(left, right) && !op.Eq? && !op.Ne? ==>
      r == Err(NonNumeric(op))
    ensures op.IsOrdering() && BothIntegers(left, right) ==>
      r == Ok(Boolean(Ordering(op, left.i as real, right.i as real)))
    ensures op.IsArithmetic() && r.Ok? ==>
      (BothIntegers(left, right) && r.value.Integer?) || (BothFloats(left, right) && r.value.Float?)
  {
    if op.Eq? then Ok(Boolean(ValuesEqual(left, right)))
    else if op.Ne? then Ok(Boolean(!ValuesEqual(left, right)))
    else if op.IsArithmetic() then
      match (left, right)
      case (Integer(a), Integer(b)) => IntegerArithmetic(op, a, b)
      case (Float(a), Float(b)) => FloatArithmetic(op, a, b)
      case _ => Err(NonNumeric(op))
    else
      match (left, right)
      case (Integer(a), Integer(b)) => Ok(Boolean(Ordering(op, a as real, b as real)))
      case (Float(a), Float(b)) => Ok(Boolean(Ordering(op, a, b)))
      case _ => Err(NonNumeric(op))
  }

  /** One write to standard output: `print!` (no newline) or `println!`. */
  datatype Printed = Printed(value: RuntimeValue, newline: bool)

  /** `value_to_string`; the text of a float is whatever `floatText` gives. */
  function ValueToString(v: RuntimeValue, floatText: real -> string): string {
    match v
    case Integer(i) => IntToDecimal(i)
    case Float(f) => floatText(f)
    case String(s) => s
    case Boolean(b) => if b then "true" else "false"
    case Function(name, _, _) => "<function " + name + ">"
    case Null => "null"
  }

  /** Everything a log of writes puts on standard output. */
  function OutputText(log: seq<Printed>, floatText: real -> string): string {
    if log == [] then ""
    else
      var last := log[|log| - 1];
      OutputText(log[..|log| - 1], floatText) + ValueToString(last.value, floatText)
        + (if last.newline then "\n" else "")
  }

  /** The fields of `VirtualMachine` that `run` changes, with standard output as a log. */
  datatype State = State(stack: seq<RuntimeValue>, globals: map<string, RuntimeValue>, ip: nat, output: seq<Printed>)

  /** After one instruction: go on, or stop with an error in the state reached so far. */
  datatype Outcome = Next(state: State) | Fault(state: State, error: VmError)

  /** The outcome a method reports as a `Result` and its new state. */
  function Settled(status: Result<(), VmError>, s: State): Outcome {
    if status.Ok? then Next(s) else Fault(s, status.error)
  }

  /** A two-operand instruction: pop the right operand, then the left, push the result. */
  function ExecuteBinary(op: Bytecode, s: State): (r: Outcome)
    requires op.IsBinary()
    ensures r.state.ip == s.ip && r.state.globals == s.globals && r.state.output == s.output
    ensures |s.stack| < 2 ==> r == Fault(s.(stack := []), StackUnderflow)
    ensures |s.stack| >= 2 ==> (r.Next? <==> BinaryResult(op, s.stack[|s.stack| - 2], s.stack[|s.stack| - 1]).Ok?)
    ensures r.Next? ==> (|r.state.stack| == |s.stack| - 1
      && r.state.stack[..|s.stack| - 2] == s.stack[..|s.stack| - 2]
      && r.state.stack[|s.stack| - 2] == BinaryResult(op, s.stack[|s.stack| - 2], s.stack[|s.stack| - 1]).value)
    ensures |s.stack| >= 2 && r.Fault? ==> (r.state.stack == s.stack[..|s.stack| - 2]
      && r.error == BinaryResult(op, s.stack[|s.stack| - 2], s.stack[|s.stack| - 1]).error)
  {
    var st := s.stack;
    if |st| < 2 then Fault(s.(stack := []), StackUnderflow)
    else
      var rest := st[..|st| - 2];
      match BinaryResult(op, st[|st| - 2], st[|st| - 1])
      case Ok(v) => Next(s.(stack := rest + [v]))
      case Err(e) => Fault(s.(stack := rest), e)
  }

  /** `Print` and `Puts`: pop one value and write it. */
  function ExecuteOutput(newline: bool, s: State): (r: Outcome)
    ensures r.state.ip == s.ip && r.state.globals == s.globals
    ensures s.stack == [] <==> r.Fault?
    ensures r.Next? ==> (r.state.stack + [s.stack[|s.stack| - 1]] == s.stack
      && r.state.output == s.output + [Printed(s.stack[|s.stack| - 1], newline)])
  {
    var st := s.stack;
    if st == [] then Fault(s, StackUnderflow)
    else Next(s.(stack := st[..|st| - 1], output := s.output + [Printed(st[|st| - 1], newline)]))
  }

  /** A builtin call: pop its argument, write it, push `Null`. */
  function ExecuteBuiltin(newline: bool, s: State): (r: Outcome)
    ensures r.state.ip == s.ip && r.state.globals == s.globals
    ensures s.stack == [] <==> r.Fault?
    ensures r.Fault? ==> r == Fault(s, StackUnderflow)
    ensures r.Next? ==> (|r.state.stack| == |s.stack| && r.state.stack[|s.stack| - 1] == Null
      && r.state.stack[..|s.stack| - 1] == s.stack[..|s.stack| - 1]
      && r.state.output == s.output + [Printed(s.stack[|s.stack| - 1], newline)])
  {
    var st := s.stack;
    if st == [] then Fault(s, StackUnderflow)
    else Next(s.(stack := st[..|st| - 1] + [Null], output := s.output + [Printed(st[|st| - 1], newline)]))
  }

  /** `Call(n)`: pop the callee's name; only `puts` and `print` with one argument are known. */
  function ExecuteCall(argumentCount: nat, s: State): (r: Outcome)
    ensures r.state.ip == s.ip && r.state.globals == s.globals
    ensures r.Next? <==> (|s.stack| >= 2 && argumentCount == 1
      && s.stack[|s.stack| - 1] in {String("puts"), String("print")})
  {
    var st := s.stack;
    if st == [] then Fault(s, StackUnderflow)
    else
      var s1 := s.(stack := st[..|st| - 1]);
      match st[|st| - 1]
      case String(name) =>
        if name == "puts" || name == "print" then
          if argumentCount == 1 then ExecuteBuiltin(name == "puts", s1)
          else Fault(s1, WrongArgumentCount(name))
        else Fault(s1, UnknownFunction(name))
      case _ => Fault(s1, CalleeNotString)
  }

  /** Loads and stores between the constant pool, the stack, the local slots and the globals. */
  function ExecuteDataMove(instruction: Bytecode, constants: seq<RuntimeValue>, s: State): (r: Outcome)
    requires instruction.IsDataMove()
    ensures r.state.ip == s.ip && r.state.output == s.output
    ensures !instruction.StoreGlobal? ==> r.state.globals == s.globals
  {
    var st := s.stack;
    match instruction
    case LoadConst(i) =>
      if i < |constants| then Next(s.(stack := st + [constants[i]])) else Fault(s, ConstantOutOfRange(i))
    case StoreLocal(_) =>
      if st == [] then Fault(s, StackUnderflow) else Next(s.(stack := st[..|st| - 1]))
    case LoadLocal(_) => Next(s)
    case StoreGlobal(name) =>
      if st == [] then Fault(s, StackUnderflow)
      else Next(s.(stack := st[..|st| - 1], globals := s.globals[name := st[|st| - 1]]))
    case LoadGlobal(name) =>
      Next(s.(stack := st + [if name in s.globals then s.globals[name] else Integer(0)]))
  }

  /** Output, calls, `Return` and `Pop`; the last two drop the top of the stack if there is one. */
  function ExecuteEffect(instruction: Bytecode, s: State): (r: Outcome)
    requires instruction.IsEffect()
    ensures r.state.ip == s.ip && r.state.globals == s.globals
    ensures instruction.Return? || instruction.Pop? ==> r.Next? && r.state.output == s.output
  {
    var st := s.stack;
    match instruction
    case Print => ExecuteOutput(false, s)
    case Puts => ExecuteOutput(true, s)
    case Call(n) => ExecuteCall(n, s)
    case CallBuiltin(id) =>
      if id == 0 || id == 1 then ExecuteBuiltin(id == 0, s) else Fault(s, UnknownBuiltin(id))
    case Return => Next(s.(stack := if st == [] then [] else st[..|st| - 1]))
    case Pop => Next(s.(stack := if st == [] then [] else st[..|st| - 1]))
  }

  /** What one fetched instruction does; the instruction pointer has already moved past it. */
  function Execute(instruction: Bytecode, constants: seq<RuntimeValue>, s: State): (r: Outcome)
    ensures r.state.ip == s.ip
    ensures !instruction.StoreGlobal? ==> r.state.globals == s.globals
    ensures !(instruction.Print? || instruction.Puts? || instruction.Call? || instruction.CallBuiltin?) ==>
      r.state.output == s.output
    ensures instruction.IsUnsupported() ==> r == Fault(s, Unsupported(instruction))
  {
    if instruction.IsDataMove() then ExecuteDataMove(instruction, constants, s)
    else if instruction.IsBinary() then ExecuteBinary(instruction, s)
    else if instruction.IsEffect() then ExecuteEffect(instruction, s)
    else Fault(s, Unsupported(instruction))
  }

  /** One iteration of the fetch/dispatch loop: fetch, move `ip` past it, execute. */
  function Step(code: seq<Bytecode>, constants: seq<RuntimeValue>, s: State): (r: Outcome)
    requires s.ip < |code|
    ensures r.state.ip == s.ip + 1
  {
    Execute(code[s.ip], constants, s.(ip := s.ip + 1))
  }

  /** The value `run` returns once `ip` is past the end: the popped top of the stack, or `Null`. */
  function Finish(s: State): (r: (RuntimeValue, State))
    ensures s.stack == [] ==> r == (Null, s)
    ensures s.stack != [] ==> r.1 == s.(stack := r.1.stack) && r.1.stack + [r.0] == s.stack
  {
    if s.stack == [] then (Null, s) else (s.stack[|s.stack| - 1], s.(stack := s.stack[..|s.stack| - 1]))
  }

  /** The outcome of `run`, its final state and how many instructions it executed. */
  datatype RunResult = RunResult(result: Result<RuntimeValue, VmError>, state: State, steps: nat)

  /**
    `run` from state `s`. No instruction moves `ip` except by one, so the run
    executes at most `|code| - s.ip` instructions and always ends.
  */
  function RunFrom(code: seq<Bytecode>, constants: seq<RuntimeValue>, s: State): (r: RunResult)
    ensures r.state.ip == s.ip + r.steps
    ensures s.ip >= |code| ==> r.steps == 0
    ensures s.ip < |code| ==> 1 <= r.steps <= |code| - s.ip
    ensures r.result.Ok? && s.ip < |code| ==> r.state.ip == |code|
    decreases |code| - s.ip
  {
    if s.ip >= |code| then
      var (top, s') := Finish(s);
      RunResult(Ok(top), s', 0)
    else
      match Step(code, constants, s)
      case Next(s') =>
        var r := RunFrom(code, constants, s');
        RunResult(r.result, r.state, r.steps + 1)
      case Fault(s', e) => RunResult(Err(e), s', 1)
  }
}
