/**
  What the bytecode compiler emits for each syntax-tree node, as pure functions
  over the compiler's two buffers: the instruction vector and the append-only
  constant pool. Lowering a node appends to both, or stops at the first error
  with whatever it had appended before it; `BytecodeCompiler` in module
  `Compiler` runs the same walk in place.

  The compiler emits no jumps: `if`, `while` and `for` lower to their parts in
  source order, and nothing stores a variable.
*/
module Lowering {
  import opened Wrappers
  import opened Decimal
  import opened Ast
  import opened Machine

  datatype CompileError =
    | NestedFunction
    | DeclarationExpression
    | ArgumentCount(callee: string)
    | UnknownFormatFunction(callee: string)

  /** The `Err` string `compile_statement` returns. */
  function CompileMessage(e: CompileError): string {
    match e
    case NestedFunction => "Nested functions not implemented yet"
    case DeclarationExpression => "VariableDeclaration expression not expected in this context"
    case ArgumentCount(name) => name + " function expects 1 argument"
    case UnknownFormatFunction(name) => "Unknown function: " + name
  }

  /** The compiler's fields: emitted instructions and the constant pool. */
  datatype Buffers = Buffers(code: seq<Bytecode>, constants: seq<RuntimeValue>)

  /** The buffers after lowering a node, and whether it succeeded. */
  datatype Emitted = Emitted(status: Result<(), CompileError>, out: Buffers)

  /** Lowering only ever appends to both buffers. */
  predicate Extends(b: Buffers, b': Buffers) {
    b.code <= b'.code && b.constants <= b'.constants
  }

  /** `literal_to_runtime_value`: every literal has its own runtime value, and it never fails. */
  function LiteralValue(l: Literal): (v: RuntimeValue)
    ensures l.Integer? <==> v.Integer?
    ensures l.Float? <==> v.Float?
    ensures l.String? <==> v.String?
    ensures l.Boolean? <==> v.Boolean?
  {
    match l
    case Integer(n) => RuntimeValue.Integer(n)
    case Float(f) => RuntimeValue.Float(f)
    case String(s) => RuntimeValue.String(s)
    case Boolean(b) => RuntimeValue.Boolean(b)
  }

  /** The opcode each operator lowers to. */
  function Opcode(op: BinaryOp): (i: Bytecode)
    ensures i.IsBinary()
    ensures op.IsArithmetic() <==> i.IsArithmetic()
  {
    match op
    case Add => Bytecode.Add
    case Subtract => Sub
    case Multiply => Mul
    case Divide => Div
    case Modulo => Mod
    case Equal => Eq
    case NotEqual => Ne
    case Less => Lt
    case LessEqual => Le
    case Greater => Gt
    case GreaterEqual => Ge
  }

  /** `add_constant` followed by a `LoadConst` of the index it returned. */
  function PushConstant(b: Buffers, v: RuntimeValue): (r: Buffers)
    ensures Extends(b, r)
  {
    Buffers(b.code + [LoadConst(|b.constants|)], b.constants + [v])
  }

  function Emit(b: Buffers, instructions: seq<Bytecode>): (r: Buffers)
    ensures Extends(b, r)
  {
    b.(code := b.code + instructions)
  }

  function Succeed(b: Buffers): Emitted {
    Emitted(Ok(()), b)
  }

  predicate IsBuiltinName(name: string) {
    name == "puts" || name == "print"
  }

  /** The builtin ids the machine knows: 0 writes a line, 1 writes without a newline. */
  function BuiltinId(name: string): nat {
    if name == "puts" then 0 else 1
  }

  /** `compile_expression`. */
  function LowerExpression(e: Expression, b: Buffers): (r: Emitted)
    ensures Extends(b, r.out)
    decreases e, 1
  {
    match e
    case Literal(l) => Succeed(PushConstant(b, LiteralValue(l)))
    case VariableDeclaration(_, _, _) => Emitted(Err(DeclarationExpression), b)
    case Variable(name) => Succeed(Emit(b, [LoadGlobal(name)]))
    case Binary(left, op, right) =>
      var l := LowerExpression(left, b);
      if l.status.Err? then l
      else
        var r := LowerExpression(right, l.out);
        if r.status.Err? then r else Succeed(Emit(r.out, [Opcode(op)]))
    case Call(name, arguments) =>
      var a := LowerExpressions(arguments, b);
      if a.status.Err? then a
      else if IsBuiltinName(name) then
        if |arguments| == 1 then Succeed(Emit(a.out, [CallBuiltin(BuiltinId(name))]))
        else Emitted(Err(ArgumentCount(name)), a.out)
      else Succeed(Emit(PushConstant(a.out, RuntimeValue.String(name)), [Bytecode.Call(|arguments|)]))
    case FormatCall(name, format, arguments) =>
      var a := LowerExpressions(arguments, b.(constants := b.constants + [RuntimeValue.String(format)]));
      if a.status.Err? then a
      else if IsBuiltinName(name) then Succeed(Emit(a.out, [CallBuiltin(BuiltinId(name))]))
      else Emitted(Err(UnknownFormatFunction(name)), a.out)
    case StructDefinition(_, _) => Succeed(PushConstant(b, Null))
    case EnumMatch(_, _) => Succeed(PushConstant(b, Null))
    case _ => LowerCompound(e, b)
  }

  /**
    The array, struct and enum forms: their parts, then placeholder pops and
    one placeholder constant instead of a real value.
  */
  function LowerCompound(e: Expression, b: Buffers): (r: Emitted)
    requires e.ArrayLiteral? || e.ArrayAccess? || e.ArrayAssignment? || e.StructInitialization?
      || e.StructFieldAccess? || e.StructFieldAssignment? || e.EnumVariantCreation?
    ensures Extends(b, r.out)
    decreases e, 0
  {
    match e
    case ArrayLiteral(elements) =>
      var a := LowerExpressions(elements, b);
      if a.status.Err? then a
      else Succeed(PushConstant(a.out, RuntimeValue.String("array_" + NatToDecimal(|elements|))))
    case ArrayAccess(base, index) =>
      var x := LowerExpression(base, b);
      if x.status.Err? then x
      else
        var i := LowerExpression(index, x.out);
        if i.status.Err? then i else Succeed(PushConstant(i.out, RuntimeValue.Integer(0)))
    case ArrayAssignment(base, index, value) =>
      var x := LowerExpression(base, b);
      if x.status.Err? then x
      else
        var i := LowerExpression(index, x.out);
        if i.status.Err? then i
        else
          var v := LowerExpression(value, i.out);
          if v.status.Err? then v
          else Succeed(PushConstant(Emit(v.out, [Pop, Pop, Pop]), Null))
    case StructInitialization(_, fields) =>
      var f := LowerFields(fields, b);
      if f.status.Err? then f
      else Succeed(PushConstant(f.out, RuntimeValue.String("struct_instance")))
    case StructFieldAccess(base, field) =>
      var x := LowerExpression(base, b);
      if x.status.Err? then x else Succeed(PushConstant(x.out, RuntimeValue.String(field)))
    case StructFieldAssignment(base, field, value) =>
      var x := LowerExpression(base, b);
      if x.status.Err? then x
      else
        var v := LowerExpression(value, x.out);
        if v.status.Err? then v
        else Succeed(PushConstant(Emit(v.out, [Pop, Pop]), RuntimeValue.String(field)))
    case EnumVariantCreation(_, variant, values) =>
      var a := LowerExpressions(values, b);
      if a.status.Err? then a
      else Succeed(PushConstant(a.out, RuntimeValue.String("enum_" + variant)))
  }

  /** The `for` loop over a list of sub-expressions, left to right. */
  function LowerExpressions(es: seq<Expression>, b: Buffers): (r: Emitted)
    ensures Extends(b, r.out)
  {
    if es == [] then Succeed(b)
    else
      var first := LowerExpression(es[0], b);
      if first.status.Err? then first else LowerExpressions(es[1..], first.out)
  }

  /** The field values of a struct initialization, in source order; the names emit nothing. */
  function LowerFields(fields: seq<(string, Expression)>, b: Buffers): (r: Emitted)
    ensures Extends(b, r.out)
  {
    if fields == [] then Succeed(b)
    else
      var first := LowerField(fields[0], b);
      if first.status.Err? then first else LowerFields(fields[1..], first.out)
  }

  function LowerField(field: (string, Expression), b: Buffers): (r: Emitted)
    ensures Extends(b, r.out)
  {
    LowerExpression(field.1, b)
  }

  /** `compile_statement`. */
  function LowerStatement(st: Statement, b: Buffers): (r: Emitted)
    ensures Extends(b, r.out)
  {
    match st
    case Expression(e) =>
      var x := LowerExpression(e, b);
      if x.status.Err? then x else Succeed(Emit(x.out, [Pop]))
    case VariableDeclaration(_, value, _) =>
      var x := LowerExpression(value, b);
      if x.status.Err? then x else Succeed(Emit(x.out, [Pop]))
    case Block(body) => LowerStatements(body, b)
    case Function(_) => Emitted(Err(NestedFunction), b)
    case If(condition, thenBranch, elifs, elseBranch) =>
      var c := LowerExpression(condition, b);
      if c.status.Err? then c
      else
        var t := LowerStatements(thenBranch, c.out);
        if t.status.Err? then t
        else
          var e := LowerElifs(elifs, t.out);
          if e.status.Err? || elseBranch.NoElse? then e else LowerStatements(elseBranch.body, e.out)
    case While(condition, body) =>
      var c := LowerExpression(condition, b);
      if c.status.Err? then c else LowerStatements(body, c.out)
    case For(_, iterable, body) =>
      var c := LowerExpression(iterable, b);
      if c.status.Err? then c else LowerStatements(body, c.out)
    case Break => Succeed(b)
    case Continue => Succeed(b)
    case UnsafeBlock(body) => LowerStatements(body, b)
    case Import(_) => Succeed(b)
    case ImportAs(_, _) => Succeed(b)
  }

  /** The `for` loop over a statement list, in order. */
  function LowerStatements(ss: seq<Statement>, b: Buffers): (r: Emitted)
    ensures Extends(b, r.out)
  {
    if ss == [] then Succeed(b)
    else
      var first := LowerStatement(ss[0], b);
      if first.status.Err? then first else LowerStatements(ss[1..], first.out)
  }

  /** Each `elif`: its condition, then its body. */
  function LowerElifs(branches: seq<ElifBranch>, b: Buffers): (r: Emitted)
    ensures Extends(b, r.out)
  {
    if branches == [] then Succeed(b)
    else
      var c := LowerExpression(branches[0].condition, b);
      if c.status.Err? then c
      else
        var body := LowerStatements(branches[0].body, c.out);
        if body.status.Err? then body else LowerElifs(branches[1..], body.out)
  }

  /**
    `compile_function`: the body, then a load of the constant 0 and `Return`.
    On success the whole accumulated buffers are the result.
  */
  function LowerFunction(f: Ast.Function, b: Buffers): (r: Emitted)
    ensures Extends(b, r.out)
    ensures r.status.Ok? ==> (|r.out.code| >= 2 && |r.out.constants| >= 1
      && r.out.code[|r.out.code| - 1] == Return
      && r.out.code[|r.out.code| - 2] == LoadConst(|r.out.constants| - 1)
      && r.out.constants[|r.out.constants| - 1] == RuntimeValue.Integer(0))
  {
    var body := LowerStatements(f.body, b);
    if body.status.Err? then body
    else Succeed(Emit(PushConstant(body.out, RuntimeValue.Integer(0)), [Return]))
  }
}
