/**
  The bytecode compiler object. Its two buffers grow across calls: compiling a
  second function appends to what the first left behind, and `CompileFunction`
  returns the whole of both. Every method is proved to do what the lowering
  functions of module `Lowering` say.
*/
module Compiler {
  import opened Wrappers
  import opened Ast
  import opened Machine
  import opened Lowering

  class BytecodeCompiler {
    var bytecode: seq<Bytecode>
    var constants: seq<RuntimeValue>

    function Current(): Buffers
      reads this
    {
      Buffers(bytecode, constants)
    }

    constructor ()
      ensures bytecode == [] && constants == []
    {
      bytecode := [];
      constants := [];
    }

    /** `add_constant`: appends one value and returns the index it landed at. */
    method AddConstant(value: RuntimeValue) returns (index: nat)
      modifies this
      ensures index == |old(constants)| && constants == old(constants) + [value]
      ensures constants[index] == value && bytecode == old(bytecode)
    {
      index := |constants|;
      constants := constants + [value];
    }

    /** `compile_function`: the body, a load of the constant 0, `Return`, then copies of both buffers. */
    method CompileFunction(f: Ast.Function) returns (r: Result<(seq<Bytecode>, seq<RuntimeValue>), CompileError>)
      modifies this
      ensures Current() == LowerFunction(f, old(Current())).out
      ensures LowerFunction(f, old(Current())).status.Ok? ==> r == Ok((bytecode, constants))
      ensures LowerFunction(f, old(Current())).status.Err? ==> r == Err(LowerFunction(f, old(Current())).status.error)
    {
      var status := CompileStatements(f.body);
      if status.Err? {
        return Err(status.error);
      }
      var index := AddConstant(RuntimeValue.Integer(0));
      bytecode := bytecode + [LoadConst(index)];
      bytecode := bytecode + [Return];
      return Ok((bytecode, constants));
    }

    /** A `for stmt in ...` loop of `compile_statement` calls, stopping at the first error. */
    method CompileStatements(ss: seq<Statement>) returns (status: Result<(), CompileError>)
      modifies this
      ensures Emitted(status, Current()) == LowerStatements(ss, old(Current()))
    {
      for i := 0 to |ss|
        invariant LowerStatements(ss[i..], Current()) == LowerStatements(ss, old(Current()))
      {
        assert ss[i..][1..] == ss[i + 1..];
        status := CompileStatement(ss[i]);
        if status.Err? {
          return;
        }
      }
      return Ok(());
    }

    /** `compile_statement`. */
    method CompileStatement(st: Statement) returns (status: Result<(), CompileError>)
      modifies this
      ensures Emitted(status, Current()) == LowerStatement(st, old(Current()))
      decreases st, 1
    {
      match st {
        case Expression(e) =>
          status := CompileExpression(e);
          if status.Ok? {
            bytecode := bytecode + [Pop];
          }
        case VariableDeclaration(_, value, _) =>
          status := CompileExpression(value);
          if status.Ok? {
            bytecode := bytecode + [Pop];
          }
        case Block(body) =>
          status := CompileStatements(body);
        case Function(_) =>
          status := Err(NestedFunction);
        case If(_, _, _, _) =>
          status := CompileIf(st);
        case While(_, _) =>
          status := CompileLoop(st);
        case For(_, _, _) =>
          status := CompileLoop(st);
        case Break =>
          status := Ok(());
        case Continue =>
          status := Ok(());
        case UnsafeBlock(body) =>
          status := CompileStatements(body);
        case Import(_) =>
          status := Ok(());
        case ImportAs(_, _) =>
          status := Ok(());
      }
    }

    /** An `if`: condition, then-body, each `elif`, the `else` body; no jumps. */
    method CompileIf(st: Statement) returns (status: Result<(), CompileError>)
      requires st.If?
      modifies this
      ensures Emitted(status, Current()) == LowerStatement(st, old(Current()))
      decreases st, 0
    {
      status := CompileExpression(st.condition);
      if status.Err? {
        return;
      }
      status := CompileStatements(st.thenBranch);
      if status.Err? {
        return;
      }
      status := CompileElifs(st.elifBranches);
      if status.Err? {
        return;
      }
      if st.elseBranch.ElseBranch? {
        status := CompileStatements(st.elseBranch.body);
      }
    }

    /** `while` and `for`: the condition or iterable once, then the body once; no jumps. */
    method CompileLoop(st: Statement) returns (status: Result<(), CompileError>)
      requires st.While? || st.For?
      modifies this
      ensures Emitted(status, Current()) == LowerStatement(st, old(Current()))
      decreases st, 0
    {
      if st.While? {
        status := CompileExpression(st.condition);
      } else {
        status := CompileExpression(st.iterable);
      }
      if status.Ok? {
        status := CompileStatements(st.body);
      }
    }

    method CompileElifs(elifs: seq<ElifBranch>) returns (status: Result<(), CompileError>)
      modifies this
      ensures Emitted(status, Current()) == LowerElifs(elifs, old(Current()))
    {
      for i := 0 to |elifs|
        invariant LowerElifs(elifs[i..], Current()) == LowerElifs(elifs, old(Current()))
      {
        assert elifs[i..][1..] == elifs[i + 1..];
        status := CompileExpression(elifs[i].condition);
        if status.Err? {
          return;
        }
        status := CompileStatements(elifs[i].body);
        if status.Err? {
          return;
        }
      }
      return Ok(());
    }

    /** A `for arg in ...` loop of `compile_expression` calls, stopping at the first error. */
    method CompileExpressions(es: seq<Expression>) returns (status: Result<(), CompileError>)
      modifies this
      ensures Emitted(status, Current()) == LowerExpressions(es, old(Current()))
    {
      for i := 0 to |es|
        invariant LowerExpressions(es[i..], Current()) == LowerExpressions(es, old(Current()))
      {
        assert es[i..][1..] == es[i + 1..];
        status := CompileExpression(es[i]);
        if status.Err? {
          return;
        }
      }
      return Ok(());
    }

    /** The field values of a struct initialization. */
    method CompileFields(fields: seq<(string, Expression)>) returns (status: Result<(), CompileError>)
      modifies this
      ensures Emitted(status, Current()) == LowerFields(fields, old(Current()))
    {
      for i := 0 to |fields|
        invariant LowerFields(fields[i..], Current()) == LowerFields(fields, old(Current()))
      {
        assert fields[i..][1..] == fields[i + 1..];
        status := CompileField(fields[i]);
        if status.Err? {
          return;
        }
      }
      return Ok(());
    }

    method CompileField(field: (string, Expression)) returns (status: Result<(), CompileError>)
      modifies this
      ensures Emitted(status, Current()) == LowerField(field, old(Current()))
    {
      status := CompileExpression(field.1);
    }

    /** Appends the constant and a load of it. */
    method LoadConstant(value: RuntimeValue)
      modifies this
      ensures Current() == PushConstant(old(Current()), value)
    {
      var index := AddConstant(value);
      bytecode := bytecode + [LoadConst(index)];
    }

    /** `compile_expression`. */
    method CompileExpression(e: Expression) returns (status: Result<(), CompileError>)
      modifies this
      ensures Emitted(status, Current()) == LowerExpression(e, old(Current()))
      decreases e, 1
    {
      match e {
        case Literal(l) =>
          LoadConstant(LiteralValue(l));
        case VariableDeclaration(_, _, _) =>
          return Err(DeclarationExpression);
        case Variable(name) =>
          bytecode := bytecode + [LoadGlobal(name)];
        case Binary(_, _, _) =>
          status := CompileBinary(e);
          return;
        case Call(_, _) =>
          status := CompileCall(e);
          return;
        case FormatCall(_, _, _) =>
          status := CompileFormatCall(e);
          return;
        case StructDefinition(_, _) =>
          LoadConstant(Null);
        case EnumMatch(_, _) =>
          LoadConstant(Null);
        case _ =>
          status := CompileCompound(e);
          return;
      }
      return Ok(());
    }

    /** The array, struct and enum forms. */
    method CompileCompound(e: Expression) returns (status: Result<(), CompileError>)
      requires e.ArrayLiteral? || e.ArrayAccess? || e.ArrayAssignment? || e.StructInitialization?
        || e.StructFieldAccess? || e.StructFieldAssignment? || e.EnumVariantCreation?
      modifies this
      ensures Emitted(status, Current()) == LowerCompound(e, old(Current()))
      decreases e, 0
    {
      match e {
        case ArrayLiteral(elements) =>
          var _ :- CompileExpressions(elements);
          LoadConstant(RuntimeValue.String("array_" + Decimal.NatToDecimal(|elements|)));
        case ArrayAccess(base, index) =>
          var _ :- CompileExpression(base);
          var _ :- CompileExpression(index);
          LoadConstant(RuntimeValue.Integer(0));
        case ArrayAssignment(base, index, value) =>
          var _ :- CompileExpression(base);
          var _ :- CompileExpression(index);
          var _ :- CompileExpression(value);
          bytecode := bytecode + [Pop, Pop, Pop];
          LoadConstant(Null);
        case StructInitialization(_, fields) =>
          var _ :- CompileFields(fields);
          LoadConstant(RuntimeValue.String("struct_instance"));
        case StructFieldAccess(base, field) =>
          var _ :- CompileExpression(base);
          LoadConstant(RuntimeValue.String(field));
        case StructFieldAssignment(base, field, value) =>
          var _ :- CompileExpression(base);
          var _ :- CompileExpression(value);
          bytecode := bytecode + [Pop, Pop];
          LoadConstant(RuntimeValue.String(field));
        case EnumVariantCreation(_, variant, values) =>
          var _ :- CompileExpressions(values);
          LoadConstant(RuntimeValue.String("enum_" + variant));
      }
      return Ok(());
    }

    /** The left operand, the right operand, then the operator's opcode. */
    method CompileBinary(e: Expression) returns (status: Result<(), CompileError>)
      requires e.Binary?
      modifies this
      ensures Emitted(status, Current()) == LowerExpression(e, old(Current()))
      decreases e, 0
    {
      var _ :- CompileExpression(e.left);
      var _ :- CompileExpression(e.right);
      bytecode := bytecode + [Opcode(e.op)];
      return Ok(());
    }

    /** A call: the arguments, then `CallBuiltin` for `puts`/`print` or a load of the name and `Call`. */
    method CompileCall(e: Expression) returns (status: Result<(), CompileError>)
      requires e.Call?
      modifies this
      ensures Emitted(status, Current()) == LowerExpression(e, old(Current()))
      decreases e, 0
    {
      var name, arguments := e.name, e.arguments;
      var _ :- CompileExpressions(arguments);
      if IsBuiltinName(name) {
        if |arguments| != 1 {
          return Err(ArgumentCount(name));
        }
        bytecode := bytecode + [CallBuiltin(BuiltinId(name))];
      } else {
        LoadConstant(RuntimeValue.String(name));
        bytecode := bytecode + [Bytecode.Call(|arguments|)];
      }
      return Ok(());
    }

    /** A format call: the format string goes into the pool but is never loaded. */
    method CompileFormatCall(e: Expression) returns (status: Result<(), CompileError>)
      requires e.FormatCall?
      modifies this
      ensures Emitted(status, Current()) == LowerExpression(e, old(Current()))
      decreases e, 0
    {
      var name, arguments := e.name, e.arguments;
      var _ := AddConstant(RuntimeValue.String(e.formatString));
      var _ :- CompileExpressions(arguments);
      if !IsBuiltinName(name) {
        return Err(UnknownFormatFunction(name));
      }
      bytecode := bytecode + [CallBuiltin(BuiltinId(name))];
      return Ok(());
    }
  }
}
