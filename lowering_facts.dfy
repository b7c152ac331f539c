/**
  Properties of what the compiler emits: which instructions can appear, which
  constants they load, exactly which trees compile, and how each form moves
  the stack height.
*/
module LoweringFacts {
  import opened Wrappers
  import opened Ast
  import opened Decimal
  import opened Machine
  import opened MachineFacts
  import opened Lowering

  /** The instructions the compiler emits for statements and expressions: no stores, no jumps, builtins 0 and 1 only. */
  predicate Emittable(i: Bytecode) {
    i.LoadConst? || i.LoadGlobal? || i.IsBinary() || i.Pop? || i.Call? || (i.CallBuiltin? && i.builtin <= 1)
  }

  /**
    Everything appended between `b` and `b'` is emittable, and every `LoadConst`
    among it names a constant appended over the same stretch.
  */
  predicate WellEmitted(b: Buffers, b': Buffers) {
    && Extends(b, b')
    && forall k | |b.code| <= k < |b'.code| ::
         Emittable(b'.code[k]) && (b'.code[k].LoadConst? ==> |b.constants| <= b'.code[k].index < |b'.constants|)
  }

  lemma WellEmittedTransitive(b1: Buffers, b2: Buffers, b3: Buffers)
    requires WellEmitted(b1, b2) && WellEmitted(b2, b3)
    ensures WellEmitted(b1, b3)
  {
    forall k | |b1.code| <= k < |b3.code|
      ensures Emittable(b3.code[k])
      ensures b3.code[k].LoadConst? ==> |b1.constants| <= b3.code[k].index < |b3.constants|
    {
      if k < |b2.code| {
        assert b3.code[k] == b2.code[k];
      }
    }
  }

  /** Every instruction lowering appends is emittable and loads a constant appended with it, even when lowering fails. */
  lemma {:induction false} ExpressionWellEmitted(e: Expression, b: Buffers)
    ensures WellEmitted(b, LowerExpression(e, b).out)
    decreases e, 1
  {
    match e
    case Binary(left, op, right) =>
      var l := LowerExpression(left, b);
      ExpressionWellEmitted(left, b);
      if l.status.Ok? {
        var r := LowerExpression(right, l.out);
        ExpressionWellEmitted(right, l.out);
        WellEmittedTransitive(b, l.out, r.out);
        if r.status.Ok? {
          WellEmittedTransitive(b, r.out, Emit(r.out, [Opcode(op)]));
        }
      }
    case Call(_, _) => CallWellEmitted(e, b);
    case FormatCall(_, _, _) => CallWellEmitted(e, b);
    case ArrayLiteral(_) => CompoundWellEmitted(e, b);
    case ArrayAccess(_, _) => CompoundWellEmitted(e, b);
    case ArrayAssignment(_, _, _) => CompoundWellEmitted(e, b);
    case StructInitialization(_, _) => RecordWellEmitted(e, b);
    case StructFieldAccess(_, _) => RecordWellEmitted(e, b);
    case StructFieldAssignment(_, _, _) => RecordWellEmitted(e, b);
    case EnumVariantCreation(_, _, _) => RecordWellEmitted(e, b);
    case _ =>
  }

  /** Calls and format calls. */
  lemma {:induction false} CallWellEmitted(e: Expression, b: Buffers)
    requires e.Call? || e.FormatCall?
    ensures WellEmitted(b, LowerExpression(e, b).out)
    decreases e, 0
  {
    match e
    case Call(name, arguments) =>
      var a := LowerExpressions(arguments, b);
      ExpressionsWellEmitted(arguments, b);
      if a.status.Ok? {
        if !IsBuiltinName(name) {
          var p := PushConstant(a.out, RuntimeValue.String(name));
          WellEmittedTransitive(b, a.out, p);
          WellEmittedTransitive(b, p, Emit(p, [Bytecode.Call(|arguments|)]));
        } else if |arguments| == 1 {
          WellEmittedTransitive(b, a.out, Emit(a.out, [CallBuiltin(BuiltinId(name))]));
        }
      }
    case FormatCall(name, format, arguments) =>
      var b1 := b.(constants := b.constants + [RuntimeValue.String(format)]);
      var a := LowerExpressions(arguments, b1);
      ExpressionsWellEmitted(arguments, b1);
      WellEmittedTransitive(b, b1, a.out);
      if a.status.Ok? && IsBuiltinName(name) {
        WellEmittedTransitive(b, a.out, Emit(a.out, [CallBuiltin(BuiltinId(name))]));
      }
  }

  /** Appends a placeholder constant and its load after `x`, as the compound forms end. */
  lemma PlaceholderWellEmitted(b: Buffers, x: Buffers, pops: seq<Bytecode>, v: RuntimeValue)
    requires WellEmitted(b, x)
    requires forall k | 0 <= k < |pops| :: pops[k] == Pop
    ensures WellEmitted(b, PushConstant(Emit(x, pops), v))
  {
    WellEmittedTransitive(b, x, Emit(x, pops));
    WellEmittedTransitive(b, Emit(x, pops), PushConstant(Emit(x, pops), v));
  }

  lemma {:induction false} CompoundWellEmitted(e: Expression, b: Buffers)
    requires e.ArrayLiteral? || e.ArrayAccess? || e.ArrayAssignment?
    ensures WellEmitted(b, LowerCompound(e, b).out)
    decreases e, 0
  {
    match e
    case ArrayLiteral(elements) =>
      var a := LowerExpressions(elements, b);
      ExpressionsWellEmitted(elements, b);
      PlaceholderWellEmitted(b, a.out, [], RuntimeValue.String("array_" + Decimal.NatToDecimal(|elements|)));
    case ArrayAccess(base, index) =>
      var x := LowerExpression(base, b);
      ExpressionWellEmitted(base, b);
      if x.status.Ok? {
        var i := LowerExpression(index, x.out);
        ExpressionWellEmitted(index, x.out);
        WellEmittedTransitive(b, x.out, i.out);
        PlaceholderWellEmitted(b, i.out, [], RuntimeValue.Integer(0));
      }
    case ArrayAssignment(base, index, value) =>
      var x := LowerExpression(base, b);
      ExpressionWellEmitted(base, b);
      if x.status.Ok? {
        var i := LowerExpression(index, x.out);
        ExpressionWellEmitted(index, x.out);
        WellEmittedTransitive(b, x.out, i.out);
        if i.status.Ok? {
          var v := LowerExpression(value, i.out);
          ExpressionWellEmitted(value, i.out);
          WellEmittedTransitive(b, i.out, v.out);
          PlaceholderWellEmitted(b, v.out, [Pop, Pop, Pop], Null);
        }
      }
  }

  /** Struct and enum forms. */
  lemma {:induction false} RecordWellEmitted(e: Expression, b: Buffers)
    requires e.StructInitialization? || e.StructFieldAccess? || e.StructFieldAssignment? || e.EnumVariantCreation?
    ensures WellEmitted(b, LowerCompound(e, b).out)
    decreases e, 0
  {
    match e
    case StructInitialization(_, fields) =>
      var f := LowerFields(fields, b);
      FieldsWellEmitted(fields, b);
      PlaceholderWellEmitted(b, f.out, [], RuntimeValue.String("struct_instance"));
    case StructFieldAccess(base, field) =>
      var x := LowerExpression(base, b);
      ExpressionWellEmitted(base, b);
      PlaceholderWellEmitted(b, x.out, [], RuntimeValue.String(field));
    case StructFieldAssignment(base, field, value) =>
      var x := LowerExpression(base, b);
      ExpressionWellEmitted(base, b);
      if x.status.Ok? {
        var v := LowerExpression(value, x.out);
        ExpressionWellEmitted(value, x.out);
        WellEmittedTransitive(b, x.out, v.out);
        PlaceholderWellEmitted(b, v.out, [Pop, Pop], RuntimeValue.String(field));
      }
    case EnumVariantCreation(_, variant, values) =>
      var a := LowerExpressions(values, b);
      ExpressionsWellEmitted(values, b);
      PlaceholderWellEmitted(b, a.out, [], RuntimeValue.String("enum_" + variant));
  }

  lemma {:induction false} ExpressionsWellEmitted(es: seq<Expression>, b: Buffers)
    ensures WellEmitted(b, LowerExpressions(es, b).out)
    decreases es
  {
    if es != [] {
      var first := LowerExpression(es[0], b);
      ExpressionWellEmitted(es[0], b);
      if first.status.Ok? {
        ExpressionsWellEmitted(es[1..], first.out);
        WellEmittedTransitive(b, first.out, LowerExpressions(es[1..], first.out).out);
      }
    }
  }

  lemma {:induction false} FieldsWellEmitted(fields: seq<(string, Expression)>, b: Buffers)
    ensures WellEmitted(b, LowerFields(fields, b).out)
    decreases fields
  {
    if fields != [] {
      var first := LowerField(fields[0], b);
      FieldWellEmitted(fields[0], b);
      if first.status.Ok? {
        FieldsWellEmitted(fields[1..], first.out);
        WellEmittedTransitive(b, first.out, LowerFields(fields[1..], first.out).out);
      }
    }
  }

  lemma {:induction false} FieldWellEmitted(field: (string, Expression), b: Buffers)
    ensures WellEmitted(b, LowerField(field, b).out)
  {
    ExpressionWellEmitted(field.1, b);
  }

  /** The same for statements: no statement emits a store, a jump or an unknown builtin. */
  lemma {:induction false} StatementWellEmitted(st: Statement, b: Buffers)
    ensures WellEmitted(b, LowerStatement(st, b).out)
  {
    match st
    case Expression(e) =>
      ExpressionWellEmitted(e, b);
      PlaceholderPopWellEmitted(b, LowerExpression(e, b).out);
    case VariableDeclaration(_, value, _) =>
      ExpressionWellEmitted(value, b);
      PlaceholderPopWellEmitted(b, LowerExpression(value, b).out);
    case Block(body) => StatementsWellEmitted(body, b);
    case If(condition, thenBranch, elifs, elseBranch) =>
      var c := LowerExpression(condition, b);
      ExpressionWellEmitted(condition, b);
      if c.status.Ok? {
        var t := LowerStatements(thenBranch, c.out);
        StatementsWellEmitted(thenBranch, c.out);
        WellEmittedTransitive(b, c.out, t.out);
        if t.status.Ok? {
          var e := LowerElifs(elifs, t.out);
          ElifsWellEmitted(elifs, t.out);
          WellEmittedTransitive(b, t.out, e.out);
          if e.status.Ok? && elseBranch.ElseBranch? {
            StatementsWellEmitted(elseBranch.body, e.out);
            WellEmittedTransitive(b, e.out, LowerStatements(elseBranch.body, e.out).out);
          }
        }
      }
    case While(condition, body) =>
      var c := LowerExpression(condition, b);
      ExpressionWellEmitted(condition, b);
      if c.status.Ok? {
        StatementsWellEmitted(body, c.out);
        WellEmittedTransitive(b, c.out, LowerStatements(body, c.out).out);
      }
    case For(_, iterable, body) =>
      var c := LowerExpression(iterable, b);
      ExpressionWellEmitted(iterable, b);
      if c.status.Ok? {
        StatementsWellEmitted(body, c.out);
        WellEmittedTransitive(b, c.out, LowerStatements(body, c.out).out);
      }
    case UnsafeBlock(body) => StatementsWellEmitted(body, b);
    case _ =>
  }

  lemma PlaceholderPopWellEmitted(b: Buffers, x: Buffers)
    requires WellEmitted(b, x)
    ensures WellEmitted(b, Emit(x, [Pop]))
  {
    WellEmittedTransitive(b, x, Emit(x, [Pop]));
  }

  lemma {:induction false} StatementsWellEmitted(ss: seq<Statement>, b: Buffers)
    ensures WellEmitted(b, LowerStatements(ss, b).out)
    decreases ss
  {
    if ss != [] {
      var first := LowerStatement(ss[0], b);
      StatementWellEmitted(ss[0], b);
      if first.status.Ok? {
        StatementsWellEmitted(ss[1..], first.out);
        WellEmittedTransitive(b, first.out, LowerStatements(ss[1..], first.out).out);
      }
    }
  }

  lemma {:induction false} ElifsWellEmitted(branches: seq<ElifBranch>, b: Buffers)
    ensures WellEmitted(b, LowerElifs(branches, b).out)
    decreases branches
  {
    if branches != [] {
      var c := LowerExpression(branches[0].condition, b);
      ExpressionWellEmitted(branches[0].condition, b);
      if c.status.Ok? {
        var body := LowerStatements(branches[0].body, c.out);
        StatementsWellEmitted(branches[0].body, c.out);
        WellEmittedTransitive(b, c.out, body.out);
        if body.status.Ok? {
          ElifsWellEmitted(branches[1..], body.out);
          WellEmittedTransitive(b, body.out, LowerElifs(branches[1..], body.out).out);
        }
      }
    }
  }

  /** The format string of a format call is added to the pool, and nothing the call emits ever loads it. */
  lemma FormatStringNeverLoaded(name: string, format: string, arguments: seq<Expression>, b: Buffers)
    ensures var r := LowerExpression(FormatCall(name, format, arguments), b);
      && |r.out.constants| > |b.constants|
      && r.out.constants[|b.constants|] == RuntimeValue.String(format)
      && forall k | |b.code| <= k < |r.out.code| :: r.out.code[k] != LoadConst(|b.constants|)
  {
    var b1 := b.(constants := b.constants + [RuntimeValue.String(format)]);
    var a := LowerExpressions(arguments, b1);
    ExpressionsWellEmitted(arguments, b1);
    if a.status.Ok? && IsBuiltinName(name) {
      WellEmittedTransitive(b1, a.out, Emit(a.out, [CallBuiltin(BuiltinId(name))]));
    }
    assert b1.constants <= LowerExpression(FormatCall(name, format, arguments), b).out.constants;
  }

  /** Code the machine can run without the errors only a faulty compiler could cause. */
  predicate Runnable(code: seq<Bytecode>, constants: seq<RuntimeValue>) {
    forall k | 0 <= k < |code| ::
      (Emittable(code[k]) || code[k] == Return) && (code[k].LoadConst? ==> code[k].index < |constants|)
  }

  /** Compiling a function onto runnable buffers leaves them runnable, whether or not it succeeds. */
  lemma FunctionRunnable(f: Ast.Function, b: Buffers)
    requires Runnable(b.code, b.constants)
    ensures Runnable(LowerFunction(f, b).out.code, LowerFunction(f, b).out.constants)
  {
    var body := LowerStatements(f.body, b);
    StatementsWellEmitted(f.body, b);
    var out := LowerFunction(f, b).out;
    forall k | 0 <= k < |out.code|
      ensures (Emittable(out.code[k]) || out.code[k] == Return) && (out.code[k].LoadConst? ==> out.code[k].index < |out.constants|)
    {
      if k < |b.code| {
        assert out.code[k] == b.code[k];
      } else if k < |body.out.code| {
        assert out.code[k] == body.out.code[k];
      }
    }
  }

  // ---------------------------------------------------------------------
  // Which trees compile

  /**
    The trees the compiler accepts, defined on the tree alone: no nested
    function, no declaration used as an expression, `puts`/`print` called
    with exactly one argument, and format calls only to `puts`/`print`. The
    compiler never looks inside struct definitions or `match` expressions.
  */
  predicate CompilableExpression(e: Expression)
    decreases e, 1
  {
    match e
    case VariableDeclaration(_, _, _) => false
    case Binary(left, _, right) => CompilableExpression(left) && CompilableExpression(right)
    case Call(name, arguments) => AllCompilable(arguments) && (IsBuiltinName(name) ==> |arguments| == 1)
    case FormatCall(name, _, arguments) => AllCompilable(arguments) && IsBuiltinName(name)
    case ArrayLiteral(elements) => AllCompilable(elements)
    case ArrayAccess(base, index) => CompilableExpression(base) && CompilableExpression(index)
    case ArrayAssignment(base, index, value) =>
      CompilableExpression(base) && CompilableExpression(index) && CompilableExpression(value)
    case StructInitialization(_, fields) => forall k | 0 <= k < |fields| :: CompilableField(fields[k])
    case StructFieldAccess(base, _) => CompilableExpression(base)
    case StructFieldAssignment(base, _, value) => CompilableExpression(base) && CompilableExpression(value)
    case EnumVariantCreation(_, _, values) => AllCompilable(values)
    case _ => true
  }

  predicate AllCompilable(es: seq<Expression>)
    decreases es
  {
    forall k | 0 <= k < |es| :: CompilableExpression(es[k])
  }

  predicate CompilableField(field: (string, Expression)) {
    CompilableExpression(field.1)
  }

  predicate CompilableStatement(st: Statement) {
    match st
    case Expression(e) => CompilableExpression(e)
    case VariableDeclaration(_, value, _) => CompilableExpression(value)
    case Block(body) => AllStatementsCompilable(body)
    case Function(_) => false
    case If(condition, thenBranch, elifs, elseBranch) =>
      && CompilableExpression(condition)
      && AllStatementsCompilable(thenBranch)
      && (forall k | 0 <= k < |elifs| :: CompilableElif(elifs[k]))
      && (elseBranch.ElseBranch? ==> AllStatementsCompilable(elseBranch.body))
    case While(condition, body) => CompilableExpression(condition) && AllStatementsCompilable(body)
    case For(_, iterable, body) => CompilableExpression(iterable) && AllStatementsCompilable(body)
    case UnsafeBlock(body) => AllStatementsCompilable(body)
    case _ => true
  }

  predicate AllStatementsCompilable(ss: seq<Statement>)
    decreases ss
  {
    forall k | 0 <= k < |ss| :: CompilableStatement(ss[k])
  }

  predicate CompilableElif(branch: ElifBranch) {
    CompilableExpression(branch.condition) && AllStatementsCompilable(branch.body)
  }

  /** Lowering an expression succeeds exactly when the expression is compilable, whatever the buffers hold. */
  lemma {:induction false} ExpressionCompiles(e: Expression, b: Buffers)
    ensures LowerExpression(e, b).status.Ok? <==> CompilableExpression(e)
    decreases e, 1
  {
    match e
    case Binary(left, _, right) =>
      ExpressionCompiles(left, b);
      var l := LowerExpression(left, b);
      if l.status.Ok? {
        ExpressionCompiles(right, l.out);
      }
    case Call(_, arguments) =>
      ExpressionsCompile(arguments, b);
    case FormatCall(_, format, arguments) =>
      ExpressionsCompile(arguments, b.(constants := b.constants + [RuntimeValue.String(format)]));
    case ArrayLiteral(_) => CompoundCompiles(e, b);
    case ArrayAccess(_, _) => CompoundCompiles(e, b);
    case ArrayAssignment(_, _, _) => CompoundCompiles(e, b);
    case StructInitialization(_, _) => RecordCompiles(e, b);
    case StructFieldAccess(_, _) => RecordCompiles(e, b);
    case StructFieldAssignment(_, _, _) => RecordCompiles(e, b);
    case EnumVariantCreation(_, _, _) => RecordCompiles(e, b);
    case _ =>
  }

  lemma {:induction false} CompoundCompiles(e: Expression, b: Buffers)
    requires e.ArrayLiteral? || e.ArrayAccess? || e.ArrayAssignment?
    ensures LowerCompound(e, b).status.Ok? <==> CompilableExpression(e)
    decreases e, 0
  {
    match e
    case ArrayLiteral(elements) => ExpressionsCompile(elements, b);
    case ArrayAccess(base, index) =>
      ExpressionCompiles(base, b);
      var x := LowerExpression(base, b);
      if x.status.Ok? {
        ExpressionCompiles(index, x.out);
      }
    case ArrayAssignment(base, index, value) =>
      ExpressionCompiles(base, b);
      var x := LowerExpression(base, b);
      if x.status.Ok? {
        ExpressionCompiles(index, x.out);
        var i := LowerExpression(index, x.out);
        if i.status.Ok? {
          ExpressionCompiles(value, i.out);
        }
      }
  }

  lemma {:induction false} RecordCompiles(e: Expression, b: Buffers)
    requires e.StructInitialization? || e.StructFieldAccess? || e.StructFieldAssignment? || e.EnumVariantCreation?
    ensures LowerCompound(e, b).status.Ok? <==> CompilableExpression(e)
    decreases e, 0
  {
    match e
    case StructInitialization(_, fields) => FieldsCompile(fields, b);
    case StructFieldAccess(base, _) => ExpressionCompiles(base, b);
    case StructFieldAssignment(base, _, value) =>
      ExpressionCompiles(base, b);
      var x := LowerExpression(base, b);
      if x.status.Ok? {
        ExpressionCompiles(value, x.out);
      }
    case EnumVariantCreation(_, _, values) => ExpressionsCompile(values, b);
  }

  lemma {:induction false} ExpressionsCompile(es: seq<Expression>, b: Buffers)
    ensures LowerExpressions(es, b).status.Ok? <==> AllCompilable(es)
    decreases es
  {
    if es != [] {
      ExpressionCompiles(es[0], b);
      var first := LowerExpression(es[0], b);
      if first.status.Ok? {
        ExpressionsCompile(es[1..], first.out);
        assert AllCompilable(es) <==> AllCompilable(es[1..]) by {
          assert forall k | 1 <= k < |es| :: es[k] == es[1..][k - 1];
        }
      }
    }
  }

  lemma {:induction false} FieldsCompile(fields: seq<(string, Expression)>, b: Buffers)
    ensures LowerFields(fields, b).status.Ok? <==> forall k | 0 <= k < |fields| :: CompilableField(fields[k])
    decreases fields
  {
    if fields != [] {
      FieldCompiles(fields[0], b);
      var first := LowerField(fields[0], b);
      if first.status.Ok? {
        FieldsCompile(fields[1..], first.out);
        assert forall k | 1 <= k < |fields| :: fields[k] == fields[1..][k - 1];
      }
    }
  }

  lemma {:induction false} FieldCompiles(field: (string, Expression), b: Buffers)
    ensures LowerField(field, b).status.Ok? <==> CompilableField(field)
  {
    ExpressionCompiles(field.1, b);
  }

  /** Lowering a statement succeeds exactly when the statement is compilable. */
  lemma {:induction false} StatementCompiles(st: Statement, b: Buffers)
    ensures LowerStatement(st, b).status.Ok? <==> CompilableStatement(st)
  {
    match st
    case Expression(e) => ExpressionCompiles(e, b);
    case VariableDeclaration(_, value, _) => ExpressionCompiles(value, b);
    case Block(body) => StatementsCompile(body, b);
    case If(condition, thenBranch, elifs, elseBranch) =>
      ExpressionCompiles(condition, b);
      var c := LowerExpression(condition, b);
      if c.status.Ok? {
        StatementsCompile(thenBranch, c.out);
        var t := LowerStatements(thenBranch, c.out);
        if t.status.Ok? {
          ElifsCompile(elifs, t.out);
          var e := LowerElifs(elifs, t.out);
          if e.status.Ok? && elseBranch.ElseBranch? {
            StatementsCompile(elseBranch.body, e.out);
          }
        }
      }
    case While(condition, body) =>
      ExpressionCompiles(condition, b);
      var c := LowerExpression(condition, b);
      if c.status.Ok? {
        StatementsCompile(body, c.out);
      }
    case For(_, iterable, body) =>
      ExpressionCompiles(iterable, b);
      var c := LowerExpression(iterable, b);
      if c.status.Ok? {
        StatementsCompile(body, c.out);
      }
    case UnsafeBlock(body) => StatementsCompile(body, b);
    case _ =>
  }

  lemma {:induction false} StatementsCompile(ss: seq<Statement>, b: Buffers)
    ensures LowerStatements(ss, b).status.Ok? <==> AllStatementsCompilable(ss)
    decreases ss
  {
    if ss != [] {
      StatementCompiles(ss[0], b);
      var first := LowerStatement(ss[0], b);
      if first.status.Ok? {
        StatementsCompile(ss[1..], first.out);
        assert AllStatementsCompilable(ss) <==> AllStatementsCompilable(ss[1..]) by {
          assert forall k | 1 <= k < |ss| :: ss[k] == ss[1..][k - 1];
        }
      }
    }
  }

  lemma {:induction false} ElifsCompile(branches: seq<ElifBranch>, b: Buffers)
    ensures LowerElifs(branches, b).status.Ok? <==> forall k | 0 <= k < |branches| :: CompilableElif(branches[k])
    decreases branches
  {
    if branches != [] {
      ExpressionCompiles(branches[0].condition, b);
      var c := LowerExpression(branches[0].condition, b);
      if c.status.Ok? {
        StatementsCompile(branches[0].body, c.out);
        var body := LowerStatements(branches[0].body, c.out);
        if body.status.Ok? {
          ElifsCompile(branches[1..], body.out);
          assert forall k | 1 <= k < |branches| :: branches[k] == branches[1..][k - 1];
        }
      }
    }
  }

  /** `compile_function` fails exactly when some statement of the body is not compilable. */
  lemma FunctionCompiles(f: Ast.Function, b: Buffers)
    ensures LowerFunction(f, b).status.Ok? <==> AllStatementsCompilable(f.body)
  {
    StatementsCompile(f.body, b);
  }

  // ---------------------------------------------------------------------
  // Stack height

  /** The stack height a run of `code` adds when every instruction succeeds. */
  function NetEffect(code: seq<Bytecode>): int {
    if code == [] then 0 else Effect(code[0]) + NetEffect(code[1..])
  }

  lemma {:induction false} NetEffectAdds(x: seq<Bytecode>, y: seq<Bytecode>)
    ensures NetEffect(x + y) == NetEffect(x) + NetEffect(y)
  {
    if x == [] {
      assert x + y == y;
    } else {
      assert (x + y)[0] == x[0];
      assert (x + y)[1..] == x[1..] + y;
      NetEffectAdds(x[1..], y);
    }
  }

  lemma NetEffectSingle(i: Bytecode)
    ensures NetEffect([i]) == Effect(i)
  {
    assert [i][1..] == [];
  }

  /** The instructions lowering appended. */
  function Appended(b: Buffers, b': Buffers): seq<Bytecode>
    requires Extends(b, b')
  {
    b'.code[|b.code|..]
  }

  lemma AppendedSplits(b1: Buffers, b2: Buffers, b3: Buffers)
    requires Extends(b1, b2) && Extends(b2, b3)
    ensures NetEffect(Appended(b1, b3)) == NetEffect(Appended(b1, b2)) + NetEffect(Appended(b2, b3))
  {
    assert Appended(b1, b3) == Appended(b1, b2) + Appended(b2, b3);
    NetEffectAdds(Appended(b1, b2), Appended(b2, b3));
  }

  /** Literals, variables, operators over them and one-argument `puts`/`print` calls. */
  predicate Simple(e: Expression) {
    match e
    case Literal(_) => true
    case Variable(_) => true
    case Binary(left, _, right) => Simple(left) && Simple(right)
    case Call(name, arguments) => IsBuiltinName(name) && |arguments| == 1 && Simple(arguments[0])
    case _ => false
  }

  /** A simple expression compiles and leaves exactly one value on the stack. */
  lemma {:induction false} SimplePushesOne(e: Expression, b: Buffers)
    requires Simple(e)
    ensures LowerExpression(e, b).status.Ok?
    ensures NetEffect(Appended(b, LowerExpression(e, b).out)) == 1
    decreases e, 1
  {
    var out := LowerExpression(e, b).out;
    match e
    case Literal(l) =>
      assert Appended(b, out) == [LoadConst(|b.constants|)];
    case Variable(name) =>
      assert Appended(b, out) == [LoadGlobal(name)];
    case Binary(left, op, right) => SimpleBinaryPushesOne(left, op, right, b);
    case Call(_, _) => SimpleCallPushesOne(e, b);
  }

  lemma {:induction false} SimpleBinaryPushesOne(left: Expression, op: BinaryOp, right: Expression, b: Buffers)
    requires Simple(left) && Simple(right)
    ensures LowerExpression(Binary(left, op, right), b).status.Ok?
    ensures NetEffect(Appended(b, LowerExpression(Binary(left, op, right), b).out)) == 1
    decreases Expression.Binary(left, op, right), 0
  {
    SimplePushesOne(left, b);
    var l := LowerExpression(left, b);
    SimplePushesOne(right, l.out);
    var r := LowerExpression(right, l.out);
    var out := Emit(r.out, [Opcode(op)]);
    assert LowerExpression(Binary(left, op, right), b) == Succeed(out);
    AppendedSplits(b, l.out, r.out);
    AppendedSplits(b, r.out, out);
    assert Appended(r.out, out) == [Opcode(op)];
    BinaryEffect(Opcode(op));
    NetEffectSingle(Opcode(op));
  }

  lemma {:induction false} SimpleCallPushesOne(e: Expression, b: Buffers)
    requires e.Call? && Simple(e)
    ensures LowerExpression(e, b).status.Ok?
    ensures NetEffect(Appended(b, LowerExpression(e, b).out)) == 1
    decreases e, 0
  {
    var out := LowerExpression(e, b).out;
    var name, arguments := e.name, e.arguments;
    SimplePushesOne(arguments[0], b);
    var x := LowerExpression(arguments[0], b);
    assert arguments[1..] == [];
    assert LowerExpressions(arguments, b) == LowerExpressions(arguments[1..], x.out);
    AppendedSplits(b, x.out, out);
    assert Appended(x.out, out) == [CallBuiltin(BuiltinId(name))];
  }

  /** `e;` and `let x = e;` with a simple `e` leave the stack as they found it. */
  lemma BalancedStatement(st: Statement, b: Buffers)
    requires st.Expression? || st.VariableDeclaration?
    requires Simple(if st.Expression? then st.expr else st.value)
    ensures LowerStatement(st, b).status.Ok?
    ensures NetEffect(Appended(b, LowerStatement(st, b).out)) == 0
  {
    var e := if st.Expression? then st.expr else st.value;
    SimplePushesOne(e, b);
    var x := LowerExpression(e, b);
    var out := LowerStatement(st, b).out;
    AppendedSplits(b, x.out, out);
    assert Appended(x.out, out) == [Pop];
  }

  predicate AllBalanced(ss: seq<Statement>) {
    forall k | 0 <= k < |ss| ::
      (ss[k].Expression? && Simple(ss[k].expr)) || (ss[k].VariableDeclaration? && Simple(ss[k].value))
  }

  lemma {:induction false} BalancedStatements(ss: seq<Statement>, b: Buffers)
    requires AllBalanced(ss)
    ensures LowerStatements(ss, b).status.Ok?
    ensures NetEffect(Appended(b, LowerStatements(ss, b).out)) == 0
    decreases ss
  {
    if ss == [] {
      assert Appended(b, b) == [];
    } else {
      BalancedStatement(ss[0], b);
      var first := LowerStatement(ss[0], b);
      assert AllBalanced(ss[1..]) by {
        assert forall k | 0 <= k < |ss| - 1 :: ss[1..][k] == ss[k + 1];
      }
      BalancedStatements(ss[1..], first.out);
      AppendedSplits(b, first.out, LowerStatements(ss[1..], first.out).out);
    }
  }

  /**
    No jump is emitted and nothing pops a condition: a `while` whose condition
    is simple and whose body is balanced leaves its condition's value on the
    stack, as does a `for` with its iterable.
  */
  lemma LoopLeavesCondition(st: Statement, b: Buffers)
    requires st.While? || st.For?
    requires Simple(if st.While? then st.condition else st.iterable) && AllBalanced(st.body)
    ensures LowerStatement(st, b).status.Ok?
    ensures NetEffect(Appended(b, LowerStatement(st, b).out)) == 1
  {
    var c := if st.While? then st.condition else st.iterable;
    SimplePushesOne(c, b);
    var x := LowerExpression(c, b);
    BalancedStatements(st.body, x.out);
    AppendedSplits(b, x.out, LowerStatement(st, b).out);
  }

  /** An `if` leaves one value per condition on the stack: its own and one for each `elif`. */
  lemma IfLeavesConditions(st: Statement, b: Buffers)
    requires st.If?
    requires Simple(st.condition) && AllBalanced(st.thenBranch)
    requires forall k | 0 <= k < |st.elifBranches| ::
      Simple(st.elifBranches[k].condition) && AllBalanced(st.elifBranches[k].body)
    requires st.elseBranch.ElseBranch? ==> AllBalanced(st.elseBranch.body)
    ensures LowerStatement(st, b).status.Ok?
    ensures NetEffect(Appended(b, LowerStatement(st, b).out)) == 1 + |st.elifBranches|
  {
    SimplePushesOne(st.condition, b);
    var c := LowerExpression(st.condition, b);
    BalancedStatements(st.thenBranch, c.out);
    var t := LowerStatements(st.thenBranch, c.out);
    ElifsLeaveConditions(st.elifBranches, t.out);
    var e := LowerElifs(st.elifBranches, t.out);
    AppendedSplits(b, c.out, t.out);
    AppendedSplits(b, t.out, e.out);
    if st.elseBranch.ElseBranch? {
      BalancedStatements(st.elseBranch.body, e.out);
      AppendedSplits(b, e.out, LowerStatements(st.elseBranch.body, e.out).out);
    }
  }

  lemma {:induction false} ElifsLeaveConditions(branches: seq<ElifBranch>, b: Buffers)
    requires forall k | 0 <= k < |branches| :: Simple(branches[k].condition) && AllBalanced(branches[k].body)
    ensures LowerElifs(branches, b).status.Ok?
    ensures NetEffect(Appended(b, LowerElifs(branches, b).out)) == |branches|
    decreases branches
  {
    if branches == [] {
      assert Appended(b, b) == [];
    } else {
      SimplePushesOne(branches[0].condition, b);
      var c := LowerExpression(branches[0].condition, b);
      BalancedStatements(branches[0].body, c.out);
      var body := LowerStatements(branches[0].body, c.out);
      assert forall k | 0 <= k < |branches| - 1 :: branches[1..][k] == branches[k + 1];
      ElifsLeaveConditions(branches[1..], body.out);
      AppendedSplits(b, c.out, body.out);
      AppendedSplits(b, body.out, LowerElifs(branches[1..], body.out).out);
    }
  }

  /** A list of simple expressions compiles and leaves one value per expression. */
  lemma {:induction false} SimpleListPushesEach(es: seq<Expression>, b: Buffers)
    requires forall k | 0 <= k < |es| :: Simple(es[k])
    ensures LowerExpressions(es, b).status.Ok?
    ensures NetEffect(Appended(b, LowerExpressions(es, b).out)) == |es|
    decreases es
  {
    if es == [] {
      assert Appended(b, b) == [];
    } else {
      SimplePushesOne(es[0], b);
      var first := LowerExpression(es[0], b);
      assert forall k | 0 <= k < |es| - 1 :: es[1..][k] == es[k + 1];
      SimpleListPushesEach(es[1..], first.out);
      AppendedSplits(b, first.out, LowerExpressions(es[1..], first.out).out);
    }
  }

  /** Loading a placeholder constant after `x` adds one to the stack height. */
  lemma PlaceholderPushesOne(b: Buffers, x: Buffers, v: RuntimeValue)
    requires Extends(b, x)
    ensures NetEffect(Appended(b, PushConstant(x, v))) == NetEffect(Appended(b, x)) + 1
  {
    AppendedSplits(b, x, PushConstant(x, v));
    assert Appended(x, PushConstant(x, v)) == [LoadConst(|x.constants|)];
    NetEffectSingle(LoadConst(|x.constants|));
  }

  /** An array literal of `n` simple elements leaves `n + 1` values: the elements stay and a placeholder joins them. */
  lemma ArrayLiteralLeavesElements(elements: seq<Expression>, b: Buffers)
    requires forall k | 0 <= k < |elements| :: Simple(elements[k])
    ensures LowerExpression(ArrayLiteral(elements), b).status.Ok?
    ensures NetEffect(Appended(b, LowerExpression(ArrayLiteral(elements), b).out)) == |elements| + 1
  {
    SimpleListPushesEach(elements, b);
    PlaceholderPushesOne(b, LowerExpressions(elements, b).out,
      RuntimeValue.String("array_" + NatToDecimal(|elements|)));
  }

  /** Indexing a simple base by a simple index leaves three values: base, index and the placeholder 0. */
  lemma ArrayAccessLeavesThree(base: Expression, index: Expression, b: Buffers)
    requires Simple(base) && Simple(index)
    ensures LowerExpression(ArrayAccess(base, index), b).status.Ok?
    ensures NetEffect(Appended(b, LowerExpression(ArrayAccess(base, index), b).out)) == 3
  {
    SimplePushesOne(base, b);
    var x := LowerExpression(base, b);
    SimplePushesOne(index, x.out);
    var i := LowerExpression(index, x.out);
    AppendedSplits(b, x.out, i.out);
    PlaceholderPushesOne(b, i.out, RuntimeValue.Integer(0));
  }

  /** A field access on a simple base leaves two values: the base and the field's name. */
  lemma FieldAccessLeavesTwo(base: Expression, field: string, b: Buffers)
    requires Simple(base)
    ensures LowerExpression(StructFieldAccess(base, field), b).status.Ok?
    ensures NetEffect(Appended(b, LowerExpression(StructFieldAccess(base, field), b).out)) == 2
  {
    SimplePushesOne(base, b);
    PlaceholderPushesOne(b, LowerExpression(base, b).out, RuntimeValue.String(field));
  }

  /**
    A binary expression emits its left operand's code, then its right
    operand's, then exactly one instruction: the operator's opcode. It fails
    exactly when one of the operands does not compile.
  */
  lemma BinaryLowering(left: Expression, op: BinaryOp, right: Expression, b: Buffers)
    ensures var r := LowerExpression(Binary(left, op, right), b);
      var l := LowerExpression(left, b);
      var rr := LowerExpression(right, l.out);
      && (r.status.Ok? <==> CompilableExpression(left) && CompilableExpression(right))
      && (r.status.Ok? ==> Appended(b, r.out) == Appended(b, l.out) + Appended(l.out, rr.out) + [Opcode(op)])
  {
    ExpressionCompiles(left, b);
    var l := LowerExpression(left, b);
    ExpressionCompiles(right, l.out);
    ExpressionCompiles(Binary(left, op, right), b);
  }

  /** Different literals become different runtime values. */
  lemma LiteralValueInjective(a: Literal, c: Literal)
    ensures LiteralValue(a) == LiteralValue(c) ==> a == c
  {
  }

  /** Different operators lower to different opcodes. */
  lemma OpcodeInjective(a: BinaryOp, c: BinaryOp)
    ensures Opcode(a) == Opcode(c) ==> a == c
  {
  }

  /**
    The eleven operators lower onto the eleven binary instructions: an
    instruction pops two operands and pushes one result exactly when it is the
    opcode of a listed operator, and the opcode of any operator is one of those.
  */
  lemma OpcodeOnto(i: Bytecode)
    ensures i.IsBinary() <==> exists k :: 0 <= k < |Operators()| && Opcode(Operators()[k]) == i
    ensures forall op :: Opcode(op) == i ==> exists k :: 0 <= k < |Operators()| && Operators()[k] == op
  {
    var r := Operators();
    if i.IsBinary() {
      var k :=
        if i.Add? then 0 else if i.Sub? then 1 else if i.Mul? then 2 else if i.Div? then 3
        else if i.Mod? then 4 else if i.Eq? then 5 else if i.Ne? then 6 else if i.Lt? then 7
        else if i.Le? then 8 else if i.Gt? then 9 else 10;
      assert Opcode(r[k]) == i;
    }
    forall op | Opcode(op) == i
      ensures exists k :: 0 <= k < |r| && r[k] == op
    {
      OperatorListed(op);
    }
  }
}
