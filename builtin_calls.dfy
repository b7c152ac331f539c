/**
  The JIT's search for calls to the builtins `print` and `puts`. The search
  walks statements all the way down, nested functions included, but looks into
  an expression only through binary operators: a builtin call passed as an
  argument, or inside an array, struct or enum form, goes unseen.
*/
module BuiltinCalls {
  import opened Wrappers
  import opened Ast
  import opened Machine
  import opened Lowering
  import opened LoweringFacts

  predicate IsBuiltinCall(e: Expression) {
    (e.Call? || e.FormatCall?) && (e.name == "print" || e.name == "puts")
  }

  /** `expression_has_builtin_call`. */
  predicate ExpressionHasBuiltinCall(e: Expression) {
    match e
    case Call(name, _) => name == "print" || name == "puts"
    case FormatCall(name, _, _) => name == "print" || name == "puts"
    case Binary(left, _, right) => ExpressionHasBuiltinCall(left) || ExpressionHasBuiltinCall(right)
    case _ => false
  }

  /** The `for stmt in ... { if ... { return true; } } false` loops. */
  predicate AnyStatementHasBuiltinCall(ss: seq<Statement>)
    decreases ss
  {
    ss != [] && (StatementHasBuiltinCall(ss[0]) || AnyStatementHasBuiltinCall(ss[1..]))
  }

  /** `statement_has_builtin_call`. */
  predicate StatementHasBuiltinCall(st: Statement)
    decreases st
  {
    match st
    case Expression(e) => ExpressionHasBuiltinCall(e)
    case Block(body) => AnyStatementHasBuiltinCall(body)
    case VariableDeclaration(_, value, _) => ExpressionHasBuiltinCall(value)
    case Function(f) => FunctionHasBuiltinCalls(f)
    case If(condition, thenBranch, elifs, elseBranch) =>
      || ExpressionHasBuiltinCall(condition)
      || AnyStatementHasBuiltinCall(thenBranch)
      || AnyElifHasBuiltinCall(elifs)
      || (elseBranch.ElseBranch? && AnyStatementHasBuiltinCall(elseBranch.body))
    case While(condition, body) => ExpressionHasBuiltinCall(condition) || AnyStatementHasBuiltinCall(body)
    case For(_, iterable, body) => ExpressionHasBuiltinCall(iterable) || AnyStatementHasBuiltinCall(body)
    case Break => false
    case Continue => false
    case UnsafeBlock(body) => AnyStatementHasBuiltinCall(body)
    case Import(_) => false
    case ImportAs(_, _) => false
  }

  /** The loop over `elif` branches: each condition, then each body statement. */
  predicate AnyElifHasBuiltinCall(branches: seq<ElifBranch>)
    decreases branches
  {
    && branches != []
    && (|| ExpressionHasBuiltinCall(branches[0].condition)
        || AnyStatementHasBuiltinCall(branches[0].body)
        || AnyElifHasBuiltinCall(branches[1..]))
  }

  /** `function_has_builtin_calls`. */
  predicate FunctionHasBuiltinCalls(f: Ast.Function)
    decreases f
  {
    AnyStatementHasBuiltinCall(f.body)
  }

  /** The search loop finds a builtin call exactly when some statement of the list has one. */
  lemma {:induction false} AnyStatementExists(ss: seq<Statement>)
    ensures AnyStatementHasBuiltinCall(ss) <==> exists k | 0 <= k < |ss| :: StatementHasBuiltinCall(ss[k])
    decreases ss
  {
    if ss != [] {
      AnyStatementExists(ss[1..]);
      if exists k | 0 <= k < |ss| :: StatementHasBuiltinCall(ss[k]) {
        var k :| 0 <= k < |ss| && StatementHasBuiltinCall(ss[k]);
        if k > 0 {
          assert ss[1..][k - 1] == ss[k];
        }
      }
      if AnyStatementHasBuiltinCall(ss[1..]) {
        var k :| 0 <= k < |ss[1..]| && StatementHasBuiltinCall(ss[1..][k]);
        assert ss[k + 1] == ss[1..][k];
      }
    }
  }

  predicate ElifHasBuiltinCall(branch: ElifBranch) {
    ExpressionHasBuiltinCall(branch.condition) || AnyStatementHasBuiltinCall(branch.body)
  }

  /** The `elif` loop finds a builtin call exactly when some branch's condition or body has one. */
  lemma {:induction false} AnyElifExists(branches: seq<ElifBranch>)
    ensures AnyElifHasBuiltinCall(branches) <==> exists k | 0 <= k < |branches| :: ElifHasBuiltinCall(branches[k])
    decreases branches
  {
    if branches != [] {
      AnyElifExists(branches[1..]);
      if exists k | 0 <= k < |branches| :: ElifHasBuiltinCall(branches[k]) {
        var k :| 0 <= k < |branches| && ElifHasBuiltinCall(branches[k]);
        if k > 0 {
          assert branches[1..][k - 1] == branches[k];
        }
      }
      if AnyElifHasBuiltinCall(branches[1..]) {
        var k :| 0 <= k < |branches[1..]| && ElifHasBuiltinCall(branches[1..][k]);
        assert branches[k + 1] == branches[1..][k];
      }
    }
  }

  /** A function has builtin calls exactly when one of its top-level statements has one. */
  lemma FunctionExists(f: Ast.Function)
    ensures FunctionHasBuiltinCalls(f) <==> exists k | 0 <= k < |f.body| :: StatementHasBuiltinCall(f.body[k])
  {
    AnyStatementExists(f.body);
  }

  /** Blocks, unsafe blocks and nested functions: some statement inside has a builtin call. */
  lemma BlockExists(st: Statement)
    requires st.Block? || st.UnsafeBlock?
    ensures StatementHasBuiltinCall(st) <==> exists k | 0 <= k < |st.body| :: StatementHasBuiltinCall(st.body[k])
  {
    AnyStatementExists(st.body);
  }

  /** `while` and `for`: the condition or iterable, or some body statement. */
  lemma LoopExists(st: Statement)
    requires st.While? || st.For?
    ensures StatementHasBuiltinCall(st) <==>
      || ExpressionHasBuiltinCall(if st.While? then st.condition else st.iterable)
      || exists k | 0 <= k < |st.body| :: StatementHasBuiltinCall(st.body[k])
  {
    AnyStatementExists(st.body);
  }

  /** `if`: the condition, a then-statement, an `elif` condition or body statement, or an else-statement. */
  lemma IfExists(st: Statement)
    requires st.If?
    ensures StatementHasBuiltinCall(st) <==>
      || ExpressionHasBuiltinCall(st.condition)
      || (exists k | 0 <= k < |st.thenBranch| :: StatementHasBuiltinCall(st.thenBranch[k]))
      || (exists k | 0 <= k < |st.elifBranches| :: ElifHasBuiltinCall(st.elifBranches[k]))
      || (st.elseBranch.ElseBranch? &&
          exists k | 0 <= k < |st.elseBranch.body| :: StatementHasBuiltinCall(st.elseBranch.body[k]))
  {
    AnyStatementExists(st.thenBranch);
    AnyElifExists(st.elifBranches);
    if st.elseBranch.ElseBranch? {
      AnyStatementExists(st.elseBranch.body);
    }
  }

  /** The leaves of a tree of binary operators, left to right. */
  function Operands(e: Expression): (r: seq<Expression>)
    ensures |r| >= 1
    ensures forall k | 0 <= k < |r| :: !r[k].Binary?
  {
    if e.Binary? then Operands(e.left) + Operands(e.right) else [e]
  }

  /** An expression has a builtin call exactly when one of its operator-tree leaves is a call to `print` or `puts`. */
  lemma {:induction false} ExpressionExists(e: Expression)
    ensures ExpressionHasBuiltinCall(e) <==> exists k | 0 <= k < |Operands(e)| :: IsBuiltinCall(Operands(e)[k])
  {
    if e.Binary? {
      ExpressionExists(e.left);
      ExpressionExists(e.right);
      var l, r := Operands(e.left), Operands(e.right);
      BuiltinCallInConcat(l, r);
      assert Operands(e) == l + r;
      assert ExpressionHasBuiltinCall(e) == (ExpressionHasBuiltinCall(e.left) || ExpressionHasBuiltinCall(e.right));
      assert (exists k | 0 <= k < |Operands(e)| :: IsBuiltinCall(Operands(e)[k])) == (exists k | 0 <= k < |l + r| :: IsBuiltinCall((l + r)[k]));
    } else {
      assert Operands(e)[0] == e;
    }
  }

  lemma BuiltinCallInConcat(l: seq<Expression>, r: seq<Expression>)
    ensures (exists k | 0 <= k < |l + r| :: IsBuiltinCall((l + r)[k])) <==>
      (exists k | 0 <= k < |l| :: IsBuiltinCall(l[k])) || (exists k | 0 <= k < |r| :: IsBuiltinCall(r[k]))
  {
    if exists k | 0 <= k < |l + r| :: IsBuiltinCall((l + r)[k]) {
      var k :| 0 <= k < |l + r| && IsBuiltinCall((l + r)[k]);
      if k >= |l| {
        assert (l + r)[k] == r[k - |l|];
      } else {
        assert (l + r)[k] == l[k];
      }
    }
    if exists k | 0 <= k < |l| :: IsBuiltinCall(l[k]) {
      var k :| 0 <= k < |l| && IsBuiltinCall(l[k]);
      assert (l + r)[k] == l[k];
    }
    if exists k | 0 <= k < |r| :: IsBuiltinCall(r[k]) {
      var k :| 0 <= k < |r| && IsBuiltinCall(r[k]);
      assert (l + r)[|l| + k] == r[k];
    }
  }

  /**
    Whatever the detector reports in an expression, the compiler turns into a
    `CallBuiltin` (when the expression compiles at all).
  */
  lemma {:induction false} DetectedCallsCompileToBuiltin(e: Expression, b: Buffers)
    requires ExpressionHasBuiltinCall(e) && LowerExpression(e, b).status.Ok?
    ensures exists k | |b.code| <= k < |LowerExpression(e, b).out.code| :: LowerExpression(e, b).out.code[k].CallBuiltin?
  {
    var out := LowerExpression(e, b).out;
    match e
    case Call(name, arguments) =>
      assert out.code[|out.code| - 1] == CallBuiltin(BuiltinId(name));
    case FormatCall(name, _, _) =>
      assert out.code[|out.code| - 1] == CallBuiltin(BuiltinId(name));
    case Binary(left, op, right) =>
      var l := LowerExpression(left, b);
      var r := LowerExpression(right, l.out);
      if ExpressionHasBuiltinCall(left) {
        DetectedCallsCompileToBuiltin(left, b);
        var k :| |b.code| <= k < |l.out.code| && l.out.code[k].CallBuiltin?;
        assert out.code[k] == l.out.code[k];
      } else {
        DetectedCallsCompileToBuiltin(right, l.out);
        var k :| |l.out.code| <= k < |r.out.code| && r.out.code[k].CallBuiltin?;
        assert out.code[k] == r.out.code[k];
      }
  }

  /** `foo(puts(1))`. */
  function NestedPuts(): Expression {
    Expression.Call("foo", [Expression.Call("puts", [Expression.Literal(Literal.Integer(1))])])
  }

  /** The converse fails: the detector does not see `puts` passed as an argument, yet the compiler emits `CallBuiltin(0)` for it. */
  lemma DetectorMissesArguments()
    ensures !ExpressionHasBuiltinCall(NestedPuts())
    ensures LowerExpression(NestedPuts(), Buffers([], [])).status.Ok?
    ensures LowerExpression(NestedPuts(), Buffers([], [])).out.code[1] == CallBuiltin(0)
  {
    var inner := NestedPuts().arguments[0];
    var one := Buffers([LoadConst(0)], [RuntimeValue.Integer(1)]);
    assert LowerExpressions(inner.arguments, Buffers([], [])) == Succeed(one);
    var two := Emit(one, [CallBuiltin(0)]);
    assert LowerExpression(inner, Buffers([], [])) == Succeed(two);
    assert LowerExpressions(NestedPuts().arguments, Buffers([], [])) == Succeed(two);
  }
}
