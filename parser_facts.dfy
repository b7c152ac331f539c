/**
  Properties of the grammar functions: how `check` compares tokens, the shape
  the operator ladder gives to chains of operators (left associativity and
  precedence), what a name in primary position becomes, why an `if` condition
  that is a bare name swallows the block after it, and whole programs whose
  outcome is worked out token by token.
*/
module ParserFacts {
  import opened Wrappers
  import opened Lexer
  import opened Ast
  import opened ParserSpec

  // ---------------------------------------------------------------------------
  // `check` compares variants only
  // ---------------------------------------------------------------------------

  /** The token of each discriminant, with an empty payload for the three variants that carry one. */
  function VariantOf(d: nat): Token {
    match d
    case 0 => Fn case 1 => Let case 2 => Token.If case 3 => Else case 4 => Elif
    case 5 => Token.For case 6 => Token.While case 7 => Token.Break case 8 => Token.Continue case 9 => In
    case 10 => Unsafe case 11 => Token.Import case 12 => As
    case 13 => Equals case 14 => Colon case 15 => LeftParen case 16 => RightParen
    case 17 => LeftBrace case 18 => RightBrace case 19 => Semi case 20 => Comma
    case 21 => Arrow case 22 => Token.Greater case 23 => Token.GreaterEqual case 24 => Token.Less
    case 25 => Token.LessEqual case 26 => Token.Equal case 27 => Token.NotEqual case 28 => Plus
    case 29 => Minus case 30 => Star case 31 => Slash case 32 => Percent
    case 33 => LeftBracket case 34 => RightBracket case 35 => Dot case 36 => DoubleColon
    case 37 => Identifier("") case 38 => Number(0) case 39 => Token.String("") case _ => Whitespace
  }

  /** The discriminant tells apart the three variants that carry a payload. */
  lemma DiscriminantOfPayload(a: Token)
    ensures a.Identifier? <==> Discriminant(a) == 37
    ensures a.Number? <==> Discriminant(a) == 38
    ensures a.String? <==> Discriminant(a) == 39
  {
  }

  /** The discriminant determines a token without a payload. */
  lemma DiscriminantInverse(a: Token)
    ensures !a.Identifier? && !a.Number? && !a.String? ==> VariantOf(Discriminant(a)) == a
  {
  }

  /** Two tokens have the same discriminant exactly when they are built by the same constructor. */
  lemma DiscriminantIsVariant(a: Token, b: Token)
    ensures Discriminant(a) == Discriminant(b) <==>
      a == b || (a.Identifier? && b.Identifier?) || (a.Number? && b.Number?) || (a.String? && b.String?)
  {
    DiscriminantOfPayload(a);
    DiscriminantOfPayload(b);
    DiscriminantInverse(a);
    DiscriminantInverse(b);
  }

  /** `check` compares discriminants, as `std::mem::discriminant` does: the payload is ignored. */
  lemma CheckIsDiscriminant(t: seq<Token>, p: nat, tok: Token)
    ensures Check(t, p, tok) <==> p < |t| && Discriminant(t[p]) == Discriminant(tok)
  {
    if p < |t| {
      DiscriminantIsVariant(t[p], tok);
    }
  }

  // ---------------------------------------------------------------------------
  // The operator ladder
  // ---------------------------------------------------------------------------

  /** The ladder level of an operator token (0 equality to 3 factor), or -1 for any other token. */
  function OperatorLevel(tok: Token): (r: int)
    ensures -1 <= r <= 3
    ensures forall k: nat :: LevelOperator(k, tok).Some? <==> r == k
  {
    match tok
    case Equal | NotEqual => 0
    case Less | LessEqual | Greater | GreaterEqual => 1
    case Plus | Minus => 2
    case Star | Slash | Percent => 3
    case _ => -1
  }

  /**
    An expression of level `k` ends at `q`: no call chain continues there and
    the token there is not an operator of a level above `k`.
  */
  predicate EndsAt(t: seq<Token>, q: nat, k: int) {
    !PostfixStart(t, q) && (q >= |t| || OperatorLevel(t[q]) <= k)
  }

  /** A number, a string, or a name that is neither a boolean nor followed by `{` or `::`. */
  predicate Atom(t: seq<Token>, p: nat) {
    p < |t|
    && (t[p].Number? || t[p].String?
        || (t[p].Identifier? && t[p].name != "true" && t[p].name != "false"
            && !(p + 1 < |t| && t[p + 1] in {LeftBrace, DoubleColon})))
  }

  /** The expression an atom is read as. */
  function AtomValue(t: seq<Token>, p: nat): Expression
    requires Atom(t, p)
  {
    match t[p]
    case Number(n) => Expression.Literal(Literal.Integer(n))
    case String(s) => Expression.Literal(Literal.String(s))
    case Identifier(n) => Variable(n)
  }

  /** An atom that no call chain follows is a whole `call`. */
  lemma AtomCall(t: seq<Token>, p: nat)
    requires Atom(t, p) && !PostfixStart(t, p + 1)
    ensures CallAt(t, p) == Done(AtomValue(t, p), p + 1)
  {
    assert !Check(t, p, LeftBracket) && !Check(t, p, LeftParen);
    assert PrimaryAt(t, p) == Done(AtomValue(t, p), p + 1);
    assert CallRestAt(t, p + 1, AtomValue(t, p)) == Done(AtomValue(t, p), p + 1);
  }

  /** A `call` that no operator of a level above `k` follows is a whole operand of level `k`. */
  lemma {:induction false} OperandOfCall(t: seq<Token>, p: nat, k: nat, e: Expression, q: nat)
    requires p <= |t| && k <= 3
    requires CallAt(t, p) == Done(e, q) && (q >= |t| || OperatorLevel(t[q]) <= k)
    ensures OperandAt(t, p, k) == Done(e, q)
    decreases 3 - k
  {
    if k < 3 {
      OperandOfCall(t, p, k + 1, e, q);
      assert OperatorAt(t, q, k + 1).None?;
      assert BinaryRestAt(t, q, e, k + 1) == Done(e, q);
    }
  }

  /** A failing `call` makes the operand of every level fail the same way. */
  lemma {:induction false} OperandOfFailedCall(t: seq<Token>, p: nat, k: nat, err: ParseError)
    requires p <= |t| && k <= 3 && CallAt(t, p) == Abort(err)
    ensures OperandAt(t, p, k) == Abort(err)
    decreases 3 - k
  {
    if k < 3 {
      OperandOfFailedCall(t, p, k + 1, err);
    }
  }

  /**
    A `call` that no operator follows is a whole expression; an `=` after it is
    stepped over and nothing more.
  */
  lemma ExpressionOfCall(t: seq<Token>, p: nat, e: Expression, q: nat)
    requires p <= |t| && CallAt(t, p) == Done(e, q) && (q >= |t| || OperatorLevel(t[q]) < 0)
    ensures ExpressionAt(t, p) == Done(e, if Check(t, q, Equals) then q + 1 else q)
  {
    OperandOfCall(t, p, 0, e, q);
    assert BinaryAt(t, p, 0) == Done(e, q);
  }

  /** A failing `call` at the start of an expression makes the expression fail the same way. */
  lemma ExpressionOfFailedCall(t: seq<Token>, p: nat, err: ParseError)
    requires p <= |t| && CallAt(t, p) == Abort(err)
    ensures ExpressionAt(t, p) == Abort(err)
  {
    OperandOfFailedCall(t, p, 0, err);
    assert BinaryAt(t, p, 0) == Abort(err);
  }

  /** An expression is an equality, with an `=` after it stepped over. */
  lemma AssignmentIsEquality(t: seq<Token>, p: nat)
    requires p <= |t|
    ensures var r := ExpressionAt(t, p); var b := BinaryAt(t, p, 0);
      (r.Done? <==> b.Done?)
      && (r.Done? ==> r.value == b.value && r.next == if Check(t, b.next, Equals) then b.next + 1 else b.next)
  {
  }

  /** An atom ending level `k` is a whole operand of level `k`. */
  lemma OperandOfAtom(t: seq<Token>, p: nat, k: nat)
    requires k <= 3 && Atom(t, p) && EndsAt(t, p + 1, k)
    ensures OperandAt(t, p, k) == Done(AtomValue(t, p), p + 1)
  {
    AtomCall(t, p);
    OperandOfCall(t, p, k, AtomValue(t, p), p + 1);
  }

  /**
    A level-`k` expression, read from `p` to `q`, is also a whole operand of
    every lower level `i` when no operator of a level above `i` follows it.
  */
  lemma {:induction false} OperandLifts(t: seq<Token>, p: nat, i: nat, k: nat, e: Expression, q: nat)
    requires i < k <= 3 && p <= |t|
    requires BinaryAt(t, p, k) == Done(e, q)
    requires q >= |t| || OperatorLevel(t[q]) <= i
    ensures OperandAt(t, p, i) == Done(e, q)
    decreases k - i
  {
    if i + 1 < k {
      OperandLifts(t, p, i + 1, k, e, q);
      assert OperatorAt(t, q, i + 1).None?;
      assert BinaryRestAt(t, q, e, i + 1) == Done(e, q);
    }
  }

  /** `a op b` with one operator of level `k` and no more. */
  lemma BinaryOfTwo(t: seq<Token>, p: nat, k: nat, op: BinaryOp)
    requires k <= 3 && Atom(t, p) && EndsAt(t, p + 1, k) && Atom(t, p + 2) && EndsAt(t, p + 3, k)
    requires OperatorAt(t, p + 1, k) == Some(op) && OperatorAt(t, p + 3, k).None?
    ensures BinaryAt(t, p, k) == Done(Binary(AtomValue(t, p), op, AtomValue(t, p + 2)), p + 3)
  {
    OperandOfAtom(t, p, k);
    OperandOfAtom(t, p + 2, k);
    var e := Binary(AtomValue(t, p), op, AtomValue(t, p + 2));
    assert BinaryRestAt(t, p + 3, e, k) == Done(e, p + 3);
    assert BinaryRestAt(t, p + 1, AtomValue(t, p), k) == Done(e, p + 3);
  }

  /** Operators of one level group to the left: `a op1 b op2 c` is `(a op1 b) op2 c`. */
  lemma LeftAssociative(t: seq<Token>, p: nat, k: nat, op1: BinaryOp, op2: BinaryOp)
    requires k <= 3 && Atom(t, p) && Atom(t, p + 2) && Atom(t, p + 4)
    requires EndsAt(t, p + 1, k) && EndsAt(t, p + 3, k) && EndsAt(t, p + 5, k)
    requires OperatorAt(t, p + 1, k) == Some(op1) && OperatorAt(t, p + 3, k) == Some(op2)
    requires OperatorAt(t, p + 5, k).None?
    ensures BinaryAt(t, p, k) ==
      Done(Binary(Binary(AtomValue(t, p), op1, AtomValue(t, p + 2)), op2, AtomValue(t, p + 4)), p + 5)
  {
    OperandOfAtom(t, p, k);
    OperandOfAtom(t, p + 2, k);
    OperandOfAtom(t, p + 4, k);
    var ab := Binary(AtomValue(t, p), op1, AtomValue(t, p + 2));
    var abc := Binary(ab, op2, AtomValue(t, p + 4));
    assert BinaryRestAt(t, p + 5, abc, k) == Done(abc, p + 5);
    assert BinaryRestAt(t, p + 3, ab, k) == Done(abc, p + 5);
    assert BinaryRestAt(t, p + 1, AtomValue(t, p), k) == Done(abc, p + 5);
  }

  /** `b op2 c` with `op2` of level `k` is a whole operand of a lower level `j`. */
  lemma TighterOperand(t: seq<Token>, p: nat, j: nat, k: nat, op2: BinaryOp)
    requires j < k <= 3 && Atom(t, p) && Atom(t, p + 2)
    requires EndsAt(t, p + 1, k) && EndsAt(t, p + 3, j - 1) && OperatorAt(t, p + 1, k) == Some(op2)
    ensures OperandAt(t, p, j) == Done(Binary(AtomValue(t, p), op2, AtomValue(t, p + 2)), p + 3)
  {
    assert OperatorAt(t, p + 3, k).None? && EndsAt(t, p + 3, k);
    BinaryOfTwo(t, p, k, op2);
    OperandLifts(t, p, j, k, Binary(AtomValue(t, p), op2, AtomValue(t, p + 2)), p + 3);
  }

  /**
    A tighter operator on the right binds first: with `op1` of level `j` and
    `op2` of a higher level `k`, `a op1 b op2 c` is `a op1 (b op2 c)`.
  */
  lemma TighterOnTheRight(t: seq<Token>, p: nat, j: nat, k: nat, op1: BinaryOp, op2: BinaryOp)
    requires j < k <= 3 && Atom(t, p) && Atom(t, p + 2) && Atom(t, p + 4)
    requires EndsAt(t, p + 1, j) && EndsAt(t, p + 3, k) && EndsAt(t, p + 5, j - 1)
    requires OperatorAt(t, p + 1, j) == Some(op1) && OperatorAt(t, p + 3, k) == Some(op2)
    ensures BinaryAt(t, p, j) ==
      Done(Binary(AtomValue(t, p), op1, Binary(AtomValue(t, p + 2), op2, AtomValue(t, p + 4))), p + 5)
  {
    var bc := Binary(AtomValue(t, p + 2), op2, AtomValue(t, p + 4));
    TighterOperand(t, p + 2, j, k, op2);
    OperandOfAtom(t, p, j);
    var abc := Binary(AtomValue(t, p), op1, bc);
    assert BinaryRestAt(t, p + 5, abc, j) == Done(abc, p + 5);
    assert BinaryRestAt(t, p + 1, AtomValue(t, p), j) == Done(abc, p + 5);
  }

  /**
    A tighter operator on the left binds first: with `op2` of level `k` and
    `op1` of a lower level `j`, `a op2 b op1 c` is `(a op2 b) op1 c`.
  */
  lemma TighterOnTheLeft(t: seq<Token>, p: nat, j: nat, k: nat, op1: BinaryOp, op2: BinaryOp)
    requires j < k <= 3 && Atom(t, p) && Atom(t, p + 2) && Atom(t, p + 4)
    requires EndsAt(t, p + 1, k) && EndsAt(t, p + 3, j) && EndsAt(t, p + 5, j - 1)
    requires OperatorAt(t, p + 1, k) == Some(op2) && OperatorAt(t, p + 3, j) == Some(op1)
    ensures BinaryAt(t, p, j) ==
      Done(Binary(Binary(AtomValue(t, p), op2, AtomValue(t, p + 2)), op1, AtomValue(t, p + 4)), p + 5)
  {
    BinaryOfTwo(t, p, k, op2);
    var ab := Binary(AtomValue(t, p), op2, AtomValue(t, p + 2));
    OperandLifts(t, p, j, k, ab, p + 3);
    OperandOfAtom(t, p + 4, j);
    var abc := Binary(ab, op1, AtomValue(t, p + 4));
    assert BinaryRestAt(t, p + 5, abc, j) == Done(abc, p + 5);
    assert BinaryRestAt(t, p + 3, ab, j) == Done(abc, p + 5);
  }

  // ---------------------------------------------------------------------------
  // Names in primary position
  // ---------------------------------------------------------------------------

  /** What a name at `p` becomes, by the token after it. */
  lemma NamePrimary(t: seq<Token>, p: nat)
    requires p < |t| && t[p].Identifier?
    ensures var n := t[p].name; var r := PrimaryAt(t, p);
      (n == "true" ==> r == Done(Expression.Literal(Literal.Boolean(true)), p + 1))
      && (n == "false" ==> r == Done(Expression.Literal(Literal.Boolean(false)), p + 1))
      && (n != "true" && n != "false" && p + 1 < |t| && t[p + 1] == LeftBrace ==>
            r == StructInitializationAt(t, p + 1, n))
      && (n != "true" && n != "false" && p + 1 < |t| && t[p + 1] == DoubleColon ==>
            r == EnumVariantCreationAt(t, p + 1, n))
      && (n != "true" && n != "false" && !(p + 1 < |t| && t[p + 1] in {LeftBrace, DoubleColon}) ==>
            r == Done(Variable(n), p + 1))
  {
    assert !Check(t, p, LeftBracket) && !Check(t, p, LeftParen);
    assert PrimaryAt(t, p) == NamePrimaryAt(t, p, t[p].name);
  }

  /** A name that is not a boolean and is followed by neither `{` nor `::` is a variable. */
  lemma NameVariable(t: seq<Token>, p: nat)
    requires p < |t| && t[p].Identifier? && t[p].name != "true" && t[p].name != "false"
    requires !(p + 1 < |t| && t[p + 1] in {LeftBrace, DoubleColon})
    ensures PrimaryAt(t, p) == Done(Variable(t[p].name), p + 1)
  {
    assert !Check(t, p, LeftBracket) && !Check(t, p, LeftParen);
  }

  /** `E::V` with no `(` after it is a unit variant with no values. */
  lemma UnitEnumVariant(t: seq<Token>, p: nat, e: string, v: string)
    requires p + 2 < |t| && t[p] == Identifier(e) && e != "true" && e != "false"
    requires t[p + 1] == DoubleColon && t[p + 2] == Identifier(v) && !Check(t, p + 3, LeftParen)
    ensures PrimaryAt(t, p) == Done(EnumVariantCreation(e, v, []), p + 3)
  {
    NamePrimary(t, p);
    assert ConsumeIdentifier(t, p + 2) == Done(v, p + 3);
  }

  // ---------------------------------------------------------------------------
  // A name followed by `{` in an `if` or `while` condition
  // ---------------------------------------------------------------------------

  /** The innermost left operand of an expression: what the parser read first. */
  function Leftmost(e: Expression): (r: Expression)
    ensures !r.Binary? && !r.ArrayAccess? && !r.StructFieldAccess?
  {
    match e
    case Binary(l, _, _) => Leftmost(l)
    case ArrayAccess(b, _) => Leftmost(b)
    case StructFieldAccess(b, _) => Leftmost(b)
    case _ => e
  }

  /** The call loop keeps the first operand, and never turns a non-name into a callable name. */
  lemma {:induction false} CallRestKeepsLeftmost(t: seq<Token>, p: nat, e: Expression)
    requires p <= |t| && !e.Variable?
    ensures var r := CallRestAt(t, p, e);
      r.Done? ==> Leftmost(r.value) == Leftmost(e) && !r.value.Variable?
    decreases |t| - p
  {
    if PostfixStart(t, p) {
      var s := PostfixAt(t, p, e);
      if s.Done? {
        PostfixKeepsBase(t, p, e);
        assert Leftmost(s.value) == Leftmost(e) && !s.value.Variable?;
        CallRestKeepsLeftmost(t, s.next, s.value);
        assert CallRestAt(t, p, e) == CallRestAt(t, s.next, s.value);
      } else {
        assert CallRestAt(t, p, e) == Abort(s.error);
      }
    } else {
      assert CallRestAt(t, p, e) == Done(e, p);
    }
  }

  /** One postfix step on a non-name wraps it in an index or a field access; a call of it fails. */
  lemma PostfixKeepsBase(t: seq<Token>, p: nat, e: Expression)
    requires p <= |t| && PostfixStart(t, p) && !e.Variable?
    ensures var s := PostfixAt(t, p, e);
      s.Done? ==> (s.value.ArrayAccess? || s.value.StructFieldAccess?) && s.value.base == e
  {
    if Check(t, p, LeftParen) {
      FinishCallOfNonName(t, p + 1, e);
      assert PostfixAt(t, p, e) == FinishCallAt(t, p + 1, e);
    } else if Check(t, p, LeftBracket) {
      IndexKeepsBase(t, p, e);
    } else {
      assert PostfixAt(t, p, e) == FieldAccessAt(t, p + 1, e);
    }
  }

  /** A call of anything but a name fails, whatever its arguments. */
  lemma FinishCallOfNonName(t: seq<Token>, p: nat, e: Expression)
    requires p <= |t| && !e.Variable?
    ensures FinishCallAt(t, p, e).Abort?
  {
    var a := OptionalListAt(t, p, RightParen, false);
    if a.Done? {
      var c := Consume(t, a.next, RightParen);
      if c.Done? {
        assert CallSite(e, a.value) == Err(NotCallable(e));
      }
    }
  }

  /** An `[index]` round wraps its base in an index access. */
  lemma IndexKeepsBase(t: seq<Token>, p: nat, e: Expression)
    requires p < |t| && t[p].LeftBracket?
    ensures var s := PostfixAt(t, p, e);
      s.Done? ==> s.value.ArrayAccess? && s.value.base == e
  {
    assert PostfixStart(t, p) && Check(t, p, LeftBracket);
    var i := ExpressionAt(t, p + 1);
    if i.Done? {
      var c := Consume(t, i.next, RightBracket);
      if c.Done? {
        assert PostfixAt(t, p, e) == Done(ArrayAccess(e, i.value), c.next);
      }
    }
  }

  /** The operator loop of a level keeps the first operand and builds no bare name. */
  lemma {:induction false} BinaryRestKeepsLeftmost(t: seq<Token>, p: nat, left: Expression, k: nat)
    requires p <= |t| && k <= 3 && !left.Variable?
    ensures var r := BinaryRestAt(t, p, left, k);
      r.Done? ==> Leftmost(r.value) == Leftmost(left) && !r.value.Variable?
    decreases |t| - p
  {
    match OperatorAt(t, p, k)
    case None =>
    case Some(op) =>
      var s := OperandAt(t, p + 1, k);
      if s.Done? {
        BinaryRestKeepsLeftmost(t, s.next, Binary(left, op, s.value), k);
      }
  }

  /** A `call` that starts with `n {` starts with the struct initialization of `n` and is not a bare name. */
  lemma CallStartsWithStruct(t: seq<Token>, p: nat, n: string)
    requires p + 1 < |t| && t[p] == Identifier(n) && n != "true" && n != "false" && t[p + 1] == LeftBrace
    ensures var r := CallAt(t, p);
      r.Done? ==>
        (StructInitializationAt(t, p + 1, n).Done?
         && Leftmost(r.value) == StructInitializationAt(t, p + 1, n).value && !r.value.Variable?)
  {
    NamePrimary(t, p);
    var s := StructInitializationAt(t, p + 1, n);
    if s.Done? {
      CallRestKeepsLeftmost(t, s.next, s.value);
    }
  }

  /**
    At every level of the ladder, an expression that starts with `n {` starts
    with the struct initialization of `n` and is not a bare name.
  */
  lemma {:induction false} LadderStartsWithStruct(t: seq<Token>, p: nat, n: string, k: nat)
    requires p + 1 < |t| && t[p] == Identifier(n) && n != "true" && n != "false" && t[p + 1] == LeftBrace
    requires k <= 3
    ensures var r := OperandAt(t, p, k);
      r.Done? ==>
        (StructInitializationAt(t, p + 1, n).Done?
         && Leftmost(r.value) == StructInitializationAt(t, p + 1, n).value && !r.value.Variable?)
    decreases 3 - k
  {
    if k < 3 {
      LadderStartsWithStruct(t, p, n, k + 1);
      var s := OperandAt(t, p, k + 1);
      if s.Done? {
        BinaryRestKeepsLeftmost(t, s.next, s.value, k + 1);
      }
    } else {
      CallStartsWithStruct(t, p, n);
    }
  }

  /**
    A condition that starts with a name followed by `{` is never that name: the
    `{` meant to open the body is read as a struct initialization instead.
  */
  lemma ConditionSwallowsBrace(t: seq<Token>, p: nat, n: string)
    requires p + 1 < |t| && t[p] == Identifier(n) && n != "true" && n != "false" && t[p + 1] == LeftBrace
    ensures var r := ExpressionAt(t, p);
      r.Done? ==>
        (StructInitializationAt(t, p + 1, n).Done?
         && Leftmost(r.value) == StructInitializationAt(t, p + 1, n).value)
  {
    LadderStartsWithStruct(t, p, n, 0);
    var s := OperandAt(t, p, 0);
    if s.Done? {
      BinaryRestKeepsLeftmost(t, s.next, s.value, 0);
    }
    AssignmentIsEquality(t, p);
  }

  /** Hence an `if` or `while` whose condition starts with `n {` never has the bare name `n` as its condition. */
  lemma ConditionIsNotTheName(t: seq<Token>, p: nat, n: string)
    requires p + 1 < |t| && t[p] == Identifier(n) && n != "true" && n != "false" && t[p + 1] == LeftBrace
    ensures IfStatementAt(t, p).Done? ==> IfStatementAt(t, p).value.condition != Variable(n)
    ensures WhileStatementAt(t, p).Done? ==> WhileStatementAt(t, p).value.condition != Variable(n)
  {
    ConditionSwallowsBrace(t, p, n);
    var r := ExpressionAt(t, p);
    if r.Done? {
      assert Leftmost(r.value).StructInitialization?;
      assert r.value != Variable(n);
    }
    IfLeadingCondition(t, p);
    WhileLeadingCondition(t, p);
  }

  /** The condition of an `if` is the expression that starts it. */
  lemma IfLeadingCondition(t: seq<Token>, p: nat)
    requires p <= |t|
    ensures IfStatementAt(t, p).Done? ==>
      ExpressionAt(t, p).Done? && IfStatementAt(t, p).value.condition == ExpressionAt(t, p).value
  {
    var c := ExpressionAt(t, p);
    if c.Abort? {
      assert IfStatementAt(t, p) == Abort(c.error);
    } else {
      var b := Consume(t, c.next, LeftBrace);
      if b.Done? {
        var th := BlockContentsAt(t, b.next);
        if th.Done? {
          var el := ElifBranchesAt(t, th.next, []);
          if el.Done? {
            var e := ElseBranchAt(t, el.next);
            if e.Done? {
              assert IfStatementAt(t, p) == Done(Statement.If(c.value, th.value, el.value, e.value), e.next);
            }
          }
        }
      }
    }
  }

  /** The condition of a `while` is the expression that starts it. */
  lemma WhileLeadingCondition(t: seq<Token>, p: nat)
    requires p <= |t|
    ensures WhileStatementAt(t, p).Done? ==>
      ExpressionAt(t, p).Done? && WhileStatementAt(t, p).value.condition == ExpressionAt(t, p).value
  {
  }

  // ---------------------------------------------------------------------------
  // Whole programs
  // ---------------------------------------------------------------------------

  /** `declaration` hands every token but `fn` and `let` to `statement`. */
  lemma DeclarationIsStatement(t: seq<Token>, p: nat)
    requires p < |t| && t[p] != Fn && t[p] != Let
    ensures DeclarationAt(t, p) == StatementAt(t, p)
  {
  }

  /** `statement` hands every token but `}` and the keyword statements to its remaining choices. */
  lemma StatementIsRest(t: seq<Token>, p: nat)
    requires p < |t| && !(t[p] in {RightBrace, Token.If, Token.While, Token.For, Token.Break, Token.Continue})
    ensures StatementAt(t, p) == StatementRestAt(t, p)
  {
    assert !AtBlockEnd(t, p) && !Check(t, p, Token.If) && !Check(t, p, Token.While);
    assert !Check(t, p, Token.For) && !Check(t, p, Token.Break) && !Check(t, p, Token.Continue);
  }

  /** Any other statement is an expression that a `;` must follow. */
  lemma ExpressionStatement(t: seq<Token>, p: nat)
    requires p < |t| && !(t[p] in {Unsafe, Token.Import, LeftBrace})
    ensures StatementRestAt(t, p) ==
      match ExpressionAt(t, p)
      case Abort(err) => Abort(err)
      case Done(e, q) =>
        if Check(t, q, Semi) then Done(Some(Statement.Expression(e)), q + 1)
        else Abort(Expected(Semi, TokenAt(t, q)))
  {
  }

  /** A `{` in statement position is a bare block, which reads a second `{`. */
  lemma BareBlockStatement(t: seq<Token>, p: nat)
    requires p < |t| && t[p] == LeftBrace
    ensures StatementRestAt(t, p) ==
      match BlockAt(t, p + 1)
      case Abort(err) => Abort(err)
      case Done(s, q) => Done(Some(s), q)
  {
  }

  /** A statement that starts with none of the statement keywords is an expression that `;` must follow. */
  lemma ExpressionDeclaration(t: seq<Token>, p: nat, e: Expression, q: nat)
    requires p < |t| && ExpressionAt(t, p) == Done(e, q)
    requires !(t[p] in {Fn, Let, RightBrace, Token.If, Token.While, Token.For, Token.Break, Token.Continue,
                        Unsafe, Token.Import, LeftBrace})
    ensures DeclarationAt(t, p) ==
      if Check(t, q, Semi) then Done(Some(Statement.Expression(e)), q + 1)
      else Abort(Expected(Semi, TokenAt(t, q)))
  {
    DeclarationIsStatement(t, p);
    StatementIsRest(t, p);
    ExpressionStatement(t, p);
  }

  /** A `{` where a declaration starts is a bare block. */
  lemma BareBlockDeclaration(t: seq<Token>, p: nat)
    requires p < |t| && t[p] == LeftBrace
    ensures DeclarationAt(t, p) ==
      match BlockAt(t, p + 1)
      case Abort(err) => Abort(err)
      case Done(s, q) => Done(Some(s), q)
  {
    DeclarationIsStatement(t, p);
    StatementIsRest(t, p);
    BareBlockStatement(t, p);
  }

  lemma BlockDeclaration(t: seq<Token>, p: nat, s: Statement, q: nat)
    requires p < |t| && t[p] == LeftBrace && BlockAt(t, p + 1) == Done(s, q)
    ensures DeclarationAt(t, p) == Done(Some(s), q)
  {
    BareBlockDeclaration(t, p);
  }

  /** An atom followed by no operator, call chain or `=` is a whole expression. */
  lemma AtomExpression(t: seq<Token>, p: nat)
    requires Atom(t, p) && EndsAt(t, p + 1, -1) && !Check(t, p + 1, Equals)
    ensures ExpressionAt(t, p) == Done(AtomValue(t, p), p + 1)
  {
    AtomCall(t, p);
    ExpressionOfCall(t, p, AtomValue(t, p), p + 1);
  }

  /** A `}` where a top-level declaration should start makes `parse` spin. */
  lemma StrayBraceDiverges(t: seq<Token>, p: nat, acc: seq<Statement>)
    requires p < |t| && t[p] == RightBrace
    ensures ParseFrom(t, p, acc) == Diverges(p)
  {
    assert DeclarationAt(t, p) == Done(None, p);
  }

  /** A program that is one declaration. */
  lemma ProgramOfOne(t: seq<Token>, s: Statement)
    requires |t| > 0 && DeclarationAt(t, 0) == Done(Some(s), |t|)
    ensures ParseProgram(t) == Program([s])
  {
    assert [] + [s] == [s];
    assert ParseFrom(t, 0, []) == ParseFrom(t, |t|, [s]);
  }

  /** `let n = e;` without a type annotation declares `n` with no explicit type. */
  lemma UntypedLet(t: seq<Token>, p: nat, e: Expression, q: nat)
    requires p + 2 < |t| && t[p] == Let && t[p + 1].Identifier? && t[p + 2] == Equals
    requires ExpressionAt(t, p + 3) == Done(e, q) && Check(t, q, Semi)
    ensures DeclarationAt(t, p) == Done(Some(Statement.VariableDeclaration(t[p + 1].name, e, None)), q + 1)
  {
    assert !Check(t, p + 2, Colon);
    assert VarDeclarationAt(t, p + 1) == Done(Statement.VariableDeclaration(t[p + 1].name, e, None), q + 1);
  }

  /** The tokens of `let x = 123;`. */
  predicate LetTokens(t: seq<Token>) {
    |t| == 5 && t[0] == Let && t[1] == Identifier("x") && t[2] == Equals && t[3] == Number(123) && t[4] == Semi
  }

  lemma LetDeclaration(t: seq<Token>)
    requires LetTokens(t)
    ensures DeclarationAt(t, 0) ==
      Done(Some(Statement.VariableDeclaration("x", Expression.Literal(Literal.Integer(123)), None)), 5)
  {
    AtomExpression(t, 3);
    UntypedLet(t, 0, Expression.Literal(Literal.Integer(123)), 4);
  }

  /** `let x = 123;` is one variable declaration. */
  lemma LetStatement(t: seq<Token>)
    requires LetTokens(t)
    ensures ParseProgram(t)
      == Program([Statement.VariableDeclaration("x", Expression.Literal(Literal.Integer(123)), None)])
  {
    LetDeclaration(t);
    ProgramOfOne(t, Statement.VariableDeclaration("x", Expression.Literal(Literal.Integer(123)), None));
  }

  /** Two expressions `a, b`, the first one token long, before `)` are an argument list of two, in order. */
  lemma ListOfTwo(t: seq<Token>, p: nat, a: Expression, b: Expression, q: nat)
    requires p + 2 < |t| && ExpressionAt(t, p) == Done(a, p + 1) && t[p + 1] == Comma
    requires ExpressionAt(t, p + 2) == Done(b, q) && q < |t| && t[q] == RightParen
    ensures ExpressionListAt(t, p, [], RightParen, false) == Done([a, b], q)
  {
    assert [] + [a] == [a] && [a] + [b] == [a, b];
  }

  /** Two atoms `a, b` before `)` are an argument list of two, in order. */
  lemma AtomsOfTwo(t: seq<Token>, p: nat)
    requires p + 3 < |t| && Atom(t, p) && t[p + 1] == Comma && Atom(t, p + 2) && t[p + 3] == RightParen
    ensures !Check(t, p, RightParen)
    ensures ExpressionListAt(t, p, [], RightParen, false) == Done([AtomValue(t, p), AtomValue(t, p + 2)], p + 3)
  {
    AtomExpression(t, p);
    AtomExpression(t, p + 2);
    ListOfTwo(t, p, AtomValue(t, p), AtomValue(t, p + 2), p + 3);
  }

  /** A list that does not start on its closing token is a list of at least one expression. */
  lemma NonEmptyList(t: seq<Token>, p: nat, close: Token, trailing: bool)
    requires p <= |t| && !Check(t, p, close)
    ensures OptionalListAt(t, p, close, trailing) == ExpressionListAt(t, p, [], close, trailing)
  {
  }

  /** `(args)` after a name, with nothing chained after it, is one call site. */
  lemma CallOfArguments(t: seq<Token>, p: nat, n: string, args: seq<Expression>, q: nat)
    requires p + 1 < |t| && t[p] == LeftParen && OptionalListAt(t, p + 1, RightParen, false) == Done(args, q)
    requires q < |t| && t[q] == RightParen && !PostfixStart(t, q + 1) && CallSite(Variable(n), args).Ok?
    ensures CallRestAt(t, p, Variable(n)) == Done(CallSite(Variable(n), args).value, q + 1)
  {
    var c := CallSite(Variable(n), args).value;
    assert FinishCallAt(t, p + 1, Variable(n)) == Done(c, q + 1);
    assert CallRestAt(t, q + 1, c) == Done(c, q + 1);
  }

  /** A name followed by `(args)` and no further call chain is that call. */
  lemma CallOfName(t: seq<Token>, p: nat, c: Expression, q: nat)
    requires p + 1 < |t| && t[p].Identifier? && t[p].name != "true" && t[p].name != "false"
    requires t[p + 1] == LeftParen && CallRestAt(t, p + 1, Variable(t[p].name)) == Done(c, q)
    ensures CallAt(t, p) == Done(c, q)
  {
    NameVariable(t, p);
    CallOfPrimary(t, p, Variable(t[p].name), c, q);
  }

  /** A `call` is its primary followed by the call loop. */
  lemma CallOfPrimary(t: seq<Token>, p: nat, e: Expression, c: Expression, q: nat)
    requires p + 1 <= |t| && PrimaryAt(t, p) == Done(e, p + 1) && CallRestAt(t, p + 1, e) == Done(c, q)
    ensures CallAt(t, p) == Done(c, q)
  {
  }

  /** `n(a, b)` where `a, b` parse as expressions is the call site of `n` with `[a, b]`. */
  lemma CallOfTwo(t: seq<Token>, p: nat, n: string, a: Expression, b: Expression, c: Expression)
    requires p + 6 <= |t| && t[p] == Identifier(n) && n != "true" && n != "false" && t[p + 1] == LeftParen
    requires ExpressionListAt(t, p + 2, [], RightParen, false) == Done([a, b], p + 5)
    requires !Check(t, p + 2, RightParen) && t[p + 5] == RightParen && !PostfixStart(t, p + 6)
    requires CallSite(Variable(n), [a, b]) == Ok(c)
    ensures CallAt(t, p) == Done(c, p + 6)
  {
    NonEmptyList(t, p + 2, RightParen, false);
    CallOfArguments(t, p + 1, n, [a, b], p + 5);
    CallOfName(t, p, c, p + 6);
  }

  /** `n(a, b)` with two atoms as arguments is the call site of `n` with those two values. */
  lemma CallOfTwoAtoms(t: seq<Token>, p: nat, n: string)
    requires p + 6 <= |t| && t[p] == Identifier(n) && n != "true" && n != "false" && t[p + 1] == LeftParen
    requires Atom(t, p + 2) && t[p + 3] == Comma && Atom(t, p + 4) && t[p + 5] == RightParen
    requires !PostfixStart(t, p + 6)
    ensures CallAt(t, p) == Done(CallSite(Variable(n), [AtomValue(t, p + 2), AtomValue(t, p + 4)]).value, p + 6)
  {
    var a, b := AtomValue(t, p + 2), AtomValue(t, p + 4);
    AtomsOfTwo(t, p + 2);
    CallOfTwo(t, p, n, a, b, CallSite(Variable(n), [a, b]).value);
  }

  /** A program that is one call `c` followed by `;`. */
  lemma CallStatementProgram(t: seq<Token>, c: Expression)
    requires |t| == 7 && t[0].Identifier? && CallAt(t, 0) == Done(c, 6) && t[6] == Semi
    ensures ParseProgram(t) == Program([Statement.Expression(c)])
  {
    ExpressionOfCall(t, 0, c, 6);
    ExpressionDeclaration(t, 0, c, 6);
    ProgramOfOne(t, Statement.Expression(c));
  }

  /**
    `puts(s, a);` or `print(s, a);` with a string `s` holding `{}` is one
    format call: the string as written is kept, and only `a` is an argument.
  */
  lemma FormatStatement(t: seq<Token>, n: string, s: string)
    requires |t| == 7 && t[0] == Identifier(n) && (n == "puts" || n == "print") && t[1] == LeftParen
    requires t[2] == Token.String(s) && HasPlaceholder(s) && t[3] == Comma && Atom(t, 4)
    requires t[5] == RightParen && t[6] == Semi
    ensures ParseProgram(t) == Program([Statement.Expression(FormatCall(n, s, [AtomValue(t, 4)]))])
  {
    CallOfTwoAtoms(t, 0, n);
    CallStatementProgram(t, FormatCall(n, s, [AtomValue(t, 4)]));
  }

  /** `puts("value is {}", x);` is one format call with the string as written and `x` as argument. */
  lemma FormatCallStatement(t: seq<Token>)
    requires |t| == 7 && t[0] == Identifier("puts") && t[1] == LeftParen
    requires t[2] == Token.String("\"value is {}\"") && t[3] == Comma && t[4] == Identifier("x")
    requires t[5] == RightParen && t[6] == Semi
    ensures ParseProgram(t) == Program([Statement.Expression(FormatCall("puts", "\"value is {}\"", [Variable("x")]))])
  {
    assert "\"value is {}\""[10] == '{' && "\"value is {}\""[11] == '}';
    FormatStatement(t, "puts", "\"value is {}\"");
  }

  /** `x = 5;`: the `=` is stepped over, and `5` is found where the `;` should be. */
  lemma AssignmentLosesValue(t: seq<Token>)
    requires |t| == 4 && t[0] == Identifier("x") && t[1] == Equals && t[2] == Number(5) && t[3] == Semi
    ensures ParseProgram(t) == Panic(Expected(Semi, Some(Number(5))))
  {
    AssignmentDeclaration(t);
    assert ParseFrom(t, 0, []) == Panic(Expected(Semi, Some(Number(5))));
  }

  lemma AssignmentDeclaration(t: seq<Token>)
    requires |t| == 4 && t[0] == Identifier("x") && t[1] == Equals && t[2] == Number(5) && t[3] == Semi
    ensures DeclarationAt(t, 0) == Abort(Expected(Semi, Some(Number(5))))
  {
    AssignmentExpression(t);
    assert !(t[0] in {Fn, Let, RightBrace, Token.If, Token.While, Token.For, Token.Break, Token.Continue,
                      Unsafe, Token.Import, LeftBrace});
    ExpressionDeclaration(t, 0, Variable("x"), 2);
  }

  /** In `x = 5;` the expression is `x`, and the `=` is stepped over. */
  lemma AssignmentExpression(t: seq<Token>)
    requires |t| == 4 && t[0] == Identifier("x") && t[1] == Equals && t[2] == Number(5) && t[3] == Semi
    ensures ExpressionAt(t, 0) == Done(Variable("x"), 2)
  {
    AtomCall(t, 0);
    assert OperatorLevel(t[1]) < 0 && Check(t, 1, Equals);
    ExpressionOfCall(t, 0, Variable("x"), 1);
  }

  /** The tokens of `if x { y; }`. */
  predicate IfTokens(t: seq<Token>) {
    |t| == 6 && t[0] == Token.If && t[1] == Identifier("x") && t[2] == LeftBrace && t[3] == Identifier("y")
    && t[4] == Semi && t[5] == RightBrace
  }

  lemma IfCondition(t: seq<Token>)
    requires IfTokens(t)
    ensures ExpressionAt(t, 1) == Abort(Expected(Colon, Some(Semi)))
  {
    var err := Expected(Colon, Some(Semi));
    assert FieldInitializersAt(t, 3, []) == Abort(err);
    assert StructInitializationAt(t, 2, "x") == Abort(err);
    NamePrimary(t, 1);
    ExpressionOfFailedCall(t, 1, err);
  }

  /** `if x { y; }`: `x {` starts a struct initialization, which wants `:` after `y`. */
  lemma IfOnBareName(t: seq<Token>)
    requires IfTokens(t)
    ensures ParseProgram(t) == Panic(Expected(Colon, Some(Semi)))
  {
    IfCondition(t);
    DeclarationIsStatement(t, 0);
  }

  /** `{ x; }`: a bare block must open with two braces. */
  lemma BareBlockNeedsTwoBraces(t: seq<Token>)
    requires |t| == 4 && t[0] == LeftBrace && t[1] == Identifier("x") && t[2] == Semi && t[3] == RightBrace
    ensures ParseProgram(t) == Panic(Expected(LeftBrace, Some(Identifier("x"))))
  {
    BareBlockDeclaration(t, 0);
  }

  /** `x;` at position 2 of `t` is one expression statement. */
  lemma NameStatement(t: seq<Token>)
    requires |t| >= 5 && t[2] == Identifier("x") && t[3] == Semi
    ensures DeclarationAt(t, 2) == Done(Some(Statement.Expression(Variable("x"))), 4)
  {
    AtomExpression(t, 2);
    ExpressionDeclaration(t, 2, Variable("x"), 3);
  }

  /** `{ { x; }` at the front of `t`: two opening braces and one closing brace make a block. */
  lemma BlockOfOneName(t: seq<Token>)
    requires |t| >= 5 && t[0] == LeftBrace && t[1] == LeftBrace && t[2] == Identifier("x") && t[3] == Semi
    requires t[4] == RightBrace
    ensures DeclarationAt(t, 0) == Done(Some(Block([Statement.Expression(Variable("x"))])), 5)
  {
    BlockOfOneNameBody(t);
    BlockDeclaration(t, 0, Block([Statement.Expression(Variable("x"))]), 5);
  }

  lemma BlockOfOneNameBody(t: seq<Token>)
    requires |t| >= 5 && t[1] == LeftBrace && t[2] == Identifier("x") && t[3] == Semi && t[4] == RightBrace
    ensures BlockAt(t, 1) == Done(Block([Statement.Expression(Variable("x"))]), 5)
  {
    var s := Statement.Expression(Variable("x"));
    NameStatement(t);
    assert [] + [s] == [s];
    assert BlockLoopAt(t, 4, [s]) == Done([s], 4);
    assert BlockLoopAt(t, 2, []) == Done([s], 4);
  }

  /** `{ { x; }` is a program of one block. */
  lemma DoubledBraceBlock(t: seq<Token>)
    requires |t| == 5 && t[0] == LeftBrace && t[1] == LeftBrace && t[2] == Identifier("x") && t[3] == Semi
    requires t[4] == RightBrace
    ensures ParseProgram(t) == Program([Block([Statement.Expression(Variable("x"))])])
  {
    BlockOfOneName(t);
    ProgramOfOne(t, Block([Statement.Expression(Variable("x"))]));
  }

  /** `{ { x; } }`: the block closes at the first `}` and the second one makes `parse` spin. */
  lemma BalancedBlockDiverges(t: seq<Token>)
    requires |t| == 6 && t[0] == LeftBrace && t[1] == LeftBrace && t[2] == Identifier("x") && t[3] == Semi
    requires t[4] == RightBrace && t[5] == RightBrace
    ensures ParseProgram(t) == Diverges(5)
  {
    BlockOfOneName(t);
    assert [] + [Block([Statement.Expression(Variable("x"))])] == [Block([Statement.Expression(Variable("x"))])];
    StrayBraceDiverges(t, 5, [Block([Statement.Expression(Variable("x"))])]);
  }

  // ---------------------------------------------------------------------------
  // Type annotations
  // ---------------------------------------------------------------------------

  /** The known type names stand for primitive types only. */
  lemma TypeNamesArePrimitive(name: string)
    ensures TypeNamed(name).Some? ==> TypeNamed(name).value in {Type.Integer, Type.Float, Type.Boolean, Type.String, Type.Void}
  {
  }

  /** A parameter or return annotation is its default, or a primitive type. */
  lemma AnnotationIsPrimitiveOrDefault(t: seq<Token>, p: nat, lead: Token, default: Type)
    requires p <= |t|
    ensures var r := AnnotationAt(t, p, lead, default);
      r.Done? ==> r.value == default || r.value in {Type.Integer, Type.Float, Type.Boolean, Type.String, Type.Void}
  {
    if Check(t, p, lead) && p + 1 < |t| && t[p + 1].Identifier? {
      TypeNamesArePrimitive(t[p + 1].name);
    }
  }

  /**
    After its lead token an annotation reads one type name: a known name gives
    its type, an unknown one is consumed and gives the default, any other token
    is left in place and gives the default, and the end of input aborts.
  */
  lemma AnnotationAfterLead(t: seq<Token>, p: nat, lead: Token, default: Type)
    requires p < |t| && Check(t, p, lead)
    ensures p + 1 == |t| ==> AnnotationAt(t, p, lead, default) == Abort(UnexpectedEndOfInput)
    ensures p + 1 < |t| && t[p + 1].Identifier? ==>
      AnnotationAt(t, p, lead, default) ==
        Done(if TypeNamed(t[p + 1].name).Some? then TypeNamed(t[p + 1].name).value else default, p + 2)
    ensures p + 1 < |t| && !t[p + 1].Identifier? ==> AnnotationAt(t, p, lead, default) == Done(default, p + 1)
  {
    var ty := ParseTypeAt(t, p + 1);
    if ty.Done? {
      assert AnnotationAt(t, p, lead, default) == Done(ty.value.GetOr(default), ty.next);
    } else {
      assert AnnotationAt(t, p, lead, default) == Abort(ty.error);
    }
  }

  // ---------------------------------------------------------------------------
  // A whole function
  // ---------------------------------------------------------------------------

  /** The tokens of `fn main() { let x = 2; let y = 3; puts("{}", x + y); }`. */
  predicate SumTokens(t: seq<Token>) {
    |t| == 25
    && t[0] == Fn && t[1] == Identifier("main") && t[2] == LeftParen && t[3] == RightParen && t[4] == LeftBrace
    && t[5] == Let && t[6] == Identifier("x") && t[7] == Equals && t[8] == Number(2) && t[9] == Semi
    && t[10] == Let && t[11] == Identifier("y") && t[12] == Equals && t[13] == Number(3) && t[14] == Semi
    && t[15] == Identifier("puts") && t[16] == LeftParen && t[17] == Token.String("\"{}\"") && t[18] == Comma
    && t[19] == Identifier("x") && t[20] == Plus && t[21] == Identifier("y") && t[22] == RightParen
    && t[23] == Semi && t[24] == RightBrace
  }

  /** The body statements of that function, in order. */
  function SumBody(): seq<Statement> {
    [Statement.VariableDeclaration("x", Expression.Literal(Literal.Integer(2)), None),
     Statement.VariableDeclaration("y", Expression.Literal(Literal.Integer(3)), None),
     Statement.Expression(FormatCall("puts", "\"{}\"", [Binary(Variable("x"), Add, Variable("y"))]))]
  }

  /** `let n = a;` with an atom `a` declares `n` with the atom's value and no explicit type. */
  lemma LetOfAtom(t: seq<Token>, p: nat)
    requires p + 4 < |t| && t[p] == Let && t[p + 1].Identifier? && t[p + 2] == Equals
    requires Atom(t, p + 3) && t[p + 4] == Semi
    ensures DeclarationAt(t, p) == Done(Some(Statement.VariableDeclaration(t[p + 1].name, AtomValue(t, p + 3), None)), p + 5)
  {
    AtomExpression(t, p + 3);
    UntypedLet(t, p, AtomValue(t, p + 3), p + 4);
  }

  /** `let x = 2;` and `let y = 3;` are the first two declarations of the body. */
  lemma SumLets(t: seq<Token>)
    requires SumTokens(t)
    ensures DeclarationAt(t, 5) == Done(Some(SumBody()[0]), 10)
    ensures DeclarationAt(t, 10) == Done(Some(SumBody()[1]), 15)
  {
    LetOfAtom(t, 5);
    LetOfAtom(t, 10);
  }

  /** `x + y` before `)` is one addition of two variables. */
  lemma SumOperands(t: seq<Token>)
    requires SumTokens(t)
    ensures ExpressionAt(t, 19) == Done(Binary(Variable("x"), Add, Variable("y")), 22)
  {
    var e := Binary(Variable("x"), Add, Variable("y"));
    BinaryOfTwo(t, 19, 2, Add);
    OperandLifts(t, 19, 0, 2, e, 22);
    assert BinaryRestAt(t, 22, e, 0) == Done(e, 22);
    assert BinaryAt(t, 19, 0) == Done(e, 22);
  }

  /** `puts("{}", x + y);` is a format call that keeps the quoted string and passes the sum. */
  lemma SumCall(t: seq<Token>)
    requires SumTokens(t)
    ensures DeclarationAt(t, 15) == Done(Some(SumBody()[2]), 24)
  {
    var format := Expression.Literal(Literal.String("\"{}\""));
    var sum := Binary(Variable("x"), Add, Variable("y"));
    assert HasPlaceholder("\"{}\"") by {
      assert "\"{}\""[1] == '{' && "\"{}\""[2] == '}';
    }
    var c := FormatCall("puts", "\"{}\"", [sum]);
    assert CallSite(Variable("puts"), [format, sum]) == Ok(c);
    AtomExpression(t, 17);
    SumOperands(t);
    ListOfTwo(t, 17, format, sum, 22);
    NonEmptyList(t, 17, RightParen, false);
    CallOfArguments(t, 16, "puts", [format, sum], 22);
    CallOfName(t, 15, c, 23);
    ExpressionOfCall(t, 15, c, 23);
    ExpressionDeclaration(t, 15, c, 23);
  }

  /** A declaration before the end of a block is appended to the statements read so far. */
  lemma BlockLoopStep(t: seq<Token>, p: nat, acc: seq<Statement>, s: Statement, q: nat)
    requires p < |t| && !AtBlockEnd(t, p) && DeclarationAt(t, p) == Done(Some(s), q)
    ensures BlockLoopAt(t, p, acc) == BlockLoopAt(t, q, acc + [s])
  {
  }

  /** Three declarations and then `}` are a block body of those three statements, in order. */
  lemma BlockOfThree(t: seq<Token>, p: nat, a: Statement, q1: nat, b: Statement, q2: nat, c: Statement, q3: nat)
    requires p < q1 < q2 < q3 < |t| && t[q3] == RightBrace
    requires !AtBlockEnd(t, p) && !AtBlockEnd(t, q1) && !AtBlockEnd(t, q2)
    requires DeclarationAt(t, p) == Done(Some(a), q1) && DeclarationAt(t, q1) == Done(Some(b), q2)
    requires DeclarationAt(t, q2) == Done(Some(c), q3)
    ensures BlockContentsAt(t, p) == Done([a, b, c], q3 + 1)
  {
    BlockLoopStep(t, p, [], a, q1);
    BlockLoopStep(t, q1, [a], b, q2);
    BlockLoopStep(t, q2, [a, b], c, q3);
    assert [] + [a] == [a] && [a] + [b] == [a, b] && [a, b] + [c] == [a, b, c];
    assert BlockLoopAt(t, q3, [a, b, c]) == Done([a, b, c], q3);
  }

  /** The three statements up to the closing `}` are the function's body. */
  lemma SumBlock(t: seq<Token>)
    requires SumTokens(t)
    ensures BlockContentsAt(t, 5) == Done(SumBody(), 25)
  {
    var b := SumBody();
    SumLets(t);
    SumCall(t);
    BlockOfThree(t, 5, b[0], 10, b[1], 15, b[2], 24);
  }

  /** `n() { … }` after `fn`: no parameters and no `->`, so the return type is `Void`. */
  lemma FunctionWithoutParameters(t: seq<Token>, p: nat, n: string, body: seq<Statement>, q: nat)
    requires p + 3 < |t| && t[p] == Identifier(n) && t[p + 1] == LeftParen && t[p + 2] == RightParen
    requires t[p + 3] == LeftBrace && BlockContentsAt(t, p + 4) == Done(body, q)
    ensures FunctionDeclarationAt(t, p) == Done(Statement.Function(Function.Function(n, [], Type.Void, body)), q)
  {
    assert ParameterListAt(t, p + 2) == Done([], p + 2);
    assert AnnotationAt(t, p + 3, Arrow, Type.Void) == Done(Type.Void, p + 3);
  }

  /** A program that is one function declaration. */
  lemma ProgramOfFunction(t: seq<Token>, f: Statement)
    requires |t| > 1 && t[0] == Fn && FunctionDeclarationAt(t, 1) == Done(f, |t|)
    ensures ParseProgram(t) == Program([f])
  {
    assert DeclarationAt(t, 0) == Done(Some(f), |t|);
    ProgramOfOne(t, f);
  }

  /**
    `fn main() { let x = 2; let y = 3; puts("{}", x + y); }` is one function
    `main` with no parameters, the `Void` return type and the three statements
    in order; the format string keeps its quotes.
  */
  lemma SumExampleParses(t: seq<Token>)
    requires SumTokens(t)
    ensures ParseProgram(t) == Program([Statement.Function(Function.Function("main", [], Type.Void, SumBody()))])
  {
    SumBlock(t);
    FunctionWithoutParameters(t, 1, "main", SumBody(), 25);
    ProgramOfFunction(t, Statement.Function(Function.Function("main", [], Type.Void, SumBody())));
  }
}
