/**
  The grammar of the recursive-descent parser, written as pure functions over
  a token sequence and a cursor position.

  Each `...At(t, p)` function says what the parser method of the same name does
  when it is entered with its cursor at `p`: either it finishes with a value and
  the cursor at `next`, or it aborts (every `expect`, `unwrap`, `panic!` and
  out-of-bounds token access of the Rust parser is an abort). The `Parser`
  class is proved to agree with these functions step for step.

  All productions are mutually recursive; they terminate because each call
  either consumes a token first or moves to a lower production at the same
  position (the second component of every `decreases`).
*/
module ParserSpec {
  import opened Wrappers
  import opened Lexer
  import opened Ast

  /** Why the parser aborted. */
  datatype ParseError =
    | Expected(expected: Token, found: Option<Token>)   // `consume`
    | ExpectedIdentifier(found: Option<Token>)          // `consume_identifier`
    | UnexpectedEndOfInput                              // `primary` at the end, or a token read past the end
    | ExpectedExpression(token: Token)                  // `primary` on a token that starts no expression
    | ExpectedFieldName(token: Token)                   // `.` not followed by an identifier
    | NotCallable(callee: Expression)                   // `finish_call` on a callee that is not a name

  /** The outcome of one production entered at some position. */
  datatype Parsed<+T> = Done(value: T, next: nat) | Abort(error: ParseError)
  {
    predicate IsFailure() { Abort? }
    function PropagateFailure<U>(): Parsed<U> requires Abort? { Abort(error) }
    function Extract(): (T, nat) requires Done? { (value, next) }
  }

  // ---------------------------------------------------------------------------
  // The forms the parser builds
  // ---------------------------------------------------------------------------

  /**
    An expression of a form the parser can build: no float literal, no
    declaration, assignment, struct definition or match inside, and a format
    call only for `puts` or `print`.
  */
  predicate SurfaceExpression(e: Expression)
    decreases e
  {
    match e
    case Literal(lit) => !lit.Float?
    case Variable(_) => true
    case Binary(left, _, right) => SurfaceExpression(left) && SurfaceExpression(right)
    case Call(_, arguments) => AllSurface(arguments)
    case FormatCall(name, _, arguments) => (name == "puts" || name == "print") && AllSurface(arguments)
    case ArrayLiteral(elements) => AllSurface(elements)
    case ArrayAccess(base, index) => SurfaceExpression(base) && SurfaceExpression(index)
    case StructInitialization(_, fieldValues) => forall i :: 0 <= i < |fieldValues| ==> SurfaceExpression(fieldValues[i].1)
    case StructFieldAccess(base, _) => SurfaceExpression(base)
    case EnumVariantCreation(_, _, values) => AllSurface(values)
    case VariableDeclaration(_, _, _) => false
    case ArrayAssignment(_, _, _) => false
    case StructDefinition(_, _) => false
    case StructFieldAssignment(_, _, _) => false
    case EnumMatch(_, _) => false
  }

  predicate AllSurface(es: seq<Expression>)
    decreases es
  {
    forall i :: 0 <= i < |es| ==> SurfaceExpression(es[i])
  }

  predicate AllSurfaceFields(fs: seq<(string, Expression)>) {
    forall i :: 0 <= i < |fs| ==> SurfaceExpression(fs[i].1)
  }

  /** A statement all of whose expressions are surface expressions. */
  predicate SurfaceStatement(s: Statement)
    decreases s
  {
    match s
    case Expression(e) => SurfaceExpression(e)
    case VariableDeclaration(_, value, _) => SurfaceExpression(value)
    case Block(body) => AllSurfaceStatements(body)
    case Function(f) => forall i :: 0 <= i < |f.body| ==> SurfaceStatement(f.body[i])
    case If(condition, thenBranch, elifs, elseBranch) =>
      && SurfaceExpression(condition)
      && AllSurfaceStatements(thenBranch)
      && AllSurfaceBranches(elifs)
      && (elseBranch.ElseBranch? ==> AllSurfaceStatements(elseBranch.body))
    case While(condition, body) => SurfaceExpression(condition) && AllSurfaceStatements(body)
    case For(_, iterable, body) => SurfaceExpression(iterable) && AllSurfaceStatements(body)
    case UnsafeBlock(body) => AllSurfaceStatements(body)
    case Break => true
    case Continue => true
    case Import(_) => true
    case ImportAs(_, _) => true
  }

  predicate AllSurfaceStatements(ss: seq<Statement>)
    decreases ss
  {
    forall i :: 0 <= i < |ss| ==> SurfaceStatement(ss[i])
  }

  predicate AllSurfaceBranches(bs: seq<ElifBranch>)
    decreases bs
  {
    forall i :: 0 <= i < |bs| ==> SurfaceExpression(bs[i].condition) && AllSurfaceStatements(bs[i].body)
  }

  // ---------------------------------------------------------------------------
  // Cursor primitives
  // ---------------------------------------------------------------------------

  /** The variant of a token, payload ignored (`std::mem::discriminant`). */
  function Discriminant(tok: Token): nat {
    match tok
    case Fn => 0 case Let => 1 case If => 2 case Else => 3 case Elif => 4
    case For => 5 case While => 6 case Break => 7 case Continue => 8 case In => 9
    case Unsafe => 10 case Import => 11 case As => 12
    case Equals => 13 case Colon => 14 case LeftParen => 15 case RightParen => 16
    case LeftBrace => 17 case RightBrace => 18 case Semi => 19 case Comma => 20
    case Arrow => 21 case Greater => 22 case GreaterEqual => 23 case Less => 24
    case LessEqual => 25 case Equal => 26 case NotEqual => 27 case Plus => 28
    case Minus => 29 case Star => 30 case Slash => 31 case Percent => 32
    case LeftBracket => 33 case RightBracket => 34 case Dot => 35 case DoubleColon => 36
    case Identifier(_) => 37 case Number(_) => 38 case String(_) => 39 case Whitespace => 40
  }

  /** The token under the cursor, if any (what an error message reports). */
  function TokenAt(t: seq<Token>, p: nat): Option<Token> {
    if p < |t| then Some(t[p]) else None
  }

  /** Built by the same constructor: equal, or both carrying a payload of the same kind. */
  predicate SameVariant(a: Token, b: Token) {
    a == b || (a.Identifier? && b.Identifier?) || (a.Number? && b.Number?) || (a.String? && b.String?)
  }

  /** `check`: the cursor is on a token of the same variant as `tok`. */
  predicate Check(t: seq<Token>, p: nat, tok: Token) {
    p < |t| && SameVariant(t[p], tok)
  }

  /** The cursor is at the end of the input or on a `}`. */
  predicate AtBlockEnd(t: seq<Token>, p: nat) {
    p >= |t| || Check(t, p, RightBrace)
  }

  /** `consume`: step over a token of the variant of `tok`, or abort. */
  function Consume(t: seq<Token>, p: nat, tok: Token): (r: Parsed<()>)
    ensures r.Done? <==> Check(t, p, tok)
    ensures r.Done? ==> r.next == p + 1
    ensures r.Abort? ==> r.error == Expected(tok, TokenAt(t, p))
  {
    if Check(t, p, tok) then Done((), p + 1) else Abort(Expected(tok, TokenAt(t, p)))
  }

  /** `consume_identifier`: step over an identifier and return its name, or abort. */
  function ConsumeIdentifier(t: seq<Token>, p: nat): (r: Parsed<string>)
    ensures r.Done? <==> p < |t| && t[p].Identifier?
    ensures r.Done? ==> r == Done(t[p].name, p + 1)
    ensures r.Abort? ==> r.error == ExpectedIdentifier(TokenAt(t, p))
  {
    if p < |t| && t[p].Identifier? then Done(t[p].name, p + 1)
    else Abort(ExpectedIdentifier(TokenAt(t, p)))
  }

  // ---------------------------------------------------------------------------
  // Types
  // ---------------------------------------------------------------------------

  /** The primitive type a type name stands for, if it is one of the known spellings. */
  function TypeNamed(name: string): Option<Type> {
    if name == "i32" || name == "int" then Some(Type.Integer)
    else if name == "f64" || name == "float" then Some(Type.Float)
    else if name == "bool" || name == "boolean" then Some(Type.Boolean)
    else if name == "str" || name == "string" then Some(Type.String)
    else if name == "void" then Some(Type.Void)
    else None
  }

  /**
    `parse_type`: an identifier is always consumed and gives its type or `None`
    for an unknown name; any other token gives `None` without moving; reading
    past the end aborts.
  */
  function ParseTypeAt(t: seq<Token>, p: nat): (r: Parsed<Option<Type>>)
    requires p <= |t|
    ensures r.Abort? <==> p == |t|
    ensures r.Abort? ==> r.error == UnexpectedEndOfInput
    ensures r.Done? && p < |t| && t[p].Identifier? ==> r == Done(TypeNamed(t[p].name), p + 1)
    ensures r.Done? && !t[p].Identifier? ==> r == Done(None, p)
  {
    if p == |t| then Abort(UnexpectedEndOfInput)
    else if t[p].Identifier? then Done(TypeNamed(t[p].name), p + 1)
    else Done(None, p)
  }

  // ---------------------------------------------------------------------------
  // Expressions
  // ---------------------------------------------------------------------------

  /** The operators of ladder level `k`: 0 equality, 1 comparison, 2 term, 3 factor. */
  function LevelOperator(k: nat, tok: Token): Option<BinaryOp> {
    match tok
    case Equal => if k == 0 then Some(BinaryOp.Equal) else None
    case NotEqual => if k == 0 then Some(BinaryOp.NotEqual) else None
    case Less => if k == 1 then Some(BinaryOp.Less) else None
    case LessEqual => if k == 1 then Some(BinaryOp.LessEqual) else None
    case Greater => if k == 1 then Some(BinaryOp.Greater) else None
    case GreaterEqual => if k == 1 then Some(BinaryOp.GreaterEqual) else None
    case Plus => if k == 2 then Some(Add) else None
    case Minus => if k == 2 then Some(Subtract) else None
    case Star => if k == 3 then Some(Multiply) else None
    case Slash => if k == 3 then Some(Divide) else None
    case Percent => if k == 3 then Some(Modulo) else None
    case _ => None
  }

  /** The operator of level `k` under the cursor, if any. */
  function OperatorAt(t: seq<Token>, p: nat, k: nat): Option<BinaryOp> {
    if p < |t| then LevelOperator(k, t[p]) else None
  }

  /** `expression`. */
  function ExpressionAt(t: seq<Token>, p: nat): (r: Parsed<Expression>)
    requires p <= |t|
    ensures r.Done? ==> p < r.next <= |t|
    ensures r.Done? ==> SurfaceExpression(r.value)
    decreases |t| - p, 13
  {
    AssignmentAt(t, p)
  }

  /** `assignment`: an `=` after an equality is stepped over and its right-hand side is not read. */
  function AssignmentAt(t: seq<Token>, p: nat): (r: Parsed<Expression>)
    requires p <= |t|
    ensures r.Done? ==> p < r.next <= |t|
    ensures r.Done? ==> SurfaceExpression(r.value)
    decreases |t| - p, 12
  {
    var (e, q) :- BinaryAt(t, p, 0);
    if Check(t, q, Equals) then Done(e, q + 1) else Done(e, q)
  }

  /** `equality`, `comparison`, `term` and `factor`: operands of the next level, joined to the left. */
  function BinaryAt(t: seq<Token>, p: nat, k: nat): (r: Parsed<Expression>)
    requires p <= |t| && k <= 3
    ensures r.Done? ==> p < r.next <= |t|
    ensures r.Done? ==> SurfaceExpression(r.value)
    decreases |t| - p, 11 - 2 * k
  {
    var (left, q) :- OperandAt(t, p, k);
    BinaryRestAt(t, q, left, k)
  }

  /** The operand of ladder level `k`: the next level, or `unary` below `factor`. */
  function OperandAt(t: seq<Token>, p: nat, k: nat): (r: Parsed<Expression>)
    requires p <= |t| && k <= 3
    ensures r.Done? ==> p < r.next <= |t|
    ensures r.Done? ==> SurfaceExpression(r.value)
    decreases |t| - p, 10 - 2 * k
  {
    if k < 3 then BinaryAt(t, p, k + 1) else UnaryAt(t, p)
  }

  /** The loop of a ladder level after `left` has been read: each operator folds one more operand in. */
  function BinaryRestAt(t: seq<Token>, p: nat, left: Expression, k: nat): (r: Parsed<Expression>)
    requires p <= |t| && k <= 3
    ensures r.Done? ==> p <= r.next <= |t|
    ensures r.Done? && SurfaceExpression(left) ==> SurfaceExpression(r.value)
    decreases |t| - p, 11 - 2 * k
  {
    match OperatorAt(t, p, k)
    case None => Done(left, p)
    case Some(op) =>
      var (right, q) :- OperandAt(t, p + 1, k);
      BinaryRestAt(t, q, Binary(left, op, right), k)
  }

  /** `unary`: there are no prefix operators, so this is `call`. */
  function UnaryAt(t: seq<Token>, p: nat): (r: Parsed<Expression>)
    requires p <= |t|
    ensures r.Done? ==> p < r.next <= |t|
    ensures r.Done? ==> SurfaceExpression(r.value)
    decreases |t| - p, 3
  {
    CallAt(t, p)
  }

  /** `call`: a primary followed by any number of calls, indexings and field accesses. */
  function CallAt(t: seq<Token>, p: nat): (r: Parsed<Expression>)
    requires p <= |t|
    ensures r.Done? ==> p < r.next <= |t|
    ensures r.Done? ==> SurfaceExpression(r.value)
    decreases |t| - p, 2
  {
    var (e, q) :- PrimaryAt(t, p);
    CallRestAt(t, q, e)
  }

  /** The cursor is on a token that continues a `call` chain. */
  predicate PostfixStart(t: seq<Token>, p: nat) {
    Check(t, p, LeftParen) || Check(t, p, LeftBracket) || Check(t, p, Dot)
  }

  /**
    One round of the `call` loop: a call, an indexing, or a field access. A `(`
    right after a field name is stepped over and nothing more.
  */
  function PostfixAt(t: seq<Token>, p: nat, e: Expression): (r: Parsed<Expression>)
    requires p <= |t| && PostfixStart(t, p)
    ensures r.Done? ==> p < r.next <= |t|
    ensures r.Done? && SurfaceExpression(e) ==> SurfaceExpression(r.value)
    decreases |t| - p, 0
  {
    if Check(t, p, LeftParen) then FinishCallAt(t, p + 1, e)
    else if Check(t, p, LeftBracket) then
      var (index, q) :- ExpressionAt(t, p + 1);
      var (_, q') :- Consume(t, q, RightBracket);
      Done(ArrayAccess(e, index), q')
    else FieldAccessAt(t, p + 1, e)
  }

  /** A field access, entered after the `.`: the field name must follow. */
  function FieldAccessAt(t: seq<Token>, p: nat, e: Expression): (r: Parsed<Expression>)
    requires p <= |t|
    ensures r.Done? ==> p < r.next <= |t| && t[p].Identifier? && r.value == StructFieldAccess(e, t[p].name)
    ensures r.Done? && SurfaceExpression(e) ==> SurfaceExpression(r.value)
  {
    if p == |t| then Abort(UnexpectedEndOfInput)
    else if t[p].Identifier? then
      Done(StructFieldAccess(e, t[p].name), if Check(t, p + 1, LeftParen) then p + 2 else p + 1)
    else Abort(ExpectedFieldName(t[p]))
  }

  /** The loop of `call` after the primary `e`. */
  function CallRestAt(t: seq<Token>, p: nat, e: Expression): (r: Parsed<Expression>)
    requires p <= |t|
    ensures r.Done? ==> p <= r.next <= |t| && !PostfixStart(t, r.next)
    ensures r.Done? && SurfaceExpression(e) ==> SurfaceExpression(r.value)
    decreases |t| - p, 1
  {
    if PostfixStart(t, p) then
      var (e', q) :- PostfixAt(t, p, e);
      CallRestAt(t, q, e')
    else Done(e, p)
  }

  /** `s` contains the two characters `{}` next to each other. */
  predicate HasPlaceholder(s: string) {
    exists i :: 0 <= i < |s| - 1 && s[i] == '{' && s[i + 1] == '}'
  }

  /**
    What `finish_call` builds from a callee and its arguments: a call of a name,
    rewritten to a format call when the name is `puts` or `print` and the first
    argument is a string literal containing `{}`.
  */
  function CallSite(callee: Expression, args: seq<Expression>): (r: Result<Expression, ParseError>)
    ensures r.Err? <==> !callee.Variable?
    ensures r.Err? ==> r.error == NotCallable(callee)
    ensures r.Ok? ==> (r.value.Call? || r.value.FormatCall?) && r.value.name == callee.name
    ensures r.Ok? && r.value.FormatCall? <==>
      callee.Variable? && (callee.name == "puts" || callee.name == "print") && |args| > 0
      && args[0].Literal? && args[0].lit.String? && HasPlaceholder(args[0].lit.s)
    ensures r.Ok? && r.value.FormatCall? ==>
      r.value.formatString == args[0].lit.s && r.value.arguments == args[1..]
    ensures r.Ok? && r.value.Call? ==> r.value.arguments == args
    ensures r.Ok? && AllSurface(args) ==> SurfaceExpression(r.value)
  {
    if !callee.Variable? then Err(NotCallable(callee))
    else if (callee.name == "puts" || callee.name == "print") && |args| > 0
      && args[0].Literal? && args[0].lit.String? && HasPlaceholder(args[0].lit.s)
    then Ok(FormatCall(callee.name, args[0].lit.s, args[1..]))
    else Ok(Call(callee.name, args))
  }

  /**
    A comma-separated list of expressions, entered on its first element: the
    argument list of a call (`trailing` false) and the element lists of array
    literals and enum values (`trailing` true: a comma followed by `close` ends
    the list, and the cursor is left on `close`).
  */
  function ExpressionListAt(t: seq<Token>, p: nat, acc: seq<Expression>, close: Token, trailing: bool)
    : (r: Parsed<seq<Expression>>)
    requires p <= |t|
    ensures r.Done? ==> p < r.next <= |t|
    ensures r.Done? && AllSurface(acc) ==> AllSurface(r.value)
    decreases |t| - p, 14
  {
    var (e, q) :- ExpressionAt(t, p);
    var acc' := acc + [e];
    if !Check(t, q, Comma) then Done(acc', q)
    else if trailing && Check(t, q + 1, close) then Done(acc', q + 1)
    else ExpressionListAt(t, q + 1, acc', close, trailing)
  }

  /** An optional list before `close`: empty when the cursor is already on `close`. */
  function OptionalListAt(t: seq<Token>, p: nat, close: Token, trailing: bool): (r: Parsed<seq<Expression>>)
    requires p <= |t|
    ensures r.Done? ==> p <= r.next <= |t|
    ensures r.Done? ==> AllSurface(r.value)
    decreases |t| - p, 15
  {
    if Check(t, p, close) then Done([], p) else ExpressionListAt(t, p, [], close, trailing)
  }

  /** `finish_call`, entered after the `(`: the arguments, the `)`, then the callee check. */
  function FinishCallAt(t: seq<Token>, p: nat, callee: Expression): (r: Parsed<Expression>)
    requires p <= |t|
    ensures r.Done? ==> p < r.next <= |t|
    ensures r.Done? ==> SurfaceExpression(r.value)
    decreases |t| - p, 16
  {
    var (args, q) :- OptionalListAt(t, p, RightParen, false);
    var (_, q') :- Consume(t, q, RightParen);
    match CallSite(callee, args)
    case Err(err) => Abort(err)
    case Ok(call) => Done(call, q')
  }

  /**
    `primary`: an array literal, a parenthesised expression, a number, a string,
    `true`/`false`, or a name. A name directly followed by `{` starts a struct
    initialization, one followed by `::` an enum variant, anything else is a
    variable.
  */
  function PrimaryAt(t: seq<Token>, p: nat): (r: Parsed<Expression>)
    requires p <= |t|
    ensures r.Done? ==> p < r.next <= |t|
    ensures r.Done? ==> SurfaceExpression(r.value)
    decreases |t| - p, 1
  {
    if p == |t| then Abort(UnexpectedEndOfInput)
    else if Check(t, p, LeftBracket) then
      var (elements, q) :- OptionalListAt(t, p + 1, RightBracket, true);
      var (_, q') :- Consume(t, q, RightBracket);
      Done(ArrayLiteral(elements), q')
    else if Check(t, p, LeftParen) then
      var (e, q) :- ExpressionAt(t, p + 1);
      var (_, q') :- Consume(t, q, RightParen);
      Done(e, q')
    else
      var tok := t[p];
      match tok
      case Number(n) => Done(Expression.Literal(Literal.Integer(n)), p + 1)
      case String(s) => Done(Expression.Literal(Literal.String(s)), p + 1)
      case Identifier(name) => NamePrimaryAt(t, p, name)
      case _ => Abort(ExpectedExpression(tok))
  }

  /**
    The identifier case of `primary`, on the name `name` at `p`: a boolean
    literal, a struct initialization when `{` follows, an enum variant when
    `::` follows, otherwise a variable.
  */
  function NamePrimaryAt(t: seq<Token>, p: nat, name: string): (r: Parsed<Expression>)
    requires p < |t|
    ensures r.Done? ==> p < r.next <= |t|
    ensures r.Done? ==> SurfaceExpression(r.value)
    decreases |t| - p, 0
  {
    if name == "true" then Done(Expression.Literal(Literal.Boolean(true)), p + 1)
    else if name == "false" then Done(Expression.Literal(Literal.Boolean(false)), p + 1)
    else if p + 1 < |t| && t[p + 1] == LeftBrace then StructInitializationAt(t, p + 1, name)
    else if p + 1 < |t| && t[p + 1] == DoubleColon then EnumVariantCreationAt(t, p + 1, name)
    else Done(Variable(name), p + 1)
  }

  /** `struct_initialization`, entered on the `{` after the struct name. */
  function StructInitializationAt(t: seq<Token>, p: nat, name: string): (r: Parsed<Expression>)
    requires p <= |t|
    ensures r.Done? ==> p < r.next <= |t| && r.value.StructInitialization? && r.value.name == name
    ensures r.Done? ==> SurfaceExpression(r.value)
    decreases |t| - p, 0
  {
    var (_, p1) :- Consume(t, p, LeftBrace);
    var (fields, q) :- if Check(t, p1, RightBrace) then Done([], p1) else FieldInitializersAt(t, p1, []);
    var (_, q') :- Consume(t, q, RightBrace);
    Done(StructInitialization(name, fields), q')
  }

  /** One `name: value` pair of a struct initialization. */
  function FieldInitializerAt(t: seq<Token>, p: nat): (r: Parsed<(string, Expression)>)
    requires p <= |t|
    ensures r.Done? ==> p < r.next <= |t| && t[p] == Identifier(r.value.0)
    ensures r.Done? ==> SurfaceExpression(r.value.1)
    decreases |t| - p, 14
  {
    var (field, p1) :- ConsumeIdentifier(t, p);
    var (_, p2) :- Consume(t, p1, Colon);
    var (value, q) :- ExpressionAt(t, p2);
    Done((field, value), q)
  }

  /** The `name: value` pairs of a struct initialization; a trailing comma is allowed. */
  function FieldInitializersAt(t: seq<Token>, p: nat, acc: seq<(string, Expression)>)
    : (r: Parsed<seq<(string, Expression)>>)
    requires p <= |t|
    ensures r.Done? ==> p < r.next <= |t|
    ensures r.Done? && AllSurfaceFields(acc) ==> AllSurfaceFields(r.value)
    decreases |t| - p, 15
  {
    var (field, q) :- FieldInitializerAt(t, p);
    var acc' := acc + [field];
    if !Check(t, q, Comma) then Done(acc', q)
    else if Check(t, q + 1, RightBrace) then Done(acc', q + 1)
    else FieldInitializersAt(t, q + 1, acc')
  }

  /** `enum_variant_creation`, entered on the `::` after the enum name; the value list is optional. */
  function EnumVariantCreationAt(t: seq<Token>, p: nat, enumName: string): (r: Parsed<Expression>)
    requires p <= |t|
    ensures r.Done? ==> p < r.next <= |t| && r.value.EnumVariantCreation? && r.value.enumName == enumName
    ensures r.Done? ==> SurfaceExpression(r.value)
    decreases |t| - p, 0
  {
    var (_, p1) :- Consume(t, p, DoubleColon);
    var (variant, p2) :- ConsumeIdentifier(t, p1);
    if Check(t, p2, LeftParen) then
      var (values, q) :- OptionalListAt(t, p2 + 1, RightParen, true);
      var (_, q') :- Consume(t, q, RightParen);
      Done(EnumVariantCreation(enumName, variant, values), q')
    else Done(EnumVariantCreation(enumName, variant, []), p2)
  }

  // ---------------------------------------------------------------------------
  // Statements and declarations
  // ---------------------------------------------------------------------------

  /**
    `declaration`: nothing at the end or at a `}`, a function after `fn`, a
    variable after `let`, otherwise a statement.
  */
  function DeclarationAt(t: seq<Token>, p: nat): (r: Parsed<Option<Statement>>)
    requires p <= |t|
    ensures r.Done? && r.value.None? ==> r.next == p && AtBlockEnd(t, p)
    ensures r.Done? && r.value.Some? ==> p < r.next <= |t|
    ensures r.Done? && r.value.Some? ==> SurfaceStatement(r.value.value)
    decreases |t| - p, 18
  {
    if AtBlockEnd(t, p) then Done(None, p)
    else if Check(t, p, Fn) then
      var (s, q) :- FunctionDeclarationAt(t, p + 1);
      Done(Some(s), q)
    else if Check(t, p, Let) then
      var (s, q) :- VarDeclarationAt(t, p + 1);
      Done(Some(s), q)
    else StatementAt(t, p)
  }

  /**
    `statement`: nothing at the end or at a `}`; the keyword statements; a
    `{` that opens a bare block (which then reads a second `{`); otherwise an
    expression followed by `;`.
  */
  function StatementAt(t: seq<Token>, p: nat): (r: Parsed<Option<Statement>>)
    requires p <= |t|
    ensures r.Done? && r.value.None? ==> r.next == p && AtBlockEnd(t, p)
    ensures r.Done? && r.value.Some? ==> p < r.next <= |t|
    ensures r.Done? && r.value.Some? ==> SurfaceStatement(r.value.value)
    decreases |t| - p, 17
  {
    if AtBlockEnd(t, p) then Done(None, p)
    else if Check(t, p, Token.If) then
      var (s, q) :- IfStatementAt(t, p + 1);
      Done(Some(s), q)
    else if Check(t, p, Token.While) then
      var (s, q) :- WhileStatementAt(t, p + 1);
      Done(Some(s), q)
    else if Check(t, p, Token.For) then
      var (s, q) :- ForStatementAt(t, p + 1);
      Done(Some(s), q)
    else if Check(t, p, Token.Break) then
      var (_, q) :- Consume(t, p + 1, Semi);
      Done(Some(Statement.Break), q)
    else if Check(t, p, Token.Continue) then
      var (_, q) :- Consume(t, p + 1, Semi);
      Done(Some(Statement.Continue), q)
    else StatementRestAt(t, p)
  }

  /** The rest of `statement`'s choices: `unsafe`, `import`, a bare block, or an expression statement. */
  function StatementRestAt(t: seq<Token>, p: nat): (r: Parsed<Option<Statement>>)
    requires p <= |t|
    ensures r.Done? ==> r.value.Some? && p < r.next <= |t|
    ensures r.Done? && r.value.Some? ==> SurfaceStatement(r.value.value)
    decreases |t| - p, 16
  {
    if Check(t, p, Unsafe) then
      var (_, p1) :- Consume(t, p + 1, LeftBrace);
      var (body, q) :- BlockContentsAt(t, p1);
      Done(Some(UnsafeBlock(body)), q)
    else if Check(t, p, Token.Import) then
      var (moduleName, p1) :- ConsumeIdentifier(t, p + 1);
      if Check(t, p1, As) then
        var (alias, q) :- ConsumeIdentifier(t, p1 + 1);
        Done(Some(ImportAs(moduleName, alias)), q)
      else Done(Some(Statement.Import(moduleName)), p1)
    else if Check(t, p, LeftBrace) then
      var (s, q) :- BlockAt(t, p + 1);
      Done(Some(s), q)
    else
      var (e, p1) :- ExpressionAt(t, p);
      var (_, q) :- Consume(t, p1, Semi);
      Done(Some(Statement.Expression(e)), q)
  }

  /** `block`, entered after the `{` that `statement` matched: it reads another `{`. */
  function BlockAt(t: seq<Token>, p: nat): (r: Parsed<Statement>)
    requires p <= |t|
    ensures r.Done? ==> p < r.next <= |t| && r.value.Block?
    ensures r.Done? ==> SurfaceStatement(r.value)
    decreases |t| - p, 0
  {
    var (_, p1) :- Consume(t, p, LeftBrace);
    var (body, q) :- BlockContentsAt(t, p1);
    Done(Block(body), q)
  }

  /** The loop of `parse_block_contents`: declarations up to a `}` or the end. */
  function BlockLoopAt(t: seq<Token>, p: nat, acc: seq<Statement>): (r: Parsed<seq<Statement>>)
    requires p <= |t|
    ensures r.Done? ==> p <= r.next <= |t| && AtBlockEnd(t, r.next)
    ensures r.Done? && AllSurfaceStatements(acc) ==> AllSurfaceStatements(r.value)
    decreases |t| - p, 19
  {
    if AtBlockEnd(t, p) then Done(acc, p)
    else
      var (s, q) :- DeclarationAt(t, p);
      match s
      case None => Done(acc, p)
      case Some(stmt) => BlockLoopAt(t, q, acc + [stmt])
  }

  /** `parse_block_contents`, entered after a `{`: the declarations, then the closing `}`. */
  function BlockContentsAt(t: seq<Token>, p: nat): (r: Parsed<seq<Statement>>)
    requires p <= |t|
    ensures r.Done? ==> p < r.next <= |t| && t[r.next - 1] == RightBrace
    ensures r.Done? ==> AllSurfaceStatements(r.value)
    decreases |t| - p, 20
  {
    var (body, q) :- BlockLoopAt(t, p, []);
    var (_, q') :- Consume(t, q, RightBrace);
    Done(body, q')
  }

  /** `function_declaration`, entered after `fn`. */
  function FunctionDeclarationAt(t: seq<Token>, p: nat): (r: Parsed<Statement>)
    requires p <= |t|
    ensures r.Done? ==> p < r.next <= |t| && r.value.Function?
    ensures r.Done? ==> SurfaceStatement(r.value)
    decreases |t| - p, 0
  {
    var (name, p1) :- ConsumeIdentifier(t, p);
    var (_, p2) :- Consume(t, p1, LeftParen);
    var (parameters, p3) :- ParameterListAt(t, p2);
    var (_, p4) :- Consume(t, p3, RightParen);
    var (returnType, p5) :- AnnotationAt(t, p4, Arrow, Type.Void);
    var (_, p6) :- Consume(t, p5, LeftBrace);
    var (body, q) :- BlockContentsAt(t, p6);
    Done(Statement.Function(Function.Function(name, parameters, returnType, body)), q)
  }

  /** The parameters before the `)`: none when the cursor is already on it. */
  function ParameterListAt(t: seq<Token>, p: nat): (r: Parsed<seq<(string, Type)>>)
    requires p <= |t|
    ensures r.Done? ==> p <= r.next <= |t|
    decreases |t| - p, 1
  {
    if Check(t, p, RightParen) then Done([], p) else ParametersAt(t, p, [])
  }

  /** The parameter list: `name` or `name: type`, comma separated, a trailing comma allowed. */
  function ParametersAt(t: seq<Token>, p: nat, acc: seq<(string, Type)>): (r: Parsed<seq<(string, Type)>>)
    requires p <= |t|
    ensures r.Done? ==> p < r.next <= |t|
    decreases |t| - p, 0
  {
    var (parameter, p2) :- ParameterAt(t, p);
    var acc' := acc + [parameter];
    if !Check(t, p2, Comma) then Done(acc', p2)
    else if Check(t, p2 + 1, RightParen) then Done(acc', p2 + 1)
    else ParametersAt(t, p2 + 1, acc')
  }

  /** One parameter: its name and, after a `:`, its type (`Unknown` without one). */
  function ParameterAt(t: seq<Token>, p: nat): (r: Parsed<(string, Type)>)
    requires p <= |t|
    ensures r.Done? ==> p < r.next <= |t| && t[p] == Identifier(r.value.0)
  {
    var (name, p1) :- ConsumeIdentifier(t, p);
    var (ty, q) :- AnnotationAt(t, p1, Colon, Unknown);
    Done((name, ty), q)
  }

  /**
    A type annotation introduced by `lead` (`:` or `->`), or `default` when
    there is none or its type name is not known.
  */
  function AnnotationAt(t: seq<Token>, p: nat, lead: Token, default: Type): (r: Parsed<Type>)
    requires p <= |t|
    ensures r.Done? ==> p <= r.next <= |t|
    ensures !Check(t, p, lead) ==> r == Done(default, p)
  {
    if Check(t, p, lead) then
      var (ty, q) :- ParseTypeAt(t, p + 1);
      Done(ty.GetOr(default), q)
    else Done(default, p)
  }

  /** `var_declaration`, entered after `let`: a name, an optional type, `=`, a value and `;`. */
  function VarDeclarationAt(t: seq<Token>, p: nat): (r: Parsed<Statement>)
    requires p <= |t|
    ensures r.Done? ==> p < r.next <= |t| && r.value.VariableDeclaration?
    ensures r.Done? ==> SurfaceStatement(r.value)
    decreases |t| - p, 0
  {
    var (name, p1) :- ConsumeIdentifier(t, p);
    var (explicitType, p2) :- if Check(t, p1, Colon) then ParseTypeAt(t, p1 + 1) else Done(None, p1);
    var (_, p3) :- Consume(t, p2, Equals);
    var (value, p4) :- ExpressionAt(t, p3);
    var (_, q) :- Consume(t, p4, Semi);
    Done(Statement.VariableDeclaration(name, value, explicitType), q)
  }

  /** `if_statement`, entered after `if`: condition, body, any `elif` branches, an optional `else`. */
  function IfStatementAt(t: seq<Token>, p: nat): (r: Parsed<Statement>)
    requires p <= |t|
    ensures r.Done? ==> p < r.next <= |t| && r.value.If?
    ensures r.Done? ==> SurfaceStatement(r.value)
    decreases |t| - p, 14
  {
    var (condition, p1) :- ExpressionAt(t, p);
    var (_, p2) :- Consume(t, p1, LeftBrace);
    var (thenBranch, p3) :- BlockContentsAt(t, p2);
    var (elifs, p4) :- ElifBranchesAt(t, p3, []);
    var (elseBranch, q) :- ElseBranchAt(t, p4);
    Done(Statement.If(condition, thenBranch, elifs, elseBranch), q)
  }

  /** The optional `else { ... }` of an `if` statement. */
  function ElseBranchAt(t: seq<Token>, p: nat): (r: Parsed<ElseBranch>)
    requires p <= |t|
    ensures r.Done? ==> p <= r.next <= |t|
    ensures r.Done? ==> (r.value.ElseBranch? <==> Check(t, p, Else))
    ensures r.Done? && r.value.ElseBranch? ==> AllSurfaceStatements(r.value.body)
    decreases |t| - p, 0
  {
    if Check(t, p, Else) then
      var (_, p1) :- Consume(t, p + 1, LeftBrace);
      var (body, q) :- BlockContentsAt(t, p1);
      Done(ElseBranch(body), q)
    else Done(NoElse, p)
  }

  /** The `elif` loop of `if_statement`. */
  function ElifBranchesAt(t: seq<Token>, p: nat, acc: seq<ElifBranch>)
    : (r: Parsed<seq<ElifBranch>>)
    requires p <= |t|
    ensures r.Done? ==> p <= r.next <= |t| && !Check(t, r.next, Elif)
    ensures r.Done? && AllSurfaceBranches(acc) ==> AllSurfaceBranches(r.value)
    decreases |t| - p, 0
  {
    if Check(t, p, Elif) then
      var (branch, q) :- ElifBranchAt(t, p + 1);
      ElifBranchesAt(t, q, acc + [branch])
    else Done(acc, p)
  }

  /** One `elif` branch, entered after the `elif`: its condition and its block. */
  function ElifBranchAt(t: seq<Token>, p: nat): (r: Parsed<ElifBranch>)
    requires p <= |t|
    ensures r.Done? ==> p < r.next <= |t|
    ensures r.Done? ==> SurfaceExpression(r.value.condition) && AllSurfaceStatements(r.value.body)
    decreases |t| - p, 14
  {
    var (condition, p1) :- ExpressionAt(t, p);
    var (_, p2) :- Consume(t, p1, LeftBrace);
    var (body, q) :- BlockContentsAt(t, p2);
    Done(ElifBranch(condition, body), q)
  }

  /** `while_statement`, entered after `while`. */
  function WhileStatementAt(t: seq<Token>, p: nat): (r: Parsed<Statement>)
    requires p <= |t|
    ensures r.Done? ==> p < r.next <= |t| && r.value.While?
    ensures r.Done? ==> SurfaceStatement(r.value)
    decreases |t| - p, 14
  {
    var (condition, p1) :- ExpressionAt(t, p);
    var (_, p2) :- Consume(t, p1, LeftBrace);
    var (body, q) :- BlockContentsAt(t, p2);
    Done(Statement.While(condition, body), q)
  }

  /** `for_statement`, entered after `for`: a name, `in`, the iterable, the body. */
  function ForStatementAt(t: seq<Token>, p: nat): (r: Parsed<Statement>)
    requires p <= |t|
    ensures r.Done? ==> p < r.next <= |t| && r.value.For?
    ensures r.Done? ==> SurfaceStatement(r.value)
    decreases |t| - p, 0
  {
    var (variable, p1) :- ConsumeIdentifier(t, p);
    var (_, p2) :- Consume(t, p1, In);
    var (iterable, p3) :- ExpressionAt(t, p2);
    var (_, p4) :- Consume(t, p3, LeftBrace);
    var (body, q) :- BlockContentsAt(t, p4);
    Done(Statement.For(variable, iterable, body), q)
  }

  // ---------------------------------------------------------------------------
  // Whole programs
  // ---------------------------------------------------------------------------

  /**
    What `parse` does with a token sequence: the top-level statements, an
    abort, or no answer at all, because a `}` at top level makes `declaration`
    return nothing without moving and the loop spins on it forever.
  */
  datatype ProgramOutcome =
    | Program(statements: seq<Statement>)
    | Panic(error: ParseError)
    | Diverges(at: nat)

  /** The loop of `parse` from position `p`, with the statements collected so far. */
  function ParseFrom(t: seq<Token>, p: nat, acc: seq<Statement>): (r: ProgramOutcome)
    requires p <= |t|
    ensures r.Diverges? ==> p <= r.at < |t| && t[r.at] == RightBrace
    ensures r.Program? && AllSurfaceStatements(acc) ==> AllSurfaceStatements(r.statements)
    decreases |t| - p
  {
    if p == |t| then Program(acc)
    else
      match DeclarationAt(t, p)
      case Abort(err) => Panic(err)
      case Done(None, _) => Diverges(p)
      case Done(Some(s), q) => ParseFrom(t, q, acc + [s])
  }

  /** `Parser::new(tokens).parse()`. */
  function ParseProgram(t: seq<Token>): (r: ProgramOutcome)
    ensures r.Diverges? ==> r.at < |t| && t[r.at] == RightBrace
    ensures r.Program? ==> AllSurfaceStatements(r.statements)
  {
    ParseFrom(t, 0, [])
  }
}
