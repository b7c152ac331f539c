/**
  The recursive-descent parser as the Rust code has it: an object holding the
  token sequence and a cursor `current` that every production advances.

  Each method returns `Ok` with the value it builds, or `Err` where the Rust
  method panics. Its contract ties the outcome and the new cursor to the
  production of the same name in `ParserSpec`, evaluated at the cursor the
  method started from.
*/
module Parser {
  import opened Wrappers
  import opened Lexer
  import opened ParserSpec
  import A = Ast

  /** The method's result `r` and final cursor `next` are the production's outcome `spec`. */
  ghost predicate Agrees<T>(spec: Parsed<T>, r: Result<T, ParseError>, next: nat) {
    match r
    case Ok(v) => spec == Done(v, next)
    case Err(e) => spec == Abort(e)
  }

  /** One round of the parameter loop, once a parameter has been read and left the cursor at `q`. */
  lemma ParametersStep(t: seq<Token>, p: nat, acc: seq<(string, A.Type)>, parameter: (string, A.Type), q: nat)
    requires p <= |t| && ParameterAt(t, p) == Done(parameter, q)
    ensures !Check(t, q, Comma) ==> ParametersAt(t, p, acc) == Done(acc + [parameter], q)
    ensures Check(t, q, Comma) && Check(t, q + 1, RightParen) ==> ParametersAt(t, p, acc) == Done(acc + [parameter], q + 1)
    ensures Check(t, q, Comma) && !Check(t, q + 1, RightParen) ==>
      ParametersAt(t, p, acc) == ParametersAt(t, q + 1, acc + [parameter])
  {
  }

  class Parser {
    const tokens: seq<Token>
    var current: nat

    predicate Valid()
      reads this
    {
      current <= |tokens|
    }

    constructor(tokens: seq<Token>)
      ensures this.tokens == tokens && current == 0
      ensures Valid()
    {
      this.tokens := tokens;
      current := 0;
    }

    // -------------------------------------------------------------------------
    // Cursor primitives
    // -------------------------------------------------------------------------

    predicate IsAtEnd()
      requires Valid()
      reads this
    {
      current == |tokens|
    }

    predicate Check(tok: Token)
      reads this
    {
      ParserSpec.Check(tokens, current, tok)
    }

    /** `match_token`: step over a token of the variant of `tok` if the cursor is on one. */
    method MatchToken(tok: Token) returns (matched: bool)
      requires Valid()
      modifies this
      ensures Valid()
      ensures matched == old(Check(tok))
      ensures current == if matched then old(current) + 1 else old(current)
    {
      matched := Check(tok);
      if matched {
        current := current + 1;
      }
    }

    method Consume(tok: Token) returns (r: Result<(), ParseError>)
      requires Valid()
      modifies this
      ensures Valid()
      ensures Agrees(ParserSpec.Consume(tokens, old(current), tok), r, current)
    {
      if Check(tok) {
        current := current + 1;
        return Ok(());
      }
      return Err(Expected(tok, TokenAt(tokens, current)));
    }

    method ConsumeIdentifier() returns (r: Result<string, ParseError>)
      requires Valid()
      modifies this
      ensures Valid()
      ensures Agrees(ParserSpec.ConsumeIdentifier(tokens, old(current)), r, current)
    {
      if IsAtEnd() {
        return Err(ExpectedIdentifier(None));
      }
      if tokens[current].Identifier? {
        var name := tokens[current].name;
        current := current + 1;
        return Ok(name);
      }
      return Err(ExpectedIdentifier(Some(tokens[current])));
    }

    /** `parse_type`; `Ok(None)` is the Rust method's `Err`, which its callers replace by a default. */
    method ParseType() returns (r: Result<Option<A.Type>, ParseError>)
      requires Valid()
      modifies this
      ensures Valid()
      ensures Agrees(ParseTypeAt(tokens, old(current)), r, current)
    {
      if IsAtEnd() {
        return Err(UnexpectedEndOfInput);
      }
      match tokens[current]
      case Identifier(name) =>
        current := current + 1;
        return Ok(TypeNamed(name));
      case _ =>
        return Ok(None);
    }

    // -------------------------------------------------------------------------
    // Whole programs, declarations and statements
    // -------------------------------------------------------------------------

    /**
      `parse`. Where the Rust loop would spin forever on a top-level `}` this
      method stops and reports `Diverges` with the cursor left on it.
    */
    method Parse() returns (r: ProgramOutcome)
      requires Valid()
      modifies this
      ensures Valid()
      ensures r == ParseFrom(tokens, old(current), [])
      ensures r.Diverges? ==> r.at == current
    {
      var statements: seq<A.Statement> := [];
      while !IsAtEnd()
        invariant Valid() && old(current) <= current
        invariant ParseFrom(tokens, current, statements) == ParseFrom(tokens, old(current), [])
        decreases |tokens| - current
      {
        var d := Declaration();
        match d
        case Err(e) => return Panic(e);
        case Ok(None) => return Diverges(current);
        case Ok(Some(s)) => statements := statements + [s];
      }
      return Program(statements);
    }

    method Declaration() returns (r: Result<Option<A.Statement>, ParseError>)
      requires Valid()
      modifies this
      ensures Valid()
      ensures Agrees(DeclarationAt(tokens, old(current)), r, current)
      decreases |tokens| - current, 19
    {
      if IsAtEnd() || Check(RightBrace) {
        return Ok(None);
      }
      var m := MatchToken(Fn);
      if m {
        var s :- FunctionDeclaration();
        return Ok(Some(s));
      }
      m := MatchToken(Let);
      if m {
        var s :- VarDeclaration();
        return Ok(Some(s));
      }
      r := Statement();
    }

    method Statement() returns (r: Result<Option<A.Statement>, ParseError>)
      requires Valid()
      modifies this
      ensures Valid()
      ensures Agrees(StatementAt(tokens, old(current)), r, current)
      decreases |tokens| - current, 18
    {
      if Check(RightBrace) || IsAtEnd() {
        return Ok(None);
      }
      if Check(If) || Check(While) || Check(For) {
        r := CompoundStatement();
        return;
      }
      r := JumpStatement();
    }

    /** `if`, `while` or `for`, with the cursor on the keyword. */
    method CompoundStatement() returns (r: Result<Option<A.Statement>, ParseError>)
      requires Valid() && !Check(RightBrace) && !IsAtEnd()
      requires Check(If) || Check(While) || Check(For)
      modifies this
      ensures Valid()
      ensures Agrees(StatementAt(tokens, old(current)), r, current)
      decreases |tokens| - current, 17
    {
      if Check(If) {
        current := current + 1;
        var s :- IfStatement();
        return Ok(Some(s));
      }
      if Check(While) {
        current := current + 1;
        var s :- WhileStatement();
        return Ok(Some(s));
      }
      current := current + 1;
      var s :- ForStatement();
      return Ok(Some(s));
    }

    /** `break;`, `continue;`, or else the rest of `statement`'s choices. */
    method JumpStatement() returns (r: Result<Option<A.Statement>, ParseError>)
      requires Valid() && !Check(RightBrace) && !IsAtEnd()
      requires !Check(If) && !Check(While) && !Check(For)
      modifies this
      ensures Valid()
      ensures Agrees(StatementAt(tokens, old(current)), r, current)
      decreases |tokens| - current, 17
    {
      if Check(Break) {
        current := current + 1;
        var _ :- Consume(Semi);
        return Ok(Some(A.Statement.Break));
      }
      if Check(Continue) {
        current := current + 1;
        var _ :- Consume(Semi);
        return Ok(Some(A.Statement.Continue));
      }
      r := StatementRest();
    }

    /** The rest of `statement`: `unsafe`, `import`, a bare block, or an expression statement. */
    method StatementRest() returns (r: Result<Option<A.Statement>, ParseError>)
      requires Valid()
      modifies this
      ensures Valid()
      ensures Agrees(StatementRestAt(tokens, old(current)), r, current)
      decreases |tokens| - current, 16
    {
      if Check(Unsafe) {
        current := current + 1;
        var _ :- Consume(LeftBrace);
        var body :- ParseBlockContents();
        return Ok(Some(A.UnsafeBlock(body)));
      }
      if Check(Import) {
        current := current + 1;
        var moduleName :- ConsumeIdentifier();
        if Check(As) {
          current := current + 1;
          var alias :- ConsumeIdentifier();
          return Ok(Some(A.ImportAs(moduleName, alias)));
        }
        return Ok(Some(A.Statement.Import(moduleName)));
      }
      if Check(LeftBrace) {
        current := current + 1;
        var s :- Block();
        return Ok(Some(s));
      }
      var e :- Expression();
      var _ :- Consume(Semi);
      return Ok(Some(A.Statement.Expression(e)));
    }

    method FunctionDeclaration() returns (r: Result<A.Statement, ParseError>)
      requires Valid()
      modifies this
      ensures Valid()
      ensures Agrees(FunctionDeclarationAt(tokens, old(current)), r, current)
      decreases |tokens| - current, 0
    {
      var name :- ConsumeIdentifier();
      var _ :- Consume(LeftParen);
      var parameters: seq<(string, A.Type)> := [];
      if !Check(RightParen) {
        parameters :- Parameters();
      }
      var _ :- Consume(RightParen);
      var returnType :- Annotation(Arrow, A.Type.Void);
      var _ :- Consume(LeftBrace);
      var body :- ParseBlockContents();
      return Ok(A.Statement.Function(A.Function.Function(name, parameters, returnType, body)));
    }

    /** The parameter loop of `function_declaration`. */
    method Parameters() returns (r: Result<seq<(string, A.Type)>, ParseError>)
      requires Valid()
      modifies this
      ensures Valid()
      ensures Agrees(ParametersAt(tokens, old(current), []), r, current)
    {
      var parameters: seq<(string, A.Type)> := [];
      while true
        invariant Valid() && old(current) <= current
        invariant ParametersAt(tokens, current, parameters) == ParametersAt(tokens, old(current), [])
        decreases |tokens| - current
      {
        var more;
        r, more := ParameterRound(parameters);
        if !more {
          return;
        }
        parameters := r.value;
      }
    }

    /**
      One round of the parameter loop: a parameter, then a comma. The loop goes
      on (`more`) only after a comma that is not followed by `)`.
    */
    method ParameterRound(acc: seq<(string, A.Type)>) returns (r: Result<seq<(string, A.Type)>, ParseError>, more: bool)
      requires Valid()
      modifies this
      ensures Valid() && (more ==> old(current) < current)
      ensures !more ==> Agrees(ParametersAt(tokens, old(current), acc), r, current)
      ensures more ==> r.Ok? && ParametersAt(tokens, current, r.value) == ParametersAt(tokens, old(current), acc)
    {
      ghost var p := current;
      more := false;
      var parameter :- Parameter();
      ghost var q := current;
      ParametersStep(tokens, p, acc, parameter, q);
      var m := MatchToken(Comma);
      r := Ok(acc + [parameter]);
      more := m && !Check(RightParen);
    }

    /** One parameter: its name and, after a `:`, its type. */
    method Parameter() returns (r: Result<(string, A.Type), ParseError>)
      requires Valid()
      modifies this
      ensures Valid()
      ensures Agrees(ParameterAt(tokens, old(current)), r, current)
    {
      var name :- ConsumeIdentifier();
      var ty :- Annotation(Colon, A.Type.Unknown);
      return Ok((name, ty));
    }

    /**
      A type annotation introduced by `lead`: its type, or `default` when there
      is no annotation or `parse_type` does not know the name.
    */
    method Annotation(lead: Token, default: A.Type) returns (r: Result<A.Type, ParseError>)
      requires Valid()
      modifies this
      ensures Valid()
      ensures Agrees(AnnotationAt(tokens, old(current), lead, default), r, current)
    {
      if !Check(lead) {
        return Ok(default);
      }
      current := current + 1;
      var parsed :- ParseType();
      return Ok(parsed.GetOr(default));
    }

    method VarDeclaration() returns (r: Result<A.Statement, ParseError>)
      requires Valid()
      modifies this
      ensures Valid()
      ensures Agrees(VarDeclarationAt(tokens, old(current)), r, current)
      decreases |tokens| - current, 0
    {
      var name :- ConsumeIdentifier();
      var explicitType :- ExplicitType();
      var _ :- Consume(Equals);
      var value :- Expression();
      var _ :- Consume(Semi);
      return Ok(A.Statement.VariableDeclaration(name, value, explicitType));
    }

    /** The optional `: type` of a `let`: `None` without a `:`, otherwise what `parse_type` finds. */
    method ExplicitType() returns (r: Result<Option<A.Type>, ParseError>)
      requires Valid()
      modifies this
      ensures Valid()
      ensures var p := old(current);
        Agrees(if ParserSpec.Check(tokens, p, Colon) then ParseTypeAt(tokens, p + 1) else Done(None, p), r, current)
    {
      if !Check(Colon) {
        return Ok(None);
      }
      current := current + 1;
      r := ParseType();
    }

    /** `parse_block_contents`, entered after a `{`. */
    method ParseBlockContents() returns (r: Result<seq<A.Statement>, ParseError>)
      requires Valid()
      modifies this
      ensures Valid()
      ensures Agrees(BlockContentsAt(tokens, old(current)), r, current)
      decreases |tokens| - current, 20
    {
      var statements: seq<A.Statement> := [];
      while !Check(RightBrace) && !IsAtEnd()
        invariant Valid() && old(current) <= current
        invariant BlockLoopAt(tokens, current, statements) == BlockLoopAt(tokens, old(current), [])
        decreases |tokens| - current
      {
        var d :- Declaration();
        match d
        case None => break;
        case Some(s) => statements := statements + [s];
      }
      var _ :- Consume(RightBrace);
      return Ok(statements);
    }

    /** `block`, entered after the `{` that `Statement` matched. */
    method Block() returns (r: Result<A.Statement, ParseError>)
      requires Valid()
      modifies this
      ensures Valid()
      ensures Agrees(BlockAt(tokens, old(current)), r, current)
      decreases |tokens| - current, 0
    {
      var _ :- Consume(LeftBrace);
      var body :- ParseBlockContents();
      return Ok(A.Block(body));
    }

    method IfStatement() returns (r: Result<A.Statement, ParseError>)
      requires Valid()
      modifies this
      ensures Valid()
      ensures Agrees(IfStatementAt(tokens, old(current)), r, current)
      decreases |tokens| - current, 14
    {
      var condition :- Expression();
      var _ :- Consume(LeftBrace);
      var thenBranch :- ParseBlockContents();
      var elifs :- ElifBranches();
      var elseBranch :- ElseBranch();
      return Ok(A.Statement.If(condition, thenBranch, elifs, elseBranch));
    }

    /** The `elif` loop of `if_statement`. */
    method ElifBranches() returns (r: Result<seq<A.ElifBranch>, ParseError>)
      requires Valid()
      modifies this
      ensures Valid()
      ensures Agrees(ElifBranchesAt(tokens, old(current), []), r, current)
      decreases |tokens| - current, 0
    {
      var elifs: seq<A.ElifBranch> := [];
      while Check(Elif)
        invariant Valid() && old(current) <= current
        invariant ElifBranchesAt(tokens, current, elifs) == ElifBranchesAt(tokens, old(current), [])
        decreases |tokens| - current
      {
        ghost var p, acc := current, elifs;
        current := current + 1;
        var branch :- ElifBranch();
        elifs := elifs + [branch];
        assert ElifBranchesAt(tokens, p, acc) == ElifBranchesAt(tokens, current, elifs);
      }
      return Ok(elifs);
    }

    /** One `elif` branch, entered after the `elif`. */
    method ElifBranch() returns (r: Result<A.ElifBranch, ParseError>)
      requires Valid()
      modifies this
      ensures Valid()
      ensures Agrees(ElifBranchAt(tokens, old(current)), r, current)
      decreases |tokens| - current, 14
    {
      var condition :- Expression();
      var _ :- Consume(LeftBrace);
      var body :- ParseBlockContents();
      return Ok(A.ElifBranch(condition, body));
    }

    /** The optional `else` branch of `if_statement`. */
    method ElseBranch() returns (r: Result<A.ElseBranch, ParseError>)
      requires Valid()
      modifies this
      ensures Valid()
      ensures Agrees(ElseBranchAt(tokens, old(current)), r, current)
      decreases |tokens| - current, 0
    {
      var m := MatchToken(Else);
      if !m {
        return Ok(A.NoElse);
      }
      var _ :- Consume(LeftBrace);
      var body :- ParseBlockContents();
      return Ok(A.ElseBranch(body));
    }

    method WhileStatement() returns (r: Result<A.Statement, ParseError>)
      requires Valid()
      modifies this
      ensures Valid()
      ensures Agrees(WhileStatementAt(tokens, old(current)), r, current)
      decreases |tokens| - current, 14
    {
      var condition :- Expression();
      var _ :- Consume(LeftBrace);
      var body :- ParseBlockContents();
      return Ok(A.Statement.While(condition, body));
    }

    method ForStatement() returns (r: Result<A.Statement, ParseError>)
      requires Valid()
      modifies this
      ensures Valid()
      ensures Agrees(ForStatementAt(tokens, old(current)), r, current)
      decreases |tokens| - current, 0
    {
      var variable :- ConsumeIdentifier();
      var _ :- Consume(In);
      var iterable :- Expression();
      var _ :- Consume(LeftBrace);
      var body :- ParseBlockContents();
      return Ok(A.Statement.For(variable, iterable, body));
    }

    // -------------------------------------------------------------------------
    // Expressions
    // -------------------------------------------------------------------------

    method Expression() returns (r: Result<A.Expression, ParseError>)
      requires Valid()
      modifies this
      ensures Valid()
      ensures Agrees(ExpressionAt(tokens, old(current)), r, current)
      decreases |tokens| - current, 13
    {
      r := Assignment();
    }

    method Assignment() returns (r: Result<A.Expression, ParseError>)
      requires Valid()
      modifies this
      ensures Valid()
      ensures Agrees(AssignmentAt(tokens, old(current)), r, current)
      decreases |tokens| - current, 12
    {
      var e :- BinaryLevel(0);
      var _ := MatchToken(Equals);
      return Ok(e);
    }

    /**
      `equality` (level 0), `comparison` (1), `term` (2) and `factor` (3): one
      operand, then one more operand for each operator of the level, folded
      to the left.
    */
    method BinaryLevel(k: nat) returns (r: Result<A.Expression, ParseError>)
      requires Valid() && k <= 3
      modifies this
      ensures Valid()
      ensures Agrees(BinaryAt(tokens, old(current), k), r, current)
      decreases |tokens| - current, 11 - 2 * k
    {
      var expr :- Operand(k);
      while OperatorAt(tokens, current, k).Some?
        invariant Valid() && old(current) < current
        invariant BinaryRestAt(tokens, current, expr, k) == BinaryAt(tokens, old(current), k)
        decreases |tokens| - current
      {
        var op := OperatorAt(tokens, current, k).value;
        current := current + 1;
        var right :- Operand(k);
        expr := A.Binary(expr, op, right);
      }
      return Ok(expr);
    }

    /** The operand of ladder level `k`. */
    method Operand(k: nat) returns (r: Result<A.Expression, ParseError>)
      requires Valid() && k <= 3
      modifies this
      ensures Valid()
      ensures Agrees(OperandAt(tokens, old(current), k), r, current)
      decreases |tokens| - current, 10 - 2 * k
    {
      if k < 3 {
        r := BinaryLevel(k + 1);
      } else {
        r := Unary();
      }
    }

    method Unary() returns (r: Result<A.Expression, ParseError>)
      requires Valid()
      modifies this
      ensures Valid()
      ensures Agrees(UnaryAt(tokens, old(current)), r, current)
      decreases |tokens| - current, 3
    {
      r := Call();
    }

    method Call() returns (r: Result<A.Expression, ParseError>)
      requires Valid()
      modifies this
      ensures Valid()
      ensures Agrees(CallAt(tokens, old(current)), r, current)
      decreases |tokens| - current, 2
    {
      var expr :- Primary();
      while PostfixStart(tokens, current)
        invariant Valid() && old(current) < current
        invariant CallRestAt(tokens, current, expr) == CallAt(tokens, old(current))
        decreases |tokens| - current
      {
        expr :- Postfix(expr);
      }
      return Ok(expr);
    }

    /** One round of the `call` loop on the expression built so far. */
    method Postfix(expr: A.Expression) returns (r: Result<A.Expression, ParseError>)
      requires Valid() && PostfixStart(tokens, current)
      modifies this
      ensures Valid()
      ensures Agrees(PostfixAt(tokens, old(current), expr), r, current)
      decreases |tokens| - current, 0
    {
      var m := MatchToken(LeftParen);
      if m {
        r := FinishCall(expr);
        return;
      }
      if Check(LeftBracket) {
        r := IndexAccess(expr);
        return;
      }
      current := current + 1;
      r := FieldAccess(expr);
    }

    /** The indexing case of the `call` loop, with the cursor on the `[`. */
    method IndexAccess(expr: A.Expression) returns (r: Result<A.Expression, ParseError>)
      requires Valid() && Check(LeftBracket) && !Check(LeftParen)
      modifies this
      ensures Valid()
      ensures Agrees(PostfixAt(tokens, old(current), expr), r, current)
      decreases |tokens| - current, 0, 0
    {
      current := current + 1;
      var index :- Expression();
      var _ :- Consume(RightBracket);
      return Ok(A.ArrayAccess(expr, index));
    }

    /** The field-access case of the `call` loop, entered after the `.`. */
    method FieldAccess(expr: A.Expression) returns (r: Result<A.Expression, ParseError>)
      requires Valid()
      modifies this
      ensures Valid()
      ensures Agrees(FieldAccessAt(tokens, old(current), expr), r, current)
    {
      if IsAtEnd() {
        return Err(UnexpectedEndOfInput);
      }
      match tokens[current]
      case Identifier(field) =>
        current := current + 1;
        var _ := MatchToken(LeftParen);
        return Ok(A.StructFieldAccess(expr, field));
      case _ =>
        return Err(ExpectedFieldName(tokens[current]));
    }

    /** The argument loop of `finish_call` and the element loops of array literals and enum values. */
    method ExpressionList(close: Token, trailing: bool) returns (r: Result<seq<A.Expression>, ParseError>)
      requires Valid()
      modifies this
      ensures Valid()
      ensures Agrees(ExpressionListAt(tokens, old(current), [], close, trailing), r, current)
      decreases |tokens| - current, 14
    {
      var items: seq<A.Expression> := [];
      while true
        invariant Valid() && old(current) <= current
        invariant ExpressionListAt(tokens, current, items, close, trailing)
                  == ExpressionListAt(tokens, old(current), [], close, trailing)
        decreases |tokens| - current
      {
        var e :- Expression();
        items := items + [e];
        var m := MatchToken(Comma);
        if !m {
          return Ok(items);
        }
        if trailing && Check(close) {
          return Ok(items);
        }
      }
    }

    /** An optional list before `close`. */
    method OptionalList(close: Token, trailing: bool) returns (r: Result<seq<A.Expression>, ParseError>)
      requires Valid()
      modifies this
      ensures Valid()
      ensures Agrees(OptionalListAt(tokens, old(current), close, trailing), r, current)
      decreases |tokens| - current, 15
    {
      if Check(close) {
        return Ok([]);
      }
      r := ExpressionList(close, trailing);
    }

    /** `finish_call`, entered after the `(`. */
    method FinishCall(callee: A.Expression) returns (r: Result<A.Expression, ParseError>)
      requires Valid()
      modifies this
      ensures Valid()
      ensures Agrees(FinishCallAt(tokens, old(current), callee), r, current)
      decreases |tokens| - current, 16
    {
      var arguments :- OptionalList(RightParen, false);
      var _ :- Consume(RightParen);
      r := CallSite(callee, arguments);
    }

    method Primary() returns (r: Result<A.Expression, ParseError>)
      requires Valid()
      modifies this
      ensures Valid()
      ensures Agrees(PrimaryAt(tokens, old(current)), r, current)
      decreases |tokens| - current, 1
    {
      if current >= |tokens| {
        return Err(UnexpectedEndOfInput);
      }
      var m := MatchToken(LeftBracket);
      if m {
        var elements :- OptionalList(RightBracket, true);
        var _ :- Consume(RightBracket);
        return Ok(A.ArrayLiteral(elements));
      }
      m := MatchToken(LeftParen);
      if m {
        var e :- Expression();
        var _ :- Consume(RightParen);
        return Ok(e);
      }
      r := LiteralOrName();
    }

    /** The cases of `primary` decided by the token itself: a number, a string or a name. */
    method LiteralOrName() returns (r: Result<A.Expression, ParseError>)
      requires Valid() && current < |tokens| && !Check(LeftBracket) && !Check(LeftParen)
      modifies this
      ensures Valid()
      ensures Agrees(PrimaryAt(tokens, old(current)), r, current)
      decreases |tokens| - current, 1, 0
    {
      var tok := tokens[current];
      match tok
      case Number(n) =>
        current := current + 1;
        return Ok(A.Expression.Literal(A.Literal.Integer(n)));
      case String(text) =>
        current := current + 1;
        return Ok(A.Expression.Literal(A.Literal.String(text)));
      case Identifier(name) =>
        r := NamePrimary(name);
      case _ =>
        return Err(ExpectedExpression(tok));
    }

    /** The identifier case of `primary`, with the cursor on the name. */
    method NamePrimary(name: string) returns (r: Result<A.Expression, ParseError>)
      requires Valid() && current < |tokens|
      modifies this
      ensures Valid()
      ensures Agrees(NamePrimaryAt(tokens, old(current), name), r, current)
      decreases |tokens| - current, 0
    {
      if name == "true" {
        current := current + 1;
        return Ok(A.Expression.Literal(A.Literal.Boolean(true)));
      } else if name == "false" {
        current := current + 1;
        return Ok(A.Expression.Literal(A.Literal.Boolean(false)));
      }
      if current + 1 < |tokens| && tokens[current + 1] == LeftBrace {
        current := current + 1;
        r := StructInitialization(name);
        return;
      }
      if current + 1 < |tokens| && tokens[current + 1] == DoubleColon {
        current := current + 1;
        r := EnumVariantCreation(name);
        return;
      }
      current := current + 1;
      return Ok(A.Variable(name));
    }

    /** `struct_initialization`, entered on the `{` after the struct name. */
    method StructInitialization(name: string) returns (r: Result<A.Expression, ParseError>)
      requires Valid()
      modifies this
      ensures Valid()
      ensures Agrees(StructInitializationAt(tokens, old(current), name), r, current)
      decreases |tokens| - current, 0
    {
      var _ :- Consume(LeftBrace);
      var fields: seq<(string, A.Expression)> := [];
      if !Check(RightBrace) {
        fields :- FieldInitializers();
      }
      var _ :- Consume(RightBrace);
      return Ok(A.StructInitialization(name, fields));
    }

    /** One `name: value` pair of a struct initialization. */
    method FieldInitializer() returns (r: Result<(string, A.Expression), ParseError>)
      requires Valid()
      modifies this
      ensures Valid()
      ensures Agrees(FieldInitializerAt(tokens, old(current)), r, current)
      decreases |tokens| - current, 14
    {
      var field :- ConsumeIdentifier();
      var _ :- Consume(Colon);
      var value :- Expression();
      return Ok((field, value));
    }

    /** The `name: value` loop of a struct initialization; a trailing comma is allowed. */
    method FieldInitializers() returns (r: Result<seq<(string, A.Expression)>, ParseError>)
      requires Valid()
      modifies this
      ensures Valid()
      ensures Agrees(FieldInitializersAt(tokens, old(current), []), r, current)
      decreases |tokens| - current, 15
    {
      var fields: seq<(string, A.Expression)> := [];
      while true
        invariant Valid() && old(current) <= current
        invariant FieldInitializersAt(tokens, current, fields) == FieldInitializersAt(tokens, old(current), [])
        decreases |tokens| - current
      {
        ghost var p, acc := current, fields;
        var field :- FieldInitializer();
        fields := fields + [field];
        var m := MatchToken(Comma);
        if !m || Check(RightBrace) {
          assert FieldInitializersAt(tokens, p, acc) == Done(fields, current);
          return Ok(fields);
        }
        assert FieldInitializersAt(tokens, p, acc) == FieldInitializersAt(tokens, current, fields);
      }
    }

    /** `enum_variant_creation`, entered on the `::` after the enum name. */
    method EnumVariantCreation(enumName: string) returns (r: Result<A.Expression, ParseError>)
      requires Valid()
      modifies this
      ensures Valid()
      ensures Agrees(EnumVariantCreationAt(tokens, old(current), enumName), r, current)
      decreases |tokens| - current, 0
    {
      var _ :- Consume(DoubleColon);
      var variant :- ConsumeIdentifier();
      var m := MatchToken(LeftParen);
      if m {
        var values :- OptionalList(RightParen, true);
        var _ :- Consume(RightParen);
        return Ok(A.EnumVariantCreation(enumName, variant, values));
      }
      return Ok(A.EnumVariantCreation(enumName, variant, []));
    }
  }
}
