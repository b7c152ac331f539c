# voltage pipeline, modelled in Dafny

voltage is a small imperative language whose whole pipeline is sequential and closed-world:

1. A logos-generated **lexer** turns source text into tokens. It keeps every matched token and skips unmatched input.
2. A recursive-descent **parser** with one mutable cursor builds the abstract syntax tree (`Type`, `Expression`, `Statement`, `Function`).
3. A **bytecode compiler** lowers one function body into an instruction vector and an append-only constant pool.
4. A **stack virtual machine** runs those instructions with a fetch/dispatch loop over an operand stack and a map of globals.
5. The JIT crate holds three pure predicates that **detect builtin calls** (`print`, `puts`).

This project models each of these stages and proves what it does.

| Dafny file | module | models |
|---|---|---|
| `wrappers.dfy` | `Wrappers` | `Option` and `Result` |
| `decimal.dfy` | `Decimal` | decimal digit strings, the `i64` range |
| `ast.dfy` | `Ast` | the tree datatypes |
| `lexer.dfy` | `Lexer` | the token rules, one scanner step (`ScanFront`), the token sequence (`Lex`), and the `Lexer` object |
| `lexer_facts.dfy` | `LexerFacts` | longest match against the declared rules, round trip with a printer, the unit-test example |
| `parser_spec.dfy` | `ParserSpec` | every production as a pure function of (tokens, cursor) returning `Done(value, next)` or `Abort(error)` |
| `parser.dfy` | `Parser` | the `Parser` object; every method is proved equal to its production |
| `parser_facts.dfy` | `ParserFacts` | precedence, associativity, name disambiguation, the known parser quirks, the integration-test examples |
| `machine.dfy` | `Machine` | bytecode, runtime values, and one instruction and a whole run as pure functions |
| `vm.dfy` | `Vm` | the `VirtualMachine` object; `Run` is proved equal to `RunFrom` |
| `machine_facts.dfy` | `MachineFacts` | arithmetic, equality, globals, builtins, stack effects |
| `lowering.dfy` | `Lowering` | the compiler as pure functions over the two buffers |
| `compiler.dfy` | `Compiler` | the `BytecodeCompiler` object; every method is proved equal to its lowering function |
| `lowering_facts.dfy` | `LoweringFacts` | what is emitted, when compiling fails, stack balance |
| `pipeline_facts.dfy` | `PipelineFacts` | compiled code run on the machine, the end-to-end example |
| `builtin_calls.dfy` | `BuiltinCalls` | the JIT detector, and how it relates to the compiler |

Behaviour of the code a reader might not expect. The model follows the code here.

- **`let` stores nothing.** `let` and expression statements evaluate their value and `Pop` it. `StoreGlobal` is never emitted, and `LoadGlobal` of an unset name pushes `Integer(0)`. So `fn main() { let x = 2; let y = 3; puts("{}", x + y); }` writes `0`, not `5` (`PipelineFacts.SumExampleWritesZero`).
- **No jumps.** `if`, `while` and `for` emit their condition or iterable and each body once, in order. Nothing pops a condition, so these statements leave values on the stack (`LoweringFacts.IfLeavesConditions`, `LoweringFacts.LoopLeavesCondition`).
- **Format strings are never loaded.** A format call adds its string to the pool, then emits only its arguments and `CallBuiltin`.
- **`Return` leaves no frame.** It pops one value and execution continues with the next instruction.
- **`=` after an expression is stepped over.** Its right-hand side is not parsed, so `x = 5;` is an error: `5` is found where `;` should be.
- **A bare block needs two braces.** `statement` consumes one `{` and `block` consumes another.
- **A stray top-level `}` makes `parse` spin forever.** The model reports this as the outcome `Diverges(at)`.
- **A name followed by `{` is a struct initialization.** This holds in every position, so the `{` that should open an `if` or `while` body is taken as part of the condition.
- **The builtin-call detector does not look into arguments.** It misses `foo(puts(1))`, which the compiler does lower to `CallBuiltin`. The JIT ignores the detector's answer, so nothing depends on it.
- **Some failures are Rust panics, not `Err` values.** These are `expect` on a parse result, indexing past the end of the tokens, a `LoadConst` past the end of the pool, and an `i64` overflow in a debug build. The model returns them as explicit failure values: `Abort`/`Panic` in the parser, and `ConstantOutOfRange`/`IntegerOverflow` in the machine.

The model compares tree values with Dafny's structural equality, only in lemmas; the Rust code never compares them, and only `Type` derives `PartialEq`.

## Model

| member | source | states |
|---|---|---|
| Decimal.NatToDecimal | voltage-vm/src/vm.rs:352-361 | the text of a natural number is a non-empty digit string, of length one exactly for values below 10 |
| Decimal.IntToDecimal | voltage-vm/src/vm.rs:352-361 | an `i64` is written as its magnitude's digits, with a leading `-` exactly when it is negative |
| Decimal.DecimalRoundTrip | voltage-parser/src/lexer.rs:119-120 | reading back the digits written for `n` gives `n` |
| Ast.Operators | voltage-core/src/lib.rs:97-110 | eleven distinct operators, the five arithmetic ones first |
| Ast.OperatorListed | voltage-core/src/lib.rs:97-110 | no operator is missing from the list of eleven |
| Lexer.RunEnd | voltage-parser/src/lexer.rs:116-125 | the end of a character-class run: every character before it belongs to the class and the one at it does not |
| Lexer.StringEnd | voltage-parser/src/lexer.rs:122-123 | a closed string literal ends strictly after its opening quote and within the text |
| Lexer.PunctuationScan | voltage-parser/src/lexer.rs:44-114 | a punctuation step consumes one or two characters and never runs past the text |
| Lexer.ScanFront | voltage-parser/src/lexer.rs:5-126 | every scanner step consumes at least one character, so the scan makes progress |
| Lexer.Lexer.constructor | voltage-parser/src/lexer.rs:136-153 | the loop stores exactly `Lex(source)`: every matched token in source order, with whitespace and unmatched characters dropped; it never fails |
| Lexer.Lexer.Tokenize | voltage-parser/src/lexer.rs:155-157 | returns exactly the token sequence of the source, unchanged |
| LexerFacts.StringEndIsStringRule | voltage-parser/src/lexer.rs:122-123 | the scanner closes a string at `m` exactly when the text up to `m` ends in a quote and its inside matches `([^"\\]\|\\.)*` |
| LexerFacts.StringWordPrefix | voltage-parser/src/lexer.rs:122-123 | a quote-led prefix is a string literal exactly when the scanner closes the string there; quotes and escapes are kept raw |
| LexerFacts.KeywordIsIdentifierWord | voltage-parser/src/lexer.rs:5-42 | every keyword spelling also matches the identifier rule, so keyword priority matters |
| LexerFacts.PunctuationShape | voltage-parser/src/lexer.rs:44-114 | punctuation spellings are one or two characters and start with no letter, digit, quote or whitespace |
| LexerFacts.RuleTokenOfIdentifierStart | voltage-parser/src/lexer.rs:5-117 | for a word that starts with a letter or `_`, only a keyword or the identifier rule can match, the keyword first |
| LexerFacts.RuleTokenOfDigitStart | voltage-parser/src/lexer.rs:119-120 | for a word that starts with a digit, only the number rule can match |
| LexerFacts.RuleTokenOfWhitespaceStart | voltage-parser/src/lexer.rs:125-126 | for a word that starts with whitespace, only the skipped whitespace rule can match |
| LexerFacts.RuleTokenOfQuoteStart | voltage-parser/src/lexer.rs:122-123 | for a word that starts with a quote, only the string rule can match |
| LexerFacts.RuleTokenOfOtherStart | voltage-parser/src/lexer.rs:44-114 | for any other first character, only a punctuation spelling can match |
| LexerFacts.PunctuationScanIsLongest | voltage-parser/src/lexer.rs:44-114 | the punctuation step emits the token of the spelling it consumed and no longer spelling matches (`==`, `->`, `::`, `>=`, `<=`, `!=` win over their prefixes); a lone `!` is unmatched |
| LexerFacts.ScanIsLongestMatch | voltage-parser/src/lexer.rs:5-126 | each scanner step takes the longest prefix some declared rule matches, the literal spelling winning over the identifier rule (so `in` is `In` but `int` is `Identifier`), and skips one character when no rule matches |
| LexerFacts.RuleTokenWellFormed | voltage-parser/src/lexer.rs:116-123 | whatever the rules make of a word is a well-formed token (no `Whitespace` token, no empty or malformed payload) |
| LexerFacts.LexWellFormed | voltage-parser/src/lexer.rs:136-153 | every token the lexer keeps is well formed; no whitespace token is ever kept |
| LexerFacts.WhitespaceHasNoTokens | voltage-parser/src/lexer.rs:125-126 | a run of spaces, tabs, newlines and form feeds produces no token |
| LexerFacts.DigitRunIsOneNumber | voltage-parser/src/lexer.rs:119-120 | a digit run is one `Number` of its decimal value, or `Number(0)` when the value exceeds `i64`; there are no negative literals |
| LexerFacts.RunEndOfWord | voltage-parser/src/lexer.rs:116-125 | a run ends at the first position outside its class |
| LexerFacts.LiteralSpelling | voltage-parser/src/lexer.rs:5-114 | every keyword and punctuation token has a spelling that the rules map back to it |
| LexerFacts.KeywordSpelling | voltage-parser/src/lexer.rs:5-42 | each keyword's spelling maps back to that keyword |
| LexerFacts.PunctuationSpelling | voltage-parser/src/lexer.rs:44-114 | each punctuation token's spelling maps back to it |
| LexerFacts.Spelling | voltage-parser/src/lexer.rs:5-123 | a well-formed token's source text is non-empty and starts with no whitespace |
| LexerFacts.Unlex | voltage-parser/src/lexer.rs:5-123 | printing tokens gives empty text exactly for no tokens |
| LexerFacts.ScanSpelling | voltage-parser/src/lexer.rs:5-126 | a token's spelling followed by a space scans as that token, consuming its spelling |
| LexerFacts.LexUnlex | voltage-parser/src/lexer.rs:136-153 | lexing printed well-formed tokens gives back exactly those tokens |
| LexerFacts.LexEmits | voltage-parser/src/lexer.rs:140-142 | a matched token is kept, in front of the tokens of the rest |
| LexerFacts.LexEquals | voltage-parser/src/lexer.rs:44-84 | an `=` not followed by `=` is the assignment token |
| LexerFacts.LexWord | voltage-parser/src/lexer.rs:5-117 | an identifier-shaped word followed by a non-identifier character is its keyword, or an `Identifier` of its text |
| LexerFacts.MainExampleTokens | voltage-parser/src/lexer.rs:164-181 | `fn main() { let x = 1; }` lexes to exactly `Fn, Identifier("main"), (, ), {, Let, Identifier("x"), Equals, Number(1), Semi, }` |
| ParserSpec.Consume | voltage-parser/src/parser.rs:592-604 | succeeds exactly when `check` holds, advancing by one; otherwise fails with the expected token and the one found (none at the end) |
| ParserSpec.ConsumeIdentifier | voltage-parser/src/parser.rs:606-617 | succeeds exactly on an identifier, returning its name and advancing by one; otherwise fails naming the token found |
| ParserSpec.ParseTypeAt | voltage-parser/src/parser.rs:201-219 | fails exactly at the end of input; an identifier is always consumed and gives its type or none for an unknown name; any other token gives none without moving |
| ParserSpec.ExpressionAt | voltage-parser/src/parser.rs:250-252 | a parsed expression consumes at least one token and is one of the forms the parser builds |
| ParserSpec.AssignmentAt | voltage-parser/src/parser.rs:254-263 | consumes at least one token |
| ParserSpec.BinaryAt | voltage-parser/src/parser.rs:265-357 | each level of the equality/comparison/term/factor ladder consumes at least one token |
| ParserSpec.OperandAt | voltage-parser/src/parser.rs:265-357 | an operand of a level consumes at least one token |
| ParserSpec.BinaryRestAt | voltage-parser/src/parser.rs:265-357 | the operator loop of a level never moves the cursor back |
| ParserSpec.UnaryAt | voltage-parser/src/parser.rs:359-361 | consumes at least one token |
| ParserSpec.CallAt | voltage-parser/src/parser.rs:363-401 | consumes at least one token |
| ParserSpec.PostfixAt | voltage-parser/src/parser.rs:363-401 | one call, index or field round consumes at least one token |
| ParserSpec.FieldAccessAt | voltage-parser/src/parser.rs:377-394 | a field access is a `StructFieldAccess` of the base and the identifier under the cursor |
| ParserSpec.CallRestAt | voltage-parser/src/parser.rs:363-401 | the call loop stops only where no `(`, `[` or `.` follows |
| ParserSpec.CallSite | voltage-parser/src/parser.rs:403-441 | calling a non-name fails; a call to `puts`/`print` whose first argument is a string literal containing `{}` becomes `FormatCall` with that string and the remaining arguments; every other call is `Call` with all arguments |
| ParserSpec.ExpressionListAt | voltage-parser/src/parser.rs:403-468 | a comma-separated list consumes at least one token |
| ParserSpec.OptionalListAt | voltage-parser/src/parser.rs:403-468 | an optional list never moves the cursor back |
| ParserSpec.FinishCallAt | voltage-parser/src/parser.rs:403-441 | consumes at least one token |
| ParserSpec.PrimaryAt | voltage-parser/src/parser.rs:443-522 | consumes at least one token |
| ParserSpec.NamePrimaryAt | voltage-parser/src/parser.rs:489-518 | consumes at least one token |
| ParserSpec.StructInitializationAt | voltage-parser/src/parser.rs:524-554 | builds a `StructInitialization` carrying the name |
| ParserSpec.FieldInitializerAt | voltage-parser/src/parser.rs:524-554 | a field initializer starts with its field's identifier |
| ParserSpec.FieldInitializersAt | voltage-parser/src/parser.rs:524-554 | consumes at least one token |
| ParserSpec.EnumVariantCreationAt | voltage-parser/src/parser.rs:556-590 | builds an `EnumVariantCreation` carrying the enum name |
| ParserSpec.DeclarationAt | voltage-parser/src/parser.rs:26-45 | returns no statement only without moving, at the end or at a `}`; a statement consumes at least one token |
| ParserSpec.StatementAt | voltage-parser/src/parser.rs:47-108 | same progress guarantee as a declaration |
| ParserSpec.StatementRestAt | voltage-parser/src/parser.rs:74-107 | the remaining statement forms always give a statement and consume at least one token |
| ParserSpec.BlockAt | voltage-parser/src/parser.rs:241-248 | a block is a `Block` statement and consumes at least one token |
| ParserSpec.BlockLoopAt | voltage-parser/src/parser.rs:223-238 | the statement loop stops only at the end or at a `}` |
| ParserSpec.BlockContentsAt | voltage-parser/src/parser.rs:223-238 | block contents end just after a `}` |
| ParserSpec.FunctionDeclarationAt | voltage-parser/src/parser.rs:110-169 | builds a `Function` statement and consumes at least one token |
| ParserSpec.ParameterListAt | voltage-parser/src/parser.rs:116-142 | never moves the cursor back |
| ParserSpec.ParametersAt | voltage-parser/src/parser.rs:116-142 | the parameter loop consumes at least one token |
| ParserSpec.ParameterAt | voltage-parser/src/parser.rs:118-130 | a parameter starts with its name's identifier |
| ParserSpec.AnnotationAt | voltage-parser/src/parser.rs:121-156 | without its lead token (`:` or `->`) an annotation is the default and does not move |
| ParserSpec.VarDeclarationAt | voltage-parser/src/parser.rs:171-199 | builds a `VariableDeclaration` and consumes at least one token |
| ParserSpec.IfStatementAt | voltage-parser/src/parser.rs:660-691 | builds an `If` and consumes at least one token |
| ParserSpec.ElseBranchAt | voltage-parser/src/parser.rs:660-691 | there is an else body exactly when the cursor is on `else` |
| ParserSpec.ElifBranchesAt | voltage-parser/src/parser.rs:660-691 | the elif loop stops only where no `elif` follows |
| ParserSpec.ElifBranchAt | voltage-parser/src/parser.rs:660-691 | consumes at least one token |
| ParserSpec.WhileStatementAt | voltage-parser/src/parser.rs:693-702 | builds a `While` and consumes at least one token |
| ParserSpec.ForStatementAt | voltage-parser/src/parser.rs:704-719 | builds a `For` and consumes at least one token |
| ParserSpec.ParseFrom | voltage-parser/src/parser.rs:14-24 | the top-level loop diverges only on a `}` |
| ParserSpec.ParseProgram | voltage-parser/src/parser.rs:14-24 | `parse` diverges only on a stray `}`; otherwise it yields a program or the first failure |
| Parser.ParametersStep | voltage-parser/src/parser.rs:116-142 | after one parameter, the loop stops without a comma, stops after a comma followed by `)`, and otherwise goes on after the comma |
| Parser.Parser.constructor | voltage-parser/src/parser.rs:10-12 | holds the tokens with the cursor at 0 |
| Parser.Parser.MatchToken | voltage-parser/src/parser.rs:619-626 | advances by exactly one when `check` holds and leaves the cursor unchanged otherwise |
| Parser.Parser.Consume | voltage-parser/src/parser.rs:592-604 | result and new cursor are `ParserSpec.Consume` at the old cursor |
| Parser.Parser.ConsumeIdentifier | voltage-parser/src/parser.rs:606-617 | result and new cursor are `ConsumeIdentifier` at the old cursor |
| Parser.Parser.ParseType | voltage-parser/src/parser.rs:201-219 | result and new cursor are `ParseTypeAt` at the old cursor |
| Parser.Parser.Parse | voltage-parser/src/parser.rs:14-24 | the outcome is `ParseFrom` at the old cursor, and on divergence the cursor rests on the `}` |
| Parser.Parser.Declaration | voltage-parser/src/parser.rs:26-45 | result and new cursor are `DeclarationAt` at the old cursor |
| Parser.Parser.Statement | voltage-parser/src/parser.rs:47-108 | result and new cursor are `StatementAt` at the old cursor |
| Parser.Parser.CompoundStatement | voltage-parser/src/parser.rs:49-62 | the `if`/`while`/`for` cases agree with `StatementAt` |
| Parser.Parser.JumpStatement | voltage-parser/src/parser.rs:64-108 | the remaining cases of `statement` agree with `StatementAt` |
| Parser.Parser.StatementRest | voltage-parser/src/parser.rs:74-107 | result and new cursor are `StatementRestAt` at the old cursor |
| Parser.Parser.FunctionDeclaration | voltage-parser/src/parser.rs:110-169 | result and new cursor are `FunctionDeclarationAt` at the old cursor |
| Parser.Parser.Parameters | voltage-parser/src/parser.rs:116-142 | the parameter loop agrees with `ParametersAt` |
| Parser.Parser.ParameterRound | voltage-parser/src/parser.rs:116-142 | one loop round either finishes as `ParametersAt` or leaves a cursor and list from which `ParametersAt` gives the same outcome |
| Parser.Parser.Parameter | voltage-parser/src/parser.rs:118-130 | agrees with `ParameterAt` |
| Parser.Parser.Annotation | voltage-parser/src/parser.rs:121-156 | agrees with `AnnotationAt` |
| Parser.Parser.VarDeclaration | voltage-parser/src/parser.rs:171-199 | agrees with `VarDeclarationAt` |
| Parser.Parser.ExplicitType | voltage-parser/src/parser.rs:176-186 | an optional `: type` of a `let` is read with `ParseTypeAt` after the colon, and is none without a colon |
| Parser.Parser.ParseBlockContents | voltage-parser/src/parser.rs:223-238 | agrees with `BlockContentsAt` |
| Parser.Parser.Block | voltage-parser/src/parser.rs:241-248 | agrees with `BlockAt` |
| Parser.Parser.IfStatement | voltage-parser/src/parser.rs:660-691 | agrees with `IfStatementAt` |
| Parser.Parser.ElifBranches | voltage-parser/src/parser.rs:669-683 | agrees with `ElifBranchesAt` |
| Parser.Parser.ElifBranch | voltage-parser/src/parser.rs:669-683 | agrees with `ElifBranchAt` |
| Parser.Parser.ElseBranch | voltage-parser/src/parser.rs:684-689 | agrees with `ElseBranchAt` |
| Parser.Parser.WhileStatement | voltage-parser/src/parser.rs:693-702 | agrees with `WhileStatementAt` |
| Parser.Parser.ForStatement | voltage-parser/src/parser.rs:704-719 | agrees with `ForStatementAt` |
| Parser.Parser.Expression | voltage-parser/src/parser.rs:250-252 | agrees with `ExpressionAt` |
| Parser.Parser.Assignment | voltage-parser/src/parser.rs:254-263 | agrees with `AssignmentAt` |
| Parser.Parser.BinaryLevel | voltage-parser/src/parser.rs:265-357 | each ladder level agrees with `BinaryAt` |
| Parser.Parser.Operand | voltage-parser/src/parser.rs:265-357 | agrees with `OperandAt` |
| Parser.Parser.Unary | voltage-parser/src/parser.rs:359-361 | agrees with `UnaryAt` |
| Parser.Parser.Call | voltage-parser/src/parser.rs:363-401 | agrees with `CallAt` |
| Parser.Parser.Postfix | voltage-parser/src/parser.rs:363-401 | agrees with `PostfixAt` |
| Parser.Parser.IndexAccess | voltage-parser/src/parser.rs:369-376 | the `[index]` round agrees with `PostfixAt` |
| Parser.Parser.FieldAccess | voltage-parser/src/parser.rs:377-394 | agrees with `FieldAccessAt` |
| Parser.Parser.ExpressionList | voltage-parser/src/parser.rs:403-468 | agrees with `ExpressionListAt` |
| Parser.Parser.OptionalList | voltage-parser/src/parser.rs:403-468 | agrees with `OptionalListAt` |
| Parser.Parser.FinishCall | voltage-parser/src/parser.rs:403-441 | agrees with `FinishCallAt` |
| Parser.Parser.Primary | voltage-parser/src/parser.rs:443-522 | agrees with `PrimaryAt` |
| Parser.Parser.LiteralOrName | voltage-parser/src/parser.rs:478-522 | the number, string, name and fallback cases agree with `PrimaryAt` |
| Parser.Parser.NamePrimary | voltage-parser/src/parser.rs:489-518 | agrees with `NamePrimaryAt` |
| Parser.Parser.StructInitialization | voltage-parser/src/parser.rs:524-554 | agrees with `StructInitializationAt` |
| Parser.Parser.FieldInitializer | voltage-parser/src/parser.rs:524-554 | agrees with `FieldInitializerAt` |
| Parser.Parser.FieldInitializers | voltage-parser/src/parser.rs:524-554 | agrees with `FieldInitializersAt` |
| Parser.Parser.EnumVariantCreation | voltage-parser/src/parser.rs:556-590 | agrees with `EnumVariantCreationAt` |
| ParserFacts.DiscriminantOfPayload | voltage-parser/src/parser.rs:628-634 | the discriminant tells the identifier, number and string variants apart |
| ParserFacts.DiscriminantIsVariant | voltage-parser/src/parser.rs:628-634 | two tokens share a discriminant exactly when they are built by the same constructor |
| ParserFacts.CheckIsDiscriminant | voltage-parser/src/parser.rs:628-634 | `check` is false at the end and otherwise compares discriminants only, ignoring payloads |
| ParserFacts.OperatorLevel | voltage-parser/src/parser.rs:265-357 | each operator token belongs to exactly one ladder level (equality 0 to factor 3), and no other token to any |
| ParserFacts.AtomCall | voltage-parser/src/parser.rs:363-518 | a number, string or plain name not followed by `(`, `[` or `.` is a whole `call` of one token |
| ParserFacts.OperandOfCall | voltage-parser/src/parser.rs:265-357 | a `call` followed by no operator of a higher level is a whole operand of that level |
| ParserFacts.ExpressionOfCall | voltage-parser/src/parser.rs:254-263 | a `call` followed by no operator is a whole expression, and a following `=` is stepped over and nothing more |
| ParserFacts.AssignmentIsEquality | voltage-parser/src/parser.rs:254-263 | an expression is the equality level, unchanged, with one trailing `=` consumed and its right-hand side never parsed |
| ParserFacts.BinaryOfTwo | voltage-parser/src/parser.rs:265-357 | `a op b` at a level is `Binary(a, op, b)` |
| ParserFacts.LeftAssociative | voltage-parser/src/parser.rs:265-357 | operators of one level group to the left: `a op1 b op2 c` is `(a op1 b) op2 c` |
| ParserFacts.TighterOnTheRight | voltage-parser/src/parser.rs:265-357 | a higher-precedence operator on the right binds first: `a + b * c` is `a + (b * c)` |
| ParserFacts.TighterOnTheLeft | voltage-parser/src/parser.rs:265-357 | a higher-precedence operator on the left binds first: `a * b + c` is `(a * b) + c` |
| ParserFacts.NamePrimary | voltage-parser/src/parser.rs:489-518 | `true`/`false` are boolean literals; a name followed by `{` is a struct initialization, by `::` an enum variant, otherwise a variable |
| ParserFacts.NameVariable | voltage-parser/src/parser.rs:514-517 | a name that is not a boolean and is followed by neither `{` nor `::` is `Variable` |
| ParserFacts.UnitEnumVariant | voltage-parser/src/parser.rs:556-590 | `E::V` without `(` is an enum variant with an empty value list |
| ParserFacts.FinishCallOfNonName | voltage-parser/src/parser.rs:403-441 | a call whose callee is not a plain name always fails, whatever its arguments |
| ParserFacts.CallRestKeepsLeftmost | voltage-parser/src/parser.rs:363-401 | the call loop keeps the first operand leftmost and never turns a non-name into a name |
| ParserFacts.BinaryRestKeepsLeftmost | voltage-parser/src/parser.rs:265-357 | the operator loops keep the first operand leftmost and never build a bare name |
| ParserFacts.CallStartsWithStruct | voltage-parser/src/parser.rs:502-505 | a `call` that starts with `n {` starts with the struct initialization of `n` |
| ParserFacts.LadderStartsWithStruct | voltage-parser/src/parser.rs:265-357 | at every ladder level, an expression that starts with `n {` starts with that struct initialization |
| ParserFacts.ConditionSwallowsBrace | voltage-parser/src/parser.rs:250-263 | an expression that starts with `n {` has the struct initialization of `n` leftmost |
| ParserFacts.ConditionIsNotTheName | voltage-parser/src/parser.rs:660-702 | an `if` or `while` whose condition starts with `n {` never has the bare name `n` as its condition |
| ParserFacts.IfLeadingCondition | voltage-parser/src/parser.rs:660-663 | the condition of an `if` is the expression its tokens start with |
| ParserFacts.WhileLeadingCondition | voltage-parser/src/parser.rs:693-696 | the condition of a `while` is the expression its tokens start with |
| ParserFacts.DeclarationIsStatement | voltage-parser/src/parser.rs:26-45 | every token but `fn` and `let` is handed to `statement` |
| ParserFacts.StatementIsRest | voltage-parser/src/parser.rs:47-108 | every token but `}` and the keyword statements reaches the remaining statement choices |
| ParserFacts.ExpressionStatement | voltage-parser/src/parser.rs:100-107 | any other statement is an expression that `;` must follow, else it fails expecting `;` |
| ParserFacts.BareBlockStatement | voltage-parser/src/parser.rs:95-97 | a `{` in statement position is consumed and then `block` reads another `{` |
| ParserFacts.StrayBraceDiverges | voltage-parser/src/parser.rs:14-45 | a `}` where a top-level declaration should start makes `parse` spin there forever |
| ParserFacts.UntypedLet | voltage-parser/src/parser.rs:171-199 | `let n = e;` declares `n` with the value `e` and no explicit type |
| ParserFacts.LetStatement | voltage-parser/src/integration_tests.rs:41-50 | `let x = 123;` parses to the one declaration of `x` with value 123 |
| ParserFacts.ListOfTwo | voltage-parser/src/parser.rs:403-441 | an expression one token long, `,`, and a second expression before `)` are the argument list of those two, in order |
| ParserFacts.AtomsOfTwo | voltage-parser/src/parser.rs:403-441 | two atoms `a, b` before `)` are the argument list `[a, b]` |
| ParserFacts.NonEmptyList | voltage-parser/src/parser.rs:403-441 | a list that does not start on its closing token has at least one element |
| ParserFacts.CallOfTwoAtoms | voltage-parser/src/parser.rs:363-441 | `n(a, b)` is the call site of `n` with arguments `[a, b]` |
| ParserFacts.FormatStatement | voltage-parser/src/parser.rs:403-441 | `puts(s, a);` or `print(s, a);` with `s` containing `{}` is one `FormatCall` keeping `s` as written, with `a` the only argument |
| ParserFacts.FormatCallStatement | voltage-parser/src/integration_tests.rs:65-74 | `puts("value is {}", x);` parses to one format call with that string and the argument `x` |
| ParserFacts.AssignmentLosesValue | voltage-parser/src/parser.rs:254-263 | `x = 5;` fails: the `=` is stepped over and `5` is found where `;` is expected |
| ParserFacts.IfOnBareName | voltage-parser/src/parser.rs:660-691 | `if x { y; }` fails: `x {` starts a struct initialization that wants `:` after `y` |
| ParserFacts.BareBlockNeedsTwoBraces | voltage-parser/src/parser.rs:95-97 | `{ x; }` fails, expecting a second `{` where `x` is |
| ParserFacts.DoubledBraceBlock | voltage-parser/src/parser.rs:95-97 | `{ { x; }` is a program of one block holding `x;` |
| ParserFacts.BalancedBlockDiverges | voltage-parser/src/parser.rs:14-24 | `{ { x; } }` closes the block at the first `}`, and the second makes `parse` spin |
| ParserFacts.LetOfAtom | voltage-parser/src/parser.rs:171-199 | `let n = a;` with `a` one atom token declares `n` with that atom's value, five tokens long |
| ParserFacts.SumLets | voltage-parser/src/parser.rs:171-199 | in the sum program's tokens, `let x = 2;` and `let y = 3;` are the first two statements of the body |
| ParserFacts.SumOperands | voltage-parser/src/parser.rs:313-333 | `x + y` parses to the addition of the two variables and ends before `)` |
| ParserFacts.SumCall | voltage-parser/src/parser.rs:403-441 | `puts("{}", x + y);` is one format call keeping the quoted string, with `x + y` the only argument |
| ParserFacts.BlockLoopStep | voltage-parser/src/parser.rs:223-239 | before `}` the block loop parses one declaration and carries on after it |
| ParserFacts.BlockOfThree | voltage-parser/src/parser.rs:223-239 | three declarations in a row followed by `}` are the block's statements in order, ending after the `}` |
| ParserFacts.SumBlock | voltage-parser/src/parser.rs:223-239 | the body of the sum program is its three statements |
| ParserFacts.FunctionWithoutParameters | voltage-parser/src/parser.rs:110-169 | `n() { … }` without a return annotation is a function of no parameters returning `Void` with that body |
| ParserFacts.ProgramOfFunction | voltage-parser/src/parser.rs:14-45 | tokens made of `fn` and one function declaration reaching the end are the program of that one function |
| ParserFacts.SumExampleParses | voltage-parser/src/parser.rs:14-45 | the tokens of `fn main() { let x = 2; let y = 3; puts("{}", x + y); }` parse to the program of the one function `main` with that body |
| ParserFacts.TypeNamesArePrimitive | voltage-parser/src/parser.rs:201-219 | the known type names (`i32`/`int`, `f64`/`float`, `bool`/`boolean`, `str`/`string`, `void`) stand only for primitive types |
| ParserFacts.AnnotationIsPrimitiveOrDefault | voltage-parser/src/parser.rs:121-156 | a parameter or return annotation is its default (`Unknown` or `Void`) or a primitive type |
| ParserFacts.AnnotationAfterLead | voltage-parser/src/parser.rs:121-156 | after `:`/`->` a known name gives its type, an unknown name is consumed and gives the default, another token gives the default without being consumed, and the end of input aborts |
| Machine.Checked | voltage-vm/src/vm.rs:113-189 | an integer result succeeds exactly within the `i64` range; outside it is the overflow a debug build panics on |
| Machine.BinaryResult | voltage-vm/src/vm.rs:113-241 | `Eq`/`Ne` always give a Boolean of runtime equality or its negation; arithmetic and ordering on anything but two integers or two floats is a type error; ordering of integers compares their values; arithmetic keeps the operands' variant |
| Machine.ExecuteBinary | voltage-vm/src/vm.rs:113-241 | pops the right operand, then the left, and pushes one result: the stack shrinks by exactly one; with fewer than two values it fails with stack underflow; a failure leaves both operands popped |
| Machine.ExecuteOutput | voltage-vm/src/vm.rs:242-249 | `Print`/`Puts` pop one value and write it (with a newline for `Puts`); on an empty stack they fail |
| Machine.ExecuteBuiltin | voltage-vm/src/vm.rs:294-309 | a builtin pops its argument, writes it and pushes `Null`; on an empty stack it fails with stack underflow |
| Machine.ExecuteCall | voltage-vm/src/vm.rs:261-293 | `Call(n)` succeeds exactly when the top of the stack is the string `puts` or `print`, an argument lies under it, and `n` is 1 |
| Machine.ExecuteDataMove | voltage-vm/src/vm.rs:109-336 | loads and stores leave output alone, and only `StoreGlobal` changes the globals |
| Machine.ExecuteEffect | voltage-vm/src/vm.rs:242-319 | output, calls, `Return` and `Pop` leave the globals alone; `Return` and `Pop` always succeed and write nothing |
| Machine.Execute | voltage-vm/src/vm.rs:107-341 | no instruction moves `ip`; only `StoreGlobal` changes the globals; only the output and call instructions write; `Jump`, `JumpIfFalse`, `JumpIfTrue` and `Dup` fail as unsupported |
| Machine.Step | voltage-vm/src/vm.rs:100-106 | every iteration moves `ip` forward by exactly one |
| Machine.Finish | voltage-vm/src/vm.rs:345 | after the loop, `run` returns the popped top of the stack, or `Null` when it is empty |
| Machine.RunFrom | voltage-vm/src/vm.rs:99-346 | `run` always terminates, after at most one iteration per remaining instruction; a successful run ends with `ip` at the end of the code |
| Vm.VirtualMachine.constructor | voltage-vm/src/vm.rs:83-91 | an empty program, stack and global map, with `ip` at 0 |
| Vm.VirtualMachine.LoadBytecode | voltage-vm/src/vm.rs:93-97 | replaces bytecode and constants and resets `ip` to 0, keeping the stack and the globals |
| Vm.VirtualMachine.PopValue | voltage-vm/src/vm.rs:348-350 | on an empty stack it fails with stack underflow; otherwise it returns the top and removes exactly it |
| Vm.VirtualMachine.Run | voltage-vm/src/vm.rs:99-346 | the loop's result and the machine's final state are those of `RunFrom` from its state on entry |
| Vm.VirtualMachine.Execute | voltage-vm/src/vm.rs:107-341 | one iteration's body agrees with `Machine.Execute` |
| Vm.VirtualMachine.Effect | voltage-vm/src/vm.rs:242-319 | agrees with `ExecuteEffect` |
| Vm.VirtualMachine.DataMove | voltage-vm/src/vm.rs:109-336 | agrees with `ExecuteDataMove` |
| Vm.VirtualMachine.Binary | voltage-vm/src/vm.rs:113-241 | agrees with `ExecuteBinary` |
| Vm.VirtualMachine.Builtin | voltage-vm/src/vm.rs:294-309 | agrees with `ExecuteBuiltin` |
| Vm.VirtualMachine.CallByName | voltage-vm/src/vm.rs:261-293 | agrees with `ExecuteCall` |
| MachineFacts.TruncatedDivision | voltage-vm/src/vm.rs:150-189 | integer `/` and `%` truncate toward zero: `a == b * q + r`, with the remainder smaller than the divisor and signed like the dividend |
| MachineFacts.MinimumByMinusOne | voltage-vm/src/vm.rs:150-189 | `i64::MIN / -1` and `i64::MIN % -1` overflow |
| MachineFacts.DivideByZero | voltage-vm/src/vm.rs:156-179 | a zero divisor stops `Div` with "Division by zero" and `Mod` with "Modulo by zero", with the operands popped |
| MachineFacts.ArithmeticOperands | voltage-vm/src/vm.rs:113-189 | arithmetic succeeds only on two integers or two floats, replacing the two operands by the result; a mix is a type error |
| MachineFacts.IntegerArithmeticExact | voltage-vm/src/vm.rs:113-149 | integer `+`, `-`, `*` push the exact result when it fits in `i64` and overflow otherwise |
| MachineFacts.EqualityAlwaysPushesBoolean | voltage-vm/src/vm.rs:190-201 | `Eq` and `Ne` never fail on two operands and push a Boolean, `Ne` the negation of `Eq` |
| MachineFacts.OrderingNeedsNumbers | voltage-vm/src/vm.rs:202-241 | `Lt`/`Gt`/`Le`/`Ge` push a Boolean for two integers or two floats and are a type error otherwise |
| MachineFacts.DifferentVariantsNeverEqual | voltage-vm/src/vm.rs:56-68 | values of different variants are never equal |
| MachineFacts.FunctionsCompareByName | voltage-vm/src/vm.rs:56-68 | function values are equal exactly when their names are |
| MachineFacts.EqualityIsIdentityOnExactValues | voltage-vm/src/vm.rs:56-68 | apart from floats and functions, runtime equality is equality of values |
| MachineFacts.EqualitySymmetric | voltage-vm/src/vm.rs:56-68 | runtime equality is symmetric |
| MachineFacts.EqualityReflexive | voltage-vm/src/vm.rs:56-68 | every value equals itself |
| MachineFacts.FloatEqualityNotTransitive | voltage-vm/src/vm.rs:60 | equality of floats within epsilon is not transitive |
| MachineFacts.DiscardOnEmptyStack | voltage-vm/src/vm.rs:310-319 | `Pop` and `Return` on an empty stack do nothing |
| MachineFacts.ReturnFallsThrough | voltage-vm/src/vm.rs:310-316 | `Return` leaves no frame: the run goes on with the next instruction, minus the popped value |
| MachineFacts.LoadGlobalReadsOrZero | voltage-vm/src/vm.rs:320-332 | `LoadGlobal` pushes the stored value, or `Integer(0)` for a name never stored |
| MachineFacts.StoreThenLoadGlobal | voltage-vm/src/vm.rs:320-336 | `StoreGlobal n; LoadGlobal n` gives back the stored value and keeps it in the globals |
| MachineFacts.RunKeepsGlobals | voltage-vm/src/vm.rs:99-346 | a run of code without `StoreGlobal` leaves the globals as they were |
| MachineFacts.CallBuiltinWrites | voltage-vm/src/vm.rs:294-309 | builtin 0 writes its argument with a newline and 1 without, both leaving `Null`; other ids fail |
| MachineFacts.CallByNameWrites | voltage-vm/src/vm.rs:261-293 | `Call(1)` with `puts`/`print` on top of one argument behaves as that builtin |
| MachineFacts.CallByNameFails | voltage-vm/src/vm.rs:261-293 | a non-string callee, an unknown name, or a builtin name with another argument count fails with its own error |
| MachineFacts.StackEffectExact | voltage-vm/src/vm.rs:107-341 | after a successful instruction the stack height is the old height plus that instruction's effect |
| MachineFacts.BinaryEffect | voltage-vm/src/vm.rs:113-241 | every two-operand instruction takes two values and leaves one |
| MachineFacts.IntegerTextReadsBack | voltage-vm/src/vm.rs:352-361 | what `value_to_string` writes for an integer reads back as that integer |
| Lowering.LiteralValue | voltage-vm/src/compiler.rs:308-315 | every literal maps to the runtime value of the same kind, and never fails |
| Lowering.Opcode | voltage-vm/src/compiler.rs:136-155 | every operator lowers to a two-operand instruction, arithmetic exactly for the arithmetic operators |
| Lowering.PushConstant | voltage-vm/src/compiler.rs:17-22 | adding a constant and loading it only appends to both buffers |
| Lowering.Emit | voltage-vm/src/compiler.rs:40-306 | emitting only appends |
| Lowering.LowerExpression | voltage-vm/src/compiler.rs:122-306 | compiling an expression only appends to both buffers, even when it fails |
| Lowering.LowerCompound | voltage-vm/src/compiler.rs:216-297 | the array, struct and enum forms only append |
| Lowering.LowerExpressions | voltage-vm/src/compiler.rs:156-226 | a list of expressions only appends |
| Lowering.LowerFields | voltage-vm/src/compiler.rs:255-265 | struct field values only append |
| Lowering.LowerField | voltage-vm/src/compiler.rs:258-260 | one field value only appends |
| Lowering.LowerStatement | voltage-vm/src/compiler.rs:40-120 | compiling a statement only appends |
| Lowering.LowerStatements | voltage-vm/src/compiler.rs:24-38 | a statement list only appends |
| Lowering.LowerElifs | voltage-vm/src/compiler.rs:62-80 | the elif branches only append |
| Lowering.LowerFunction | voltage-vm/src/compiler.rs:24-38 | the body is followed by a load of a freshly added `Integer(0)` and `Return`; the result is the whole accumulated buffers |
| LoweringFacts.ExpressionWellEmitted | voltage-vm/src/compiler.rs:122-306 | everything an expression appends is a load, an operator, `Pop`, `Call` or builtin 0/1, never a store or jump, and every `LoadConst` names a constant added with it |
| LoweringFacts.StatementWellEmitted | voltage-vm/src/compiler.rs:40-120 | the same for statements: no `StoreGlobal`, no jump, no unknown builtin, every constant index in range |
| LoweringFacts.StatementsWellEmitted | voltage-vm/src/compiler.rs:24-38 | the same for a statement list |
| LoweringFacts.FormatStringNeverLoaded | voltage-vm/src/compiler.rs:187-215 | a format call adds its string to the pool and nothing it emits loads that constant |
| LoweringFacts.FunctionRunnable | voltage-vm/src/compiler.rs:24-38 | compiling a function keeps the buffers runnable: every instruction is one the machine has, and every `LoadConst` is in range |
| LoweringFacts.ExpressionCompiles | voltage-vm/src/compiler.rs:122-306 | compiling an expression succeeds exactly when it has no declaration used as an expression, no `puts`/`print` call without exactly one argument, and no format call to another name |
| LoweringFacts.StatementCompiles | voltage-vm/src/compiler.rs:40-120 | compiling a statement succeeds exactly when it holds no nested function and all its expressions compile |
| LoweringFacts.StatementsCompile | voltage-vm/src/compiler.rs:24-38 | a statement list compiles exactly when every statement does |
| LoweringFacts.ExpressionsCompile | voltage-vm/src/compiler.rs:156-226 | a list of expressions compiles exactly when every one does |
| LoweringFacts.ElifsCompile | voltage-vm/src/compiler.rs:62-80 | the elif branches compile exactly when every condition and body statement does |
| LoweringFacts.CompoundCompiles | voltage-vm/src/compiler.rs:216-249 | the array forms compile exactly when their parts do |
| LoweringFacts.FunctionCompiles | voltage-vm/src/compiler.rs:24-38 | `compile_function` fails exactly when some statement of the body does not compile |
| LoweringFacts.SimplePushesOne | voltage-vm/src/compiler.rs:124-177 | literals, variables, operators over them and one-argument `puts`/`print` calls compile and net exactly one value |
| LoweringFacts.SimpleListPushesEach | voltage-vm/src/compiler.rs:156-226 | a list of simple expressions compiles and nets one value per element |
| LoweringFacts.ArrayLiteralLeavesElements | voltage-vm/src/compiler.rs:216-226 | an array literal of `n` simple elements nets `n + 1` values |
| LoweringFacts.ArrayAccessLeavesThree | voltage-vm/src/compiler.rs:227-235 | an index of a simple base by a simple index nets three values |
| LoweringFacts.FieldAccessLeavesTwo | voltage-vm/src/compiler.rs:266-274 | a field access on a simple base nets two values |
| LoweringFacts.BinaryLowering | voltage-vm/src/compiler.rs:136-155 | a binary expression emits its left operand's code, then its right operand's, then exactly one opcode, and compiles exactly when both operands do |
| LoweringFacts.LiteralValueInjective | voltage-vm/src/compiler.rs:308-315 | different literals give different runtime values |
| LoweringFacts.OpcodeInjective | voltage-vm/src/compiler.rs:136-155 | different operators give different opcodes |
| LoweringFacts.OpcodeOnto | voltage-vm/src/compiler.rs:136-155 | an instruction is a binary one exactly when it is the opcode of one of the eleven operators, and only listed operators map to it |
| LoweringFacts.BalancedStatement | voltage-vm/src/compiler.rs:42-53 | `e;` and `let x = e;` emit `e` and exactly one `Pop`, leaving the stack height unchanged |
| LoweringFacts.BalancedStatements | voltage-vm/src/compiler.rs:24-53 | a list of such statements leaves the stack height unchanged |
| LoweringFacts.LoopLeavesCondition | voltage-vm/src/compiler.rs:81-96 | with no jump and no pop of the condition, a `while` or `for` leaves its condition or iterable on the stack |
| LoweringFacts.IfLeavesConditions | voltage-vm/src/compiler.rs:62-80 | an `if` leaves one value per condition: its own and one per `elif` |
| LoweringFacts.ElifsLeaveConditions | voltage-vm/src/compiler.rs:66-75 | balanced elif branches with simple conditions net one value per branch |
| Compiler.BytecodeCompiler.constructor | voltage-vm/src/compiler.rs:10-15 | both buffers start empty |
| Compiler.BytecodeCompiler.AddConstant | voltage-vm/src/compiler.rs:17-22 | returns the pool length before insertion, appends exactly that value and leaves earlier entries and the code unchanged |
| Compiler.BytecodeCompiler.CompileFunction | voltage-vm/src/compiler.rs:24-38 | the new buffers are `LowerFunction` of the old ones; on success it returns copies of the whole buffers, otherwise the error |
| Compiler.BytecodeCompiler.CompileStatements | voltage-vm/src/compiler.rs:24-38 | the loop over statements agrees with `LowerStatements`, stopping at the first error |
| Compiler.BytecodeCompiler.CompileStatement | voltage-vm/src/compiler.rs:40-120 | agrees with `LowerStatement` |
| Compiler.BytecodeCompiler.CompileIf | voltage-vm/src/compiler.rs:62-80 | agrees with `LowerStatement` on an `if` |
| Compiler.BytecodeCompiler.CompileLoop | voltage-vm/src/compiler.rs:81-96 | agrees with `LowerStatement` on `while` and `for` |
| Compiler.BytecodeCompiler.CompileElifs | voltage-vm/src/compiler.rs:66-75 | agrees with `LowerElifs` |
| Compiler.BytecodeCompiler.CompileExpressions | voltage-vm/src/compiler.rs:156-226 | agrees with `LowerExpressions` |
| Compiler.BytecodeCompiler.CompileFields | voltage-vm/src/compiler.rs:255-265 | agrees with `LowerFields` |
| Compiler.BytecodeCompiler.CompileField | voltage-vm/src/compiler.rs:258-260 | agrees with `LowerField` |
| Compiler.BytecodeCompiler.LoadConstant | voltage-vm/src/compiler.rs:124-128 | adds the value to the pool and appends a load of its index |
| Compiler.BytecodeCompiler.CompileExpression | voltage-vm/src/compiler.rs:122-306 | agrees with `LowerExpression` |
| Compiler.BytecodeCompiler.CompileCompound | voltage-vm/src/compiler.rs:216-297 | agrees with `LowerCompound` |
| Compiler.BytecodeCompiler.CompileBinary | voltage-vm/src/compiler.rs:136-155 | agrees with `LowerExpression` on a binary expression |
| Compiler.BytecodeCompiler.CompileCall | voltage-vm/src/compiler.rs:156-186 | agrees with `LowerExpression` on a call |
| Compiler.BytecodeCompiler.CompileFormatCall | voltage-vm/src/compiler.rs:187-215 | agrees with `LowerExpression` on a format call |
| PipelineFacts.RunnableNeverFaultsAsCompiler | voltage-vm/src/vm.rs:99-346 | running runnable code never stops on an unsupported opcode, an unknown builtin or a missing constant |
| PipelineFacts.CompiledFunctionNeverFaultsAsCompiler | voltage-vm/src/compiler.rs:24-38 | running a freshly compiled function never ends in one of those compiler faults |
| PipelineFacts.UserCallLowering | voltage-vm/src/compiler.rs:156-186 | a call to anything but `puts`/`print` compiles exactly when its arguments do, ending with a load of the callee's name and `Call(n)` |
| PipelineFacts.UserCallFails | voltage-vm/src/vm.rs:261-293 | once the machine reaches such a load and call, the run fails with "Unknown function" |
| PipelineFacts.NameWellFormed | voltage-parser/src/lexer.rs:116-117 | the names of the sum program are identifier tokens the lexer can produce |
| PipelineFacts.FormatWellFormed | voltage-parser/src/lexer.rs:122-123 | the quoted `"{}"` is a string token the lexer can produce |
| PipelineFacts.SumTokenPayload | voltage-parser/src/lexer.rs:116-126 | each token of the sum program carries a listed name, a non-negative number or the quoted format string, and none is whitespace |
| PipelineFacts.SumTokenWellFormed | voltage-parser/src/lexer.rs:116-126 | each token of the sum program is one the lexer can produce |
| PipelineFacts.SumExampleParses | voltage-parser/src/parser.rs:14-45 | the sum program printed with a space after each token lexes back to its tokens and parses to the program of `SumExample`, the tree the compiler is given |
| PipelineFacts.SumExampleCompiles | voltage-vm/src/compiler.rs:24-53 | the tree `SumExample` of `fn main() { let x = 2; let y = 3; puts("{}", x + y); }`, with the format string keeping its quotes as the lexer's string token does, compiles to exactly eleven instructions and four constants |
| PipelineFacts.RunTrace | voltage-vm/src/vm.rs:99-346 | a run through a chain of successful steps that ends past the code finishes as its last state does |
| PipelineFacts.SumExampleWritesZero | voltage-vm/src/vm.rs:99-346 | on a fresh machine that program writes `0` and a newline, not `5`, returns `Null` and leaves no globals |
| BuiltinCalls.AnyStatementExists | voltage-jit/src/lib.rs:72-91 | the search loop over statements succeeds exactly when some statement has a builtin call |
| BuiltinCalls.AnyElifExists | voltage-jit/src/lib.rs:94-125 | the elif loop succeeds exactly when some branch's condition or body has one |
| BuiltinCalls.FunctionExists | voltage-jit/src/lib.rs:72-79 | a function has builtin calls exactly when one of its top-level statements has one |
| BuiltinCalls.BlockExists | voltage-jit/src/lib.rs:84-156 | a block or unsafe block has one exactly when some statement inside has one |
| BuiltinCalls.LoopExists | voltage-jit/src/lib.rs:126-147 | a `while` or `for` has one exactly when its condition or iterable, or some body statement, has one |
| BuiltinCalls.IfExists | voltage-jit/src/lib.rs:94-125 | an `if` has one exactly when its condition, a then-statement, an elif condition or body statement, or an else-statement has one |
| BuiltinCalls.Operands | voltage-jit/src/lib.rs:165-174 | the leaves of a tree of binary operators: at least one, none of them binary |
| BuiltinCalls.ExpressionExists | voltage-jit/src/lib.rs:165-174 | an expression has a builtin call exactly when one of its operator-tree leaves is a `Call`/`FormatCall` of `print` or `puts`; every other form counts as none |
| BuiltinCalls.DetectedCallsCompileToBuiltin | voltage-jit/src/lib.rs:165-174 | every builtin call the detector reports is compiled to a `CallBuiltin` when the expression compiles |
| BuiltinCalls.DetectorMissesArguments | voltage-jit/src/lib.rs:167-168 | the converse fails: `foo(puts(1))` has no detected builtin call, yet compiles to `CallBuiltin(0)` |

## Left out

- IEEE floating point. `Float` payloads are exact `real`s, so rounding, NaN, infinities and the float remainder's edge cases are not modelled. The text of a float (`f64::to_string`) is a parameter, `floatText`. The parser never produces a float literal.
- The debug `println!`/`eprintln!` output of the lexer, compiler and machine. Standard output from `Print`, `Puts` and the builtins is modelled as a log of values written, with or without a newline.
- Panic messages. A `panic!`, `expect` or out-of-bounds index in the parser is an explicit `Abort`/`Panic` outcome carrying what was expected and what was found, not the message text.
- `usize` widths. Stack, cursor and index sizes are unbounded `nat`s; memory exhaustion is not modelled.
- The logos automaton itself. Tokenization is specified by the declared rules (longest match, literal spelling before the identifier rule), and each failing scan skips exactly one character. The width of the span logos skips on an error is not modelled.
- `Parser::advance_if_identifier` (unused) and `previous_token`/`current_token` (folded into the productions as direct reads of the token sequence).
- `TypedExpression`, `TypedStatement` and `TypedFunction`, which nothing uses.
- The Cranelift code generation of the JIT (`JitCompiler::new`, `compile_function`, `compile_function_advanced`, `declare_builtins`). It emits constant 0 whatever the detector finds.
- The command-line driver, the REPL, the lexer debug binary and the demo `main` of the VM crate (file reading, argument parsing, standard input, printing). That demo runs its own sample program (`voltage-vm/src/main.rs:7`), which is not modelled; the sum program of `PipelineFacts.SumExampleParses`, `SumExampleCompiles` and `SumExampleWritesZero` is a different one.
- PipelineFacts.SumExampleParses: starts from the program printed with one space after every token (`fn main ( ) { let x = 2 ; … }`), not from the single-line text as written. The text as written is not proved to lex to the same tokens; lexing character by character is proved only for the shorter `fn main() { let x = 1; }` (`LexerFacts.MainExampleTokens`), since a longer concrete text is beyond the solver's resource limit.
- SumExampleCompiles: is stated on the tree `SumExample`; it reaches the source text only through `PipelineFacts.SumExampleParses` and its spaced print.
- Machine.RunFrom: the loop is a function of the state, so aliasing between the VM object and its stack is not modelled.
