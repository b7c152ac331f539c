/**
  The abstract syntax tree shared by the parser, the bytecode compiler and the
  builtin-call detector. Every node owns its children (a `Box` or a `Vec` in the
  Rust code), so the datatypes are finite trees and recursion over them is
  structural.
*/
module Ast {
  import opened Wrappers
  import opened Decimal

  /** Type annotations. Only the primitive spellings are ever produced by the parser. */
  datatype Type =
    | Integer
    | Float
    | String
    | Boolean
    | Void
    | Reference(inner: Type)
    | MutableReference(inner: Type)
    | Array(inner: Type, length: nat)
    | DynamicArray(inner: Type)
    | Slice(inner: Type)
    | Pointer(inner: Type)
    | Function(parameterTypes: seq<Type>, resultType: Type)
    | Struct(name: string, fields: seq<(string, Type)>)
    | Enum(name: string, variants: seq<(string, Option<seq<Type>>)>)
    | Generic(name: string)
    | Unknown

  /** Literal payloads. `Float` exists in the tree but the lexer has no float literal. */
  datatype Literal =
    | Integer(i: I64)
    | Float(f: real)
    | String(s: string)
    | Boolean(b: bool)

  /** Five arithmetic and six comparison operators. */
  datatype BinaryOp =
    | Add | Subtract | Multiply | Divide | Modulo
    | Equal | NotEqual | Less | LessEqual | Greater | GreaterEqual
  {
    predicate IsArithmetic() {
      Add? || Subtract? || Multiply? || Divide? || Modulo?
    }
  }

  /** The operators, arithmetic first, each once. */
  function Operators(): (r: seq<BinaryOp>)
    ensures |r| == 11
    ensures forall i, j :: 0 <= i < j < |r| ==> r[i] != r[j]
    ensures forall i :: 0 <= i < |r| ==> (r[i].IsArithmetic() <==> i < 5)
  {
    [Add, Subtract, Multiply, Divide, Modulo, Equal, NotEqual, Less, LessEqual, Greater, GreaterEqual]
  }

  /** No operator is missing from `Operators`: there are exactly eleven. */
  lemma OperatorListed(op: BinaryOp)
    ensures op in Operators()
  {
    var r := Operators();
    match op
    case Add => assert r[0] == op;
    case Subtract => assert r[1] == op;
    case Multiply => assert r[2] == op;
    case Divide => assert r[3] == op;
    case Modulo => assert r[4] == op;
    case Equal => assert r[5] == op;
    case NotEqual => assert r[6] == op;
    case Less => assert r[7] == op;
    case LessEqual => assert r[8] == op;
    case Greater => assert r[9] == op;
    case GreaterEqual => assert r[10] == op;
  }

  datatype Expression =
    | Literal(lit: Literal)
    | Variable(name: string)
    | VariableDeclaration(name: string, value: Expression, explicitType: Option<Type>)
    | Binary(left: Expression, op: BinaryOp, right: Expression)
    | Call(name: string, arguments: seq<Expression>)
    | FormatCall(name: string, formatString: string, arguments: seq<Expression>)
    | ArrayLiteral(elements: seq<Expression>)
    | ArrayAccess(base: Expression, index: Expression)
    | ArrayAssignment(base: Expression, index: Expression, value: Expression)
    | StructDefinition(name: string, fieldTypes: seq<(string, Type)>)
    | StructInitialization(name: string, fieldValues: seq<(string, Expression)>)
    | StructFieldAccess(base: Expression, field: string)
    | StructFieldAssignment(base: Expression, field: string, value: Expression)
    | EnumVariantCreation(enumName: string, variantName: string, values: seq<Expression>)
    | EnumMatch(scrutinee: Expression, arms: seq<(EnumPattern, Expression)>)

  datatype EnumPattern =
    | Variant(name: string, bindings: Option<seq<string>>)
    | Wildcard
    | Literal(lit: Literal)

  datatype Statement =
    | Expression(expr: Expression)
    | VariableDeclaration(name: string, value: Expression, explicitType: Option<Type>)
    | Block(body: seq<Statement>)
    | Function(func: Function)
    | If(condition: Expression, thenBranch: seq<Statement>,
         elifBranches: seq<ElifBranch>, elseBranch: ElseBranch)
    | While(condition: Expression, body: seq<Statement>)
    | For(variable: string, iterable: Expression, body: seq<Statement>)
    | Break
    | Continue
    | UnsafeBlock(body: seq<Statement>)
    | Import(moduleName: string)
    | ImportAs(moduleName: string, alias: string)

  /** One `elif` of an `if`: its condition and its ordered body. */
  datatype ElifBranch = ElifBranch(condition: Expression, body: seq<Statement>)

  /** The optional `else` body of an `if`. */
  datatype ElseBranch = NoElse | ElseBranch(body: seq<Statement>)

  /** A function: its name, ordered (name, type) parameters, return type and ordered body. */
  datatype Function = Function(name: string, parameters: seq<(string, Type)>, returnType: Type, body: seq<Statement>)
}
