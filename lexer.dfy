/**
  The token vocabulary and the best-effort tokenizer.

  The Rust lexer is generated from declarative rules: one literal spelling per
  keyword and punctuation token, plus four regular expressions (identifier,
  number, string, whitespace). At each position the generated scanner takes the
  longest prefix that some rule matches; when a literal spelling and the
  identifier rule match the same prefix, the literal wins. `ScanFront` decides
  one step of that scan and `ScanIsLongestMatch` proves it against the rules
  written out independently (`RuleToken`). `Lex` strings the steps together,
  keeping matched tokens, dropping whitespace and skipping unmatched input.
*/
module Lexer {
  import opened Wrappers
  import opened Decimal

  datatype Token =
    // keywords
    | Fn | Let | If | Else | Elif | For | While | Break | Continue | In | Unsafe | Import | As
    // punctuation
    | Equals | Colon | LeftParen | RightParen | LeftBrace | RightBrace | Semi | Comma | Arrow
    | Greater | GreaterEqual | Less | LessEqual | Equal | NotEqual
    | Plus | Minus | Star | Slash | Percent | LeftBracket | RightBracket | Dot | DoubleColon
    // regular-expression tokens
    | Identifier(name: string)
    | Number(value: I64)
    | String(text: string)
    | Whitespace

  // ---------------------------------------------------------------------------
  // Character classes of the four regular expressions
  // ---------------------------------------------------------------------------

  /** `[a-zA-Z_]` */
  predicate IsIdentStart(c: char) {
    ('a' <= c <= 'z') || ('A' <= c <= 'Z') || c == '_'
  }

  /** `[a-zA-Z0-9_]` */
  predicate IsIdentChar(c: char) {
    IsIdentStart(c) || IsDigit(c)
  }

  /** `[ \t\n\f]`: carriage return is not whitespace here. */
  predicate IsWhitespace(c: char) {
    c == ' ' || c == '\t' || c == '\n' || c == '\U{000C}'
  }

  predicate IsIdentifierWord(w: string) {
    |w| > 0 && IsIdentStart(w[0]) && forall i :: 1 <= i < |w| ==> IsIdentChar(w[i])
  }

  predicate IsNumberWord(w: string) {
    |w| > 0 && AllDigits(w)
  }

  predicate IsWhitespaceWord(w: string) {
    |w| > 0 && forall i :: 0 <= i < |w| ==> IsWhitespace(w[i])
  }

  /** The inside of a string literal: `([^"\\]|\\.)*`, where `.` is any character but a newline. */
  predicate StringBody(u: string)
    decreases |u|
  {
    |u| == 0
    || (u[0] != '"' && u[0] != '\\' && StringBody(u[1..]))
    || (|u| >= 2 && u[0] == '\\' && u[1] != '\n' && StringBody(u[2..]))
  }

  /** `"([^"\\]|\\.)*"` */
  predicate IsStringWord(w: string) {
    |w| >= 2 && w[0] == '"' && w[|w| - 1] == '"' && StringBody(w[1..|w| - 1])
  }

  // ---------------------------------------------------------------------------
  // The literal spellings
  // ---------------------------------------------------------------------------

  /** The keyword whose literal spelling is exactly `w`, if any. */
  function KeywordToken(w: string): Option<Token> {
    if w == "fn" then Some(Fn)
    else if w == "let" then Some(Let)
    else if w == "if" then Some(If)
    else if w == "else" then Some(Else)
    else if w == "elif" then Some(Elif)
    else if w == "for" then Some(For)
    else if w == "while" then Some(While)
    else if w == "break" then Some(Break)
    else if w == "continue" then Some(Continue)
    else if w == "in" then Some(In)
    else if w == "unsafe" then Some(Unsafe)
    else if w == "import" then Some(Import)
    else if w == "as" then Some(As)
    else None
  }

  /** The punctuation token whose literal spelling is exactly `w`, if any. */
  function PunctuationToken(w: string): Option<Token> {
    if w == "=" then Some(Equals)
    else if w == ":" then Some(Colon)
    else if w == "(" then Some(LeftParen)
    else if w == ")" then Some(RightParen)
    else if w == "{" then Some(LeftBrace)
    else if w == "}" then Some(RightBrace)
    else if w == ";" then Some(Semi)
    else if w == "," then Some(Comma)
    else if w == "->" then Some(Arrow)
    else if w == ">" then Some(Greater)
    else if w == ">=" then Some(GreaterEqual)
    else if w == "<" then Some(Less)
    else if w == "<=" then Some(LessEqual)
    else if w == "==" then Some(Equal)
    else if w == "!=" then Some(NotEqual)
    else if w == "+" then Some(Plus)
    else if w == "-" then Some(Minus)
    else if w == "*" then Some(Star)
    else if w == "/" then Some(Slash)
    else if w == "%" then Some(Percent)
    else if w == "[" then Some(LeftBracket)
    else if w == "]" then Some(RightBracket)
    else if w == "." then Some(Dot)
    else if w == "::" then Some(DoubleColon)
    else None
  }

  /** The value of a `[0-9]+` run: `parse::<i64>()`, or 0 when that fails because the run is too large. */
  function NumberValue(w: string): I64
    requires AllDigits(w)
  {
    var v := DecimalValue(w);
    if v <= I64Max then v else 0
  }

  /**
    What the declared rules make of the word `w` on its own: `None` when no rule
    matches it, `Some(None)` when only the skipped whitespace rule does, and
    `Some(Some(t))` when it is a token `t`. A literal spelling takes priority
    over the identifier rule that also matches it.
  */
  function RuleToken(w: string): Option<Option<Token>> {
    if KeywordToken(w).Some? then Some(KeywordToken(w))
    else if PunctuationToken(w).Some? then Some(PunctuationToken(w))
    else if IsIdentifierWord(w) then Some(Some(Identifier(w)))
    else if IsNumberWord(w) then Some(Some(Number(NumberValue(w))))
    else if IsStringWord(w) then Some(Some(String(w)))
    else if IsWhitespaceWord(w) then Some(None)
    else None
  }

  // ---------------------------------------------------------------------------
  // One step of the scanner
  // ---------------------------------------------------------------------------

  /** One scanner step at the front of the input: a token, a skipped whitespace run, or an unmatched character. */
  datatype Scan =
    | Emit(token: Token, n: nat)
    | Skip(n: nat)
    | Fail(n: nat)

  /** The end of the run of characters from `i` on that satisfy `p`. */
  function RunEnd(src: string, i: nat, p: char -> bool): (e: nat)
    requires i <= |src|
    ensures i <= e <= |src|
    ensures forall k :: i <= k < e ==> p(src[k])
    ensures e == |src| || !p(src[e])
    decreases |src| - i
  {
    if i == |src| || !p(src[i]) then i else RunEnd(src, i + 1, p)
  }

  /** The position just after the closing quote of a string literal whose body starts at `i`, if it is closed. */
  function StringEnd(src: string, i: nat): (e: Option<nat>)
    requires i <= |src|
    ensures e.Some? ==> i < e.value <= |src|
    decreases |src| - i
  {
    if i == |src| then None
    else if src[i] == '"' then Some(i + 1)
    else if src[i] == '\\' then
      if i + 1 < |src| && src[i + 1] != '\n' then StringEnd(src, i + 2) else None
    else StringEnd(src, i + 1)
  }

  /** A punctuation token at the front of `src`; a two-character spelling wins over its one-character prefix. */
  function PunctuationScan(src: string): (s: Scan)
    requires |src| > 0
    ensures 0 < s.n <= 2 && s.n <= |src|
  {
    var c := src[0];
    var second := if |src| > 1 then src[1] else ' ';
    if c == '=' then (if second == '=' then Emit(Equal, 2) else Emit(Equals, 1))
    else if c == ':' then (if second == ':' then Emit(DoubleColon, 2) else Emit(Colon, 1))
    else if c == '-' then (if second == '>' then Emit(Arrow, 2) else Emit(Minus, 1))
    else if c == '>' then (if second == '=' then Emit(GreaterEqual, 2) else Emit(Greater, 1))
    else if c == '<' then (if second == '=' then Emit(LessEqual, 2) else Emit(Less, 1))
    else if c == '!' then (if second == '=' then Emit(NotEqual, 2) else Fail(1))
    else if c == '(' then Emit(LeftParen, 1)
    else if c == ')' then Emit(RightParen, 1)
    else if c == '{' then Emit(LeftBrace, 1)
    else if c == '}' then Emit(RightBrace, 1)
    else if c == ';' then Emit(Semi, 1)
    else if c == ',' then Emit(Comma, 1)
    else if c == '+' then Emit(Plus, 1)
    else if c == '*' then Emit(Star, 1)
    else if c == '/' then Emit(Slash, 1)
    else if c == '%' then Emit(Percent, 1)
    else if c == '[' then Emit(LeftBracket, 1)
    else if c == ']' then Emit(RightBracket, 1)
    else if c == '.' then Emit(Dot, 1)
    else Fail(1)
  }

  /** One step of the scanner at the front of a non-empty input. */
  function ScanFront(src: string): (s: Scan)
    requires |src| > 0
    ensures 0 < s.n <= |src|
  {
    var c := src[0];
    if IsWhitespace(c) then Skip(RunEnd(src, 1, IsWhitespace))
    else if IsIdentStart(c) then
      var e := RunEnd(src, 1, IsIdentChar);
      var w := src[..e];
      Emit(if KeywordToken(w).Some? then KeywordToken(w).value else Identifier(w), e)
    else if IsDigit(c) then
      var e := RunEnd(src, 1, IsDigit);
      Emit(Number(NumberValue(src[..e])), e)
    else if c == '"' then
      match StringEnd(src, 1)
      case Some(e) => Emit(String(src[..e]), e)
      case None => Fail(1)
    else PunctuationScan(src)
  }

  /**
    The token sequence of `src`: every matched token in source order, with
    whitespace runs and unmatched characters left out.
  */
  function Lex(src: string): seq<Token>
    decreases |src|
  {
    if src == [] then []
    else
      match ScanFront(src)
      case Emit(t, n) => [t] + Lex(src[n..])
      case Skip(n) => Lex(src[n..])
      case Fail(n) => Lex(src[n..])
  }

  /**
    The lexer object: the source text and the tokens read from it, kept for
    `Tokenize`.
  */
  class Lexer {
    const source: string
    const tokens: seq<Token>

    ghost predicate Valid()
    {
      tokens == Lex(source)
    }

    /** Scans the whole source once, keeping each token and passing over every failure. */
    constructor(source: string)
      ensures this.source == source
      ensures Valid()
    {
      var pos := 0;
      var acc: seq<Token> := [];
      while pos < |source|
        invariant pos <= |source|
        invariant acc + Lex(source[pos..]) == Lex(source)
        decreases |source| - pos
      {
        var rest := source[pos..];
        match ScanFront(rest)
        case Emit(t, n) =>
          acc := acc + [t];
          pos := pos + n;
          assert rest[n..] == source[pos..];
        case Skip(n) =>
          pos := pos + n;
          assert rest[n..] == source[pos..];
        case Fail(n) =>
          pos := pos + n;
          assert rest[n..] == source[pos..];
      }
      this.source := source;
      this.tokens := acc;
    }

    /** The stored tokens: exactly the tokens of the source, in order. */
    function Tokenize(): (r: seq<Token>)
      requires Valid()
      reads this
      ensures r == Lex(source)
    {
      tokens
    }
  }
}
