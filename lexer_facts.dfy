/**
  What the scanner of `Lexer` is proved to do: it follows the declared rules
  (longest match, literal over identifier), it only ever produces well-formed
  tokens, and printing well-formed tokens with spaces between them and
  scanning the text back gives the same tokens.
*/
module LexerFacts {
  import opened Wrappers
  import opened Decimal
  import opened Lexer

  // ---------------------------------------------------------------------------
  // The string rule
  // ---------------------------------------------------------------------------

  /** `StringEnd` finds exactly the closing quote the string rule allows, and no other end. */
  lemma {:induction false} StringEndIsStringRule(src: string, i: nat, m: nat)
    requires i <= |src| && m <= |src|
    ensures StringEnd(src, i) == Some(m) <==> (i < m && src[m - 1] == '"' && StringBody(src[i..m - 1]))
    decreases |src| - i
  {
    if i == |src| {
    } else if src[i] == '"' {
      if i + 1 < m {
        assert src[i..m - 1][0] == '"';
      }
    } else if src[i] == '\\' {
      if i + 1 < |src| && src[i + 1] != '\n' {
        StringEndIsStringRule(src, i + 2, m);
        if i + 2 < m {
          assert src[i..m - 1][2..] == src[i + 2..m - 1];
        }
      } else if i < m && src[m - 1] == '"' {
        if m - 1 == i {
        } else {
          assert src[i..m - 1][0] == '\\';
          assert !StringBody(src[i..m - 1]);
        }
      }
    } else {
      StringEndIsStringRule(src, i + 1, m);
      if i + 1 < m {
        assert src[i..m - 1][1..] == src[i + 1..m - 1];
      }
    }
  }

  /** A prefix of `src` opening with a quote is a string literal exactly when the scanner closes the string there. */
  lemma StringWordPrefix(src: string, m: nat)
    requires |src| > 0 && src[0] == '"' && m <= |src|
    ensures IsStringWord(src[..m]) <==> StringEnd(src, 1) == Some(m)
  {
    StringEndIsStringRule(src, 1, m);
    if m >= 2 {
      assert src[..m][1..m - 1] == src[1..m - 1];
    }
  }

  // ---------------------------------------------------------------------------
  // Which rules can match a word, judged by its first character
  // ---------------------------------------------------------------------------

  lemma KeywordIsIdentifierWord(w: string)
    requires KeywordToken(w).Some?
    ensures IsIdentifierWord(w) && |w| >= 2
  {
  }

  lemma PunctuationShape(w: string)
    requires PunctuationToken(w).Some?
    ensures 1 <= |w| <= 2
    ensures !IsIdentStart(w[0]) && !IsDigit(w[0]) && w[0] != '"' && !IsWhitespace(w[0])
    ensures w[|w| - 1] != ' '
  {
  }

  /** For a word that starts like an identifier, only the keyword and identifier rules can apply. */
  lemma RuleTokenOfIdentifierStart(v: string)
    requires |v| > 0 && IsIdentStart(v[0])
    ensures RuleToken(v) ==
      if KeywordToken(v).Some? then Some(KeywordToken(v))
      else if IsIdentifierWord(v) then Some(Some(Identifier(v)))
      else None
  {
    if PunctuationToken(v).Some? {
      PunctuationShape(v);
    }
  }

  /** For a word that starts with a digit, only the number rule can apply. */
  lemma RuleTokenOfDigitStart(v: string)
    requires |v| > 0 && IsDigit(v[0])
    ensures RuleToken(v) == if IsNumberWord(v) then Some(Some(Number(NumberValue(v)))) else None
  {
    if KeywordToken(v).Some? {
      KeywordIsIdentifierWord(v);
    }
    if PunctuationToken(v).Some? {
      PunctuationShape(v);
    }
  }

  /** For a word that starts with whitespace, only the (skipped) whitespace rule can apply. */
  lemma RuleTokenOfWhitespaceStart(v: string)
    requires |v| > 0 && IsWhitespace(v[0])
    ensures RuleToken(v) == if IsWhitespaceWord(v) then Some(None) else None
  {
    if KeywordToken(v).Some? {
      KeywordIsIdentifierWord(v);
    }
    if PunctuationToken(v).Some? {
      PunctuationShape(v);
    }
  }

  /** For a word that starts with a quote, only the string rule can apply. */
  lemma RuleTokenOfQuoteStart(v: string)
    requires |v| > 0 && v[0] == '"'
    ensures RuleToken(v) == if IsStringWord(v) then Some(Some(String(v))) else None
  {
    if KeywordToken(v).Some? {
      KeywordIsIdentifierWord(v);
    }
    if PunctuationToken(v).Some? {
      PunctuationShape(v);
    }
  }

  /** For a word that starts with any other character, only a punctuation spelling can apply. */
  lemma RuleTokenOfOtherStart(v: string)
    requires |v| > 0 && !IsWhitespace(v[0]) && !IsIdentStart(v[0]) && !IsDigit(v[0]) && v[0] != '"'
    ensures RuleToken(v) == if PunctuationToken(v).Some? then Some(PunctuationToken(v)) else None
  {
    if KeywordToken(v).Some? {
      KeywordIsIdentifierWord(v);
    }
  }

  /** The punctuation step agrees with the punctuation spellings, and no longer spelling matches. */
  lemma PunctuationScanIsLongest(src: string)
    requires |src| > 0
    ensures match PunctuationScan(src)
      case Emit(t, n) => PunctuationToken(src[..n]) == Some(t)
      case Skip(_) => false
      case Fail(n) => n == 1 && PunctuationToken(src[..1]).None?
    ensures forall m :: PunctuationScan(src).n < m <= |src| ==> PunctuationToken(src[..m]).None?
  {
    forall m | PunctuationScan(src).n < m <= |src|
      ensures PunctuationToken(src[..m]).None?
    {
      assert src[..m][0] == src[0];
      if m == 2 {
        assert src[..m][1] == src[1];
      }
      if PunctuationToken(src[..m]).Some? {
        PunctuationShape(src[..m]);
      }
    }
    if |src| > 1 {
      assert src[..2][0] == src[0] && src[..2][1] == src[1];
    }
  }

  // ---------------------------------------------------------------------------
  // The scanner takes the longest match of the declared rules
  // ---------------------------------------------------------------------------

  /**
    One scanner step consumes the longest prefix that some declared rule
    matches and yields what the rules make of it (a literal spelling before
    the identifier rule); when no rule matches any prefix, one character is
    passed over.
  */
  lemma ScanIsLongestMatch(src: string)
    requires |src| > 0
    ensures match ScanFront(src)
      case Emit(t, n) => RuleToken(src[..n]) == Some(Some(t))
      case Skip(n) => RuleToken(src[..n]) == Some(None)
      case Fail(n) => n == 1 && RuleToken(src[..1]).None?
    ensures forall m :: ScanFront(src).n < m <= |src| ==> RuleToken(src[..m]).None?
  {
    var c := src[0];
    var n := ScanFront(src).n;
    forall m | 0 < m <= |src| ensures src[..m][0] == c { }
    if IsWhitespace(c) {
      RuleTokenOfWhitespaceStart(src[..n]);
      forall m | n < m <= |src| ensures RuleToken(src[..m]).None? {
        RuleTokenOfWhitespaceStart(src[..m]);
        assert src[..m][n] == src[n];
      }
    } else if IsIdentStart(c) {
      RuleTokenOfIdentifierStart(src[..n]);
      forall m | n < m <= |src| ensures RuleToken(src[..m]).None? {
        RuleTokenOfIdentifierStart(src[..m]);
        assert src[..m][n] == src[n];
        if KeywordToken(src[..m]).Some? {
          KeywordIsIdentifierWord(src[..m]);
        }
      }
    } else if IsDigit(c) {
      RuleTokenOfDigitStart(src[..n]);
      forall m | n < m <= |src| ensures RuleToken(src[..m]).None? {
        RuleTokenOfDigitStart(src[..m]);
        assert src[..m][n] == src[n];
      }
    } else if c == '"' {
      StringWordPrefix(src, n);
      RuleTokenOfQuoteStart(src[..n]);
      forall m | n < m <= |src| ensures RuleToken(src[..m]).None? {
        StringWordPrefix(src, m);
        RuleTokenOfQuoteStart(src[..m]);
      }
    } else {
      PunctuationScanIsLongest(src);
      RuleTokenOfOtherStart(src[..n]);
      forall m | n < m <= |src| ensures RuleToken(src[..m]).None? {
        RuleTokenOfOtherStart(src[..m]);
      }
    }
  }

  // ---------------------------------------------------------------------------
  // What the token sequence contains
  // ---------------------------------------------------------------------------

  /**
    A token the lexer can produce: an identifier is an identifier word that is
    not a keyword spelling, a number is never negative (a leading `-` is the
    `Minus` token), a string keeps its quotes and escapes, and whitespace never
    appears.
  */
  predicate WellFormed(t: Token) {
    match t
    case Identifier(n) => IsIdentifierWord(n) && KeywordToken(n).None?
    case Number(v) => v >= 0
    case String(s) => IsStringWord(s)
    case Whitespace => false
    case _ => true
  }

  /** Whatever the rules make of a word is a well-formed token. */
  lemma RuleTokenWellFormed(w: string)
    requires RuleToken(w).Some? && RuleToken(w).value.Some?
    ensures WellFormed(RuleToken(w).value.value)
  {
  }

  /** Every token of the sequence is well formed; in particular no `Whitespace` token is ever kept. */
  lemma {:induction false} LexWellFormed(src: string)
    ensures forall t :: t in Lex(src) ==> WellFormed(t)
    decreases |src|
  {
    if src != [] {
      ScanIsLongestMatch(src);
      match ScanFront(src)
      case Emit(t, n) =>
        RuleTokenWellFormed(src[..n]);
        LexWellFormed(src[n..]);
      case Skip(n) =>
        LexWellFormed(src[n..]);
      case Fail(n) =>
        LexWellFormed(src[n..]);
    }
  }

  /** Text made only of spaces, tabs, newlines and form feeds has no tokens. */
  lemma WhitespaceHasNoTokens(src: string)
    requires IsWhitespaceWord(src)
    ensures Lex(src) == []
  {
    assert ScanFront(src) == Skip(|src|);
    assert src[|src|..] == [];
  }

  /** A run of digits is one `Number` token holding its value, or 0 when the value does not fit in `i64`. */
  lemma DigitRunIsOneNumber(digits: string, rest: string)
    requires IsNumberWord(digits)
    requires rest == [] || !IsDigit(rest[0])
    ensures Lex(digits + rest) ==
      [Number(if DecimalValue(digits) <= I64Max then DecimalValue(digits) else 0)] + Lex(rest)
  {
    var src := digits + rest;
    RunEndOfWord(src, 1, |digits|, IsDigit);
    assert src[..|digits|] == digits;
    assert src[|digits|..] == rest;
  }

  // ---------------------------------------------------------------------------
  // Printing tokens and scanning them back
  // ---------------------------------------------------------------------------

  /** The run of `p`-characters from `i` ends at `e` when every character before `e` satisfies `p` and the one at `e` does not. */
  lemma {:induction false} RunEndOfWord(src: string, i: nat, e: nat, p: char -> bool)
    requires i <= e <= |src|
    requires forall k :: i <= k < e ==> p(src[k])
    requires e == |src| || !p(src[e])
    ensures RunEnd(src, i, p) == e
    decreases e - i
  {
    if i < e {
      RunEndOfWord(src, i + 1, e, p);
    }
  }

  predicate IsKeyword(t: Token) {
    t.Fn? || t.Let? || t.If? || t.Else? || t.Elif? || t.For? || t.While? || t.Break? || t.Continue?
    || t.In? || t.Unsafe? || t.Import? || t.As?
  }

  /** The spelling of a keyword or punctuation token. */
  function LiteralSpelling(t: Token): (s: string)
    requires !t.Identifier? && !t.Number? && !t.String? && !t.Whitespace?
    ensures KeywordToken(s) == Some(t) || PunctuationToken(s) == Some(t)
  {
    if IsKeyword(t) then KeywordSpelling(t) else PunctuationSpelling(t)
  }

  function KeywordSpelling(t: Token): (s: string)
    requires IsKeyword(t)
    ensures KeywordToken(s) == Some(t)
  {
    match t
    case Fn => "fn"
    case Let => "let"
    case If => "if"
    case Else => "else"
    case Elif => "elif"
    case For => "for"
    case While => "while"
    case Break => "break"
    case Continue => "continue"
    case In => "in"
    case Unsafe => "unsafe"
    case Import => "import"
    case As => "as"
  }

  function PunctuationSpelling(t: Token): (s: string)
    requires !IsKeyword(t) && !t.Identifier? && !t.Number? && !t.String? && !t.Whitespace?
    ensures PunctuationToken(s) == Some(t)
  {
    match t
    case Equals => "="
    case Colon => ":"
    case LeftParen => "("
    case RightParen => ")"
    case LeftBrace => "{"
    case RightBrace => "}"
    case Semi => ";"
    case Comma => ","
    case Arrow => "->"
    case Greater => ">"
    case GreaterEqual => ">="
    case Less => "<"
    case LessEqual => "<="
    case Equal => "=="
    case NotEqual => "!="
    case Plus => "+"
    case Minus => "-"
    case Star => "*"
    case Slash => "/"
    case Percent => "%"
    case LeftBracket => "["
    case RightBracket => "]"
    case Dot => "."
    case DoubleColon => "::"
  }

  /** The source text of a well-formed token. */
  function Spelling(t: Token): (s: string)
    requires WellFormed(t)
    ensures |s| > 0 && !IsWhitespace(s[0])
  {
    if t.Identifier? then t.name
    else if t.Number? then NatToDecimal(t.value)
    else if t.String? then t.text
    else
      var s := LiteralSpelling(t);
      assert |s| > 0 && !IsWhitespace(s[0]) by {
        if KeywordToken(s).Some? { KeywordIsIdentifierWord(s); } else { PunctuationShape(s); }
      }
      s
  }

  /** Tokens printed one after another, each followed by a space. */
  function Unlex(ts: seq<Token>): (s: string)
    requires forall t :: t in ts ==> WellFormed(t)
    ensures s == [] <==> ts == []
    ensures s != [] ==> !IsWhitespace(s[0])
  {
    if ts == [] then [] else Spelling(ts[0]) + " " + Unlex(ts[1..])
  }

  /** A word whose characters all satisfy `p`, followed by a space that does not, is one run. */
  lemma RunOfWord(w: string, rest: string, p: char -> bool)
    requires |w| > 0 && (forall k :: 0 <= k < |w| ==> p(w[k])) && !p(' ')
    ensures RunEnd(w + " " + rest, 1, p) == |w| && (w + " " + rest)[..|w|] == w
  {
    var src := w + " " + rest;
    assert forall k :: 0 <= k < |w| ==> src[k] == w[k];
    RunEndOfWord(src, 1, |w|, p);
  }

  /** An identifier-shaped word ends where the next character cannot continue it; it is a keyword or an `Identifier`. */
  lemma ScanWord(w: string, rest: string)
    requires IsIdentifierWord(w)
    requires rest == [] || !IsIdentChar(rest[0])
    ensures ScanFront(w + rest) ==
      Emit(if KeywordToken(w).Some? then KeywordToken(w).value else Identifier(w), |w|)
  {
    var src := w + rest;
    assert forall k :: 0 <= k < |w| ==> src[k] == w[k];
    RunEndOfWord(src, 1, |w|, IsIdentChar);
    assert src[..|w|] == w;
  }

  lemma ScanWordSpelling(w: string, rest: string)
    requires IsIdentifierWord(w)
    ensures ScanFront(w + " " + rest) ==
      Emit(if KeywordToken(w).Some? then KeywordToken(w).value else Identifier(w), |w|)
  {
    assert w + " " + rest == w + (" " + rest);
    ScanWord(w, " " + rest);
  }

  lemma ScanNumberSpelling(v: nat, rest: string)
    requires v <= I64Max
    ensures ScanFront(NatToDecimal(v) + " " + rest) == Emit(Number(v), |NatToDecimal(v)|)
  {
    RunOfWord(NatToDecimal(v), rest, IsDigit);
    DecimalRoundTrip(v);
  }

  lemma ScanStringSpelling(w: string, rest: string)
    requires IsStringWord(w)
    ensures ScanFront(w + " " + rest) == Emit(String(w), |w|)
  {
    var src := w + " " + rest;
    assert src[..|w|] == w;
    StringWordPrefix(src, |w|);
  }

  lemma ScanPunctuationSpelling(w: string, rest: string)
    requires PunctuationToken(w).Some?
    ensures ScanFront(w + " " + rest) == Emit(PunctuationToken(w).value, |w|)
  {
    var src := w + " " + rest;
    PunctuationShape(w);
    assert src[0] == w[0];
    assert src[..|w|] == w;
    PunctuationScanIsLongest(src);
    var n := PunctuationScan(src).n;
    if n == 2 && |w| == 1 {
      assert src[..2] == w + " ";
      PunctuationShape(src[..2]);
      assert false;
    }
  }

  /** A well-formed token's spelling followed by a space scans as that token. */
  lemma ScanSpelling(t: Token, rest: string)
    requires WellFormed(t)
    ensures ScanFront(Spelling(t) + " " + rest) == Emit(t, |Spelling(t)|)
  {
    if t.Identifier? {
      ScanWordSpelling(t.name, rest);
    } else if t.Number? {
      ScanNumberSpelling(t.value, rest);
    } else if t.String? {
      ScanStringSpelling(t.text, rest);
    } else {
      var w := LiteralSpelling(t);
      if KeywordToken(w).Some? {
        KeywordIsIdentifierWord(w);
        ScanWordSpelling(w, rest);
      } else {
        ScanPunctuationSpelling(w, rest);
      }
    }
  }

  /** Printing well-formed tokens with separating spaces and scanning the text gives back the same tokens. */
  lemma {:induction false} LexUnlex(ts: seq<Token>)
    requires forall t :: t in ts ==> WellFormed(t)
    ensures Lex(Unlex(ts)) == ts
  {
    if ts != [] {
      var w := Spelling(ts[0]);
      var rest := Unlex(ts[1..]);
      var src := w + " " + rest;
      ScanSpelling(ts[0], rest);
      assert src[|w|..] == " " + rest;
      var tail := " " + rest;
      RunEndOfWord(tail, 1, 1, IsWhitespace);
      assert tail[1..] == rest;
      LexUnlex(ts[1..]);
    }
  }

  /** The token sequence of a text opens with the token its first scanner step emits. */
  lemma LexEmits(src: string, t: Token, n: nat)
    requires |src| > 0 && ScanFront(src) == Emit(t, n)
    ensures Lex(src) == [t] + Lex(src[n..])
  {
  }

  /** A whitespace run at the front of a text adds no token. */
  lemma LexSkipsSpace(src: string)
    requires |src| > 1 && src[0] == ' ' && !IsWhitespace(src[1])
    ensures Lex(src) == Lex(src[1..])
  {
    RunEndOfWord(src, 1, 1, IsWhitespace);
  }

  /** A one-character punctuation token that no two-character spelling extends. */
  lemma LexSingle(c: char, rest: string)
    requires c in "(){};,"
    ensures Lex([c] + rest) == [PunctuationToken([c]).value] + Lex(rest)
  {
    var src := [c] + rest;
    assert src[0] == c;
    assert ScanFront(src) == PunctuationScan(src);
    assert PunctuationScan(src) == Emit(PunctuationToken([c]).value, 1);
    LexEmits(src, PunctuationToken([c]).value, 1);
    assert src[1..] == rest;
  }

  /** An `=` that is not followed by another `=` is the assignment token. */
  lemma LexEquals(rest: string)
    requires rest == [] || rest[0] != '='
    ensures Lex("=" + rest) == [Equals] + Lex(rest)
  {
    var src := "=" + rest;
    assert src[0] == '=';
    assert ScanFront(src) == PunctuationScan(src);
    assert PunctuationScan(src) == Emit(Equals, 1);
    LexEmits(src, Equals, 1);
    assert src[1..] == rest;
  }

  /** One separating space adds no token. */
  lemma LexSpace(rest: string)
    requires |rest| > 0 && !IsWhitespace(rest[0])
    ensures Lex(" " + rest) == Lex(rest)
  {
    LexSkipsSpace(" " + rest);
    assert (" " + rest)[1..] == rest;
  }

  /** An identifier-shaped word followed by a character that cannot continue it. */
  lemma LexWord(w: string, rest: string)
    requires IsIdentifierWord(w)
    requires rest == [] || !IsIdentChar(rest[0])
    ensures Lex(w + rest) ==
      [if KeywordToken(w).Some? then KeywordToken(w).value else Identifier(w)] + Lex(rest)
  {
    ScanWord(w, rest);
    assert (w + rest)[|w|..] == rest;
  }

  // Steps of the scan of a concrete text, stated at an index of it.

  lemma LexAtSingle(s: string, k: nat)
    requires k < |s| && s[k] in "(){};,"
    ensures Lex(s[k..]) == [PunctuationToken([s[k]]).value] + Lex(s[k + 1..])
  {
    LexSingle(s[k], s[k + 1..]);
    assert s[k..] == [s[k]] + s[k + 1..];
  }

  lemma LexAtSpace(s: string, k: nat)
    requires k + 1 < |s| && s[k] == ' ' && !IsWhitespace(s[k + 1])
    ensures Lex(s[k..]) == Lex(s[k + 1..])
  {
    LexSpace(s[k + 1..]);
    assert s[k..] == " " + s[k + 1..];
  }

  lemma LexAtWord(s: string, k: nat, e: nat)
    requires k <= e <= |s| && IsIdentifierWord(s[k..e]) && (e == |s| || !IsIdentChar(s[e]))
    ensures Lex(s[k..]) ==
      [if KeywordToken(s[k..e]).Some? then KeywordToken(s[k..e]).value else Identifier(s[k..e])] + Lex(s[e..])
  {
    LexWord(s[k..e], s[e..]);
    assert s[k..] == s[k..e] + s[e..];
  }

  lemma LexAtEquals(s: string, k: nat)
    requires k + 1 < |s| && s[k] == '=' && s[k + 1] != '='
    ensures Lex(s[k..]) == [Equals] + Lex(s[k + 1..])
  {
    LexEquals(s[k + 1..]);
    assert s[k..] == "=" + s[k + 1..];
  }

  lemma LexAtDigit(s: string, k: nat)
    requires k + 1 < |s| && s[k] == '1' && !IsDigit(s[k + 1])
    ensures Lex(s[k..]) == [Number(1)] + Lex(s[k + 1..])
  {
    DigitRunIsOneNumber("1", s[k + 1..]);
    assert s[k..] == "1" + s[k + 1..];
    assert DecimalValue("1") == 1 by { assert "1"[..0] == ""; }
  }

  /** `s` spells the example text character by character. */
  predicate SpellsMainExample(s: string) {
    |s| == 24
    && s[0] == 'f' && s[1] == 'n' && s[2] == ' ' && s[3] == 'm' && s[4] == 'a' && s[5] == 'i'
    && s[6] == 'n' && s[7] == '(' && s[8] == ')' && s[9] == ' ' && s[10] == '{' && s[11] == ' '
    && s[12] == 'l' && s[13] == 'e' && s[14] == 't' && s[15] == ' ' && s[16] == 'x' && s[17] == ' '
    && s[18] == '=' && s[19] == ' ' && s[20] == '1' && s[21] == ';' && s[22] == ' ' && s[23] == '}'
  }

  lemma MainExampleFrom23(s: string)
    requires SpellsMainExample(s)
    ensures Lex(s[23..]) == [RightBrace]
  {
    assert s[24..] == [];
    LexAtSingle(s, 23);
  }

  lemma MainExampleFrom21(s: string)
    requires SpellsMainExample(s)
    ensures Lex(s[21..]) == [Semi, RightBrace]
  {
    MainExampleFrom23(s);
    LexAtSpace(s, 22);
    LexAtSingle(s, 21);
  }

  lemma MainExampleFrom20(s: string)
    requires SpellsMainExample(s)
    ensures Lex(s[20..]) == [Number(1), Semi, RightBrace]
  {
    MainExampleFrom21(s);
    LexAtDigit(s, 20);
  }

  lemma MainExampleFrom18(s: string)
    requires SpellsMainExample(s)
    ensures Lex(s[18..]) == [Equals, Number(1), Semi, RightBrace]
  {
    MainExampleFrom20(s);
    LexAtSpace(s, 19);
    LexAtEquals(s, 18);
  }

  lemma MainExampleFrom16(s: string)
    requires SpellsMainExample(s)
    ensures Lex(s[16..]) == [Identifier("x"), Equals, Number(1), Semi, RightBrace]
  {
    MainExampleFrom18(s);
    LexAtSpace(s, 17);
    assert s[16..17] == "x";
    LexAtWord(s, 16, 17);
  }

  lemma MainExampleFrom12(s: string)
    requires SpellsMainExample(s)
    ensures Lex(s[12..]) == [Let, Identifier("x"), Equals, Number(1), Semi, RightBrace]
  {
    MainExampleFrom16(s);
    LexAtSpace(s, 15);
    assert s[12..15] == "let";
    LexAtWord(s, 12, 15);
  }

  lemma MainExampleFrom10(s: string)
    requires SpellsMainExample(s)
    ensures Lex(s[10..]) == [LeftBrace, Let, Identifier("x"), Equals, Number(1), Semi, RightBrace]
  {
    MainExampleFrom12(s);
    LexAtSpace(s, 11);
    LexAtSingle(s, 10);
  }

  lemma MainExampleFrom8(s: string)
    requires SpellsMainExample(s)
    ensures Lex(s[8..]) == [RightParen, LeftBrace, Let, Identifier("x"), Equals, Number(1), Semi, RightBrace]
  {
    MainExampleFrom10(s);
    LexAtSpace(s, 9);
    LexAtSingle(s, 8);
  }

  lemma MainExampleFrom7(s: string)
    requires SpellsMainExample(s)
    ensures Lex(s[7..]) == [LeftParen, RightParen, LeftBrace, Let, Identifier("x"), Equals, Number(1), Semi, RightBrace]
  {
    MainExampleFrom8(s);
    LexAtSingle(s, 7);
  }

  lemma MainExampleFrom3(s: string)
    requires SpellsMainExample(s)
    ensures Lex(s[3..]) == [Identifier("main"), LeftParen, RightParen, LeftBrace, Let, Identifier("x"), Equals, Number(1), Semi, RightBrace]
  {
    MainExampleFrom7(s);
    assert s[3..7] == "main";
    LexAtWord(s, 3, 7);
  }

  lemma MainExampleFrom0(s: string)
    requires SpellsMainExample(s)
    ensures Lex(s) == [Fn, Identifier("main"), LeftParen, RightParen, LeftBrace, Let, Identifier("x"), Equals, Number(1), Semi, RightBrace]
  {
    MainExampleFrom3(s);
    LexAtSpace(s, 2);
    assert s[0..2] == "fn";
    LexAtWord(s, 0, 2);
    assert s[0..] == s;
  }

  /** The source's own unit example: the tokens of a one-line `main`. */
  lemma MainExampleTokens()
    ensures Lex("fn main() { let x = 1; }") ==
      [Fn, Identifier("main"), LeftParen, RightParen, LeftBrace,
       Let, Identifier("x"), Equals, Number(1), Semi, RightBrace]
  {
    var s := "fn main() { let x = 1; }";
    assert SpellsMainExample(s);
    MainExampleFrom0(s);
  }
}


