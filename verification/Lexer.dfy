/** The lexer: a function of the remaining input, and the cursor that computes it. The
    input is a byte string; a byte is a character below 256, which is also how the source
    turns bytes of a literal into characters. */
module Lexer {
  import opened Options
  import opened Ast
  import opened Parser

  datatype LexError =
    | LoneBang
    | UnexpectedByte(c: char)
    | UnterminatedString
    | UnterminatedIdentifier
    | IntegerOverflow

  datatype LexResult = Tokens(tokens: Ast.Tokens) | LexErr(error: LexError)

  /** One token and how many characters it took */
  datatype Scan = Scanned(token: Token, n: nat) | ScanErr(error: LexError)

  // ----- Character classes -----

  predicate IsBlank(c: char) { c == ' ' || c == '\t' || c == '\n' || c == '\r' }

  predicate IsWordStart(c: char) { 'a' <= c <= 'z' || 'A' <= c <= 'Z' || c == '_' }

  predicate IsWordChar(c: char) { IsWordStart(c) || IsDigit(c) }

  predicate AtComment(s: string) { |s| >= 2 && s[0] == '-' && s[1] == '-' }

  function Symbol(c: char): Option<Token> {
    match c
    case '+' => Some(Plus)
    case '-' => Some(Minus)
    case '*' => Some(Star)
    case '/' => Some(Slash)
    case '%' => Some(Percent)
    case '(' => Some(LParen)
    case ')' => Some(RParen)
    case ',' => Some(Comma)
    case '.' => Some(Dot)
    case ';' => Some(Semicolon)
    case '=' => Some(Eq)
    case _ => None
  }

  // ----- Runs of characters -----

  function DropLine(s: string): (t: string)
    ensures |t| <= |s|
    ensures AtComment(s) ==> |t| < |s|
  {
    if s == "" || s[0] == '\n' then s else DropLine(s[1..])
  }

  /** Blanks and comments skipped */
  function SkipBlank(s: string): (t: string)
    ensures |t| <= |s|
    decreases |s|
  {
    if s == "" then s
    else if IsBlank(s[0]) then SkipBlank(s[1..])
    else if AtComment(s) then SkipBlank(DropLine(s))
    else s
  }

  function DigitRun(s: string): (k: nat)
    ensures k <= |s| && AllDigits(s[..k])
  {
    if s == "" || !IsDigit(s[0]) then 0 else 1 + DigitRun(s[1..])
  }

  function WordRun(s: string): (k: nat)
    ensures k <= |s|
  {
    if s == "" || !IsWordChar(s[0]) then 0 else 1 + WordRun(s[1..])
  }

  datatype Body = Body(text: string, n: nat) | Unterminated

  function Cons(c: char, n: nat, b: Body): Body {
    match b case Unterminated => Unterminated case Body(text, m) => Body([c] + text, n + m)
  }

  /** After an opening quote: the literal with '' for a quote, and its length in the input.
      End of input and a NUL byte look alike. */
  function StringBody(s: string): (b: Body)
    ensures b.Body? ==> 0 < b.n <= |s|
    decreases |s|
  {
    if s == "" || s[0] == '\0' then Unterminated
    else if s[0] != '\'' then Cons(s[0], 1, StringBody(s[1..]))
    else if |s| >= 2 && s[1] == '\'' then Cons('\'', 2, StringBody(s[2..]))
    else Body("", 1)
  }

  function QuotedBody(s: string): (b: Body)
    ensures b.Body? ==> 0 < b.n <= |s|
  {
    if s == "" || s[0] == '\0' then Unterminated
    else if s[0] == '"' then Body("", 1)
    else Cons(s[0], 1, QuotedBody(s[1..]))
  }

  function Pow10(k: nat): real { if k == 0 then 1.0 else 10.0 * Pow10(k - 1) }

  lemma Pow10Positive(k: nat)
    ensures Pow10(k) > 0.0
  {
  }

  /** A decimal fraction; the rounding of the source's f64 is not modelled. */
  function FloatValue(whole: string, fraction: string): real
    requires AllDigits(whole) && AllDigits(fraction)
  {
    Pow10Positive(|fraction|);
    Decimal(whole) as real + Decimal(fraction) as real / Pow10(|fraction|)
  }

  // ----- Tokens -----

  function ScanNumber(s: string): (r: Scan)
    requires s != "" && IsDigit(s[0])
    ensures r.Scanned? ==> 0 < r.n <= |s| && (r.token.IntLit? || r.token.FloatLit?)
  {
    var k := DigitRun(s);
    if k + 1 < |s| && s[k] == '.' && IsDigit(s[k + 1]) then
      var m := DigitRun(s[k + 1..]);
      Scanned(FloatLit(FloatValue(s[..k], s[k + 1..][..m])), k + 1 + m)
    else if IsI64(Decimal(s[..k])) then Scanned(IntLit(Decimal(s[..k])), k)
    else ScanErr(IntegerOverflow)
  }

  function ScanComparison(s: string): (r: Scan)
    requires s != "" && s[0] in {'<', '>', '!'}
    ensures r.Scanned? ==> 0 < r.n <= |s| && r.token != Eof
  {
    var next := if |s| >= 2 then s[1] else '\0';
    if next == '=' then Scanned(if s[0] == '<' then LtEq else if s[0] == '>' then GtEq else NotEq, 2)
    else if s[0] == '<' then (if next == '>' then Scanned(NotEq, 2) else Scanned(Lt, 1))
    else if s[0] == '>' then Scanned(Gt, 1)
    else ScanErr(LoneBang)
  }

  /** The lexer, for a given reading of words as keywords or identifiers. */
  datatype Lexis = Lexis(word: string -> Token) {

    function NextToken(s: string): (r: Scan)
      requires s != ""
      ensures r.Scanned? ==> 0 < r.n <= |s|
    {
      if Symbol(s[0]).Some? then Scanned(Symbol(s[0]).value, 1)
      else if s[0] in {'<', '>', '!'} then ScanComparison(s)
      else if s[0] == '\'' then
        match StringBody(s[1..])
        case Unterminated => ScanErr(UnterminatedString)
        case Body(text, n) => Scanned(StrLit(text), 1 + n)
      else if IsDigit(s[0]) then ScanNumber(s)
      else if IsWordStart(s[0]) then Scanned(word(s[..WordRun(s)]), WordRun(s))
      else if s[0] == '"' then
        match QuotedBody(s[1..])
        case Unterminated => ScanErr(UnterminatedIdentifier)
        case Body(text, n) => Scanned(Ident(text), 1 + n)
      else ScanErr(UnexpectedByte(s[0]))
    }

    function Lex(s: string): LexResult
      decreases |s|
    {
      var t := SkipBlank(s);
      if t == "" then Tokens(End) else
        match NextToken(t)
        case ScanErr(e) => LexErr(e)
        case Scanned(token, n) => Push(token, Lex(t[n..]))
    }
  }

  function Push(t: Token, r: LexResult): LexResult {
    match r case Tokens(ts) => Tokens(Tok(t, ts)) case LexErr(e) => LexErr(e)
  }

  // ----- Keywords -----

  function ToUpper(s: string): (u: string)
    ensures |u| == |s|
  {
    seq(|s|, i requires 0 <= i < |s| => if 'a' <= s[i] <= 'z' then s[i] - 32 as char else s[i])
  }

  function Keyword(upper: string): Option<Token> {
    if upper == "SELECT" then Some(Token.Select) else if upper == "FROM" then Some(From)
    else if upper == "WHERE" then Some(Where) else if upper == "AND" then Some(And)
    else if upper == "OR" then Some(Or) else if upper == "NOT" then Some(Not)
    else if upper == "IS" then Some(Is) else if upper == "NULL" then Some(Null)
    else if upper == "IN" then Some(In) else if upper == "BETWEEN" then Some(Between)
    else if upper == "LIKE" then Some(Like) else if upper == "JOIN" then Some(Join)
    else if upper == "INNER" then Some(Inner) else if upper == "LEFT" then Some(Left)
    else if upper == "RIGHT" then Some(Right) else if upper == "ON" then Some(On)
    else if upper == "AS" then Some(As) else if upper == "GROUP" then Some(Group)
    else if upper == "BY" then Some(By) else if upper == "HAVING" then Some(Having)
    else if upper == "ORDER" then Some(Order) else if upper == "ASC" then Some(Asc)
    else if upper == "DESC" then Some(Desc) else if upper == "LIMIT" then Some(Limit)
    else if upper == "OFFSET" then Some(Offset) else if upper == "TRUE" then Some(True)
    else if upper == "FALSE" then Some(False) else if upper == "DISTINCT" then Some(Distinct)
    else if upper == "INTERVAL" then Some(Interval)
    else None
  }

  function WordToken(word: string): (t: Token)
    ensures t != Eof
  {
    match Keyword(ToUpper(word)) case Some(t) => t case None => Ident(word)
  }

  const LEXIS: Lexis := Lexis(w => WordToken(w))

  // ----- The cursor -----

  /** The vector handed to the parser: the tokens and a closing Eof */
  function Vector(ts: Ast.Tokens): seq<Token> {
    match ts case End => [Eof] case Tok(t, rest) => [t] + Vector(rest)
  }

  datatype Outcome = Lexed(tokens: seq<Token>) | Failed(error: LexError)

  function OutcomeOf(r: LexResult): Outcome {
    match r case Tokens(ts) => Lexed(Vector(ts)) case LexErr(e) => Failed(e)
  }

  class Scanner {
    const src: string
    var pos: nat
    const lexis: Lexis

    ghost predicate Valid()
      reads this
    {
      pos <= |src|
    }

    ghost function Rest(): string
      requires Valid()
      reads this
    {
      src[pos..]
    }

    constructor (lexis: Lexis, src: string)
      ensures Valid() && Rest() == src && this.lexis == lexis && this.src == src
    {
      this.lexis := lexis;
      this.src := src;
      pos := 0;
    }

    function Peek(): char
      requires Valid()
      reads this
    {
      if pos < |src| then src[pos] else '\0'
    }

    method SkipWhitespaceAndComments()
      requires Valid()
      modifies this`pos
      ensures Valid() && Rest() == SkipBlank(old(Rest()))
    {
      while true
        invariant Valid() && old(pos) <= pos
        invariant SkipBlank(Rest()) == SkipBlank(old(Rest()))
        decreases |src| - pos
      {
        if IsBlank(Peek()) {
          assert Rest()[1..] == src[pos + 1..];
          pos := pos + 1;
        } else if pos + 1 < |src| && Peek() == '-' && src[pos + 1] == '-' {
          SkipLine();
        } else {
          break;
        }
      }
    }

    method SkipLine()
      requires Valid()
      modifies this`pos
      ensures Valid() && old(pos) <= pos && Rest() == DropLine(old(Rest()))
    {
      while pos < |src| && Peek() != '\n'
        invariant Valid() && old(pos) <= pos
        invariant DropLine(Rest()) == DropLine(old(Rest()))
      {
        assert Rest()[1..] == src[pos + 1..];
        pos := pos + 1;
      }
    }

    method LexString() returns (r: Outcome, text: string)
      requires Valid()
      modifies this`pos
      ensures Valid()
      ensures match StringBody(old(Rest()))
              case Unterminated => r == Failed(UnterminatedString)
              case Body(t, n) => r.Lexed? && text == t && pos == old(pos) + n
    {
      text := "";
      while true
        invariant Valid() && old(pos) <= pos
        invariant StringBody(old(Rest())) == Prefixed(text, pos - old(pos), StringBody(Rest()))
        decreases |src| - pos
      {
        StringTurn(src, pos, text, pos - old(pos));
        if Peek() == '\0' {
          return Failed(UnterminatedString), text;
        } else if Peek() == '\'' {
          pos := pos + 1;
          if Peek() == '\'' {
            pos := pos + 1;
            text := text + ['\''];
          } else {
            return Lexed([]), text;
          }
        } else {
          text := text + [Peek()];
          pos := pos + 1;
        }
      }
    }

    method LexQuotedIdent() returns (r: Outcome, text: string)
      requires Valid()
      modifies this`pos
      ensures Valid()
      ensures match QuotedBody(old(Rest()))
              case Unterminated => r == Failed(UnterminatedIdentifier)
              case Body(t, n) => r.Lexed? && text == t && pos == old(pos) + n
    {
      text := "";
      while true
        invariant Valid() && old(pos) <= pos
        invariant QuotedBody(old(Rest())) == Prefixed(text, pos - old(pos), QuotedBody(Rest()))
        decreases |src| - pos
      {
        if Peek() == '\0' {
          return Failed(UnterminatedIdentifier), text;
        } else if Peek() == '"' {
          pos := pos + 1;
          return Lexed([]), text;
        } else {
          assert Rest()[1..] == src[pos + 1..];
          PrefixedSnoc(text, pos - old(pos), Peek(), 1, QuotedBody(src[pos + 1..]));
          text := text + [Peek()];
          pos := pos + 1;
        }
      }
    }

    method SkipDigits() returns (ghost k: nat)
      requires Valid()
      modifies this`pos
      ensures Valid() && k == DigitRun(old(Rest())) && pos == old(pos) + k
    {
      k := 0;
      while pos < |src| && IsDigit(src[pos])
        invariant Valid() && pos == old(pos) + k
        invariant DigitRun(old(Rest())) == k + DigitRun(Rest())
      {
        assert Rest()[1..] == src[pos + 1..];
        pos := pos + 1;
        k := k + 1;
      }
    }

    method LexNumber() returns (r: Scan)
      requires Valid() && Rest() != "" && IsDigit(Rest()[0])
      modifies this`pos
      ensures Valid() && r == ScanNumber(old(Rest()))
      ensures r.Scanned? ==> pos == old(pos) + r.n
    {
      ghost var s := Rest();
      var start := pos;
      ghost var k := SkipDigits();
      assert src[start..pos] == s[..k];
      if pos + 1 < |src| && src[pos] == '.' && IsDigit(src[pos + 1]) {
        assert s[k] == '.' && s[k + 1] == src[pos + 1];
        var dot := pos;
        pos := pos + 1;
        assert Rest() == s[k + 1..];
        ghost var m := SkipDigits();
        assert src[dot + 1..pos] == s[k + 1..][..m];
        return Scanned(FloatLit(FloatValue(src[start..dot], src[dot + 1..pos])), pos - start);
      }
      var n := Decimal(src[start..pos]);
      r := if IsI64(n) then Scanned(IntLit(n), pos - start) else ScanErr(IntegerOverflow);
    }

    method LexWord() returns (t: Token)
      requires Valid()
      modifies this`pos
      ensures Valid() && pos == old(pos) + WordRun(old(Rest()))
      ensures t == lexis.word(old(Rest())[..WordRun(old(Rest()))])
    {
      var start := pos;
      while pos < |src| && IsWordChar(src[pos])
        invariant Valid() && start <= pos
        invariant WordRun(old(Rest())) == (pos - start) + WordRun(Rest())
      {
        assert Rest()[1..] == src[pos + 1..];
        pos := pos + 1;
      }
      assert src[start..pos] == old(Rest())[..pos - start];
      t := lexis.word(src[start..pos]);
    }

    method NextToken() returns (r: Scan)
      requires Valid() && Rest() != ""
      modifies this`pos
      ensures Valid() && r == lexis.NextToken(old(Rest()))
      ensures r.Scanned? ==> pos == old(pos) + r.n
    {
      ghost var s := Rest();
      var c := src[pos];
      assert s[0] == c && src[pos + 1..] == s[1..];
      match Symbol(c) {
        case Some(t) =>
          pos := pos + 1;
          return Scanned(t, 1);
        case None =>
      }
      if c in {'<', '>', '!'} {
        pos := pos + 1;
        var next := Peek();
        assert next == if |s| >= 2 then s[1] else '\0';
        if next == '=' {
          pos := pos + 1;
          return Scanned(if c == '<' then LtEq else if c == '>' then GtEq else NotEq, 2);
        }
        if c == '<' && next == '>' {
          pos := pos + 1;
          return Scanned(NotEq, 2);
        }
        r := if c == '<' then Scanned(Lt, 1) else if c == '>' then Scanned(Gt, 1) else ScanErr(LoneBang);
      } else if c == '\'' {
        var start := pos;
        pos := pos + 1;
        var o, text := LexString();
        r := if o.Failed? then ScanErr(o.error) else Scanned(StrLit(text), pos - start);
      } else if IsDigit(c) {
        r := LexNumber();
      } else if IsWordStart(c) {
        var start := pos;
        var t := LexWord();
        r := Scanned(t, pos - start);
      } else if c == '"' {
        var start := pos;
        pos := pos + 1;
        var o, text := LexQuotedIdent();
        r := if o.Failed? then ScanErr(o.error) else Scanned(Ident(text), pos - start);
      } else {
        r := ScanErr(UnexpectedByte(c));
      }
    }

    /** Halts on every input, with an error or with tokens closed by Eof. */
    method Tokenise() returns (r: Outcome)
      requires Valid()
      modifies this`pos
      ensures Valid()
      ensures r == OutcomeOf(lexis.Lex(old(Rest())))
    {
      var tokens := [];
      while true
        invariant Valid() && old(pos) <= pos
        invariant lexis.Lex(old(Rest())) == PushAll(tokens, lexis.Lex(Rest()))
        decreases |src| - pos
      {
        ghost var before := Rest();
        SkipWhitespaceAndComments();
        if pos >= |src| {
          VectorOfPushed(tokens, End);
          return Lexed(tokens + [Eof]);
        }
        ghost var t := Rest();
        var tok := NextToken();
        if tok.ScanErr? {
          PushAllErr(tokens, tok.error);
          return Failed(tok.error);
        }
        assert Rest() == t[tok.n..];
        PushAllSnoc(tokens, tok.token, lexis.Lex(Rest()));
        tokens := tokens + [tok.token];
      }
    }
  }

  function Prefixed(text: string, n: nat, b: Body): Body {
    match b case Unterminated => Unterminated case Body(t, m) => Body(text + t, n + m)
  }

  lemma PrefixedSnoc(text: string, n: nat, c: char, k: nat, b: Body)
    ensures Prefixed(text, n, Cons(c, k, b)) == Prefixed(text + [c], n + k, b)
  {
    if b.Body? { assert text + ([c] + b.text) == text + [c] + b.text; }
  }

  /** One turn of the string loop at `pos`, with `text` read so far over `n` characters */
  lemma StringTurn(src: string, pos: nat, text: string, n: nat)
    requires pos <= |src|
    ensures var b := Prefixed(text, n, StringBody(src[pos..]));
      if pos == |src| || src[pos] == '\0' then b == Unterminated
      else if src[pos] != '\'' then b == Prefixed(text + [src[pos]], n + 1, StringBody(src[pos + 1..]))
      else if pos + 1 < |src| && src[pos + 1] == '\'' then b == Prefixed(text + ['\''], n + 2, StringBody(src[pos + 2..]))
      else b == Body(text, n + 1)
  {
    var rest := src[pos..];
    if pos < |src| && src[pos] != '\0' {
      if src[pos] != '\'' {
        assert rest[1..] == src[pos + 1..];
        PrefixedSnoc(text, n, src[pos], 1, StringBody(src[pos + 1..]));
      } else if pos + 1 < |src| && src[pos + 1] == '\'' {
        assert rest[2..] == src[pos + 2..];
        PrefixedSnoc(text, n, '\'', 2, StringBody(src[pos + 2..]));
      } else {
        assert text + "" == text;
      }
    }
  }

  function PushAll(tokens: seq<Token>, r: LexResult): LexResult {
    if tokens == [] then r else Push(tokens[0], PushAll(tokens[1..], r))
  }

  lemma {:induction false} PushAllSnoc(tokens: seq<Token>, t: Token, r: LexResult)
    ensures PushAll(tokens + [t], r) == PushAll(tokens, Push(t, r))
  {
    if tokens == [] {
      assert ([] + [t])[1..] == [];
    } else {
      assert (tokens + [t])[1..] == tokens[1..] + [t];
      PushAllSnoc(tokens[1..], t, r);
    }
  }

  lemma {:induction false} PushAllErr(tokens: seq<Token>, e: LexError)
    ensures PushAll(tokens, LexErr(e)) == LexErr(e)
  {
    if tokens != [] { PushAllErr(tokens[1..], e); }
  }

  lemma {:induction false} VectorOfPushed(tokens: seq<Token>, ts: Ast.Tokens)
    ensures PushAll(tokens, Tokens(ts)).Tokens?
    ensures Vector(PushAll(tokens, Tokens(ts)).tokens) == tokens + Vector(ts)
  {
    if tokens != [] {
      VectorOfPushed(tokens[1..], ts);
      assert tokens == [tokens[0]] + tokens[1..];
    }
  }
}
