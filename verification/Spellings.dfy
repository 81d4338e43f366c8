/** What single spellings stand for: numbers, letters, units, keywords, literals and gaps, told
    from the characters. */
module Spellings {
  import opened Options
  import opened Ast
  import opened Parser
  import opened Grammar
  import opened Statements
  import opened Lexer
  import opened Copilot
  import opened Frontend
  import opened Bytewise
  import opened Generation
  import opened Utf8

  // ----- Numbers -----

  const DIGITS := "0123456789"

  /** The decimal spelling of a number */
  function Digits(n: nat): (s: string)
    ensures Number(s)
  {
    if n < 10 then [DIGITS[n]] else Digits(n / 10) + [DIGITS[n % 10]]
  }

  /** The decimal spelling of a number reads back as it. */
  lemma {:induction false} DecimalReads(n: nat)
    ensures Decimal(Digits(n)) == n
  {
    if n >= 10 {
      DecimalReads(n / 10);
      var s := Digits(n);
      assert s[..|s| - 1] == Digits(n / 10) && s[|s| - 1] == DIGITS[n % 10];
    } else {
      assert Digits(n)[..0] == "";
    }
  }

  function Ten(k: nat): nat { if k == 0 then 1 else 10 * Ten(k - 1) }

  lemma {:induction false} TenIsPow10(k: nat)
    ensures Pow10(k) == Ten(k) as real && Ten(k) > 0
  {
    if k > 0 { TenIsPow10(k - 1); }
  }

  lemma TimesTen(a: nat, t: nat)
    ensures a * (10 * t) == 10 * (a * t)
  {
  }

  lemma {:induction false} DecimalConcat(a: string, b: string)
    requires AllDigits(a) && AllDigits(b)
    ensures AllDigits(a + b) && Decimal(a + b) == Decimal(a) * Ten(|b|) + Decimal(b)
    decreases |b|
  {
    if b == "" {
      assert a + b == a;
    } else {
      var n := |b| - 1;
      assert (a + b)[..|a + b| - 1] == a + b[..n];
      DecimalConcat(a, b[..n]);
      TimesTen(Decimal(a), Ten(n));
    }
  }

  lemma OverPower(w: real, f: real, p: real)
    requires p > 0.0
    ensures (w + f / p) * p == w * p + f
  {
    assert f / p * p == f;
  }

  lemma FloatParts(whole: string, fraction: string)
    requires AllDigits(whole) && AllDigits(fraction)
    ensures var p := Ten(|fraction|) as real;
            p > 0.0 && FloatValue(whole, fraction) == Decimal(whole) as real + Decimal(fraction) as real / p
  {
    TenIsPow10(|fraction|);
  }

  ghost predicate Over(v: real, d: nat, t: nat) { v * t as real == d as real }

  lemma Scaled(v: real, w: nat, f: nat, t: nat, d: nat)
    requires t > 0 && v == w as real + f as real / t as real && d == w * t + f
    ensures Over(v, d, t)
  {
    OverPower(w as real, f as real, t as real);
    RealProduct(w, t);
  }

  /** A fraction is its digits over the power of ten of its places. */
  lemma FractionReads(whole: string, fraction: string)
    requires AllDigits(whole) && AllDigits(fraction)
    ensures AllDigits(whole + fraction)
    ensures Over(FloatValue(whole, fraction), Decimal(whole + fraction), Ten(|fraction|))
  {
    FloatParts(whole, fraction);
    DecimalConcat(whole, fraction);
    var v, d, t := FloatValue(whole, fraction), Decimal(whole + fraction), Ten(|fraction|);
    assert Over(v, d, t) by { Scaled(v, Decimal(whole), Decimal(fraction), t, d); }
  }

  lemma RealProduct(a: nat, b: nat)
    ensures (a * b) as real == a as real * b as real
  {
  }

  /** Signed numbers: a sign is optional, and what leaves i64 is no number. */
  lemma SignedReads(n: nat)
    ensures ParseI64(Digits(n)) == ParseI64("+" + Digits(n)) == if n < TWO63 then Some(n) else None
    ensures ParseI64("-" + Digits(n)) == if n <= TWO63 then Some(-(n as int)) else None
  {
    DecimalReads(n);
    assert ("+" + Digits(n))[1..] == Digits(n) && ("-" + Digits(n))[1..] == Digits(n);
    assert Digits(n)[0] != '-' && Digits(n)[0] != '+';
  }

  /** What follows a number does not prolong it. */
  predicate EndsNumber(rest: string) {
    (rest == "" || rest[0] !in DIGITS) && !(|rest| >= 2 && rest[0] == '.' && rest[1] in DIGITS)
  }

  lemma DigitsAre(c: char)
    ensures IsDigit(c) <==> c in DIGITS
  {
    if IsDigit(c) { assert DIGITS[(c - '0') as int] == c; }
  }

  /** A number is read as itself, or refused beyond i64, before anything that does not prolong
      it: a dot without a digit behind it does not. */
  lemma IntegerReads(n: nat, rest: string)
    requires EndsNumber(rest)
    ensures LEXIS.NextToken(Digits(n) + rest) == if n < TWO63 then Scanned(IntLit(n), |Digits(n)|) else ScanErr(IntegerOverflow)
  {
    var d, s := Digits(n), Digits(n) + rest;
    DecimalReads(n);
    if rest != "" { DigitsAre(rest[0]); }
    if |rest| >= 2 { DigitsAre(rest[1]); assert s[|d| + 1] == rest[1]; }
    DigitRunOf(d, rest);
    assert s[..|d|] == d && s[0] == d[0] && (rest != "" ==> s[|d|] == rest[0]);
    assert LEXIS.NextToken(s) == ScanNumber(s);
  }

  /** Words are letters, digits and underscores, and do not begin with a digit. */
  lemma WordCharacters(c: char)
    ensures IsWordStart(c) <==> c in LOWER || c in UPPER || c == '_'
    ensures IsWordChar(c) <==> c in LOWER || c in UPPER || c == '_' || c in DIGITS
  {
    Alphabet(c);
    DigitsAre(c);
  }

  /** `LIMIT n OFFSET o` means n and o. */
  lemma LimitIsRead(tables: seq<string>, columns: seq<string>, t: string, n: nat, o: nat)
    requires GoodTables(tables, columns) && t in tables && n < TWO63 && o < TWO63
    ensures var a := Front(TextSelect(READER.k, Bare(None, t).(limit := Some(Digits(n)), offset := Some(Digits(o)))));
            a.Parsed? && a.select.limit == Some(n) && a.select.offset == Some(o)
  {
    var s := Bare(None, t).(limit := Some(Digits(n)), offset := Some(Digits(o)));
    DecimalReads(n);
    DecimalReads(o);
    assert DerivableSelect(NamesOf(tables, columns), s) && Generation.Fits(s) && ReadSelect(s) == s;
    EveryDerivationIsRead(tables, columns, s);
  }

  // ----- Units -----

  const MICROSECONDS := ["us", "microsecond", "microseconds"]
  const MILLISECONDS := ["ms", "millisecond", "milliseconds", "millisec"]
  const SECONDS := ["s", "sec", "second", "seconds"]
  const MINUTES := ["m", "min", "minute", "minutes"]
  const HOURS := ["h", "hr", "hour", "hours"]
  const DAYS := ["d", "day", "days"]

  ghost predicate Each(units: seq<string>, ns: int) { forall u | u in units :: NsPerUnit(u) == Some(ns) }

  /** A day is 24 hours, an hour 60 minutes, a minute 60 seconds, and so on down to 1000 ns in a
      microsecond, under each name of a unit. */
  lemma UnitsRelate() returns (us: int, ms: int, s: int, m: int, h: int, d: int)
    ensures Each(MICROSECONDS, us) && Each(MILLISECONDS, ms) && Each(SECONDS, s)
    ensures Each(MINUTES, m) && Each(HOURS, h) && Each(DAYS, d)
    ensures d == 24 * h && h == 60 * m && m == 60 * s && s == 1000 * ms && ms == 1000 * us && us == 1000
  {
    us, ms, s := 1000, 1_000_000, 1_000_000_000;
    m, h, d := 60_000_000_000, 3_600_000_000_000, 86_400_000_000_000;
    ShortUnits();
    LongUnits();
    assert Each(DAYS, d);
  }

  lemma ShortUnits()
    ensures Each(MICROSECONDS, 1000) && Each(MILLISECONDS, 1_000_000) && Each(SECONDS, 1_000_000_000)
  {
  }

  lemma LongUnits()
    ensures Each(MINUTES, 60_000_000_000) && Each(HOURS, 3_600_000_000_000)
  {
  }

  // ----- White space -----

  ghost predicate AllSpace(s: string) { forall i | 0 <= i < |s| :: IsSpace(s[i]) }

  lemma {:induction false} TrimStartMeaning(s: string)
    ensures var t := TrimStart(s);
            |t| <= |s| && t == s[|s| - |t|..] && AllSpace(s[..|s| - |t|]) && (t != "" ==> !IsSpace(t[0]))
  {
    if s != "" && IsSpace(s[0]) {
      TrimStartMeaning(s[1..]);
      var t := TrimStart(s);
      assert s[..|s| - |t|] == [s[0]] + s[1..][..|s| - 1 - |t|];
    }
  }

  lemma {:induction false} TrimEndMeaning(s: string)
    ensures var t := TrimEnd(s);
            |t| <= |s| && t == s[..|t|] && AllSpace(s[|t|..]) && (t != "" ==> !IsSpace(t[|t| - 1]))
  {
    if s != "" && IsSpace(s[|s| - 1]) {
      var init := s[..|s| - 1];
      TrimEndMeaning(init);
      var t := TrimEnd(s);
      assert s[|t|..] == init[|t|..] + [s[|s| - 1]];
    }
  }

  /** Trimming takes away the white space at both ends and nothing else. */
  lemma TrimMeaning(s: string) returns (a: string, b: string)
    ensures s == a + Trim(s) + b && AllSpace(a) && AllSpace(b)
    ensures var t := Trim(s); t != "" ==> !IsSpace(t[0]) && !IsSpace(t[|t| - 1])
  {
    var u := TrimStart(s);
    TrimStartMeaning(s);
    TrimEndMeaning(u);
    a, b := s[..|s| - |u|], u[|Trim(s)|..];
    assert u == Trim(s) + b;
  }

  // ----- Letters -----

  const UPPER := "ABCDEFGHIJKLMNOPQRSTUVWXYZ"
  const LOWER := "abcdefghijklmnopqrstuvwxyz"

  /** Lower case replaces each capital by its small letter and nothing else. */
  lemma LowerMeaning(s: string, i: nat)
    requires i < |s|
    ensures forall k | 0 <= k < 26 && s[i] == UPPER[k] :: ToLower(s)[i] == LOWER[k]
    ensures s[i] !in UPPER ==> ToLower(s)[i] == s[i]
  {
    Alphabet(s[i]);
  }

  lemma UpperMeaning(s: string, i: nat)
    requires i < |s|
    ensures forall k | 0 <= k < 26 && s[i] == LOWER[k] :: ToUpper(s)[i] == UPPER[k]
    ensures s[i] !in LOWER ==> ToUpper(s)[i] == s[i]
  {
    Alphabet(s[i]);
  }

  lemma UpperLetters()
    ensures forall k | 0 <= k < 26 :: UPPER[k] == 'A' + k as char
  {
  }

  lemma LowerLetters()
    ensures forall k | 0 <= k < 26 :: LOWER[k] == 'a' + k as char
  {
  }

  /** Letters in a row, from `first` on */
  lemma RowOfLetters(letters: string, first: char, c: char)
    requires |letters| == 26 && first < 128 as char && forall k | 0 <= k < 26 :: letters[k] == first + k as char
    ensures first <= c <= first + 25 as char <==> c in letters
  {
    if first <= c <= first + 25 as char { assert letters[(c - first) as int] == c; }
  }

  lemma Alphabet(c: char)
    ensures forall k | 0 <= k < 26 :: UPPER[k] == 'A' + k as char && LOWER[k] == 'a' + k as char
    ensures 'A' <= c <= 'Z' <==> c in UPPER
    ensures 'a' <= c <= 'z' <==> c in LOWER
  {
    UpperLetters();
    LowerLetters();
    RowOfLetters(UPPER, 'A', c);
    RowOfLetters(LOWER, 'a', c);
  }

  // ----- Gaps -----

  /** A comment goes to the end of its line, or of the input. */
  lemma {:induction false} CommentEnds(s: string)
    ensures var t := DropLine(s);
            && |t| <= |s| && t == s[|s| - |t|..] && '\n' !in s[..|s| - |t|]
            && (t == "" || t[0] == '\n')
  {
    if s != "" && s[0] != '\n' {
      CommentEnds(s[1..]);
      var t := DropLine(s);
      assert s[..|s| - |t|] == [s[0]] + s[1..][..|s| - 1 - |t|];
    }
  }

  /** Blanks and comments, before `rest` */
  ghost predicate Gap(g: string, rest: string)
    decreases |g|
  {
    || g == ""
    || (g[0] in {' ', '\t', '\n', '\r'} && Gap(g[1..], rest))
    || (exists n: nat :: CommentLine(g, n, rest) && Gap(g[n..], rest))
  }

  /** Two dashes and what follows them up to a line end, or to the end of everything */
  ghost predicate CommentLine(g: string, n: nat, rest: string) {
    && 2 <= n <= |g| && g[0] == g[1] == '-' && '\n' !in g[..n]
    && (if n < |g| then g[n] == '\n' else rest == "")
  }

  /** What is skipped before a token is a gap, and all of it. */
  lemma {:induction false} GapIsSkipped(s: string)
    ensures var t := SkipBlank(s);
            && |t| <= |s| && t == s[|s| - |t|..] && Gap(s[..|s| - |t|], t)
            && (t == "" || (t[0] !in {' ', '\t', '\n', '\r'} && !(|t| >= 2 && t[0] == t[1] == '-')))
    decreases |s|
  {
    var t := SkipBlank(s);
    if s != "" && IsBlank(s[0]) {
      GapIsSkipped(s[1..]);
      assert s[..|s| - |t|][1..] == s[1..][..|s| - 1 - |t|];
    } else if s != "" && AtComment(s) {
      var u := DropLine(s);
      CommentEnds(s);
      GapIsSkipped(u);
      var g, n := s[..|s| - |t|], |s| - |u|;
      assert n < |s| ==> s[n] == u[0];
      assert n >= 2;
      assert g[n..] == u[..|u| - |t|];
      assert '\n' !in g[..n] by { assert g[..n] == s[..n]; }
      if n < |g| { assert g[n] == u[0]; }
      assert CommentLine(g, n, t);
    }
  }

  // ----- Literals -----

  /** The text of a literal with each quote doubled */
  function Escaped(text: string): string {
    if text == "" then "" else (if text[0] == '\'' then "''" else [text[0]]) + Escaped(text[1..])
  }

  lemma OneQuoted(c: char, tail: string)
    requires c != '\0' && tail != ""
    ensures StringBody((if c == '\'' then "''" else [c]) + tail) == Cons(c, if c == '\'' then 2 else 1, StringBody(tail))
  {
    var s := (if c == '\'' then "''" else [c]) + tail;
    if c == '\'' { assert s[2..] == tail; } else { assert s[1..] == tail; }
  }

  /** A literal with its quotes doubled is read as its text. */
  lemma {:induction false} LiteralReads(text: string, rest: string)
    requires '\0' !in text && (rest == "" || rest[0] != '\'')
    ensures StringBody(Escaped(text) + ("'" + rest)) == Body(text, |Escaped(text)| + 1)
  {
    if text == "" {
      assert Escaped(text) + ("'" + rest) == "'" + rest;
    } else {
      LiteralReads(text[1..], rest);
      FirstOfLiteral(text, rest, Escaped(text[1..]));
    }
  }

  lemma FirstOfLiteral(text: string, rest: string, more: string)
    requires text != "" && text[0] != '\0' && StringBody(more + ("'" + rest)) == Body(text[1..], |more| + 1)
    ensures var e := (if text[0] == '\'' then "''" else [text[0]]) + more;
            StringBody(e + ("'" + rest)) == Body(text, |e| + 1)
  {
    var c, tail := text[0], more + ("'" + rest);
    var head := if c == '\'' then "''" else [c];
    OneQuoted(c, tail);
    assert head + more + ("'" + rest) == head + tail;
    assert text == [c] + text[1..];
  }

  lemma {:induction false} QuotedNameReads(name: string, rest: string)
    requires '\0' !in name && '"' !in name
    ensures QuotedBody(name + ("\"" + rest)) == Body(name, |name| + 1)
  {
    var s := name + ("\"" + rest);
    if name == "" {
      assert s == "\"" + rest;
    } else {
      QuotedNameReads(name[1..], rest);
      assert s[1..] == name[1..] + ("\"" + rest);
      assert name == [name[0]] + name[1..];
    }
  }

  // ----- Keywords and symbols -----

  /** The keywords that the generation grammar does not use */
  function OtherSpelling(t: Token): string {
    match t
    case Not => "NOT" case Is => "IS" case In => "IN" case Between => "BETWEEN" case Like => "LIKE"
    case Join => "JOIN" case Inner => "INNER" case Left => "LEFT" case Right => "RIGHT" case On => "ON"
    case Distinct => "DISTINCT"
    case _ => ""
  }

  /** Every keyword is read as itself, in upper or lower case. */
  lemma KeywordsRead(t: Token)
    requires OtherSpelling(t) != ""
    ensures Keyword(OtherSpelling(t)) == Some(t)
    ensures WordToken(OtherSpelling(t)) == t && WordToken(ToLower(OtherSpelling(t))) == t
  {
    OtherKeyword(t);
    UpperStays(OtherSpelling(t));
    RaisedAgain(OtherSpelling(t));
  }

  lemma OtherKeyword(t: Token)
    requires OtherSpelling(t) != ""
    ensures Keyword(OtherSpelling(t)) == Some(t)
    ensures forall i | 0 <= i < |OtherSpelling(t)| :: 'A' <= OtherSpelling(t)[i] <= 'Z'
  {
  }

  lemma RaisedAgain(w: string)
    requires forall i | 0 <= i < |w| :: 'A' <= w[i] <= 'Z'
    ensures ToUpper(ToLower(w)) == w
  {
  }

  function SymbolText(t: Token): string {
    match t
    case Plus => "+" case Minus => "-" case Star => "*" case Slash => "/" case Percent => "%"
    case LParen => "(" case RParen => ")" case Comma => "," case Dot => "." case Semicolon => ";"
    case Eq => "=" case NotEq => "!=" case Lt => "<" case LtEq => "<=" case Gt => ">" case GtEq => ">="
    case _ => ""
  }

  /** A symbol is read where it stands, `<>` as `!=`, the longer one first. */
  lemma SymbolsRead(t: Token, rest: string)
    requires SymbolText(t) != "" && (|SymbolText(t)| == 1 ==> rest == "" || rest[0] !in {'=', '>'})
    ensures LEXIS.NextToken(SymbolText(t) + rest) == Scanned(t, |SymbolText(t)|)
    ensures LEXIS.NextToken("<>" + rest) == Scanned(NotEq, 2)
  {
  }
}
