/** The grammar as it is built from a catalog, over the keywords, functions and interval
    units of IQL. */
module Generation {
  import opened Options
  import opened Ast
  import opened Parser
  import opened Grammar
  import opened Statements
  import opened Lexer
  import opened Copilot
  import opened Frontend
  import opened Guarantee
  import opened Utf8
  import opened Bytewise

  // ----- Building the grammar -----

  datatype Table = Table(name: string, columns: seq<string>)

  const FUNCTIONS := ["time_bucket", "rate", "delta", "histogram_quantile", "now", "count", "sum", "avg", "min", "max"]

  const UNITS := ["minutes", "hours", "seconds", "days", "m", "h", "s", "d"]

  const LOG_COLUMNS := ["timestamp_ns", "severity_number", "severity_text", "body",
                        "trace_id", "span_id", "service_name", "attributes"]

  const METRIC_COLUMNS := ["timestamp_ns", "metric_name", "metric_type", "value", "labels", "service_name"]

  const TRACE_COLUMNS := ["timestamp_ns", "trace_id", "span_id", "parent_span_id",
                          "name", "service_name", "duration_ns", "status_code", "attributes"]

  const DEFAULT_TABLES := [Table("logs", LOG_COLUMNS), Table("metrics", METRIC_COLUMNS), Table("traces", TRACE_COLUMNS)]

  /** Where the selected table is: nothing is selected by the empty name. */
  ghost predicate Selects(catalog: seq<Table>, selected: Option<string>, i: nat) {
    selected.Some? && selected.value != "" && i < |catalog| && catalog[i].name == selected.value
  }

  /** The columns of all tables, one after the other */
  function AllColumns(catalog: seq<Table>): seq<string> {
    if catalog == [] then [] else AllColumns(catalog[..|catalog| - 1]) + catalog[|catalog| - 1].columns
  }

  /** `names` lists the members of `all` once each, in the order of their first appearance. */
  ghost predicate FirstsOf(names: seq<string>, all: seq<string>) {
    exists at: seq<nat> :: FirstsAt(names, all, at)
  }

  ghost predicate FirstsAt(names: seq<string>, all: seq<string>, at: seq<nat>) {
    && |at| == |names| && (forall i, j | 0 <= i < j < |at| :: at[i] < at[j])
    && (forall i | 0 <= i < |at| :: at[i] < |all| && all[at[i]] == names[i] && names[i] !in all[..at[i]])
    && (forall c | c in all :: c in names)
  }

  lemma FirstsGrow(names: seq<string>, all: seq<string>, c: string)
    requires FirstsOf(names, all)
    ensures FirstsOf(if c in names then names else names + [c], all + [c])
  {
    var at: seq<nat> :| FirstsAt(names, all, at);
    var more := all + [c];
    assert forall i | 0 <= i < |at| :: more[at[i]] == all[at[i]] && more[..at[i]] == all[..at[i]];
    if c in names {
      assert FirstsAt(names, more, at);
    } else {
      assert more[..|all|] == all;
      assert c !in all;
      assert FirstsAt(names + [c], more, at + [|all|]);
    }
  }

  /** The columns of the first table of the selected name, or the union of all columns in order
      of first appearance. */
  method ColumnNames(catalog: seq<Table>, selected: Option<string>) returns (names: seq<string>)
    ensures (exists i: nat :: Selects(catalog, selected, i) && (forall j: nat | j < i :: !Selects(catalog, selected, j))
                              && names == catalog[i].columns)
         || ((forall i: nat :: !Selects(catalog, selected, i)) && FirstsOf(names, AllColumns(catalog)))
  {
    if selected.Some? && selected.value != "" {
      for i := 0 to |catalog|
        invariant forall j: nat | j < i :: !Selects(catalog, selected, j)
      {
        if catalog[i].name == selected.value {
          assert Selects(catalog, selected, i);
          return catalog[i].columns;
        }
      }
    }
    names := UnionColumns(catalog);
  }

  method UnionColumns(catalog: seq<Table>) returns (names: seq<string>)
    ensures FirstsOf(names, AllColumns(catalog))
  {
    names := [];
    assert FirstsAt([], [], []);
    for i := 0 to |catalog|
      invariant FirstsOf(names, AllColumns(catalog[..i]))
    {
      names := AddColumns(names, AllColumns(catalog[..i]), catalog[i].columns);
      assert catalog[..i + 1][..i] == catalog[..i];
    }
    assert catalog[..|catalog|] == catalog;
  }

  method AddColumns(names: seq<string>, ghost before: seq<string>, columns: seq<string>) returns (out: seq<string>)
    requires FirstsOf(names, before)
    ensures FirstsOf(out, before + columns)
  {
    out := names;
    assert before + columns[..0] == before;
    for j := 0 to |columns|
      invariant FirstsOf(out, before + columns[..j])
    {
      assert before + columns[..j + 1] == before + columns[..j] + [columns[j]];
      FirstsGrow(out, before + columns[..j], columns[j]);
      if columns[j] !in out { out := out + [columns[j]]; }
    }
    assert columns[..|columns|] == columns;
  }

  // ----- Keywords -----

  function KeywordText(t: Token): string {
    match t
    case Select => "SELECT" case From => "FROM" case Where => "WHERE" case And => "AND" case Or => "OR"
    case As => "AS" case Group => "GROUP" case By => "BY" case Having => "HAVING" case Order => "ORDER"
    case Asc => "ASC" case Desc => "DESC" case Limit => "LIMIT" case Offset => "OFFSET"
    case True => "TRUE" case False => "FALSE" case Null => "NULL" case Interval => "interval"
    case _ => ""
  }

  const READER: Reader := Reader(LEXIS, s => LEXIS.Lex(s), t => KeywordText(t))

  lemma UpperStays(w: string)
    requires forall i | 0 <= i < |w| :: !('a' <= w[i] <= 'z')
    ensures ToUpper(w) == w
  {
  }

  lemma KeywordIsWord(t: Token)
    requires IsKeyword(t)
    ensures IsWord(KeywordText(t))
  {
  }

  lemma ClauseKeywords(t: Token)
    requires t in {Token.Select, From, Where, Group, By, Having, Order, Limit, Offset}
    ensures WordToken(KeywordText(t)) == t
  {
    UpperStays(KeywordText(t));
  }

  lemma OtherKeywords(t: Token)
    requires IsKeyword(t) && t !in {Token.Select, From, Where, Group, By, Having, Order, Limit, Offset, Interval}
    ensures WordToken(KeywordText(t)) == t
  {
    UpperStays(KeywordText(t));
  }

  lemma KeywordReads(t: Token)
    requires IsKeyword(t)
    ensures IsWord(KeywordText(t)) && WordToken(KeywordText(t)) == t
  {
    KeywordIsWord(t);
    if t.Interval? {
      assert ToUpper("interval") == "INTERVAL";
    } else if t in {Token.Select, From, Where, Group, By, Having, Order, Limit, Offset} {
      ClauseKeywords(t);
    } else {
      OtherKeywords(t);
    }
  }

  lemma ReaderValid()
    ensures READER.Valid()
  {
    forall t | IsKeyword(t) ensures IsWord(READER.k(t)) && READER.l.word(READER.k(t)) == t {
      KeywordReads(t);
    }
  }

  // ----- Names -----

  function Raise(c: char): char { if 'a' <= c <= 'z' then c - 32 as char else c }

  /** Whether some keyword of three letters or more begins so */
  predicate KeywordStart(a: char, b: char, c: char) {
    match a
    case 'A' => (b == 'N' && c == 'D') || (b == 'S' && c == 'C')
    case 'B' => b == 'E' && c == 'T'
    case 'D' => (b == 'E' && c == 'S') || (b == 'I' && c == 'S')
    case 'F' => (b == 'R' && c == 'O') || (b == 'A' && c == 'L')
    case 'G' => b == 'R' && c == 'O'
    case 'H' => b == 'A' && c == 'V'
    case 'I' => b == 'N' && (c == 'N' || c == 'T')
    case 'J' => b == 'O' && c == 'I'
    case 'L' => (b == 'I' && (c == 'K' || c == 'M')) || (b == 'E' && c == 'F')
    case 'N' => (b == 'O' && c == 'T') || (b == 'U' && c == 'L')
    case 'O' => (b == 'R' && c == 'D') || (b == 'F' && c == 'F')
    case 'R' => b == 'I' && c == 'G'
    case 'S' => b == 'E' && c == 'L'
    case 'T' => b == 'R' && c == 'U'
    case 'W' => b == 'H' && c == 'E'
    case _ => false
  }

  lemma KeywordsStartSo(u: string)
    requires |u| >= 3 && Keyword(u).Some?
    ensures KeywordStart(u[0], u[1], u[2])
  {
  }

  predicate PlainName(w: string) {
    IsWord(w) && |w| >= 3 && !KeywordStart(Raise(w[0]), Raise(w[1]), Raise(w[2]))
  }

  lemma PlainNameIsGood(w: string)
    requires PlainName(w)
    ensures GoodName(LEXIS, w)
  {
    if Keyword(ToUpper(w)).Some? { KeywordsStartSo(ToUpper(w)); }
  }

  lemma FunctionsPlain()
    ensures forall f | f in FUNCTIONS :: PlainName(f)
  {
  }

  lemma LogColumnsPlain()
    ensures forall c | c in LOG_COLUMNS :: PlainName(c)
  {
  }

  lemma MetricColumnsPlain()
    ensures forall c | c in METRIC_COLUMNS :: PlainName(c)
  {
  }

  lemma TraceColumnsPlain()
    ensures forall c | c in TRACE_COLUMNS :: PlainName(c)
  {
  }

  // ----- Intervals -----

  predicate Lowercase(u: string) { u != "" && forall i | 0 <= i < |u| :: 'a' <= u[i] <= 'z' }

  lemma UnitsKnown()
    ensures forall u | u in UNITS :: Lowercase(u) && NsPerUnit(u).Some?
  {
  }

  lemma {:induction false} FirstLetterOf(prefix: string, unit: string)
    requires (forall i | 0 <= i < |prefix| :: !IsAlphabetic(prefix[i])) && Lowercase(unit)
    ensures FirstLetter(prefix + unit) == |prefix|
  {
    if prefix == "" {
      assert prefix + unit == unit;
    } else {
      assert (prefix + unit)[1..] == prefix[1..] + unit;
      FirstLetterOf(prefix[1..], unit);
    }
  }

  lemma {:induction false} TrimEndOf(digits: string, n: nat)
    requires Number(digits)
    ensures TrimEnd(digits + Blanks(n)) == digits
  {
    BlanksPlain(n);
    if n == 0 {
      assert digits + Blanks(0) == digits;
    } else {
      BlanksPlain(n - 1);
      var s := digits + Blanks(n);
      assert s[..|s| - 1] == digits + Blanks(n - 1);
      TrimEndOf(digits, n - 1);
    }
  }

  /** What the interval literals of the grammar mean: the number of units in nanoseconds,
      wrapped to 64 bits, provided the number itself fits. */
  lemma IntervalMeaning(digits: string, blanks: nat, unit: string)
    requires Number(digits) && Lowercase(unit) && NsPerUnit(unit).Some?
    ensures ParseInterval(IntervalText(digits, blanks, unit)) ==
            if FitsInt(digits) then Some(Wrap64(Value(digits) * NsPerUnit(unit).value)) else None
  {
    var prefix := digits + Blanks(blanks);
    var text := prefix + unit;
    BlanksPlain(blanks);
    assert text[0] == digits[0] && text[|text| - 1] == unit[|unit| - 1];
    assert Trim(text) == text;
    FirstLetterOf(prefix, unit);
    assert text[..|prefix|] == prefix && text[|prefix|..] == unit;
    assert prefix[0] == digits[0];
    TrimEndOf(digits, blanks);
    assert Trim(prefix) == digits;
    assert ParseI64(digits) == if FitsInt(digits) then Some(Value(digits)) else None;
    assert Trim(unit) == unit;
    assert ToLower(unit) == unit;
  }

  // ----- The guarantee for IQL -----

  /** What is read from the bytes of a text */
  function Front(text: string): Answer { Meaning(IQL, READER.lex(Encode(text))) }

  ghost predicate Fits(s: SelectD) { LexableSelect(s) && DenotesSelect(IQL, s) }

  function NamesOf(tables: seq<string>, columns: seq<string>): Names { Names(tables, columns, FUNCTIONS, UNITS) }

  ghost predicate GoodTables(tables: seq<string>, columns: seq<string>) {
    (forall t | t in tables :: GoodName(LEXIS, t)) && (forall c | c in columns :: GoodName(LEXIS, c))
  }

  lemma GoodNamesOf(tables: seq<string>, columns: seq<string>)
    requires GoodTables(tables, columns)
    ensures GoodNames(LEXIS, NamesOf(tables, columns)) && AsciiNames(NamesOf(tables, columns))
  {
    FunctionsPlain();
    UnitsKnown();
    forall f | f in FUNCTIONS ensures GoodName(LEXIS, f) { PlainNameIsGood(f); }
  }

  /** The bytes of a statement of the grammar are read as what its byte-wise reading says, or
      rejected because a number does not fit or a literal holds NUL, provided the catalog
      holds plain names. */
  lemma EveryDerivationIsRead(tables: seq<string>, columns: seq<string>, s: SelectD)
    requires GoodTables(tables, columns) && DerivableSelect(NamesOf(tables, columns), s)
    ensures Front(TextSelect(READER.k, s)) ==
            if Fits(s) then Parsed(DenoteSelect(ToSelect(IQL, ReadSelect(s)))) else Rejected
  {
    ReaderValid();
    GoodNamesOf(tables, columns);
    DerivedBytesRead(READER, IQL, NamesOf(tables, columns), s);
  }

  ghost predicate ReadBack(s: SelectD) {
    Front(TextSelect(READER.k, s)) == Parsed(DenoteSelect(ToSelect(IQL, s)))
  }

  /** With plain names in the catalog, a statement of the grammar is read back as what it
      says exactly if it fits and each of its string literals is ASCII. */
  lemma ReadBackExactly(tables: seq<string>, columns: seq<string>, s: SelectD)
    requires GoodTables(tables, columns) && DerivableSelect(NamesOf(tables, columns), s)
    ensures ReadBack(s) <==> Fits(s) && PlainSelect(s)
  {
    EveryDerivationIsRead(tables, columns, s);
    SameSelect(IQL, s);
  }

  function TableNames(catalog: seq<Table>): seq<string> {
    seq(|catalog|, i requires 0 <= i < |catalog| => catalog[i].name)
  }

  /** The default catalog has plain names only. */
  lemma DefaultCatalogIsGood(columns: seq<string>)
    requires forall c | c in columns :: exists i :: 0 <= i < |DEFAULT_TABLES| && c in DEFAULT_TABLES[i].columns
    ensures GoodTables(TableNames(DEFAULT_TABLES), columns)
  {
    LogColumnsPlain();
    MetricColumnsPlain();
    TraceColumnsPlain();
    forall c | c in columns ensures GoodName(LEXIS, c) { PlainNameIsGood(c); }
    assert PlainName("logs") && PlainName("metrics") && PlainName("traces");
    forall t | t in TableNames(DEFAULT_TABLES) ensures GoodName(LEXIS, t) { PlainNameIsGood(t); }
  }

  /** The query of the table `t` for one column equal to a literal */
  function Asking(t: string, column: string, text: string): SelectD {
    Bare(None, t).(filter := Some(BinD(EqOp, ColD(column), StrD(text))))
  }

  lemma AskingDerivable(tables: seq<string>, columns: seq<string>, t: string, column: string, text: string)
    requires t in tables && column in columns && '\'' !in text && '\0' !in text
    ensures DerivableSelect(NamesOf(tables, columns), Asking(t, column, text)) && Fits(Asking(t, column, text))
    ensures PlainSelect(Asking(t, column, text)) <==> Ascii(text)
    ensures DenoteSelect(ToSelect(IQL, Asking(t, column, text))).filter
         == Some(Bin(EqOp, Column(None, column), Lit(StrL(text))))
    ensures ReadSelect(Asking(t, column, text)) == Asking(t, column, Encode(text))
  {
    var l, r := ColD(column), StrD(text);
    assert Derivable(NamesOf(tables, columns), l) && Derivable(NamesOf(tables, columns), r);
    assert Lexable(l) && Lexable(r) && Denotes(IQL, l) && Denotes(IQL, r);
    assert Plain(l) && (Plain(r) <==> Ascii(text));
    assert Read(l) == l && Read(r) == StrD(Encode(text));
    assert Denote(ToCst(IQL, l)) == Column(None, column) && Denote(ToCst(IQL, r)) == Lit(StrL(text));
    assert Asking(t, column, text).filter.value == BinD(EqOp, l, r);
  }

  /** An equality with a literal is read as the equality with its bytes. */
  lemma AskingIsRead(tables: seq<string>, columns: seq<string>, t: string, column: string, text: string)
    requires GoodTables(tables, columns) && t in tables && column in columns && '\'' !in text && '\0' !in text
    ensures var a := Front(TextSelect(READER.k, Asking(t, column, text)));
            a.Parsed? && a.select.filter == Some(Bin(EqOp, Column(None, column), Lit(StrL(Encode(text)))))
    ensures ReadBack(Asking(t, column, text)) <==> Ascii(text)
  {
    LiteralBytes(text);
    AskingDerivable(tables, columns, t, column, text);
    AskingDerivable(tables, columns, t, column, Encode(text));
    EveryDerivationIsRead(tables, columns, Asking(t, column, text));
    ReadBackExactly(tables, columns, Asking(t, column, text));
  }

  /** With the default catalog, the question for logs whose body is U+00E9 is read as one for
      the two characters that its bytes are. */
  lemma AccentIsMisread()
    ensures var a := Front(TextSelect(READER.k, Asking("logs", "body", "\U{E9}")));
            a.Parsed? && a.select.filter == Some(Bin(EqOp, Column(None, "body"), Lit(StrL("\U{C3}\U{A9}"))))
    ensures !ReadBack(Asking("logs", "body", "\U{E9}"))
  {
    assert TableNames(DEFAULT_TABLES)[0] == "logs" && LOG_COLUMNS[3] == "body";
    assert DEFAULT_TABLES[0].columns == LOG_COLUMNS;
    DefaultCatalogIsGood(LOG_COLUMNS);
    AskingIsRead(TableNames(DEFAULT_TABLES), LOG_COLUMNS, "logs", "body", "\U{E9}");
    AccentBytes();
  }

  lemma AccentBytes()
    ensures Encode("\U{E9}") == "\U{C3}\U{A9}" && !Ascii("\U{E9}")
  {
    assert "\U{E9}"[0] >= 128 as char;
    assert "\U{E9}"[1..] == "";
  }

  // ----- Names that are no identifiers break the guarantee -----

  predicate Mentions(ts: Ast.Tokens, name: string) {
    ts.Tok? && (ts.head == Ident(name) || Mentions(ts.tail, name))
  }

  lemma {:induction false} QuotedBodyPlain(s: string)
    requires QuotedBody(s).Body?
    ensures '"' in s && '"' !in QuotedBody(s).text
  {
    if s[0] != '"' { QuotedBodyPlain(s[1..]); }
  }

  lemma {:induction false} WordRunIsWord(s: string)
    ensures forall i | 0 <= i < WordRun(s) :: IsWordChar(s[i])
  {
    if s != "" && IsWordChar(s[0]) { WordRunIsWord(s[1..]); }
  }

  lemma IdentifierStart(l: Lexis, s: string, name: string, n: nat)
    requires s != "" && l.NextToken(s) == Scanned(Ident(name), n)
    ensures (s[0] == '"' && QuotedBody(s[1..]).Body? && QuotedBody(s[1..]).text == name)
         || (IsWordStart(s[0]) && l.word(s[..WordRun(s)]) == Ident(name))
  {
  }

  /** A word that is an identifier is the identifier it spells. */
  lemma WordIsGood(w: string, name: string)
    requires IsWord(w) && LEXIS.word(w) == Ident(name)
    ensures GoodName(LEXIS, name)
  {
    assert WordToken(w) == Ident(name);
    KeywordNoIdent(ToUpper(w));
  }

  lemma KeywordNoIdent(upper: string)
    ensures Keyword(upper).Some? ==> !Keyword(upper).value.Ident?
  {
  }

  /** An identifier comes from a word, or from a quoted name. */
  lemma IdentifierOrigin(s: string, name: string, n: nat)
    requires s != "" && LEXIS.NextToken(s) == Scanned(Ident(name), n)
    ensures GoodName(LEXIS, name) || ('"' in s && '"' !in name)
  {
    IdentifierStart(LEXIS, s, name, n);
    if s[0] == '"' {
      QuotedBodyPlain(s[1..]);
    } else {
      WordRunIsWord(s);
      assert s[..WordRun(s)][0] == s[0];
      WordIsGood(s[..WordRun(s)], name);
    }
  }

  lemma {:induction false} DropLineWithin(s: string, c: char)
    requires c in DropLine(s)
    ensures c in s
  {
    if s != "" && s[0] != '\n' { DropLineWithin(s[1..], c); }
  }

  lemma {:induction false} SkipBlankWithin(s: string, c: char)
    requires c in SkipBlank(s)
    ensures c in s
    decreases |s|
  {
    if s != "" && IsBlank(s[0]) {
      SkipBlankWithin(s[1..], c);
    } else if s != "" && AtComment(s) {
      SkipBlankWithin(DropLine(s), c);
      DropLineWithin(s, c);
    }
  }

  lemma {:induction false} MentionedNames(s: string, name: string)
    requires LEXIS.Lex(s).Tokens? && Mentions(LEXIS.Lex(s).tokens, name)
    ensures GoodName(LEXIS, name) || ('"' in s && '"' !in name)
    decreases |s|
  {
    var t := SkipBlank(s);
    var n := LEXIS.NextToken(t).n;
    if LEXIS.NextToken(t).token == Ident(name) {
      IdentifierOrigin(t, name, n);
    } else {
      MentionedNames(t[n..], name);
    }
    if '"' in t { SkipBlankWithin(s, '"'); }
  }

  lemma {:induction false} MentionsLater(c: Cst, rest: Ast.Tokens, name: string)
    requires Mentions(rest, name)
    ensures Mentions(Spell(c, rest), name)
    decreases c
  {
    match c
    case BinC(op, l, r) => MentionsLater(r, rest, name); MentionsLater(l, Tok(OpToken(op), Spell(r, rest)), name);
    case NotC(x) => MentionsLater(x, rest, name);
    case NegC(x) => MentionsLater(x, rest, name);
    case IsNullC(x, negated) => MentionsLater(x, SpellIs(negated, rest), name);
    case BetweenC(x, lo, hi) =>
      MentionsLater(hi, rest, name);
      MentionsLater(lo, Tok(And, Spell(hi, rest)), name);
      MentionsLater(x, Tok(Between, Spell(lo, Tok(And, Spell(hi, rest)))), name);
    case InC(x, list, negated) =>
      MentionsLaterAll(list, Tok(RParen, rest), name);
      var tail := Tok(In, Tok(LParen, SpellAll(list, Tok(RParen, rest))));
      assert Mentions(tail, name);
      MentionsLater(x, SpellNegation(negated, tail), name);
    case LikeC(x, pattern, negated) =>
      var tail := Tok(Like, Tok(StrLit(pattern), rest));
      assert Mentions(tail, name);
      MentionsLater(x, SpellNegation(negated, tail), name);
    case ParenC(x) => MentionsLater(x, Tok(RParen, rest), name);
    case CallC(_, args) => MentionsLaterAll(args, Tok(RParen, rest), name);
    case _ =>
  }

  lemma {:induction false} MentionsLaterAll(cs: Csts, rest: Ast.Tokens, name: string)
    requires Mentions(rest, name)
    ensures Mentions(SpellAll(cs, rest), name)
    decreases cs
  {
    MentionsLater(cs.c, rest, name);
    if cs.More? { MentionsLaterAll(cs.init, Tok(Comma, Spell(cs.c, rest)), name); }
  }

  lemma {:induction false} MentionsAfterProjs(ps: Projs, rest: Ast.Tokens, name: string)
    requires Mentions(rest, name)
    ensures Mentions(SpellProjs(ps, rest), name)
    decreases ps
  {
    if ps.p.ExprP? { MentionsLater(ps.p.e, SpellAlias(ps.p.alias, rest), name); }
    if ps.MoreP? { MentionsAfterProjs(ps.init, Tok(Comma, SpellProj(ps.p, rest)), name); }
  }

  lemma {:induction false} ColumnMentioned(c: Cst, rest: Ast.Tokens, name: string)
    requires Denote(c) == Column(None, name)
    ensures Mentions(Spell(c, rest), name)
    decreases c
  {
    if c.ParenC? { ColumnMentioned(c.x, Tok(RParen, rest), name); }
  }

  lemma TableMentioned(ts: Ast.Tokens)
    requires IQL.ParseStatement(ts).Ok?
    ensures Mentions(ts, IQL.ParseStatement(ts).value.from.name)
  {
    var s := StatementSound(IQL, ts);
    var from := SpellTable(s.from, SpellJoins(s.joins, SpellFiltering(s, SpellOrdering(s, SpellEnd(s.semicolon)))));
    assert Mentions(from, s.from.name);
    MentionsAfterProjs(s.projections, Tok(From, from), s.from.name);
  }

  lemma ProjectionMentioned(ts: Ast.Tokens, name: string)
    requires IQL.ParseStatement(ts).Ok?
    requires IQL.ParseStatement(ts).value.projections == [ExprProjection(Column(None, name), None)]
    ensures Mentions(ts, name)
  {
    var s := StatementSound(IQL, ts);
    var ps := s.projections;
    assert |DenoteProjs(ps)| == 1;
    if ps.MoreP? {
      assert |DenoteProjs(ps.init)| > 0 by { ProjsNonEmpty(ps.init); }
      assert false;
    }
    assert DenoteProjs(ps)[0] == DenoteProj(ps.p);
    var rest := Tok(From, SpellTable(s.from, SpellJoins(s.joins, SpellFiltering(s, SpellOrdering(s, SpellEnd(s.semicolon))))));
    ColumnMentioned(ps.p.e, SpellAlias(ps.p.alias, rest), name);
  }

  lemma ProjsNonEmpty(ps: Projs)
    ensures |DenoteProjs(ps)| > 0
  {
  }

  /** The grammar's promise for a catalog: whatever it derives that fits and holds ASCII
      literals only is read back. */
  ghost predicate Promise(tables: seq<string>, columns: seq<string>) {
    forall s | DerivableSelect(NamesOf(tables, columns), s) && Fits(s) && PlainSelect(s) :: ReadBack(s)
  }

  function Bare(projections: Option<ProjsD>, table: string): SelectD {
    SelectD(projections, table, None, None, None, None, None, None)
  }

  lemma BareText(projections: Option<ProjsD>, table: string)
    requires projections.None? || (projections.value.OneQ? && projections.value.p.e.ColD? && projections.value.p.alias.None?)
    ensures '"' in Encode(TextSelect(READER.k, Bare(projections, table))) ==>
            '"' in table || (projections.Some? && '"' in projections.value.p.e.name)
  {
    EncodeKeepsAscii(TextSelect(READER.k, Bare(projections, table)), '"');
    assert '"' !in "SELECT" && '"' !in "FROM";
    var from := TextFrom(READER.k, Bare(projections, table));
    assert from == Sp("FROM" + Sp(table + [';']));
    assert '"' in from ==> '"' in table;
  }

  lemma BadTableBreaks(tables: seq<string>, columns: seq<string>, t: string)
    requires Promise(tables, columns) && t in tables
    ensures GoodName(LEXIS, t)
  {
    var s := Bare(None, t);
    assert DerivableSelect(NamesOf(tables, columns), s) && Fits(s) && PlainSelect(s);
    assert ReadBack(s);
    var text := Encode(TextSelect(READER.k, s));
    TableMentioned(LEXIS.Lex(text).tokens);
    MentionedNames(text, t);
    BareText(None, t);
  }

  lemma ProjectedName(text: string, sel: Select, c: string)
    requires Front(text) == Parsed(sel) && sel.projections == [ExprProjection(Column(None, c), None)]
    ensures GoodName(LEXIS, c) || ('"' in Encode(text) && '"' !in c)
  {
    ProjectionMentioned(LEXIS.Lex(Encode(text)).tokens, c);
    MentionedNames(Encode(text), c);
  }

  function OneColumn(c: string): Option<ProjsD> { Some(OneQ(ProjD(ColD(c), None))) }

  lemma OneColumnDerivable(tables: seq<string>, columns: seq<string>, t: string, c: string)
    requires t in tables && c in columns
    ensures DerivableSelect(NamesOf(tables, columns), Bare(OneColumn(c), t))
    ensures Fits(Bare(OneColumn(c), t)) && PlainSelect(Bare(OneColumn(c), t))
  {
  }

  lemma OneColumnDenotes(t: string, c: string)
    ensures DenoteSelect(ToSelect(IQL, Bare(OneColumn(c), t))).projections == [ExprProjection(Column(None, c), None)]
  {
  }

  lemma OneColumnReadBack(tables: seq<string>, columns: seq<string>, t: string, c: string)
    requires Promise(tables, columns) && t in tables && c in columns
    ensures GoodName(LEXIS, c) || ('"' in Encode(TextSelect(READER.k, Bare(OneColumn(c), t))) && '"' !in c)
  {
    OneColumnDerivable(tables, columns, t, c);
    OneColumnDenotes(t, c);
    var s := Bare(OneColumn(c), t);
    ProjectedName(TextSelect(READER.k, s), DenoteSelect(ToSelect(IQL, s)), c);
  }

  lemma BadColumnBreaks(tables: seq<string>, columns: seq<string>, t: string, c: string)
    requires Promise(tables, columns) && t in tables && c in columns
    ensures GoodName(LEXIS, c)
  {
    BadTableBreaks(tables, columns, t);
    OneColumnReadBack(tables, columns, t, c);
    assert '"' !in t;
    BareText(OneColumn(c), t);
  }

  /** The promise holds for a catalog exactly if each of its names is read as the
      identifier it spells: a keyword, or a name that is no word, breaks it. */
  lemma PromiseExactly(tables: seq<string>, columns: seq<string>)
    requires tables != []
    ensures Promise(tables, columns) <==> GoodTables(tables, columns)
  {
    if GoodTables(tables, columns) {
      forall s | DerivableSelect(NamesOf(tables, columns), s) && Fits(s) && PlainSelect(s) ensures ReadBack(s) {
        ReadBackExactly(tables, columns, s);
      }
    }
    if Promise(tables, columns) {
      forall t | t in tables ensures GoodName(LEXIS, t) { BadTableBreaks(tables, columns, t); }
      forall c | c in columns ensures GoodName(LEXIS, c) { BadColumnBreaks(tables, columns, tables[0], c); }
    }
  }

  /** No catalog makes the grammar keep its promise for all literals. */
  lemma NoCatalogIsEnough(tables: seq<string>, columns: seq<string>) returns (s: SelectD)
    requires tables != []
    ensures DerivableSelect(NamesOf(tables, columns), s) && Fits(s) && !ReadBack(s)
  {
    if GoodTables(tables, columns) {
      s := Bare(None, tables[0]).(filter := Some(StrD("\U{E9}")));
      AccentBytes();
      ReadBackExactly(tables, columns, s);
    } else {
      PromiseExactly(tables, columns);
      s :| DerivableSelect(NamesOf(tables, columns), s) && Fits(s) && PlainSelect(s) && !ReadBack(s);
    }
  }
}
