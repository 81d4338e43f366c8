/** The grammar handed to the language model, and what the lexer and parser make of every
    text it derives. */
module Copilot {
  import opened Options
  import opened Ast
  import opened Parser
  import opened Grammar
  import opened Statements
  import opened Lexer

  // ----- Derivation trees -----

  /** What the grammar is built from: the alternatives of its name rules. */
  datatype Names = Names(tables: seq<string>, columns: seq<string>, functions: seq<string>, units: seq<string>)

  /** Derivations of `expr` and below; the repetition of a rule nests to the left. */
  datatype D =
    | BinD(op: BinOp, l: D, r: D)
    | ColD(name: string)
    | IntD(digits: string)
    | FloatD(whole: string, fraction: string)
    | StrD(text: string)
    | TrueD | FalseD | NullD
    | CallD(name: string, args: Ds)
    | EmptyCallD(name: string)
    | IntervalD(digits: string, blanks: nat, unit: string)
    | ParenD(x: D)

  datatype Ds = OneD(d: D) | MoreD(init: Ds, d: D)

  datatype ProjD = ProjD(e: D, alias: Option<string>)

  datatype ProjsD = OneQ(p: ProjD) | MoreQ(init: ProjsD, p: ProjD)

  datatype OrderD = OrderD(e: D, dir: DirC)

  datatype OrdersD = OneR(o: OrderD) | MoreR(init: OrdersD, o: OrderD)

  datatype SelectD = SelectD(
    projections: Option<ProjsD>,   // nothing stands for the star
    table: string, filter: Option<D>, groupBy: Option<Ds>, having: Option<D>,
    orderBy: Option<OrdersD>, limit: Option<string>, offset: Option<string>)

  function LevelD(d: D): nat { if d.BinD? then OpLevel(d.op) else 7 }

  predicate Number(s: string) { s != "" && AllDigits(s) }

  ghost predicate Derivable(ns: Names, d: D) {
    match d
    case BinD(op, l, r) =>
      op != Mod && Derivable(ns, l) && Derivable(ns, r) && LevelD(l) >= LeftLevel(op) && LevelD(r) >= RightLevel(op)
    case ColD(name) => name in ns.columns
    case IntD(digits) => Number(digits)
    case FloatD(whole, fraction) => Number(whole) && Number(fraction)
    case StrD(text) => '\'' !in text
    case CallD(name, args) => name in ns.functions && DerivableAll(ns, args)
    case EmptyCallD(name) => name in ns.functions
    case IntervalD(digits, blanks, unit) => Number(digits) && blanks > 0 && unit in ns.units
    case ParenD(x) => Derivable(ns, x)
    case _ => true
  }

  ghost predicate DerivableAll(ns: Names, ds: Ds) {
    match ds case OneD(d) => Derivable(ns, d) case MoreD(init, d) => DerivableAll(ns, init) && Derivable(ns, d)
  }

  ghost predicate DerivableProj(ns: Names, p: ProjD) {
    Derivable(ns, p.e) && (p.alias.Some? ==> p.alias.value in ns.columns)
  }

  ghost predicate DerivableProjs(ns: Names, ps: ProjsD) {
    match ps
    case OneQ(p) => DerivableProj(ns, p)
    case MoreQ(init, p) => DerivableProjs(ns, init) && DerivableProj(ns, p)
  }

  ghost predicate DerivableOrders(ns: Names, os: OrdersD) {
    match os
    case OneR(o) => Derivable(ns, o.e)
    case MoreR(init, o) => DerivableOrders(ns, init) && Derivable(ns, o.e)
  }

  ghost predicate DerivableSelect(ns: Names, s: SelectD) {
    && (s.projections.Some? ==> DerivableProjs(ns, s.projections.value))
    && s.table in ns.tables
    && (s.filter.Some? ==> Derivable(ns, s.filter.value))
    && (s.groupBy.Some? ==> DerivableAll(ns, s.groupBy.value))
    && (s.having.Some? ==> Derivable(ns, s.having.value))
    && (s.orderBy.Some? ==> DerivableOrders(ns, s.orderBy.value))
    && (s.limit.Some? ==> Number(s.limit.value))
    && (s.offset.Some? ==> Number(s.offset.value))
  }

  // ----- The derived text, followed by `rest` -----

  /** How the grammar spells each keyword */
  type Words = Token -> string

  predicate IsKeyword(t: Token) {
    t.Select? || t.From? || t.Where? || t.And? || t.Or? || t.As? || t.Group? || t.By? || t.Having? || t.Order?
    || t.Asc? || t.Desc? || t.Limit? || t.Offset? || t.True? || t.False? || t.Null? || t.Interval?
  }

  function Sp(rest: string): string { [' '] + rest }

  function Blanks(n: nat): string { if n == 0 then "" else [' '] + Blanks(n - 1) }

  function OpText(k: Words, op: BinOp): string {
    match op
    case Mul => ['*']
    case Div => ['/']
    case Mod => ['%']
    case Add => ['+']
    case Sub => ['-']
    case EqOp => ['=']
    case NotEqOp => ['!', '=']
    case LtOp => ['<']
    case LtEqOp => ['<', '=']
    case GtOp => ['>']
    case GtEqOp => ['>', '=']
    case AndOp => k(And)
    case OrOp => k(Or)
  }

  function IntervalText(digits: string, blanks: nat, unit: string): string { digits + Blanks(blanks) + unit }

  function Quoted(text: string, rest: string): string { ['\''] + (text + (['\''] + rest)) }

  function Text(k: Words, d: D, rest: string): string
    decreases d
  {
    match d
    case BinD(op, l, r) => Text(k, l, Sp(OpText(k, op) + Sp(Text(k, r, rest))))
    case ColD(name) => name + rest
    case IntD(digits) => digits + rest
    case FloatD(whole, fraction) => whole + (['.'] + (fraction + rest))
    case StrD(text) => Quoted(text, rest)
    case TrueD => k(True) + rest
    case FalseD => k(False) + rest
    case NullD => k(Null) + rest
    case CallD(name, args) => name + (['('] + TextAll(k, args, [')'] + rest))
    case EmptyCallD(name) => name + (['('] + ([')'] + rest))
    case IntervalD(digits, blanks, unit) => k(Interval) + Sp(Quoted(IntervalText(digits, blanks, unit), rest))
    case ParenD(x) => ['('] + Text(k, x, [')'] + rest)
  }

  function TextAll(k: Words, ds: Ds, rest: string): string
    decreases ds
  {
    match ds
    case OneD(d) => Text(k, d, rest)
    case MoreD(init, d) => TextAll(k, init, [','] + Sp(Text(k, d, rest)))
  }

  function TextAlias(k: Words, alias: Option<string>, rest: string): string {
    match alias case None => rest case Some(name) => Sp(k(As) + Sp(name + rest))
  }

  function TextProj(k: Words, p: ProjD, rest: string): string { Text(k, p.e, TextAlias(k, p.alias, rest)) }

  function TextProjs(k: Words, ps: ProjsD, rest: string): string
    decreases ps
  {
    match ps
    case OneQ(p) => TextProj(k, p, rest)
    case MoreQ(init, p) => TextProjs(k, init, [','] + Sp(TextProj(k, p, rest)))
  }

  function TextDir(k: Words, d: DirC, rest: string): string {
    match d case NoDir => rest case AscD => Sp(k(Asc) + rest) case DescD => Sp(k(Desc) + rest)
  }

  function TextOrder(k: Words, o: OrderD, rest: string): string { Text(k, o.e, TextDir(k, o.dir, rest)) }

  function TextOrders(k: Words, os: OrdersD, rest: string): string
    decreases os
  {
    match os
    case OneR(o) => TextOrder(k, o, rest)
    case MoreR(init, o) => TextOrders(k, init, [','] + Sp(TextOrder(k, o, rest)))
  }

  function TextClause(k: Words, keyword: Token, d: Option<D>, rest: string): string {
    match d case None => rest case Some(x) => Sp(k(keyword) + Sp(Text(k, x, rest)))
  }

  function TextCount(k: Words, keyword: Token, n: Option<string>, rest: string): string {
    match n case None => rest case Some(digits) => Sp(k(keyword) + Sp(digits + rest))
  }

  function TextGroupBy(k: Words, ds: Option<Ds>, rest: string): string {
    match ds case None => rest case Some(list) => Sp(k(Group) + Sp(k(By) + Sp(TextAll(k, list, rest))))
  }

  function TextOrderBy(k: Words, os: Option<OrdersD>, rest: string): string {
    match os case None => rest case Some(list) => Sp(k(Order) + Sp(k(By) + Sp(TextOrders(k, list, rest))))
  }

  function TextOrdering(k: Words, s: SelectD): string {
    TextOrderBy(k, s.orderBy, TextCount(k, Limit, s.limit, TextCount(k, Offset, s.offset, [';'])))
  }

  function TextFiltering(k: Words, s: SelectD): string {
    TextClause(k, Where, s.filter, TextGroupBy(k, s.groupBy, TextClause(k, Having, s.having, TextOrdering(k, s))))
  }

  function TextFrom(k: Words, s: SelectD): string { Sp(k(From) + Sp(s.table + TextFiltering(k, s))) }

  function TextSelect(k: Words, s: SelectD): string {
    k(Token.Select) + Sp(match s.projections case None => ['*'] + TextFrom(k, s) case Some(ps) => TextProjs(k, ps, TextFrom(k, s)))
  }

  // ----- The tree a derivation stands for -----

  function ToCst(g: Iql, d: D): Cst
    decreases d
  {
    match d
    case BinD(op, l, r) => BinC(op, ToCst(g, l), ToCst(g, r))
    case ColD(name) => ColumnC(name)
    case IntD(digits) => LitC(IntL(Value(digits)))
    case FloatD(whole, fraction) => LitC(FloatL(Fraction(whole, fraction)))
    case StrD(text) => LitC(StrL(text))
    case TrueD => LitC(BoolL(true))
    case FalseD => LitC(BoolL(false))
    case NullD => LitC(NullL)
    case CallD(name, args) => CallC(name, ToCsts(g, args))
    case EmptyCallD(name) => EmptyCallC(name)
    case IntervalD(digits, blanks, unit) =>
      var text := IntervalText(digits, blanks, unit);
      IntervalC(text, match g.interval(text) case Some(ns) => ns case None => 0)
    case ParenD(x) => ParenC(ToCst(g, x))
  }

  function Value(digits: string): nat { if AllDigits(digits) then Decimal(digits) else 0 }

  function Fraction(whole: string, fraction: string): real {
    if AllDigits(whole) && AllDigits(fraction) then FloatValue(whole, fraction) else 0.0
  }

  function ToCsts(g: Iql, ds: Ds): Csts
    decreases ds
  {
    match ds case OneD(d) => One(ToCst(g, d)) case MoreD(init, d) => More(ToCsts(g, init), ToCst(g, d))
  }

  function ToAlias(alias: Option<string>): AliasC {
    match alias case None => NoAlias case Some(name) => AsAlias(name)
  }

  function ToProjs(g: Iql, ps: ProjsD): Projs {
    match ps
    case OneQ(p) => OneP(ExprP(ToCst(g, p.e), ToAlias(p.alias)))
    case MoreQ(init, p) => MoreP(ToProjs(g, init), ExprP(ToCst(g, p.e), ToAlias(p.alias)))
  }

  function ToOrders(g: Iql, os: OrdersD): Orders {
    match os
    case OneR(o) => OneO(OrderC(ToCst(g, o.e), o.dir))
    case MoreR(init, o) => MoreO(ToOrders(g, init), OrderC(ToCst(g, o.e), o.dir))
  }

  function ToOpt(g: Iql, d: Option<D>): Option<Cst> {
    match d case None => None case Some(x) => Some(ToCst(g, x))
  }

  function ToCount(n: Option<string>): Option<int> {
    match n case None => None case Some(digits) => Some(Value(digits))
  }

  function ToGroup(g: Iql, ds: Option<Ds>): Option<Csts> {
    match ds case None => None case Some(list) => Some(ToCsts(g, list))
  }

  function ToOrderBy(g: Iql, os: Option<OrdersD>): Option<Orders> {
    match os case None => None case Some(list) => Some(ToOrders(g, list))
  }

  function ToSelect(g: Iql, s: SelectD): SelectC {
    SelectC(false,
      match s.projections case None => OneP(StarP) case Some(ps) => ToProjs(g, ps),
      TableC(s.table, NoAlias), NoJ, ToOpt(g, s.filter),
      ToGroup(g, s.groupBy),
      ToOpt(g, s.having),
      ToOrderBy(g, s.orderBy),
      ToCount(s.limit), ToCount(s.offset), true)
  }

  // ----- What the lexer can take: integers of i64, literals without NUL -----

  predicate FitsInt(digits: string) { IsI64(Value(digits)) }

  predicate Lexable(d: D) {
    match d
    case BinD(_, l, r) => Lexable(l) && Lexable(r)
    case IntD(digits) => FitsInt(digits)
    case StrD(text) => '\0' !in text
    case CallD(_, args) => LexableAll(args)
    case ParenD(x) => Lexable(x)
    case _ => true
  }

  predicate LexableAll(ds: Ds) {
    match ds case OneD(d) => Lexable(d) case MoreD(init, d) => LexableAll(init) && Lexable(d)
  }

  predicate LexableProjs(ps: ProjsD) {
    match ps case OneQ(p) => Lexable(p.e) case MoreQ(init, p) => LexableProjs(init) && Lexable(p.e)
  }

  predicate LexableOrders(os: OrdersD) {
    match os case OneR(o) => Lexable(o.e) case MoreR(init, o) => LexableOrders(init) && Lexable(o.e)
  }

  predicate LexableSelect(s: SelectD) {
    && (s.projections.Some? ==> LexableProjs(s.projections.value))
    && (s.filter.Some? ==> Lexable(s.filter.value))
    && (s.groupBy.Some? ==> LexableAll(s.groupBy.value))
    && (s.having.Some? ==> Lexable(s.having.value))
    && (s.orderBy.Some? ==> LexableOrders(s.orderBy.value))
    && (s.limit.Some? ==> FitsInt(s.limit.value))
    && (s.offset.Some? ==> FitsInt(s.offset.value))
  }

  // ----- Reading one token -----

  predicate IsWord(w: string) {
    w != "" && IsWordStart(w[0]) && forall i | 0 <= i < |w| :: IsWordChar(w[i])
  }

  /** `n` is read as the identifier it spells. */
  ghost predicate GoodName(l: Lexis, n: string) { IsWord(n) && l.word(n) == Ident(n) }

  ghost predicate GoodNames(l: Lexis, ns: Names) {
    && (forall n | n in ns.tables :: GoodName(l, n))
    && (forall n | n in ns.columns :: GoodName(l, n))
    && (forall n | n in ns.functions :: GoodName(l, n))
    && (forall u | u in ns.units :: '\'' !in u && '\0' !in u)
  }

  /** A lexer, its function, and a spelling of the keywords that it reads back */
  datatype Reader = Reader(l: Lexis, lex: string -> LexResult, k: Words) {

    ghost predicate Valid() {
      && (forall s {:trigger l.Lex(s)} :: lex(s) == l.Lex(s))
      && (forall t | IsKeyword(t) :: IsWord(k(t)) && l.word(k(t)) == t)
    }
  }

  /** What may follow a name or a number in a derived text */
  predicate Stop(rest: string) { rest != "" && rest[0] in {' ', ',', ')', ';', '('} }

  lemma LexStep(rd: Reader, s: string, token: Token, n: nat)
    requires rd.Valid() && s != "" && !IsBlank(s[0]) && !AtComment(s) && rd.l.NextToken(s) == Scanned(token, n)
    ensures rd.lex(s) == Push(token, rd.lex(s[n..]))
  {
    assert SkipBlank(s) == s;
    assert rd.l.Lex(s) == Push(token, rd.l.Lex(s[n..]));
  }

  lemma LexFails(rd: Reader, s: string, e: LexError)
    requires rd.Valid() && s != "" && !IsBlank(s[0]) && !AtComment(s) && rd.l.NextToken(s) == ScanErr(e)
    ensures rd.lex(s) == LexErr(e)
  {
    assert SkipBlank(s) == s;
    assert rd.l.Lex(s) == LexErr(e);
  }

  lemma LexBlank(rd: Reader, rest: string)
    requires rd.Valid()
    ensures rd.lex(Sp(rest)) == rd.lex(rest)
  {
    assert Sp(rest)[1..] == rest;
    assert rd.l.Lex(Sp(rest)) == rd.l.Lex(rest);
  }

  lemma LexSymbol(rd: Reader, c: char, rest: string)
    requires rd.Valid() && Symbol(c).Some? && (c != '-' || (rest != "" && rest[0] == ' '))
    ensures rd.lex([c] + rest) == Push(Symbol(c).value, rd.lex(rest))
  {
    var s := [c] + rest;
    assert s[1..] == rest;
    LexStep(rd, s, Symbol(c).value, 1);
  }

  lemma {:induction false} WordRunOf(w: string, rest: string)
    requires (forall i | 0 <= i < |w| :: IsWordChar(w[i])) && (rest == "" || !IsWordChar(rest[0]))
    ensures WordRun(w + rest) == |w|
  {
    if w == "" {
      assert w + rest == rest;
    } else {
      assert (w + rest)[1..] == w[1..] + rest;
      WordRunOf(w[1..], rest);
    }
  }

  lemma LexWord(rd: Reader, w: string, rest: string)
    requires rd.Valid() && IsWord(w) && (rest == "" || !IsWordChar(rest[0]))
    ensures rd.lex(w + rest) == Push(rd.l.word(w), rd.lex(rest))
  {
    var s := w + rest;
    WordRunOf(w, rest);
    assert s[0] == w[0] && s[..|w|] == w && s[|w|..] == rest;
    LexStep(rd, s, rd.l.word(w), |w|);
  }

  lemma {:induction false} DigitRunOf(digits: string, rest: string)
    requires AllDigits(digits) && (rest == "" || !IsDigit(rest[0]))
    ensures DigitRun(digits + rest) == |digits|
  {
    if digits == "" {
      assert digits + rest == rest;
    } else {
      assert (digits + rest)[1..] == digits[1..] + rest;
      DigitRunOf(digits[1..], rest);
    }
  }

  lemma LexInt(rd: Reader, digits: string, rest: string)
    requires rd.Valid() && Number(digits) && Stop(rest)
    ensures rd.lex(digits + rest) ==
            if FitsInt(digits) then Push(IntLit(Value(digits)), rd.lex(rest)) else LexErr(IntegerOverflow)
  {
    var s := digits + rest;
    DigitRunOf(digits, rest);
    assert s[0] == digits[0] && s[..|digits|] == digits && s[|digits|..] == rest;
    assert s[|digits|] == rest[0];
    assert rd.l.NextToken(s) == ScanNumber(s);
    if FitsInt(digits) {
      LexStep(rd, s, IntLit(Value(digits)), |digits|);
    } else {
      LexFails(rd, s, IntegerOverflow);
    }
  }

  lemma ScanFloat(whole: string, fraction: string, rest: string)
    requires Number(whole) && Number(fraction) && Stop(rest)
    ensures ScanNumber(whole + (['.'] + (fraction + rest)))
         == Scanned(FloatLit(Fraction(whole, fraction)), |whole| + 1 + |fraction|)
  {
    var tail := ['.'] + (fraction + rest);
    var s, k, m := whole + tail, |whole|, |fraction|;
    DigitRunOf(whole, tail);
    DigitRunOf(fraction, rest);
    assert s[..k] == whole && s[k] == '.';
    assert s[k + 1] == fraction[0];
    assert s[k + 1..] == fraction + rest;
    assert (fraction + rest)[..m] == fraction;
  }

  lemma LexFloat(rd: Reader, whole: string, fraction: string, rest: string)
    requires rd.Valid() && Number(whole) && Number(fraction) && Stop(rest)
    ensures rd.lex(whole + (['.'] + (fraction + rest))) == Push(FloatLit(Fraction(whole, fraction)), rd.lex(rest))
  {
    var s := whole + (['.'] + (fraction + rest));
    ScanFloat(whole, fraction, rest);
    assert s[0] == whole[0];
    assert s[|whole| + 1 + |fraction|..] == rest;
    assert rd.l.NextToken(s) == ScanNumber(s);
    LexStep(rd, s, FloatLit(Fraction(whole, fraction)), |whole| + 1 + |fraction|);
  }

  lemma {:induction false} StringBodyOf(text: string, rest: string)
    requires '\'' !in text && (rest == "" || rest[0] != '\'')
    ensures StringBody(text + (['\''] + rest)) == if '\0' in text then Unterminated else Body(text, |text| + 1)
  {
    var s := text + (['\''] + rest);
    if text == "" {
      assert s == ['\''] + rest;
    } else {
      assert s[0] == text[0] && s[1..] == text[1..] + (['\''] + rest);
      assert text == [text[0]] + text[1..];
      StringBodyOf(text[1..], rest);
    }
  }

  lemma LexQuoted(rd: Reader, text: string, rest: string)
    requires rd.Valid() && '\'' !in text && (rest == "" || rest[0] != '\'')
    ensures rd.lex(Quoted(text, rest)) ==
            if '\0' in text then LexErr(UnterminatedString) else Push(StrLit(text), rd.lex(rest))
  {
    var s := Quoted(text, rest);
    assert s[0] == '\'' && s[1..] == text + (['\''] + rest);
    StringBodyOf(text, rest);
    assert s[|text| + 2..] == rest;
    if '\0' in text {
      LexFails(rd, s, UnterminatedString);
    } else {
      LexStep(rd, s, StrLit(text), |text| + 2);
    }
  }

  lemma LexAngle(rd: Reader, a: char, rest: string)
    requires rd.Valid() && a in {'<', '>'} && rest != "" && rest[0] == ' '
    ensures rd.lex([a] + rest) == Push(if a == '<' then Lt else Gt, rd.lex(rest))
  {
    var s := [a] + rest;
    assert s[1..] == rest && s[1] == ' ';
    LexStep(rd, s, if a == '<' then Lt else Gt, 1);
  }

  lemma LexComparison(rd: Reader, a: char, rest: string)
    requires rd.Valid() && a in {'<', '>', '!'}
    ensures rd.lex([a, '='] + rest) == Push(if a == '<' then LtEq else if a == '>' then GtEq else NotEq, rd.lex(rest))
  {
    var s := [a, '='] + rest;
    assert s[2..] == rest && s[1] == '=';
    LexStep(rd, s, if a == '<' then LtEq else if a == '>' then GtEq else NotEq, 2);
  }

  lemma LexOp(rd: Reader, op: BinOp, rest: string)
    requires rd.Valid() && op != Mod
    ensures rd.lex(Sp(OpText(rd.k, op) + Sp(rest))) == Push(OpToken(op), rd.lex(rest))
  {
    LexBlank(rd, OpText(rd.k, op) + Sp(rest));
    LexBlank(rd, rest);
    match op
    case Mul => LexSymbol(rd, '*', Sp(rest));
    case Div => LexSymbol(rd, '/', Sp(rest));
    case Add => LexSymbol(rd, '+', Sp(rest));
    case Sub => LexSymbol(rd, '-', Sp(rest));
    case EqOp => LexSymbol(rd, '=', Sp(rest));
    case NotEqOp => LexComparison(rd, '!', Sp(rest));
    case LtOp => LexAngle(rd, '<', Sp(rest));
    case LtEqOp => LexComparison(rd, '<', Sp(rest));
    case GtOp => LexAngle(rd, '>', Sp(rest));
    case GtEqOp => LexComparison(rd, '>', Sp(rest));
    case AndOp => assert IsKeyword(And); LexWord(rd, rd.k(And), Sp(rest));
    case OrOp => assert IsKeyword(Or); LexWord(rd, rd.k(Or), Sp(rest));
  }
}
