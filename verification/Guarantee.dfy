/** What the lexer and the parser make of a derived text, taken as the characters that the
    lexer sees: it is read back as the tree it was derived from, exactly when its numbers fit
    and its literals are free of NUL. */
module Guarantee {
  import opened Options
  import opened Ast
  import opened Parser
  import opened Grammar
  import opened Statements
  import opened Lexer
  import opened Copilot
  import opened Frontend

  // ----- Lexing a derived text -----

  /** Lexing succeeds with `tokens` exactly if `ok`. */
  predicate Reading(r: LexResult, ok: bool, tokens: Ast.Tokens) {
    if ok then r == LexResult.Tokens(tokens) else r.LexErr?
  }

  function After(r: LexResult): Ast.Tokens { if r.Tokens? then r.tokens else End }

  lemma LexKeyword(rd: Reader, t: Token, rest: string)
    requires rd.Valid() && IsKeyword(t) && Stop(rest)
    ensures rd.lex(rd.k(t) + rest) == Push(t, rd.lex(rest))
    ensures rd.lex(Sp(rd.k(t) + rest)) == Push(t, rd.lex(rest))
    ensures rd.lex(rd.k(t) + Sp(rest)) == Push(t, rd.lex(rest))
    ensures rd.lex(Sp(rd.k(t) + Sp(rest))) == Push(t, rd.lex(rest))
  {
    LexWord(rd, rd.k(t), rest);
    LexWord(rd, rd.k(t), Sp(rest));
    LexBlank(rd, rest);
    LexBlank(rd, rd.k(t) + rest);
    LexBlank(rd, rd.k(t) + Sp(rest));
  }

  lemma LexKeywordThen(rd: Reader, t: Token, rest: string)
    requires rd.Valid() && IsKeyword(t)
    ensures rd.lex(rd.k(t) + Sp(rest)) == Push(t, rd.lex(rest))
    ensures rd.lex(Sp(rd.k(t) + Sp(rest))) == Push(t, rd.lex(rest))
  {
    LexWord(rd, rd.k(t), Sp(rest));
    LexBlank(rd, rest);
    LexBlank(rd, rd.k(t) + Sp(rest));
  }

  lemma LexInterval(rd: Reader, ns: Names, digits: string, blanks: nat, unit: string, rest: string)
    requires rd.Valid() && GoodNames(rd.l, ns) && Number(digits) && unit in ns.units && Stop(rest)
    ensures var text := IntervalText(digits, blanks, unit);
            rd.lex(rd.k(Interval) + Sp(Quoted(text, rest))) == Push(Interval, Push(StrLit(text), rd.lex(rest)))
  {
    var text := IntervalText(digits, blanks, unit);
    PlainInterval(digits, blanks, unit);
    LexKeywordThen(rd, Interval, Quoted(text, rest));
    LexQuoted(rd, text, rest);
  }

  lemma BlanksPlain(n: nat)
    ensures |Blanks(n)| == n && forall i | 0 <= i < n :: Blanks(n)[i] == ' '
  {
  }

  lemma PlainInterval(digits: string, blanks: nat, unit: string)
    requires Number(digits) && '\'' !in unit && '\0' !in unit
    ensures '\'' !in IntervalText(digits, blanks, unit) && '\0' !in IntervalText(digits, blanks, unit)
  {
    BlanksPlain(blanks);
  }

  lemma LexConstant(rd: Reader, g: Iql, ns: Names, d: D, rest: string)
    requires rd.Valid() && d in {TrueD, FalseD, NullD} && Stop(rest)
    ensures Reads1(rd, g, d, rest)
  {
    LexKeyword(rd, match d case TrueD => True case FalseD => False case _ => Null, rest);
  }

  lemma LexLiteral(rd: Reader, g: Iql, ns: Names, d: D, rest: string)
    requires rd.Valid() && Derivable(ns, d) && (d.IntD? || d.FloatD? || d.StrD?) && Stop(rest)
    ensures Reads1(rd, g, d, rest)
  {
    match d
    case IntD(digits) => LexInt(rd, digits, rest);
    case FloatD(whole, fraction) => LexFloat(rd, whole, fraction, rest);
    case StrD(text) => LexQuoted(rd, text, rest);
  }

  lemma LexParens(rd: Reader, inner: string, rest: string)
    requires rd.Valid()
    ensures rd.lex(['('] + inner) == Push(LParen, rd.lex(inner))
    ensures rd.lex([')'] + rest) == Push(RParen, rd.lex(rest))
  {
    LexSymbol(rd, '(', inner);
    LexSymbol(rd, ')', rest);
  }

  lemma LexEmptyCall(rd: Reader, name: string, rest: string)
    requires rd.Valid() && GoodName(rd.l, name)
    ensures rd.lex(name + (['('] + ([')'] + rest))) == Push(Ident(name), Push(LParen, Push(RParen, rd.lex(rest))))
  {
    LexWord(rd, name, ['('] + ([')'] + rest));
    LexParens(rd, [')'] + rest, rest);
  }

  lemma LexCall(rd: Reader, name: string, args: string, rest: string)
    requires rd.Valid() && GoodName(rd.l, name)
    ensures rd.lex(name + (['('] + args)) == Push(Ident(name), Push(LParen, rd.lex(args)))
    ensures rd.lex([')'] + rest) == Push(RParen, rd.lex(rest))
  {
    LexWord(rd, name, ['('] + args);
    LexParens(rd, args, rest);
  }

  /** The text of `d` before `rest` lexes to the spelling of its tree before the tokens of
      `rest`, unless `d` holds a literal the lexer refuses. */
  ghost predicate Reads1(rd: Reader, g: Iql, d: D, rest: string) {
    Reading(rd.lex(Text(rd.k, d, rest)), Lexable(d) && rd.lex(rest).Tokens?, Spell(ToCst(g, d), After(rd.lex(rest))))
  }

  lemma {:induction false} LexText(rd: Reader, g: Iql, ns: Names, d: D, rest: string)
    requires rd.Valid() && GoodNames(rd.l, ns) && Derivable(ns, d) && Stop(rest)
    ensures Reads1(rd, g, d, rest)
    decreases d
  {
    match d
    case BinD(op, left, r) =>
      LexText(rd, g, ns, r, rest);
      LexOp(rd, op, Text(rd.k, r, rest));
      LexText(rd, g, ns, left, Sp(OpText(rd.k, op) + Sp(Text(rd.k, r, rest))));
    case CallD(name, args) =>
      LexCall(rd, name, TextAll(rd.k, args, [')'] + rest), rest);
      LexTexts(rd, g, ns, args, [')'] + rest);
    case ParenD(x) =>
      LexParens(rd, Text(rd.k, x, [')'] + rest), rest);
      LexText(rd, g, ns, x, [')'] + rest);
    case ColD(name) => LexWord(rd, name, rest);
    case EmptyCallD(name) => LexEmptyCall(rd, name, rest);
    case IntervalD(digits, blanks, unit) => LexInterval(rd, ns, digits, blanks, unit, rest);
    case TrueD => LexConstant(rd, g, ns, d, rest);
    case FalseD => LexConstant(rd, g, ns, d, rest);
    case NullD => LexConstant(rd, g, ns, d, rest);
    case _ => LexLiteral(rd, g, ns, d, rest);
  }

  lemma {:induction false} LexTexts(rd: Reader, g: Iql, ns: Names, ds: Ds, rest: string)
    requires rd.Valid() && GoodNames(rd.l, ns) && DerivableAll(ns, ds) && Stop(rest)
    ensures Reading(rd.lex(TextAll(rd.k, ds, rest)), LexableAll(ds) && rd.lex(rest).Tokens?,
                    SpellAll(ToCsts(g, ds), After(rd.lex(rest))))
    decreases ds
  {
    match ds
    case OneD(d) => LexText(rd, g, ns, d, rest);
    case MoreD(init, d) =>
      LexText(rd, g, ns, d, rest);
      LexComma(rd, Text(rd.k, d, rest));
      LexTexts(rd, g, ns, init, [','] + Sp(Text(rd.k, d, rest)));
  }

  lemma LexComma(rd: Reader, rest: string)
    requires rd.Valid()
    ensures rd.lex([','] + Sp(rest)) == Push(Comma, rd.lex(rest))
  {
    LexSymbol(rd, ',', Sp(rest));
    LexBlank(rd, rest);
  }

  lemma LexProj(rd: Reader, g: Iql, ns: Names, p: ProjD, rest: string)
    requires rd.Valid() && GoodNames(rd.l, ns) && DerivableProj(ns, p) && Stop(rest)
    ensures Reading(rd.lex(TextProj(rd.k, p, rest)), Lexable(p.e) && rd.lex(rest).Tokens?,
                    SpellProj(ExprP(ToCst(g, p.e), ToAlias(p.alias)), After(rd.lex(rest))))
  {
    var tail := TextAlias(rd.k, p.alias, rest);
    if p.alias.Some? {
      LexWord(rd, p.alias.value, rest);
      LexKeywordThen(rd, As, p.alias.value + rest);
    }
    LexText(rd, g, ns, p.e, tail);
  }

  lemma {:induction false} LexProjs(rd: Reader, g: Iql, ns: Names, ps: ProjsD, rest: string)
    requires rd.Valid() && GoodNames(rd.l, ns) && DerivableProjs(ns, ps) && Stop(rest)
    ensures Reading(rd.lex(TextProjs(rd.k, ps, rest)), LexableProjs(ps) && rd.lex(rest).Tokens?,
                    SpellProjs(ToProjs(g, ps), After(rd.lex(rest))))
    decreases ps
  {
    match ps
    case OneQ(p) => LexProj(rd, g, ns, p, rest);
    case MoreQ(init, p) =>
      LexProj(rd, g, ns, p, rest);
      LexComma(rd, TextProj(rd.k, p, rest));
      LexProjs(rd, g, ns, init, [','] + Sp(TextProj(rd.k, p, rest)));
  }

  lemma LexOrder(rd: Reader, g: Iql, ns: Names, o: OrderD, rest: string)
    requires rd.Valid() && GoodNames(rd.l, ns) && Derivable(ns, o.e) && Stop(rest)
    ensures Reading(rd.lex(TextOrder(rd.k, o, rest)), Lexable(o.e) && rd.lex(rest).Tokens?,
                    SpellOrder(OrderC(ToCst(g, o.e), o.dir), After(rd.lex(rest))))
  {
    if o.dir.AscD? { LexKeyword(rd, Asc, rest); }
    if o.dir.DescD? { LexKeyword(rd, Desc, rest); }
    LexText(rd, g, ns, o.e, TextDir(rd.k, o.dir, rest));
  }

  lemma {:induction false} LexOrders(rd: Reader, g: Iql, ns: Names, os: OrdersD, rest: string)
    requires rd.Valid() && GoodNames(rd.l, ns) && DerivableOrders(ns, os) && Stop(rest)
    ensures Reading(rd.lex(TextOrders(rd.k, os, rest)), LexableOrders(os) && rd.lex(rest).Tokens?,
                    SpellOrders(ToOrders(g, os), After(rd.lex(rest))))
    decreases os
  {
    match os
    case OneR(o) => LexOrder(rd, g, ns, o, rest);
    case MoreR(init, o) =>
      LexOrder(rd, g, ns, o, rest);
      LexComma(rd, TextOrder(rd.k, o, rest));
      LexOrders(rd, g, ns, init, [','] + Sp(TextOrder(rd.k, o, rest)));
  }

  lemma LexClause(rd: Reader, g: Iql, ns: Names, keyword: Token, d: Option<D>, rest: string)
    requires rd.Valid() && GoodNames(rd.l, ns) && IsKeyword(keyword) && (d.Some? ==> Derivable(ns, d.value)) && Stop(rest)
    ensures Stop(TextClause(rd.k, keyword, d, rest))
    ensures Reading(rd.lex(TextClause(rd.k, keyword, d, rest)), (d.Some? ==> Lexable(d.value)) && rd.lex(rest).Tokens?,
                    SpellClause(keyword, ToOpt(g, d), After(rd.lex(rest))))
  {
    if d.Some? {
      LexText(rd, g, ns, d.value, rest);
      LexKeywordThen(rd, keyword, Text(rd.k, d.value, rest));
    }
  }

  lemma LexCount(rd: Reader, keyword: Token, n: Option<string>, rest: string)
    requires rd.Valid() && IsKeyword(keyword) && (n.Some? ==> Number(n.value)) && Stop(rest)
    ensures Stop(TextCount(rd.k, keyword, n, rest))
    ensures Reading(rd.lex(TextCount(rd.k, keyword, n, rest)), (n.Some? ==> FitsInt(n.value)) && rd.lex(rest).Tokens?,
                    SpellCount(keyword, ToCount(n), After(rd.lex(rest))))
  {
    if n.Some? {
      LexInt(rd, n.value, rest);
      LexKeywordThen(rd, keyword, n.value + rest);
    }
  }

  lemma LexGroupBy(rd: Reader, g: Iql, ns: Names, ds: Option<Ds>, rest: string)
    requires rd.Valid() && GoodNames(rd.l, ns) && (ds.Some? ==> DerivableAll(ns, ds.value)) && Stop(rest)
    ensures Stop(TextGroupBy(rd.k, ds, rest))
    ensures Reading(rd.lex(TextGroupBy(rd.k, ds, rest)), (ds.Some? ==> LexableAll(ds.value)) && rd.lex(rest).Tokens?,
                    SpellGroupBy(ToGroup(g, ds), After(rd.lex(rest))))
  {
    if ds.Some? {
      LexTexts(rd, g, ns, ds.value, rest);
      LexKeywordThen(rd, By, TextAll(rd.k, ds.value, rest));
      LexKeywordThen(rd, Group, rd.k(By) + Sp(TextAll(rd.k, ds.value, rest)));
    }
  }

  lemma LexOrderBy(rd: Reader, g: Iql, ns: Names, os: Option<OrdersD>, rest: string)
    requires rd.Valid() && GoodNames(rd.l, ns) && (os.Some? ==> DerivableOrders(ns, os.value)) && Stop(rest)
    ensures Stop(TextOrderBy(rd.k, os, rest))
    ensures Reading(rd.lex(TextOrderBy(rd.k, os, rest)), (os.Some? ==> LexableOrders(os.value)) && rd.lex(rest).Tokens?,
                    SpellOrderBy(ToOrderBy(g, os), After(rd.lex(rest))))
  {
    if os.Some? {
      LexOrders(rd, g, ns, os.value, rest);
      LexKeywordThen(rd, By, TextOrders(rd.k, os.value, rest));
      LexKeywordThen(rd, Order, rd.k(By) + Sp(TextOrders(rd.k, os.value, rest)));
    }
  }

  predicate LexableOrdering(s: SelectD) {
    && (s.orderBy.Some? ==> LexableOrders(s.orderBy.value))
    && (s.limit.Some? ==> FitsInt(s.limit.value))
    && (s.offset.Some? ==> FitsInt(s.offset.value))
  }

  lemma LexEnd(rd: Reader)
    requires rd.Valid()
    ensures rd.lex([';']) == LexResult.Tokens(Tok(Semicolon, End))
  {
    LexSymbol(rd, ';', "");
    assert [';'] + "" == [';'];
    assert rd.l.Lex("") == LexResult.Tokens(End);
  }

  lemma LexOrdering(rd: Reader, g: Iql, ns: Names, s: SelectD)
    requires rd.Valid() && GoodNames(rd.l, ns) && DerivableSelect(ns, s)
    ensures Stop(TextOrdering(rd.k, s))
    ensures Reading(rd.lex(TextOrdering(rd.k, s)), LexableOrdering(s), SpellOrdering(ToSelect(g, s), Tok(Semicolon, End)))
  {
    LexEnd(rd);
    var offset := TextCount(rd.k, Offset, s.offset, [';']);
    LexCount(rd, Offset, s.offset, [';']);
    var limit := TextCount(rd.k, Limit, s.limit, offset);
    LexCount(rd, Limit, s.limit, offset);
    LexOrderBy(rd, g, ns, s.orderBy, limit);
  }

  predicate LexableFiltering(s: SelectD) {
    && (s.filter.Some? ==> Lexable(s.filter.value))
    && (s.groupBy.Some? ==> LexableAll(s.groupBy.value))
    && (s.having.Some? ==> Lexable(s.having.value))
  }

  lemma LexFiltering(rd: Reader, g: Iql, ns: Names, s: SelectD)
    requires rd.Valid() && GoodNames(rd.l, ns) && DerivableSelect(ns, s)
    ensures Stop(TextFiltering(rd.k, s))
    ensures var rest := SpellOrdering(ToSelect(g, s), Tok(Semicolon, End));
            Reading(rd.lex(TextFiltering(rd.k, s)), LexableFiltering(s) && LexableOrdering(s), SpellFiltering(ToSelect(g, s), rest))
  {
    LexOrdering(rd, g, ns, s);
    var ordering := TextOrdering(rd.k, s);
    LexClause(rd, g, ns, Having, s.having, ordering);
    var having := TextClause(rd.k, Having, s.having, ordering);
    LexGroupBy(rd, g, ns, s.groupBy, having);
    LexClause(rd, g, ns, Where, s.filter, TextGroupBy(rd.k, s.groupBy, having));
  }

  lemma LexFrom(rd: Reader, g: Iql, ns: Names, s: SelectD)
    requires rd.Valid() && GoodNames(rd.l, ns) && DerivableSelect(ns, s)
    ensures var rest := SpellFiltering(ToSelect(g, s), SpellOrdering(ToSelect(g, s), Tok(Semicolon, End)));
            Reading(rd.lex(TextFrom(rd.k, s)), LexableFiltering(s) && LexableOrdering(s), Tok(From, Tok(Ident(s.table), rest)))
  {
    LexFiltering(rd, g, ns, s);
    LexWord(rd, s.table, TextFiltering(rd.k, s));
    LexKeywordThen(rd, From, s.table + TextFiltering(rd.k, s));
  }

  lemma LexSelect(rd: Reader, g: Iql, ns: Names, s: SelectD)
    requires rd.Valid() && GoodNames(rd.l, ns) && DerivableSelect(ns, s)
    ensures Reading(rd.lex(TextSelect(rd.k, s)), LexableSelect(s), SpellSelect(ToSelect(g, s)))
  {
    LexFrom(rd, g, ns, s);
    match s.projections
    case None =>
      LexSymbol(rd, '*', TextFrom(rd.k, s));
      LexKeywordThen(rd, Token.Select, ['*'] + TextFrom(rd.k, s));
    case Some(ps) =>
      LexProjs(rd, g, ns, ps, TextFrom(rd.k, s));
      LexKeywordThen(rd, Token.Select, TextProjs(rd.k, ps, TextFrom(rd.k, s)));
  }

  // ----- Reading the tokens -----

  predicate Denotes(g: Iql, d: D) {
    match d
    case BinD(_, l, r) => Denotes(g, l) && Denotes(g, r)
    case CallD(_, args) => DenotesAll(g, args)
    case IntervalD(digits, blanks, unit) => g.interval(IntervalText(digits, blanks, unit)).Some?
    case ParenD(x) => Denotes(g, x)
    case _ => true
  }

  predicate DenotesAll(g: Iql, ds: Ds) {
    match ds case OneD(d) => Denotes(g, d) case MoreD(init, d) => DenotesAll(g, init) && Denotes(g, d)
  }

  predicate DenotesProjs(g: Iql, ps: ProjsD) {
    match ps case OneQ(p) => Denotes(g, p.e) case MoreQ(init, p) => DenotesProjs(g, init) && Denotes(g, p.e)
  }

  predicate DenotesOrders(g: Iql, os: OrdersD) {
    match os case OneR(o) => Denotes(g, o.e) case MoreR(init, o) => DenotesOrders(g, init) && Denotes(g, o.e)
  }

  /** Every interval literal of the statement has a meaning. */
  predicate DenotesSelect(g: Iql, s: SelectD) {
    && (s.projections.Some? ==> DenotesProjs(g, s.projections.value))
    && (s.filter.Some? ==> Denotes(g, s.filter.value))
    && (s.groupBy.Some? ==> DenotesAll(g, s.groupBy.value))
    && (s.having.Some? ==> Denotes(g, s.having.value))
    && (s.orderBy.Some? ==> DenotesOrders(g, s.orderBy.value))
  }

  lemma {:induction false} TreeWellFormed(g: Iql, ns: Names, d: D)
    requires Derivable(ns, d) && Denotes(g, d)
    ensures WellFormed(g, ToCst(g, d)) && Level(ToCst(g, d)) == LevelD(d) && Head(ToCst(g, d)) != Star
    decreases d
  {
    match d
    case BinD(_, l, r) => TreeWellFormed(g, ns, l); TreeWellFormed(g, ns, r);
    case CallD(_, args) => TreesWellFormed(g, ns, args);
    case ParenD(x) => TreeWellFormed(g, ns, x);
    case _ =>
  }

  lemma {:induction false} TreesWellFormed(g: Iql, ns: Names, ds: Ds)
    requires DerivableAll(ns, ds) && DenotesAll(g, ds)
    ensures AllWellFormed(g, ToCsts(g, ds))
    decreases ds
  {
    TreeWellFormed(g, ns, ds.d);
    if ds.MoreD? { TreesWellFormed(g, ns, ds.init); }
  }

  lemma {:induction false} ProjsGood(g: Iql, ns: Names, ps: ProjsD)
    requires DerivableProjs(ns, ps) && DenotesProjs(g, ps)
    ensures GoodProjs(g, ToProjs(g, ps))
  {
    TreeWellFormed(g, ns, ps.p.e);
    if ps.MoreQ? { ProjsGood(g, ns, ps.init); }
  }

  lemma {:induction false} OrdersGood(g: Iql, ns: Names, os: OrdersD)
    requires DerivableOrders(ns, os) && DenotesOrders(g, os)
    ensures GoodOrders(g, ToOrders(g, os))
  {
    TreeWellFormed(g, ns, os.o.e);
    if os.MoreR? { OrdersGood(g, ns, os.init); }
  }

  lemma SelectGood(g: Iql, ns: Names, s: SelectD)
    requires DerivableSelect(ns, s) && DenotesSelect(g, s)
    ensures Good(g, ToSelect(g, s))
  {
    if s.projections.Some? { ProjsGood(g, ns, s.projections.value); }
    if s.filter.Some? { TreeWellFormed(g, ns, s.filter.value); }
    if s.groupBy.Some? { TreesWellFormed(g, ns, s.groupBy.value); }
    if s.having.Some? { TreeWellFormed(g, ns, s.having.value); }
    if s.orderBy.Some? { OrdersGood(g, ns, s.orderBy.value); }
  }

  // ----- An interval without meaning is fatal wherever it stands -----

  predicate IntervalsOk(g: Iql, ts: Ast.Tokens) {
    ts.Tok? ==>
      && (ts.head.Interval? ==> ts.tail.Tok? && ts.tail.head.StrLit? && g.interval(ts.tail.head.s).Some?)
      && IntervalsOk(g, ts.tail)
  }

  lemma {:induction false} WellFormedIntervals(g: Iql, c: Cst, rest: Ast.Tokens)
    requires WellFormed(g, c) && IntervalsOk(g, rest)
    ensures IntervalsOk(g, Spell(c, rest))
    decreases c
  {
    match c
    case BinC(op, l, r) =>
      WellFormedIntervals(g, r, rest);
      WellFormedIntervals(g, l, Tok(OpToken(op), Spell(r, rest)));
    case NotC(x) => WellFormedIntervals(g, x, rest);
    case NegC(x) => WellFormedIntervals(g, x, rest);
    case IsNullC(x, negated) => WellFormedIntervals(g, x, SpellIs(negated, rest));
    case BetweenC(x, lo, hi) =>
      WellFormedIntervals(g, hi, rest);
      WellFormedIntervals(g, lo, Tok(And, Spell(hi, rest)));
      WellFormedIntervals(g, x, Tok(Between, Spell(lo, Tok(And, Spell(hi, rest)))));
    case InC(x, list, negated) =>
      WellFormedListIntervals(g, list, Tok(RParen, rest));
      var tail := Tok(In, Tok(LParen, SpellAll(list, Tok(RParen, rest))));
      assert IntervalsOk(g, tail);
      WellFormedIntervals(g, x, SpellNegation(negated, tail));
    case LikeC(x, pattern, negated) =>
      var tail := Tok(Like, Tok(StrLit(pattern), rest));
      assert IntervalsOk(g, tail);
      WellFormedIntervals(g, x, SpellNegation(negated, tail));
    case ParenC(x) => WellFormedIntervals(g, x, Tok(RParen, rest));
    case CallC(_, args) => WellFormedListIntervals(g, args, Tok(RParen, rest));
    case _ =>
  }

  lemma {:induction false} WellFormedListIntervals(g: Iql, cs: Csts, rest: Ast.Tokens)
    requires AllWellFormed(g, cs) && IntervalsOk(g, rest)
    ensures IntervalsOk(g, SpellAll(cs, rest))
    decreases cs
  {
    WellFormedIntervals(g, cs.c, rest);
    if cs.More? { WellFormedListIntervals(g, cs.init, Tok(Comma, Spell(cs.c, rest))); }
  }

  lemma {:induction false} ProjsIntervals(g: Iql, ps: Projs, rest: Ast.Tokens)
    requires GoodProjs(g, ps) && IntervalsOk(g, rest)
    ensures IntervalsOk(g, SpellProjs(ps, rest))
    decreases ps
  {
    if ps.p.ExprP? { WellFormedIntervals(g, ps.p.e, SpellAlias(ps.p.alias, rest)); }
    if ps.MoreP? { ProjsIntervals(g, ps.init, Tok(Comma, SpellProj(ps.p, rest))); }
  }

  lemma TableIntervals(g: Iql, t: TableC, rest: Ast.Tokens)
    requires IntervalsOk(g, rest)
    ensures IntervalsOk(g, SpellTable(t, rest))
  {
    assert IntervalsOk(g, SpellAlias(t.alias, rest));
  }

  lemma {:induction false} JoinsIntervals(g: Iql, js: Joins, rest: Ast.Tokens)
    requires GoodJoins(g, js) && IntervalsOk(g, rest)
    ensures IntervalsOk(g, SpellJoins(js, rest))
    decreases js
  {
    if js.MoreJ? {
      WellFormedIntervals(g, js.j.on, rest);
      TableIntervals(g, js.j.table, Tok(On, Spell(js.j.on, rest)));
      JoinsIntervals(g, js.init, SpellJoin(js.j, rest));
    }
  }

  lemma {:induction false} OrdersIntervals(g: Iql, os: Orders, rest: Ast.Tokens)
    requires GoodOrders(g, os) && IntervalsOk(g, rest)
    ensures IntervalsOk(g, SpellOrders(os, rest))
    decreases os
  {
    WellFormedIntervals(g, os.o.e, SpellDir(os.o.dir, rest));
    if os.MoreO? { OrdersIntervals(g, os.init, Tok(Comma, SpellOrder(os.o, rest))); }
  }

  lemma ClauseIntervals(g: Iql, keyword: Token, c: Option<Cst>, rest: Ast.Tokens)
    requires (c.Some? ==> WellFormed(g, c.value)) && keyword != Interval && IntervalsOk(g, rest)
    ensures IntervalsOk(g, SpellClause(keyword, c, rest))
  {
    if c.Some? { WellFormedIntervals(g, c.value, rest); }
  }

  lemma OrderingIntervals(g: Iql, s: SelectC, rest: Ast.Tokens)
    requires Good(g, s) && IntervalsOk(g, rest)
    ensures IntervalsOk(g, SpellOrdering(s, rest))
  {
    var counts := SpellCount(Limit, s.limit, SpellCount(Offset, s.offset, rest));
    assert IntervalsOk(g, SpellCount(Offset, s.offset, rest));
    assert IntervalsOk(g, counts);
    if s.orderBy.Some? { OrdersIntervals(g, s.orderBy.value, counts); }
  }

  lemma FilteringIntervals(g: Iql, s: SelectC, rest: Ast.Tokens)
    requires Good(g, s) && IntervalsOk(g, rest)
    ensures IntervalsOk(g, SpellFiltering(s, rest))
  {
    ClauseIntervals(g, Having, s.having, rest);
    var having := SpellClause(Having, s.having, rest);
    if s.groupBy.Some? { WellFormedListIntervals(g, s.groupBy.value, having); }
    ClauseIntervals(g, Where, s.filter, SpellGroupBy(s.groupBy, having));
  }

  /** The parser accepts no statement that holds an interval without meaning. */
  lemma AcceptedIntervals(g: Iql, ts: Ast.Tokens)
    requires g.ParseStatement(ts).Ok?
    ensures IntervalsOk(g, ts)
  {
    var s := StatementSound(g, ts);
    var end := SpellEnd(s.semicolon);
    OrderingIntervals(g, s, end);
    FilteringIntervals(g, s, SpellOrdering(s, end));
    var filtering := SpellFiltering(s, SpellOrdering(s, end));
    JoinsIntervals(g, s.joins, filtering);
    TableIntervals(g, s.from, SpellJoins(s.joins, filtering));
    ProjsIntervals(g, s.projections, Tok(From, SpellTable(s.from, SpellJoins(s.joins, filtering))));
  }

  // ----- and no derivation hides one -----

  lemma {:induction false} DerivedIntervals(g: Iql, d: D, rest: Ast.Tokens)
    requires IntervalsOk(g, Spell(ToCst(g, d), rest))
    ensures Denotes(g, d) && IntervalsOk(g, rest)
    decreases d
  {
    match d
    case BinD(op, l, r) =>
      DerivedIntervals(g, l, Tok(OpToken(op), Spell(ToCst(g, r), rest)));
      DerivedIntervals(g, r, rest);
    case CallD(_, args) => DerivedListIntervals(g, args, Tok(RParen, rest));
    case ParenD(x) => DerivedIntervals(g, x, Tok(RParen, rest));
    case EmptyCallD(_) =>
      assert IntervalsOk(g, Tok(LParen, Tok(RParen, rest)));
      assert IntervalsOk(g, Tok(RParen, rest));
    case IntervalD(digits, blanks, unit) =>
      assert IntervalsOk(g, Tok(StrLit(IntervalText(digits, blanks, unit)), rest));
    case _ =>
  }

  lemma {:induction false} DerivedListIntervals(g: Iql, ds: Ds, rest: Ast.Tokens)
    requires IntervalsOk(g, SpellAll(ToCsts(g, ds), rest))
    ensures DenotesAll(g, ds) && IntervalsOk(g, rest)
    decreases ds
  {
    if ds.MoreD? { DerivedListIntervals(g, ds.init, Tok(Comma, Spell(ToCst(g, ds.d), rest))); }
    DerivedIntervals(g, ds.d, rest);
  }

  lemma {:induction false} DerivedProjsIntervals(g: Iql, ps: ProjsD, rest: Ast.Tokens)
    requires IntervalsOk(g, SpellProjs(ToProjs(g, ps), rest))
    ensures DenotesProjs(g, ps) && IntervalsOk(g, rest)
    decreases ps
  {
    var p := ExprP(ToCst(g, ps.p.e), ToAlias(ps.p.alias));
    if ps.MoreQ? { DerivedProjsIntervals(g, ps.init, Tok(Comma, SpellProj(p, rest))); }
    DerivedIntervals(g, ps.p.e, SpellAlias(p.alias, rest));
  }

  lemma {:induction false} DerivedOrdersIntervals(g: Iql, os: OrdersD, rest: Ast.Tokens)
    requires IntervalsOk(g, SpellOrders(ToOrders(g, os), rest))
    ensures DenotesOrders(g, os) && IntervalsOk(g, rest)
    decreases os
  {
    var o := OrderC(ToCst(g, os.o.e), os.o.dir);
    if os.MoreR? { DerivedOrdersIntervals(g, os.init, Tok(Comma, SpellOrder(o, rest))); }
    DerivedIntervals(g, os.o.e, SpellDir(o.dir, rest));
  }

  lemma DerivedClauseIntervals(g: Iql, keyword: Token, d: Option<D>, rest: Ast.Tokens)
    requires IntervalsOk(g, SpellClause(keyword, ToOpt(g, d), rest))
    ensures (d.Some? ==> Denotes(g, d.value)) && IntervalsOk(g, rest)
  {
    if d.Some? { DerivedIntervals(g, d.value, rest); }
  }

  lemma DerivedFilteringIntervals(g: Iql, s: SelectD, rest: Ast.Tokens)
    requires IntervalsOk(g, SpellFiltering(ToSelect(g, s), rest))
    ensures s.filter.Some? ==> Denotes(g, s.filter.value)
    ensures s.groupBy.Some? ==> DenotesAll(g, s.groupBy.value)
    ensures s.having.Some? ==> Denotes(g, s.having.value)
    ensures IntervalsOk(g, rest)
  {
    var having := SpellClause(Having, ToOpt(g, s.having), rest);
    DerivedClauseIntervals(g, Where, s.filter, SpellGroupBy(ToGroup(g, s.groupBy), having));
    if s.groupBy.Some? { DerivedListIntervals(g, s.groupBy.value, having); }
    DerivedClauseIntervals(g, Having, s.having, rest);
  }

  lemma DerivedSelectIntervals(g: Iql, s: SelectD)
    requires IntervalsOk(g, SpellSelect(ToSelect(g, s)))
    ensures DenotesSelect(g, s)
  {
    var c := ToSelect(g, s);
    var ordering := SpellOrdering(c, SpellEnd(true));
    var from := Tok(From, SpellTable(c.from, SpellFiltering(c, ordering)));
    if s.projections.Some? { DerivedProjsIntervals(g, s.projections.value, from); }
    assert IntervalsOk(g, from);
    assert IntervalsOk(g, from.tail);
    DerivedFilteringIntervals(g, s, ordering);
    if s.orderBy.Some? {
      DerivedOrdersIntervals(g, s.orderBy.value, SpellCount(Limit, c.limit, SpellCount(Offset, c.offset, SpellEnd(true))));
    }
  }

  // ----- The guarantee -----

  /** A derived text is read as the statement it was derived from, or rejected; it is
      rejected exactly if an integer leaves i64, a literal holds NUL or an interval has no
      meaning. */
  lemma DerivedTextsRead(rd: Reader, g: Iql, ns: Names, s: SelectD)
    requires rd.Valid() && GoodNames(rd.l, ns) && DerivableSelect(ns, s)
    ensures Meaning(g, rd.lex(TextSelect(rd.k, s))) ==
            if LexableSelect(s) && DenotesSelect(g, s) then Parsed(DenoteSelect(ToSelect(g, s))) else Rejected
  {
    LexSelect(rd, g, ns, s);
    if LexableSelect(s) {
      var ts := SpellSelect(ToSelect(g, s));
      if DenotesSelect(g, s) {
        SelectGood(g, ns, s);
        StatementComplete(g, ToSelect(g, s));
      } else if g.ParseStatement(ts).Ok? {
        AcceptedIntervals(g, ts);
        DerivedSelectIntervals(g, s);
        assert false;
      }
    }
  }
}
