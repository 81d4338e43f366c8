/** A derived text reaches the lexer as its UTF-8 bytes, and the lexer makes a character of
    each byte: what a statement of the grammar says, and what is read. */
module Bytewise {
  import opened Options
  import opened Ast
  import opened Parser
  import opened Grammar
  import opened Statements
  import opened Copilot
  import opened Lexer
  import opened Frontend
  import opened Guarantee
  import opened Utf8

  // ----- The byte-wise reading of a derivation -----

  /** Every string literal replaced by the bytes of its text */
  function Read(d: D): D {
    match d
    case BinD(op, l, r) => BinD(op, Read(l), Read(r))
    case StrD(text) => StrD(Encode(text))
    case CallD(name, args) => CallD(name, ReadAll(args))
    case ParenD(x) => ParenD(Read(x))
    case _ => d
  }

  function ReadAll(ds: Ds): Ds {
    match ds case OneD(d) => OneD(Read(d)) case MoreD(init, d) => MoreD(ReadAll(init), Read(d))
  }

  function ReadProjs(ps: ProjsD): ProjsD {
    match ps
    case OneQ(p) => OneQ(ProjD(Read(p.e), p.alias))
    case MoreQ(init, p) => MoreQ(ReadProjs(init), ProjD(Read(p.e), p.alias))
  }

  function ReadOrders(os: OrdersD): OrdersD {
    match os
    case OneR(o) => OneR(OrderD(Read(o.e), o.dir))
    case MoreR(init, o) => MoreR(ReadOrders(init), OrderD(Read(o.e), o.dir))
  }

  function ReadOpt(d: Option<D>): Option<D> { match d case None => None case Some(x) => Some(Read(x)) }

  function ReadSelect(s: SelectD): SelectD {
    s.(projections := match s.projections case None => None case Some(ps) => Some(ReadProjs(ps)),
       filter := ReadOpt(s.filter),
       groupBy := match s.groupBy case None => None case Some(ds) => Some(ReadAll(ds)),
       having := ReadOpt(s.having),
       orderBy := match s.orderBy case None => None case Some(os) => Some(ReadOrders(os)))
  }

  predicate Plain(d: D) {
    match d
    case BinD(_, l, r) => Plain(l) && Plain(r)
    case StrD(text) => Ascii(text)
    case CallD(_, args) => PlainAll(args)
    case ParenD(x) => Plain(x)
    case _ => true
  }

  predicate PlainAll(ds: Ds) {
    match ds case OneD(d) => Plain(d) case MoreD(init, d) => PlainAll(init) && Plain(d)
  }

  predicate PlainProjs(ps: ProjsD) {
    match ps case OneQ(p) => Plain(p.e) case MoreQ(init, p) => PlainProjs(init) && Plain(p.e)
  }

  predicate PlainOrders(os: OrdersD) {
    match os case OneR(o) => Plain(o.e) case MoreR(init, o) => PlainOrders(init) && Plain(o.e)
  }

  /** Every string literal of the statement is ASCII. */
  predicate PlainSelect(s: SelectD) {
    && (s.projections.Some? ==> PlainProjs(s.projections.value))
    && (s.filter.Some? ==> Plain(s.filter.value))
    && (s.groupBy.Some? ==> PlainAll(s.groupBy.value))
    && (s.having.Some? ==> Plain(s.having.value))
    && (s.orderBy.Some? ==> PlainOrders(s.orderBy.value))
  }

  // ----- The bytes of a derived text are the text of its byte-wise reading -----

  ghost predicate AsciiNames(ns: Names) {
    && (forall n | n in ns.tables :: Ascii(n)) && (forall n | n in ns.columns :: Ascii(n))
    && (forall n | n in ns.functions :: Ascii(n)) && (forall u | u in ns.units :: Ascii(u))
  }

  ghost predicate AsciiWords(k: Words) { forall t | IsKeyword(t) :: Ascii(k(t)) }

  lemma SpBytes(rest: string)
    ensures Encode(Sp(rest)) == Sp(Encode(rest))
  {
    AsciiThen([' '], rest);
  }

  lemma WordBytes(w: string, rest: string)
    requires Ascii(w)
    ensures Encode(w + rest) == w + Encode(rest)
    ensures Encode(w + Sp(rest)) == w + Sp(Encode(rest))
    ensures Encode(Sp(w + rest)) == Sp(w + Encode(rest))
    ensures Encode(Sp(w + Sp(rest))) == Sp(w + Sp(Encode(rest)))
  {
    SpBytes(rest);
    AsciiThen(w, rest);
    AsciiThen(w, Sp(rest));
    SpBytes(w + rest);
    SpBytes(w + Sp(rest));
  }

  lemma QuotedBytes(text: string, rest: string)
    ensures Encode(Quoted(text, rest)) == Quoted(Encode(text), Encode(rest))
  {
    AsciiThen(['\''], text + (['\''] + rest));
    EncodeConcat(text, ['\''] + rest);
    AsciiThen(['\''], rest);
  }

  lemma IntervalBytes(digits: string, blanks: nat, unit: string)
    requires Number(digits) && Ascii(unit)
    ensures Encode(IntervalText(digits, blanks, unit)) == IntervalText(digits, blanks, unit)
  {
    BlanksPlain(blanks);
    EncodeFixesAscii(IntervalText(digits, blanks, unit));
  }

  lemma OpBytes(k: Words, op: BinOp, rest: string)
    requires AsciiWords(k)
    ensures Encode(Sp(OpText(k, op) + Sp(rest))) == Sp(OpText(k, op) + Sp(Encode(rest)))
  {
    assert IsKeyword(And) && IsKeyword(Or);
    WordBytes(OpText(k, op), rest);
  }

  lemma FloatBytes(whole: string, fraction: string, rest: string)
    requires Number(whole) && Number(fraction)
    ensures Encode(whole + (['.'] + (fraction + rest))) == whole + (['.'] + (fraction + Encode(rest)))
  {
    AsciiThen(whole, ['.'] + (fraction + rest));
    AsciiThen(['.'], fraction + rest);
    AsciiThen(fraction, rest);
  }

  lemma {:induction false} TextBytes(k: Words, ns: Names, d: D, rest: string)
    requires AsciiWords(k) && AsciiNames(ns) && Derivable(ns, d)
    ensures Encode(Text(k, d, rest)) == Text(k, Read(d), Encode(rest))
    decreases d
  {
    match d
    case BinD(op, l, r) =>
      TextBytes(k, ns, r, rest);
      OpBytes(k, op, Text(k, r, rest));
      TextBytes(k, ns, l, Sp(OpText(k, op) + Sp(Text(k, r, rest))));
    case ColD(name) => AsciiThen(name, rest);
    case IntD(digits) => AsciiThen(digits, rest);
    case FloatD(whole, fraction) => FloatBytes(whole, fraction, rest);
    case StrD(text) => QuotedBytes(text, rest);
    case TrueD => assert IsKeyword(True); AsciiThen(k(True), rest);
    case FalseD => assert IsKeyword(False); AsciiThen(k(False), rest);
    case NullD => assert IsKeyword(Null); AsciiThen(k(Null), rest);
    case CallD(name, args) =>
      AsciiThen([')'], rest);
      TextsBytes(k, ns, args, [')'] + rest);
      AsciiThen(['('], TextAll(k, args, [')'] + rest));
      AsciiThen(name, ['('] + TextAll(k, args, [')'] + rest));
    case EmptyCallD(name) =>
      AsciiThen([')'], rest);
      AsciiThen(['('], [')'] + rest);
      AsciiThen(name, ['('] + ([')'] + rest));
    case IntervalD(digits, blanks, unit) =>
      var text := IntervalText(digits, blanks, unit);
      IntervalBytes(digits, blanks, unit);
      QuotedBytes(text, rest);
      assert IsKeyword(Interval);
      WordBytes(k(Interval), Quoted(text, rest));
    case ParenD(x) =>
      AsciiThen([')'], rest);
      TextBytes(k, ns, x, [')'] + rest);
      AsciiThen(['('], Text(k, x, [')'] + rest));
  }

  lemma CommaBytes(rest: string)
    ensures Encode([','] + Sp(rest)) == [','] + Sp(Encode(rest))
  {
    WordBytes([','], rest);
  }

  lemma {:induction false} TextsBytes(k: Words, ns: Names, ds: Ds, rest: string)
    requires AsciiWords(k) && AsciiNames(ns) && DerivableAll(ns, ds)
    ensures Encode(TextAll(k, ds, rest)) == TextAll(k, ReadAll(ds), Encode(rest))
    decreases ds
  {
    TextBytes(k, ns, ds.d, rest);
    if ds.MoreD? {
      CommaBytes(Text(k, ds.d, rest));
      TextsBytes(k, ns, ds.init, [','] + Sp(Text(k, ds.d, rest)));
    }
  }

  lemma ProjBytes(k: Words, ns: Names, p: ProjD, rest: string)
    requires AsciiWords(k) && AsciiNames(ns) && DerivableProj(ns, p)
    ensures Encode(TextProj(k, p, rest)) == TextProj(k, ProjD(Read(p.e), p.alias), Encode(rest))
  {
    TextBytes(k, ns, p.e, TextAlias(k, p.alias, rest));
    if p.alias.Some? {
      AsciiThen(p.alias.value, rest);
      assert IsKeyword(As);
      WordBytes(k(As), p.alias.value + rest);
    }
  }

  lemma {:induction false} ProjsBytes(k: Words, ns: Names, ps: ProjsD, rest: string)
    requires AsciiWords(k) && AsciiNames(ns) && DerivableProjs(ns, ps)
    ensures Encode(TextProjs(k, ps, rest)) == TextProjs(k, ReadProjs(ps), Encode(rest))
    decreases ps
  {
    ProjBytes(k, ns, ps.p, rest);
    if ps.MoreQ? {
      CommaBytes(TextProj(k, ps.p, rest));
      ProjsBytes(k, ns, ps.init, [','] + Sp(TextProj(k, ps.p, rest)));
    }
  }

  lemma OrderBytes(k: Words, ns: Names, o: OrderD, rest: string)
    requires AsciiWords(k) && AsciiNames(ns) && Derivable(ns, o.e)
    ensures Encode(TextOrder(k, o, rest)) == TextOrder(k, OrderD(Read(o.e), o.dir), Encode(rest))
  {
    TextBytes(k, ns, o.e, TextDir(k, o.dir, rest));
    assert IsKeyword(Asc) && IsKeyword(Desc);
    WordBytes(k(Asc), rest);
    WordBytes(k(Desc), rest);
  }

  lemma {:induction false} OrdersBytes(k: Words, ns: Names, os: OrdersD, rest: string)
    requires AsciiWords(k) && AsciiNames(ns) && DerivableOrders(ns, os)
    ensures Encode(TextOrders(k, os, rest)) == TextOrders(k, ReadOrders(os), Encode(rest))
    decreases os
  {
    OrderBytes(k, ns, os.o, rest);
    if os.MoreR? {
      CommaBytes(TextOrder(k, os.o, rest));
      OrdersBytes(k, ns, os.init, [','] + Sp(TextOrder(k, os.o, rest)));
    }
  }

  lemma ClauseBytes(k: Words, ns: Names, keyword: Token, d: Option<D>, rest: string)
    requires AsciiWords(k) && AsciiNames(ns) && IsKeyword(keyword) && (d.Some? ==> Derivable(ns, d.value))
    ensures Encode(TextClause(k, keyword, d, rest)) == TextClause(k, keyword, ReadOpt(d), Encode(rest))
  {
    if d.Some? {
      TextBytes(k, ns, d.value, rest);
      WordBytes(k(keyword), Text(k, d.value, rest));
    }
  }

  lemma CountBytes(k: Words, keyword: Token, n: Option<string>, rest: string)
    requires AsciiWords(k) && IsKeyword(keyword) && (n.Some? ==> Number(n.value))
    ensures Encode(TextCount(k, keyword, n, rest)) == TextCount(k, keyword, n, Encode(rest))
  {
    if n.Some? {
      AsciiThen(n.value, rest);
      WordBytes(k(keyword), n.value + rest);
    }
  }

  lemma OrderingBytes(k: Words, ns: Names, s: SelectD)
    requires AsciiWords(k) && AsciiNames(ns) && DerivableSelect(ns, s)
    ensures Encode(TextOrdering(k, s)) == TextOrdering(k, ReadSelect(s))
  {
    var offset := TextCount(k, Offset, s.offset, [';']);
    var limit := TextCount(k, Limit, s.limit, offset);
    EncodeFixesAscii([';']);
    CountBytes(k, Offset, s.offset, [';']);
    CountBytes(k, Limit, s.limit, offset);
    if s.orderBy.Some? { OrderByBytes(k, ns, s.orderBy.value, limit); }
  }

  lemma OrderByBytes(k: Words, ns: Names, os: OrdersD, rest: string)
    requires AsciiWords(k) && AsciiNames(ns) && DerivableOrders(ns, os)
    ensures Encode(TextOrderBy(k, Some(os), rest)) == TextOrderBy(k, Some(ReadOrders(os)), Encode(rest))
  {
    OrdersBytes(k, ns, os, rest);
    var orders := TextOrders(k, os, rest);
    assert IsKeyword(By) && IsKeyword(Order);
    WordBytes(k(By), orders);
    WordBytes(k(Order), k(By) + Sp(orders));
  }

  lemma FilteringBytes(k: Words, ns: Names, s: SelectD)
    requires AsciiWords(k) && AsciiNames(ns) && DerivableSelect(ns, s)
    ensures Encode(TextFiltering(k, s)) == TextFiltering(k, ReadSelect(s))
  {
    OrderingBytes(k, ns, s);
    ClauseBytes(k, ns, Having, s.having, TextOrdering(k, s));
    var having := TextClause(k, Having, s.having, TextOrdering(k, s));
    if s.groupBy.Some? {
      TextsBytes(k, ns, s.groupBy.value, having);
      var group := TextAll(k, s.groupBy.value, having);
      assert IsKeyword(By) && IsKeyword(Group);
      WordBytes(k(By), group);
      WordBytes(k(Group), k(By) + Sp(group));
    }
    ClauseBytes(k, ns, Where, s.filter, TextGroupBy(k, s.groupBy, having));
  }

  lemma SelectBytes(k: Words, ns: Names, s: SelectD)
    requires AsciiWords(k) && AsciiNames(ns) && DerivableSelect(ns, s)
    ensures Encode(TextSelect(k, s)) == TextSelect(k, ReadSelect(s))
  {
    FilteringBytes(k, ns, s);
    var from := TextFrom(k, s);
    AsciiThen(s.table, TextFiltering(k, s));
    assert IsKeyword(From) && IsKeyword(Token.Select);
    WordBytes(k(From), s.table + TextFiltering(k, s));
    assert Encode(from) == TextFrom(k, ReadSelect(s));
    match s.projections
    case None =>
      AsciiThen(['*'], from);
      WordBytes(k(Token.Select), ['*'] + from);
    case Some(ps) =>
      ProjsBytes(k, ns, ps, from);
      WordBytes(k(Token.Select), TextProjs(k, ps, from));
  }

  // ----- It is derivable, and fits, exactly if the derivation does -----

  lemma LiteralBytes(text: string)
    ensures '\'' in Encode(text) <==> '\'' in text
    ensures '\0' in Encode(text) <==> '\0' in text
  {
    EncodeKeepsAscii(text, '\'');
    EncodeKeepsAscii(text, '\0');
  }

  lemma {:induction false} ReadDerivable(g: Iql, ns: Names, d: D)
    requires Derivable(ns, d)
    ensures Derivable(ns, Read(d)) && LevelD(Read(d)) == LevelD(d)
    ensures Lexable(Read(d)) == Lexable(d) && Denotes(g, Read(d)) == Denotes(g, d)
    decreases d
  {
    match d
    case BinD(_, l, r) => ReadDerivable(g, ns, l); ReadDerivable(g, ns, r);
    case StrD(text) => LiteralBytes(text);
    case CallD(_, args) => ReadAllDerivable(g, ns, args);
    case ParenD(x) => ReadDerivable(g, ns, x);
    case _ =>
  }

  lemma {:induction false} ReadAllDerivable(g: Iql, ns: Names, ds: Ds)
    requires DerivableAll(ns, ds)
    ensures DerivableAll(ns, ReadAll(ds))
    ensures LexableAll(ReadAll(ds)) == LexableAll(ds) && DenotesAll(g, ReadAll(ds)) == DenotesAll(g, ds)
    decreases ds
  {
    ReadDerivable(g, ns, ds.d);
    if ds.MoreD? { ReadAllDerivable(g, ns, ds.init); }
  }

  lemma {:induction false} ReadProjsDerivable(g: Iql, ns: Names, ps: ProjsD)
    requires DerivableProjs(ns, ps)
    ensures DerivableProjs(ns, ReadProjs(ps))
    ensures LexableProjs(ReadProjs(ps)) == LexableProjs(ps) && DenotesProjs(g, ReadProjs(ps)) == DenotesProjs(g, ps)
  {
    ReadDerivable(g, ns, ps.p.e);
    if ps.MoreQ? { ReadProjsDerivable(g, ns, ps.init); }
  }

  lemma {:induction false} ReadOrdersDerivable(g: Iql, ns: Names, os: OrdersD)
    requires DerivableOrders(ns, os)
    ensures DerivableOrders(ns, ReadOrders(os))
    ensures LexableOrders(ReadOrders(os)) == LexableOrders(os) && DenotesOrders(g, ReadOrders(os)) == DenotesOrders(g, os)
  {
    ReadDerivable(g, ns, os.o.e);
    if os.MoreR? { ReadOrdersDerivable(g, ns, os.init); }
  }

  lemma ReadSelectDerivable(g: Iql, ns: Names, s: SelectD)
    requires DerivableSelect(ns, s)
    ensures DerivableSelect(ns, ReadSelect(s))
    ensures LexableSelect(ReadSelect(s)) == LexableSelect(s) && DenotesSelect(g, ReadSelect(s)) == DenotesSelect(g, s)
  {
    if s.projections.Some? { ReadProjsDerivable(g, ns, s.projections.value); }
    if s.filter.Some? { ReadDerivable(g, ns, s.filter.value); }
    if s.groupBy.Some? { ReadAllDerivable(g, ns, s.groupBy.value); }
    if s.having.Some? { ReadDerivable(g, ns, s.having.value); }
    if s.orderBy.Some? { ReadOrdersDerivable(g, ns, s.orderBy.value); }
  }

  // ----- It says the same exactly if every literal is ASCII -----

  lemma {:induction false} SameExpr(g: Iql, d: D)
    ensures Denote(ToCst(g, Read(d))) == Denote(ToCst(g, d)) <==> Plain(d)
    decreases d
  {
    match d
    case BinD(_, l, r) => SameExpr(g, l); SameExpr(g, r);
    case StrD(text) => EncodeFixesAscii(text);
    case CallD(_, args) => SameExprs(g, args);
    case ParenD(x) => SameExpr(g, x);
    case _ =>
  }

  lemma {:induction false} SameExprs(g: Iql, ds: Ds)
    ensures |DenoteAll(ToCsts(g, ReadAll(ds)))| == |DenoteAll(ToCsts(g, ds))|
    ensures DenoteAll(ToCsts(g, ReadAll(ds))) == DenoteAll(ToCsts(g, ds)) <==> PlainAll(ds)
    decreases ds
  {
    SameExpr(g, ds.d);
    if ds.MoreD? {
      SameExprs(g, ds.init);
      SnocEqual(DenoteAll(ToCsts(g, ReadAll(ds.init))), DenoteAll(ToCsts(g, ds.init)),
                Denote(ToCst(g, Read(ds.d))), Denote(ToCst(g, ds.d)));
    }
  }

  lemma SnocEqual<T>(a: seq<T>, b: seq<T>, x: T, y: T)
    requires |a| == |b|
    ensures a + [x] == b + [y] <==> a == b && x == y
  {
    if a + [x] == b + [y] {
      assert (a + [x])[..|a|] == a && (b + [y])[..|b|] == b;
      assert (a + [x])[|a|] == x && (b + [y])[|b|] == y;
    }
  }

  lemma {:induction false} SameProjs(g: Iql, ps: ProjsD)
    ensures |DenoteProjs(ToProjs(g, ReadProjs(ps)))| == |DenoteProjs(ToProjs(g, ps))|
    ensures DenoteProjs(ToProjs(g, ReadProjs(ps))) == DenoteProjs(ToProjs(g, ps)) <==> PlainProjs(ps)
    decreases ps
  {
    SameExpr(g, ps.p.e);
    if ps.MoreQ? {
      SameProjs(g, ps.init);
      var alias := DenoteAlias(ToAlias(ps.p.alias));
      SnocEqual(DenoteProjs(ToProjs(g, ReadProjs(ps.init))), DenoteProjs(ToProjs(g, ps.init)),
                ExprProjection(Denote(ToCst(g, Read(ps.p.e))), alias), ExprProjection(Denote(ToCst(g, ps.p.e)), alias));
    }
  }

  lemma {:induction false} SameOrders(g: Iql, os: OrdersD)
    ensures |DenoteOrders(ToOrders(g, ReadOrders(os)))| == |DenoteOrders(ToOrders(g, os))|
    ensures DenoteOrders(ToOrders(g, ReadOrders(os))) == DenoteOrders(ToOrders(g, os)) <==> PlainOrders(os)
    decreases os
  {
    SameExpr(g, os.o.e);
    if os.MoreR? {
      SameOrders(g, os.init);
      var asc := os.o.dir != DescD;
      SnocEqual(DenoteOrders(ToOrders(g, ReadOrders(os.init))), DenoteOrders(ToOrders(g, os.init)),
                OrderByItem(Denote(ToCst(g, Read(os.o.e))), asc), OrderByItem(Denote(ToCst(g, os.o.e)), asc));
    }
  }

  lemma SameSelect(g: Iql, s: SelectD)
    ensures DenoteSelect(ToSelect(g, ReadSelect(s))) == DenoteSelect(ToSelect(g, s)) <==> PlainSelect(s)
  {
    if s.projections.Some? { SameProjs(g, s.projections.value); }
    if s.filter.Some? { SameExpr(g, s.filter.value); }
    if s.groupBy.Some? { SameExprs(g, s.groupBy.value); }
    if s.having.Some? { SameExpr(g, s.having.value); }
    if s.orderBy.Some? { SameOrders(g, s.orderBy.value); }
  }

  // ----- What is read from the bytes -----

  lemma KeywordsAscii(rd: Reader)
    requires rd.Valid()
    ensures AsciiWords(rd.k)
  {
  }

  /** The bytes of a derived text are read as what its byte-wise reading says, or rejected;
      rejection does not depend on the encoding. */
  lemma DerivedBytesRead(rd: Reader, g: Iql, ns: Names, s: SelectD)
    requires rd.Valid() && GoodNames(rd.l, ns) && AsciiNames(ns) && DerivableSelect(ns, s)
    ensures Meaning(g, rd.lex(Encode(TextSelect(rd.k, s)))) ==
            if LexableSelect(s) && DenotesSelect(g, s) then Parsed(DenoteSelect(ToSelect(g, ReadSelect(s)))) else Rejected
  {
    KeywordsAscii(rd);
    SelectBytes(rd.k, ns, s);
    ReadSelectDerivable(g, ns, s);
    DerivedTextsRead(rd, g, ns, ReadSelect(s));
  }
}
