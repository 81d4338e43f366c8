/** The grammar of IQL statements over the grammar of expressions: the parser accepts
    exactly the spellings of well-formed statements and leaves no token behind. */
module Statements {
  import opened Options
  import opened Ast
  import opened Parser
  import opened Grammar

  datatype AliasC = NoAlias | AsAlias(name: string) | BareAlias(name: string)

  datatype ProjC = StarP | ExprP(e: Cst, alias: AliasC)

  datatype Projs = OneP(p: ProjC) | MoreP(init: Projs, p: ProjC)

  datatype TableC = TableC(name: string, alias: AliasC)

  datatype JoinForm = PlainJ | InnerJ | LeftJ(inner: bool) | RightJ(inner: bool)

  datatype JoinC = JoinC(form: JoinForm, table: TableC, on: Cst)

  datatype Joins = NoJ | MoreJ(init: Joins, j: JoinC)

  datatype DirC = NoDir | AscD | DescD

  datatype OrderC = OrderC(e: Cst, dir: DirC)

  datatype Orders = OneO(o: OrderC) | MoreO(init: Orders, o: OrderC)

  datatype SelectC = SelectC(
    distinct: bool, projections: Projs, from: TableC, joins: Joins, filter: Option<Cst>,
    groupBy: Option<Csts>, having: Option<Cst>, orderBy: Option<Orders>,
    limit: Option<int>, offset: Option<int>, semicolon: bool)

  // ----- Well-formed statements -----

  /** A projection that begins with `*` would be read as the bare star. */
  ghost predicate GoodProj(g: Iql, p: ProjC) {
    p.ExprP? ==> WellFormed(g, p.e) && Head(p.e) != Star
  }

  ghost predicate GoodProjs(g: Iql, ps: Projs) {
    match ps
    case OneP(p) => GoodProj(g, p)
    case MoreP(init, p) => GoodProjs(g, init) && GoodProj(g, p)
  }

  ghost predicate GoodJoins(g: Iql, js: Joins) {
    js.MoreJ? ==> GoodJoins(g, js.init) && WellFormed(g, js.j.on)
  }

  ghost predicate GoodOrders(g: Iql, os: Orders) {
    match os
    case OneO(o) => WellFormed(g, o.e)
    case MoreO(init, o) => GoodOrders(g, init) && WellFormed(g, o.e)
  }

  ghost predicate Good(g: Iql, s: SelectC) {
    && GoodProjs(g, s.projections)
    && GoodJoins(g, s.joins)
    && (s.filter.Some? ==> WellFormed(g, s.filter.value))
    && (s.groupBy.Some? ==> AllWellFormed(g, s.groupBy.value))
    && (s.having.Some? ==> WellFormed(g, s.having.value))
    && (s.orderBy.Some? ==> GoodOrders(g, s.orderBy.value))
  }

  // ----- Denotation -----

  function DenoteAlias(a: AliasC): Option<string> {
    if a.NoAlias? then None else Some(a.name)
  }

  function DenoteProj(p: ProjC): Projection {
    match p case StarP => StarProjection case ExprP(e, a) => ExprProjection(Denote(e), DenoteAlias(a))
  }

  function DenoteProjs(ps: Projs): seq<Projection> {
    match ps
    case OneP(p) => [DenoteProj(p)]
    case MoreP(init, p) => DenoteProjs(init) + [DenoteProj(p)]
  }

  function DenoteTable(t: TableC): TableRef { TableRef(t.name, DenoteAlias(t.alias)) }

  function DenoteForm(f: JoinForm): JoinKind {
    match f case LeftJ(_) => LeftJoin case RightJ(_) => RightJoin case _ => InnerJoin
  }

  function DenoteJoin(j: JoinC): JoinClause {
    JoinClause(DenoteForm(j.form), DenoteTable(j.table), Denote(j.on))
  }

  function DenoteJoins(js: Joins): seq<JoinClause> {
    match js case NoJ => [] case MoreJ(init, j) => DenoteJoins(init) + [DenoteJoin(j)]
  }

  function DenoteOrder(o: OrderC): OrderByItem { OrderByItem(Denote(o.e), o.dir != DescD) }

  function DenoteOrders(os: Orders): seq<OrderByItem> {
    match os
    case OneO(o) => [DenoteOrder(o)]
    case MoreO(init, o) => DenoteOrders(init) + [DenoteOrder(o)]
  }

  function DenoteOpt(c: Option<Cst>): Option<Expr> {
    match c case None => None case Some(x) => Some(Denote(x))
  }

  /** A count as an unsigned 64-bit number: a negative one wraps. */
  function Unsigned(k: int): nat {
    if 0 <= k < TWO64 then k else if -TWO64 <= k < 0 then k + TWO64 else k % TWO64
  }

  function DenoteCount(n: Option<int>): Option<nat> {
    match n case None => None case Some(k) => Some(Unsigned(k))
  }

  function DenoteSelect(s: SelectC): Select {
    SelectStmt(
      DenoteProjs(s.projections), DenoteTable(s.from), DenoteJoins(s.joins), DenoteOpt(s.filter),
      match s.groupBy case None => [] case Some(cs) => DenoteAll(cs),
      DenoteOpt(s.having),
      match s.orderBy case None => [] case Some(os) => DenoteOrders(os),
      DenoteCount(s.limit), DenoteCount(s.offset))
  }

  // ----- Spelling -----

  function SpellAlias(a: AliasC, rest: Tokens): Tokens {
    match a
    case NoAlias => rest
    case AsAlias(name) => Tok(As, Tok(Ident(name), rest))
    case BareAlias(name) => Tok(Ident(name), rest)
  }

  function SpellProj(p: ProjC, rest: Tokens): Tokens {
    match p case StarP => Tok(Star, rest) case ExprP(e, a) => Spell(e, SpellAlias(a, rest))
  }

  function SpellProjs(ps: Projs, rest: Tokens): Tokens
    decreases ps
  {
    match ps
    case OneP(p) => SpellProj(p, rest)
    case MoreP(init, p) => SpellProjs(init, Tok(Comma, SpellProj(p, rest)))
  }

  function SpellTable(t: TableC, rest: Tokens): Tokens { Tok(Ident(t.name), SpellAlias(t.alias, rest)) }

  function SpellForm(f: JoinForm, rest: Tokens): Tokens {
    var join := Tok(Join, rest);
    match f
    case PlainJ => join
    case InnerJ => Tok(Inner, join)
    case LeftJ(inner) => Tok(Left, if inner then Tok(Inner, join) else join)
    case RightJ(inner) => Tok(Right, if inner then Tok(Inner, join) else join)
  }

  function SpellJoin(j: JoinC, rest: Tokens): Tokens {
    SpellForm(j.form, SpellTable(j.table, Tok(On, Spell(j.on, rest))))
  }

  function SpellJoins(js: Joins, rest: Tokens): Tokens
    decreases js
  {
    match js case NoJ => rest case MoreJ(init, j) => SpellJoins(init, SpellJoin(j, rest))
  }

  function SpellDir(d: DirC, rest: Tokens): Tokens {
    match d case NoDir => rest case AscD => Tok(Asc, rest) case DescD => Tok(Desc, rest)
  }

  function SpellOrder(o: OrderC, rest: Tokens): Tokens { Spell(o.e, SpellDir(o.dir, rest)) }

  function SpellOrders(os: Orders, rest: Tokens): Tokens
    decreases os
  {
    match os
    case OneO(o) => SpellOrder(o, rest)
    case MoreO(init, o) => SpellOrders(init, Tok(Comma, SpellOrder(o, rest)))
  }

  function SpellClause(keyword: Token, c: Option<Cst>, rest: Tokens): Tokens {
    match c case None => rest case Some(x) => Tok(keyword, Spell(x, rest))
  }

  function SpellCount(keyword: Token, n: Option<int>, rest: Tokens): Tokens {
    match n case None => rest case Some(k) => Tok(keyword, Tok(IntLit(k), rest))
  }

  function SpellGroupBy(cs: Option<Csts>, rest: Tokens): Tokens {
    match cs case None => rest case Some(list) => Tok(Group, Tok(By, SpellAll(list, rest)))
  }

  function SpellOrderBy(os: Option<Orders>, rest: Tokens): Tokens {
    match os case None => rest case Some(list) => Tok(Order, Tok(By, SpellOrders(list, rest)))
  }

  function SpellEnd(semicolon: bool): Tokens { if semicolon then Tok(Semicolon, End) else End }

  function SpellOrdering(s: SelectC, rest: Tokens): Tokens {
    SpellOrderBy(s.orderBy, SpellCount(Limit, s.limit, SpellCount(Offset, s.offset, rest)))
  }

  function SpellFiltering(s: SelectC, rest: Tokens): Tokens {
    SpellClause(Where, s.filter, SpellGroupBy(s.groupBy, SpellClause(Having, s.having, rest)))
  }

  function SpellBody(s: SelectC, rest: Tokens): Tokens {
    SpellProjs(s.projections,
      Tok(From, SpellTable(s.from, SpellJoins(s.joins, SpellFiltering(s, SpellOrdering(s, rest))))))
  }

  function SpellSelect(s: SelectC): Tokens {
    var body := SpellBody(s, SpellEnd(s.semicolon));
    Tok(Token.Select, SpellDistinct(s.distinct, body))
  }

  // ----- Which token may open what comes next -----

  /** The order of the clauses after the joins; -1 for tokens that open none of them. */
  function Rank(t: Token): int {
    match t
    case Where => 0 case Group => 1 case Having => 2 case Order => 3
    case Limit => 4 case Offset => 5 case Semicolon => 6 case Eof => 7
    case _ => -1
  }

  /** Tokens that can neither extend an expression nor begin an alias or a list item. */
  predicate Stops(t: Token) {
    Continues(t) == -1 && !t.Ident? && t !in {As, Asc, Desc, Comma, Distinct}
  }

  lemma RankStops(t: Token)
    ensures Rank(t) >= 0 ==> Stops(t) && t !in {Join, Inner, Left, Right}
    ensures t in {From, On} ==> Stops(t)
    ensures t in {Join, Inner, Left, Right} ==> Stops(t)
  {
  }

  lemma EndRank(semicolon: bool)
    ensures Rank(SpellEnd(semicolon).Peek()) >= 6
  {
  }

  lemma OrderingRank(s: SelectC, rest: Tokens)
    requires Rank(rest.Peek()) >= 6
    ensures Rank(SpellCount(Offset, s.offset, rest).Peek()) >= 5
    ensures Rank(SpellCount(Limit, s.limit, SpellCount(Offset, s.offset, rest)).Peek()) >= 4
    ensures Rank(SpellOrdering(s, rest).Peek()) >= 3
  {
  }

  lemma FilteringRank(s: SelectC, rest: Tokens)
    requires Rank(rest.Peek()) >= 3
    ensures Rank(SpellClause(Having, s.having, rest).Peek()) >= 2
    ensures Rank(SpellGroupBy(s.groupBy, SpellClause(Having, s.having, rest)).Peek()) >= 1
    ensures Rank(SpellFiltering(s, rest).Peek()) >= 0
  {
  }

  // ----- Completeness -----

  lemma ExprComplete(g: Iql, c: Cst, rest: Tokens)
    requires WellFormed(g, c) && Continues(rest.Peek()) == -1
    ensures g.ParseOr(Spell(c, rest)) == Ok(Denote(c), rest)
  {
    OrComplete(g, c, rest);
  }

  lemma AliasComplete(g: Iql, a: AliasC, rest: Tokens)
    requires Stops(rest.Peek()) || rest.Peek() == Comma
    ensures g.ParseAlias(SpellAlias(a, rest)) == Ok(DenoteAlias(a), rest)
    ensures Continues(SpellAlias(a, rest).Peek()) == -1
  {
  }

  lemma ProjComplete(g: Iql, p: ProjC, rest: Tokens)
    requires GoodProj(g, p) && (Stops(rest.Peek()) || rest.Peek() == Comma)
    ensures g.ParseProjection(SpellProj(p, rest)) == Ok(DenoteProj(p), rest)
  {
    if p.ExprP? {
      AliasComplete(g, p.alias, rest);
      ExprComplete(g, p.e, SpellAlias(p.alias, rest));
      SpellHead(p.e, SpellAlias(p.alias, rest));
    }
  }

  lemma {:induction false} ProjsComplete(g: Iql, ps: Projs, rest: Tokens)
    requires GoodProjs(g, ps) && (Stops(rest.Peek()) || rest.Peek() == Comma)
    ensures g.ParseProjections(SpellProjs(ps, rest)) == g.ProjectionTail(DenoteProjs(ps), rest)
    decreases ps
  {
    match ps
    case OneP(p) => ProjComplete(g, p, rest);
    case MoreP(init, p) =>
      ProjsComplete(g, init, Tok(Comma, SpellProj(p, rest)));
      ProjComplete(g, p, rest);
  }

  lemma TableComplete(g: Iql, t: TableC, rest: Tokens)
    requires Stops(rest.Peek())
    ensures g.ParseTableRef(SpellTable(t, rest)) == Ok(DenoteTable(t), rest)
  {
    AliasComplete(g, t.alias, rest);
  }

  lemma FormComplete(f: JoinForm, rest: Tokens)
    ensures JoinKeyword(SpellForm(f, rest)) == Ok(DenoteForm(f), rest)
    ensures SpellForm(f, rest).Peek() in {Join, Inner, Left, Right}
  {
  }

  lemma JoinComplete(g: Iql, j: JoinC, rest: Tokens)
    requires WellFormed(g, j.on) && Continues(rest.Peek()) == -1
    ensures g.ParseJoin(SpellJoin(j, rest)) == Ok(DenoteJoin(j), rest)
    ensures SpellJoin(j, rest).Peek() in {Join, Inner, Left, Right}
  {
    var on := Tok(On, Spell(j.on, rest));
    FormComplete(j.form, SpellTable(j.table, on));
    TableComplete(g, j.table, on);
    ExprComplete(g, j.on, rest);
  }

  lemma {:induction false} JoinsComplete(g: Iql, js: Joins, rest: Tokens)
    requires GoodJoins(g, js) && Continues(rest.Peek()) == -1
    ensures g.ParseJoins([], SpellJoins(js, rest)) == g.ParseJoins(DenoteJoins(js), rest)
    decreases js
  {
    if js.MoreJ? {
      JoinComplete(g, js.j, rest);
      RankStops(SpellJoin(js.j, rest).Peek());
      JoinsComplete(g, js.init, SpellJoin(js.j, rest));
    }
  }

  lemma {:induction false} JoinsHead(js: Joins, rest: Tokens)
    requires Stops(rest.Peek())
    ensures Stops(SpellJoins(js, rest).Peek())
    decreases js
  {
    if js.MoreJ? {
      FormComplete(js.j.form, SpellTable(js.j.table, Tok(On, Spell(js.j.on, rest))));
      RankStops(SpellJoin(js.j, rest).Peek());
      JoinsHead(js.init, SpellJoin(js.j, rest));
    }
  }

  lemma OrderComplete(g: Iql, o: OrderC, rest: Tokens)
    requires WellFormed(g, o.e) && Continues(rest.Peek()) == -1 && rest.Peek() !in {Asc, Desc}
    ensures g.ParseOrderByItem(SpellOrder(o, rest)) == Ok(DenoteOrder(o), rest)
  {
    ExprComplete(g, o.e, SpellDir(o.dir, rest));
  }

  lemma {:induction false} OrdersComplete(g: Iql, os: Orders, rest: Tokens)
    requires GoodOrders(g, os) && Continues(rest.Peek()) == -1 && rest.Peek() !in {Asc, Desc}
    ensures g.ParseOrderByList(SpellOrders(os, rest)) == g.OrderByTail(DenoteOrders(os), rest)
    decreases os
  {
    match os
    case OneO(o) => OrderComplete(g, o, rest);
    case MoreO(init, o) =>
      OrdersComplete(g, init, Tok(Comma, SpellOrder(o, rest)));
      OrderComplete(g, o, rest);
  }

  lemma ClauseComplete(g: Iql, keyword: Token, c: Option<Cst>, rest: Tokens)
    requires keyword in {Where, Having} && Rank(rest.Peek()) > Rank(keyword)
    requires c.Some? ==> WellFormed(g, c.value)
    ensures g.ParseClause(keyword, SpellClause(keyword, c, rest)) == Ok(DenoteOpt(c), rest)
  {
    RankStops(rest.Peek());
    if c.Some? { ExprComplete(g, c.value, rest); }
  }

  lemma GroupByComplete(g: Iql, cs: Option<Csts>, rest: Tokens)
    requires Rank(rest.Peek()) > 1 && (cs.Some? ==> AllWellFormed(g, cs.value))
    ensures g.ParseGroupBy(SpellGroupBy(cs, rest)) ==
            Ok(match cs case None => [] case Some(list) => DenoteAll(list), rest)
  {
    RankStops(rest.Peek());
    if cs.Some? { ListComplete(g, cs.value, rest); }
  }

  lemma OrderByComplete(g: Iql, os: Option<Orders>, rest: Tokens)
    requires Rank(rest.Peek()) > 3 && (os.Some? ==> GoodOrders(g, os.value))
    ensures g.ParseOrderBy(SpellOrderBy(os, rest)) ==
            Ok(match os case None => [] case Some(list) => DenoteOrders(list), rest)
  {
    RankStops(rest.Peek());
    if os.Some? { OrdersComplete(g, os.value, rest); }
  }

  lemma CountComplete(g: Iql, keyword: Token, n: Option<int>, rest: Tokens)
    requires keyword in {Limit, Offset} && Rank(rest.Peek()) > Rank(keyword)
    ensures g.ParseCount(keyword, SpellCount(keyword, n, rest)) == Ok(DenoteCount(n), rest)
  {
  }

  lemma OrderingComplete(g: Iql, s: SelectC, sel: Select, rest: Tokens)
    requires Good(g, s) && Rank(rest.Peek()) >= 6
    ensures var d := DenoteSelect(s);
            g.ParseOrdering(sel, SpellOrdering(s, rest)) ==
            Ok(sel.(orderBy := d.orderBy, limit := d.limit, offset := d.offset), rest)
  {
    OrderingRank(s, rest);
    OrderByComplete(g, s.orderBy, SpellCount(Limit, s.limit, SpellCount(Offset, s.offset, rest)));
    CountComplete(g, Limit, s.limit, SpellCount(Offset, s.offset, rest));
    CountComplete(g, Offset, s.offset, rest);
  }

  lemma FilteringComplete(g: Iql, s: SelectC, ps: seq<Projection>, from: TableRef, js: seq<JoinClause>, rest: Tokens)
    requires Good(g, s) && Rank(rest.Peek()) >= 3
    ensures var d := DenoteSelect(s);
            g.ParseFiltering(ps, from, js, SpellFiltering(s, rest)) ==
            g.ParseOrdering(SelectStmt(ps, from, js, d.filter, d.groupBy, d.having, [], None, None), rest)
  {
    FilteringRank(s, rest);
    var afterGroup := SpellClause(Having, s.having, rest);
    ClauseComplete(g, Where, s.filter, SpellGroupBy(s.groupBy, afterGroup));
    GroupByComplete(g, s.groupBy, afterGroup);
    ClauseComplete(g, Having, s.having, rest);
  }

  lemma FromComplete(g: Iql, s: SelectC, ps: seq<Projection>, rest: Tokens)
    requires Good(g, s) && Rank(rest.Peek()) >= 0
    ensures g.ParseFrom(ps, Tok(From, SpellTable(s.from, SpellJoins(s.joins, rest)))) ==
            g.ParseFiltering(ps, DenoteTable(s.from), DenoteJoins(s.joins), rest)
  {
    RankStops(rest.Peek());
    JoinsHead(s.joins, rest);
    TableComplete(g, s.from, SpellJoins(s.joins, rest));
    JoinsComplete(g, s.joins, rest);
  }

  lemma {:induction false} ProjsNotDistinct(g: Iql, ps: Projs, rest: Tokens)
    requires GoodProjs(g, ps)
    ensures SpellProjs(ps, rest).Peek() != Distinct
    decreases ps
  {
    match ps
    case OneP(p) => if p.ExprP? { SpellHead(p.e, SpellAlias(p.alias, rest)); HeadNotDistinct(p.e); }
    case MoreP(init, p) => ProjsNotDistinct(g, init, Tok(Comma, SpellProj(p, rest)));
  }

  lemma {:induction false} HeadNotDistinct(c: Cst)
    ensures Head(c) != Distinct
    decreases c
  {
    match c
    case BinC(_, l, _) => HeadNotDistinct(l);
    case IsNullC(x, _) => HeadNotDistinct(x);
    case BetweenC(x, _, _) => HeadNotDistinct(x);
    case InC(x, _, _) => HeadNotDistinct(x);
    case LikeC(x, _, _) => HeadNotDistinct(x);
    case _ =>
  }

  /** From the table on */
  lemma RestComplete(g: Iql, s: SelectC, end: Tokens)
    requires Good(g, s) && end == SpellEnd(s.semicolon)
    ensures var afterFrom := SpellFiltering(s, SpellOrdering(s, end));
            g.ParseFrom(DenoteProjs(s.projections), Tok(From, SpellTable(s.from, SpellJoins(s.joins, afterFrom))))
            == Ok(DenoteSelect(s), end)
  {
    EndRank(s.semicolon);
    OrderingRank(s, end);
    var ordering := SpellOrdering(s, end);
    FilteringRank(s, ordering);
    var d := DenoteSelect(s);
    FromComplete(g, s, d.projections, SpellFiltering(s, ordering));
    FilteringComplete(g, s, d.projections, d.from, d.joins, ordering);
    OrderingComplete(g, s, SelectStmt(d.projections, d.from, d.joins, d.filter, d.groupBy, d.having, [], None, None), end);
  }

  lemma SelectComplete(g: Iql, s: SelectC)
    requires Good(g, s)
    ensures g.ParseSelect(SpellSelect(s)) == Ok(DenoteSelect(s), SpellEnd(s.semicolon))
  {
    var end := SpellEnd(s.semicolon);
    var from := Tok(From, SpellTable(s.from, SpellJoins(s.joins, SpellFiltering(s, SpellOrdering(s, end)))));
    ProjsNotDistinct(g, s.projections, from);
    SelectOpens(g, s, from);
    RestComplete(g, s, end);
  }

  /** Every well-formed statement parses to what it denotes, to the last token. */
  lemma StatementComplete(g: Iql, s: SelectC)
    requires Good(g, s)
    ensures g.ParseStatement(SpellSelect(s)) == Ok(DenoteSelect(s), End)
  {
    SelectComplete(g, s);
  }

  lemma SelectOpens(g: Iql, s: SelectC, from: Tokens)
    requires Good(g, s) && from.Peek() == From
    requires SpellProjs(s.projections, from).Peek() != Distinct
    ensures var body := SpellProjs(s.projections, from);
            g.ParseSelect(Tok(Token.Select, SpellDistinct(s.distinct, body))) ==
            g.ParseFrom(DenoteProjs(s.projections), from)
  {
    RankStops(From);
    ProjsComplete(g, s.projections, from);
  }

  // ----- Soundness -----

  lemma AliasSound(g: Iql, ts: Tokens) returns (a: AliasC)
    requires g.ParseAlias(ts).Ok?
    ensures DenoteAlias(a) == g.ParseAlias(ts).value && SpellAlias(a, g.ParseAlias(ts).rest) == ts
  {
    match ts.Peek()
    case As =>
      assert ts == Tok(As, Tok(Ident(ts.tail.head.name), ts.tail.tail));
      a := AsAlias(ts.tail.head.name);
    case Ident(name) => a := BareAlias(name);
    case _ => a := NoAlias;
  }

  lemma ProjSound(g: Iql, ts: Tokens) returns (p: ProjC)
    requires g.ParseProjection(ts).Ok?
    ensures GoodProj(g, p) && DenoteProj(p) == g.ParseProjection(ts).value
    ensures SpellProj(p, g.ParseProjection(ts).rest) == ts
  {
    if ts.Peek() == Star { return StarP; }
    var e := OrSound(g, ts);
    var rest := g.ParseOr(ts).rest;
    SpellHead(e, rest);
    var a := AliasSound(g, rest);
    p := ExprP(e, a);
  }

  lemma ProjsSound(g: Iql, ts: Tokens) returns (ps: Projs)
    requires g.ParseProjections(ts).Ok?
    ensures GoodProjs(g, ps) && DenoteProjs(ps) == g.ParseProjections(ts).value
    ensures SpellProjs(ps, g.ParseProjections(ts).rest) == ts
  {
    var p := ProjSound(g, ts);
    ps := ProjTailSound(g, OneP(p), [g.ParseProjection(ts).value], g.ParseProjection(ts).rest, ts);
  }

  lemma {:induction false} ProjTailSound(g: Iql, init: Projs, items: seq<Projection>, ts: Tokens, start: Tokens)
    returns (ps: Projs)
    requires g.ProjectionTail(items, ts).Ok?
    requires GoodProjs(g, init) && DenoteProjs(init) == items && SpellProjs(init, ts) == start
    ensures GoodProjs(g, ps) && DenoteProjs(ps) == g.ProjectionTail(items, ts).value
    ensures SpellProjs(ps, g.ProjectionTail(items, ts).rest) == start
    decreases ts
  {
    if ts.Peek() != Comma { return init; }
    var p := ProjSound(g, ts.tail);
    var r := g.ParseProjection(ts.tail);
    ps := ProjTailSound(g, MoreP(init, p), items + [r.value], r.rest, start);
  }

  lemma TableSound(g: Iql, ts: Tokens) returns (t: TableC)
    requires g.ParseTableRef(ts).Ok?
    ensures DenoteTable(t) == g.ParseTableRef(ts).value && SpellTable(t, g.ParseTableRef(ts).rest) == ts
  {
    var a := AliasSound(g, ts.tail);
    t := TableC(ts.head.name, a);
  }

  lemma FormSound(ts: Tokens) returns (f: JoinForm)
    requires JoinKeyword(ts).Ok?
    ensures DenoteForm(f) == JoinKeyword(ts).value && SpellForm(f, JoinKeyword(ts).rest) == ts
  {
    match ts.Peek()
    case Inner => f := InnerJ;
    case Left => f := LeftJ(ts.tail.Peek() == Inner);
    case Right => f := RightJ(ts.tail.Peek() == Inner);
    case _ => f := PlainJ;
  }

  lemma JoinSound(g: Iql, ts: Tokens) returns (j: JoinC)
    requires g.ParseJoin(ts).Ok?
    ensures WellFormed(g, j.on) && DenoteJoin(j) == g.ParseJoin(ts).value
    ensures SpellJoin(j, g.ParseJoin(ts).rest) == ts
  {
    var form := FormSound(ts);
    var afterForm := JoinKeyword(ts).rest;
    var table := TableSound(g, afterForm);
    var on := g.ParseTableRef(afterForm).rest;
    var condition := OrSound(g, on.tail);
    j := JoinC(form, table, condition);
  }

  lemma {:induction false} JoinsSound(g: Iql, init: Joins, ts: Tokens, start: Tokens) returns (js: Joins)
    requires g.ParseJoins(DenoteJoins(init), ts).Ok?
    requires GoodJoins(g, init) && SpellJoins(init, ts) == start
    ensures var r := g.ParseJoins(DenoteJoins(init), ts);
            GoodJoins(g, js) && DenoteJoins(js) == r.value && SpellJoins(js, r.rest) == start
    decreases ts
  {
    if ts.Peek() !in {Join, Inner, Left, Right} { return init; }
    var j := JoinSound(g, ts);
    js := JoinsSound(g, MoreJ(init, j), g.ParseJoin(ts).rest, start);
  }

  lemma OrderSound(g: Iql, ts: Tokens) returns (o: OrderC)
    requires g.ParseOrderByItem(ts).Ok?
    ensures WellFormed(g, o.e) && DenoteOrder(o) == g.ParseOrderByItem(ts).value
    ensures SpellOrder(o, g.ParseOrderByItem(ts).rest) == ts
  {
    var e := OrSound(g, ts);
    var rest := g.ParseOr(ts).rest;
    var dir := if rest.Peek() == Asc then AscD else if rest.Peek() == Desc then DescD else NoDir;
    assert rest == SpellDir(dir, g.ParseOrderByItem(ts).rest);
    o := OrderC(e, dir);
  }

  lemma OrdersSound(g: Iql, ts: Tokens) returns (os: Orders)
    requires g.ParseOrderByList(ts).Ok?
    ensures GoodOrders(g, os) && DenoteOrders(os) == g.ParseOrderByList(ts).value
    ensures SpellOrders(os, g.ParseOrderByList(ts).rest) == ts
  {
    var o := OrderSound(g, ts);
    os := OrderTailSound(g, OneO(o), [g.ParseOrderByItem(ts).value], g.ParseOrderByItem(ts).rest, ts);
  }

  lemma {:induction false} OrderTailSound(g: Iql, init: Orders, items: seq<OrderByItem>, ts: Tokens, start: Tokens)
    returns (os: Orders)
    requires g.OrderByTail(items, ts).Ok?
    requires GoodOrders(g, init) && DenoteOrders(init) == items && SpellOrders(init, ts) == start
    ensures GoodOrders(g, os) && DenoteOrders(os) == g.OrderByTail(items, ts).value
    ensures SpellOrders(os, g.OrderByTail(items, ts).rest) == start
    decreases ts
  {
    if ts.Peek() != Comma { return init; }
    var o := OrderSound(g, ts.tail);
    var r := g.ParseOrderByItem(ts.tail);
    os := OrderTailSound(g, MoreO(init, o), items + [r.value], r.rest, start);
  }

  lemma ClauseSound(g: Iql, keyword: Token, ts: Tokens) returns (c: Option<Cst>)
    requires g.ParseClause(keyword, ts).Ok?
    ensures (c.Some? ==> WellFormed(g, c.value)) && DenoteOpt(c) == g.ParseClause(keyword, ts).value
    ensures SpellClause(keyword, c, g.ParseClause(keyword, ts).rest) == ts
  {
    if ts.Peek() != keyword { return None; }
    var e := OrSound(g, ts.tail);
    c := Some(e);
  }

  lemma GroupBySound(g: Iql, ts: Tokens) returns (cs: Option<Csts>)
    requires g.ParseGroupBy(ts).Ok?
    ensures (cs.Some? ==> AllWellFormed(g, cs.value))
    ensures (match cs case None => [] case Some(list) => DenoteAll(list)) == g.ParseGroupBy(ts).value
    ensures SpellGroupBy(cs, g.ParseGroupBy(ts).rest) == ts
  {
    if ts.Peek() != Group { return None; }
    var list := ListSound(g, ts.tail.tail);
    cs := Some(list);
  }

  lemma OrderBySound(g: Iql, ts: Tokens) returns (os: Option<Orders>)
    requires g.ParseOrderBy(ts).Ok?
    ensures (os.Some? ==> GoodOrders(g, os.value))
    ensures (match os case None => [] case Some(list) => DenoteOrders(list)) == g.ParseOrderBy(ts).value
    ensures SpellOrderBy(os, g.ParseOrderBy(ts).rest) == ts
  {
    if ts.Peek() != Order { return None; }
    var list := OrdersSound(g, ts.tail.tail);
    os := Some(list);
  }

  lemma CountSound(g: Iql, keyword: Token, ts: Tokens) returns (n: Option<int>)
    requires g.ParseCount(keyword, ts).Ok?
    ensures DenoteCount(n) == g.ParseCount(keyword, ts).value
    ensures SpellCount(keyword, n, g.ParseCount(keyword, ts).rest) == ts
  {
    if ts.Peek() != keyword { return None; }
    assert ts == Tok(keyword, Tok(IntLit(ts.tail.head.n), ts.tail.tail));
    n := Some(ts.tail.head.n);
  }

  lemma OrderingSound(g: Iql, sel: Select, ts: Tokens)
    returns (orderBy: Option<Orders>, limit: Option<int>, offset: Option<int>)
    requires g.ParseOrdering(sel, ts).Ok?
    ensures orderBy.Some? ==> GoodOrders(g, orderBy.value)
    ensures var r := g.ParseOrdering(sel, ts);
            && r.value == sel.(
                 orderBy := match orderBy case None => [] case Some(list) => DenoteOrders(list),
                 limit := DenoteCount(limit), offset := DenoteCount(offset))
            && SpellOrderBy(orderBy, SpellCount(Limit, limit, SpellCount(Offset, offset, r.rest))) == ts
  {
    orderBy := OrderBySound(g, ts);
    var rest := g.ParseOrderBy(ts).rest;
    limit := CountSound(g, Limit, rest);
    offset := CountSound(g, Offset, g.ParseCount(Limit, rest).rest);
  }

  lemma FilteringSound(g: Iql, ps: seq<Projection>, from: TableRef, js: seq<JoinClause>, ts: Tokens)
    returns (filter: Option<Cst>, groupBy: Option<Csts>, having: Option<Cst>, rest: Tokens)
    requires g.ParseFiltering(ps, from, js, ts).Ok?
    ensures filter.Some? ==> WellFormed(g, filter.value)
    ensures groupBy.Some? ==> AllWellFormed(g, groupBy.value)
    ensures having.Some? ==> WellFormed(g, having.value)
    ensures SpellClause(Where, filter, SpellGroupBy(groupBy, SpellClause(Having, having, rest))) == ts
    ensures var group := match groupBy case None => [] case Some(list) => DenoteAll(list);
            g.ParseFiltering(ps, from, js, ts) ==
            g.ParseOrdering(SelectStmt(ps, from, js, DenoteOpt(filter), group, DenoteOpt(having), [], None, None), rest)
  {
    filter := ClauseSound(g, Where, ts);
    var afterWhere := g.ParseClause(Where, ts).rest;
    groupBy := GroupBySound(g, afterWhere);
    var afterGroup := g.ParseGroupBy(afterWhere).rest;
    having := ClauseSound(g, Having, afterGroup);
    rest := g.ParseClause(Having, afterGroup).rest;
  }

  lemma BodySound(g: Iql, ps: Projs, ts: Tokens) returns (s: SelectC)
    requires GoodProjs(g, ps) && g.ParseFrom(DenoteProjs(ps), ts).Ok?
    ensures Good(g, s) && s.projections == ps && DenoteSelect(s) == g.ParseFrom(DenoteProjs(ps), ts).value
    ensures SpellBody(s, g.ParseFrom(DenoteProjs(ps), ts).rest) == SpellProjs(ps, ts)
  {
    var table, joins, afterFrom := FromSound(g, DenoteProjs(ps), ts);
    var filter, groupBy, having, ordering :=
      FilteringSound(g, DenoteProjs(ps), DenoteTable(table), DenoteJoins(joins), afterFrom);
    var group := match groupBy case None => [] case Some(list) => DenoteAll(list);
    var sel := SelectStmt(DenoteProjs(ps), DenoteTable(table), DenoteJoins(joins), DenoteOpt(filter), group,
                          DenoteOpt(having), [], None, None);
    var orderBy, limit, offset := OrderingSound(g, sel, ordering);
    s := SelectC(false, ps, table, joins, filter, groupBy, having, orderBy, limit, offset, false);
  }

  function SpellDistinct(distinct: bool, body: Tokens): Tokens {
    if distinct then Tok(Distinct, body) else body
  }

  lemma SelectSound(g: Iql, ts: Tokens) returns (s: SelectC)
    requires g.ParseSelect(ts).Ok?
    ensures Good(g, s) && DenoteSelect(s) == g.ParseSelect(ts).value
    ensures Tok(Token.Select, SpellDistinct(s.distinct, SpellBody(s, g.ParseSelect(ts).rest))) == ts
  {
    var distinct := ts.tail.Peek() == Distinct;
    var body := if distinct then ts.tail.tail else ts.tail;
    var projections := ProjsSound(g, body);
    var from := g.ParseProjections(body).rest;
    assert g.ParseSelect(ts) == g.ParseFrom(DenoteProjs(projections), from);
    var s' := BodySound(g, projections, from);
    s := s'.(distinct := distinct);
  }

  lemma EndSound(ts: Tokens) returns (semicolon: bool)
    requires ts.End? || (ts.head == Semicolon && ts.tail.End?)
    ensures SpellEnd(semicolon) == ts
  {
    semicolon := ts.Tok?;
  }

  /** Whatever the statement parser accepts is the whole spelling of a well-formed
      statement, and the answer is what that statement denotes. */
  lemma StatementSound(g: Iql, ts: Tokens) returns (s: SelectC)
    requires g.ParseStatement(ts).Ok?
    ensures Good(g, s) && SpellSelect(s) == ts && DenoteSelect(s) == g.ParseStatement(ts).value
  {
    var s' := SelectSound(g, ts);
    var semicolon := EndSound(g.ParseSelect(ts).rest);
    s := s'.(semicolon := semicolon);
  }

  lemma FromSound(g: Iql, ps: seq<Projection>, ts: Tokens) returns (table: TableC, joins: Joins, rest: Tokens)
    requires g.ParseFrom(ps, ts).Ok?
    ensures GoodJoins(g, joins)
    ensures Tok(From, SpellTable(table, SpellJoins(joins, rest))) == ts
    ensures g.ParseFrom(ps, ts) == g.ParseFiltering(ps, DenoteTable(table), DenoteJoins(joins), rest)
  {
    table := TableSound(g, ts.tail);
    var afterTable := g.ParseTableRef(ts.tail).rest;
    joins := JoinsSound(g, NoJ, afterTable, afterTable);
    rest := g.ParseJoins([], afterTable).rest;
  }

  /** The parser accepts exactly the language of the grammar. */
  lemma StatementsExactly(g: Iql, ts: Tokens, sel: Select)
    ensures g.ParseStatement(ts) == Ok(sel, End) <==>
            exists s :: Good(g, s) && SpellSelect(s) == ts && DenoteSelect(s) == sel
  {
    if g.ParseStatement(ts) == Ok(sel, End) {
      var s := StatementSound(g, ts);
      assert Good(g, s) && SpellSelect(s) == ts && DenoteSelect(s) == sel;
    }
    if exists s :: Good(g, s) && SpellSelect(s) == ts && DenoteSelect(s) == sel {
      var s :| Good(g, s) && SpellSelect(s) == ts && DenoteSelect(s) == sel;
      StatementComplete(g, s);
    }
  }

  ghost predicate CountIs(written: Option<int>, read: Option<nat>) {
    match written
    case None => read.None?
    case Some(n) => read.Some? && (0 <= n < TWO63 ==> read.value == n) && (-TWO63 <= n < 0 ==> read.value == n + TWO64)
  }

  /** LIMIT and OFFSET of an accepted statement are the numbers written, those below 0 wrapped
      to 64 bits. */
  lemma CountsAsWritten(g: Iql, ts: Tokens) returns (s: SelectC)
    requires g.ParseStatement(ts).Ok?
    ensures Good(g, s) && SpellSelect(s) == ts
    ensures CountIs(s.limit, g.ParseStatement(ts).value.limit) && CountIs(s.offset, g.ParseStatement(ts).value.offset)
  {
    s := StatementSound(g, ts);
  }
}
