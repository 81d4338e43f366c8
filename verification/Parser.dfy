/** The recursive-descent parser as functions of the remaining tokens. */
module Parser {
  import opened Options
  import opened Ast

  datatype ParseError =
    | ExpectedSelect(got: Token)
    | Expected(want: Token, got: Token)
    | ExpectedIdent(got: Token)
    | ExpectedInt(got: Token)
    | ExpectedString(got: Token)
    | ExpectedInOrLike
    | UnexpectedInExpression(got: Token)
    | BadInterval

  datatype PResult<+T> = Ok(value: T, rest: Tokens) | Err(error: ParseError) {

    /** Success consumed at least one token. */
    ghost predicate Consumes(ts: Tokens) {
      this.Ok? ==> rest < ts
    }

    ghost predicate Within(ts: Tokens) {
      this.Ok? ==> rest < ts || rest == ts
    }
  }

  // ----- Cursor utilities -----

  function Expect(want: Token, ts: Tokens): (r: PResult<()>)
    ensures want != Eof ==> r.Consumes(ts)
  {
    if ts.Peek() == want then Ok((), ts.Advance()) else Err(Expected(want, ts.Peek()))
  }

  function ExpectIdentifier(ts: Tokens): (r: PResult<string>)
    ensures r.Consumes(ts)
  {
    if ts.Peek().Ident? then Ok(ts.head.name, ts.tail) else Err(ExpectedIdent(ts.Peek()))
  }

  function ExpectInteger(ts: Tokens): (r: PResult<int>)
    ensures r.Consumes(ts)
  {
    if ts.Peek().IntLit? then Ok(ts.head.n, ts.tail) else Err(ExpectedInt(ts.Peek()))
  }

  function ExpectStr(ts: Tokens): (r: PResult<string>)
    ensures r.Consumes(ts)
  {
    if ts.Peek().StrLit? then Ok(ts.head.s, ts.tail) else Err(ExpectedString(ts.Peek()))
  }

  /** Require a closing parenthesis after what was read. */
  function Close<T>(value: T, ts: Tokens): (r: PResult<T>)
    ensures r.Consumes(ts)
  {
    if ts.Peek() == RParen then Ok(value, ts.tail) else Err(Expected(RParen, ts.Peek()))
  }

  // ----- Operator and keyword tables -----

  function Comparison(t: Token): Option<BinOp> {
    match t
    case Eq => Some(EqOp)
    case NotEq => Some(NotEqOp)
    case Lt => Some(LtOp)
    case LtEq => Some(LtEqOp)
    case Gt => Some(GtOp)
    case GtEq => Some(GtEqOp)
    case _ => None
  }

  function Additive(t: Token): Option<BinOp> {
    match t case Plus => Some(Add) case Minus => Some(Sub) case _ => None
  }

  function Multiplicative(t: Token): Option<BinOp> {
    match t case Star => Some(Mul) case Slash => Some(Div) case Percent => Some(Mod) case _ => None
  }

  function CastU64(n: int): nat { n % TWO64 }

  function SkipInner(ts: Tokens): (rest: Tokens)
    ensures rest < ts || rest == ts
  {
    if ts.Peek() == Inner then ts.tail else ts
  }

  function AfterJoin(kind: JoinKind, ts: Tokens): (r: PResult<JoinKind>)
    ensures r.Consumes(ts)
  {
    if ts.Peek() == Join then Ok(kind, ts.tail) else Err(Expected(Join, ts.Peek()))
  }

  function JoinKeyword(ts: Tokens): (r: PResult<JoinKind>)
    ensures r.Consumes(ts)
  {
    match ts.Peek()
    case Inner => AfterJoin(InnerJoin, ts.tail)
    case Left => AfterJoin(LeftJoin, SkipInner(ts.tail))
    case Right => AfterJoin(RightJoin, SkipInner(ts.tail))
    case _ => AfterJoin(InnerJoin, ts)
  }

  /** The parser, for a given reading of interval literals. */
  datatype Iql = Iql(interval: string -> Option<int>) {

    // ----- Expressions: each function is one precedence level, ParseOr the weakest -----

    function ParseOr(ts: Tokens): (r: PResult<Expr>)
      ensures r.Consumes(ts)
      decreases ts, 7
    {
      match ParseAnd(ts)
      case Err(e) => Err(e)
      case Ok(left, rest) => OrTail(left, rest)
    }

    function OrTail(left: Expr, ts: Tokens): (r: PResult<Expr>)
      ensures r.Within(ts)
      decreases ts, 0
    {
      if ts.Peek() != Or then Ok(left, ts) else
        match ParseAnd(ts.tail)
        case Err(e) => Err(e)
        case Ok(right, rest) => OrTail(Bin(OrOp, left, right), rest)
    }

    function ParseAnd(ts: Tokens): (r: PResult<Expr>)
      ensures r.Consumes(ts)
      decreases ts, 6
    {
      match ParseNot(ts)
      case Err(e) => Err(e)
      case Ok(left, rest) => AndTail(left, rest)
    }

    function AndTail(left: Expr, ts: Tokens): (r: PResult<Expr>)
      ensures r.Within(ts)
      decreases ts, 0
    {
      if ts.Peek() != And then Ok(left, ts) else
        match ParseNot(ts.tail)
        case Err(e) => Err(e)
        case Ok(right, rest) => AndTail(Bin(AndOp, left, right), rest)
    }

    function ParseNot(ts: Tokens): (r: PResult<Expr>)
      ensures r.Consumes(ts)
      decreases ts, 5
    {
      if ts.Peek() != Not then ParseComparison(ts) else
        match ParseNot(ts.tail)
        case Err(e) => Err(e)
        case Ok(operand, rest) => Ok(Un(NotOp, operand), rest)
    }

    function ParseComparison(ts: Tokens): (r: PResult<Expr>)
      ensures r.Consumes(ts)
      decreases ts, 4
    {
      match ParseAddition(ts)
      case Err(e) => Err(e)
      case Ok(left, rest) => ComparisonTail(left, rest)
    }

    function ComparisonTail(left: Expr, ts: Tokens): (r: PResult<Expr>)
      ensures r.Within(ts)
      decreases ts, 1
    {
      if Comparison(ts.Peek()).Some? then OperatorTail(left, ts)
      else match ts.Peek()
      case Is => IsTail(left, ts.tail)
      case Between => BetweenTail(left, ts.tail)
      case Not => NegatedTail(left, ts.tail)
      case In => InTail(left, false, ts.tail)
      case Like => LikeTail(left, false, ts.tail)
      case _ => Ok(left, ts)
    }

    function OperatorTail(left: Expr, ts: Tokens): (r: PResult<Expr>)
      requires Comparison(ts.Peek()).Some?
      ensures r.Within(ts)
      decreases ts, 0
    {
      match ParseAddition(ts.tail)
      case Err(e) => Err(e)
      case Ok(right, rest) => Ok(Bin(Comparison(ts.Peek()).value, left, right), rest)
    }

    function IsTail(left: Expr, ts: Tokens): (r: PResult<Expr>)
      ensures r.Within(ts)
    {
      var negated := ts.Peek() == Not;
      match Expect(Null, if negated then ts.tail else ts)
      case Err(e) => Err(e)
      case Ok(_, rest) => Ok(if negated then IsNotNull(left) else IsNull(left), rest)
    }

    function BetweenTail(left: Expr, ts: Tokens): (r: PResult<Expr>)
      ensures r.Within(ts)
      decreases ts, 4
    {
      match ParseAddition(ts)
      case Err(e) => Err(e)
      case Ok(low, rest) =>
        if rest.Peek() != And then Err(Expected(And, rest.Peek())) else
          match ParseAddition(rest.tail)
          case Err(e) => Err(e)
          case Ok(high, rest) => Ok(BetweenExpr(left, low, high), rest)
    }

    /** After `x NOT` */
    function NegatedTail(left: Expr, ts: Tokens): (r: PResult<Expr>)
      ensures r.Within(ts)
      decreases ts, 11
    {
      match ts.Peek()
      case In => InTail(left, true, ts.tail)
      case Like => LikeTail(left, true, ts.tail)
      case _ => Err(ExpectedInOrLike)
    }

    function LikeTail(left: Expr, negated: bool, ts: Tokens): (r: PResult<Expr>)
      ensures r.Within(ts)
    {
      match ExpectStr(ts)
      case Err(e) => Err(e)
      case Ok(pattern, rest) => Ok(LikeExpr(left, pattern, negated), rest)
    }

    function InTail(left: Expr, negated: bool, ts: Tokens): (r: PResult<Expr>)
      ensures r.Within(ts)
      decreases ts, 10
    {
      match ParseInList(ts)
      case Err(e) => Err(e)
      case Ok(list, rest) =>
        Ok(if negated then Un(NotOp, InExpr(left, list)) else InExpr(left, list), rest)
    }

    function ParseInList(ts: Tokens): (r: PResult<seq<Expr>>)
      ensures r.Consumes(ts)
      decreases ts, 9
    {
      if ts.Peek() != LParen then Err(Expected(LParen, ts.Peek())) else
        match ParseExprList(ts.tail)
        case Err(e) => Err(e)
        case Ok(list, rest) => Close(list, rest)
    }

    function ParseExprList(ts: Tokens): (r: PResult<seq<Expr>>)
      ensures r.Consumes(ts)
      decreases ts, 9
    {
      match ParseOr(ts)
      case Err(e) => Err(e)
      case Ok(e, rest) => ExprListTail([e], rest)
    }

    function ExprListTail(items: seq<Expr>, ts: Tokens): (r: PResult<seq<Expr>>)
      ensures r.Within(ts)
      decreases ts, 0
    {
      if ts.Peek() != Comma then Ok(items, ts) else
        match ParseOr(ts.tail)
        case Err(e) => Err(e)
        case Ok(e, rest) => ExprListTail(items + [e], rest)
    }

    function ParseAddition(ts: Tokens): (r: PResult<Expr>)
      ensures r.Consumes(ts)
      decreases ts, 3
    {
      match ParseMultiplication(ts)
      case Err(e) => Err(e)
      case Ok(left, rest) => AddTail(left, rest)
    }

    function AddTail(left: Expr, ts: Tokens): (r: PResult<Expr>)
      ensures r.Within(ts)
      decreases ts, 0
    {
      if Additive(ts.Peek()).None? then Ok(left, ts) else
        match ParseMultiplication(ts.tail)
        case Err(e) => Err(e)
        case Ok(right, rest) => AddTail(Bin(Additive(ts.Peek()).value, left, right), rest)
    }

    function ParseMultiplication(ts: Tokens): (r: PResult<Expr>)
      ensures r.Consumes(ts)
      decreases ts, 2
    {
      match ParseUnary(ts)
      case Err(e) => Err(e)
      case Ok(left, rest) => MulTail(left, rest)
    }

    function MulTail(left: Expr, ts: Tokens): (r: PResult<Expr>)
      ensures r.Within(ts)
      decreases ts, 0
    {
      if Multiplicative(ts.Peek()).None? then Ok(left, ts) else
        match ParseUnary(ts.tail)
        case Err(e) => Err(e)
        case Ok(right, rest) => MulTail(Bin(Multiplicative(ts.Peek()).value, left, right), rest)
    }

    function ParseUnary(ts: Tokens): (r: PResult<Expr>)
      ensures r.Consumes(ts)
      decreases ts, 1
    {
      if ts.Peek() != Minus then ParsePrimary(ts) else
        match ParseUnary(ts.tail)
        case Err(e) => Err(e)
        case Ok(operand, rest) => Ok(Un(Neg, operand), rest)
    }

    function ParsePrimary(ts: Tokens): (r: PResult<Expr>)
      ensures r.Consumes(ts)
      decreases ts, 0
    {
      match ts.Peek()
      case IntLit(n) => Ok(Lit(IntL(n)), ts.tail)
      case FloatLit(f) => Ok(Lit(FloatL(f)), ts.tail)
      case StrLit(s) => Ok(Lit(StrL(s)), ts.tail)
      case True => Ok(Lit(BoolL(true)), ts.tail)
      case False => Ok(Lit(BoolL(false)), ts.tail)
      case Null => Ok(Lit(NullL), ts.tail)
      case Star => Ok(StarExpr, ts.tail)
      case LParen => ParseParenthesised(ts.tail)
      case Interval => ParseIntervalLiteral(ts.tail)
      case Ident(name) => ParseNamed(name, ts.tail)
      case t => Err(UnexpectedInExpression(t))
    }

    function ParseParenthesised(ts: Tokens): (r: PResult<Expr>)
      ensures r.Within(ts)
      decreases ts, 9
    {
      match ParseOr(ts)
      case Err(e) => Err(e)
      case Ok(e, rest) => Close(e, rest)
    }

    function ParseIntervalLiteral(ts: Tokens): (r: PResult<Expr>)
      ensures r.Within(ts)
    {
      match ExpectStr(ts)
      case Err(e) => Err(e)
      case Ok(s, rest) =>
        match interval(s)
        case Some(ns) => Ok(IntervalNs(ns), rest)
        case None => Err(BadInterval)
    }

    /** What follows an identifier decides between a qualified column, a call and a column. */
    function ParseNamed(name: string, ts: Tokens): (r: PResult<Expr>)
      ensures r.Within(ts)
      decreases ts, 11
    {
      match ts.Peek()
      case Dot => ParseQualified(name, ts.tail)
      case LParen => ParseCall(name, ts.tail)
      case _ => Ok(Column(None, name), ts)
    }

    function ParseQualified(table: string, ts: Tokens): (r: PResult<Expr>)
      ensures r.Within(ts)
    {
      match ExpectIdentifier(ts)
      case Err(e) => Err(e)
      case Ok(col, rest) => Ok(Column(Some(table), col), rest)
    }

    function ParseCall(name: string, ts: Tokens): (r: PResult<Expr>)
      ensures r.Within(ts)
      decreases ts, 10
    {
      if ts.Peek() == RParen then Ok(Func(ToLower(name), []), ts.tail) else
        match ParseExprList(ts)
        case Err(e) => Err(e)
        case Ok(args, rest) => Close(Func(ToLower(name), args), rest)
    }

    // ----- Statements -----

    function ParseStatement(ts: Tokens): PResult<Select> {
      match ParseSelect(ts)
      case Err(e) => Err(if ts.Peek() != Token.Select then ExpectedSelect(ts.Peek()) else e)
      case Ok(sel, rest) =>
        var rest := if rest.Peek() == Semicolon then rest.tail else rest;
        if rest.End? then Ok(sel, rest) else Err(Expected(Eof, rest.Peek()))
    }

    function ParseSelect(ts: Tokens): PResult<Select> {
      if ts.Peek() != Token.Select then Err(Expected(Token.Select, ts.Peek())) else
        match ParseProjections(if ts.tail.Peek() == Distinct then ts.tail.tail else ts.tail)
        case Err(e) => Err(e)
        case Ok(projections, rest) => ParseFrom(projections, rest)
    }

    function ParseFrom(projections: seq<Projection>, ts: Tokens): PResult<Select> {
      if ts.Peek() != From then Err(Expected(From, ts.Peek())) else
        match ParseTableRef(ts.tail)
        case Err(e) => Err(e)
        case Ok(from, rest) =>
          match ParseJoins([], rest)
          case Err(e) => Err(e)
          case Ok(joins, rest) => ParseFiltering(projections, from, joins, rest)
    }

    function ParseFiltering(projections: seq<Projection>, from: TableRef, joins: seq<JoinClause>, ts: Tokens)
      : PResult<Select>
    {
      match ParseClause(Where, ts)
      case Err(e) => Err(e)
      case Ok(filter, rest) =>
        match ParseGroupBy(rest)
        case Err(e) => Err(e)
        case Ok(groupBy, rest) =>
          match ParseClause(Having, rest)
          case Err(e) => Err(e)
          case Ok(having, rest) =>
            ParseOrdering(SelectStmt(projections, from, joins, filter, groupBy, having, [], None, None), rest)
    }

    function ParseOrdering(sel: Select, ts: Tokens): PResult<Select> {
      match ParseOrderBy(ts)
      case Err(e) => Err(e)
      case Ok(orderBy, rest) =>
        match ParseCount(Limit, rest)
        case Err(e) => Err(e)
        case Ok(limit, rest) =>
          match ParseCount(Offset, rest)
          case Err(e) => Err(e)
          case Ok(offset, rest) => Ok(sel.(orderBy := orderBy, limit := limit, offset := offset), rest)
    }

    function ParseClause(keyword: Token, ts: Tokens): PResult<Option<Expr>> {
      if ts.Peek() != keyword then Ok(None, ts) else
        match ParseOr(ts.Advance())
        case Err(e) => Err(e)
        case Ok(e, rest) => Ok(Some(e), rest)
    }

    function ParseGroupBy(ts: Tokens): PResult<seq<Expr>> {
      if ts.Peek() != Group then Ok([], ts)
      else if ts.tail.Peek() != By then Err(Expected(By, ts.tail.Peek()))
      else ParseExprList(ts.tail.tail)
    }

    function ParseOrderBy(ts: Tokens): PResult<seq<OrderByItem>> {
      if ts.Peek() != Order then Ok([], ts)
      else if ts.tail.Peek() != By then Err(Expected(By, ts.tail.Peek()))
      else ParseOrderByList(ts.tail.tail)
    }

    function ParseOrderByList(ts: Tokens): PResult<seq<OrderByItem>> {
      match ParseOrderByItem(ts)
      case Err(e) => Err(e)
      case Ok(item, rest) => OrderByTail([item], rest)
    }

    function OrderByTail(items: seq<OrderByItem>, ts: Tokens): PResult<seq<OrderByItem>>
      decreases ts
    {
      if ts.Peek() != Comma then Ok(items, ts) else
        match ParseOrderByItem(ts.tail)
        case Err(e) => Err(e)
        case Ok(item, rest) => OrderByTail(items + [item], rest)
    }

    function ParseOrderByItem(ts: Tokens): (r: PResult<OrderByItem>)
      ensures r.Consumes(ts)
    {
      match ParseOr(ts)
      case Err(e) => Err(e)
      case Ok(e, rest) =>
        match rest.Peek()
        case Asc => Ok(OrderByItem(e, true), rest.tail)
        case Desc => Ok(OrderByItem(e, false), rest.tail)
        case _ => Ok(OrderByItem(e, true), rest)
    }

    /** LIMIT and OFFSET: the integer is cast to u64. */
    function ParseCount(keyword: Token, ts: Tokens): PResult<Option<nat>> {
      if ts.Peek() != keyword then Ok(None, ts) else
        match ExpectInteger(ts.Advance())
        case Err(e) => Err(e)
        case Ok(n, rest) => Ok(Some(CastU64(n)), rest)
    }

    function ParseProjections(ts: Tokens): PResult<seq<Projection>> {
      match ParseProjection(ts)
      case Err(e) => Err(e)
      case Ok(p, rest) => ProjectionTail([p], rest)
    }

    function ProjectionTail(items: seq<Projection>, ts: Tokens): PResult<seq<Projection>>
      decreases ts
    {
      if ts.Peek() != Comma then Ok(items, ts) else
        match ParseProjection(ts.tail)
        case Err(e) => Err(e)
        case Ok(p, rest) => ProjectionTail(items + [p], rest)
    }

    function ParseProjection(ts: Tokens): (r: PResult<Projection>)
      ensures r.Consumes(ts)
    {
      if ts.Peek() == Star then Ok(StarProjection, ts.tail) else
        match ParseOr(ts)
        case Err(e) => Err(e)
        case Ok(e, rest) =>
          match ParseAlias(rest)
          case Err(e) => Err(e)
          case Ok(alias, rest) => Ok(ExprProjection(e, alias), rest)
    }

    function ParseAlias(ts: Tokens): (r: PResult<Option<string>>)
      ensures r.Within(ts)
    {
      match ts.Peek()
      case As =>
        (match ExpectIdentifier(ts.tail)
         case Err(e) => Err(e)
         case Ok(name, rest) => Ok(Some(name), rest))
      case Ident(name) => Ok(Some(name), ts.tail)
      case _ => Ok(None, ts)
    }

    function ParseTableRef(ts: Tokens): (r: PResult<TableRef>)
      ensures r.Consumes(ts)
    {
      match ExpectIdentifier(ts)
      case Err(e) => Err(e)
      case Ok(name, rest) =>
        match ParseAlias(rest)
        case Err(e) => Err(e)
        case Ok(alias, rest) => Ok(TableRef(name, alias), rest)
    }

    function ParseJoins(joins: seq<JoinClause>, ts: Tokens): PResult<seq<JoinClause>>
      decreases ts
    {
      if ts.Peek() !in {Join, Inner, Left, Right} then Ok(joins, ts) else
        match ParseJoin(ts)
        case Err(e) => Err(e)
        case Ok(join, rest) => ParseJoins(joins + [join], rest)
    }

    function ParseJoin(ts: Tokens): (r: PResult<JoinClause>)
      ensures r.Consumes(ts)
    {
      match JoinKeyword(ts)
      case Err(e) => Err(e)
      case Ok(kind, rest) =>
        match ParseTableRef(rest)
        case Err(e) => Err(e)
        case Ok(table, rest) =>
          if rest.Peek() != On then Err(Expected(On, rest.Peek())) else
            match ParseOr(rest.tail)
            case Err(e) => Err(e)
            case Ok(condition, rest) => Ok(JoinClause(kind, table, condition), rest)
    }
  }

  const IQL: Iql := Iql(s => ParseInterval(s))

  // ----- Interval literals -----

  /** Characters of the Latin-1 range that count as white space. */
  predicate IsSpace(c: char) {
    c == ' ' || '\t' <= c <= '\r' || c == '\U{85}' || c == '\U{A0}'
  }

  /** Letters of the Latin-1 range. */
  predicate IsAlphabetic(c: char) {
    'a' <= c <= 'z' || 'A' <= c <= 'Z' || c == '\U{AA}' || c == '\U{B5}' || c == '\U{BA}' ||
    ('\U{C0}' <= c <= '\U{FF}' && c != '\U{D7}' && c != '\U{F7}')
  }

  function TrimStart(s: string): string {
    if s != "" && IsSpace(s[0]) then TrimStart(s[1..]) else s
  }

  function TrimEnd(s: string): string {
    if s != "" && IsSpace(s[|s| - 1]) then TrimEnd(s[..|s| - 1]) else s
  }

  function Trim(s: string): string { TrimEnd(TrimStart(s)) }

  function FirstLetter(s: string): (i: nat)
    ensures i <= |s|
  {
    if s == "" || IsAlphabetic(s[0]) then 0 else 1 + FirstLetter(s[1..])
  }

  predicate IsDigit(c: char) { '0' <= c <= '9' }

  predicate AllDigits(s: string) { forall i | 0 <= i < |s| :: IsDigit(s[i]) }

  function Decimal(s: string): nat
    requires AllDigits(s)
  {
    if s == "" then 0 else 10 * Decimal(s[..|s| - 1]) + (s[|s| - 1] - '0') as nat
  }

  function ParseI64(s: string): Option<int> {
    var negative := s != "" && s[0] == '-';
    var digits := if s != "" && (s[0] == '-' || s[0] == '+') then s[1..] else s;
    if digits == "" || !AllDigits(digits) then None else
      var n: int := if negative then -(Decimal(digits) as int) else Decimal(digits);
      if IsI64(n) then Some(n) else None
  }

  function NsPerUnit(unit: string): Option<int> {
    if unit in ["us", "microsecond", "microseconds"] then Some(1_000)
    else if unit in ["ms", "millisecond", "milliseconds", "millisec"] then Some(1_000_000)
    else if unit in ["s", "sec", "second", "seconds"] then Some(1_000_000_000)
    else if unit in ["m", "min", "minute", "minutes"] then Some(60 * 1_000_000_000)
    else if unit in ["h", "hr", "hour", "hours"] then Some(3_600 * 1_000_000_000)
    else if unit in ["d", "day", "days"] then Some(86_400 * 1_000_000_000)
    else None
  }

  function IntervalNumber(s: string): Option<int> {
    var t := Trim(s);
    ParseI64(Trim(t[..FirstLetter(t)]))
  }

  function IntervalUnit(s: string): Option<int> {
    var t := Trim(s);
    NsPerUnit(ToLower(Trim(t[FirstLetter(t)..])))
  }

  /** The unchecked product wraps. */
  function ParseInterval(s: string): Option<int> {
    match (IntervalNumber(s), IntervalUnit(s))
    case (Some(n), Some(unit)) => Some(Wrap64(n * unit))
    case _ => None
  }
}
