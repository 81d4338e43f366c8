/** The parser as it runs: a cursor over the token vector, moved by every method. Each
    method is proved against the function of the remaining tokens of the same name. */
module Descent {
  import opened Options
  import opened Ast
  import opened Parser

  datatype Outcome<+T> = Success(value: T) | Failure(error: ParseError) {
    predicate IsFailure() { Failure? }
    function PropagateFailure<U>(): Outcome<U>
      requires Failure?
    {
      Outcome.Failure(error)
    }
    function Extract(): T
      requires Success?
    {
      value
    }
  }

  /** The tokens of the vector from index `i` up to the next Eof */
  function Remaining(tokens: seq<Token>, i: nat): Tokens
    decreases |tokens| - i
  {
    if i >= |tokens| || tokens[i] == Eof then End else Tok(tokens[i], Remaining(tokens, i + 1))
  }

  /** The method did what the function says: same error, or same value and same cursor. */
  ghost predicate Agrees<T>(r: Outcome<T>, spec: PResult<T>, rest: Tokens) {
    match spec
    case Err(e) => r == Failure(e)
    case Ok(v, rest') => r == Success(v) && rest == rest'
  }

  class Cursor {
    const tokens: seq<Token>
    var pos: nat
    const g: Iql

    /** The lexer ends every vector with Eof. */
    ghost predicate Valid()
      reads this
    {
      pos < |tokens| && tokens[|tokens| - 1] == Eof
    }

    ghost function Rest(): Tokens
      reads this
    {
      Remaining(tokens, pos)
    }

    constructor (g: Iql, tokens: seq<Token>)
      requires |tokens| > 0 && tokens[|tokens| - 1] == Eof
      ensures Valid() && Rest() == Remaining(tokens, 0) && this.g == g && this.tokens == tokens
    {
      this.g := g;
      this.tokens := tokens;
      pos := 0;
    }

    // ----- Cursor utilities -----

    function Peek(): (t: Token)
      requires Valid()
      reads this
      ensures t == Rest().Peek()
    {
      tokens[pos]
    }

    method Advance() returns (t: Token)
      requires Valid()
      modifies this`pos
      ensures Valid() && t == old(Rest().Peek())
      ensures t != Eof ==> Rest() == old(Rest()).Advance()
      ensures t == Eof && old(pos) == |tokens| - 1 ==> pos == old(pos)
    {
      t := tokens[pos];
      if pos + 1 < |tokens| { pos := pos + 1; }
    }

    method EatOptional(tok: Token) returns (found: bool)
      requires Valid() && tok != Eof
      modifies this`pos
      ensures Valid() && found == (old(Rest().Peek()) == tok)
      ensures Rest() == if found then old(Rest()).Advance() else old(Rest())
    {
      found := Peek() == tok;
      if found { var _ := Advance(); }
    }

    method Expect(tok: Token) returns (r: Outcome<()>)
      requires Valid() && tok != Eof
      modifies this`pos
      ensures Valid() && Agrees(r, Parser.Expect(tok, old(Rest())), Rest())
    {
      if Peek() == tok {
        var _ := Advance();
        return Success(());
      }
      return Failure(Expected(tok, Peek()));
    }

    method ExpectIdent() returns (r: Outcome<string>)
      requires Valid()
      modifies this`pos
      ensures Valid() && Agrees(r, ExpectIdentifier(old(Rest())), Rest())
    {
      var t := Advance();
      r := if t.Ident? then Success(t.name) else Failure(ExpectedIdent(t));
    }

    method ExpectInt() returns (r: Outcome<int>)
      requires Valid()
      modifies this`pos
      ensures Valid() && Agrees(r, ExpectInteger(old(Rest())), Rest())
    {
      var t := Advance();
      r := if t.IntLit? then Success(t.n) else Failure(ExpectedInt(t));
    }

    method ExpectString() returns (r: Outcome<string>)
      requires Valid()
      modifies this`pos
      ensures Valid() && Agrees(r, ExpectStr(old(Rest())), Rest())
    {
      var t := Advance();
      r := if t.StrLit? then Success(t.s) else Failure(ExpectedString(t));
    }

    // ----- Expressions -----

    method ParseOr() returns (r: Outcome<Expr>)
      requires Valid()
      modifies this`pos
      ensures Valid() && Agrees(r, g.ParseOr(old(Rest())), Rest())
      decreases Rest(), 7
    {
      var left :- ParseAnd();
      while Peek() == Or
        invariant Valid() && Rest() < old(Rest())
        invariant g.ParseOr(old(Rest())) == g.OrTail(left, Rest())
        decreases Rest()
      {
        var _ := Advance();
        var right :- ParseAnd();
        left := Bin(OrOp, left, right);
      }
      r := Success(left);
    }

    method ParseAnd() returns (r: Outcome<Expr>)
      requires Valid()
      modifies this`pos
      ensures Valid() && Agrees(r, g.ParseAnd(old(Rest())), Rest())
      decreases Rest(), 6
    {
      var left :- ParseNot();
      while Peek() == And
        invariant Valid() && Rest() < old(Rest())
        invariant g.ParseAnd(old(Rest())) == g.AndTail(left, Rest())
        decreases Rest()
      {
        var _ := Advance();
        var right :- ParseNot();
        left := Bin(AndOp, left, right);
      }
      r := Success(left);
    }

    method ParseNot() returns (r: Outcome<Expr>)
      requires Valid()
      modifies this`pos
      ensures Valid() && Agrees(r, g.ParseNot(old(Rest())), Rest())
      decreases Rest(), 5
    {
      if Peek() == Not {
        var _ := Advance();
        var operand :- ParseNot();
        return Success(Un(NotOp, operand));
      }
      r := ParseComparison();
    }

    method ParseComparison() returns (r: Outcome<Expr>)
      requires Valid()
      modifies this`pos
      ensures Valid() && Agrees(r, g.ParseComparison(old(Rest())), Rest())
      decreases Rest(), 4
    {
      var left :- ParseAddition();
      r := ComparisonOf(left);
    }

    /** The `match` on the token after the left operand */
    method ComparisonOf(left: Expr) returns (r: Outcome<Expr>)
      requires Valid()
      modifies this`pos
      ensures Valid() && Agrees(r, g.ComparisonTail(left, old(Rest())), Rest())
      decreases Rest(), 3
    {
      match Comparison(Peek()) {
        case Some(op) =>
          var _ := Advance();
          var right :- ParseAddition();
          return Success(Bin(op, left, right));
        case None =>
      }
      match Peek() {
        case Is => var _ := Advance(); r := IsOf(left);
        case Between => var _ := Advance(); r := BetweenOf(left);
        case Not => var _ := Advance(); r := NegatedOf(left);
        case In => var _ := Advance(); r := InOf(left, false);
        case Like => var _ := Advance(); r := LikeOf(left, false);
        case _ => r := Success(left);
      }
    }

    method IsOf(left: Expr) returns (r: Outcome<Expr>)
      requires Valid()
      modifies this`pos
      ensures Valid() && Agrees(r, g.IsTail(left, old(Rest())), Rest())
    {
      var negated := EatOptional(Not);
      var _ :- Expect(Null);
      r := Success(if negated then IsNotNull(left) else IsNull(left));
    }

    method BetweenOf(left: Expr) returns (r: Outcome<Expr>)
      requires Valid()
      modifies this`pos
      ensures Valid() && Agrees(r, g.BetweenTail(left, old(Rest())), Rest())
      decreases Rest(), 3
    {
      var low :- ParseAddition();
      var _ :- Expect(And);
      var high :- ParseAddition();
      r := Success(BetweenExpr(left, low, high));
    }

    method NegatedOf(left: Expr) returns (r: Outcome<Expr>)
      requires Valid()
      modifies this`pos
      ensures Valid() && Agrees(r, g.NegatedTail(left, old(Rest())), Rest())
      decreases Rest(), 11
    {
      match Peek() {
        case In => var _ := Advance(); r := InOf(left, true);
        case Like => var _ := Advance(); r := LikeOf(left, true);
        case _ => r := Failure(ExpectedInOrLike);
      }
    }

    method InOf(left: Expr, negated: bool) returns (r: Outcome<Expr>)
      requires Valid()
      modifies this`pos
      ensures Valid() && Agrees(r, g.InTail(left, negated, old(Rest())), Rest())
      decreases Rest(), 10
    {
      var list :- ParseInList();
      r := Success(if negated then Un(NotOp, InExpr(left, list)) else InExpr(left, list));
    }

    method LikeOf(left: Expr, negated: bool) returns (r: Outcome<Expr>)
      requires Valid()
      modifies this`pos
      ensures Valid() && Agrees(r, g.LikeTail(left, negated, old(Rest())), Rest())
    {
      var pattern :- ExpectString();
      r := Success(LikeExpr(left, pattern, negated));
    }

    method ParseInList() returns (r: Outcome<seq<Expr>>)
      requires Valid()
      modifies this`pos
      ensures Valid() && Agrees(r, g.ParseInList(old(Rest())), Rest())
      decreases Rest(), 9
    {
      var _ :- Expect(LParen);
      var list :- ParseExprList();
      var _ :- Expect(RParen);
      r := Success(list);
    }

    method ParseExprList() returns (r: Outcome<seq<Expr>>)
      requires Valid()
      modifies this`pos
      ensures Valid() && Agrees(r, g.ParseExprList(old(Rest())), Rest())
      decreases Rest(), 8
    {
      var first :- ParseOr();
      var items := [first];
      while Peek() == Comma
        invariant Valid() && Rest() < old(Rest())
        invariant g.ParseExprList(old(Rest())) == g.ExprListTail(items, Rest())
        decreases Rest()
      {
        var _ := Advance();
        var item :- ParseOr();
        items := items + [item];
      }
      r := Success(items);
    }

    method ParseAddition() returns (r: Outcome<Expr>)
      requires Valid()
      modifies this`pos
      ensures Valid() && Agrees(r, g.ParseAddition(old(Rest())), Rest())
      decreases Rest(), 2
    {
      var left :- ParseMultiplication();
      while Additive(Peek()).Some?
        invariant Valid() && Rest() < old(Rest())
        invariant g.ParseAddition(old(Rest())) == g.AddTail(left, Rest())
        decreases Rest()
      {
        var op := Additive(Peek()).value;
        var _ := Advance();
        var right :- ParseMultiplication();
        left := Bin(op, left, right);
      }
      r := Success(left);
    }

    method ParseMultiplication() returns (r: Outcome<Expr>)
      requires Valid()
      modifies this`pos
      ensures Valid() && Agrees(r, g.ParseMultiplication(old(Rest())), Rest())
      decreases Rest(), 1
    {
      var left :- ParseUnary();
      while Multiplicative(Peek()).Some?
        invariant Valid() && Rest() < old(Rest())
        invariant g.ParseMultiplication(old(Rest())) == g.MulTail(left, Rest())
        decreases Rest()
      {
        var op := Multiplicative(Peek()).value;
        var _ := Advance();
        var right :- ParseUnary();
        left := Bin(op, left, right);
      }
      r := Success(left);
    }

    method ParseUnary() returns (r: Outcome<Expr>)
      requires Valid()
      modifies this`pos
      ensures Valid() && Agrees(r, g.ParseUnary(old(Rest())), Rest())
      decreases Rest(), 0, 1
    {
      if Peek() == Minus {
        var _ := Advance();
        var operand :- ParseUnary();
        return Success(Un(Neg, operand));
      }
      r := ParsePrimary();
    }

    method ParsePrimary() returns (r: Outcome<Expr>)
      requires Valid()
      modifies this`pos
      ensures Valid() && Agrees(r, g.ParsePrimary(old(Rest())), Rest())
      decreases Rest(), 0, 0
    {
      match Peek() {
        case IntLit(n) => var _ := Advance(); r := Success(Lit(IntL(n)));
        case FloatLit(f) => var _ := Advance(); r := Success(Lit(FloatL(f)));
        case StrLit(s) => var _ := Advance(); r := Success(Lit(StrL(s)));
        case True => var _ := Advance(); r := Success(Lit(BoolL(true)));
        case False => var _ := Advance(); r := Success(Lit(BoolL(false)));
        case Null => var _ := Advance(); r := Success(Lit(NullL));
        case Star => var _ := Advance(); r := Success(StarExpr);
        case LParen => var _ := Advance(); r := ParseParenthesised();
        case Interval => var _ := Advance(); r := ParseIntervalLiteral();
        case Ident(name) => var _ := Advance(); r := ParseNamed(name);
        case t => r := Failure(UnexpectedInExpression(t));
      }
    }

    method ParseParenthesised() returns (r: Outcome<Expr>)
      requires Valid()
      modifies this`pos
      ensures Valid() && Agrees(r, g.ParseParenthesised(old(Rest())), Rest())
      decreases Rest(), 8
    {
      var e :- ParseOr();
      var _ :- Expect(RParen);
      r := Success(e);
    }

    method ParseIntervalLiteral() returns (r: Outcome<Expr>)
      requires Valid()
      modifies this`pos
      ensures Valid() && Agrees(r, g.ParseIntervalLiteral(old(Rest())), Rest())
    {
      var s :- ExpectString();
      match g.interval(s)
      case Some(ns) => r := Success(IntervalNs(ns));
      case None => r := Failure(BadInterval);
    }

    method ParseNamed(name: string) returns (r: Outcome<Expr>)
      requires Valid()
      modifies this`pos
      ensures Valid() && Agrees(r, g.ParseNamed(name, old(Rest())), Rest())
      decreases Rest(), 10
    {
      if Peek() == Dot {
        var _ := Advance();
        var col :- ExpectIdent();
        return Success(Column(Some(name), col));
      }
      if Peek() == LParen {
        var _ := Advance();
        r := ParseCall(name);
        return;
      }
      r := Success(Column(None, name));
    }

    method ParseCall(name: string) returns (r: Outcome<Expr>)
      requires Valid()
      modifies this`pos
      ensures Valid() && Agrees(r, g.ParseCall(name, old(Rest())), Rest())
      decreases Rest(), 9
    {
      var args := [];
      if Peek() != RParen {
        args :- ParseExprList();
      }
      var _ :- Expect(RParen);
      r := Success(Func(ToLower(name), args));
    }

    // ----- Statements -----

    method ParseStatement() returns (r: Outcome<Select>)
      requires Valid()
      modifies this`pos
      ensures Valid() && Agrees(r, g.ParseStatement(old(Rest())), End)
    {
      if Peek() != Token.Select { return Failure(ExpectedSelect(Peek())); }
      var sel :- ParseSelect();
      var _ := EatOptional(Semicolon);
      r := if Peek() == Eof then Success(sel) else Failure(Expected(Eof, Peek()));
    }

    method ParseSelect() returns (r: Outcome<Select>)
      requires Valid()
      modifies this`pos
      ensures Valid() && Agrees(r, g.ParseSelect(old(Rest())), Rest())
    {
      var _ :- Expect(Token.Select);
      var _ := EatOptional(Distinct);
      var projections :- ParseProjections();
      r := ParseFrom(projections);
    }

    method ParseFrom(projections: seq<Projection>) returns (r: Outcome<Select>)
      requires Valid()
      modifies this`pos
      ensures Valid() && Agrees(r, g.ParseFrom(projections, old(Rest())), Rest())
    {
      var _ :- Expect(From);
      var from :- ParseTableRef();
      var joins :- ParseJoins();
      r := ParseFiltering(projections, from, joins);
    }

    method ParseFiltering(projections: seq<Projection>, from: TableRef, joins: seq<JoinClause>)
      returns (r: Outcome<Select>)
      requires Valid()
      modifies this`pos
      ensures Valid() && Agrees(r, g.ParseFiltering(projections, from, joins, old(Rest())), Rest())
    {
      var filter :- ParseClause(Where);
      var groupBy :- ParseGroupBy();
      var having :- ParseClause(Having);
      r := ParseOrdering(SelectStmt(projections, from, joins, filter, groupBy, having, [], None, None));
    }

    method ParseOrdering(sel: Select) returns (r: Outcome<Select>)
      requires Valid()
      modifies this`pos
      ensures Valid() && Agrees(r, g.ParseOrdering(sel, old(Rest())), Rest())
    {
      var orderBy :- ParseOrderBy();
      var limit :- ParseCount(Limit);
      var offset :- ParseCount(Offset);
      r := Success(sel.(orderBy := orderBy, limit := limit, offset := offset));
    }

    method ParseClause(keyword: Token) returns (r: Outcome<Option<Expr>>)
      requires Valid() && keyword != Eof
      modifies this`pos
      ensures Valid() && Agrees(r, g.ParseClause(keyword, old(Rest())), Rest())
    {
      if Peek() != keyword { return Success(None); }
      var _ := Advance();
      var e :- ParseOr();
      r := Success(Some(e));
    }

    method ParseGroupBy() returns (r: Outcome<seq<Expr>>)
      requires Valid()
      modifies this`pos
      ensures Valid() && Agrees(r, g.ParseGroupBy(old(Rest())), Rest())
    {
      if Peek() != Group { return Success([]); }
      var _ := Advance();
      var _ :- Expect(By);
      r := ParseExprList();
    }

    method ParseOrderBy() returns (r: Outcome<seq<OrderByItem>>)
      requires Valid()
      modifies this`pos
      ensures Valid() && Agrees(r, g.ParseOrderBy(old(Rest())), Rest())
    {
      if Peek() != Order { return Success([]); }
      var _ := Advance();
      var _ :- Expect(By);
      r := ParseOrderByList();
    }

    method ParseOrderByList() returns (r: Outcome<seq<OrderByItem>>)
      requires Valid()
      modifies this`pos
      ensures Valid() && Agrees(r, g.ParseOrderByList(old(Rest())), Rest())
    {
      var first :- ParseOrderByItem();
      var items := [first];
      while Peek() == Comma
        invariant Valid()
        invariant g.ParseOrderByList(old(Rest())) == g.OrderByTail(items, Rest())
        decreases Rest()
      {
        var _ := Advance();
        var item :- ParseOrderByItem();
        items := items + [item];
      }
      r := Success(items);
    }

    method ParseOrderByItem() returns (r: Outcome<OrderByItem>)
      requires Valid()
      modifies this`pos
      ensures Valid() && Agrees(r, g.ParseOrderByItem(old(Rest())), Rest())
    {
      var e :- ParseOr();
      match Peek()
      case Asc => var _ := Advance(); r := Success(OrderByItem(e, true));
      case Desc => var _ := Advance(); r := Success(OrderByItem(e, false));
      case _ => r := Success(OrderByItem(e, true));
    }

    method ParseCount(keyword: Token) returns (r: Outcome<Option<nat>>)
      requires Valid() && keyword != Eof
      modifies this`pos
      ensures Valid() && Agrees(r, g.ParseCount(keyword, old(Rest())), Rest())
    {
      if Peek() != keyword { return Success(None); }
      var _ := Advance();
      var n :- ExpectInt();
      r := Success(Some(CastU64(n)));
    }

    method ParseProjections() returns (r: Outcome<seq<Projection>>)
      requires Valid()
      modifies this`pos
      ensures Valid() && Agrees(r, g.ParseProjections(old(Rest())), Rest())
    {
      var first :- ParseProjection();
      var items := [first];
      while Peek() == Comma
        invariant Valid()
        invariant g.ParseProjections(old(Rest())) == g.ProjectionTail(items, Rest())
        decreases Rest()
      {
        var _ := Advance();
        var item :- ParseProjection();
        items := items + [item];
      }
      r := Success(items);
    }

    method ParseProjection() returns (r: Outcome<Projection>)
      requires Valid()
      modifies this`pos
      ensures Valid() && Agrees(r, g.ParseProjection(old(Rest())), Rest())
    {
      if Peek() == Star {
        var _ := Advance();
        return Success(StarProjection);
      }
      var e :- ParseOr();
      var alias :- ParseAlias();
      r := Success(ExprProjection(e, alias));
    }

    method ParseAlias() returns (r: Outcome<Option<string>>)
      requires Valid()
      modifies this`pos
      ensures Valid() && Agrees(r, g.ParseAlias(old(Rest())), Rest())
    {
      if Peek() == As {
        var _ := Advance();
        var name :- ExpectIdent();
        r := Success(Some(name));
      } else if Peek().Ident? {
        var t := Advance();
        r := Success(Some(t.name));
      } else {
        r := Success(None);
      }
    }

    method ParseTableRef() returns (r: Outcome<TableRef>)
      requires Valid()
      modifies this`pos
      ensures Valid() && Agrees(r, g.ParseTableRef(old(Rest())), Rest())
    {
      var name :- ExpectIdent();
      var alias :- ParseAlias();
      r := Success(TableRef(name, alias));
    }

    method ParseJoins() returns (r: Outcome<seq<JoinClause>>)
      requires Valid()
      modifies this`pos
      ensures Valid() && Agrees(r, g.ParseJoins([], old(Rest())), Rest())
    {
      var joins := [];
      while Peek() in {Join, Inner, Left, Right}
        invariant Valid()
        invariant g.ParseJoins([], old(Rest())) == g.ParseJoins(joins, Rest())
        decreases Rest()
      {
        var join :- ParseJoin();
        joins := joins + [join];
      }
      r := Success(joins);
    }

    method ParseJoin() returns (r: Outcome<JoinClause>)
      requires Valid()
      modifies this`pos
      ensures Valid() && Agrees(r, g.ParseJoin(old(Rest())), Rest())
    {
      var kind :- ParseJoinKind();
      var table :- ParseTableRef();
      var _ :- Expect(On);
      var condition :- ParseOr();
      r := Success(JoinClause(kind, table, condition));
    }

    method ParseJoinKind() returns (r: Outcome<JoinKind>)
      requires Valid()
      modifies this`pos
      ensures Valid() && Agrees(r, JoinKeyword(old(Rest())), Rest())
    {
      var kind := match Peek() case Left => LeftJoin case Right => RightJoin case _ => InnerJoin;
      if Peek() in {Left, Right} {
        var _ := Advance();
        var _ := EatOptional(Inner);
      } else if Peek() == Inner {
        var _ := Advance();
      }
      var _ :- Expect(Join);
      r := Success(kind);
    }
  }
}
