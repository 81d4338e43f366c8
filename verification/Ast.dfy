/** Tokens and abstract syntax of IQL. */
module Ast {
  import opened Options

  datatype Token =
    | Select | From | Where | And | Or | Not | Is | Null | In | Between | Like
    | Join | Inner | Left | Right | On | As | Group | By | Having | Order | Asc | Desc
    | Limit | Offset | True | False | Distinct | Interval
    | Ident(name: string) | IntLit(n: int) | FloatLit(f: real) | StrLit(s: string)
    | Plus | Minus | Star | Slash | Percent
    | Eq | NotEq | Lt | LtEq | Gt | GtEq
    | LParen | RParen | Comma | Dot | Semicolon
    | Eof

  /** The tokens before the first Eof of a vector, as the cursor sees them. */
  datatype Tokens = End | Tok(head: Token, tail: Tokens) {

    function Peek(): Token {
      if this.End? then Eof else head
    }

    /** The cursor never moves past the last token. */
    function Advance(): Tokens {
      if this.End? then End else tail
    }
  }

  datatype BinOp =
    | Add | Sub | Mul | Div | Mod
    | EqOp | NotEqOp | LtOp | LtEqOp | GtOp | GtEqOp
    | AndOp | OrOp

  datatype UnaryOp = Neg | NotOp

  datatype Literal = IntL(n: int) | FloatL(f: real) | StrL(s: string) | BoolL(b: bool) | NullL

  /** Of the nodes of the source's tree, those its parser can build. */
  datatype Expr =
    | Column(table: Option<string>, name: string)
    | Lit(lit: Literal)
    | StarExpr
    | Bin(op: BinOp, left: Expr, right: Expr)
    | Un(uop: UnaryOp, operand: Expr)
    | IsNull(arg: Expr)
    | IsNotNull(arg: Expr)
    | BetweenExpr(arg: Expr, low: Expr, high: Expr)
    | InExpr(arg: Expr, list: seq<Expr>)
    | LikeExpr(arg: Expr, pattern: string, negated: bool)
    | Func(fname: string, args: seq<Expr>)
    | IntervalNs(ns: int)

  datatype Projection = StarProjection | ExprProjection(expr: Expr, alias: Option<string>)

  datatype TableRef = TableRef(name: string, alias: Option<string>)

  datatype JoinKind = InnerJoin | LeftJoin | RightJoin

  datatype JoinClause = JoinClause(kind: JoinKind, table: TableRef, condition: Expr)

  datatype OrderByItem = OrderByItem(expr: Expr, asc: bool)

  datatype Select = SelectStmt(
    projections: seq<Projection>, from: TableRef, joins: seq<JoinClause>, filter: Option<Expr>,
    groupBy: seq<Expr>, having: Option<Expr>, orderBy: seq<OrderByItem>,
    limit: Option<nat>, offset: Option<nat>)

  const TWO63: int := 0x8000_0000_0000_0000
  const TWO64: int := 0x1_0000_0000_0000_0000

  predicate IsI64(n: int) { -TWO63 <= n < TWO63 }

  /** Two's-complement reduction to 64 bits, as unchecked i64 arithmetic does. */
  function Wrap64(n: int): (w: int)
    ensures IsI64(w) && (IsI64(n) ==> w == n) && (w - n) % TWO64 == 0
  {
    (n + TWO63) % TWO64 - TWO63
  }

  function ToLower(s: string): (l: string)
    ensures |l| == |s|
  {
    seq(|s|, i requires 0 <= i < |s| => if 'A' <= s[i] <= 'Z' then s[i] + 32 as char else s[i])
  }

  lemma ToLowerIdempotent(s: string)
    ensures ToLower(ToLower(s)) == ToLower(s)
  {
  }
}
