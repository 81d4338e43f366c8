/** The grammar of IQL expressions as concrete syntax trees, and the proof that the
    recursive-descent parser accepts exactly this grammar and builds the tree it denotes. */
module Grammar {
  import opened Options
  import opened Ast
  import opened Parser

  /** A concrete tree: an expression with its parentheses and spellings. */
  datatype Cst =
    | BinC(op: BinOp, l: Cst, r: Cst)
    | NotC(x: Cst)
    | NegC(x: Cst)
    | IsNullC(x: Cst, negated: bool)
    | BetweenC(x: Cst, lo: Cst, hi: Cst)
    | InC(x: Cst, list: Csts, negated: bool)
    | LikeC(x: Cst, pattern: string, negated: bool)
    | LitC(lit: Literal)
    | StarC
    | ParenC(x: Cst)
    | IntervalC(text: string, ns: int)
    | ColumnC(name: string)
    | QualifiedC(table: string, name: string)
    | CallC(name: string, args: Csts)
    | EmptyCallC(name: string)

  /** A non-empty comma-separated list, grouped to the left as the parser reads it. */
  datatype Csts = One(c: Cst) | More(init: Csts, c: Cst)

  // ----- Precedence -----

  function OpLevel(op: BinOp): nat {
    match op
    case OrOp => 0
    case AndOp => 1
    case Add => 4
    case Sub => 4
    case Mul => 5
    case Div => 5
    case Mod => 5
    case _ => 3
  }

  /** Binding strength: OR, AND, NOT, comparison, additive, multiplicative, unary, primary. */
  function Level(c: Cst): nat {
    match c
    case BinC(op, _, _) => OpLevel(op)
    case NotC(_) => 2
    case NegC(_) => 6
    case IsNullC(_, _) => 3
    case BetweenC(_, _, _) => 3
    case InC(_, _, _) => 3
    case LikeC(_, _, _) => 3
    case _ => 7
  }

  /** Operators associate to the left; comparisons do not associate. */
  function LeftLevel(op: BinOp): nat { if OpLevel(op) == 3 then 4 else OpLevel(op) }

  function RightLevel(op: BinOp): nat { OpLevel(op) + 1 }

  ghost predicate WellFormed(g: Iql, c: Cst)
    decreases c, 0
  {
    match c
    case BinC(op, l, r) =>
      WellFormed(g, l) && WellFormed(g, r) && Level(l) >= LeftLevel(op) && Level(r) >= RightLevel(op)
    case NotC(x) => WellFormed(g, x) && Level(x) >= 2
    case NegC(x) => WellFormed(g, x) && Level(x) >= 6
    case IsNullC(x, _) => Operand(g, x)
    case BetweenC(x, lo, hi) => Operand(g, x) && Operand(g, lo) && Operand(g, hi)
    case InC(x, list, _) => Operand(g, x) && AllWellFormed(g, list)
    case LikeC(x, _, _) => Operand(g, x)
    case ParenC(x) => WellFormed(g, x)
    case IntervalC(text, ns) => g.interval(text) == Some(ns)
    case CallC(_, args) => AllWellFormed(g, args)
    case _ => true
  }

  /** An operand of a comparison */
  ghost predicate Operand(g: Iql, c: Cst)
    decreases c, 1
  {
    WellFormed(g, c) && Level(c) >= 4
  }

  ghost predicate AllWellFormed(g: Iql, cs: Csts)
    decreases cs, 0
  {
    match cs
    case One(c) => WellFormed(g, c)
    case More(init, c) => AllWellFormed(g, init) && WellFormed(g, c)
  }

  // ----- What a concrete tree denotes, and how it is spelled -----

  function Denote(c: Cst): Expr {
    match c
    case BinC(op, l, r) => Bin(op, Denote(l), Denote(r))
    case NotC(x) => Un(NotOp, Denote(x))
    case NegC(x) => Un(Neg, Denote(x))
    case IsNullC(x, negated) => if negated then IsNotNull(Denote(x)) else IsNull(Denote(x))
    case BetweenC(x, lo, hi) => BetweenExpr(Denote(x), Denote(lo), Denote(hi))
    case InC(x, list, negated) =>
      var e := InExpr(Denote(x), DenoteAll(list));
      if negated then Un(NotOp, e) else e
    case LikeC(x, pattern, negated) => LikeExpr(Denote(x), pattern, negated)
    case LitC(lit) => Lit(lit)
    case StarC => StarExpr
    case ParenC(x) => Denote(x)
    case IntervalC(_, ns) => IntervalNs(ns)
    case ColumnC(name) => Column(None, name)
    case QualifiedC(table, name) => Column(Some(table), name)
    case CallC(name, args) => Func(ToLower(name), DenoteAll(args))
    case EmptyCallC(name) => Func(ToLower(name), [])
  }

  function DenoteAll(cs: Csts): seq<Expr> {
    match cs
    case One(c) => [Denote(c)]
    case More(init, c) => DenoteAll(init) + [Denote(c)]
  }

  function OpToken(op: BinOp): Token {
    match op
    case Add => Plus
    case Sub => Minus
    case Mul => Star
    case Div => Slash
    case Mod => Percent
    case EqOp => Eq
    case NotEqOp => NotEq
    case LtOp => Lt
    case LtEqOp => LtEq
    case GtOp => Gt
    case GtEqOp => GtEq
    case AndOp => And
    case OrOp => Or
  }

  function LitToken(lit: Literal): Token {
    match lit
    case IntL(n) => IntLit(n)
    case FloatL(f) => FloatLit(f)
    case StrL(s) => StrLit(s)
    case BoolL(b) => if b then True else False
    case NullL => Null
  }

  function SpellIs(negated: bool, rest: Tokens): Tokens {
    Tok(Is, if negated then Tok(Not, Tok(Null, rest)) else Tok(Null, rest))
  }

  function SpellNegation(negated: bool, rest: Tokens): Tokens {
    if negated then Tok(Not, rest) else rest
  }

  /** The tokens of `c`, followed by `rest` */
  function Spell(c: Cst, rest: Tokens): Tokens
    decreases c
  {
    match c
    case BinC(op, l, r) => Spell(l, Tok(OpToken(op), Spell(r, rest)))
    case NotC(x) => Tok(Not, Spell(x, rest))
    case NegC(x) => Tok(Minus, Spell(x, rest))
    case IsNullC(x, negated) => Spell(x, SpellIs(negated, rest))
    case BetweenC(x, lo, hi) => Spell(x, Tok(Between, Spell(lo, Tok(And, Spell(hi, rest)))))
    case InC(x, list, negated) =>
      Spell(x, SpellNegation(negated, Tok(In, Tok(LParen, SpellAll(list, Tok(RParen, rest))))))
    case LikeC(x, pattern, negated) => Spell(x, SpellNegation(negated, Tok(Like, Tok(StrLit(pattern), rest))))
    case LitC(lit) => Tok(LitToken(lit), rest)
    case StarC => Tok(Star, rest)
    case ParenC(x) => Tok(LParen, Spell(x, Tok(RParen, rest)))
    case IntervalC(text, _) => Tok(Interval, Tok(StrLit(text), rest))
    case ColumnC(name) => Tok(Ident(name), rest)
    case QualifiedC(table, name) => Tok(Ident(table), Tok(Dot, Tok(Ident(name), rest)))
    case CallC(name, args) => Tok(Ident(name), Tok(LParen, SpellAll(args, Tok(RParen, rest))))
    case EmptyCallC(name) => Tok(Ident(name), Tok(LParen, Tok(RParen, rest)))
  }

  function SpellAll(cs: Csts, rest: Tokens): Tokens
    decreases cs
  {
    match cs
    case One(c) => Spell(c, rest)
    case More(init, c) => SpellAll(init, Tok(Comma, Spell(c, rest)))
  }

  // ----- Completeness: every well-formed spelling parses to what it denotes -----

  /** The weakest level whose loop `t` would continue; -1 if it ends an expression. */
  function Continues(t: Token): int {
    match t
    case Or => 0
    case And => 1
    case Eq => 3 case NotEq => 3 case Lt => 3 case LtEq => 3 case Gt => 3 case GtEq => 3
    case Is => 3 case Between => 3 case Not => 3 case In => 3 case Like => 3
    case Plus => 4 case Minus => 4
    case Star => 5 case Slash => 5 case Percent => 5
    case Dot => 7 case LParen => 7
    case _ => -1
  }

  lemma OpTokens(op: BinOp)
    ensures Continues(OpToken(op)) == OpLevel(op)
    ensures OpLevel(op) == 3 ==> Comparison(OpToken(op)) == Some(op)
    ensures OpLevel(op) == 4 ==> Additive(OpToken(op)) == Some(op)
    ensures OpLevel(op) == 5 ==> Multiplicative(OpToken(op)) == Some(op)
  {
  }

  lemma Tables(t: Token)
    ensures Comparison(t).Some? ==> OpToken(Comparison(t).value) == t && OpLevel(Comparison(t).value) == 3
    ensures Additive(t).Some? ==> OpToken(Additive(t).value) == t && OpLevel(Additive(t).value) == 4
    ensures Multiplicative(t).Some? ==> OpToken(Multiplicative(t).value) == t && OpLevel(Multiplicative(t).value) == 5
    ensures Continues(t) <= 2 ==> Comparison(t).None? && t !in {Is, Between, Not, In, Like}
    ensures Continues(t) <= 3 ==> Additive(t).None?
    ensures Continues(t) <= 4 ==> Multiplicative(t).None?
    ensures Continues(t) <= 6 ==> t !in {Dot, LParen}
  {
  }

  /** A spelling begins with a primary, a minus or a NOT. */
  function Head(c: Cst): Token {
    match c
    case BinC(_, l, _) => Head(l)
    case NotC(_) => Not
    case NegC(_) => Minus
    case IsNullC(x, _) => Head(x)
    case BetweenC(x, _, _) => Head(x)
    case InC(x, _, _) => Head(x)
    case LikeC(x, _, _) => Head(x)
    case LitC(lit) => LitToken(lit)
    case StarC => Star
    case ParenC(_) => LParen
    case IntervalC(_, _) => Interval
    case ColumnC(name) => Ident(name)
    case QualifiedC(table, _) => Ident(table)
    case CallC(name, _) => Ident(name)
    case EmptyCallC(name) => Ident(name)
  }

  lemma {:induction false} SpellHead(c: Cst, rest: Tokens)
    ensures Spell(c, rest).Tok? && Spell(c, rest).head == Head(c)
    decreases c
  {
    match c
    case BinC(op, l, r) => SpellHead(l, Tok(OpToken(op), Spell(r, rest)));
    case IsNullC(x, negated) => SpellHead(x, SpellIs(negated, rest));
    case BetweenC(x, lo, hi) => SpellHead(x, Tok(Between, Spell(lo, Tok(And, Spell(hi, rest)))));
    case InC(x, list, negated) =>
      SpellHead(x, SpellNegation(negated, Tok(In, Tok(LParen, SpellAll(list, Tok(RParen, rest))))));
    case LikeC(x, pattern, negated) =>
      SpellHead(x, SpellNegation(negated, Tok(Like, Tok(StrLit(pattern), rest))));
    case _ =>
  }

  lemma {:induction false} HeadOfLevel(g: Iql, c: Cst)
    requires WellFormed(g, c)
    ensures Level(c) >= 3 ==> Head(c) != Not
    ensures Level(c) >= 7 ==> Head(c) != Minus
    ensures Head(c) != RParen
    decreases c
  {
    match c
    case BinC(op, l, r) => HeadOfLevel(g, l);
    case IsNullC(x, _) => HeadOfLevel(g, x);
    case BetweenC(x, _, _) => HeadOfLevel(g, x);
    case InC(x, _, _) => HeadOfLevel(g, x);
    case LikeC(x, _, _) => HeadOfLevel(g, x);
    case _ =>
  }

  lemma {:induction false} ListHead(g: Iql, cs: Csts, rest: Tokens)
    requires AllWellFormed(g, cs)
    ensures SpellAll(cs, rest).Peek() != RParen
    decreases cs
  {
    match cs
    case One(c) => SpellHead(c, rest); HeadOfLevel(g, c);
    case More(init, c) => ListHead(g, init, Tok(Comma, Spell(c, rest)));
  }

  lemma {:induction false} OrComplete(g: Iql, c: Cst, rest: Tokens)
    requires WellFormed(g, c) && Continues(rest.Peek()) <= 0
    ensures g.ParseOr(Spell(c, rest)) == g.OrTail(Denote(c), rest)
    decreases c, 7
  {
    if c.BinC? && c.op == OrOp {
      OrComplete(g, c.l, Tok(Or, Spell(c.r, rest)));
      AndComplete(g, c.r, rest);
    } else {
      AndComplete(g, c, rest);
    }
  }

  lemma {:induction false} AndComplete(g: Iql, c: Cst, rest: Tokens)
    requires WellFormed(g, c) && Level(c) >= 1 && Continues(rest.Peek()) <= 1
    ensures g.ParseAnd(Spell(c, rest)) == g.AndTail(Denote(c), rest)
    decreases c, 6
  {
    if c.BinC? && c.op == AndOp {
      AndComplete(g, c.l, Tok(And, Spell(c.r, rest)));
      NotComplete(g, c.r, rest);
    } else {
      NotComplete(g, c, rest);
    }
  }

  lemma {:induction false} NotComplete(g: Iql, c: Cst, rest: Tokens)
    requires WellFormed(g, c) && Level(c) >= 2 && Continues(rest.Peek()) <= 2
    ensures g.ParseNot(Spell(c, rest)) == Ok(Denote(c), rest)
    decreases c, 5
  {
    if c.NotC? {
      NotComplete(g, c.x, rest);
    } else {
      SpellHead(c, rest);
      HeadOfLevel(g, c);
      ComparisonComplete(g, c, rest);
    }
  }

  lemma {:induction false} ComparisonComplete(g: Iql, c: Cst, rest: Tokens)
    requires WellFormed(g, c) && Level(c) >= 3 && Continues(rest.Peek()) <= 2
    ensures g.ParseComparison(Spell(c, rest)) == Ok(Denote(c), rest)
    decreases c, 4
  {
    if Level(c) >= 4 {
      OperandComplete(g, c, rest);
      NoTail(g, Denote(c), rest);
    } else {
      match c
      case BinC(op, l, r) =>
        OpTokens(op);
        OperandComplete(g, l, Tok(OpToken(op), Spell(r, rest)));
        OperatorTailComplete(g, Denote(l), op, r, rest);
      case IsNullC(x, negated) =>
        OperandComplete(g, x, SpellIs(negated, rest));
        IsTailComplete(g, Denote(x), negated, rest);
      case BetweenC(x, lo, hi) =>
        OperandComplete(g, x, Tok(Between, Spell(lo, Tok(And, Spell(hi, rest)))));
        BetweenTailComplete(g, Denote(x), c, rest);
      case InC(x, list, negated) =>
        OperandComplete(g, x, SpellNegation(negated, Tok(In, Tok(LParen, SpellAll(list, Tok(RParen, rest))))));
        InTailComplete(g, Denote(x), list, negated, rest);
      case LikeC(x, pattern, negated) =>
        OperandComplete(g, x, SpellNegation(negated, Tok(Like, Tok(StrLit(pattern), rest))));
        LikeTailComplete(g, Denote(x), pattern, negated, rest);
    }
  }

  lemma {:induction false} OperandComplete(g: Iql, c: Cst, rest: Tokens)
    requires Operand(g, c) && Continues(rest.Peek()) <= 3
    ensures g.ParseAddition(Spell(c, rest)) == Ok(Denote(c), rest)
    ensures g.ParseComparison(Spell(c, rest)) == g.ComparisonTail(Denote(c), rest)
    decreases c, 3, 1
  {
    AddComplete(g, c, rest);
    Tables(rest.Peek());
  }

  lemma NoTail(g: Iql, e: Expr, rest: Tokens)
    requires Continues(rest.Peek()) <= 2
    ensures g.ComparisonTail(e, rest) == Ok(e, rest)
  {
    Tables(rest.Peek());
  }

  lemma OperatorTailComplete(g: Iql, e: Expr, op: BinOp, r: Cst, rest: Tokens)
    requires OpLevel(op) == 3 && Operand(g, r) && Continues(rest.Peek()) <= 2
    ensures g.ComparisonTail(e, Tok(OpToken(op), Spell(r, rest))) == Ok(Bin(op, e, Denote(r)), rest)
    decreases r, 4
  {
    OpTokens(op);
    OperandComplete(g, r, rest);
  }

  lemma IsTailComplete(g: Iql, e: Expr, negated: bool, rest: Tokens)
    ensures g.ComparisonTail(e, SpellIs(negated, rest)) == Ok(if negated then IsNotNull(e) else IsNull(e), rest)
  {
  }

  lemma BetweenTailComplete(g: Iql, e: Expr, c: Cst, rest: Tokens)
    requires c.BetweenC? && Operand(g, c.lo) && Operand(g, c.hi) && Continues(rest.Peek()) <= 2
    ensures g.ComparisonTail(e, Tok(Between, Spell(c.lo, Tok(And, Spell(c.hi, rest))))) ==
            Ok(BetweenExpr(e, Denote(c.lo), Denote(c.hi)), rest)
    decreases c, 0
  {
    OperandComplete(g, c.lo, Tok(And, Spell(c.hi, rest)));
    OperandComplete(g, c.hi, rest);
  }

  lemma InTailComplete(g: Iql, e: Expr, list: Csts, negated: bool, rest: Tokens)
    requires AllWellFormed(g, list)
    ensures var in_ := InExpr(e, DenoteAll(list));
            g.ComparisonTail(e, SpellNegation(negated, Tok(In, Tok(LParen, SpellAll(list, Tok(RParen, rest)))))) ==
            Ok(if negated then Un(NotOp, in_) else in_, rest)
    decreases list, 10
  {
    var body := Tok(LParen, SpellAll(list, Tok(RParen, rest)));
    InListComplete(g, list, rest);
    assert negated ==> g.NegatedTail(e, Tok(In, body)) == g.InTail(e, negated, body);
  }

  lemma LikeTailComplete(g: Iql, e: Expr, pattern: string, negated: bool, rest: Tokens)
    ensures g.ComparisonTail(e, SpellNegation(negated, Tok(Like, Tok(StrLit(pattern), rest)))) ==
            Ok(LikeExpr(e, pattern, negated), rest)
  {
    var body := Tok(StrLit(pattern), rest);
    assert negated ==> g.NegatedTail(e, Tok(Like, body)) == g.LikeTail(e, negated, body);
  }

  lemma InListComplete(g: Iql, list: Csts, rest: Tokens)
    requires AllWellFormed(g, list)
    ensures g.ParseInList(Tok(LParen, SpellAll(list, Tok(RParen, rest)))) == Ok(DenoteAll(list), rest)
    decreases list, 9
  {
    ListComplete(g, list, Tok(RParen, rest));
  }

  lemma CallComplete(g: Iql, name: string, args: Csts, rest: Tokens)
    requires AllWellFormed(g, args)
    ensures g.ParseCall(name, SpellAll(args, Tok(RParen, rest))) == Ok(Func(ToLower(name), DenoteAll(args)), rest)
    decreases args, 9
  {
    ListHead(g, args, Tok(RParen, rest));
    ListComplete(g, args, Tok(RParen, rest));
  }

  lemma NamedCallComplete(g: Iql, name: string, args: Csts, rest: Tokens)
    requires AllWellFormed(g, args)
    ensures g.ParsePrimary(Spell(CallC(name, args), rest)) == Ok(Denote(CallC(name, args)), rest)
    decreases args, 10
  {
    CallComplete(g, name, args, rest);
    var body := SpellAll(args, Tok(RParen, rest));
    assert g.ParseNamed(name, Tok(LParen, body)) == g.ParseCall(name, body);
  }

  lemma ParenComplete(g: Iql, x: Cst, rest: Tokens)
    requires WellFormed(g, x)
    ensures g.ParseParenthesised(Spell(x, Tok(RParen, rest))) == Ok(Denote(x), rest)
    decreases x, 8
  {
    OrComplete(g, x, Tok(RParen, rest));
  }

  lemma {:induction false} AddComplete(g: Iql, c: Cst, rest: Tokens)
    requires WellFormed(g, c) && Level(c) >= 4 && Continues(rest.Peek()) <= 4
    ensures g.ParseAddition(Spell(c, rest)) == g.AddTail(Denote(c), rest)
    decreases c, 3, 0
  {
    Tables(rest.Peek());
    if Level(c) == 4 {
      OpTokens(c.op);
      AddComplete(g, c.l, Tok(OpToken(c.op), Spell(c.r, rest)));
      MulComplete(g, c.r, rest);
    } else {
      MulComplete(g, c, rest);
    }
  }

  lemma {:induction false} MulComplete(g: Iql, c: Cst, rest: Tokens)
    requires WellFormed(g, c) && Level(c) >= 5 && Continues(rest.Peek()) <= 5
    ensures g.ParseMultiplication(Spell(c, rest)) == g.MulTail(Denote(c), rest)
    decreases c, 2
  {
    if Level(c) == 5 {
      OpTokens(c.op);
      MulComplete(g, c.l, Tok(OpToken(c.op), Spell(c.r, rest)));
      UnaryComplete(g, c.r, rest);
    } else {
      UnaryComplete(g, c, rest);
    }
  }

  lemma {:induction false} UnaryComplete(g: Iql, c: Cst, rest: Tokens)
    requires WellFormed(g, c) && Level(c) >= 6 && Continues(rest.Peek()) <= 6
    ensures g.ParseUnary(Spell(c, rest)) == Ok(Denote(c), rest)
    decreases c, 1
  {
    if c.NegC? {
      UnaryComplete(g, c.x, rest);
    } else {
      SpellHead(c, rest);
      HeadOfLevel(g, c);
      PrimaryComplete(g, c, rest);
    }
  }

  lemma {:induction false} PrimaryComplete(g: Iql, c: Cst, rest: Tokens)
    requires WellFormed(g, c) && Level(c) == 7 && Continues(rest.Peek()) <= 6
    ensures g.ParsePrimary(Spell(c, rest)) == Ok(Denote(c), rest)
    decreases c, 0
  {
    if c.ParenC? {
      ParenComplete(g, c.x, rest);
    } else if c.CallC? {
      NamedCallComplete(g, c.name, c.args, rest);
    } else if c.ColumnC? {
      ColumnComplete(g, c.name, rest);
    } else if c.QualifiedC? {
      QualifiedComplete(g, c.table, c.name, rest);
    } else if c.EmptyCallC? {
      EmptyCallComplete(g, c.name, rest);
    } else {
      ConstantComplete(g, c, rest);
    }
  }

  lemma ColumnComplete(g: Iql, name: string, rest: Tokens)
    requires Continues(rest.Peek()) <= 6
    ensures g.ParsePrimary(Tok(Ident(name), rest)) == Ok(Column(None, name), rest)
  {
    Tables(rest.Peek());
    assert g.ParseNamed(name, rest) == Ok(Column(None, name), rest);
  }

  lemma QualifiedComplete(g: Iql, table: string, name: string, rest: Tokens)
    ensures g.ParsePrimary(Tok(Ident(table), Tok(Dot, Tok(Ident(name), rest)))) == Ok(Column(Some(table), name), rest)
  {
    assert g.ParseNamed(table, Tok(Dot, Tok(Ident(name), rest))) == g.ParseQualified(table, Tok(Ident(name), rest));
  }

  lemma EmptyCallComplete(g: Iql, name: string, rest: Tokens)
    ensures g.ParsePrimary(Tok(Ident(name), Tok(LParen, Tok(RParen, rest)))) == Ok(Func(ToLower(name), []), rest)
  {
    assert g.ParseNamed(name, Tok(LParen, Tok(RParen, rest))) == g.ParseCall(name, Tok(RParen, rest));
  }

  lemma ConstantComplete(g: Iql, c: Cst, rest: Tokens)
    requires WellFormed(g, c) && (c.LitC? || c.StarC? || c.IntervalC?)
    ensures g.ParsePrimary(Spell(c, rest)) == Ok(Denote(c), rest)
  {
  }

  lemma {:induction false} ListComplete(g: Iql, cs: Csts, rest: Tokens)
    requires AllWellFormed(g, cs) && Continues(rest.Peek()) <= -1
    ensures g.ParseExprList(SpellAll(cs, rest)) == g.ExprListTail(DenoteAll(cs), rest)
    decreases cs, 8
  {
    match cs
    case One(c) => OrComplete(g, c, rest);
    case More(init, c) =>
      ListComplete(g, init, Tok(Comma, Spell(c, rest)));
      OrComplete(g, c, rest);
  }

  // ----- Soundness: whatever parses is the spelling of a well-formed tree -----

  /** `c` is a well-formed tree of at least `level` that spells `ts` up to `rest` and denotes `e` */
  ghost predicate Derives(g: Iql, c: Cst, level: nat, e: Expr, ts: Tokens, rest: Tokens) {
    WellFormed(g, c) && Level(c) >= level && Denote(c) == e && Spell(c, rest) == ts
  }

  lemma {:induction false} OrSound(g: Iql, ts: Tokens) returns (c: Cst)
    requires g.ParseOr(ts).Ok?
    ensures Derives(g, c, 0, g.ParseOr(ts).value, ts, g.ParseOr(ts).rest)
    decreases ts, 7
  {
    c := AndSound(g, ts);
    c := OrTailSound(g, c, g.ParseAnd(ts).value, g.ParseAnd(ts).rest, ts);
  }

  lemma {:induction false} OrTailSound(g: Iql, l: Cst, left: Expr, ts: Tokens, start: Tokens) returns (c: Cst)
    requires g.OrTail(left, ts).Ok? && Derives(g, l, 0, left, start, ts)
    ensures Derives(g, c, 0, g.OrTail(left, ts).value, start, g.OrTail(left, ts).rest)
    decreases ts, 0
  {
    if ts.Peek() != Or { return l; }
    var r := AndSound(g, ts.tail);
    var right := g.ParseAnd(ts.tail);
    c := OrTailSound(g, BinC(OrOp, l, r), Bin(OrOp, left, right.value), right.rest, start);
  }

  lemma {:induction false} AndSound(g: Iql, ts: Tokens) returns (c: Cst)
    requires g.ParseAnd(ts).Ok?
    ensures Derives(g, c, 1, g.ParseAnd(ts).value, ts, g.ParseAnd(ts).rest)
    decreases ts, 6
  {
    c := NotSound(g, ts);
    c := AndTailSound(g, c, g.ParseNot(ts).value, g.ParseNot(ts).rest, ts);
  }

  lemma {:induction false} AndTailSound(g: Iql, l: Cst, left: Expr, ts: Tokens, start: Tokens) returns (c: Cst)
    requires g.AndTail(left, ts).Ok? && Derives(g, l, 1, left, start, ts)
    ensures Derives(g, c, 1, g.AndTail(left, ts).value, start, g.AndTail(left, ts).rest)
    decreases ts, 0
  {
    if ts.Peek() != And { return l; }
    var r := NotSound(g, ts.tail);
    var right := g.ParseNot(ts.tail);
    c := AndTailSound(g, BinC(AndOp, l, r), Bin(AndOp, left, right.value), right.rest, start);
  }

  lemma {:induction false} NotSound(g: Iql, ts: Tokens) returns (c: Cst)
    requires g.ParseNot(ts).Ok?
    ensures Derives(g, c, 2, g.ParseNot(ts).value, ts, g.ParseNot(ts).rest)
    decreases ts, 5
  {
    if ts.Peek() == Not {
      c := NotSound(g, ts.tail);
      c := NotC(c);
    } else {
      c := ComparisonSound(g, ts);
    }
  }

  lemma {:induction false} ComparisonSound(g: Iql, ts: Tokens) returns (c: Cst)
    requires g.ParseComparison(ts).Ok?
    ensures Derives(g, c, 3, g.ParseComparison(ts).value, ts, g.ParseComparison(ts).rest)
    decreases ts, 4
  {
    var l := AddSound(g, ts);
    var left := g.ParseAddition(ts);
    c := ComparisonTailSound(g, l, left.value, left.rest, ts);
  }

  lemma {:induction false} ComparisonTailSound(g: Iql, l: Cst, left: Expr, ts: Tokens, start: Tokens)
    returns (c: Cst)
    requires g.ComparisonTail(left, ts).Ok? && Derives(g, l, 4, left, start, ts)
    ensures Derives(g, c, 3, g.ComparisonTail(left, ts).value, start, g.ComparisonTail(left, ts).rest)
    decreases ts, 1
  {
    if Comparison(ts.Peek()).Some? {
      c := OperatorSound(g, l, left, ts, start);
    } else {
      match ts.Peek()
      case Is => c := IsSound(g, l, left, ts, start);
      case Between => c := BetweenSound(g, l, left, ts, start);
      case Not => c := NegatedSound(g, l, left, ts, start);
      case In => c := InSound(g, l, left, false, ts.tail, start);
      case Like => c := LikeSound(g, l, left, false, ts.tail, start);
      case _ => c := l;
    }
  }

  lemma OperatorSound(g: Iql, l: Cst, left: Expr, ts: Tokens, start: Tokens) returns (c: Cst)
    requires Comparison(ts.Peek()).Some? && g.OperatorTail(left, ts).Ok? && Derives(g, l, 4, left, start, ts)
    ensures Derives(g, c, 3, g.OperatorTail(left, ts).value, start, g.OperatorTail(left, ts).rest)
    decreases ts, 0
  {
    var r := AddSound(g, ts.tail);
    Tables(ts.Peek());
    c := BinC(Comparison(ts.Peek()).value, l, r);
  }

  lemma IsSound(g: Iql, l: Cst, left: Expr, ts: Tokens, start: Tokens) returns (c: Cst)
    requires ts.Peek() == Is && g.IsTail(left, ts.tail).Ok? && Derives(g, l, 4, left, start, ts)
    ensures Derives(g, c, 3, g.IsTail(left, ts.tail).value, start, g.IsTail(left, ts.tail).rest)
  {
    var negated, rest := ts.tail.Peek() == Not, g.IsTail(left, ts.tail).rest;
    assert ts == SpellIs(negated, rest);
    c := IsNullC(l, negated);
  }

  lemma BetweenSound(g: Iql, l: Cst, left: Expr, ts: Tokens, start: Tokens) returns (c: Cst)
    requires ts.Peek() == Between && g.BetweenTail(left, ts.tail).Ok? && Derives(g, l, 4, left, start, ts)
    ensures Derives(g, c, 3, g.BetweenTail(left, ts.tail).value, start, g.BetweenTail(left, ts.tail).rest)
    decreases ts, 0
  {
    var lo := AddSound(g, ts.tail);
    var rest := g.ParseAddition(ts.tail).rest;
    var hi := AddSound(g, rest.tail);
    c := BetweenC(l, lo, hi);
  }

  lemma NegatedSound(g: Iql, l: Cst, left: Expr, ts: Tokens, start: Tokens) returns (c: Cst)
    requires ts.Peek() == Not && g.NegatedTail(left, ts.tail).Ok? && Derives(g, l, 4, left, start, ts)
    ensures Derives(g, c, 3, g.NegatedTail(left, ts.tail).value, start, g.NegatedTail(left, ts.tail).rest)
    decreases ts, 0
  {
    if ts.tail.Peek() == In {
      c := InSound(g, l, left, true, ts.tail.tail, start);
    } else {
      c := LikeSound(g, l, left, true, ts.tail.tail, start);
    }
  }

  lemma LikeSound(g: Iql, l: Cst, left: Expr, negated: bool, ts: Tokens, start: Tokens) returns (c: Cst)
    requires g.LikeTail(left, negated, ts).Ok?
    requires Derives(g, l, 4, left, start, SpellNegation(negated, Tok(Like, ts)))
    ensures Derives(g, c, 3, g.LikeTail(left, negated, ts).value, start, g.LikeTail(left, negated, ts).rest)
  {
    c := LikeC(l, ts.head.s, negated);
  }

  lemma {:induction false} InSound(g: Iql, l: Cst, left: Expr, negated: bool, ts: Tokens, start: Tokens)
    returns (c: Cst)
    requires g.InTail(left, negated, ts).Ok?
    requires Derives(g, l, 4, left, start, SpellNegation(negated, Tok(In, ts)))
    ensures Derives(g, c, 3, g.InTail(left, negated, ts).value, start, g.InTail(left, negated, ts).rest)
    decreases ts, 10
  {
    var rest := g.InTail(left, negated, ts).rest;
    assert g.ParseInList(ts) == Close(g.ParseExprList(ts.tail).value, g.ParseExprList(ts.tail).rest);
    assert g.ParseExprList(ts.tail).rest == Tok(RParen, rest);
    var list := ListSound(g, ts.tail);
    assert ts == Tok(LParen, SpellAll(list, Tok(RParen, rest)));
    c := InC(l, list, negated);
  }

  lemma {:induction false} ListSound(g: Iql, ts: Tokens) returns (cs: Csts)
    requires g.ParseExprList(ts).Ok?
    ensures AllWellFormed(g, cs) && DenoteAll(cs) == g.ParseExprList(ts).value
    ensures SpellAll(cs, g.ParseExprList(ts).rest) == ts
    decreases ts, 9
  {
    var c := OrSound(g, ts);
    cs := ListTailSound(g, One(c), [g.ParseOr(ts).value], g.ParseOr(ts).rest, ts);
  }

  lemma {:induction false} ListTailSound(g: Iql, init: Csts, items: seq<Expr>, ts: Tokens, start: Tokens)
    returns (cs: Csts)
    requires g.ExprListTail(items, ts).Ok?
    requires AllWellFormed(g, init) && DenoteAll(init) == items && SpellAll(init, ts) == start
    ensures AllWellFormed(g, cs) && DenoteAll(cs) == g.ExprListTail(items, ts).value
    ensures SpellAll(cs, g.ExprListTail(items, ts).rest) == start
    decreases ts, 0
  {
    if ts.Peek() != Comma { return init; }
    var c := OrSound(g, ts.tail);
    var r := g.ParseOr(ts.tail);
    cs := ListTailSound(g, More(init, c), items + [r.value], r.rest, start);
  }

  lemma {:induction false} AddSound(g: Iql, ts: Tokens) returns (c: Cst)
    requires g.ParseAddition(ts).Ok?
    ensures Derives(g, c, 4, g.ParseAddition(ts).value, ts, g.ParseAddition(ts).rest)
    decreases ts, 3
  {
    c := MulSound(g, ts);
    c := AddTailSound(g, c, g.ParseMultiplication(ts).value, g.ParseMultiplication(ts).rest, ts);
  }

  lemma {:induction false} AddTailSound(g: Iql, l: Cst, left: Expr, ts: Tokens, start: Tokens) returns (c: Cst)
    requires g.AddTail(left, ts).Ok? && Derives(g, l, 4, left, start, ts)
    ensures Derives(g, c, 4, g.AddTail(left, ts).value, start, g.AddTail(left, ts).rest)
    decreases ts, 0
  {
    if Additive(ts.Peek()).None? { return l; }
    Tables(ts.Peek());
    var op := Additive(ts.Peek()).value;
    var r := MulSound(g, ts.tail);
    var right := g.ParseMultiplication(ts.tail);
    c := AddTailSound(g, BinC(op, l, r), Bin(op, left, right.value), right.rest, start);
  }

  lemma {:induction false} MulSound(g: Iql, ts: Tokens) returns (c: Cst)
    requires g.ParseMultiplication(ts).Ok?
    ensures Derives(g, c, 5, g.ParseMultiplication(ts).value, ts, g.ParseMultiplication(ts).rest)
    decreases ts, 2
  {
    c := UnarySound(g, ts);
    c := MulTailSound(g, c, g.ParseUnary(ts).value, g.ParseUnary(ts).rest, ts);
  }

  lemma {:induction false} MulTailSound(g: Iql, l: Cst, left: Expr, ts: Tokens, start: Tokens) returns (c: Cst)
    requires g.MulTail(left, ts).Ok? && Derives(g, l, 5, left, start, ts)
    ensures Derives(g, c, 5, g.MulTail(left, ts).value, start, g.MulTail(left, ts).rest)
    decreases ts, 0
  {
    if Multiplicative(ts.Peek()).None? { return l; }
    Tables(ts.Peek());
    var op := Multiplicative(ts.Peek()).value;
    var r := UnarySound(g, ts.tail);
    var right := g.ParseUnary(ts.tail);
    c := MulTailSound(g, BinC(op, l, r), Bin(op, left, right.value), right.rest, start);
  }

  lemma {:induction false} UnarySound(g: Iql, ts: Tokens) returns (c: Cst)
    requires g.ParseUnary(ts).Ok?
    ensures Derives(g, c, 6, g.ParseUnary(ts).value, ts, g.ParseUnary(ts).rest)
    decreases ts, 1
  {
    if ts.Peek() == Minus {
      c := UnarySound(g, ts.tail);
      c := NegC(c);
    } else {
      c := PrimarySound(g, ts);
    }
  }

  lemma {:induction false} PrimarySound(g: Iql, ts: Tokens) returns (c: Cst)
    requires g.ParsePrimary(ts).Ok?
    ensures Derives(g, c, 7, g.ParsePrimary(ts).value, ts, g.ParsePrimary(ts).rest)
    decreases ts, 0
  {
    match ts.Peek()
    case LParen => c := ParenSound(g, ts.tail);
    case Star => c := StarC;
    case Interval => c := IntervalC(ts.tail.head.s, g.ParsePrimary(ts).value.ns);
    case Ident(name) => c := NamedSound(g, name, ts.tail);
    case _ => c := LitSound(g, ts);
  }

  lemma LitSound(g: Iql, ts: Tokens) returns (c: Cst)
    requires g.ParsePrimary(ts).Ok? && ts.Peek() !in {LParen, Star, Interval} && !ts.Peek().Ident?
    ensures Derives(g, c, 7, g.ParsePrimary(ts).value, ts, g.ParsePrimary(ts).rest)
  {
    c := LitC(g.ParsePrimary(ts).value.lit);
  }

  lemma {:induction false} ParenSound(g: Iql, ts: Tokens) returns (c: Cst)
    requires g.ParseParenthesised(ts).Ok?
    ensures Derives(g, c, 7, g.ParseParenthesised(ts).value, Tok(LParen, ts), g.ParseParenthesised(ts).rest)
    decreases ts, 9
  {
    var x := OrSound(g, ts);
    assert g.ParseOr(ts).rest == Tok(RParen, g.ParseParenthesised(ts).rest);
    c := ParenC(x);
  }

  lemma {:induction false} NamedSound(g: Iql, name: string, ts: Tokens) returns (c: Cst)
    requires g.ParseNamed(name, ts).Ok?
    ensures Derives(g, c, 7, g.ParseNamed(name, ts).value, Tok(Ident(name), ts), g.ParseNamed(name, ts).rest)
    decreases ts, 11
  {
    if ts.Peek() == LParen {
      c := CallSound(g, name, ts.tail);
    } else {
      c := ColumnSound(g, name, ts);
    }
  }

  lemma ColumnSound(g: Iql, name: string, ts: Tokens) returns (c: Cst)
    requires ts.Peek() != LParen && g.ParseNamed(name, ts).Ok?
    ensures Derives(g, c, 7, g.ParseNamed(name, ts).value, Tok(Ident(name), ts), g.ParseNamed(name, ts).rest)
  {
    if ts.Peek() == Dot {
      assert g.ParseNamed(name, ts) == g.ParseQualified(name, ts.tail);
      assert ts == Tok(Dot, Tok(Ident(ts.tail.head.name), ts.tail.tail));
      c := QualifiedC(name, ts.tail.head.name);
    } else {
      c := ColumnC(name);
    }
  }

  lemma {:induction false} CallSound(g: Iql, name: string, ts: Tokens) returns (c: Cst)
    requires g.ParseCall(name, ts).Ok?
    ensures Derives(g, c, 7, g.ParseCall(name, ts).value, Tok(Ident(name), Tok(LParen, ts)), g.ParseCall(name, ts).rest)
    decreases ts, 10
  {
    if ts.Peek() == RParen { return EmptyCallC(name); }
    var args := ListSound(g, ts);
    assert g.ParseExprList(ts).rest == Tok(RParen, g.ParseCall(name, ts).rest);
    c := CallC(name, args);
  }

  /** The expression parser accepts exactly the grammar: it answers `e` and stops before
      `rest` if and only if some well-formed tree denoting `e` spells the tokens read and
      `rest` cannot extend it. */
  lemma ExpressionsExactly(g: Iql, ts: Tokens, e: Expr, rest: Tokens)
    requires Continues(rest.Peek()) == -1
    ensures g.ParseOr(ts) == Ok(e, rest) <==> exists c :: Derives(g, c, 0, e, ts, rest)
  {
    if g.ParseOr(ts) == Ok(e, rest) {
      var c := OrSound(g, ts);
      assert Derives(g, c, 0, e, ts, rest);
    }
    if exists c :: Derives(g, c, 0, e, ts, rest) {
      var c :| Derives(g, c, 0, e, ts, rest);
      OrComplete(g, c, rest);
    }
  }

  /** The grammar is unambiguous: two trees with the same spelling denote the same. */
  lemma Unambiguous(g: Iql, c: Cst, c': Cst, rest: Tokens)
    requires WellFormed(g, c) && WellFormed(g, c') && Continues(rest.Peek()) == -1
    requires Spell(c, rest) == Spell(c', rest)
    ensures Denote(c) == Denote(c')
  {
    OrComplete(g, c, rest);
    OrComplete(g, c', rest);
  }
}
