/** A precedence-aware printer that adds only the parentheses it must, and the proof that
    parsing inverts it for exactly the expressions a parse can produce. */
module Printer {
  import opened Options
  import opened Ast
  import opened Parser
  import opened Grammar
  import opened Statements

  // ----- What a parse can produce -----

  ghost predicate Producible(g: Iql, e: Expr) {
    match e
    case Bin(_, l, r) => Producible(g, l) && Producible(g, r)
    case Un(_, x) => Producible(g, x)
    case IsNull(x) => Producible(g, x)
    case IsNotNull(x) => Producible(g, x)
    case BetweenExpr(x, lo, hi) => Producible(g, x) && Producible(g, lo) && Producible(g, hi)
    case InExpr(x, list) => Producible(g, x) && list != [] && forall i | 0 <= i < |list| :: Producible(g, list[i])
    case LikeExpr(x, _, _) => Producible(g, x)
    case Func(name, args) => ToLower(name) == name && forall i | 0 <= i < |args| :: Producible(g, args[i])
    case IntervalNs(ns) => exists text :: g.interval(text) == Some(ns)
    case _ => true
  }

  // ----- Printing -----

  /** Parenthesise `c` if it binds more weakly than its place requires. */
  function At(level: nat, c: Cst): Cst {
    if Level(c) >= level then c else ParenC(c)
  }

  ghost function IntervalText(g: Iql, ns: int): (text: string)
    requires exists text :: g.interval(text) == Some(ns)
    ensures g.interval(text) == Some(ns)
  {
    var text :| g.interval(text) == Some(ns);
    text
  }

  ghost function Print(g: Iql, e: Expr): Cst
    requires Producible(g, e)
    decreases e, 1, 0
  {
    match e
    case Bin(op, l, r) => BinC(op, At(LeftLevel(op), Print(g, l)), At(RightLevel(op), Print(g, r)))
    case Un(NotOp, x) => NotC(At(2, Print(g, x)))
    case Un(Neg, x) => NegC(At(6, Print(g, x)))
    case IsNull(x) => IsNullC(At(4, Print(g, x)), false)
    case IsNotNull(x) => IsNullC(At(4, Print(g, x)), true)
    case BetweenExpr(x, lo, hi) => BetweenC(At(4, Print(g, x)), At(4, Print(g, lo)), At(4, Print(g, hi)))
    case InExpr(x, list) => InC(At(4, Print(g, x)), PrintAll(g, e, list), false)
    case LikeExpr(x, pattern, negated) => LikeC(At(4, Print(g, x)), pattern, negated)
    case Lit(lit) => LitC(lit)
    case StarExpr => StarC
    case Column(None, name) => ColumnC(name)
    case Column(Some(table), name) => QualifiedC(table, name)
    case Func(name, args) => if args == [] then EmptyCallC(name) else CallC(name, PrintAll(g, e, args))
    case IntervalNs(ns) => IntervalC(IntervalText(g, ns), ns)
  }

  /** The list of arguments of `parent` */
  ghost function PrintAll(g: Iql, parent: Expr, list: seq<Expr>): Csts
    requires list != [] && forall i | 0 <= i < |list| :: Producible(g, list[i]) && list[i] < parent
    decreases parent, 0, |list|
  {
    var last := |list| - 1;
    if last == 0 then One(Print(g, list[0]))
    else More(PrintAll(g, parent, list[..last]), Print(g, list[last]))
  }

  // ----- The printed tree is well formed and denotes the expression -----

  ghost predicate Faithful(g: Iql, c: Cst, e: Expr) {
    WellFormed(g, c) && Denote(c) == e
  }

  lemma AtFaithful(g: Iql, level: nat, c: Cst, e: Expr)
    requires Faithful(g, c, e) && level <= 7
    ensures Faithful(g, At(level, c), e) && Level(At(level, c)) >= level
  {
  }

  lemma {:induction false} PrintFaithful(g: Iql, e: Expr)
    requires Producible(g, e)
    ensures Faithful(g, Print(g, e), e)
    decreases e, 2, 0
  {
    if e.Bin? || e.Un? {
      OperatorFaithful(g, e);
    } else if e.Lit? || e.StarExpr? || e.Column? || e.IntervalNs? {
      AtomFaithful(g, e);
    } else {
      CompoundFaithful(g, e);
    }
  }

  lemma OperatorFaithful(g: Iql, e: Expr)
    requires Producible(g, e) && (e.Bin? || e.Un?)
    ensures Faithful(g, Print(g, e), e)
    decreases e, 1, 0
  {
    match e
    case Bin(op, l, r) =>
      PrintFaithful(g, l);
      PrintFaithful(g, r);
      AtFaithful(g, LeftLevel(op), Print(g, l), l);
      AtFaithful(g, RightLevel(op), Print(g, r), r);
    case Un(op, x) =>
      PrintFaithful(g, x);
      AtFaithful(g, if op == NotOp then 2 else 6, Print(g, x), x);
  }

  lemma AtomFaithful(g: Iql, e: Expr)
    requires Producible(g, e) && (e.Lit? || e.StarExpr? || e.Column? || e.IntervalNs?)
    ensures Faithful(g, Print(g, e), e)
  {
  }

  lemma CompoundFaithful(g: Iql, e: Expr)
    requires Producible(g, e)
    requires e.IsNull? || e.IsNotNull? || e.BetweenExpr? || e.InExpr? || e.LikeExpr? || e.Func?
    ensures Faithful(g, Print(g, e), e)
    decreases e, 1, 1
  {
    match e
    case IsNull(x) => OperandFaithful(g, e, x);
    case IsNotNull(x) => OperandFaithful(g, e, x);
    case BetweenExpr(x, lo, hi) => OperandFaithful(g, e, x); OperandFaithful(g, e, lo); OperandFaithful(g, e, hi);
    case LikeExpr(x, _, _) => OperandFaithful(g, e, x);
    case _ => ListFaithful(g, e);
  }

  lemma ListFaithful(g: Iql, e: Expr)
    requires Producible(g, e) && (e.InExpr? || e.Func?)
    ensures Faithful(g, Print(g, e), e)
    decreases e, 1, 0
  {
    match e
    case InExpr(x, list) => OperandFaithful(g, e, x); PrintAllFaithful(g, e, list);
    case Func(name, args) => if args != [] { PrintAllFaithful(g, e, args); }
  }

  lemma OperandFaithful(g: Iql, parent: Expr, x: Expr)
    requires x < parent && Producible(g, x)
    ensures Faithful(g, At(4, Print(g, x)), x) && Operand(g, At(4, Print(g, x)))
    decreases parent, 0, 0
  {
    PrintFaithful(g, x);
    AtFaithful(g, 4, Print(g, x), x);
  }

  lemma {:induction false} PrintAllFaithful(g: Iql, parent: Expr, list: seq<Expr>)
    requires list != [] && forall i | 0 <= i < |list| :: Producible(g, list[i]) && list[i] < parent
    ensures AllWellFormed(g, PrintAll(g, parent, list)) && DenoteAll(PrintAll(g, parent, list)) == list
    decreases parent, 0, |list|
  {
    var last := |list| - 1;
    PrintFaithful(g, list[last]);
    if last > 0 {
      PrintAllFaithful(g, parent, list[..last]);
      assert list == list[..last] + [list[last]];
    }
  }

  /** Parsing inverts printing, whatever follows the expression. */
  lemma ParseInvertsPrint(g: Iql, e: Expr, rest: Tokens)
    requires Producible(g, e) && Continues(rest.Peek()) == -1
    ensures g.ParseOr(Spell(Print(g, e), rest)) == Ok(e, rest)
  {
    PrintFaithful(g, e);
    ExprComplete(g, Print(g, e), rest);
  }

  // ----- Every parse result is producible -----

  lemma {:induction false} DenotesProducible(g: Iql, c: Cst)
    requires WellFormed(g, c)
    ensures Producible(g, Denote(c))
    decreases c
  {
    match c
    case BinC(_, l, r) => DenotesProducible(g, l); DenotesProducible(g, r);
    case NotC(x) => DenotesProducible(g, x);
    case NegC(x) => DenotesProducible(g, x);
    case IsNullC(x, _) => DenotesProducible(g, x);
    case BetweenC(x, lo, hi) => DenotesProducible(g, x); DenotesProducible(g, lo); DenotesProducible(g, hi);
    case InC(x, list, _) => DenotesProducible(g, x); ListProducible(g, list);
    case LikeC(x, _, _) => DenotesProducible(g, x);
    case ParenC(x) => DenotesProducible(g, x);
    case CallC(name, args) => ToLowerIdempotent(name); ListProducible(g, args);
    case EmptyCallC(name) => ToLowerIdempotent(name);
    case _ =>
  }

  lemma {:induction false} ListProducible(g: Iql, cs: Csts)
    requires AllWellFormed(g, cs)
    ensures DenoteAll(cs) != [] && forall i | 0 <= i < |DenoteAll(cs)| :: Producible(g, DenoteAll(cs)[i])
    decreases cs
  {
    match cs
    case One(c) => DenotesProducible(g, c);
    case More(init, c) => ListProducible(g, init); DenotesProducible(g, c);
  }

  /** An expression is the result of some parse if and only if it is producible; and then
      it is the result of parsing its own printing. */
  lemma ProducibleExactly(g: Iql, e: Expr)
    ensures Producible(g, e) <==> exists ts, rest :: g.ParseOr(ts) == Ok(e, rest)
  {
    if Producible(g, e) {
      ParseInvertsPrint(g, e, End);
    }
    if exists ts, rest :: g.ParseOr(ts) == Ok(e, rest) {
      var ts, rest :| g.ParseOr(ts) == Ok(e, rest);
      var c := OrSound(g, ts);
      DenotesProducible(g, c);
    }
  }

  // ----- No fewer parentheses would do -----

  function Parens(c: Cst): nat {
    match c
    case BinC(_, l, r) => Parens(l) + Parens(r)
    case NotC(x) => Parens(x)
    case NegC(x) => Parens(x)
    case IsNullC(x, _) => Parens(x)
    case BetweenC(x, lo, hi) => Parens(x) + Parens(lo) + Parens(hi)
    case InC(x, list, _) => Parens(x) + ParensAll(list)
    case LikeC(x, _, _) => Parens(x)
    case ParenC(x) => 1 + Parens(x)
    case CallC(_, args) => ParensAll(args)
    case _ => 0
  }

  function ParensAll(cs: Csts): nat {
    match cs case One(c) => Parens(c) case More(init, c) => ParensAll(init) + Parens(c)
  }

  /** For every place a tree can stand, the printed tree needs no more parentheses there. */
  lemma {:induction false} PrintIsLeast(g: Iql, c: Cst, level: nat)
    requires WellFormed(g, c) && Level(c) >= level && level in {0, 1, 2, 4, 5, 6}
    ensures Producible(g, Denote(c))
    ensures Parens(At(level, Print(g, Denote(c)))) <= Parens(c)
    decreases c, 1
  {
    DenotesProducible(g, c);
    match c
    case ParenC(x) => PrintIsLeast(g, x, 0);
    case BinC(op, l, r) => PrintIsLeast(g, l, LeftLevel(op)); PrintIsLeast(g, r, RightLevel(op));
    case NotC(x) => PrintIsLeast(g, x, 2);
    case NegC(x) => PrintIsLeast(g, x, 6);
    case CallC(name, args) => PrintAllIsLeast(g, Denote(c), args);
    case IsNullC(_, _) => PredicateIsLeast(g, c);
    case BetweenC(_, _, _) => PredicateIsLeast(g, c);
    case InC(_, _, _) => PredicateIsLeast(g, c);
    case LikeC(_, _, _) => PredicateIsLeast(g, c);
    case _ =>
  }

  lemma PredicateIsLeast(g: Iql, c: Cst)
    requires WellFormed(g, c) && (c.IsNullC? || c.BetweenC? || c.InC? || c.LikeC?)
    ensures Producible(g, Denote(c))
    ensures Parens(Print(g, Denote(c))) <= Parens(c) && Level(Print(g, Denote(c))) >= 2
    decreases c, 0
  {
    DenotesProducible(g, c);
    match c
    case IsNullC(x, _) => PrintIsLeast(g, x, 4);
    case BetweenC(x, lo, hi) => PrintIsLeast(g, x, 4); PrintIsLeast(g, lo, 4); PrintIsLeast(g, hi, 4);
    case InC(x, list, negated) =>
      PrintIsLeast(g, x, 4);
      PrintAllIsLeast(g, InExpr(Denote(x), DenoteAll(list)), list);
    case LikeC(x, _, _) => PrintIsLeast(g, x, 4);
  }

  lemma {:induction false} PrintAllIsLeast(g: Iql, parent: Expr, cs: Csts)
    requires AllWellFormed(g, cs)
    requires forall i | 0 <= i < |DenoteAll(cs)| :: DenoteAll(cs)[i] < parent
    ensures DenoteAll(cs) != [] && forall i | 0 <= i < |DenoteAll(cs)| :: Producible(g, DenoteAll(cs)[i])
    ensures ParensAll(PrintAll(g, parent, DenoteAll(cs))) <= ParensAll(cs)
    decreases cs
  {
    ListProducible(g, cs);
    match cs
    case One(c) => PrintIsLeast(g, c, 0);
    case More(init, c) =>
      var all, before := DenoteAll(cs), DenoteAll(init);
      assert all[..|all| - 1] == before;
      assert forall i | 0 <= i < |before| :: before[i] == all[i];
      ListProducible(g, init);
      PrintAllIsLeast(g, parent, init);
      PrintIsLeast(g, c, 0);
  }
}
