/** Constant folding at plan time, and what it does to evaluation. */
module Folding {
  import opened Options
  import opened Ast
  import opened Evaluate

  /** The plan-time operation on two integer literals */
  function FoldInts(op: BinOp, a: int, b: int): Option<int> {
    match op
    case Add => Fit(a + b)
    case Sub => Fit(a - b)
    case Mul => Fit(a * b)
    case Div => if b != 0 then Fit(TruncDiv(a, b)) else None
    case Mod => if b != 0 && IsI64(TruncDiv(a, b)) then Some(TruncRem(a, b)) else None
    case _ => None
  }

  predicate IsIntLit(e: Expr) { e.Lit? && e.lit.IntL? }

  function FoldExpr(now: int, e: Expr): Expr {
    match e
    case Func(name, args) => if name == "now" && args == [] then Lit(IntL(now)) else e
    case Bin(op, left, right) =>
      var l, r := FoldExpr(now, left), FoldExpr(now, right);
      if IsIntLit(l) && IsIntLit(r) then
        match FoldInts(op, l.lit.n, r.lit.n)
        case Some(v) => Lit(IntL(v))
        case None => Bin(op, l, r)
      else Bin(op, l, r)
    case _ => e
  }

  /** Somewhere along the operators a remainder of constants is folded away. */
  predicate FoldsRemainder(now: int, e: Expr) {
    e.Bin? &&
      (|| FoldsRemainder(now, e.left)
       || FoldsRemainder(now, e.right)
       || (e.op == Mod && IsIntLit(FoldExpr(now, e))))
  }

  lemma {:induction false} ConstantArith(op: BinOp, a: int, b: int, n: nat)
    requires CheckedArith(op, a, b).Some?
    ensures var v := CheckedArith(op, a, b).value;
            IntArith(op, seq(n, _ => VInt(a)), seq(n, _ => VInt(b))) == Ok(seq(n, _ => VInt(v)))
    decreases n
  {
    if n > 0 {
      var l, r := seq(n, _ => VInt(a)), seq(n, _ => VInt(b));
      assert l[..n - 1] == seq(n - 1, _ => VInt(a)) && r[..n - 1] == seq(n - 1, _ => VInt(b));
      ConstantArith(op, a, b, n - 1);
      var v := CheckedArith(op, a, b).value;
      assert seq(n - 1, _ => VInt(v)) + [VInt(v)] == seq(n, _ => VInt(v));
    } else {
      assert seq(n, _ => VInt(a)) == [] && seq(n, _ => VInt(b)) == [];
      assert seq(n, _ => VInt(CheckedArith(op, a, b).value)) == [];
    }
  }

  /** Folding two integer literals gives what the evaluator computes, except for `%`. */
  lemma FoldedLiteral(env: Env, op: BinOp, a: int, b: int, n: nat)
    requires FoldInts(op, a, b).Some? && op != Mod
    ensures Binary(env, op, Ok(LiteralArr(IntL(a), n)), Ok(LiteralArr(IntL(b), n)))
         == Ok(LiteralArr(IntL(FoldInts(op, a, b).value), n))
  {
    ConstantArith(op, a, b, n);
  }

  /** Folding never changes an answer: an evaluation that succeeds keeps its result, and one
      that fails keeps failing unless a remainder of constants was folded; the evaluator
      itself rejects every such remainder. */
  lemma {:induction false} FoldingPreserves(env: Env, b: Batch, e: Expr)
    ensures Eval(env, b, e).Ok? ==> Eval(env, b, FoldExpr(env.now, e)) == Eval(env, b, e)
    ensures Eval(env, b, e).Err? && !FoldsRemainder(env.now, e) ==> Eval(env, b, FoldExpr(env.now, e)).Err?
    ensures FoldsRemainder(env.now, e) ==> Eval(env, b, e).Err?
    decreases e
  {
    if e.Bin? {
      FoldingPreserves(env, b, e.left);
      FoldingPreserves(env, b, e.right);
      var l, r := FoldExpr(env.now, e.left), FoldExpr(env.now, e.right);
      if IsIntLit(l) && IsIntLit(r) && FoldInts(e.op, l.lit.n, r.lit.n).Some? && e.op != Mod {
        FoldedLiteral(env, e.op, l.lit.n, r.lit.n, |b.rows|);
      }
    }
  }

  /** `7 % 4 = 3` is rejected as written and accepted once folded. */
  lemma RemainderChangesAnswer(env: Env, b: Batch)
    ensures var e := Bin(EqOp, Bin(Mod, Lit(IntL(7)), Lit(IntL(4))), Lit(IntL(3)));
            Eval(env, b, e).Err? && Eval(env, b, FoldExpr(env.now, e)).Ok?
  {
    assert TruncDiv(7, 4) == 1 && TruncRem(7, 4) == 3;
    var m := Bin(Mod, Lit(IntL(7)), Lit(IntL(4)));
    assert FoldExpr(env.now, m) == Lit(IntL(3));
    assert FoldExpr(env.now, Bin(EqOp, m, Lit(IntL(3)))) == Bin(EqOp, Lit(IntL(3)), Lit(IntL(3)));
  }
}
