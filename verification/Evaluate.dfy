/** The expression evaluator: columns in, a column out, for a whole batch at a time. */
module Evaluate {
  import opened Options
  import opened Ast
  import Like

  datatype Val = VNull | VInt(n: int) | VFloat(f: real) | VStr(s: string) | VBool(b: bool) | VOther(id: int)

  /** The array types the evaluator tells apart */
  datatype Ty = TUInt | TInt | TFloat | TStr | TBool | TOther

  datatype Arr = Arr(ty: Ty, vals: seq<Val>)

  datatype Result<+T> = Ok(value: T) | Err

  type Row = map<string, Val>

  datatype Batch = Batch(schema: map<string, Ty>, rows: seq<Row>)

  /** What lies outside the evaluator: the clock, fixed for a query; the value found under a
      null; rounded float arithmetic; the functions other than `now`, given their evaluated
      arguments and the number of rows. `widen` compares unsigned with signed integers as
      integers; the dispatch of the source has no such pair. */
  datatype Env = Env(
    now: int,
    widen: bool,
    under: (Arr, nat) -> Val,
    float: (BinOp, real, real) -> real,
    call: (string, seq<Result<Arr>>, nat) -> Result<Arr>)

  // ----- Values -----

  function TruncDiv(a: int, b: int): int
    requires b != 0
  {
    var q := Abs(a) / Abs(b);
    if (a < 0) == (b < 0) then q else -q
  }

  function TruncRem(a: int, b: int): int
    requires b != 0
  {
    a - b * TruncDiv(a, b)
  }

  function Abs(a: int): nat { if a < 0 then -a else a }

  predicate IsComparison(op: BinOp) {
    op == EqOp || op == NotEqOp || op == LtOp || op == LtEqOp || op == GtOp || op == GtEqOp
  }

  predicate IsArithmetic(op: BinOp) { op == Add || op == Sub || op == Mul || op == Div || op == Mod }

  /** The answer of a comparison from an equality and an order */
  predicate Holds(op: BinOp, eq: bool, lt: bool) {
    match op
    case EqOp => eq
    case NotEqOp => !eq
    case LtOp => lt
    case LtEqOp => lt || eq
    case GtOp => !lt && !eq
    case _ => !lt
  }

  /** Strings are ordered byte by byte. */
  predicate Before(s: string, t: string) {
    t != "" && (s == "" || s[0] < t[0] || (s[0] == t[0] && Before(s[1..], t[1..])))
  }

  function CompareVals(op: BinOp, v: Val, w: Val): Val {
    match (v, w)
    case (VInt(a), VInt(b)) => VBool(Holds(op, a == b, a < b))
    case (VFloat(a), VFloat(b)) => VBool(Holds(op, a == b, a < b))
    case (VStr(a), VStr(b)) => VBool(Holds(op, a == b, Before(a, b)))
    case _ => VNull
  }

  /** AND and OR give null as soon as one side is null. */
  function AndVals(v: Val, w: Val): Val {
    if v.VBool? && w.VBool? then VBool(v.b && w.b) else VNull
  }

  function OrVals(v: Val, w: Val): Val {
    if v.VBool? && w.VBool? then VBool(v.b || w.b) else VNull
  }

  function NotVal(v: Val): Val { if v.VBool? then VBool(!v.b) else VNull }

  /** Checked 64-bit arithmetic: nothing on overflow, division by zero and remainder */
  function CheckedArith(op: BinOp, a: int, b: int): Option<int> {
    match op
    case Add => Fit(a + b)
    case Sub => Fit(a - b)
    case Mul => Fit(a * b)
    case Div => if b == 0 then None else Fit(TruncDiv(a, b))
    case _ => None
  }

  function Fit(n: int): Option<int> { if IsI64(n) then Some(n) else None }

  // ----- Arrays -----

  function Zip(f: (Val, Val) -> Val, l: seq<Val>, r: seq<Val>): seq<Val> {
    if |l| != |r| then [] else seq(|l|, i requires 0 <= i < |l| => f(l[i], r[i]))
  }

  function Map(f: Val -> Val, vals: seq<Val>): seq<Val> {
    seq(|vals|, i requires 0 <= i < |vals| => f(vals[i]))
  }

  function Const(ty: Ty, v: Val, n: nat): Arr { Arr(ty, seq(n, _ => v)) }

  predicate Comparable(env: Env, t: Ty, u: Ty) {
    || (t == u && (t == TUInt || t == TInt || t == TFloat || t == TStr))
    || (env.widen && ((t == TUInt && u == TInt) || (t == TInt && u == TUInt)))
  }

  function CompareArrays(env: Env, op: BinOp, l: Arr, r: Arr): Result<Arr> {
    if Comparable(env, l.ty, r.ty) then Ok(Arr(TBool, Zip((v, w) => CompareVals(op, v, w), l.vals, r.vals))) else Err
  }

  function Logic(f: (Val, Val) -> Val, l: Arr, r: Arr): Result<Arr> {
    if l.ty == TBool && r.ty == TBool then Ok(Arr(TBool, Zip(f, l.vals, r.vals))) else Err
  }

  function AddInts(op: BinOp, v: Val, w: Val): Option<Val> {
    if v.VInt? && w.VInt? then
      match CheckedArith(op, v.n, w.n) case Some(n) => Some(VInt(n)) case None => None
    else Some(VNull)
  }

  /** Slot by slot; one failing slot fails the whole array. */
  function IntArith(op: BinOp, l: seq<Val>, r: seq<Val>): Result<seq<Val>>
    requires |l| == |r|
  {
    if l == [] then Ok([]) else
      match IntArith(op, l[..|l| - 1], r[..|r| - 1])
      case Err => Err
      case Ok(init) =>
        match AddInts(op, l[|l| - 1], r[|r| - 1])
        case None => Err
        case Some(v) => Ok(init + [v])
  }

  function FloatArith(env: Env, op: BinOp, v: Val, w: Val): Val {
    if v.VFloat? && w.VFloat? then VFloat(env.float(op, v.f, w.f)) else VNull
  }

  function Arithmetic(env: Env, op: BinOp, l: Arr, r: Arr): Result<Arr> {
    if op == Mod || |l.vals| != |r.vals| then Err
    else if l.ty == TInt && r.ty == TInt then
      match IntArith(op, l.vals, r.vals) case Err => Err case Ok(vals) => Ok(Arr(TInt, vals))
    else if l.ty == TFloat && r.ty == TFloat then
      Ok(Arr(TFloat, Zip((v, w) => FloatArith(env, op, v, w), l.vals, r.vals)))
    else Err
  }

  /** The value a slot holds, whether or not it is null */
  function Raw(env: Env, a: Arr, i: nat): Val
    requires i < |a.vals|
  {
    if a.vals[i].VNull? then env.under(a, i) else a.vals[i]
  }

  function NegVal(v: Val): Val {
    match v case VInt(n) => VInt(Wrap64(-n)) case VFloat(f) => VFloat(-f) case _ => VNull
  }

  /** Unary minus goes through the raw values, so nulls do not survive it. */
  function Negate(env: Env, a: Arr): Result<Arr> {
    if a.ty == TInt || a.ty == TFloat then
      Ok(Arr(a.ty, seq(|a.vals|, i requires 0 <= i < |a.vals| => NegVal(Raw(env, a, i)))))
    else Err
  }

  function LikeVal(pattern: string, negated: bool, v: Val): Val {
    var s := if v.VStr? then v.s else "";
    VBool(Like.Matches(s, pattern) != negated)
  }

  function LikeArr(env: Env, a: Arr, pattern: string, negated: bool): Result<Arr> {
    if a.ty != TStr then Err else
      Ok(Arr(TBool, seq(|a.vals|, i requires 0 <= i < |a.vals| => LikeVal(pattern, negated, Raw(env, a, i)))))
  }

  function LiteralArr(lit: Literal, n: nat): Arr {
    match lit
    case IntL(k) => Const(TInt, VInt(k), n)
    case FloatL(f) => Const(TFloat, VFloat(f), n)
    case StrL(s) => Const(TStr, VStr(s), n)
    case BoolL(b) => Const(TBool, VBool(b), n)
    case NullL => Const(TBool, VNull, n)
  }

  function ColumnArr(b: Batch, name: string): Result<Arr> {
    if name in b.schema then
      Ok(Arr(b.schema[name], seq(|b.rows|, i requires 0 <= i < |b.rows| => if name in b.rows[i] then b.rows[i][name] else VNull)))
    else Err
  }

  // ----- Expressions -----

  function Binary(env: Env, op: BinOp, l: Result<Arr>, r: Result<Arr>): Result<Arr> {
    if l.Err? || r.Err? then Err
    else if op == AndOp then Logic(AndVals, l.value, r.value)
    else if op == OrOp then Logic(OrVals, l.value, r.value)
    else if IsArithmetic(op) then Arithmetic(env, op, l.value, r.value)
    else CompareArrays(env, op, l.value, r.value)
  }

  function Eval(env: Env, b: Batch, e: Expr): Result<Arr>
    decreases e, 0
  {
    match e
    case Lit(lit) => Ok(LiteralArr(lit, |b.rows|))
    case Column(_, name) => ColumnArr(b, name)
    case StarExpr => Err
    case Bin(op, l, r) => Binary(env, op, Eval(env, b, l), Eval(env, b, r))
    case Un(op, x) =>
      (match Eval(env, b, x)
       case Err => Err
       case Ok(a) =>
         if op == Neg then Negate(env, a)
         else if a.ty == TBool then Ok(Arr(TBool, Map(NotVal, a.vals)))
         else Err)
    case IsNull(x) =>
      (match Eval(env, b, x) case Err => Err case Ok(a) => Ok(Arr(TBool, Map((v: Val) => VBool(v.VNull?), a.vals))))
    case IsNotNull(x) =>
      (match Eval(env, b, x) case Err => Err case Ok(a) => Ok(Arr(TBool, Map((v: Val) => VBool(!v.VNull?), a.vals))))
    case BetweenExpr(x, lo, hi) => BetweenArrays(env, Eval(env, b, x), Eval(env, b, lo), Eval(env, b, hi))
    case InExpr(x, list) =>
      (match Eval(env, b, x) case Err => Err case Ok(a) => InMask(env, a, EvalAll(env, b, list)))
    case LikeExpr(x, pattern, negated) =>
      (match Eval(env, b, x) case Err => Err case Ok(a) => LikeArr(env, a, pattern, negated))
    case Func(name, args) =>
      if name == "now" then Ok(LiteralArr(IntL(env.now), |b.rows|)) else Call(env, name, EvalAll(env, b, args), |b.rows|)
    case IntervalNs(ns) => Ok(LiteralArr(IntL(ns), |b.rows|))
  }

  function EvalAll(env: Env, b: Batch, es: seq<Expr>): seq<Result<Arr>>
    decreases es, 1
  {
    seq(|es|, i requires 0 <= i < |es| => Eval(env, b, es[i]))
  }

  /** An answer of another length than the batch fails downstream. */
  function Call(env: Env, name: string, args: seq<Result<Arr>>, n: nat): Result<Arr> {
    match env.call(name, args, n) case Err => Err case Ok(a) => if |a.vals| == n then Ok(a) else Err
  }

  function BetweenArrays(env: Env, x: Result<Arr>, lo: Result<Arr>, hi: Result<Arr>): Result<Arr> {
    if x.Err? || lo.Err? || hi.Err? then Err else
      match (CompareArrays(env, GtEqOp, x.value, lo.value), CompareArrays(env, LtEqOp, x.value, hi.value))
      case (Ok(ge), Ok(le)) => Logic(AndVals, ge, le)
      case _ => Err
  }

  /** The mask of IN: false, then OR with each equality in turn. */
  function InMask(env: Env, a: Arr, items: seq<Result<Arr>>): Result<Arr> {
    if items == [] then Ok(Const(TBool, VBool(false), |a.vals|)) else
      match (InMask(env, a, items[..|items| - 1]), items[|items| - 1])
      case (Ok(mask), Ok(item)) =>
        (match CompareArrays(env, EqOp, a, item) case Err => Err case Ok(eq) => Logic(OrVals, mask, eq))
      case _ => Err
  }

  /** A filter needs a boolean array. */
  function Mask(env: Env, b: Batch, e: Expr): Result<seq<Val>> {
    match Eval(env, b, e)
    case Err => Err
    case Ok(a) => if a.ty == TBool then Ok(a.vals) else Err
  }

  function Kept(rows: seq<Row>, mask: seq<Val>): seq<Row>
    requires |rows| == |mask|
  {
    if rows == [] then [] else
      var init := Kept(rows[..|rows| - 1], mask[..|mask| - 1]);
      if mask[|mask| - 1] == VBool(true) then init + [rows[|rows| - 1]] else init
  }

  // ----- The loop of IN -----

  method InLoop(env: Env, b: Batch, x: Arr, list: seq<Expr>) returns (r: Result<Arr>)
    ensures r == InMask(env, x, EvalAll(env, b, list))
  {
    ghost var items := EvalAll(env, b, list);
    var mask := Const(TBool, VBool(false), |x.vals|);
    for i := 0 to |list|
      invariant InMask(env, x, items[..i]) == Ok(mask)
    {
      assert items[..i + 1][..i] == items[..i];
      var item := Eval(env, b, list[i]);
      if item.Err? {
        InFails(env, x, items, i + 1);
        return Err;
      }
      var eq := CompareArrays(env, EqOp, x, item.value);
      if eq.Err? {
        InFails(env, x, items, i + 1);
        return Err;
      }
      var both := Logic(OrVals, mask, eq.value);
      if both.Err? {
        InFails(env, x, items, i + 1);
        return Err;
      }
      mask := both.value;
    }
    assert items[..|list|] == items;
    r := Ok(mask);
  }

  lemma {:induction false} InFails(env: Env, x: Arr, items: seq<Result<Arr>>, i: nat)
    requires i <= |items| && InMask(env, x, items[..i]).Err?
    ensures InMask(env, x, items).Err?
    decreases |items| - i
  {
    if i == |items| {
      assert items[..i] == items;
    } else {
      assert items[..i + 1][..i] == items[..i];
      InFails(env, x, items, i + 1);
    }
  }

  // ----- Every array is as long as the batch -----

  lemma {:induction false} IntArithLength(op: BinOp, l: seq<Val>, r: seq<Val>)
    requires |l| == |r|
    ensures IntArith(op, l, r).Ok? ==> |IntArith(op, l, r).value| == |l|
  {
    if l != [] { IntArithLength(op, l[..|l| - 1], r[..|r| - 1]); }
  }

  ghost predicate HasLength(r: Result<Arr>, n: nat) { r.Ok? ==> |r.value.vals| == n }

  lemma BinaryLength(env: Env, op: BinOp, l: Result<Arr>, r: Result<Arr>, n: nat)
    requires HasLength(l, n) && HasLength(r, n)
    ensures HasLength(Binary(env, op, l, r), n)
  {
    if l.Ok? && r.Ok? { IntArithLength(op, l.value.vals, r.value.vals); }
  }

  lemma {:induction false} InLength(env: Env, a: Arr, items: seq<Result<Arr>>)
    requires forall i | 0 <= i < |items| :: HasLength(items[i], |a.vals|)
    ensures HasLength(InMask(env, a, items), |a.vals|)
  {
    if items != [] { InLength(env, a, items[..|items| - 1]); }
  }

  lemma {:induction false} EvalLength(env: Env, b: Batch, e: Expr)
    ensures HasLength(Eval(env, b, e), |b.rows|)
    decreases e
  {
    match e
    case Bin(op, l, r) =>
      EvalLength(env, b, l);
      EvalLength(env, b, r);
      BinaryLength(env, op, Eval(env, b, l), Eval(env, b, r), |b.rows|);
    case Un(_, x) => EvalLength(env, b, x);
    case IsNull(x) => EvalLength(env, b, x);
    case IsNotNull(x) => EvalLength(env, b, x);
    case BetweenExpr(x, lo, hi) => EvalLength(env, b, x); EvalLength(env, b, lo); EvalLength(env, b, hi);
    case InExpr(x, list) => EvalLength(env, b, x); InExprLength(env, b, x, list);
    case LikeExpr(x, _, _) => EvalLength(env, b, x);
    case _ =>
  }

  lemma InExprLength(env: Env, b: Batch, x: Expr, list: seq<Expr>)
    requires HasLength(Eval(env, b, x), |b.rows|)
    ensures HasLength(Eval(env, b, InExpr(x, list)), |b.rows|)
    decreases list
  {
    var items := EvalAll(env, b, list);
    forall i | 0 <= i < |list| ensures HasLength(items[i], |b.rows|) { EvalLength(env, b, list[i]); }
    if Eval(env, b, x).Ok? { InLength(env, Eval(env, b, x).value, items); }
  }
}
