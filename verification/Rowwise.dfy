/** A reference evaluator that takes one row at a time, and the proof that the vectorised
    evaluator computes it: where a batch is cut makes no difference. Expressions may call
    `now` and unknown functions, but none that looks at the whole batch. */
module Rowwise {
  import opened Options
  import opened Ast
  import opened Evaluate
  import opened Operators

  /** Functions whose value on a row depends on the batch it lies in */
  predicate OfBatch(name: string) {
    name == "time_bucket" || name == "rate" || name == "delta" || name == "histogram_quantile"
  }

  /** Null slots hold a default that depends on the type alone; unknown functions fail. */
  ghost predicate Uniform(env: Env, default: Ty -> Val) {
    && (forall a: Arr, i: nat :: env.under(a, i) == default(a.ty))
    && (forall name, args, n: nat | !OfBatch(name) :: env.call(name, args, n) == Err)
  }

  predicate Local(e: Expr) {
    match e
    case Bin(_, l, r) => Local(l) && Local(r)
    case Un(_, x) => Local(x)
    case IsNull(x) => Local(x)
    case IsNotNull(x) => Local(x)
    case BetweenExpr(x, lo, hi) => Local(x) && Local(lo) && Local(hi)
    case InExpr(x, list) => Local(x) && forall i | 0 <= i < |list| :: Local(list[i])
    case LikeExpr(x, _, _) => Local(x)
    case Func(name, _) => !OfBatch(name)
    case _ => true
  }

  // ----- Types -----

  function BinaryType(widen: bool, op: BinOp, l: Option<Ty>, r: Option<Ty>): Option<Ty> {
    if l.None? || r.None? then None
    else if op == AndOp || op == OrOp then (if l.value == TBool && r.value == TBool then Some(TBool) else None)
    else if op == Mod then None
    else if IsArithmetic(op) then (if l == r && (l.value == TInt || l.value == TFloat) then l else None)
    else if l == r && (l.value == TUInt || l.value == TInt || l.value == TFloat || l.value == TStr) then Some(TBool)
    else if widen && ((l.value == TUInt && r.value == TInt) || (l.value == TInt && r.value == TUInt)) then Some(TBool)
    else None
  }

  function LiteralType(lit: Literal): Ty {
    match lit case IntL(_) => TInt case FloatL(_) => TFloat case StrL(_) => TStr case _ => TBool
  }

  function TypeOf(widen: bool, schema: map<string, Ty>, e: Expr): Option<Ty> {
    match e
    case Lit(lit) => Some(LiteralType(lit))
    case Column(_, name) => if name in schema then Some(schema[name]) else None
    case Bin(op, l, r) => BinaryType(widen, op, TypeOf(widen, schema, l), TypeOf(widen, schema, r))
    case Un(op, x) =>
      var t := TypeOf(widen, schema, x);
      if op == Neg then (if t == Some(TInt) || t == Some(TFloat) then t else None)
      else if t == Some(TBool) then t else None
    case IsNull(x) => if TypeOf(widen, schema, x).Some? then Some(TBool) else None
    case IsNotNull(x) => if TypeOf(widen, schema, x).Some? then Some(TBool) else None
    case BetweenExpr(x, lo, hi) =>
      var t := TypeOf(widen, schema, x);
      BinaryType(widen, AndOp, BinaryType(widen, GtEqOp, t, TypeOf(widen, schema, lo)),
                 BinaryType(widen, LtEqOp, t, TypeOf(widen, schema, hi)))
    case InExpr(x, list) =>
      if TypeOf(widen, schema, x).Some? &&
         forall i | 0 <= i < |list| :: BinaryType(widen, EqOp, TypeOf(widen, schema, x), TypeOf(widen, schema, list[i])).Some?
      then Some(TBool) else None
    case LikeExpr(x, _, _) => if TypeOf(widen, schema, x) == Some(TStr) then Some(TBool) else None
    case Func(name, _) => if name == "now" then Some(TInt) else None
    case IntervalNs(_) => Some(TInt)
    case StarExpr => None
  }

  // ----- One row -----

  /** What the operator makes of two values, the left of type `t`; nothing if it fails */
  function Slot(env: Env, op: BinOp, t: Option<Ty>, v: Option<Val>, w: Option<Val>): Option<Val> {
    if v.None? || w.None? then None
    else if op == AndOp then Some(AndVals(v.value, w.value))
    else if op == OrOp then Some(OrVals(v.value, w.value))
    else if !IsArithmetic(op) then Some(CompareVals(op, v.value, w.value))
    else if t == Some(TInt) then AddInts(op, v.value, w.value)
    else Some(FloatArith(env, op, v.value, w.value))
  }

  function InSlot(env: Env, t: Option<Ty>, v: Option<Val>, items: seq<Option<Val>>): Option<Val> {
    if v.None? then None
    else if items == [] then Some(VBool(false))
    else Slot(env, OrOp, Some(TBool), InSlot(env, t, v, items[..|items| - 1]), Slot(env, EqOp, t, v, items[|items| - 1]))
  }

  function NotCell(v: Option<Val>): Option<Val> {
    match v case None => None case Some(x) => Some(NotVal(x))
  }

  function NullCell(v: Option<Val>, want: bool): Option<Val> {
    match v case None => None case Some(x) => Some(VBool(x.VNull? == want))
  }

  function NegCell(default: Ty -> Val, t: Option<Ty>, v: Option<Val>): Option<Val> {
    match v case None => None case Some(x) => Some(NegVal(Filled(default, t, x)))
  }

  function LikeCell(default: Ty -> Val, t: Option<Ty>, pattern: string, negated: bool, v: Option<Val>): Option<Val> {
    match v case None => None case Some(x) => Some(LikeVal(pattern, negated, Filled(default, t, x)))
  }

  function LiteralVal(lit: Literal): Val {
    match lit
    case IntL(n) => VInt(n) case FloatL(f) => VFloat(f) case StrL(s) => VStr(s) case BoolL(b) => VBool(b) case NullL => VNull
  }

  /** The value under a null */
  function Filled(default: Ty -> Val, t: Option<Ty>, v: Val): Val {
    if v.VNull? && t.Some? then default(t.value) else v
  }

  function Cell(env: Env, default: Ty -> Val, schema: map<string, Ty>, row: Row, e: Expr): Option<Val>
    decreases e, 0
  {
    match e
    case Lit(lit) => Some(LiteralVal(lit))
    case Column(_, name) => Some(if name in row then row[name] else VNull)
    case Bin(op, l, r) =>
      Slot(env, op, TypeOf(env.widen, schema, l), Cell(env, default, schema, row, l), Cell(env, default, schema, row, r))
    case Un(op, x) =>
      var v := Cell(env, default, schema, row, x);
      if op == Neg then NegCell(default, TypeOf(env.widen, schema, x), v) else NotCell(v)
    case IsNull(x) => NullCell(Cell(env, default, schema, row, x), true)
    case IsNotNull(x) => NullCell(Cell(env, default, schema, row, x), false)
    case BetweenExpr(x, lo, hi) =>
      var t, v := TypeOf(env.widen, schema, x), Cell(env, default, schema, row, x);
      Slot(env, AndOp, Some(TBool), Slot(env, GtEqOp, t, v, Cell(env, default, schema, row, lo)),
           Slot(env, LtEqOp, t, v, Cell(env, default, schema, row, hi)))
    case InExpr(x, list) =>
      InSlot(env, TypeOf(env.widen, schema, x), Cell(env, default, schema, row, x), Cells(env, default, schema, row, list))
    case LikeExpr(x, pattern, negated) =>
      LikeCell(default, TypeOf(env.widen, schema, x), pattern, negated, Cell(env, default, schema, row, x))
    case Func(_, _) => Some(VInt(env.now))
    case IntervalNs(ns) => Some(VInt(ns))
    case StarExpr => None
  }

  function Cells(env: Env, default: Ty -> Val, schema: map<string, Ty>, row: Row, es: seq<Expr>): seq<Option<Val>>
    decreases es, 1
  {
    seq(|es|, i requires 0 <= i < |es| => Cell(env, default, schema, row, es[i]))
  }

  // ----- The vectorised evaluator computes the cells -----

  /** `a` holds the cells under their type, and fails if there is no type or some cell fails. */
  ghost predicate Built(a: Result<Arr>, t: Option<Ty>, cells: seq<Option<Val>>) {
    && (a.Ok? <==> t.Some? && forall i | 0 <= i < |cells| :: cells[i].Some?)
    && (a.Ok? ==> a.value.ty == t.value && |a.value.vals| == |cells|)
    && (a.Ok? ==> forall i | 0 <= i < |cells| :: cells[i] == Some(a.value.vals[i]))
  }

  lemma {:induction false} IntArithSlots(op: BinOp, l: seq<Val>, r: seq<Val>)
    requires |l| == |r|
    ensures IntArith(op, l, r).Ok? <==> forall i | 0 <= i < |l| :: AddInts(op, l[i], r[i]).Some?
    ensures IntArith(op, l, r).Ok? ==>
      && |IntArith(op, l, r).value| == |l|
      && forall i | 0 <= i < |l| :: AddInts(op, l[i], r[i]) == Some(IntArith(op, l, r).value[i])
  {
    if l != [] {
      var n := |l| - 1;
      IntArithSlots(op, l[..n], r[..n]);
      assert forall i | 0 <= i < n :: l[..n][i] == l[i] && r[..n][i] == r[i];
    }
  }

  /** The cells of `a op b`, for two arrays */
  ghost predicate SlotCells(env: Env, op: BinOp, l: Arr, r: Arr, cells: seq<Option<Val>>) {
    && |l.vals| == |r.vals| == |cells|
    && forall i | 0 <= i < |cells| :: cells[i] == Slot(env, op, Some(l.ty), Some(l.vals[i]), Some(r.vals[i]))
  }

  lemma LogicBuilt(env: Env, op: BinOp, l: Arr, r: Arr, cells: seq<Option<Val>>)
    requires SlotCells(env, op, l, r, cells) && (op == AndOp || op == OrOp)
    ensures Built(Binary(env, op, Ok(l), Ok(r)), BinaryType(env.widen, op, Some(l.ty), Some(r.ty)), cells)
  {
  }

  lemma CompareBuilt(env: Env, op: BinOp, l: Arr, r: Arr, cells: seq<Option<Val>>)
    requires SlotCells(env, op, l, r, cells) && IsComparison(op)
    ensures Built(Binary(env, op, Ok(l), Ok(r)), BinaryType(env.widen, op, Some(l.ty), Some(r.ty)), cells)
  {
  }

  lemma ArithBuilt(env: Env, op: BinOp, l: Arr, r: Arr, cells: seq<Option<Val>>)
    requires SlotCells(env, op, l, r, cells) && IsArithmetic(op)
    ensures Built(Binary(env, op, Ok(l), Ok(r)), BinaryType(env.widen, op, Some(l.ty), Some(r.ty)), cells)
  {
    IntArithSlots(op, l.vals, r.vals);
  }

  lemma ArraysBuilt(env: Env, op: BinOp, l: Arr, r: Arr, cells: seq<Option<Val>>)
    requires SlotCells(env, op, l, r, cells)
    ensures Built(Binary(env, op, Ok(l), Ok(r)), BinaryType(env.widen, op, Some(l.ty), Some(r.ty)), cells)
  {
    if op == AndOp || op == OrOp {
      LogicBuilt(env, op, l, r, cells);
    } else if IsArithmetic(op) {
      ArithBuilt(env, op, l, r, cells);
    } else {
      CompareBuilt(env, op, l, r, cells);
    }
  }

  lemma BinaryBuilt(env: Env, op: BinOp, l: Result<Arr>, tl: Option<Ty>, cl: seq<Option<Val>>,
                    r: Result<Arr>, tr: Option<Ty>, cr: seq<Option<Val>>, cells: seq<Option<Val>>)
    requires Built(l, tl, cl) && Built(r, tr, cr) && |cl| == |cr| == |cells|
    requires forall i | 0 <= i < |cells| :: cells[i] == Slot(env, op, tl, cl[i], cr[i])
    ensures Built(Binary(env, op, l, r), BinaryType(env.widen, op, tl, tr), cells)
  {
    if l.Ok? && r.Ok? {
      ArraysBuilt(env, op, l.value, r.value, cells);
    }
  }

  ghost function ColumnOf(env: Env, default: Ty -> Val, b: Batch, e: Expr): (cells: seq<Option<Val>>)
    ensures |cells| == |b.rows|
    ensures forall i | 0 <= i < |cells| :: cells[i] == Cell(env, default, b.schema, b.rows[i], e)
  {
    seq(|b.rows|, i requires 0 <= i < |b.rows| => Cell(env, default, b.schema, b.rows[i], e))
  }

  /** The evaluator on `b` computes what the rows of `b` give one by one. */
  ghost predicate Faithful(env: Env, default: Ty -> Val, b: Batch, e: Expr) {
    Built(Eval(env, b, e), TypeOf(env.widen, b.schema, e), ColumnOf(env, default, b, e))
  }

  lemma NotFaithful(env: Env, default: Ty -> Val, b: Batch, x: Expr)
    requires Faithful(env, default, b, x)
    ensures Faithful(env, default, b, Un(NotOp, x))
  {
  }

  function NegType(t: Option<Ty>): Option<Ty> { if t == Some(TInt) || t == Some(TFloat) then t else None }

  function NegateAny(env: Env, a: Result<Arr>): Result<Arr> { if a.Err? then Err else Negate(env, a.value) }

  lemma NegateBuilt(env: Env, default: Ty -> Val, a: Result<Arr>, t: Option<Ty>, cells: seq<Option<Val>>, out: seq<Option<Val>>)
    requires Uniform(env, default) && Built(a, t, cells) && |out| == |cells|
    requires forall i | 0 <= i < |cells| :: out[i] == NegCell(default, t, cells[i])
    ensures Built(NegateAny(env, a), NegType(t), out)
  {
  }

  lemma NegFaithful(env: Env, default: Ty -> Val, b: Batch, x: Expr)
    requires Uniform(env, default) && Faithful(env, default, b, x)
    ensures Faithful(env, default, b, Un(Neg, x))
  {
    NegateBuilt(env, default, Eval(env, b, x), TypeOf(env.widen, b.schema, x), ColumnOf(env, default, b, x),
                ColumnOf(env, default, b, Un(Neg, x)));
  }

  lemma NullTestsFaithful(env: Env, default: Ty -> Val, b: Batch, x: Expr)
    requires Faithful(env, default, b, x)
    ensures Faithful(env, default, b, IsNull(x)) && Faithful(env, default, b, IsNotNull(x))
  {
  }

  function LikeType(t: Option<Ty>): Option<Ty> { if t == Some(TStr) then Some(TBool) else None }

  function LikeAny(env: Env, a: Result<Arr>, pattern: string, negated: bool): Result<Arr> {
    if a.Err? then Err else LikeArr(env, a.value, pattern, negated)
  }

  lemma LikeBuilt(env: Env, default: Ty -> Val, a: Result<Arr>, t: Option<Ty>, cells: seq<Option<Val>>, out: seq<Option<Val>>,
                  pattern: string, negated: bool)
    requires Uniform(env, default) && Built(a, t, cells) && |out| == |cells|
    requires forall i | 0 <= i < |cells| :: out[i] == LikeCell(default, t, pattern, negated, cells[i])
    ensures Built(LikeAny(env, a, pattern, negated), LikeType(t), out)
  {
  }

  lemma LikeFaithful(env: Env, default: Ty -> Val, b: Batch, x: Expr, pattern: string, negated: bool)
    requires Uniform(env, default) && Faithful(env, default, b, x)
    ensures Faithful(env, default, b, LikeExpr(x, pattern, negated))
  {
    LikeBuilt(env, default, Eval(env, b, x), TypeOf(env.widen, b.schema, x), ColumnOf(env, default, b, x),
              ColumnOf(env, default, b, LikeExpr(x, pattern, negated)), pattern, negated);
  }

  lemma BetweenIsAnd(env: Env, x: Result<Arr>, lo: Result<Arr>, hi: Result<Arr>)
    ensures BetweenArrays(env, x, lo, hi) == Binary(env, AndOp, Binary(env, GtEqOp, x, lo), Binary(env, LtEqOp, x, hi))
  {
  }

  ghost function SlotColumn(env: Env, op: BinOp, t: Option<Ty>, l: seq<Option<Val>>, r: seq<Option<Val>>): (cells: seq<Option<Val>>)
    requires |l| == |r|
    ensures |cells| == |l| && forall i | 0 <= i < |l| :: cells[i] == Slot(env, op, t, l[i], r[i])
  {
    seq(|l|, i requires 0 <= i < |l| => Slot(env, op, t, l[i], r[i]))
  }

  lemma BetweenBuilt(env: Env, x: Result<Arr>, t: Option<Ty>, c: seq<Option<Val>>, lo: Result<Arr>, tlo: Option<Ty>, clo: seq<Option<Val>>,
                     hi: Result<Arr>, thi: Option<Ty>, chi: seq<Option<Val>>, cells: seq<Option<Val>>)
    requires Built(x, t, c) && Built(lo, tlo, clo) && Built(hi, thi, chi) && |c| == |clo| == |chi| == |cells|
    requires forall i | 0 <= i < |c| ::
      cells[i] == Slot(env, AndOp, Some(TBool), Slot(env, GtEqOp, t, c[i], clo[i]), Slot(env, LtEqOp, t, c[i], chi[i]))
    ensures Built(Binary(env, AndOp, Binary(env, GtEqOp, x, lo), Binary(env, LtEqOp, x, hi)),
                  BinaryType(env.widen, AndOp, BinaryType(env.widen, GtEqOp, t, tlo), BinaryType(env.widen, LtEqOp, t, thi)), cells)
  {
    var ge, le := SlotColumn(env, GtEqOp, t, c, clo), SlotColumn(env, LtEqOp, t, c, chi);
    BinaryBuilt(env, GtEqOp, x, t, c, lo, tlo, clo, ge);
    BinaryBuilt(env, LtEqOp, x, t, c, hi, thi, chi, le);
    BinaryBuilt(env, AndOp, Binary(env, GtEqOp, x, lo), BinaryType(env.widen, GtEqOp, t, tlo), ge,
                Binary(env, LtEqOp, x, hi), BinaryType(env.widen, LtEqOp, t, thi), le, cells);
  }

  lemma BetweenFaithful(env: Env, default: Ty -> Val, b: Batch, x: Expr, lo: Expr, hi: Expr)
    requires Faithful(env, default, b, x) && Faithful(env, default, b, lo) && Faithful(env, default, b, hi)
    ensures Faithful(env, default, b, BetweenExpr(x, lo, hi))
  {
    BetweenIsAnd(env, Eval(env, b, x), Eval(env, b, lo), Eval(env, b, hi));
    BetweenBuilt(env, Eval(env, b, x), TypeOf(env.widen, b.schema, x), ColumnOf(env, default, b, x),
                 Eval(env, b, lo), TypeOf(env.widen, b.schema, lo), ColumnOf(env, default, b, lo),
                 Eval(env, b, hi), TypeOf(env.widen, b.schema, hi), ColumnOf(env, default, b, hi),
                 ColumnOf(env, default, b, BetweenExpr(x, lo, hi)));
  }

  // ----- IN -----

  ghost function InType(widen: bool, t: Option<Ty>, types: seq<Option<Ty>>): Option<Ty> {
    if forall k | 0 <= k < |types| :: BinaryType(widen, EqOp, t, types[k]).Some? then Some(TBool) else None
  }

  /** Row `i` of a list of columns */
  ghost function Across(columns: seq<seq<Option<Val>>>, i: nat): (cells: seq<Option<Val>>)
    requires forall k | 0 <= k < |columns| :: i < |columns[k]|
    ensures |cells| == |columns| && forall k | 0 <= k < |columns| :: cells[k] == columns[k][i]
  {
    seq(|columns|, k requires 0 <= k < |columns| => columns[k][i])
  }

  ghost predicate Wide(columns: seq<seq<Option<Val>>>, n: nat) { forall k | 0 <= k < |columns| :: |columns[k]| == n }

  ghost function InColumn(env: Env, t: Option<Ty>, c: seq<Option<Val>>, columns: seq<seq<Option<Val>>>): (cells: seq<Option<Val>>)
    requires Wide(columns, |c|)
    ensures |cells| == |c| && forall i | 0 <= i < |c| :: cells[i] == InSlot(env, t, c[i], Across(columns, i))
  {
    seq(|c|, i requires 0 <= i < |c| => InSlot(env, t, c[i], Across(columns, i)))
  }

  function OrEqual(env: Env, a: Arr, mask: Result<Arr>, item: Result<Arr>): Result<Arr> {
    if mask.Err? || item.Err? then Err else
      match CompareArrays(env, EqOp, a, item.value) case Err => Err case Ok(eq) => Logic(OrVals, mask.value, eq)
  }

  lemma OrEqualIsBinary(env: Env, a: Arr, mask: Result<Arr>, item: Result<Arr>)
    ensures OrEqual(env, a, mask, item) == Binary(env, OrOp, mask, Binary(env, EqOp, Ok(a), item))
  {
  }

  lemma InStep(env: Env, a: Arr, items: seq<Result<Arr>>)
    requires items != []
    ensures InMask(env, a, items) ==
            Binary(env, OrOp, InMask(env, a, items[..|items| - 1]), Binary(env, EqOp, Ok(a), items[|items| - 1]))
  {
    OrEqualIsBinary(env, a, InMask(env, a, items[..|items| - 1]), items[|items| - 1]);
  }

  lemma InColumnStep(env: Env, t: Option<Ty>, c: seq<Option<Val>>, columns: seq<seq<Option<Val>>>, i: nat)
    requires columns != [] && Wide(columns, |c|) && i < |c| && c[i].Some?
    ensures var k := |columns| - 1;
            InColumn(env, t, c, columns)[i] == Slot(env, OrOp, Some(TBool), InColumn(env, t, c, columns[..k])[i],
                                                    Slot(env, EqOp, t, c[i], columns[k][i]))
  {
    var k := |columns| - 1;
    assert Across(columns, i)[..k] == Across(columns[..k], i);
  }

  ghost predicate AllBuilt(items: seq<Result<Arr>>, types: seq<Option<Ty>>, columns: seq<seq<Option<Val>>>) {
    |items| == |types| == |columns| && forall k | 0 <= k < |items| :: Built(items[k], types[k], columns[k])
  }

  lemma {:induction false} InBuilt(env: Env, a: Arr, t: Option<Ty>, c: seq<Option<Val>>,
                                   items: seq<Result<Arr>>, types: seq<Option<Ty>>, columns: seq<seq<Option<Val>>>)
    requires Built(Ok(a), t, c) && AllBuilt(items, types, columns) && Wide(columns, |c|)
    ensures Built(InMask(env, a, items), InType(env.widen, t, types), InColumn(env, t, c, columns))
    decreases |items|
  {
    if items != [] {
      var k := |items| - 1;
      InBuilt(env, a, t, c, items[..k], types[..k], columns[..k]);
      InStep(env, a, items);
      InLast(env, InMask(env, a, items), InMask(env, a, items[..k]), a, t, c, items[k], types, columns);
    }
  }

  /** One more item: the mask so far, or equal to the item */
  lemma OrEqualBuilt(env: Env, mask: Result<Arr>, ty: Option<Ty>, before: seq<Option<Val>>,
                     x: Result<Arr>, t: Option<Ty>, c: seq<Option<Val>>,
                     item: Result<Arr>, ti: Option<Ty>, ci: seq<Option<Val>>, cells: seq<Option<Val>>)
    requires Built(mask, ty, before) && Built(x, t, c) && Built(item, ti, ci)
    requires |before| == |c| == |ci| == |cells|
    requires forall i | 0 <= i < |c| :: cells[i] == Slot(env, OrOp, Some(TBool), before[i], Slot(env, EqOp, t, c[i], ci[i]))
    ensures Built(Binary(env, OrOp, mask, Binary(env, EqOp, x, item)),
                  BinaryType(env.widen, OrOp, ty, BinaryType(env.widen, EqOp, t, ti)), cells)
  {
    var eq := SlotColumn(env, EqOp, t, c, ci);
    BinaryBuilt(env, EqOp, x, t, c, item, ti, ci, eq);
    BinaryBuilt(env, OrOp, mask, ty, before, Binary(env, EqOp, x, item), BinaryType(env.widen, EqOp, t, ti), eq, cells);
  }

  lemma InLast(env: Env, whole: Result<Arr>, mask: Result<Arr>, a: Arr, t: Option<Ty>, c: seq<Option<Val>>,
               item: Result<Arr>, types: seq<Option<Ty>>, columns: seq<seq<Option<Val>>>)
    requires Built(Ok(a), t, c) && Wide(columns, |c|) && |types| == |columns| > 0
    requires whole == Binary(env, OrOp, mask, Binary(env, EqOp, Ok(a), item))
    requires var k := |columns| - 1;
             Built(item, types[k], columns[k]) && Built(mask, InType(env.widen, t, types[..k]), InColumn(env, t, c, columns[..k]))
    ensures Built(whole, InType(env.widen, t, types), InColumn(env, t, c, columns))
  {
    var k := |columns| - 1;
    var before, cells := InColumn(env, t, c, columns[..k]), InColumn(env, t, c, columns);
    forall i | 0 <= i < |c|
      ensures cells[i] == Slot(env, OrOp, Some(TBool), before[i], Slot(env, EqOp, t, c[i], columns[k][i]))
    {
      InColumnStep(env, t, c, columns, i);
    }
    OrEqualBuilt(env, mask, InType(env.widen, t, types[..k]), before, Ok(a), t, c, item, types[k], columns[k], cells);
    InTypeStep(env.widen, t, types);
  }

  lemma InTypeStep(widen: bool, t: Option<Ty>, types: seq<Option<Ty>>)
    requires types != []
    ensures var k := |types| - 1;
            InType(widen, t, types) == BinaryType(widen, OrOp, InType(widen, t, types[..k]), BinaryType(widen, EqOp, t, types[k]))
  {
    var k := |types| - 1;
    assert types == types[..k] + [types[k]];
  }

  ghost function TypesOf(widen: bool, schema: map<string, Ty>, list: seq<Expr>): seq<Option<Ty>> {
    seq(|list|, k requires 0 <= k < |list| => TypeOf(widen, schema, list[k]))
  }

  ghost function ColumnsOf(env: Env, default: Ty -> Val, b: Batch, list: seq<Expr>): seq<seq<Option<Val>>> {
    seq(|list|, k requires 0 <= k < |list| => ColumnOf(env, default, b, list[k]))
  }

  lemma InCells(env: Env, default: Ty -> Val, b: Batch, x: Expr, list: seq<Expr>)
    ensures ColumnOf(env, default, b, InExpr(x, list)) ==
            InColumn(env, TypeOf(env.widen, b.schema, x), ColumnOf(env, default, b, x), ColumnsOf(env, default, b, list))
  {
    var columns := ColumnsOf(env, default, b, list);
    forall i | 0 <= i < |b.rows| ensures Cells(env, default, b.schema, b.rows[i], list) == Across(columns, i) {
    }
  }

  lemma InTypes(widen: bool, schema: map<string, Ty>, x: Expr, list: seq<Expr>)
    requires TypeOf(widen, schema, x).Some?
    ensures TypeOf(widen, schema, InExpr(x, list)) == InType(widen, TypeOf(widen, schema, x), TypesOf(widen, schema, list))
  {
    var types := TypesOf(widen, schema, list);
    assert forall k | 0 <= k < |list| :: types[k] == TypeOf(widen, schema, list[k]);
  }

  lemma InEvaluates(env: Env, default: Ty -> Val, b: Batch, x: Expr, list: seq<Expr>, a: Arr)
    requires Faithful(env, default, b, x) && Eval(env, b, x) == Ok(a)
    requires AllBuilt(EvalAll(env, b, list), TypesOf(env.widen, b.schema, list), ColumnsOf(env, default, b, list))
    ensures Built(InMask(env, a, EvalAll(env, b, list)), TypeOf(env.widen, b.schema, InExpr(x, list)),
                  ColumnOf(env, default, b, InExpr(x, list)))
  {
    InTypes(env.widen, b.schema, x, list);
    InCells(env, default, b, x, list);
    InBuilt(env, a, TypeOf(env.widen, b.schema, x), ColumnOf(env, default, b, x), EvalAll(env, b, list),
            TypesOf(env.widen, b.schema, list), ColumnsOf(env, default, b, list));
  }

  lemma InErrs(env: Env, default: Ty -> Val, b: Batch, x: Expr, list: seq<Expr>)
    requires Faithful(env, default, b, x) && Eval(env, b, x).Err?
    ensures Built(Err, TypeOf(env.widen, b.schema, InExpr(x, list)), ColumnOf(env, default, b, InExpr(x, list)))
  {
    if TypeOf(env.widen, b.schema, x).Some? {
      var i :| 0 <= i < |b.rows| && ColumnOf(env, default, b, x)[i].None?;
      assert ColumnOf(env, default, b, InExpr(x, list))[i].None?;
    }
  }

  lemma InFaithful(env: Env, default: Ty -> Val, b: Batch, x: Expr, list: seq<Expr>)
    requires Faithful(env, default, b, x) && forall k | 0 <= k < |list| :: Faithful(env, default, b, list[k])
    ensures Faithful(env, default, b, InExpr(x, list))
  {
    if Eval(env, b, x).Ok? {
      InEvaluates(env, default, b, x, list, Eval(env, b, x).value);
    } else {
      InErrs(env, default, b, x, list);
    }
  }

  /** The vectorised evaluator refines the evaluator of single rows. */
  lemma {:induction false} Vectorised(env: Env, default: Ty -> Val, b: Batch, e: Expr)
    requires Uniform(env, default) && Local(e)
    ensures Faithful(env, default, b, e)
    decreases e
  {
    match e
    case Bin(op, l, r) =>
      Vectorised(env, default, b, l);
      Vectorised(env, default, b, r);
      BinaryBuilt(env, op, Eval(env, b, l), TypeOf(env.widen, b.schema, l), ColumnOf(env, default, b, l),
                  Eval(env, b, r), TypeOf(env.widen, b.schema, r), ColumnOf(env, default, b, r), ColumnOf(env, default, b, e));
    case Un(op, x) =>
      Vectorised(env, default, b, x);
      if op == Neg { NegFaithful(env, default, b, x); } else { NotFaithful(env, default, b, x); }
    case IsNull(x) => Vectorised(env, default, b, x); NullTestsFaithful(env, default, b, x);
    case IsNotNull(x) => Vectorised(env, default, b, x); NullTestsFaithful(env, default, b, x);
    case BetweenExpr(x, lo, hi) =>
      Vectorised(env, default, b, x);
      Vectorised(env, default, b, lo);
      Vectorised(env, default, b, hi);
      BetweenFaithful(env, default, b, x, lo, hi);
    case InExpr(x, list) =>
      Vectorised(env, default, b, x);
      forall k | 0 <= k < |list| ensures Faithful(env, default, b, list[k]) { Vectorised(env, default, b, list[k]); }
      InFaithful(env, default, b, x, list);
    case LikeExpr(x, pattern, negated) => Vectorised(env, default, b, x); LikeFaithful(env, default, b, x, pattern, negated);
    case _ =>
  }

  // ----- Nulls in AND and OR -----

  ghost predicate Truth3(v: Val) { v.VBool? || v.VNull? }

  /** AND and OR of SQL: a false, or a true, beside an unknown decides. */
  function SqlAnd(v: Val, w: Val): Val {
    if v == VBool(false) || w == VBool(false) then VBool(false) else if v == VBool(true) && w == VBool(true) then VBool(true) else VNull
  }

  function SqlOr(v: Val, w: Val): Val { NotVal(SqlAnd(NotVal(v), NotVal(w))) }

  /** The evaluator's connectives are those of SQL unless a null stands beside the deciding
      value, which the evaluator turns into null. */
  lemma ConnectivesExactly(v: Val, w: Val)
    requires Truth3(v) && Truth3(w)
    ensures AndVals(v, w) == SqlAnd(v, w) <==> !((v.VNull? && w == VBool(false)) || (w.VNull? && v == VBool(false)))
    ensures OrVals(v, w) == SqlOr(v, w) <==> !((v.VNull? && w == VBool(true)) || (w.VNull? && v == VBool(true)))
    ensures AndVals(v, w) == VBool(true) <==> v == VBool(true) && w == VBool(true)
    ensures OrVals(v, w) == VBool(true) <==> SqlOr(v, w) == VBool(true) && !v.VNull? && !w.VNull?
  {
  }

  // ----- Filters select rows one by one -----

  predicate Keeps(env: Env, default: Ty -> Val, schema: map<string, Ty>, e: Expr, row: Row) {
    Cell(env, default, schema, row, e) == Some(VBool(true))
  }

  function Selected(env: Env, default: Ty -> Val, schema: map<string, Ty>, e: Expr, rows: seq<Row>): seq<Row> {
    if rows == [] then [] else
      var init, last := Selected(env, default, schema, e, rows[..|rows| - 1]), rows[|rows| - 1];
      if Keeps(env, default, schema, e, last) then init + [last] else init
  }

  lemma {:induction false} SelectedConcat(env: Env, default: Ty -> Val, schema: map<string, Ty>, e: Expr, a: seq<Row>, b: seq<Row>)
    ensures Selected(env, default, schema, e, a + b)
         == Selected(env, default, schema, e, a) + Selected(env, default, schema, e, b)
    decreases |b|
  {
    if b == [] {
      assert a + b == a;
    } else {
      var n := |b| - 1;
      assert (a + b)[..|a + b| - 1] == a + b[..n];
      SelectedConcat(env, default, schema, e, a, b[..n]);
    }
  }

  lemma {:induction false} KeptIsSelected(env: Env, default: Ty -> Val, schema: map<string, Ty>, e: Expr, rows: seq<Row>, mask: seq<Val>)
    requires |mask| == |rows|
    requires forall i | 0 <= i < |rows| :: Cell(env, default, schema, rows[i], e) == Some(mask[i])
    ensures Kept(rows, mask) == Selected(env, default, schema, e, rows)
    decreases |rows|
  {
    if rows != [] { KeptIsSelected(env, default, schema, e, rows[..|rows| - 1], mask[..|rows| - 1]); }
  }

  /** The predicate has boolean type and no row makes it fail. */
  ghost predicate Evaluable(env: Env, default: Ty -> Val, schema: map<string, Ty>, e: Expr, rows: seq<Row>) {
    TypeOf(env.widen, schema, e) == Some(TBool) && forall i | 0 <= i < |rows| :: Cell(env, default, schema, rows[i], e).Some?
  }

  lemma FilterBatchMeaning(env: Env, default: Ty -> Val, e: Expr, b: Batch)
    requires Uniform(env, default) && Local(e)
    ensures FilterBatch(env, e, b) ==
            if Evaluable(env, default, b.schema, e, b.rows) then Ok(b.(rows := Selected(env, default, b.schema, e, b.rows))) else Err
  {
    Vectorised(env, default, b, e);
    var a := Eval(env, b, e);
    if a.Ok? && a.value.ty == TBool { KeptIsSelected(env, default, b.schema, e, b.rows, a.value.vals); }
  }

  ghost predicate OfSchema(s: Stream, schema: map<string, Ty>) {
    s.Next? ==> s.batch.schema == schema && OfSchema(s.rest, schema)
  }

  /** However its input is cut into batches, the filter yields the rows that satisfy the
      predicate; it fails exactly if the input does, or the predicate is not boolean, or
      fails on some row. */
  lemma {:induction false} FilterMeaning(env: Env, default: Ty -> Val, schema: map<string, Ty>, e: Expr, s: Stream)
    requires Uniform(env, default) && Local(e) && OfSchema(s, schema)
    ensures Fails(FilterStream(env, e, s)) <==> Fails(s) || (s.Next? && !Evaluable(env, default, schema, e, Rows(s)))
    ensures !Fails(FilterStream(env, e, s)) ==> Rows(FilterStream(env, e, s)) == Selected(env, default, schema, e, Rows(s))
    decreases s
  {
    if s.Next? {
      FilterBatchMeaning(env, default, e, s.batch);
      FilterMeaning(env, default, schema, e, s.rest);
      SelectedConcat(env, default, schema, e, s.batch.rows, Rows(s.rest));
      EvaluableConcat(env, default, schema, e, s.batch.rows, Rows(s.rest));
    }
  }

  lemma EvaluableConcat(env: Env, default: Ty -> Val, schema: map<string, Ty>, e: Expr, a: seq<Row>, b: seq<Row>)
    ensures Evaluable(env, default, schema, e, a + b) <==>
            Evaluable(env, default, schema, e, a) && Evaluable(env, default, schema, e, b)
  {
    if Evaluable(env, default, schema, e, a + b) {
      assert forall i | 0 <= i < |a| :: (a + b)[i] == a[i];
      assert forall i | 0 <= i < |b| :: (a + b)[|a| + i] == b[i];
    }
  }
}
