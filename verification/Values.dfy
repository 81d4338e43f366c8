/** What predicates and expressions mean, told from the values that are stored: numbers and
    strings in rows, and no function of the evaluator. */
module Values {
  import opened Options
  import opened Ast
  import opened Evaluate
  import opened Folding
  import opened Operators
  import opened Rowwise
  import Like

  // ----- The order of strings -----

  /** At the first place where they differ, `s` has the smaller byte or has ended. */
  ghost predicate FirstDifference(s: string, t: string, k: nat) {
    && k <= |s| && k < |t| && s[..k] == t[..k]
    && (k == |s| || s[k] < t[k])
  }

  ghost predicate Less(s: string, t: string) { exists k: nat :: FirstDifference(s, t, k) }

  lemma SameHead(s: string, t: string, k: nat)
    ensures FirstDifference(s, t, k) && k > 0 ==> s != "" && t != "" && s[0] == t[0]
  {
    if FirstDifference(s, t, k) && k > 0 { assert s[0] == s[..k][0] && t[0] == t[..k][0]; }
  }

  lemma {:induction false} BeforeIsLess(s: string, t: string)
    ensures Before(s, t) <==> Less(s, t)
  {
    if s == "" || t == "" || s[0] != t[0] {
      if Before(s, t) { assert FirstDifference(s, t, 0); }
      if Less(s, t) {
        var k: nat :| FirstDifference(s, t, k);
        SameHead(s, t, k);
      }
    } else {
      BeforeIsLess(s[1..], t[1..]);
      if Less(s[1..], t[1..]) {
        var k: nat :| FirstDifference(s[1..], t[1..], k);
        assert s[..k + 1] == [s[0]] + s[1..][..k] && t[..k + 1] == [t[0]] + t[1..][..k];
        assert FirstDifference(s, t, k + 1);
      }
      if Less(s, t) {
        var k: nat :| FirstDifference(s, t, k);
        assert s[1..][..k - 1] == s[..k][1..] && t[1..][..k - 1] == t[..k][1..];
        assert FirstDifference(s[1..], t[1..], k - 1);
      }
    }
  }

  lemma LessTransitive(s: string, t: string, u: string)
    requires Less(s, t) && Less(t, u)
    ensures Less(s, u)
  {
    var j: nat :| FirstDifference(s, t, j);
    var k: nat :| FirstDifference(t, u, k);
    var m := if j < k then j else k;
    assert s[..m] == s[..j][..m] == t[..m] && u[..m] == u[..k][..m];
    if j < k { assert u[j] == u[..k][j] == t[..k][j] == t[j]; }
    if k < j { assert s[k] == s[..j][k] == t[..j][k] == t[k]; }
    assert FirstDifference(s, u, m);
  }

  lemma {:induction false} BeforeTotal(s: string, t: string)
    ensures Before(s, t) || Before(t, s) || s == t
    ensures !(Before(s, t) && Before(t, s)) && (s == t ==> !Before(s, t))
  {
    if s != "" && t != "" && s[0] == t[0] {
      BeforeTotal(s[1..], t[1..]);
      assert s == [s[0]] + s[1..] && t == [t[0]] + t[1..];
    }
  }

  /** The evaluator's order of strings is a strict total order in which a proper prefix comes
      first. */
  lemma StringOrder(s: string, t: string, u: string)
    ensures Before(s, t) <==> Less(s, t)
    ensures !Before(s, s) && (Before(s, t) && Before(t, u) ==> Before(s, u))
    ensures Before(s, t) || Before(t, s) || s == t
    ensures s < t ==> Before(s, t)
  {
    BeforeIsLess(s, t);
    BeforeIsLess(t, u);
    BeforeIsLess(s, u);
    BeforeTotal(s, t);
    BeforeTotal(s, s);
    if Less(s, t) && Less(t, u) { LessTransitive(s, t, u); }
    if s < t { assert FirstDifference(s, t, |s|); }
  }

  // ----- Comparisons -----

  ghost predicate IntsStand(op: BinOp, a: int, b: int) {
    match op
    case EqOp => a == b
    case NotEqOp => a != b
    case LtOp => a < b
    case LtEqOp => a <= b
    case GtOp => a > b
    case GtEqOp => a >= b
    case _ => false
  }

  ghost predicate RealsStand(op: BinOp, a: real, b: real) {
    match op
    case EqOp => a == b
    case NotEqOp => a != b
    case LtOp => a < b
    case LtEqOp => a <= b
    case GtOp => a > b
    case GtEqOp => a >= b
    case _ => false
  }

  ghost predicate StringsStand(op: BinOp, a: string, b: string) {
    match op
    case EqOp => a == b
    case NotEqOp => a != b
    case LtOp => Less(a, b)
    case LtEqOp => Less(a, b) || a == b
    case GtOp => Less(b, a)
    case GtEqOp => Less(b, a) || a == b
    case _ => false
  }

  /** Both values are there, of one kind, and stand in the relation. */
  ghost predicate Stand(op: BinOp, v: Val, w: Val) {
    match (v, w)
    case (VInt(a), VInt(b)) => IntsStand(op, a, b)
    case (VFloat(a), VFloat(b)) => RealsStand(op, a, b)
    case (VStr(a), VStr(b)) => StringsStand(op, a, b)
    case _ => false
  }

  lemma CompareMeaning(op: BinOp, v: Val, w: Val)
    requires IsComparison(op)
    ensures CompareVals(op, v, w) == VBool(true) <==> Stand(op, v, w)
  {
    if v.VStr? && w.VStr? {
      BeforeIsLess(v.s, w.s);
      BeforeIsLess(w.s, v.s);
      BeforeTotal(v.s, w.s);
    }
  }

  /** What a row holds in a column; nothing there is null. */
  function Stored(row: Row, name: string): Val { if name in row then row[name] else VNull }

  /** The rows that satisfy `f`, from the front */
  ghost function Picked(f: Row -> bool, rows: seq<Row>): seq<Row> {
    if rows == [] then [] else (if f(rows[0]) then [rows[0]] else []) + Picked(f, rows[1..])
  }

  lemma {:induction false} PickedSnoc(f: Row -> bool, rows: seq<Row>, row: Row)
    ensures Picked(f, rows + [row]) == Picked(f, rows) + if f(row) then [row] else []
  {
    if rows == [] {
      assert [] + [row] == [row] && [row][1..] == [];
    } else {
      assert (rows + [row])[1..] == rows[1..] + [row];
      PickedSnoc(f, rows[1..], row);
    }
  }

  lemma {:induction false} SelectedIsPicked(env: Env, default: Ty -> Val, schema: map<string, Ty>, e: Expr, f: Row -> bool, rows: seq<Row>)
    requires forall i | 0 <= i < |rows| :: Keeps(env, default, schema, e, rows[i]) <==> f(rows[i])
    ensures Selected(env, default, schema, e, rows) == Picked(f, rows)
    decreases |rows|
  {
    if rows != [] {
      var init, last := rows[..|rows| - 1], rows[|rows| - 1];
      SelectedIsPicked(env, default, schema, e, f, init);
      assert rows == init + [last];
      PickedSnoc(f, init, last);
    }
  }

  /** A predicate that is boolean, never fails and is true just where `f` holds picks those
      rows. */
  lemma FilterPicks(env: Env, default: Ty -> Val, e: Expr, b: Batch, f: Row -> bool)
    requires Uniform(env, default) && Local(e) && TypeOf(env.widen, b.schema, e) == Some(TBool)
    requires forall i | 0 <= i < |b.rows| :: Cell(env, default, b.schema, b.rows[i], e).Some?
    requires forall i | 0 <= i < |b.rows| :: Keeps(env, default, b.schema, e, b.rows[i]) <==> f(b.rows[i])
    ensures FilterBatch(env, e, b) == Ok(b.(rows := Picked(f, b.rows)))
  {
    FilterBatchMeaning(env, default, e, b);
    SelectedIsPicked(env, default, b.schema, e, f, b.rows);
  }

  /** A literal that a column can be compared with */
  ghost predicate Fits(env: Env, t: Ty, lit: Literal) {
    || (t == TInt && lit.IntL?) || (t == TFloat && lit.FloatL?) || (t == TStr && lit.StrL?)
    || (t == TUInt && lit.IntL? && env.widen)
  }

  ghost function Written(lit: Literal): Val {
    match lit
    case IntL(n) => VInt(n)
    case FloatL(f) => VFloat(f)
    case StrL(s) => VStr(s)
    case BoolL(b) => VBool(b)
    case NullL => VNull
  }

  function Col(name: string): Expr { Column(None, name) }

  lemma ColumnCell(env: Env, default: Ty -> Val, schema: map<string, Ty>, row: Row, name: string, lit: Literal)
    ensures Cell(env, default, schema, row, Col(name)) == Some(Stored(row, name))
    ensures Cell(env, default, schema, row, Lit(lit)) == Some(Written(lit))
  {
  }

  /** `column op literal` keeps exactly the rows whose stored value stands in that relation to
      the literal; it fails exactly if there is no such column or the types do not compare. */
  lemma ComparisonSelects(env: Env, default: Ty -> Val, b: Batch, name: string, op: BinOp, lit: Literal)
    requires Uniform(env, default) && IsComparison(op)
    ensures FilterBatch(env, Bin(op, Col(name), Lit(lit)), b) ==
            if name in b.schema && Fits(env, b.schema[name], lit)
            then Ok(b.(rows := Picked(row => Stand(op, Stored(row, name), Written(lit)), b.rows)))
            else Err
  {
    var e := Bin(op, Col(name), Lit(lit));
    ComparisonType(env, b.schema, name, op, lit);
    if name in b.schema && Fits(env, b.schema[name], lit) {
      var f := row => Stand(op, Stored(row, name), Written(lit));
      forall i | 0 <= i < |b.rows|
        ensures Cell(env, default, b.schema, b.rows[i], e).Some?
        ensures Keeps(env, default, b.schema, e, b.rows[i]) <==> f(b.rows[i])
      {
        ComparisonKeeps(env, default, b.schema, b.rows[i], name, op, lit);
      }
      FilterPicks(env, default, e, b, f);
    } else {
      FilterBatchMeaning(env, default, e, b);
    }
  }

  lemma ComparisonType(env: Env, schema: map<string, Ty>, name: string, op: BinOp, lit: Literal)
    requires IsComparison(op)
    ensures TypeOf(env.widen, schema, Bin(op, Col(name), Lit(lit)))
         == if name in schema && Fits(env, schema[name], lit) then Some(TBool) else None
  {
    assert TypeOf(env.widen, schema, Lit(lit)) == Some(LiteralType(lit));
    assert TypeOf(env.widen, schema, Col(name)) == if name in schema then Some(schema[name]) else None;
  }

  lemma ComparisonKeeps(env: Env, default: Ty -> Val, schema: map<string, Ty>, row: Row, name: string, op: BinOp, lit: Literal)
    requires IsComparison(op)
    ensures Cell(env, default, schema, row, Bin(op, Col(name), Lit(lit))).Some?
    ensures Keeps(env, default, schema, Bin(op, Col(name), Lit(lit)), row) <==> Stand(op, Stored(row, name), Written(lit))
  {
    ColumnCell(env, default, schema, row, name, lit);
    CompareMeaning(op, Stored(row, name), Written(lit));
  }

  // ----- BETWEEN, IS NULL, constants -----

  lemma BetweenSelects(env: Env, default: Ty -> Val, b: Batch, name: string, lo: Literal, hi: Literal)
    requires Uniform(env, default) && name in b.schema && Fits(env, b.schema[name], lo) && Fits(env, b.schema[name], hi)
    ensures FilterBatch(env, BetweenExpr(Col(name), Lit(lo), Lit(hi)), b) ==
            Ok(b.(rows := Picked(row => Stand(GtEqOp, Stored(row, name), Written(lo))
                                        && Stand(LtEqOp, Stored(row, name), Written(hi)), b.rows)))
  {
    var e := BetweenExpr(Col(name), Lit(lo), Lit(hi));
    var f := row => Stand(GtEqOp, Stored(row, name), Written(lo)) && Stand(LtEqOp, Stored(row, name), Written(hi));
    forall i | 0 <= i < |b.rows|
      ensures Cell(env, default, b.schema, b.rows[i], e).Some?
      ensures Keeps(env, default, b.schema, e, b.rows[i]) <==> f(b.rows[i])
    {
      ColumnCell(env, default, b.schema, b.rows[i], name, lo);
      ColumnCell(env, default, b.schema, b.rows[i], name, hi);
      CompareMeaning(GtEqOp, Stored(b.rows[i], name), Written(lo));
      CompareMeaning(LtEqOp, Stored(b.rows[i], name), Written(hi));
    }
    FilterPicks(env, default, e, b, f);
  }

  lemma NullTestsSelect(env: Env, default: Ty -> Val, b: Batch, name: string)
    requires Uniform(env, default) && name in b.schema
    ensures FilterBatch(env, IsNull(Col(name)), b) == Ok(b.(rows := Picked(row => Stored(row, name) == VNull, b.rows)))
    ensures FilterBatch(env, IsNotNull(Col(name)), b) == Ok(b.(rows := Picked(row => Stored(row, name) != VNull, b.rows)))
  {
    FilterPicks(env, default, IsNull(Col(name)), b, row => Stored(row, name) == VNull);
    FilterPicks(env, default, IsNotNull(Col(name)), b, row => Stored(row, name) != VNull);
  }

  // ----- IN -----

  function Lits(lits: seq<Literal>): seq<Expr> { seq(|lits|, i requires 0 <= i < |lits| => Lit(lits[i])) }

  function WrittenAll(lits: seq<Literal>): seq<Option<Val>> {
    seq(|lits|, i requires 0 <= i < |lits| => Some(LiteralVal(lits[i])))
  }

  /** The value of IN on a row: null for a null, unless the list is empty, and otherwise
      whether some item equals the value. */
  lemma {:induction false} InMeaning(env: Env, t: Option<Ty>, v: Val, lits: seq<Literal>)
    requires t.Some? && forall i | 0 <= i < |lits| :: Fits(env, t.value, lits[i])
    requires v.VNull? || (t.value == TInt && v.VInt?) || (t.value == TUInt && v.VInt?) || (t.value == TFloat && v.VFloat?) || (t.value == TStr && v.VStr?)
    ensures InSlot(env, t, Some(v), WrittenAll(lits)) ==
            Some(if v.VNull? && lits != [] then VNull else VBool(exists i :: 0 <= i < |lits| && Written(lits[i]) == v))
    decreases |lits|
  {
    if lits != [] {
      var n := |lits| - 1;
      InMeaning(env, t, v, lits[..n]);
      assert WrittenAll(lits)[..n] == WrittenAll(lits[..n]);
      assert Fits(env, t.value, lits[n]);
      CompareMeaning(EqOp, v, Written(lits[n]));
      InLast(v, lits);
    }
  }

  lemma InLast(v: Val, lits: seq<Literal>)
    requires lits != []
    ensures var n := |lits| - 1;
            (exists i :: 0 <= i < |lits| && Written(lits[i]) == v)
            <==> (exists i :: 0 <= i < n && Written(lits[..n][i]) == v) || Written(lits[n]) == v
  {
    var n := |lits| - 1;
    if exists i :: 0 <= i < |lits| && Written(lits[i]) == v {
      var i :| 0 <= i < |lits| && Written(lits[i]) == v;
      assert i < n ==> Written(lits[..n][i]) == v;
    }
    if exists i :: 0 <= i < n && Written(lits[..n][i]) == v {
      var i :| 0 <= i < n && Written(lits[..n][i]) == v;
      assert Written(lits[i]) == v;
    }
  }

  /** Each value of the column is null or of its type. */
  ghost predicate Typed(b: Batch, name: string)
    requires name in b.schema
  {
    forall i | 0 <= i < |b.rows| ::
      var v, t := Stored(b.rows[i], name), b.schema[name];
      v.VNull? || ((t == TInt || t == TUInt) && v.VInt?) || (t == TFloat && v.VFloat?) || (t == TStr && v.VStr?)
  }

  lemma LitTypes(env: Env, schema: map<string, Ty>, name: string, lits: seq<Literal>)
    requires name in schema && forall i | 0 <= i < |lits| :: Fits(env, schema[name], lits[i])
    ensures TypeOf(env.widen, schema, InExpr(Col(name), Lits(lits))) == Some(TBool)
    ensures Local(InExpr(Col(name), Lits(lits)))
  {
  }

  lemma InCell(env: Env, default: Ty -> Val, b: Batch, name: string, lits: seq<Literal>, i: nat)
    requires name in b.schema && Typed(b, name) && i < |b.rows|
    requires forall k | 0 <= k < |lits| :: Fits(env, b.schema[name], lits[k])
    ensures var v := Stored(b.rows[i], name);
            Cell(env, default, b.schema, b.rows[i], InExpr(Col(name), Lits(lits)))
            == Some(if v.VNull? && lits != [] then VNull else VBool(exists k :: 0 <= k < |lits| && Written(lits[k]) == v))
  {
    assert Cells(env, default, b.schema, b.rows[i], Lits(lits)) == WrittenAll(lits);
    InMeaning(env, Some(b.schema[name]), Stored(b.rows[i], name), lits);
  }

  ghost predicate OneOf(v: Val, lits: seq<Literal>) { exists i :: 0 <= i < |lits| && Written(lits[i]) == v }

  /** `column IN (literals)` keeps exactly the rows whose value equals an item; NOT IN those
      whose value is there and equals none. */
  lemma InSelects(env: Env, default: Ty -> Val, b: Batch, name: string, lits: seq<Literal>)
    requires Uniform(env, default) && name in b.schema && Typed(b, name) && lits != []
    requires forall i | 0 <= i < |lits| :: Fits(env, b.schema[name], lits[i])
    ensures var e := InExpr(Col(name), Lits(lits));
            && FilterBatch(env, e, b) == Ok(b.(rows := Picked(row => OneOf(Stored(row, name), lits), b.rows)))
            && FilterBatch(env, Un(NotOp, e), b)
               == Ok(b.(rows := Picked(row => Stored(row, name) != VNull && !OneOf(Stored(row, name), lits), b.rows)))
  {
    var e := InExpr(Col(name), Lits(lits));
    LitTypes(env, b.schema, name, lits);
    forall i | 0 <= i < |b.rows|
      ensures var v := Stored(b.rows[i], name);
              Cell(env, default, b.schema, b.rows[i], e) == Some(if v.VNull? then VNull else VBool(OneOf(v, lits)))
      ensures OneOf(Stored(b.rows[i], name), lits) ==> Stored(b.rows[i], name) != VNull
    {
      InCell(env, default, b, name, lits, i);
    }
    FilterPicks(env, default, e, b, row => OneOf(Stored(row, name), lits));
    FilterPicks(env, default, Un(NotOp, e), b, row => Stored(row, name) != VNull && !OneOf(Stored(row, name), lits));
  }

  // ----- LIKE -----

  /** For a pattern that means what SQL says, `column LIKE pattern` keeps exactly the rows whose
      string matches, and NOT LIKE the others; a null counts as what lies under it. */
  lemma LikeSelects(env: Env, default: Ty -> Val, b: Batch, name: string, pattern: string, negated: bool)
    requires Uniform(env, default) && name in b.schema && b.schema[name] == TStr && Like.Faithful(pattern)
    requires default(TStr) == VStr("") && Typed(b, name)
    ensures FilterBatch(env, LikeExpr(Col(name), pattern, negated), b) ==
            Ok(b.(rows := Picked(row => Like.Sql(Text(Stored(row, name)), pattern) != negated, b.rows)))
  {
    var e := LikeExpr(Col(name), pattern, negated);
    var f := row => Like.Sql(Text(Stored(row, name)), pattern) != negated;
    Like.LikeIsSqlExactlyWhenFaithful(pattern);
    forall i | 0 <= i < |b.rows|
      ensures Cell(env, default, b.schema, b.rows[i], e).Some?
      ensures Keeps(env, default, b.schema, e, b.rows[i]) <==> f(b.rows[i])
    {
      assert Like.Matches(Text(Stored(b.rows[i], name)), pattern) == Like.Sql(Text(Stored(b.rows[i], name)), pattern);
    }
    FilterPicks(env, default, e, b, f);
  }

  function Text(v: Val): string { if v.VStr? then v.s else "" }

  // ----- AND, OR, NOT -----

  /** A conjunction keeps the rows both sides keep; a disjunction those that one side keeps
      while the other is not null; a negation those for which its argument is false. */
  lemma ConnectivesSelect(env: Env, default: Ty -> Val, schema: map<string, Ty>, e: Expr, f: Expr, row: Row)
    requires Cell(env, default, schema, row, e).Some? && Truth3(Cell(env, default, schema, row, e).value)
    requires Cell(env, default, schema, row, f).Some? && Truth3(Cell(env, default, schema, row, f).value)
    ensures Keeps(env, default, schema, Bin(AndOp, e, f), row) <==>
            Keeps(env, default, schema, e, row) && Keeps(env, default, schema, f, row)
    ensures Keeps(env, default, schema, Bin(OrOp, e, f), row) <==>
            && (Keeps(env, default, schema, e, row) || Keeps(env, default, schema, f, row))
            && Cell(env, default, schema, row, e) != Some(VNull) && Cell(env, default, schema, row, f) != Some(VNull)
    ensures Keeps(env, default, schema, Un(NotOp, e), row) <==> Cell(env, default, schema, row, e) == Some(VBool(false))
  {
  }

  // ----- Arithmetic -----

  /** `q` is the quotient rounded toward zero: what is left is smaller than the divisor and
      has the sign of the dividend. */
  ghost predicate Quotient(a: int, b: int, q: int) {
    var r := a - b * q;
    b != 0 && (if b < 0 then b < r < -b else -b < r < b) && (r == 0 || (r < 0 <==> a < 0))
  }

  ghost predicate Result64(op: BinOp, a: int, b: int, v: int) {
    IsI64(v) &&
    match op
    case Add => v == a + b
    case Sub => v == a - b
    case Mul => v == a * b
    case Div => Quotient(a, b, v)
    case _ => false
  }

  lemma TruncDivIsQuotient(a: int, b: int)
    requires b != 0
    ensures Quotient(a, b, TruncDiv(a, b)) && TruncRem(a, b) == a - b * TruncDiv(a, b)
  {
    var q: int := Abs(a) / Abs(b);
    NatQuotient(Abs(a), Abs(b));
    SignedProduct(Abs(b), q);
    var p := Abs(b) * q;
    assert b * q == if b < 0 then -p else p;
    assert b * -q == if b < 0 then p else -p;
    Signs(a, b, p, b * TruncDiv(a, b));
  }

  /** The product of the quotient, from that of the magnitudes */
  lemma Signs(a: int, b: int, p: int, product: int)
    requires b != 0 && 0 <= Abs(a) - p < Abs(b) && product == if a < 0 then -p else p
    ensures var r := a - product; (if b < 0 then b < r < -b else -b < r < b) && (r == 0 || (r < 0 <==> a < 0))
  {
  }

  lemma NatQuotient(x: nat, y: nat)
    requires y > 0
    ensures 0 <= x - y * (x / y) < y
  {
  }

  lemma SignedProduct(y: int, q: int)
    ensures y * -q == -(y * q) && -y * q == -(y * q) && -y * -q == y * q
  {
  }

  lemma QuotientUnique(a: int, b: int, p: int, q: int)
    requires Quotient(a, b, p) && Quotient(a, b, q)
    ensures p == q
  {
    var r, s := a - b * p, a - b * q;
    assert b * (q - p) == r - s;
    if q - p >= 1 { Multiple(b, q - p); }
    if p - q >= 1 { assert b * (p - q) == s - r; Multiple(b, p - q); }
  }

  lemma Multiple(b: int, k: int)
    requires k >= 1
    ensures b > 0 ==> b * k >= b
    ensures b < 0 ==> b * k <= b
  {
    assert b * k == b + b * (k - 1);
    if b > 0 { assert b * (k - 1) >= 0; }
    if b < 0 { assert b * (k - 1) <= 0; }
  }

  /** Checked arithmetic gives the 64-bit result if there is one, and nothing else. */
  lemma ArithmeticMeaning(op: BinOp, a: int, b: int, v: int)
    requires IsArithmetic(op)
    ensures CheckedArith(op, a, b) == Some(v) <==> Result64(op, a, b, v)
  {
    if op == Div && b != 0 {
      TruncDivIsQuotient(a, b);
      if Quotient(a, b, v) { QuotientUnique(a, b, v, TruncDiv(a, b)); }
    }
  }

  /** On integer columns an operation gives, row by row, the exact result or null beside a
      null; one row without a 64-bit result fails the batch. */
  lemma ColumnsCombine(env: Env, default: Ty -> Val, b: Batch, op: BinOp, c: string, d: string)
    requires Uniform(env, default) && IsArithmetic(op) && op != Mod
    requires c in b.schema && d in b.schema && b.schema[c] == b.schema[d] == TInt && Typed(b, c) && Typed(b, d)
    ensures var r := Eval(env, b, Bin(op, Col(c), Col(d)));
            && (r.Ok? <==> forall i | 0 <= i < |b.rows| :: Combines(op, Stored(b.rows[i], c), Stored(b.rows[i], d)))
            && (r.Ok? ==> |r.value.vals| == |b.rows| && forall i | 0 <= i < |b.rows| ::
                  Combined(op, Stored(b.rows[i], c), Stored(b.rows[i], d), r.value.vals[i]))
  {
    var e := Bin(op, Col(c), Col(d));
    Vectorised(env, default, b, e);
    var cells := ColumnOf(env, default, b, e);
    assert TypeOf(env.widen, b.schema, Col(c)) == TypeOf(env.widen, b.schema, Col(d)) == Some(TInt);
    assert TypeOf(env.widen, b.schema, e) == Some(TInt);
    forall i | 0 <= i < |b.rows|
      ensures cells[i].Some? <==> Combines(op, Stored(b.rows[i], c), Stored(b.rows[i], d))
      ensures cells[i].Some? ==> Combined(op, Stored(b.rows[i], c), Stored(b.rows[i], d), cells[i].value)
    {
      RowCombines(env, default, b.schema, b.rows[i], op, c, d);
    }
    BuiltRows(Eval(env, b, e), Some(TInt), cells);
  }

  lemma BuiltRows(a: Result<Arr>, t: Option<Ty>, cells: seq<Option<Val>>)
    requires Built(a, t, cells) && t.Some?
    ensures a.Ok? <==> forall i | 0 <= i < |cells| :: cells[i].Some?
    ensures a.Ok? ==> |a.value.vals| == |cells| && forall i | 0 <= i < |cells| :: cells[i] == Some(a.value.vals[i])
  {
  }

  lemma RowCombines(env: Env, default: Ty -> Val, schema: map<string, Ty>, row: Row, op: BinOp, c: string, d: string)
    requires IsArithmetic(op) && c in schema && schema[c] == TInt
    ensures var cell := Cell(env, default, schema, row, Bin(op, Col(c), Col(d)));
            && (cell.Some? <==> Combines(op, Stored(row, c), Stored(row, d)))
            && (cell.Some? ==> Combined(op, Stored(row, c), Stored(row, d), cell.value))
  {
    var v, w := Stored(row, c), Stored(row, d);
    ColumnCell(env, default, schema, row, c, NullL);
    ColumnCell(env, default, schema, row, d, NullL);
    assert TypeOf(env.widen, schema, Col(c)) == Some(TInt);
    if v.VInt? && w.VInt? { AddIntsMeaning(op, v.n, w.n); }
  }

  /** There is a result. */
  ghost predicate Combines(op: BinOp, v: Val, w: Val) { v.VInt? && w.VInt? ==> exists n :: Result64(op, v.n, w.n, n) }

  ghost predicate Combined(op: BinOp, v: Val, w: Val, out: Val) {
    if v.VInt? && w.VInt? then out.VInt? && Result64(op, v.n, w.n, out.n) else out == VNull
  }

  lemma AddIntsMeaning(op: BinOp, a: int, b: int)
    requires IsArithmetic(op)
    ensures AddInts(op, VInt(a), VInt(b)).Some? <==> exists n :: Result64(op, a, b, n)
    ensures AddInts(op, VInt(a), VInt(b)).Some? ==>
            AddInts(op, VInt(a), VInt(b)).value.VInt? && Result64(op, a, b, AddInts(op, VInt(a), VInt(b)).value.n)
  {
    if CheckedArith(op, a, b).Some? { ArithmeticMeaning(op, a, b, CheckedArith(op, a, b).value); }
    if n: int :| Result64(op, a, b, n) { ArithmeticMeaning(op, a, b, n); }
  }

  /** Unary minus negates, the least integer alone excepted; a null becomes the negation of
      what lies under it. */
  lemma MinusNegates(env: Env, default: Ty -> Val, b: Batch, name: string)
    requires Uniform(env, default) && name in b.schema && (b.schema[name] == TInt || b.schema[name] == TFloat) && Typed(b, name)
    ensures var r := Eval(env, b, Un(Neg, Col(name)));
            r.Ok? && |r.value.vals| == |b.rows| && forall i | 0 <= i < |b.rows| ::
              match Stored(b.rows[i], name)
              case VInt(n) => IsI64(n) ==> r.value.vals[i] == VInt(if n == -TWO63 then n else -n)
              case VFloat(f) => r.value.vals[i] == VFloat(-f)
              case _ => true
  {
    Vectorised(env, default, b, Un(Neg, Col(name)));
  }

  // ----- Constants -----

  /** Literals, intervals and `now()` have their value on every row. */
  lemma ConstantsHold(env: Env, default: Ty -> Val, b: Batch, lit: Literal, ns: int, i: nat)
    requires Uniform(env, default) && i < |b.rows|
    ensures Eval(env, b, Lit(lit)).Ok? && Eval(env, b, Lit(lit)).value.vals[i] == Written(lit)
    ensures Eval(env, b, IntervalNs(ns)).Ok? && Eval(env, b, IntervalNs(ns)).value.vals[i] == VInt(ns)
    ensures Eval(env, b, Func("now", [])).Ok? && Eval(env, b, Func("now", [])).value.vals[i] == VInt(env.now)
  {
  }

  /** Integer literals, `now()` and the four operations on them */
  predicate Constant(e: Expr) {
    match e
    case Lit(lit) => lit.IntL?
    case Func(name, args) => name == "now" && args == []
    case Bin(op, l, r) => IsArithmetic(op) && op != Mod && Constant(l) && Constant(r)
    case _ => false
  }

  /** Every constant that can be evaluated is folded to the literal of its value. */
  lemma {:induction false} ConstantsFold(env: Env, b: Batch, e: Expr)
    requires Constant(e) && b.rows != [] && Eval(env, b, e).Ok?
    ensures IsIntLit(FoldExpr(env.now, e))
    ensures Eval(env, b, e).value.vals == seq(|b.rows|, _ => VInt(FoldExpr(env.now, e).lit.n))
    decreases e
  {
    if e.Bin? {
      ConstantsFold(env, b, e.left);
      ConstantsFold(env, b, e.right);
      var l, r := FoldExpr(env.now, e.left).lit.n, FoldExpr(env.now, e.right).lit.n;
      ConstantSlots(e.op, l, r, |b.rows|);
    }
  }

  /** Equal slots all fail, or all give the result. */
  lemma ConstantSlots(op: BinOp, a: int, b: int, n: nat)
    requires n > 0 && IntArith(op, seq(n, _ => VInt(a)), seq(n, _ => VInt(b))).Ok?
    ensures CheckedArith(op, a, b).Some?
    ensures IntArith(op, seq(n, _ => VInt(a)), seq(n, _ => VInt(b))) == Ok(seq(n, _ => VInt(CheckedArith(op, a, b).value)))
  {
    var l, r := seq(n, _ => VInt(a)), seq(n, _ => VInt(b));
    IntArithSlots(op, l, r);
    assert l[0] == VInt(a) && r[0] == VInt(b);
    ConstantArith(op, a, b, n);
  }

  /** A remainder of literals is folded to what division leaves, with the sign of the
      dividend. */
  lemma RemainderFolds(now: int, a: int, b: int, q: int)
    requires Quotient(a, b, q) && IsI64(q)
    ensures FoldExpr(now, Bin(Mod, Lit(IntL(a)), Lit(IntL(b)))) == Lit(IntL(a - b * q))
  {
    TruncDivIsQuotient(a, b);
    QuotientUnique(a, b, q, TruncDiv(a, b));
  }
}
