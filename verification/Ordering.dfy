/** ORDER BY, told from the keys of the statement and the values in the rows. */
module Ordering {
  import opened Options
  import opened Ast
  import opened Evaluate
  import opened Operators
  import opened Values

  // ----- What an order asks for -----

  ghost predicate Smaller(v: Val, w: Val) {
    match (v, w)
    case (VInt(a), VInt(b)) => a < b
    case (VFloat(a), VFloat(b)) => a < b
    case (VStr(a), VStr(b)) => Less(a, b)
    case (VBool(a), VBool(b)) => !a && b
    case _ => false
  }

  /** `v` comes before `w`: in the key's direction, and before every null in either */
  ghost predicate Precedes(asc: bool, v: Val, w: Val) {
    !v.VNull? && (w.VNull? || if asc then Smaller(v, w) else Smaller(w, v))
  }

  /** The key names one of the columns. */
  predicate Names(k: OrderByItem, columns: set<string>) { k.expr.Column? && k.expr.name in columns }

  ghost predicate KeyPrecedes(k: OrderByItem, a: Row, b: Row)
    requires k.expr.Column?
  {
    Precedes(k.asc, Stored(a, k.expr.name), Stored(b, k.expr.name))
  }

  ghost predicate TellsApart(k: OrderByItem, a: Row, b: Row)
    requires k.expr.Column?
  {
    KeyPrecedes(k, a, b) || KeyPrecedes(k, b, a)
  }

  /** The key at `n` is the first that names a column and tells the rows apart. */
  ghost predicate Decides(keys: seq<OrderByItem>, columns: set<string>, n: nat, a: Row, b: Row) {
    && n < |keys| && Names(keys[n], columns) && TellsApart(keys[n], a, b)
    && forall m | 0 <= m < n && Names(keys[m], columns) :: !TellsApart(keys[m], a, b)
  }

  /** Of any two rows, the one that the deciding key puts first comes first. */
  ghost predicate InOrder(keys: seq<OrderByItem>, columns: set<string>, rows: seq<Row>) {
    forall i, j, n: nat | 0 <= i < j < |rows| && Decides(keys, columns, n, rows[i], rows[j]) ::
      KeyPrecedes(keys[n], rows[i], rows[j])
  }

  // ----- The kernel -----

  ghost predicate AllNamed(items: seq<OrderByItem>, columns: set<string>) {
    forall n | 0 <= n < |items| :: Names(items[n], columns)
  }

  /** The sort kernel sorts by the items it is given, in their order and directions. */
  ghost predicate SortsByItems(kernel: Kernel) {
    forall items, columns, rows | AllNamed(items, columns) && kernel(items, rows).Ok? ::
      multiset(kernel(items, rows).value) == multiset(rows) && InOrder(items, columns, kernel(items, rows).value)
  }

  // ----- The keys that matter -----

  lemma {:induction false} KeysNamed(keys: seq<OrderByItem>, schema: map<string, Ty>)
    ensures AllNamed(SortKeys(keys, schema), schema.Keys)
    decreases |keys|
  {
    if keys != [] { KeysNamed(keys[..|keys| - 1], schema); }
  }

  lemma {:induction false} NoKeys(keys: seq<OrderByItem>, schema: map<string, Ty>, n: nat)
    requires SortKeys(keys, schema) == [] && n < |keys|
    ensures !Names(keys[n], schema.Keys)
    decreases |keys|
  {
    if n < |keys| - 1 { NoKeys(keys[..|keys| - 1], schema, n); }
  }

  /** The deciding key of the statement is the deciding item of those the kernel gets. */
  lemma {:induction false} DecidingItem(keys: seq<OrderByItem>, schema: map<string, Ty>, n: nat, a: Row, b: Row) returns (m: nat)
    requires Decides(keys, schema.Keys, n, a, b)
    ensures m < |SortKeys(keys, schema)| && SortKeys(keys, schema)[m] == keys[n]
    ensures Decides(SortKeys(keys, schema), schema.Keys, m, a, b)
    decreases |keys|
  {
    var init := keys[..|keys| - 1];
    var items := SortKeys(init, schema);
    if n < |init| {
      m := DecidingItem(init, schema, n, a, b);
      assert SortKeys(keys, schema)[..|items|] == items;
      assert forall i | 0 <= i < |items| :: SortKeys(keys, schema)[i] == items[i];
    } else {
      m := |items|;
      KeysNamed(init, schema);
      forall i | 0 <= i < |items| ensures !TellsApart(items[i], a, b) {
        var k := ItemOrigin(init, schema, i);
        assert init[k] == keys[k];
      }
    }
  }

  lemma {:induction false} ItemOrigin(keys: seq<OrderByItem>, schema: map<string, Ty>, i: nat) returns (k: nat)
    requires i < |SortKeys(keys, schema)|
    ensures k < |keys| && keys[k] == SortKeys(keys, schema)[i] && Names(keys[k], schema.Keys)
    decreases |keys|
  {
    var init := keys[..|keys| - 1];
    if i < |SortKeys(init, schema)| { k := ItemOrigin(init, schema, i); } else { k := |keys| - 1; }
  }

  lemma ItemsOrder(keys: seq<OrderByItem>, schema: map<string, Ty>, rows: seq<Row>)
    requires InOrder(SortKeys(keys, schema), schema.Keys, rows)
    ensures InOrder(keys, schema.Keys, rows)
  {
    forall i, j, n: nat | 0 <= i < j < |rows| && Decides(keys, schema.Keys, n, rows[i], rows[j])
      ensures KeyPrecedes(keys[n], rows[i], rows[j])
    {
      var m := DecidingItem(keys, schema, n, rows[i], rows[j]);
    }
  }

  /** With such a kernel, sorting gives the rows in the order the statement asks for; keys that
      name no column do not matter, and if there is no other the rows stay as they are. */
  lemma SortedInOrder(kernel: Kernel, keys: seq<OrderByItem>, schema: map<string, Ty>, rows: seq<Row>)
    requires SortsByItems(kernel) && Sorted(kernel, keys, schema, rows).Ok?
    ensures var out := Sorted(kernel, keys, schema, rows).value;
            && multiset(out) == multiset(rows) && InOrder(keys, schema.Keys, out)
            && ((forall n | 0 <= n < |keys| :: !Names(keys[n], schema.Keys)) ==> out == rows)
  {
    var items := SortKeys(keys, schema);
    KeysNamed(keys, schema);
    if items == [] {
      forall n: nat | n < |keys| ensures !Names(keys[n], schema.Keys) { NoKeys(keys, schema, n); }
    } else {
      ItemsOrder(keys, schema, kernel(items, rows).value);
      var k := ItemOrigin(keys, schema, 0);
    }
  }

  /** The sorted stream is one batch with the rows of its input in that order. */
  lemma SortedStream(kernel: Kernel, keys: seq<OrderByItem>, s: Stream)
    requires SortsByItems(kernel) && !Fails(SortStream(kernel, keys, s))
    ensures var out := SortStream(kernel, keys, s);
            && (out.Done? <==> s.Done?)
            && (out.Next? ==> out.rest.Done? && InOrder(keys, out.batch.schema.Keys, out.batch.rows)
                              && multiset(out.batch.rows) == multiset(Rows(s)))
  {
    if s.Next? && !Fails(s) { SortedInOrder(kernel, keys, s.batch.schema, Rows(s)); }
  }
}
