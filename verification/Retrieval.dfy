/** From writing to reading: what a query over the engine's tables answers, told from what the
    engine was given. */
module Retrieval {
  import opened Options
  import opened Ast
  import opened Evaluate
  import opened Operators
  import opened Scans
  import Pruning
  import Queries
  import opened Partition
  import opened Engine
  import Conservation
  import Invariants

  /** How a stored record looks as a row of a batch */
  type Layout = Rec -> Row

  function RowsOf(row: Layout, rows: seq<Rec>): seq<Row> {
    if rows == [] then [] else RowsOf(row, rows[..|rows| - 1]) + [row(rows[|rows| - 1])]
  }

  lemma {:induction false} RowsOfConcat(row: Layout, a: seq<Rec>, b: seq<Rec>)
    ensures RowsOf(row, a + b) == RowsOf(row, a) + RowsOf(row, b)
    decreases |b|
  {
    if b == [] {
      assert a + b == a;
    } else {
      assert (a + b)[..|a + b| - 1] == a + b[..|b| - 1];
      RowsOfConcat(row, a, b[..|b| - 1]);
    }
  }

  // ----- Files and tables -----

  /** The file of a table reads as its rows, in any batches. */
  ghost predicate Holds(env: Env, file: File, row: Layout, t: Table) {
    var r := LoadReads(env, None, file);
    r.Ok? && Pruning.BatchRows(r.value) == RowsOf(row, t.rows)
  }

  /** The scan's view of the engine: the files of the partitions that are open */
  ghost predicate Mirrors(env: Env, store: Store, row: Layout, parts: map<Place, SigPart>, signal: nat) {
    && store.Valid()
    && (forall k :: k in store.order <==> Place(k, signal) in parts)
    && (forall k | k in store.order ::
          && |store.files[k]| == |parts[Place(k, signal)].tables|
          && forall i | 0 <= i < |store.files[k]| :: Holds(env, store.files[k][i], row, parts[Place(k, signal)].tables[i]))
  }

  ghost predicate ReadsAs(env: Env, input: seq<Result<Batch>>, rows: seq<Row>) {
    var r := LoadReads(env, None, input);
    r.Ok? && Pruning.BatchRows(r.value) == rows
  }

  lemma ReadsConcat(env: Env, a: seq<Result<Batch>>, b: seq<Result<Batch>>, x: seq<Row>, y: seq<Row>)
    requires ReadsAs(env, a, x) && ReadsAs(env, b, y)
    ensures ReadsAs(env, a + b, x + y)
  {
    Pruning.LoadConcat(env, None, a, b);
    Pruning.BatchRowsConcat(LoadReads(env, None, a).value, LoadReads(env, None, b).value);
  }

  lemma {:induction false} FilesRead(env: Env, files: seq<File>, row: Layout, tables: seq<Table>)
    requires |files| == |tables| && forall i | 0 <= i < |files| :: Holds(env, files[i], row, tables[i])
    ensures ReadsAs(env, Flat(files), RowsOf(row, AllRows(tables)))
  {
    if files != [] {
      var n := |files| - 1;
      FilesRead(env, files[..n], row, tables[..n]);
      ReadsConcat(env, Flat(files[..n]), files[n], RowsOf(row, AllRows(tables[..n])), RowsOf(row, tables[n].rows));
      RowsOfConcat(row, AllRows(tables[..n]), tables[n].rows);
    }
  }

  /** The records of one signal in the partitions `keys` */
  function Records(parts: map<Place, SigPart>, signal: nat, keys: seq<nat>): seq<Rec> {
    if keys == [] then [] else
      Records(parts, signal, keys[..|keys| - 1]) + AllRows(PartAt(parts, Place(keys[|keys| - 1], signal)).tables)
  }

  lemma {:induction false} KeysRead(env: Env, store: Store, row: Layout, parts: map<Place, SigPart>, signal: nat, keys: seq<nat>)
    requires Mirrors(env, store, row, parts, signal) && forall k | k in keys :: k in store.order
    ensures ReadsAs(env, store.KeyReads(keys), RowsOf(row, Records(parts, signal, keys)))
    decreases |keys|
  {
    if keys != [] {
      var init, k := keys[..|keys| - 1], keys[|keys| - 1];
      assert k in keys;
      var tables := parts[Place(k, signal)].tables;
      KeysRead(env, store, row, parts, signal, init);
      FilesRead(env, store.files[k], row, tables);
      ReadsConcat(env, store.KeyReads(init), Flat(store.files[k]), RowsOf(row, Records(parts, signal, init)), RowsOf(row, AllRows(tables)));
      RowsOfConcat(row, Records(parts, signal, init), AllRows(tables));
    }
  }

  // ----- Counting records -----

  /** The partitions but those of the signal under `keys` */
  ghost function Others(parts: map<Place, SigPart>, signal: nat, keys: seq<nat>): map<Place, SigPart> {
    map at | at in parts && !(at.signal == signal && at.key in keys) :: parts[at]
  }

  lemma PartWithout(parts: map<Place, SigPart>, at: Place)
    requires at in parts
    ensures Conservation.PartBag(parts) == multiset(AllRows(parts[at].tables)) + Conservation.PartBag(parts - {at})
  {
    assert Conservation.PartBags(parts - {at}) == Conservation.PartBags(parts) - {at};
    Conservation.MapBagSplit(Conservation.PartBags(parts), at);
  }

  lemma {:induction false} RecordsCounted(parts: map<Place, SigPart>, signal: nat, keys: seq<nat>)
    requires Pruning.Distinct(keys) && forall k | k in keys :: Place(k, signal) in parts
    ensures multiset(Records(parts, signal, keys)) + Conservation.PartBag(Others(parts, signal, keys)) == Conservation.PartBag(parts)
    decreases |keys|
  {
    if keys == [] {
      assert Others(parts, signal, keys) == parts;
    } else {
      RecordsCounted(parts, signal, keys[..|keys| - 1]);
      OneMoreKey(parts, signal, keys);
    }
  }

  lemma OneMoreKey(parts: map<Place, SigPart>, signal: nat, keys: seq<nat>)
    requires keys != [] && Pruning.Distinct(keys) && Place(keys[|keys| - 1], signal) in parts
    ensures var init, at := keys[..|keys| - 1], Place(keys[|keys| - 1], signal);
            Conservation.PartBag(Others(parts, signal, init))
            == multiset(AllRows(PartAt(parts, at).tables)) + Conservation.PartBag(Others(parts, signal, keys))
  {
    var init, k := keys[..|keys| - 1], keys[|keys| - 1];
    var before, at := Others(parts, signal, init), Place(k, signal);
    assert keys == init + [k];
    assert at in before && before[at] == parts[at];
    PartWithout(before, at);
    assert Others(parts, signal, keys) == before - {at};
  }

  lemma {:induction false} NotInBag<K>(m: map<K, multiset<Rec>>, x: Rec)
    requires forall k | k in m :: x !in m[k]
    ensures x !in Conservation.MapBag(m)
    decreases |m|
  {
    if m != map[] {
      var k :| k in m && Conservation.MapBag(m) == m[k] + Conservation.MapBag(m - {k});
      NotInBag(m - {k}, x);
    }
  }

  lemma SignalOfPlace(cfg: Config, s: State, at: Place, x: Rec)
    requires cfg.Valid() && Invariants.Inv(cfg, s) && at in s.parts && x in AllRows(s.parts[at].tables)
    ensures x.signal == at.signal
  {
    Invariants.FiledAt(cfg, s.disk, s.parts[at].tables, at);
    Invariants.AllRowsAt(cfg, s.parts[at].tables, at);
  }

  /** The records of a signal in all open partitions are the listed rows of that signal. */
  lemma RecordsOfSignal(cfg: Config, s: State, signal: nat, order: seq<nat>, x: Rec)
    requires cfg.Valid() && Invariants.Inv(cfg, s) && Pruning.Distinct(order)
    requires forall k :: k in order <==> Place(k, signal) in s.parts
    ensures multiset(Records(s.parts, signal, order))[x] == if x.signal == signal then Conservation.PartBag(s.parts)[x] else 0
  {
    var others := Others(s.parts, signal, order);
    RecordsCounted(s.parts, signal, order);
    assert (multiset(Records(s.parts, signal, order)) + Conservation.PartBag(others))[x] == Conservation.PartBag(s.parts)[x];
    if x.signal == signal {
      forall at | at in Conservation.PartBags(others) ensures x !in Conservation.PartBags(others)[at] {
        assert at.signal != signal;
        if x in AllRows(s.parts[at].tables) { SignalOfPlace(cfg, s, at, x); }
      }
      NotInBag(Conservation.PartBags(others), x);
    } else {
      NoOtherSignal(cfg, s, signal, order, x);
    }
  }

  lemma {:induction false} NoOtherSignal(cfg: Config, s: State, signal: nat, keys: seq<nat>, x: Rec)
    requires cfg.Valid() && Invariants.Inv(cfg, s) && x.signal != signal
    requires forall k | k in keys :: Place(k, signal) in s.parts
    ensures multiset(Records(s.parts, signal, keys))[x] == 0
    decreases |keys|
  {
    if keys != [] {
      var init, k := keys[..|keys| - 1], keys[|keys| - 1];
      assert forall j | j in init :: j in keys;
      assert k in keys;
      NoOtherSignal(cfg, s, signal, init, x);
      if x in AllRows(s.parts[Place(k, signal)].tables) { SignalOfPlace(cfg, s, Place(k, signal), x); }
    }
  }

  // ----- Write, then read -----

  /** Nothing is in memory and no compaction is under way. */
  ghost predicate AtRest(s: State) {
    s.mem == map[] && s.queue == [] && s.sending.None? && s.flush.Idle? && s.compaction.Resting?
  }

  function SelectAll(table: string): Select {
    SelectStmt([StarProjection], TableRef(table, None), [], None, [], None, [], None, None)
  }

  /** Once a sound state is at rest, `SELECT *` answers with exactly the records of its signal
      that the engine accepted, less those that were dropped or orphaned, whatever the SSTables
      and batches they lie in. */
  lemma WriteThenRead(cfg: Config, s: State, w: World, table: string, signal: nat, row: Layout) returns (records: seq<Rec>)
    requires cfg.Valid() && Invariants.Inv(cfg, s) && Conservation.Conserved(s) && AtRest(s)
    requires table in w.tables && Mirrors(w.env, w.tables[table], row, s.parts, signal) && Permutes(w.kernel)
    ensures var answer := Answer(w, SelectAll(table));
            answer.Ok? && multiset(Pruning.BatchRows(answer.value)) == multiset(RowsOf(row, records))
    ensures forall x :: multiset(records)[x] + (if x.signal == signal then s.dropped[x] + s.orphaned[x] else 0)
                     == if x.signal == signal then s.accepted[x] else 0
  {
    var store, sel := w.tables[table], SelectAll(table);
    records := Records(s.parts, signal, store.order);
    KeysRead(w.env, store, row, s.parts, signal, store.order);
    assert [StarProjection][..0] == [];
    Queries.EndToEnd(w, sel, RowsOf(row, records));
    Invariants.DrainedIsOnDisk(s);
    forall x ensures multiset(records)[x] + (if x.signal == signal then s.dropped[x] + s.orphaned[x] else 0)
                  == if x.signal == signal then s.accepted[x] else 0
    {
      RecordsOfSignal(cfg, s, signal, store.order, x);
      assert s.accepted[x] == (Conservation.PartBag(s.parts) + s.dropped + s.orphaned)[x];
    }
  }
}
