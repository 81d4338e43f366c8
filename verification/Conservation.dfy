/** Every accepted row is in exactly one place, after every run. */
module Conservation {
  import opened Options
  import opened Sorting
  import opened ZoneMap
  import opened Partition
  import opened Engine

  // ----- Sums over maps -----

  ghost function MapBag<K>(m: map<K, multiset<Rec>>): multiset<Rec>
    decreases |m|
  {
    if m == map[] then multiset{} else
      var k :| k in m;
      m[k] + MapBag(m - {k})
  }

  ghost function BagAt<K>(m: map<K, multiset<Rec>>, k: K): multiset<Rec> { if k in m then m[k] else multiset{} }

  lemma {:induction false} MapBagSplit<K>(m: map<K, multiset<Rec>>, k: K)
    ensures MapBag(m) == BagAt(m, k) + MapBag(m - {k})
    decreases |m|
  {
    if k in m {
      var x :| x in m && MapBag(m) == m[x] + MapBag(m - {x});
      if x != k {
        MapBagSplit(m - {x}, k);
        MapBagSplit(m - {k}, x);
        assert m - {x} - {k} == m - {k} - {x};
      }
    } else {
      assert m - {k} == m;
    }
  }

  lemma MapBagUpdate<K>(m: map<K, multiset<Rec>>, k: K, v: multiset<Rec>)
    ensures MapBag(m[k := v]) + BagAt(m, k) == MapBag(m) + v
  {
    MapBagSplit(m, k);
    MapBagSplit(m[k := v], k);
    assert m[k := v] - {k} == m - {k};
  }

  lemma Cancel(a: multiset<Rec>, b: multiset<Rec>, c: multiset<Rec>, d: multiset<Rec>)
    requires a + c == b + (c + d)
    ensures a == b + d
  {
    forall r ensures a[r] == (b + d)[r] {
      assert (a + c)[r] == (b + (c + d))[r];
    }
  }

  // ----- Where rows are -----

  ghost function MemBags(mem: map<nat, seq<Rec>>): map<nat, multiset<Rec>> { map k | k in mem :: multiset(mem[k]) }

  ghost function MemBag(mem: map<nat, seq<Rec>>): multiset<Rec> { MapBag(MemBags(mem)) }

  ghost function PartBags(parts: map<Place, SigPart>): map<Place, multiset<Rec>> {
    map at | at in parts :: multiset(AllRows(parts[at].tables))
  }

  ghost function PartBag(parts: map<Place, SigPart>): multiset<Rec> { MapBag(PartBags(parts)) }

  ghost function QueueBag(queue: seq<Frozen>): multiset<Rec> {
    if queue == [] then multiset{} else QueueBag(queue[..|queue| - 1]) + multiset(queue[|queue| - 1].rows)
  }

  ghost function SendBag(f: Option<Frozen>): multiset<Rec> {
    match f case None => multiset{} case Some(x) => multiset(x.rows)
  }

  /** How to weigh each part of the state. The lemmas on steps take it as a parameter, so that
      each of them looks into the part it moves and no other. */
  datatype Gauge = Gauge(
    mem: map<nat, seq<Rec>> -> multiset<Rec>,
    parts: map<Place, SigPart> -> multiset<Rec>,
    queue: seq<Frozen> -> multiset<Rec>,
    tables: seq<Table> -> multiset<Rec>,
    later: (seq<Rec>, nat) -> multiset<Rec>)
  {
    ghost predicate Valid() {
      && (forall m {:trigger MemBag(m)} :: mem(m) == MemBag(m))
      && (forall p {:trigger PartBag(p)} :: parts(p) == PartBag(p))
      && (forall q {:trigger QueueBag(q)} :: queue(q) == QueueBag(q))
      && (forall ts {:trigger AllRows(ts)} :: tables(ts) == multiset(AllRows(ts)))
      && (forall rows, stage {:trigger Later(rows, stage)} :: later(rows, stage) == multiset(Later(rows, stage)))
    }
  }

  ghost const GAUGE: Gauge :=
    Gauge(m => MemBag(m), p => PartBag(p), q => QueueBag(q), ts => multiset(AllRows(ts)),
          (rows: seq<Rec>, stage: nat) => multiset(Later(rows, stage)))

  lemma GaugeValid()
    ensures GAUGE.Valid()
  {
  }

  /** Rows the flush worker still holds: the SSTable it is writing and the later signals */
  ghost function FlushBag(g: Gauge, f: Flush): multiset<Rec> {
    match f
    case Idle => multiset{}
    case Flushing(job, stage, None) => g.later(job.rows, stage)
    case Flushing(job, stage, Some(p)) => multiset(p.rows) + g.later(job.rows, stage + 1)
  }

  ghost function CompactionBag(g: Gauge, c: Compaction): multiset<Rec> {
    if c.Drained? || c.Merging? then g.tables(c.inputs) else multiset{}
  }

  /** Memory: active tables, the table being sent, the queue and the flush worker */
  ghost function InMemory(s: State): multiset<Rec> {
    MemBag(s.mem) + SendBag(s.sending) + QueueBag(s.queue) + FlushBag(GAUGE, s.flush)
  }

  ghost function OnDisk(s: State): multiset<Rec> { PartBag(s.parts) + CompactionBag(GAUGE, s.compaction) }

  /** The books balance for one record. */
  ghost predicate Balanced(g: Gauge, s: State, x: Rec) {
    s.accepted[x] == g.mem(s.mem)[x] + SendBag(s.sending)[x] + g.queue(s.queue)[x] + FlushBag(g, s.flush)[x]
                     + g.parts(s.parts)[x] + CompactionBag(g, s.compaction)[x] + s.dropped[x] + s.orphaned[x]
  }

  ghost predicate Conserved(s: State) { forall x :: Balanced(GAUGE, s, x) }

  /** Accepted rows are the rows in memory, the rows on disk, the rows booked as dropped and
      the rows left behind by failed compactions. */
  lemma ConservedMeaning(s: State)
    ensures Conserved(s) <==> s.accepted == InMemory(s) + OnDisk(s) + s.dropped + s.orphaned
  {
    var sum := InMemory(s) + OnDisk(s) + s.dropped + s.orphaned;
    forall x ensures Balanced(GAUGE, s, x) <==> s.accepted[x] == sum[x] {
    }
    if Conserved(s) {
      forall x ensures s.accepted[x] == sum[x] { assert Balanced(GAUGE, s, x); }
    }
  }

  // ----- Lemmas on the pieces -----

  lemma MemUpdate(mem: map<nat, seq<Rec>>, key: nat, rows: seq<Rec>)
    ensures MemBag(mem[key := rows]) + multiset(MemAt(mem, key)) == MemBag(mem) + multiset(rows)
  {
    assert MemBags(mem[key := rows]) == MemBags(mem)[key := multiset(rows)];
    MapBagUpdate(MemBags(mem), key, multiset(rows));
  }

  lemma MemRemove(mem: map<nat, seq<Rec>>, key: nat)
    requires key in mem
    ensures MemBag(mem - {key}) + multiset(mem[key]) == MemBag(mem)
  {
    assert MemBags(mem - {key}) == MemBags(mem) - {key};
    MapBagSplit(MemBags(mem), key);
  }

  lemma PartUpdate(parts: map<Place, SigPart>, at: Place, part: SigPart)
    ensures PartBag(parts[at := part]) + multiset(AllRows(PartAt(parts, at).tables)) == PartBag(parts) + multiset(AllRows(part.tables))
  {
    assert PartBags(parts[at := part]) == PartBags(parts)[at := multiset(AllRows(part.tables))];
    MapBagUpdate(PartBags(parts), at, multiset(AllRows(part.tables)));
  }

  /** Handing out a number moves no row. */
  lemma PartNumber(parts: map<Place, SigPart>, at: Place, next: nat)
    ensures PartBag(parts[at := SigPart(PartAt(parts, at).tables, next)]) == PartBag(parts)
  {
    var before := multiset(AllRows(PartAt(parts, at).tables));
    PartUpdate(parts, at, SigPart(PartAt(parts, at).tables, next));
    Cancel(PartBag(parts[at := SigPart(PartAt(parts, at).tables, next)]), PartBag(parts), before, multiset{});
  }

  lemma AllRowsSnoc(tables: seq<Table>, t: Table)
    ensures AllRows(tables + [t]) == AllRows(tables) + t.rows
  {
    assert (tables + [t])[..|tables|] == tables;
  }

  lemma PartAdd(parts: map<Place, SigPart>, at: Place, t: Table)
    ensures PartBag(Added(parts, at, t)) == PartBag(parts) + multiset(t.rows)
  {
    var part := PartAt(parts, at);
    AllRowsSnoc(part.tables, t);
    PartUpdate(parts, at, SigPart(part.tables + [t], part.next));
    Cancel(PartBag(Added(parts, at, t)), PartBag(parts), multiset(AllRows(part.tables)), multiset(t.rows));
  }

  lemma QueueSnoc(queue: seq<Frozen>, f: Frozen)
    ensures QueueBag(queue + [f]) == QueueBag(queue) + multiset(f.rows)
  {
    assert (queue + [f])[..|queue|] == queue;
  }

  lemma {:induction false} QueueFront(queue: seq<Frozen>)
    requires queue != []
    ensures QueueBag(queue) == multiset(queue[0].rows) + QueueBag(queue[1..])
  {
    if |queue| == 1 {
      assert queue[..0] == [];
    } else {
      var init, last := queue[..|queue| - 1], queue[|queue| - 1];
      QueueFront(init);
      assert queue[1..] == init[1..] + [last];
      QueueSnoc(init[1..], last);
    }
  }

  lemma {:induction false} LaterSplits(rows: seq<Rec>, stage: nat)
    ensures multiset(Later(rows, stage)) == multiset(OfSignal(rows, stage)) + multiset(Later(rows, stage + 1))
  {
    if rows != [] { LaterSplits(rows[..|rows| - 1], stage); }
  }

  ghost predicate Known(rows: seq<Rec>) { forall i | 0 <= i < |rows| :: rows[i].signal < 3 }

  lemma {:induction false} LaterAll(rows: seq<Rec>)
    requires Known(rows)
    ensures Later(rows, 0) == rows && Later(rows, 3) == []
  {
    if rows != [] {
      LaterAll(rows[..|rows| - 1]);
      assert rows == rows[..|rows| - 1] + [rows[|rows| - 1]];
    }
  }

  lemma {:induction false} DecodableSplits(rows: seq<Rec>)
    ensures multiset(rows) == multiset(Decodable(rows, true)) + multiset(Decodable(rows, false))
  {
    if rows != [] {
      DecodableSplits(rows[..|rows| - 1]);
      assert rows == rows[..|rows| - 1] + [rows[|rows| - 1]];
    }
  }

  lemma DrainBag(rows: seq<Rec>, signal: nat)
    ensures multiset(DrainSignal(rows, signal)) == multiset(OfSignal(rows, signal))
  {
    StableSortSorts(TimeOf, OfSignal(rows, signal));
  }

  // ----- Steps -----

  /** Signals on the way to disk are the three there are. */
  ghost predicate KnownSignals(s: State) {
    && (forall i | 0 <= i < |s.queue| :: Known(s.queue[i].rows))
    && (s.flush.Flushing? ==> Known(s.flush.job.rows) && (s.flush.stage >= 3 ==> s.flush.pending.None?))
  }

  lemma MemUpdateAt(mem: map<nat, seq<Rec>>, key: nat, rows: seq<Rec>, x: Rec)
    ensures MemBag(mem[key := rows])[x] + multiset(MemAt(mem, key))[x] == MemBag(mem)[x] + multiset(rows)[x]
  {
    MemUpdate(mem, key, rows);
    assert (MemBag(mem[key := rows]) + multiset(MemAt(mem, key)))[x] == (MemBag(mem) + multiset(rows))[x];
  }

  lemma SnocAt(rows: seq<Rec>, r: Rec, x: Rec)
    ensures multiset(rows + [r])[x] == multiset(rows)[x] + multiset{r}[x]
  {
  }

  /** The row goes into its memtable. */
  lemma InsertBalances(g: Gauge, s: State, key: nat, r: Rec, x: Rec)
    requires g.Valid() && Balanced(g, s, x)
    ensures Balanced(g, s.(accepted := s.accepted + multiset{r}, mem := s.mem[key := MemAt(s.mem, key) + [r]]), x)
  {
    MemUpdateAt(s.mem, key, MemAt(s.mem, key) + [r], x);
    SnocAt(MemAt(s.mem, key), r, x);
  }

  /** A memtable goes to the end of the queue, or is lost. */
  lemma FreezeBalances(g: Gauge, s: State, key: nat, x: Rec)
    requires g.Valid() && Balanced(g, s, x) && key in s.mem
    ensures Balanced(g, s.(mem := s.mem[key := []], queue := s.queue + [Frozen(key, s.mem[key])]), x)
    ensures Balanced(g, s.(mem := s.mem[key := []], dropped := s.dropped + multiset(s.mem[key])), x)
  {
    MemUpdateAt(s.mem, key, [], x);
    QueueSnoc(s.queue, Frozen(key, s.mem[key]));
  }

  lemma WriteBalances(g: Gauge, cfg: Config, s: State, r: Rec, x: Rec)
    requires cfg.Valid() && g.Valid() && Balanced(g, s, x)
    ensures Balanced(g, Written(cfg, s, r), x)
  {
    var key := BucketOf(r.ts, cfg.bucket);
    var t := s.(accepted := s.accepted + multiset{r}, mem := s.mem[key := MemAt(s.mem, key) + [r]]);
    InsertBalances(g, s, key, r, x);
    FreezeBalances(g, t, key, x);
    WrittenCases(cfg, s, r, key, t);
  }

  lemma WrittenCases(cfg: Config, s: State, r: Rec, key: nat, t: State)
    requires cfg.Valid() && key == BucketOf(r.ts, cfg.bucket)
    requires t == s.(accepted := s.accepted + multiset{r}, mem := s.mem[key := MemAt(s.mem, key) + [r]])
    ensures Written(cfg, s, r) in {
      t,
      t.(mem := t.mem[key := []], queue := t.queue + [Frozen(key, t.mem[key])]),
      t.(mem := t.mem[key := []], dropped := t.dropped + multiset(t.mem[key]))}
  {
    assert t.mem[key := []] == s.mem[key := []];
  }

  lemma WriteFailsBalances(g: Gauge, s: State, key: nat, x: Rec)
    requires g.Valid() && Balanced(g, s, x)
    ensures Balanced(g, s.(mem := s.mem[key := MemAt(s.mem, key)]), x)
  {
    var rows := MemAt(s.mem, key);
    MemUpdate(s.mem, key, rows);
    assert (MemBag(s.mem[key := rows]) + multiset(rows))[x] == (MemBag(s.mem) + multiset(rows))[x];
  }

  lemma TakeBalances(g: Gauge, cfg: Config, s: State, key: nat, x: Rec)
    requires cfg.Valid() && g.Valid() && Balanced(g, s, x) && Enabled(cfg, s, Take(key))
    ensures Balanced(g, Step(cfg, s, Take(key)), x)
  {
    MemRemove(s.mem, key);
  }

  lemma SendBalances(g: Gauge, cfg: Config, s: State, x: Rec)
    requires cfg.Valid() && g.Valid() && Balanced(g, s, x) && Enabled(cfg, s, Send)
    ensures Balanced(g, Step(cfg, s, Send), x)
  {
    QueueSnoc(s.queue, s.sending.value);
  }

  lemma DequeueBalances(g: Gauge, cfg: Config, s: State, x: Rec)
    requires cfg.Valid() && g.Valid() && Balanced(g, s, x) && Enabled(cfg, s, Dequeue) && KnownSignals(s)
    ensures Balanced(g, Step(cfg, s, Dequeue), x)
  {
    QueueFront(s.queue);
    LaterAll(s.queue[0].rows);
  }

  /** Rows move from the flush worker to the dropped ones while a number is handed out. */
  lemma NumberedBalances(g: Gauge, s: State, at: Place, next: nat, flush: Flush, lost: multiset<Rec>, x: Rec)
    requires g.Valid() && Balanced(g, s, x) && FlushBag(g, s.flush)[x] == FlushBag(g, flush)[x] + lost[x]
    ensures Balanced(g, s.(parts := s.parts[at := SigPart(PartAt(s.parts, at).tables, next)],
                        dropped := s.dropped + lost, flush := flush), x)
  {
    PartNumber(s.parts, at, next);
  }

  /** Rows move from the flush worker to a new table. */
  lemma AddedBalances(g: Gauge, s: State, at: Place, t: Table, flush: Flush, disk: Disk, x: Rec)
    requires g.Valid() && Balanced(g, s, x) && FlushBag(g, s.flush)[x] == FlushBag(g, flush)[x] + multiset(t.rows)[x]
    ensures Balanced(g, s.(parts := Added(s.parts, at, t), disk := disk, flush := flush), x)
  {
    PartAdd(s.parts, at, t);
  }

  lemma RegisteredBag(g: Gauge, job: Frozen, stage: nat, p: Pending, x: Rec)
    ensures FlushBag(g, Flushing(job, stage, Some(p)))[x] == FlushBag(g, Flushing(job, stage + 1, None))[x] + multiset(p.rows)[x]
  {
  }

  lemma AllocatedBag(g: Gauge, job: Frozen, stage: nat, p: Pending, lost: nat, x: Rec)
    requires g.later(job.rows, stage)[x] == multiset(p.rows)[x] + lost + g.later(job.rows, stage + 1)[x]
    ensures FlushBag(g, Flushing(job, stage, None))[x] == FlushBag(g, Flushing(job, stage, Some(p)))[x] + lost
  {
  }

  lemma SkippedBag(g: Gauge, job: Frozen, stage: nat, x: Rec)
    requires g.later(job.rows, stage)[x] == g.later(job.rows, stage + 1)[x]
    ensures FlushBag(g, Flushing(job, stage, None))[x] == FlushBag(g, Flushing(job, stage + 1, None))[x]
  {
  }

  lemma SkipBalances(g: Gauge, s: State, flush: Flush, x: Rec)
    requires g.Valid() && Balanced(g, s, x) && FlushBag(g, s.flush)[x] == FlushBag(g, flush)[x]
    ensures Balanced(g, s.(flush := flush), x)
  {
  }

  /** Rows of the current signal split into decodable and lost ones. */
  ghost predicate Splits(g: Gauge, s: State, good: seq<Rec>, bad: seq<Rec>, x: Rec)
    requires s.flush.Flushing?
  {
    g.later(s.flush.job.rows, s.flush.stage)[x] ==
    multiset(good)[x] + multiset(bad)[x] + g.later(s.flush.job.rows, s.flush.stage + 1)[x]
  }

  lemma AllocateNothing(g: Gauge, s: State, x: Rec)
    requires g.Valid() && Balanced(g, s, x) && s.flush.Flushing? && s.flush.pending.None? && Splits(g, s, [], [], x)
    ensures Balanced(g, s.(flush := Flushing(s.flush.job, s.flush.stage + 1, None)), x)
  {
    SkippedBag(g, s.flush.job, s.flush.stage, x);
    SkipBalances(g, s, Flushing(s.flush.job, s.flush.stage + 1, None), x);
  }

  lemma AllocateNumber(g: Gauge, s: State, at: Place, p: Pending, bad: seq<Rec>, x: Rec)
    requires g.Valid() && Balanced(g, s, x) && s.flush.Flushing? && s.flush.pending.None? && Splits(g, s, p.rows, bad, x)
    ensures Balanced(g, s.(parts := s.parts[at := SigPart(PartAt(s.parts, at).tables, p.seqno + 1)],
                        dropped := s.dropped + multiset(bad), flush := Flushing(s.flush.job, s.flush.stage, Some(p))), x)
  {
    AllocatedBag(g, s.flush.job, s.flush.stage, p, multiset(bad)[x], x);
    NumberedBalances(g, s, at, p.seqno + 1, Flushing(s.flush.job, s.flush.stage, Some(p)), multiset(bad), x);
  }

  lemma AllocateBalances(g: Gauge, s: State, none: bool, good: seq<Rec>, bad: seq<Rec>, x: Rec)
    requires g.Valid() && Balanced(g, s, x) && s.flush.Flushing? && s.flush.pending.None? && Splits(g, s, good, bad, x)
    requires none ==> good == [] && bad == []
    ensures Balanced(g, Allocated(s, none, good, bad), x)
  {
    if none {
      AllocateNothing(g, s, x);
    } else {
      var at := Place(s.flush.job.key, s.flush.stage);
      AllocateNumber(g, s, at, Pending(PartAt(s.parts, at).next, good), bad, x);
    }
  }

  lemma DrainedBag(rows: seq<Rec>, stage: nat, x: Rec)
    ensures multiset(Later(rows, stage))[x] == multiset(DrainSignal(rows, stage))[x] + multiset(Later(rows, stage + 1))[x]
  {
    LaterSplits(rows, stage);
    DrainBag(rows, stage);
  }

  lemma DecodedBag(rows: seq<Rec>, x: Rec)
    ensures multiset(rows)[x] == multiset(Decodable(rows, true))[x] + multiset(Decodable(rows, false))[x]
  {
    DecodableSplits(rows);
  }

  lemma AllocateRows(g: Gauge, s: State, rows: seq<Rec>, x: Rec)
    requires g.Valid() && Balanced(g, s, x) && s.flush.Flushing? && s.flush.pending.None? && Splits(g, s, rows, [], x)
    ensures Balanced(g, Allocated(s, rows == [], Decodable(rows, true), Decodable(rows, false)), x)
  {
    DecodedBag(rows, x);
    AllocateBalances(g, s, rows == [], Decodable(rows, true), Decodable(rows, false), x);
  }

  lemma AllocateStepBalances(g: Gauge, cfg: Config, s: State, x: Rec)
    requires cfg.Valid() && g.Valid() && Balanced(g, s, x) && Enabled(cfg, s, Allocate)
    ensures Balanced(g, Step(cfg, s, Allocate), x)
  {
    DrainedBag(s.flush.job.rows, s.flush.stage, x);
    AllocateRows(g, s, DrainSignal(s.flush.job.rows, s.flush.stage), x);
  }

  lemma RegisterBalances(g: Gauge, s: State, t: Table, x: Rec)
    requires g.Valid() && Balanced(g, s, x) && s.flush.Flushing? && s.flush.pending.Some? && t.rows == s.flush.pending.value.rows
    ensures Balanced(g, Registered(s, t), x)
  {
    var job, stage, p := s.flush.job, s.flush.stage, s.flush.pending.value;
    RegisteredBag(g, job, stage, p, x);
    var at := Place(job.key, stage);
    AddedBalances(g, s, at, t, Flushing(job, stage + 1, None), Put(s.disk, at, t.seqno, Some(t)), x);
  }

  lemma LoseRestBalances(g: Gauge, s: State, rest: multiset<Rec>, disk: Disk, x: Rec)
    requires g.Valid() && Balanced(g, s, x) && s.flush.Flushing? && s.flush.pending.Some?
    requires rest == g.later(s.flush.job.rows, s.flush.stage + 1)
    ensures Balanced(g, s.(dropped := s.dropped + multiset(s.flush.pending.value.rows) + rest, disk := disk, flush := Idle), x)
  {
  }

  lemma FlushErrorBalances(g: Gauge, cfg: Config, s: State, torn: bool, x: Rec)
    requires cfg.Valid() && g.Valid() && Balanced(g, s, x) && Enabled(cfg, s, FlushError(torn))
    ensures Balanced(g, Step(cfg, s, FlushError(torn)), x)
  {
    var p := s.flush.pending.value;
    LoseRestBalances(g, s, multiset(Later(s.flush.job.rows, s.flush.stage + 1)),
                     Torn(torn, s.disk, Place(s.flush.job.key, s.flush.stage), p.seqno), x);
  }

  lemma FinishBalances(g: Gauge, cfg: Config, s: State, x: Rec)
    requires cfg.Valid() && g.Valid() && Balanced(g, s, x) && Enabled(cfg, s, FinishFlush) && KnownSignals(s)
    requires s.flush.pending.None?
    ensures Balanced(g, Step(cfg, s, FinishFlush), x)
  {
    LaterAll(s.flush.job.rows);
  }

  lemma BeginBalances(g: Gauge, cfg: Config, s: State, at: Place, x: Rec)
    requires cfg.Valid() && g.Valid() && Balanced(g, s, x) && Enabled(cfg, s, BeginCompaction(at))
    ensures Balanced(g, Step(cfg, s, BeginCompaction(at)), x)
  {
    var part := PartAt(s.parts, at);
    PartUpdate(s.parts, at, SigPart([], part.next));
    assert (PartBag(s.parts[at := SigPart([], part.next)]) + multiset(AllRows(part.tables)))[x] == (PartBag(s.parts) + multiset([]))[x];
  }

  lemma NumberBalances(g: Gauge, cfg: Config, s: State, x: Rec)
    requires cfg.Valid() && g.Valid() && Balanced(g, s, x) && Enabled(cfg, s, NumberCompaction)
    ensures Balanced(g, Step(cfg, s, NumberCompaction), x)
  {
    PartNumber(s.parts, s.compaction.at, PartAt(s.parts, s.compaction.at).next + 1);
  }

  lemma EndBalances(g: Gauge, s: State, t: Table, x: Rec)
    requires g.Valid() && Balanced(g, s, x) && s.compaction.Merging? && multiset(t.rows) <= multiset(AllRows(s.compaction.inputs))
    ensures Balanced(g, Merged(s, t), x)
  {
    PartAdd(s.parts, s.compaction.at, t);
    assert multiset(t.rows)[x] <= multiset(AllRows(s.compaction.inputs))[x];
  }

  lemma AbandonBalances(g: Gauge, cfg: Config, s: State, e: Event, x: Rec)
    requires cfg.Valid() && g.Valid() && Balanced(g, s, x) && (e.NothingReadable? || e.CompactionError?) && Enabled(cfg, s, e)
    ensures Balanced(g, Step(cfg, s, e), x)
  {
  }

  lemma DeletionBalances(g: Gauge, cfg: Config, s: State, e: Event, x: Rec)
    requires cfg.Valid() && g.Valid() && Balanced(g, s, x) && (e.DeleteInput? || e.FinishCompaction?) && Enabled(cfg, s, e)
    ensures Balanced(g, Step(cfg, s, e), x)
  {
  }

  /** What a directory holds is taken in when it is opened. */
  lemma OpenBalances(g: Gauge, s: State, at: Place, part: SigPart, x: Rec)
    requires g.Valid() && Balanced(g, s, x) && at !in s.parts
    ensures Balanced(g, s.(parts := s.parts[at := part], accepted := s.accepted + multiset(AllRows(part.tables))), x)
  {
    PartUpdate(s.parts, at, part);
    assert AllRows([]) == [];
    assert (PartBag(s.parts[at := part]) + multiset(AllRows([])))[x] == (PartBag(s.parts) + multiset(AllRows(part.tables)))[x];
  }

  /** No step creates or loses a row without booking it. */
  lemma StepConserves(cfg: Config, s: State, e: Event)
    requires cfg.Valid() && Conserved(s) && KnownSignals(s) && Enabled(cfg, s, e)
    ensures Conserved(Step(cfg, s, e))
  {
    GaugeValid();
    forall x ensures Balanced(GAUGE, Step(cfg, s, e), x) {
      assert Balanced(GAUGE, s, x);
      StepBalances(GAUGE, cfg, s, e, x);
    }
  }

  lemma StepBalances(g: Gauge, cfg: Config, s: State, e: Event, x: Rec)
    requires cfg.Valid() && g.Valid() && Balanced(g, s, x) && KnownSignals(s) && Enabled(cfg, s, e)
    ensures Balanced(g, Step(cfg, s, e), x)
  {
    match e
    case OpenSignal(at) => OpenBalances(g, s, at, Loaded(DirAt(s.disk, at)), x);
    case Write(r) => WriteBalances(g, cfg, s, r, x);
    case WriteFails(r) => WriteFailsBalances(g, s, BucketOf(r.ts, cfg.bucket), x);
    case Take(key) => TakeBalances(g, cfg, s, key, x);
    case Send => SendBalances(g, cfg, s, x);
    case Dequeue => DequeueBalances(g, cfg, s, x);
    case Allocate => AllocateStepBalances(g, cfg, s, x);
    case Register => RegisterBalances(g, s, NewTable(s.flush.pending.value.seqno, s.flush.pending.value.rows), x);
    case FlushError(torn) => FlushErrorBalances(g, cfg, s, torn, x);
    case FinishFlush => FinishBalances(g, cfg, s, x);
    case BeginCompaction(at) => BeginBalances(g, cfg, s, at, x);
    case NumberCompaction => NumberBalances(g, cfg, s, x);
    case EndCompaction(kept) => EndBalances(g, s, NewTable(s.compaction.seqno, kept), x);
    case NothingReadable => AbandonBalances(g, cfg, s, e, x);
    case CompactionError(_) => AbandonBalances(g, cfg, s, e, x);
    case DeleteInput(_, _) => DeletionBalances(g, cfg, s, e, x);
    case FinishCompaction => DeletionBalances(g, cfg, s, e, x);
  }
}
