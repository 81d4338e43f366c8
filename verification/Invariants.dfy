/** What every reachable state of the engine keeps: rows lie in the partition of their time
    and signal, sequence numbers are fresh, zone maps are exact, the queue is bounded. */
module Invariants {
  import opened Options
  import opened Sorting
  import opened ZoneMap
  import opened Partition
  import opened Engine
  import Conservation

  /** Rows of any signal in the bucket that starts at `key` */
  ghost predicate Belongs(cfg: Config, rows: seq<Rec>, key: nat)
    requires cfg.Valid()
  {
    forall r | r in rows :: r.signal < 3 && InBucket(r.ts, key, cfg.bucket)
  }

  ghost predicate RowsAt(cfg: Config, rows: seq<Rec>, at: Place)
    requires cfg.Valid()
  {
    forall r | r in rows :: r.signal == at.signal && InBucket(r.ts, at.key, cfg.bucket)
  }

  /** Rows in place under an exact zone map; a table whose data is gone has no rows. */
  ghost predicate Sound(cfg: Config, t: Table, at: Place)
    requires cfg.Valid()
  {
    RowsAt(cfg, t.rows, at) && (t.rows != [] ==> Exact(t))
  }

  ghost predicate TablesAt(cfg: Config, tables: seq<Table>, at: Place)
    requires cfg.Valid()
  {
    forall t | t in tables :: Sound(cfg, t, at)
  }

  ghost predicate DirOk(cfg: Config, dir: Directory, at: Place)
    requires cfg.Valid()
  {
    forall n | n in dir && dir[n].Some? :: dir[n].value.seqno == n && Sound(cfg, dir[n].value, at)
  }

  ghost predicate DiskOk(cfg: Config, disk: Disk)
    requires cfg.Valid()
  {
    forall at | at in disk :: DirOk(cfg, disk[at], at)
  }

  /** Each table's files are in the directory, under its number. */
  ghost predicate Filed(dir: Directory, tables: seq<Table>) {
    forall t | t in tables :: t.seqno in dir && dir[t.seqno] == Some(t)
  }

  ghost predicate PartOk(part: SigPart, dir: Directory) {
    Filed(dir, part.tables) && DistinctSeqs(part.tables) && forall n | n in dir :: n < part.next
  }

  ghost predicate PartsOk(parts: map<Place, SigPart>, disk: Disk) {
    forall at | at in parts :: PartOk(parts[at], DirAt(disk, at))
  }

  /** A number handed out under which there is no file yet */
  ghost predicate Reserved(parts: map<Place, SigPart>, disk: Disk, at: Place, n: nat) {
    at in parts && n < parts[at].next && n !in DirAt(disk, at)
  }

  ghost predicate FrozenOk(cfg: Config, parts: map<Place, SigPart>, f: Frozen)
    requires cfg.Valid()
  {
    Belongs(cfg, f.rows, f.key) && IsOpen(parts, f.key)
  }

  ghost predicate MemOk(cfg: Config, s: State)
    requires cfg.Valid()
  {
    && (forall k | k in s.mem :: Belongs(cfg, s.mem[k], k) && (s.mem[k] != [] ==> IsOpen(s.parts, k)))
    && (forall f | f in s.queue :: FrozenOk(cfg, s.parts, f))
    && (s.sending.Some? ==> FrozenOk(cfg, s.parts, s.sending.value))
    && |s.queue| <= QUEUE_CAPACITY
  }

  function FlushPlace(f: Flush): Place
    requires f.Flushing?
  {
    Place(f.job.key, f.stage)
  }

  ghost predicate FlushOk(cfg: Config, parts: map<Place, SigPart>, disk: Disk, f: Flush)
    requires cfg.Valid()
  {
    f.Flushing? ==>
      && FrozenOk(cfg, parts, f.job) && f.stage <= 3
      && (f.pending.Some? ==>
            && f.stage < 3 && RowsAt(cfg, f.pending.value.rows, FlushPlace(f))
            && Reserved(parts, disk, FlushPlace(f), f.pending.value.seqno))
  }

  /** The inputs keep their files and their numbers, which no listed table has. */
  ghost predicate InputsOk(parts: map<Place, SigPart>, disk: Disk, at: Place, inputs: seq<Table>) {
    at in parts && Filed(DirAt(disk, at), inputs) && DistinctSeqs(parts[at].tables + inputs)
  }

  ghost predicate CompactionOk(parts: map<Place, SigPart>, disk: Disk, c: Compaction) {
    && (!c.Resting? ==> InputsOk(parts, disk, c.at, c.inputs))
    && (c.Merging? ==> Reserved(parts, disk, c.at, c.seqno))
  }

  /** The two workers never hold the same number. */
  ghost predicate Apart(f: Flush, c: Compaction) {
    f.Flushing? && f.pending.Some? && c.Merging? && c.at == FlushPlace(f) ==> f.pending.value.seqno != c.seqno
  }

  ghost predicate Inv(cfg: Config, s: State)
    requires cfg.Valid()
  {
    && MemOk(cfg, s) && DiskOk(cfg, s.disk) && PartsOk(s.parts, s.disk)
    && FlushOk(cfg, s.parts, s.disk, s.flush) && CompactionOk(s.parts, s.disk, s.compaction) && Apart(s.flush, s.compaction)
  }

  // ----- Rows taken from rows -----

  lemma {:induction false} OfSignalRows(rows: seq<Rec>, signal: nat, r: Rec)
    requires r in OfSignal(rows, signal)
    ensures r in rows && r.signal == signal
  {
    if r in OfSignal(rows[..|rows| - 1], signal) { OfSignalRows(rows[..|rows| - 1], signal, r); }
  }

  lemma {:induction false} DecodableRows(rows: seq<Rec>, yes: bool, r: Rec)
    requires r in Decodable(rows, yes)
    ensures r in rows && r.decodes == yes
  {
    if r in Decodable(rows[..|rows| - 1], yes) { DecodableRows(rows[..|rows| - 1], yes, r); }
  }

  lemma DrainedAt(cfg: Config, rows: seq<Rec>, at: Place)
    requires cfg.Valid() && Belongs(cfg, rows, at.key)
    ensures RowsAt(cfg, DrainSignal(rows, at.signal), at)
  {
    forall r | r in DrainSignal(rows, at.signal) ensures r.signal == at.signal && InBucket(r.ts, at.key, cfg.bucket) {
      StableSortSorts(TimeOf, OfSignal(rows, at.signal));
      assert r in multiset(DrainSignal(rows, at.signal));
      assert r in OfSignal(rows, at.signal);
      OfSignalRows(rows, at.signal, r);
    }
  }

  lemma DecodableAt(cfg: Config, rows: seq<Rec>, at: Place)
    requires cfg.Valid() && RowsAt(cfg, rows, at)
    ensures RowsAt(cfg, Decodable(rows, true), at)
  {
    forall r | r in Decodable(rows, true) ensures r.signal == at.signal && InBucket(r.ts, at.key, cfg.bucket) {
      DecodableRows(rows, true, r);
    }
  }

  lemma {:induction false} AllRowsAt(cfg: Config, tables: seq<Table>, at: Place)
    requires cfg.Valid() && TablesAt(cfg, tables, at)
    ensures RowsAt(cfg, AllRows(tables), at)
  {
    if tables != [] {
      AllRowsAt(cfg, tables[..|tables| - 1], at);
      assert tables[|tables| - 1] in tables;
    }
  }

  lemma KeptAt(cfg: Config, tables: seq<Table>, kept: seq<Rec>, at: Place)
    requires cfg.Valid() && TablesAt(cfg, tables, at) && multiset(kept) <= multiset(AllRows(tables))
    ensures RowsAt(cfg, kept, at)
  {
    AllRowsAt(cfg, tables, at);
    forall r | r in kept ensures r in AllRows(tables) {
      assert r in multiset(kept);
      assert r in multiset(AllRows(tables));
    }
  }

  // ----- Directories -----

  lemma DirAtOk(cfg: Config, disk: Disk, at: Place)
    requires cfg.Valid() && DiskOk(cfg, disk)
    ensures DirOk(cfg, DirAt(disk, at), at)
  {
  }

  lemma FiledAt(cfg: Config, disk: Disk, tables: seq<Table>, at: Place)
    requires cfg.Valid() && DiskOk(cfg, disk) && Filed(DirAt(disk, at), tables)
    ensures TablesAt(cfg, tables, at)
  {
    DirAtOk(cfg, disk, at);
  }

  /** Writing under a reserved number replaces no file: what has files keeps them. */
  lemma PutKeepsFiled(dir: Directory, tables: seq<Table>, n: nat, file: Option<Table>)
    requires Filed(dir, tables) && n !in dir
    ensures Filed(dir[n := file], tables)
  {
  }

  /** Opening a directory lists its readable tables under fresh numbers. */
  lemma LoadedOk(cfg: Config, dir: Directory, at: Place)
    requires cfg.Valid() && DirOk(cfg, dir, at)
    ensures PartOk(Loaded(dir), dir)
  {
    AscendingMeaning(dir, MaxKey(dir) + 1);
    MaxKeyBounds(dir);
    var tables := Loaded(dir).tables;
    forall i, j | 0 <= i < j < |tables| ensures tables[i].seqno != tables[j].seqno { assert tables[i].seqno < tables[j].seqno; }
  }

  /** A table with a reserved number is filed and listed. */
  lemma AddOk(part: SigPart, dir: Directory, t: Table)
    requires PartOk(part, dir) && t.seqno < part.next && t.seqno !in dir
    ensures PartOk(SigPart(part.tables + [t], part.next), dir[t.seqno := Some(t)])
  {
    DistinctSnoc(part.tables, t);
    PutKeepsFiled(dir, part.tables, t.seqno, Some(t));
  }

  /** Its number is none of the inputs'. */
  lemma AddKeepsInputs(part: SigPart, dir: Directory, inputs: seq<Table>, t: Table)
    requires Filed(dir, part.tables) && Filed(dir, inputs) && DistinctSeqs(part.tables + inputs) && t.seqno !in dir
    ensures Filed(dir[t.seqno := Some(t)], inputs) && DistinctSeqs(part.tables + [t] + inputs)
  {
    PutKeepsFiled(dir, inputs, t.seqno, Some(t));
    var before, after, n := part.tables + inputs, part.tables + [t] + inputs, |part.tables|;
    forall i, j | 0 <= i < j < |after| ensures after[i].seqno != after[j].seqno {
      if i < n { assert after[i] == before[i]; }
      if i > n { assert after[i] == before[i - 1]; }
      if j < n { assert after[j] == before[j]; }
      if j > n { assert after[j] == before[j - 1]; }
      assert forall k | 0 <= k < |before| :: before[k] in part.tables || before[k] in inputs;
    }
  }

  // ----- Steps that write a file -----

  lemma PutDiskOk(cfg: Config, disk: Disk, at: Place, n: nat, file: Option<Table>)
    requires cfg.Valid() && DiskOk(cfg, disk) && (file.Some? ==> file.value.seqno == n && Sound(cfg, file.value, at))
    ensures DiskOk(cfg, Put(disk, at, n, file))
  {
    DirAtOk(cfg, disk, at);
  }

  lemma AddedPartsOk(parts: map<Place, SigPart>, disk: Disk, at: Place, t: Table)
    requires PartsOk(parts, disk) && Reserved(parts, disk, at, t.seqno)
    ensures PartsOk(Added(parts, at, t), Put(disk, at, t.seqno, Some(t)))
  {
    AddOk(parts[at], DirAt(disk, at), t);
  }

  lemma AddedReserved(parts: map<Place, SigPart>, disk: Disk, at: Place, t: Table, other: Place, n: nat)
    requires Reserved(parts, disk, other, n) && at in parts && (other == at ==> n != t.seqno)
    ensures Reserved(Added(parts, at, t), Put(disk, at, t.seqno, Some(t)), other, n)
  {
  }

  lemma AddedInputsOk(parts: map<Place, SigPart>, disk: Disk, at: Place, t: Table, other: Place, inputs: seq<Table>)
    requires PartsOk(parts, disk) && InputsOk(parts, disk, other, inputs) && Reserved(parts, disk, at, t.seqno)
    ensures InputsOk(Added(parts, at, t), Put(disk, at, t.seqno, Some(t)), other, inputs)
  {
    if other == at { AddKeepsInputs(parts[at], DirAt(disk, at), inputs, t); }
  }

  lemma TornOk(cfg: Config, s: State, torn: bool, at: Place, n: nat, f: Flush, c: Compaction)
    requires cfg.Valid() && Inv(cfg, s) && Reserved(s.parts, s.disk, at, n)
    requires FlushOk(cfg, s.parts, s.disk, f) && CompactionOk(s.parts, s.disk, c) && Apart(f, c)
    requires f.Flushing? && f.pending.Some? && FlushPlace(f) == at ==> f.pending.value.seqno != n
    requires c.Merging? && c.at == at ==> c.seqno != n
    ensures var disk := Torn(torn, s.disk, at, n);
            && DiskOk(cfg, disk) && PartsOk(s.parts, disk)
            && FlushOk(cfg, s.parts, disk, f) && CompactionOk(s.parts, disk, c)
  {
    PutDiskOk(cfg, s.disk, at, n, None);
    PutKeepsFiled(DirAt(s.disk, at), s.parts[at].tables, n, None);
    if !c.Resting? && c.at == at { PutKeepsFiled(DirAt(s.disk, at), c.inputs, n, None); }
  }

  // ----- Steps that remove a file -----

  /** Removal by number takes away the one input of that number: all other tables that have
      files keep them. */
  lemma RemovedKeepsFiled(disk: Disk, at: Place, n: nat, data: bool, zone: bool, tables: seq<Table>)
    requires Filed(DirAt(disk, at), tables) && forall t | t in tables :: t.seqno != n
    ensures Filed(DirAt(Removed(disk, at, n, data, zone), at), tables)
  {
  }

  lemma RemovedDiskOk(cfg: Config, disk: Disk, at: Place, n: nat, data: bool, zone: bool)
    requires cfg.Valid() && DiskOk(cfg, disk)
    ensures DiskOk(cfg, Removed(disk, at, n, data, zone))
    ensures forall k | k in DirAt(Removed(disk, at, n, data, zone), at) :: k in DirAt(disk, at)
    ensures forall other | other != at :: DirAt(Removed(disk, at, n, data, zone), other) == DirAt(disk, other)
  {
  }

  lemma DeleteKeeps(cfg: Config, s: State, data: bool, zone: bool)
    requires cfg.Valid() && Inv(cfg, s) && Enabled(cfg, s, DeleteInput(data, zone))
    ensures Inv(cfg, Step(cfg, s, DeleteInput(data, zone)))
  {
    var at, inputs := s.compaction.at, s.compaction.inputs;
    var n, part := inputs[0].seqno, s.parts[at];
    RemovedDiskOk(cfg, s.disk, at, n, data, zone);
    HeadNumber(part.tables, inputs);
    RemovedKeepsFiled(s.disk, at, n, data, zone, part.tables);
    RemovedKeepsFiled(s.disk, at, n, data, zone, inputs[1..]);
  }

  lemma HeadNumber(tables: seq<Table>, inputs: seq<Table>)
    requires inputs != [] && DistinctSeqs(tables + inputs)
    ensures forall t | t in tables || t in inputs[1..] :: t.seqno != inputs[0].seqno
    ensures DistinctSeqs(tables + inputs[1..])
  {
    var all, rest, n := tables + inputs, tables + inputs[1..], |tables|;
    assert all[n] == inputs[0];
    forall i | 0 <= i < |rest| ensures rest[i] == all[if i < n then i else i + 1] && rest[i].seqno != all[n].seqno { }
    forall t | t in tables || t in inputs[1..] ensures t in rest { }
  }

  // ----- Steps -----

  lemma OpenKeeps(cfg: Config, s: State, at: Place)
    requires cfg.Valid() && Inv(cfg, s) && Enabled(cfg, s, OpenSignal(at))
    ensures Inv(cfg, Step(cfg, s, OpenSignal(at)))
  {
    DirAtOk(cfg, s.disk, at);
    LoadedOk(cfg, DirAt(s.disk, at), at);
    OpenKeepsOpen(s.parts, at, Loaded(DirAt(s.disk, at)));
  }

  lemma OpenKeepsOpen(parts: map<Place, SigPart>, at: Place, part: SigPart)
    ensures forall key | IsOpen(parts, key) :: IsOpen(parts[at := part], key)
  {
  }

  lemma RowBelongs(cfg: Config, s: State, r: Rec)
    requires cfg.Valid() && MemOk(cfg, s) && r.signal < 3
    ensures var key := BucketOf(r.ts, cfg.bucket); Belongs(cfg, MemAt(s.mem, key) + [r], key)
  {
    BucketIsUnique(r.ts, BucketOf(r.ts, cfg.bucket), cfg.bucket);
  }

  lemma StoreKeeps(cfg: Config, s: State, key: nat, rows: seq<Rec>, accepted: multiset<Rec>)
    requires cfg.Valid() && Inv(cfg, s) && Belongs(cfg, rows, key) && IsOpen(s.parts, key)
    ensures Inv(cfg, s.(accepted := accepted, mem := s.mem[key := rows]))
  {
  }

  lemma FreezeKeeps(cfg: Config, s: State, key: nat, dropped: multiset<Rec>)
    requires cfg.Valid() && Inv(cfg, s) && key in s.mem && IsOpen(s.parts, key)
    ensures Inv(cfg, s.(mem := s.mem[key := []], dropped := dropped))
    ensures |s.queue| < QUEUE_CAPACITY ==> Inv(cfg, s.(mem := s.mem[key := []], queue := s.queue + [Frozen(key, s.mem[key])]))
  {
  }

  lemma WriteKeeps(cfg: Config, s: State, r: Rec)
    requires cfg.Valid() && Inv(cfg, s) && Enabled(cfg, s, Write(r))
    ensures Inv(cfg, Written(cfg, s, r))
  {
    var key := BucketOf(r.ts, cfg.bucket);
    var rows := MemAt(s.mem, key) + [r];
    RowBelongs(cfg, s, r);
    StoreKeeps(cfg, s, key, rows, s.accepted + multiset{r});
    var t := s.(accepted := s.accepted + multiset{r}, mem := s.mem[key := rows]);
    FreezeKeeps(cfg, t, key, t.dropped + multiset(rows));
    assert t.mem[key := []] == s.mem[key := []];
  }

  lemma FlushAllKeeps(cfg: Config, s: State, e: Event)
    requires cfg.Valid() && Inv(cfg, s) && Enabled(cfg, s, e) && (e.WriteFails? || e.Take? || e.Send?)
    ensures Inv(cfg, Step(cfg, s, e))
  {
  }

  lemma DequeueKeeps(cfg: Config, s: State)
    requires cfg.Valid() && Inv(cfg, s) && Enabled(cfg, s, Dequeue)
    ensures Inv(cfg, Step(cfg, s, Dequeue))
  {
    assert s.queue[0] in s.queue;
    assert forall f | f in s.queue[1..] :: f in s.queue;
  }

  /** The next number of a directory is reserved once it is handed out, and is no older one. */
  lemma NumberOk(cfg: Config, s: State, at: Place)
    requires cfg.Valid() && Inv(cfg, s) && at in s.parts
    ensures var parts := s.parts[at := SigPart(s.parts[at].tables, s.parts[at].next + 1)];
            && PartsOk(parts, s.disk) && Reserved(parts, s.disk, at, s.parts[at].next)
            && (forall other, n | Reserved(s.parts, s.disk, other, n) ::
                  Reserved(parts, s.disk, other, n) && (other == at ==> n != s.parts[at].next))
            && (forall key | IsOpen(s.parts, key) :: IsOpen(parts, key))
            && CompactionOk(parts, s.disk, s.compaction)
  {
  }

  lemma AllocateKeeps(cfg: Config, s: State, good: seq<Rec>, bad: seq<Rec>)
    requires cfg.Valid() && Inv(cfg, s) && Enabled(cfg, s, Allocate) && RowsAt(cfg, good, FlushPlace(s.flush))
    ensures Inv(cfg, Allocated(s, false, good, bad))
  {
    NumberOk(cfg, s, FlushPlace(s.flush));
  }

  lemma AllocateStepKeeps(cfg: Config, s: State)
    requires cfg.Valid() && Inv(cfg, s) && Enabled(cfg, s, Allocate)
    ensures Inv(cfg, Step(cfg, s, Allocate))
  {
    var at := FlushPlace(s.flush);
    var rows := DrainSignal(s.flush.job.rows, at.signal);
    if rows != [] {
      DrainedAt(cfg, s.flush.job.rows, at);
      DecodableAt(cfg, rows, at);
      AllocateKeeps(cfg, s, Decodable(rows, true), Decodable(rows, false));
    }
  }

  lemma RegisterKeeps(cfg: Config, s: State, t: Table)
    requires cfg.Valid() && Inv(cfg, s) && Enabled(cfg, s, Register) && Exact(t)
    requires t.seqno == s.flush.pending.value.seqno && t.rows == s.flush.pending.value.rows
    ensures Inv(cfg, Registered(s, t))
  {
    var at, c := FlushPlace(s.flush), s.compaction;
    PutDiskOk(cfg, s.disk, at, t.seqno, Some(t));
    AddedPartsOk(s.parts, s.disk, at, t);
    OpenKeepsOpen(s.parts, at, Added(s.parts, at, t)[at]);
    if !c.Resting? { AddedInputsOk(s.parts, s.disk, at, t, c.at, c.inputs); }
    if c.Merging? { AddedReserved(s.parts, s.disk, at, t, c.at, c.seqno); }
  }

  lemma FlushErrorKeeps(cfg: Config, s: State, torn: bool)
    requires cfg.Valid() && Inv(cfg, s) && Enabled(cfg, s, FlushError(torn))
    ensures Inv(cfg, Step(cfg, s, FlushError(torn)))
  {
    TornOk(cfg, s, torn, FlushPlace(s.flush), s.flush.pending.value.seqno, Idle, s.compaction);
  }

  lemma BeginKeeps(cfg: Config, s: State, at: Place)
    requires cfg.Valid() && Inv(cfg, s) && Enabled(cfg, s, BeginCompaction(at))
    ensures Inv(cfg, Step(cfg, s, BeginCompaction(at)))
  {
    assert [] + s.parts[at].tables == s.parts[at].tables;
    OpenKeepsOpen(s.parts, at, SigPart([], s.parts[at].next));
  }

  lemma NumberKeeps(cfg: Config, s: State)
    requires cfg.Valid() && Inv(cfg, s) && Enabled(cfg, s, NumberCompaction)
    ensures Inv(cfg, Step(cfg, s, NumberCompaction))
  {
    NumberOk(cfg, s, s.compaction.at);
  }

  lemma EndKeeps(cfg: Config, s: State, t: Table)
    requires cfg.Valid() && Inv(cfg, s) && s.compaction.Merging? && t.seqno == s.compaction.seqno && Exact(t)
    requires multiset(t.rows) <= multiset(AllRows(s.compaction.inputs))
    ensures Inv(cfg, Merged(s, t))
  {
    var at, f := s.compaction.at, s.flush;
    FiledAt(cfg, s.disk, s.compaction.inputs, at);
    KeptAt(cfg, s.compaction.inputs, t.rows, at);
    PutDiskOk(cfg, s.disk, at, t.seqno, Some(t));
    AddedPartsOk(s.parts, s.disk, at, t);
    AddedInputsOk(s.parts, s.disk, at, t, at, s.compaction.inputs);
    OpenKeepsOpen(s.parts, at, Added(s.parts, at, t)[at]);
    if f.Flushing? && f.pending.Some? { AddedReserved(s.parts, s.disk, at, t, FlushPlace(f), f.pending.value.seqno); }
  }

  lemma CompactionErrorKeeps(cfg: Config, s: State, torn: bool)
    requires cfg.Valid() && Inv(cfg, s) && Enabled(cfg, s, CompactionError(torn))
    ensures Inv(cfg, Step(cfg, s, CompactionError(torn)))
  {
    TornOk(cfg, s, torn, s.compaction.at, s.compaction.seqno, s.flush, Resting);
  }

  lemma SmallStepKeeps(cfg: Config, s: State, e: Event)
    requires cfg.Valid() && Inv(cfg, s) && Enabled(cfg, s, e) && (e.FinishFlush? || e.NothingReadable? || e.FinishCompaction?)
    ensures Inv(cfg, Step(cfg, s, e))
  {
  }

  lemma StepKeeps(cfg: Config, s: State, e: Event)
    requires cfg.Valid() && Inv(cfg, s) && Enabled(cfg, s, e)
    ensures Inv(cfg, Step(cfg, s, e))
  {
    match e
    case OpenSignal(at) => OpenKeeps(cfg, s, at);
    case Write(r) => WriteKeeps(cfg, s, r);
    case WriteFails(r) => FlushAllKeeps(cfg, s, e);
    case Take(key) => FlushAllKeeps(cfg, s, e);
    case Send => FlushAllKeeps(cfg, s, e);
    case Dequeue => DequeueKeeps(cfg, s);
    case Allocate => AllocateStepKeeps(cfg, s);
    case Register => RegisterKeeps(cfg, s, NewTable(s.flush.pending.value.seqno, s.flush.pending.value.rows));
    case FlushError(torn) => FlushErrorKeeps(cfg, s, torn);
    case BeginCompaction(at) => BeginKeeps(cfg, s, at);
    case NumberCompaction => NumberKeeps(cfg, s);
    case EndCompaction(kept) => EndKeeps(cfg, s, NewTable(s.compaction.seqno, kept));
    case CompactionError(torn) => CompactionErrorKeeps(cfg, s, torn);
    case DeleteInput(data, zone) => DeleteKeeps(cfg, s, data, zone);
    case _ => SmallStepKeeps(cfg, s, e);
  }

  // ----- Runs -----

  /** The state after opening: nothing in memory and no directory read yet. */
  ghost predicate Opened(cfg: Config, s: State)
    requires cfg.Valid()
  {
    && s.mem == map[] && s.queue == [] && s.sending.None? && s.flush.Idle? && s.compaction.Resting?
    && s.parts == map[] && DiskOk(cfg, s.disk)
    && s.accepted == multiset{} && s.dropped == multiset{} && s.orphaned == multiset{} && s.stale == multiset{}
  }

  lemma OpenedHolds(cfg: Config, s: State)
    requires cfg.Valid() && Opened(cfg, s)
    ensures Inv(cfg, s) && Conservation.Conserved(s)
  {
    assert Conservation.MemBags(s.mem) == map[];
    assert Conservation.PartBags(s.parts) == map[];
  }

  lemma InvKnown(cfg: Config, s: State)
    requires cfg.Valid() && Inv(cfg, s)
    ensures Conservation.KnownSignals(s)
  {
    forall i | 0 <= i < |s.queue| ensures Conservation.Known(s.queue[i].rows) {
      assert s.queue[i] in s.queue;
      assert FrozenOk(cfg, s.parts, s.queue[i]);
    }
  }

  /** Every state of every run is sound, and every row accepted so far is accounted for. */
  lemma {:induction false} EveryRunHolds(cfg: Config, s: State, es: seq<Event>)
    requires cfg.Valid() && Inv(cfg, s) && Conservation.Conserved(s) && IsRun(cfg, s, es)
    ensures Inv(cfg, After(cfg, s, es)) && Conservation.Conserved(After(cfg, s, es))
    decreases |es|
  {
    if es != [] {
      InvKnown(cfg, s);
      StepKeeps(cfg, s, es[0]);
      Conservation.StepConserves(cfg, s, es[0]);
      EveryRunHolds(cfg, Step(cfg, s, es[0]), es[1..]);
    }
  }

  // ----- When rows are lost -----

  /** The steps that lose rows, told from the state before them */
  ghost predicate Loses(cfg: Config, s: State, e: Event)
    requires cfg.Valid() && Enabled(cfg, s, e)
  {
    match e
    case Write(r) =>
      var rows := MemAt(s.mem, BucketOf(r.ts, cfg.bucket)) + [r];
      SizeOf(rows) >= cfg.maxSize && |s.queue| >= QUEUE_CAPACITY
    case Allocate => Decodable(DrainSignal(s.flush.job.rows, s.flush.stage), false) != []
    case FlushError(_) => s.flush.pending.value.rows != [] || Later(s.flush.job.rows, s.flush.stage + 1) != []
    case EndCompaction(kept) => multiset(kept) != multiset(AllRows(s.compaction.inputs))
    case NothingReadable => AllRows(s.compaction.inputs) != []
    case _ => false
  }

  lemma BagGrows(a: multiset<Rec>, b: multiset<Rec>)
    ensures a + b == a <==> b == multiset{}
  {
    if a + b == a {
      forall x ensures b[x] == 0 { assert (a + b)[x] == a[x]; }
    }
  }

  lemma NonEmptyBag(rows: seq<Rec>)
    ensures multiset(rows) == multiset{} <==> rows == []
  {
    if rows != [] { assert rows[0] in multiset(rows); }
  }

  lemma WriteLoss(cfg: Config, s: State, r: Rec)
    requires cfg.Valid() && Enabled(cfg, s, Write(r))
    ensures Written(cfg, s, r).dropped == s.dropped <==> !Loses(cfg, s, Write(r))
  {
    var rows := MemAt(s.mem, BucketOf(r.ts, cfg.bucket)) + [r];
    BagGrows(s.dropped, multiset(rows));
    NonEmptyBag(rows);
  }

  lemma AllocateLoss(s: State, none: bool, good: seq<Rec>, bad: seq<Rec>)
    requires s.flush.Flushing? && (none ==> bad == [])
    ensures Allocated(s, none, good, bad).dropped == s.dropped <==> bad == []
  {
    BagGrows(s.dropped, multiset(bad));
    NonEmptyBag(bad);
  }

  lemma AllocateStepLoss(cfg: Config, s: State)
    requires cfg.Valid() && Enabled(cfg, s, Allocate)
    ensures Step(cfg, s, Allocate).dropped == s.dropped <==> !Loses(cfg, s, Allocate)
  {
    var rows := DrainSignal(s.flush.job.rows, s.flush.stage);
    AllocateLoss(s, rows == [], Decodable(rows, true), Decodable(rows, false));
  }

  lemma FlushErrorLoss(cfg: Config, s: State, torn: bool)
    requires cfg.Valid() && Enabled(cfg, s, FlushError(torn))
    ensures Step(cfg, s, FlushError(torn)).dropped == s.dropped <==> !Loses(cfg, s, FlushError(torn))
  {
    var p, later := s.flush.pending.value.rows, Later(s.flush.job.rows, s.flush.stage + 1);
    assert s.dropped + multiset(p) + multiset(later) == s.dropped + multiset(p + later);
    BagGrows(s.dropped, multiset(p + later));
    NonEmptyBag(p + later);
  }

  lemma CompactionLoss(cfg: Config, s: State, e: Event)
    requires cfg.Valid() && (e.EndCompaction? || e.NothingReadable?) && Enabled(cfg, s, e)
    ensures Step(cfg, s, e).dropped == s.dropped <==> !Loses(cfg, s, e)
  {
    var all := AllRows(s.compaction.inputs);
    NonEmptyBag(all);
    BagGrows(s.dropped, multiset(all));
    if e.EndCompaction? {
      var kept := multiset(e.kept);
      BagGrows(s.dropped, multiset(all) - kept);
      assert multiset(all) == kept + (multiset(all) - kept);
      BagGrows(kept, multiset(all) - kept);
    }
  }

  /** Rows are dropped by a full queue, an undecodable row, a failed flush or an unreadable
      compaction input, and by nothing else. */
  lemma DropsExactly(cfg: Config, s: State, e: Event)
    requires cfg.Valid() && Enabled(cfg, s, e)
    ensures Step(cfg, s, e).dropped == s.dropped <==> !Loses(cfg, s, e)
    ensures s.dropped <= Step(cfg, s, e).dropped
  {
    match e
    case Write(r) => WriteLoss(cfg, s, r);
    case Allocate => AllocateStepLoss(cfg, s);
    case FlushError(torn) => FlushErrorLoss(cfg, s, torn);
    case EndCompaction(kept) => CompactionLoss(cfg, s, e);
    case NothingReadable => CompactionLoss(cfg, s, e);
    case _ =>
  }

  ghost predicate LossFree(cfg: Config, s: State, es: seq<Event>)
    requires cfg.Valid() && IsRun(cfg, s, es)
    decreases |es|
  {
    es == [] || (!Loses(cfg, s, es[0]) && !es[0].CompactionError? && LossFree(cfg, Step(cfg, s, es[0]), es[1..]))
  }

  lemma {:induction false} LossFreeBooks(cfg: Config, s: State, es: seq<Event>)
    requires cfg.Valid() && IsRun(cfg, s, es) && LossFree(cfg, s, es)
    ensures After(cfg, s, es).dropped == s.dropped && After(cfg, s, es).orphaned == s.orphaned
    decreases |es|
  {
    if es != [] {
      DropsExactly(cfg, s, es[0]);
      OrphansOnlyOnError(cfg, s, es[0]);
      LossFreeBooks(cfg, Step(cfg, s, es[0]), es[1..]);
    }
  }

  lemma OrphansOnlyOnError(cfg: Config, s: State, e: Event)
    requires cfg.Valid() && Enabled(cfg, s, e) && !e.CompactionError?
    ensures Step(cfg, s, e).orphaned == s.orphaned
  {
  }

  /** After a run without losses, every row accepted since the engine was opened is in
      memory or on disk. */
  lemma NothingLost(cfg: Config, s: State, es: seq<Event>)
    requires cfg.Valid() && Opened(cfg, s) && IsRun(cfg, s, es) && LossFree(cfg, s, es)
    ensures var t := After(cfg, s, es); t.accepted == Conservation.InMemory(t) + Conservation.OnDisk(t)
  {
    OpenedHolds(cfg, s);
    EveryRunHolds(cfg, s, es);
    LossFreeBooks(cfg, s, es);
    Conservation.ConservedMeaning(After(cfg, s, es));
  }

  /** Once memory is empty, every accepted row is in an SSTable or in the books. */
  lemma DrainedIsOnDisk(s: State)
    requires Conservation.Conserved(s)
    requires s.mem == map[] && s.queue == [] && s.sending.None? && s.flush.Idle? && s.compaction.Resting?
    ensures s.accepted == Conservation.PartBag(s.parts) + s.dropped + s.orphaned
  {
    Conservation.ConservedMeaning(s);
    assert Conservation.MemBags(s.mem) == map[];
  }

  // ----- Zone maps of compactions -----

  /** The join of the zone maps of the tables that have rows */
  function JoinAll(tables: seq<Table>): Zone {
    if tables == [] then EMPTY_ZONE
    else if tables[|tables| - 1].rows == [] then JoinAll(tables[..|tables| - 1])
    else Join(JoinAll(tables[..|tables| - 1]), tables[|tables| - 1].zone)
  }

  lemma TimesConcat(a: seq<Rec>, b: seq<Rec>)
    ensures Times(a + b) == Times(a) + Times(b)
  {
  }

  lemma {:induction false} ZoneOfAll(tables: seq<Table>)
    requires forall t | t in tables :: t.rows != [] ==> Exact(t)
    ensures ZoneOf(Times(AllRows(tables))) == JoinAll(tables)
  {
    if tables != [] {
      var init, last := tables[..|tables| - 1], tables[|tables| - 1];
      ZoneOfAll(init);
      assert last in tables;
      TimesConcat(AllRows(init), last.rows);
      if last.rows == [] {
        assert AllRows(tables) == AllRows(init);
      } else {
        ZoneOfConcat(Times(AllRows(init)), Times(last.rows));
      }
    } else {
      assert Times(AllRows(tables)) == [];
    }
  }

  /** A compaction that reads all of its inputs writes the join of their zone maps. */
  lemma CompactionZoneIsJoin(cfg: Config, s: State)
    requires cfg.Valid() && Inv(cfg, s) && s.compaction.Merging?
    ensures NewTable(s.compaction.seqno, AllRows(s.compaction.inputs)).zone == JoinAll(s.compaction.inputs)
  {
    FiledAt(cfg, s.disk, s.compaction.inputs, s.compaction.at);
    forall t | t in s.compaction.inputs ensures t.rows != [] ==> Exact(t) { assert Sound(cfg, t, s.compaction.at); }
    ZoneOfAll(s.compaction.inputs);
  }

  /** In every sound state a lookup by time finds every table with a row in the range. */
  lemma CandidatesComplete(cfg: Config, s: State, at: Place, start: nat, end: nat, i: nat, j: nat)
    requires cfg.Valid() && Inv(cfg, s) && i < |PartAt(s.parts, at).tables| && j < |PartAt(s.parts, at).tables[i].rows|
    requires start <= PartAt(s.parts, at).tables[i].rows[j].ts <= end
    ensures PartAt(s.parts, at).tables[i] in Overlapping(PartAt(s.parts, at).tables, start, end)
  {
    var t := PartAt(s.parts, at).tables[i];
    FiledAt(cfg, s.disk, s.parts[at].tables, at);
    assert t in s.parts[at].tables;
    assert Sound(cfg, t, at);
    CandidatesOmitNothing(PartAt(s.parts, at).tables, start, end, i, j);
  }
}
