/** The storage engine as a state machine: opening of partitions, writes, freezes, the flush
    queue, the flush worker and the compaction worker, one step at a time, in any
    interleaving, together with the zone-map files they leave on disk. */
module Engine {
  import opened Options
  import opened Sorting
  import opened ZoneMap
  import opened Partition
  import MemTable

  const QUEUE_CAPACITY: nat := 64

  datatype Config = Config(bucket: nat, maxSize: nat, trigger: nat) {
    ghost predicate Valid() { bucket > 0 }
  }

  datatype Place = Place(key: nat, signal: nat)

  /** A frozen memtable on its way to disk */
  datatype Frozen = Frozen(key: nat, rows: seq<Rec>)

  /** An SSTable that has its number and is being written */
  datatype Pending = Pending(seqno: nat, rows: seq<Rec>)

  /** The flush worker; signals below `stage` are done. */
  datatype Flush = Idle | Flushing(job: Frozen, stage: nat, pending: Option<Pending>)

  /** The compaction worker: inputs drained, then numbered, and in the end deleted one by one */
  datatype Compaction =
    | Resting
    | Drained(at: Place, inputs: seq<Table>)
    | Merging(at: Place, inputs: seq<Table>, seqno: nat)
    | Deleting(at: Place, inputs: seq<Table>)

  /** The directory of each place; a step changes it at the moment a zone map is complete, or
      is removed. */
  type Disk = map<Place, Directory>

  /** `parts` holds the directories opened so far. `accepted`, `dropped`, `orphaned` and
      `stale` keep the books: rows written, or found on opening; rows lost; rows of failed
      compactions, whose files stay behind but are in no list any more; and rows of compacted
      inputs whose files could not be removed. */
  datatype State = State(
    mem: map<nat, seq<Rec>>,
    queue: seq<Frozen>,
    sending: Option<Frozen>,
    flush: Flush,
    compaction: Compaction,
    parts: map<Place, SigPart>,
    disk: Disk,
    accepted: multiset<Rec>,
    dropped: multiset<Rec>,
    orphaned: multiset<Rec>,
    stale: multiset<Rec>)

  function PartAt(parts: map<Place, SigPart>, at: Place): SigPart {
    if at in parts then parts[at] else SigPart([], 1)
  }

  function DirAt(disk: Disk, at: Place): Directory { if at in disk then disk[at] else map[] }

  function Put(disk: Disk, at: Place, n: nat, file: Option<Table>): Disk { disk[at := DirAt(disk, at)[n := file]] }

  /** A partition is opened for all three signals at once. */
  predicate IsOpen(parts: map<Place, SigPart>, key: nat) {
    Place(key, 0) in parts && Place(key, 1) in parts && Place(key, 2) in parts
  }

  function MemAt(mem: map<nat, seq<Rec>>, key: nat): seq<Rec> { if key in mem then mem[key] else [] }

  function SizeOf(rows: seq<Rec>): nat {
    if rows == [] then 0 else SizeOf(rows[..|rows| - 1]) + MemTable.KEY_SIZE + rows[|rows| - 1].size
  }

  function OfSignal(rows: seq<Rec>, signal: nat): seq<Rec> {
    if rows == [] then [] else
      OfSignal(rows[..|rows| - 1], signal) + if rows[|rows| - 1].signal == signal then [rows[|rows| - 1]] else []
  }

  /** Rows of the signals from `stage` on */
  function Later(rows: seq<Rec>, stage: nat): seq<Rec> {
    if rows == [] then [] else
      Later(rows[..|rows| - 1], stage) + if rows[|rows| - 1].signal >= stage then [rows[|rows| - 1]] else []
  }

  function Decodable(rows: seq<Rec>, yes: bool): seq<Rec> {
    if rows == [] then [] else
      Decodable(rows[..|rows| - 1], yes) + if rows[|rows| - 1].decodes == yes then [rows[|rows| - 1]] else []
  }

  function TimeOf(r: Rec): nat { r.ts }

  /** What draining a memtable gives for a signal */
  function DrainSignal(rows: seq<Rec>, signal: nat): seq<Rec> { StableSort(TimeOf, OfSignal(rows, signal)) }

  function AllRows(tables: seq<Table>): seq<Rec> {
    if tables == [] then [] else AllRows(tables[..|tables| - 1]) + tables[|tables| - 1].rows
  }

  // ----- Events -----

  datatype Event =
    | OpenSignal(at: Place)
    | Write(r: Rec)
    | WriteFails(r: Rec)              // encoding or log append failed
    | Take(key: nat)                  // flush_all removes a memtable
    | Send                            // and waits for room in the queue
    | Dequeue
    | Allocate                        // drain the current signal and number its SSTable
    | Register                        // its zone map is complete, and it is listed
    | FlushError(torn: bool)          // maybe with an unreadable zone map left behind
    | FinishFlush
    | BeginCompaction(at: Place)
    | NumberCompaction
    | EndCompaction(kept: seq<Rec>)   // the rows of the batches that could be read
    | NothingReadable
    | CompactionError(torn: bool)
    | DeleteInput(data: bool, zone: bool)   // which of the next input's two files go away
    | FinishCompaction

  predicate Enabled(cfg: Config, s: State, e: Event) {
    match e
    case OpenSignal(at) => at !in s.parts && at.signal < 3
    case Write(r) => r.signal < 3 && cfg.bucket > 0 && IsOpen(s.parts, BucketOf(r.ts, cfg.bucket))
    case WriteFails(r) => r.signal < 3
    case Take(key) => s.sending.None? && key in s.mem
    case Send => s.sending.Some? && |s.queue| < QUEUE_CAPACITY
    case Dequeue => s.flush.Idle? && s.queue != []
    case Allocate => s.flush.Flushing? && s.flush.stage < 3 && s.flush.pending.None?
    case Register => s.flush.Flushing? && s.flush.stage < 3 && s.flush.pending.Some?
    case FlushError(_) => s.flush.Flushing? && s.flush.stage < 3 && s.flush.pending.Some?
    case FinishFlush => s.flush.Flushing? && s.flush.stage == 3
    case BeginCompaction(at) =>
      s.compaction.Resting? && |PartAt(s.parts, at).tables| >= cfg.trigger && |PartAt(s.parts, at).tables| >= 2
    case NumberCompaction => s.compaction.Drained?
    case EndCompaction(kept) => s.compaction.Merging? && multiset(kept) <= multiset(AllRows(s.compaction.inputs))
    case NothingReadable => s.compaction.Merging?
    case CompactionError(_) => s.compaction.Merging?
    case DeleteInput(_, _) => s.compaction.Deleting? && s.compaction.inputs != []
    case FinishCompaction => s.compaction.Deleting? && s.compaction.inputs == []
  }

  /** A full memtable is swapped for a fresh one; if the queue is full it is lost. */
  function Written(cfg: Config, s: State, r: Rec): State
    requires cfg.Valid()
  {
    var key := BucketOf(r.ts, cfg.bucket);
    var rows := MemAt(s.mem, key) + [r];
    var taken := s.(accepted := s.accepted + multiset{r});
    if SizeOf(rows) < cfg.maxSize then taken.(mem := s.mem[key := rows])
    else if |s.queue| < QUEUE_CAPACITY then taken.(mem := s.mem[key := []], queue := s.queue + [Frozen(key, rows)])
    else taken.(mem := s.mem[key := []], dropped := s.dropped + multiset(rows))
  }

  /** The current signal is drained: nothing to do, or a number for the SSTable of its
      decodable rows; the others are left out. */
  function Allocated(s: State, none: bool, good: seq<Rec>, bad: seq<Rec>): State
    requires s.flush.Flushing?
  {
    var job, stage := s.flush.job, s.flush.stage;
    if none then s.(flush := Flushing(job, stage + 1, None)) else
      var at := Place(job.key, stage);
      var part := PartAt(s.parts, at);
      s.(parts := s.parts[at := SigPart(part.tables, part.next + 1)],
         dropped := s.dropped + multiset(bad),
         flush := Flushing(job, stage, Some(Pending(part.next, good))))
  }

  function Added(parts: map<Place, SigPart>, at: Place, t: Table): map<Place, SigPart> {
    parts[at := SigPart(PartAt(parts, at).tables + [t], PartAt(parts, at).next)]
  }

  function Registered(s: State, t: Table): State
    requires s.flush.Flushing?
  {
    var at := Place(s.flush.job.key, s.flush.stage);
    s.(parts := Added(s.parts, at, t), disk := Put(s.disk, at, t.seqno, Some(t)),
       flush := Flushing(s.flush.job, s.flush.stage + 1, None))
  }

  /** A torn zone map takes its number in the directory and cannot be read. */
  function Torn(torn: bool, disk: Disk, at: Place, n: nat): Disk { if torn then Put(disk, at, n, None) else disk }

  /** A failed flush loses the SSTable it was writing and the rest of the memtable. */
  function Broken(s: State, torn: bool, rest: multiset<Rec>): State
    requires s.flush.Flushing? && s.flush.pending.Some?
  {
    var p := s.flush.pending.value;
    s.(dropped := s.dropped + multiset(p.rows) + rest,
       disk := Torn(torn, s.disk, Place(s.flush.job.key, s.flush.stage), p.seqno),
       flush := Idle)
  }

  /** Removal goes by number: without its zone map a table is out of sight, without its data
      it has no rows any more. */
  function Removed(disk: Disk, at: Place, n: nat, data: bool, zone: bool): Disk {
    var dir := DirAt(disk, at);
    if n !in dir then disk
    else if zone then disk[at := dir - {n}]
    else if data && dir[n].Some? then disk[at := dir[n := Some(dir[n].value.(rows := []))]]
    else disk
  }

  ghost function Merged(s: State, t: Table): State
    requires s.compaction.Merging?
  {
    var at, inputs := s.compaction.at, s.compaction.inputs;
    s.(parts := Added(s.parts, at, t), disk := Put(s.disk, at, t.seqno, Some(t)),
       dropped := s.dropped + (multiset(AllRows(inputs)) - multiset(t.rows)),
       compaction := Deleting(at, inputs))
  }

  ghost function Step(cfg: Config, s: State, e: Event): State
    requires cfg.Valid() && Enabled(cfg, s, e)
  {
    match e
    case OpenSignal(at) =>
      var part := Loaded(DirAt(s.disk, at));
      s.(parts := s.parts[at := part], accepted := s.accepted + multiset(AllRows(part.tables)))
    case Write(r) => Written(cfg, s, r)
    case WriteFails(r) =>
      var key := BucketOf(r.ts, cfg.bucket);
      s.(mem := s.mem[key := MemAt(s.mem, key)])
    case Take(key) =>
      s.(mem := s.mem - {key}, sending := if s.mem[key] == [] then None else Some(Frozen(key, s.mem[key])))
    case Send => s.(queue := s.queue + [s.sending.value], sending := None)
    case Dequeue => s.(queue := s.queue[1..], flush := Flushing(s.queue[0], 0, None))
    case Allocate =>
      var rows := DrainSignal(s.flush.job.rows, s.flush.stage);
      Allocated(s, rows == [], Decodable(rows, true), Decodable(rows, false))
    case Register => Registered(s, NewTable(s.flush.pending.value.seqno, s.flush.pending.value.rows))
    case FlushError(torn) => Broken(s, torn, multiset(Later(s.flush.job.rows, s.flush.stage + 1)))
    case FinishFlush => s.(flush := Idle)
    case BeginCompaction(at) =>
      var part := PartAt(s.parts, at);
      s.(parts := s.parts[at := SigPart([], part.next)], compaction := Drained(at, part.tables))
    case NumberCompaction =>
      var at, inputs := s.compaction.at, s.compaction.inputs;
      var part := PartAt(s.parts, at);
      s.(parts := s.parts[at := SigPart(part.tables, part.next + 1)], compaction := Merging(at, inputs, part.next))
    case EndCompaction(kept) => Merged(s, NewTable(s.compaction.seqno, kept))
    case NothingReadable =>
      s.(dropped := s.dropped + multiset(AllRows(s.compaction.inputs)),
         compaction := Deleting(s.compaction.at, s.compaction.inputs))
    case CompactionError(torn) =>
      s.(orphaned := s.orphaned + multiset(AllRows(s.compaction.inputs)),
         disk := Torn(torn, s.disk, s.compaction.at, s.compaction.seqno),
         compaction := Resting)
    case DeleteInput(data, zone) =>
      var at, t := s.compaction.at, s.compaction.inputs[0];
      s.(disk := Removed(s.disk, at, t.seqno, data, zone),
         stale := if data || zone then s.stale else s.stale + multiset(t.rows),
         compaction := Deleting(at, s.compaction.inputs[1..]))
    case FinishCompaction => s.(compaction := Resting)
  }

  /** A run: every event is enabled when it comes. */
  ghost predicate IsRun(cfg: Config, s: State, es: seq<Event>)
    requires cfg.Valid()
    decreases |es|
  {
    es == [] || (Enabled(cfg, s, es[0]) && IsRun(cfg, Step(cfg, s, es[0]), es[1..]))
  }

  ghost function After(cfg: Config, s: State, es: seq<Event>): State
    requires cfg.Valid() && IsRun(cfg, s, es)
    decreases |es|
  {
    if es == [] then s else After(cfg, Step(cfg, s, es[0]), es[1..])
  }
}
