/** The engine as it runs, with the fields it updates in place: every operation is a run of
    the state machine. What a worker holds between two steps is passed along. */
module StorageEngine {
  import opened Options
  import opened Sorting
  import opened ZoneMap
  import opened Partition
  import opened Engine

  datatype Outcome = Done | Closed | Failed

  /** The state machine as a pair of functions, so that an operation can name its steps
      without the whole transition relation. */
  datatype Machine = Machine(enabled: (State, Event) -> bool, step: (State, Event) -> State) {

    ghost predicate Is(cfg: Config) {
      cfg.Valid() && forall s, e {:trigger Enabled(cfg, s, e)} ::
        (enabled(s, e) <==> Enabled(cfg, s, e)) && (Enabled(cfg, s, e) ==> step(s, e) == Step(cfg, s, e))
    }

    ghost predicate Run(s: State, es: seq<Event>, t: State)
      decreases |es|
    {
      if es == [] then s == t else enabled(s, es[0]) && Run(step(s, es[0]), es[1..], t)
    }

    lemma {:induction false} RunThen(s: State, a: seq<Event>, t: State, b: seq<Event>, u: State)
      requires Run(s, a, t) && Run(t, b, u)
      ensures Run(s, a + b, u)
      decreases |a|
    {
      if a == [] {
        assert a + b == b;
      } else {
        assert (a + b)[1..] == a[1..] + b;
        RunThen(step(s, a[0]), a[1..], t, b, u);
      }
    }

    lemma RunSnoc(cfg: Config, s: State, a: seq<Event>, t: State, e: Event)
      requires Is(cfg) && Run(s, a, t) && Enabled(cfg, t, e)
      ensures Run(s, a + [e], Step(cfg, t, e))
    {
      assert [e][1..] == [];
      assert Run(step(t, e), [], Step(cfg, t, e));
      assert Run(t, [e], Step(cfg, t, e));
      RunThen(s, a, t, [e], Step(cfg, t, e));
    }

    // One lemma for each step an operation takes

    lemma Opens(cfg: Config, s: State, a: seq<Event>, t: State, at: Place, part: SigPart)
      requires Is(cfg) && Run(s, a, t) && at !in t.parts && at.signal < 3 && part == Loaded(DirAt(t.disk, at))
      ensures Run(s, a + [OpenSignal(at)],
                  t.(parts := t.parts[at := part], accepted := t.accepted + multiset(AllRows(part.tables))))
    {
      RunSnoc(cfg, s, a, t, OpenSignal(at));
    }

    lemma Writes(cfg: Config, s: State, a: seq<Event>, t: State, r: Rec)
      requires Is(cfg) && Run(s, a, t) && r.signal < 3 && IsOpen(t.parts, BucketOf(r.ts, cfg.bucket))
      ensures Run(s, a + [Write(r)], Written(cfg, t, r))
    {
      RunSnoc(cfg, s, a, t, Write(r));
    }

    lemma WriteFailing(cfg: Config, s: State, a: seq<Event>, t: State, r: Rec)
      requires Is(cfg) && Run(s, a, t) && r.signal < 3
      ensures var key := BucketOf(r.ts, cfg.bucket);
              Run(s, a + [WriteFails(r)], t.(mem := t.mem[key := MemAt(t.mem, key)]))
    {
      RunSnoc(cfg, s, a, t, WriteFails(r));
    }

    lemma Takes(cfg: Config, s: State, a: seq<Event>, t: State, key: nat)
      requires Is(cfg) && Run(s, a, t) && t.sending.None? && key in t.mem
      ensures Run(s, a + [Take(key)],
                  t.(mem := t.mem - {key}, sending := if t.mem[key] == [] then None else Some(Frozen(key, t.mem[key]))))
    {
      RunSnoc(cfg, s, a, t, Take(key));
    }

    lemma Sends(cfg: Config, s: State, a: seq<Event>, t: State)
      requires Is(cfg) && Run(s, a, t) && t.sending.Some? && |t.queue| < QUEUE_CAPACITY
      ensures Run(s, a + [Send], t.(queue := t.queue + [t.sending.value], sending := None))
    {
      RunSnoc(cfg, s, a, t, Send);
    }

    lemma Dequeues(cfg: Config, s: State, a: seq<Event>, t: State)
      requires Is(cfg) && Run(s, a, t) && t.flush.Idle? && t.queue != []
      ensures Run(s, a + [Dequeue], t.(queue := t.queue[1..], flush := Flushing(t.queue[0], 0, None)))
    {
      RunSnoc(cfg, s, a, t, Dequeue);
    }

    lemma Allocates(cfg: Config, s: State, a: seq<Event>, t: State, rows: seq<Rec>, good: seq<Rec>, bad: seq<Rec>)
      requires Is(cfg) && Run(s, a, t) && t.flush.Flushing? && t.flush.stage < 3 && t.flush.pending.None?
      requires rows == DrainSignal(t.flush.job.rows, t.flush.stage)
      requires good == Decodable(rows, true) && bad == Decodable(rows, false)
      ensures Run(s, a + [Allocate], Allocated(t, rows == [], good, bad))
    {
      RunSnoc(cfg, s, a, t, Allocate);
    }

    lemma Registers(cfg: Config, s: State, a: seq<Event>, t: State, table: Table)
      requires Is(cfg) && Run(s, a, t) && t.flush.Flushing? && t.flush.stage < 3 && t.flush.pending.Some?
      requires table == NewTable(t.flush.pending.value.seqno, t.flush.pending.value.rows)
      ensures Run(s, a + [Register], Registered(t, table))
    {
      RunSnoc(cfg, s, a, t, Register);
    }

    lemma FlushFails(cfg: Config, s: State, a: seq<Event>, t: State, torn: bool, rest: multiset<Rec>)
      requires Is(cfg) && Run(s, a, t) && t.flush.Flushing? && t.flush.stage < 3 && t.flush.pending.Some?
      requires rest == multiset(Later(t.flush.job.rows, t.flush.stage + 1))
      ensures Run(s, a + [FlushError(torn)], Broken(t, torn, rest))
    {
      RunSnoc(cfg, s, a, t, FlushError(torn));
    }

    lemma Finishes(cfg: Config, s: State, a: seq<Event>, t: State)
      requires Is(cfg) && Run(s, a, t) && t.flush.Flushing? && t.flush.stage == 3
      ensures Run(s, a + [FinishFlush], t.(flush := Idle))
    {
      RunSnoc(cfg, s, a, t, FinishFlush);
    }

    lemma Begins(cfg: Config, s: State, a: seq<Event>, t: State, at: Place)
      requires Is(cfg) && Run(s, a, t) && t.compaction.Resting?
      requires |PartAt(t.parts, at).tables| >= cfg.trigger && |PartAt(t.parts, at).tables| >= 2
      ensures Run(s, a + [BeginCompaction(at)],
                  t.(parts := t.parts[at := SigPart([], PartAt(t.parts, at).next)],
                     compaction := Drained(at, PartAt(t.parts, at).tables)))
    {
      RunSnoc(cfg, s, a, t, BeginCompaction(at));
    }

    lemma Numbers(cfg: Config, s: State, a: seq<Event>, t: State)
      requires Is(cfg) && Run(s, a, t) && t.compaction.Drained?
      ensures var part := PartAt(t.parts, t.compaction.at);
              Run(s, a + [NumberCompaction],
                  t.(parts := t.parts[t.compaction.at := SigPart(part.tables, part.next + 1)],
                     compaction := Merging(t.compaction.at, t.compaction.inputs, part.next)))
    {
      RunSnoc(cfg, s, a, t, NumberCompaction);
    }

    lemma Ends(cfg: Config, s: State, a: seq<Event>, t: State, kept: seq<Rec>, table: Table)
      requires Is(cfg) && Run(s, a, t) && t.compaction.Merging? && multiset(kept) <= multiset(AllRows(t.compaction.inputs))
      requires table == NewTable(t.compaction.seqno, kept)
      ensures Run(s, a + [EndCompaction(kept)], Merged(t, table))
    {
      RunSnoc(cfg, s, a, t, EndCompaction(kept));
    }

    lemma Abandons(cfg: Config, s: State, a: seq<Event>, t: State, torn: bool)
      requires Is(cfg) && Run(s, a, t) && t.compaction.Merging?
      ensures Run(s, a + [NothingReadable],
                  t.(dropped := t.dropped + multiset(AllRows(t.compaction.inputs)),
                     compaction := Deleting(t.compaction.at, t.compaction.inputs)))
      ensures Run(s, a + [CompactionError(torn)],
                  t.(orphaned := t.orphaned + multiset(AllRows(t.compaction.inputs)),
                     disk := Torn(torn, t.disk, t.compaction.at, t.compaction.seqno), compaction := Resting))
    {
      RunSnoc(cfg, s, a, t, NothingReadable);
      RunSnoc(cfg, s, a, t, CompactionError(torn));
    }

    lemma Deletes(cfg: Config, s: State, a: seq<Event>, t: State, data: bool, zone: bool)
      requires Is(cfg) && Run(s, a, t) && t.compaction.Deleting? && t.compaction.inputs != []
      ensures var at, input := t.compaction.at, t.compaction.inputs[0];
              Run(s, a + [DeleteInput(data, zone)],
                  t.(disk := Removed(t.disk, at, input.seqno, data, zone),
                     stale := if data || zone then t.stale else t.stale + multiset(input.rows),
                     compaction := Deleting(at, t.compaction.inputs[1..])))
    {
      RunSnoc(cfg, s, a, t, DeleteInput(data, zone));
    }

    lemma Rests(cfg: Config, s: State, a: seq<Event>, t: State)
      requires Is(cfg) && Run(s, a, t) && t.compaction.Deleting? && t.compaction.inputs == []
      ensures Run(s, a + [FinishCompaction], t.(compaction := Resting))
    {
      RunSnoc(cfg, s, a, t, FinishCompaction);
    }
  }

  ghost const MACHINE: Config -> Machine :=
    cfg => Machine((s, e) => Enabled(cfg, s, e), (s, e) => if cfg.bucket > 0 && Enabled(cfg, s, e) then Step(cfg, s, e) else s)

  lemma MachineExists(cfg: Config)
    requires cfg.Valid()
    ensures MACHINE(cfg).Is(cfg)
  {
  }

  /** A run of the machine is a run of the engine, so that whatever holds of every run holds
      of every operation. */
  lemma {:induction false} RunIsRun(cfg: Config, m: Machine, s: State, es: seq<Event>, t: State)
    requires m.Is(cfg)
    ensures m.Run(s, es, t) <==> IsRun(cfg, s, es) && After(cfg, s, es) == t
    decreases |es|
  {
    if es != [] && Enabled(cfg, s, es[0]) { RunIsRun(cfg, m, Step(cfg, s, es[0]), es[1..], t); }
  }

  /** Events of the way to disk */
  predicate Flushes(e: Event) {
    e.OpenSignal? || e.Take? || e.Send? || e.Dequeue? || e.Allocate? || e.Register? || e.FlushError? || e.FinishFlush?
  }

  /** What becomes of writing one record; the partition is opened for its log, so after the
      record is encoded */
  datatype Try = Stored | Unencodable | Unlogged

  /** What becomes of writing one SSTable */
  datatype Fate = Succeeds | Breaks(torn: bool)

  /** The fates of the three signals of a memtable */
  type Fates = seq<Fate>

  const SMOOTH: Fates := [Succeeds, Succeeds, Succeeds]

  /** Which files of an input can be removed */
  datatype Removal = Removal(data: bool, zone: bool)

  function Deletions(removals: seq<Removal>): seq<Event> {
    if removals == [] then [] else
      var last := removals[|removals| - 1];
      Deletions(removals[..|removals| - 1]) + [DeleteInput(last.data, last.zone)]
  }

  /** The writes among the events */
  function WritesOf(es: seq<Event>): seq<Event> {
    if es == [] then [] else
      WritesOf(es[..|es| - 1]) + if es[|es| - 1].OpenSignal? then [] else [es[|es| - 1]]
  }

  function AllWrites(records: seq<Rec>): seq<Event> {
    if records == [] then [] else AllWrites(records[..|records| - 1]) + [Write(records[|records| - 1])]
  }

  lemma {:induction false} WritesOfConcat(a: seq<Event>, b: seq<Event>)
    ensures WritesOf(a + b) == WritesOf(a) + WritesOf(b)
    decreases |b|
  {
    if b == [] {
      assert a + b == a;
    } else {
      assert (a + b)[..|a + b| - 1] == a + b[..|b| - 1];
      WritesOfConcat(a, b[..|b| - 1]);
    }
  }

  function Gathered(read: seq<Option<seq<Rec>>>): seq<Rec> {
    if read == [] then [] else
      Gathered(read[..|read| - 1]) + match read[|read| - 1] case None => [] case Some(rows) => rows
  }

  /** Reading never makes up rows. */
  ghost predicate ReadFrom(inputs: seq<Table>, read: seq<Option<seq<Rec>>>) {
    |read| == |inputs| && forall i | 0 <= i < |read| && read[i].Some? :: multiset(read[i].value) <= multiset(inputs[i].rows)
  }

  lemma {:induction false} GatheredWithin(inputs: seq<Table>, read: seq<Option<seq<Rec>>>)
    requires ReadFrom(inputs, read)
    ensures multiset(Gathered(read)) <= multiset(AllRows(inputs))
  {
    if read != [] {
      var n := |read| - 1;
      GatheredWithin(inputs[..n], read[..n]);
      var last := match read[n] case None => [] case Some(rows) => rows;
      assert multiset(last) <= multiset(inputs[n].rows);
      assert multiset(Gathered(read)) == multiset(Gathered(read[..n])) + multiset(last);
    }
  }

  /** When every input can be read, nothing is left out. */
  lemma {:induction false} GatheredAll(inputs: seq<Table>, read: seq<Option<seq<Rec>>>)
    requires |read| == |inputs| && forall i | 0 <= i < |read| :: read[i] == Some(inputs[i].rows)
    ensures Gathered(read) == AllRows(inputs)
  {
    if read != [] { GatheredAll(inputs[..|read| - 1], read[..|read| - 1]); }
  }

  /** The memtables that held rows, each sent once */
  ghost predicate SentFrom(mem: map<nat, seq<Rec>>, sent: seq<Frozen>) {
    && (forall i, j | 0 <= i < j < |sent| :: sent[i].key != sent[j].key)
    && (forall f | f in sent :: f.key in mem && f.rows == mem[f.key] && f.rows != [])
    && (forall k | k in mem && mem[k] != [] :: Frozen(k, mem[k]) in sent)
  }

  lemma SentOne(mem: map<nat, seq<Rec>>, sent: seq<Frozen>, key: nat, rows: seq<Rec>)
    requires SentFrom(mem, sent) && key !in mem
    ensures SentFrom(mem[key := rows], sent + if rows == [] then [] else [Frozen(key, rows)])
  {
  }

  /** Of the memtables `all`, those in `mem` are still there, and the others were sent behind
      `before`; the first `done` requests were handled. */
  ghost predicate SentSoFar(all: map<nat, seq<Rec>>, before: seq<Frozen>, mem: map<nat, seq<Rec>>, queue: seq<Frozen>,
                            gone: map<nat, seq<Rec>>, sent: seq<Frozen>, done: nat)
  {
    && gone.Keys !! mem.Keys && gone + mem == all && SentFrom(gone, sent)
    && done <= |before + sent| && queue == (before + sent)[done..]
  }

  lemma AllSent(all: map<nat, seq<Rec>>, before: seq<Frozen>, queue: seq<Frozen>,
                gone: map<nat, seq<Rec>>, sent: seq<Frozen>, done: nat)
    requires SentSoFar(all, before, map[], queue, gone, sent, done)
    ensures SentFrom(all, sent) && done <= |before + sent| && queue == (before + sent)[done..]
  {
    assert gone + map[] == gone;
  }

  /** Steps of flushing, of which none fails if the requests `from` to `to` fare well */
  ghost predicate FlushRun(es: seq<Event>, fates: nat -> Fates, from: nat, to: nat) {
    && (forall e | e in es :: Flushes(e))
    && ((forall i | from <= i < to :: fates(i) == SMOOTH) ==> forall e | e in es :: !e.FlushError?)
  }

  lemma FlushRunConcat(a: seq<Event>, b: seq<Event>, fates: nat -> Fates, from: nat, mid: nat, to: nat)
    requires from <= mid <= to && FlushRun(a, fates, from, mid) && FlushRun(b, fates, mid, to)
    ensures FlushRun(a + b, fates, from, to)
  {
  }

  lemma NoneSent(all: map<nat, seq<Rec>>, queue: seq<Frozen>)
    ensures SentSoFar(all, queue, all, queue, map[], [], 0)
  {
    var none: map<nat, seq<Rec>> := map[];
    assert none + all == all;
    assert queue + [] == queue;
  }

  lemma SendOne(all: map<nat, seq<Rec>>, before: seq<Frozen>, mem: map<nat, seq<Rec>>, queue: seq<Frozen>,
                gone: map<nat, seq<Rec>>, sent: seq<Frozen>, done: nat, key: nat, more: nat)
    requires SentSoFar(all, before, mem, queue, gone, sent, done) && key in mem && more <= |queue|
    ensures var last := if mem[key] == [] then [] else [Frozen(key, mem[key])];
            SentSoFar(all, before, mem - {key}, queue[more..] + last, gone[key := mem[key]], sent + last, done + more)
  {
    var last := if mem[key] == [] then [] else [Frozen(key, mem[key])];
    SentOne(gone, sent, key, mem[key]);
    assert gone[key := mem[key]] + (mem - {key}) == gone + mem;
    assert (before + sent)[done..][more..] + last == (before + (sent + last))[done + more..];
  }

  /** `u` is `t` with the memtable under `key` frozen if it is full. */
  ghost predicate FreezesTo(cfg: Config, key: nat, t: State, u: State)
    requires key in t.mem
  {
    var rows := t.mem[key];
    if SizeOf(rows) < cfg.maxSize then u == t
    else if |t.queue| < QUEUE_CAPACITY then u == t.(mem := t.mem[key := []], queue := t.queue + [Frozen(key, rows)])
    else u == t.(mem := t.mem[key := []], dropped := t.dropped + multiset(rows))
  }

  lemma WrittenByFreeze(cfg: Config, s: State, r: Rec, t: State, u: State)
    requires cfg.Valid()
    requires var key := BucketOf(r.ts, cfg.bucket);
             && t == s.(mem := s.mem[key := MemAt(s.mem, key) + [r]], accepted := s.accepted + multiset{r})
             && FreezesTo(cfg, key, t, u)
    ensures u == Written(cfg, s, r)
  {
    var key := BucketOf(r.ts, cfg.bucket);
    assert t.mem[key := []] == s.mem[key := []];
  }

  class StorageEngine {
    const cfg: Config
    ghost const machine: Machine
    const list: Directory -> seq<ZoneFile>
    var memtables: map<nat, seq<Rec>>
    var queue: seq<Frozen>
    var partitions: map<Place, SigPart>
    var disk: Disk
    var closed: bool
    ghost var accepted: multiset<Rec>
    ghost var dropped: multiset<Rec>
    ghost var orphaned: multiset<Rec>
    ghost var stale: multiset<Rec>

    ghost predicate Valid() { machine.Is(cfg) && forall dir :: Lists(list(dir), dir) }

    ghost function Now(sending: Option<Frozen>, flush: Flush, compaction: Compaction): State
      reads this
    {
      State(memtables, queue, sending, flush, compaction, partitions, disk, accepted, dropped, orphaned, stale)
    }

    /** The engine opens with nothing in memory and no partition known; `list` is how the
        system lists directories. */
    constructor (cfg: Config, list: Directory -> seq<ZoneFile>, disk: Disk)
      requires cfg.Valid() && forall dir :: Lists(list(dir), dir)
      ensures this.cfg == cfg && Valid() && !closed
      ensures Now(None, Idle, Resting)
           == State(map[], [], None, Idle, Resting, map[], disk, multiset{}, multiset{}, multiset{}, multiset{})
    {
      MachineExists(cfg);
      this.cfg, machine, this.list := cfg, MACHINE(cfg), list;
      memtables, queue, partitions, this.disk, closed := map[], [], map[], disk, false;
      accepted, dropped, orphaned, stale := multiset{}, multiset{}, multiset{}, multiset{};
    }

    // ----- Opening partitions -----

    method OpenSignalPartition(at: Place, ghost sending: Option<Frozen>, ghost flush: Flush, ghost compaction: Compaction)
      returns (ghost es: seq<Event>)
      requires Valid() && at.signal < 3
      modifies this`partitions, this`accepted
      ensures at in partitions && forall other | other in old(partitions) :: other in partitions
      ensures WritesOf(es) == [] && forall e | e in es :: e.OpenSignal?
      ensures machine.Run(old(Now(sending, flush, compaction)), es, Now(sending, flush, compaction))
    {
      ghost var start := Now(sending, flush, compaction);
      es := [];
      if at in partitions { return es; }
      var files := list(DirAt(disk, at));
      var found := new SignalPartition.Open(files);
      ScanFindsDirectory(files, DirAt(disk, at));
      var part := SigPart(found.sstables, found.nextSeq);
      machine.Opens(cfg, start, [], start, at, part);
      partitions := partitions[at := part];
      accepted := accepted + multiset(AllRows(part.tables));
      es := [] + [OpenSignal(at)];
    }

    /** A partition is opened when it is first needed, with its three directories. */
    method GetOrCreatePartition(key: nat, ghost sending: Option<Frozen>, ghost flush: Flush, ghost compaction: Compaction)
      returns (ghost es: seq<Event>)
      requires Valid()
      modifies this`partitions, this`accepted
      ensures IsOpen(partitions, key) && WritesOf(es) == [] && forall e | e in es :: e.OpenSignal?
      ensures machine.Run(old(Now(sending, flush, compaction)), es, Now(sending, flush, compaction))
    {
      ghost var start := Now(sending, flush, compaction);
      es := [];
      for signal := 0 to 3
        invariant forall i | 0 <= i < signal :: Place(key, i) in partitions
        invariant WritesOf(es) == [] && forall e | e in es :: e.OpenSignal?
        invariant machine.Run(old(Now(sending, flush, compaction)), es, Now(sending, flush, compaction))
      {
        ghost var before := Now(sending, flush, compaction);
        ghost var more := OpenSignalPartition(Place(key, signal), sending, flush, compaction);
        machine.RunThen(start, es, before, more, Now(sending, flush, compaction));
        WritesOfConcat(es, more);
        es := es + more;
      }
    }

    // ----- Writing -----

    method MaybeFreeze(key: nat)
      requires key in memtables
      modifies this`memtables, this`queue, this`dropped
      ensures var rows := old(memtables[key]);
        if SizeOf(rows) < cfg.maxSize then
          unchanged(`memtables) && unchanged(`queue) && unchanged(`dropped)
        else
          && memtables == old(memtables)[key := []]
          && (if old(|queue|) < QUEUE_CAPACITY then queue == old(queue) + [Frozen(key, rows)] && unchanged(`dropped)
              else unchanged(`queue) && dropped == old(dropped) + multiset(rows))
    {
      if SizeOf(memtables[key]) < cfg.maxSize { return; }
      var frozen := memtables[key];
      memtables := memtables[key := []];
      if |queue| < QUEUE_CAPACITY {
        queue := queue + [Frozen(key, frozen)];
      } else {
        dropped := dropped + multiset(frozen);
      }
    }

    method GetOrCreateMemtable(key: nat)
      modifies this`memtables
      ensures memtables == old(memtables)[key := MemAt(old(memtables), key)]
    {
      if key !in memtables { memtables := memtables[key := []]; }
    }

    method WriteRecord(r: Rec, ghost sending: Option<Frozen>, ghost flush: Flush, ghost compaction: Compaction)
      requires cfg.Valid()
      modifies this`memtables, this`queue, this`dropped, this`accepted
      ensures Now(sending, flush, compaction) == Written(cfg, old(Now(sending, flush, compaction)), r)
    {
      var key := BucketOf(r.ts, cfg.bucket);
      Insert(key, r);
      ghost var inserted := Now(sending, flush, compaction);
      MaybeFreeze(key);
      WrittenByFreeze(cfg, old(Now(sending, flush, compaction)), r, inserted, Now(sending, flush, compaction));
    }

    method Insert(key: nat, r: Rec)
      modifies this`memtables, this`accepted
      ensures memtables == old(memtables)[key := MemAt(old(memtables), key) + [r]]
      ensures accepted == old(accepted) + multiset{r}
    {
      GetOrCreateMemtable(key);
      memtables := memtables[key := memtables[key] + [r]];
      accepted := accepted + multiset{r};
    }

    /** Records one by one; the first that cannot be encoded or logged ends the batch, and
        what came before it stays written. */
    method WriteBatch(records: seq<Rec>, tries: seq<Try>, ghost sending: Option<Frozen>, ghost flush: Flush, ghost compaction: Compaction)
      returns (r: Outcome, ghost es: seq<Event>)
      requires Valid() && |tries| == |records| && forall i | 0 <= i < |records| :: records[i].signal < 3
      modifies this`memtables, this`queue, this`partitions, this`dropped, this`accepted
      ensures machine.Run(old(Now(sending, flush, compaction)), es, Now(sending, flush, compaction))
      ensures closed <==> r.Closed?
      ensures r.Closed? ==> es == []
      ensures r.Done? ==> WritesOf(es) == AllWrites(records)
      ensures r.Failed? ==> exists n :: 0 <= n < |records| && !tries[n].Stored?
                              && WritesOf(es) == AllWrites(records[..n]) + [WriteFails(records[n])]
    {
      ghost var start := Now(sending, flush, compaction);
      es := [];
      if closed { return Closed, es; }
      for i := 0 to |records|
        invariant machine.Run(start, es, Now(sending, flush, compaction)) && !closed
        invariant WritesOf(es) == AllWrites(records[..i])
      {
        assert records[..i + 1][..i] == records[..i];
        ghost var before := Now(sending, flush, compaction);
        ghost var more := WriteNext(records[i], tries[i], sending, flush, compaction);
        machine.RunThen(start, es, before, more, Now(sending, flush, compaction));
        WritesOfConcat(es, more);
        es := es + more;
        if !tries[i].Stored? { return Failed, es; }
      }
      assert records[..|records|] == records;
      r := Done;
    }

    method WriteNext(record: Rec, t: Try, ghost sending: Option<Frozen>, ghost flush: Flush, ghost compaction: Compaction)
      returns (ghost es: seq<Event>)
      requires Valid() && record.signal < 3
      modifies this`memtables, this`queue, this`partitions, this`dropped, this`accepted
      ensures machine.Run(old(Now(sending, flush, compaction)), es, Now(sending, flush, compaction))
      ensures WritesOf(es) == [if t.Stored? then Write(record) else WriteFails(record)]
    {
      ghost var start := Now(sending, flush, compaction);
      var key := BucketOf(record.ts, cfg.bucket);
      es := [];
      if !t.Unencodable? { es := GetOrCreatePartition(key, sending, flush, compaction); }
      if t.Stored? {
        machine.Writes(cfg, start, es, Now(sending, flush, compaction), record);
        WriteRecord(record, sending, flush, compaction);
        WritesOfConcat(es, [Write(record)]);
        es := es + [Write(record)];
      } else {
        machine.WriteFailing(cfg, start, es, Now(sending, flush, compaction), record);
        GetOrCreateMemtable(key);
        WritesOfConcat(es, [WriteFails(record)]);
        es := es + [WriteFails(record)];
      }
    }

    // ----- Flushing -----

    method NextSeq(at: Place) returns (n: nat)
      modifies this`partitions
      ensures n == PartAt(old(partitions), at).next
      ensures partitions == old(partitions)[at := SigPart(PartAt(old(partitions), at).tables, n + 1)]
    {
      var part := PartAt(partitions, at);
      n := part.next;
      partitions := partitions[at := SigPart(part.tables, n + 1)];
    }

    /** The zone map is complete, and the table is listed. */
    method AddSstable(at: Place, t: Table)
      modifies this`partitions, this`disk
      ensures partitions == Added(old(partitions), at, t) && disk == Put(old(disk), at, t.seqno, Some(t))
    {
      disk := Put(disk, at, t.seqno, Some(t));
      var part := PartAt(partitions, at);
      partitions := partitions[at := SigPart(part.tables + [t], part.next)];
    }

    static method Decode(rows: seq<Rec>) returns (records: seq<Rec>)
      ensures records == Decodable(rows, true)
    {
      records := [];
      for i := 0 to |rows|
        invariant records == Decodable(rows[..i], true)
      {
        assert rows[..i + 1][..i] == rows[..i];
        if rows[i].decodes { records := records + [rows[i]]; }
      }
      assert rows[..|rows|] == rows;
    }

    static method WriteTable(seqno: nat, records: seq<Rec>) returns (t: Table)
      ensures t == NewTable(seqno, records)
    {
      var zm := new ZoneMap();
      zm.ObserveAll(Times(records));
      t := Table(seqno, Zone(zm.min, zm.max, zm.count), records);
    }

    /** One signal of a frozen memtable; if writing its SSTable fails, the rest of the
        memtable is lost. Whatever the compaction worker is at stays as it is. */
    method FlushSignal(job: Frozen, stage: nat, fate: Fate, ghost sending: Option<Frozen>, ghost compaction: Compaction)
      returns (ok: bool, ghost es: seq<Event>)
      requires Valid() && stage < 3
      modifies this`partitions, this`disk, this`dropped
      ensures fate.Succeeds? ==> ok && forall e | e in es :: !e.FlushError?
      ensures forall e | e in es :: Flushes(e)
      ensures machine.Run(old(Now(sending, Flushing(job, stage, None), compaction)), es,
                          Now(sending, if ok then Flushing(job, stage + 1, None) else Idle, compaction))
    {
      ghost var start := Now(sending, Flushing(job, stage, None), compaction);
      var rows := DrainSignal(job.rows, stage);
      var records := Decode(rows);
      ghost var bad := Decodable(rows, false);
      machine.Allocates(cfg, start, [], start, rows, records, bad);
      es := [Allocate];
      assert [] + [Allocate] == es;
      if rows == [] { return true, es; }
      var p := NumberRecords(job, stage, records, bad, sending, compaction);
      ghost var numbered := Now(sending, Flushing(job, stage, Some(p)), compaction);
      ghost var more := WriteNumbered(job, stage, p, fate, sending, compaction);
      ok := fate.Succeeds?;
      machine.RunThen(start, es, numbered, more, Now(sending, if ok then Flushing(job, stage + 1, None) else Idle, compaction));
      es := es + more;
    }

    method WriteNumbered(job: Frozen, stage: nat, p: Pending, fate: Fate, ghost sending: Option<Frozen>, ghost compaction: Compaction)
      returns (ghost es: seq<Event>)
      requires machine.Is(cfg) && stage < 3
      modifies this`partitions, this`disk, this`dropped
      ensures es == [if fate.Succeeds? then Register else FlushError(fate.torn)]
      ensures machine.Run(old(Now(sending, Flushing(job, stage, Some(p)), compaction)), es,
                          Now(sending, if fate.Succeeds? then Flushing(job, stage + 1, None) else Idle, compaction))
    {
      if fate.Breaks? {
        ghost var numbered, rest := Now(sending, Flushing(job, stage, Some(p)), compaction), multiset(Later(job.rows, stage + 1));
        machine.FlushFails(cfg, numbered, [], numbered, fate.torn, rest);
        LoseRest(job, stage, p, fate.torn, rest, sending, compaction);
        return [] + [FlushError(fate.torn)];
      }
      WriteSstable(job, stage, p, sending, compaction);
      return [Register];
    }

    /** A number for the SSTable of the decoded records */
    method NumberRecords(job: Frozen, stage: nat, records: seq<Rec>, ghost bad: seq<Rec>,
                         ghost sending: Option<Frozen>, ghost compaction: Compaction)
      returns (p: Pending)
      modifies this`partitions, this`dropped
      ensures p.rows == records
      ensures Now(sending, Flushing(job, stage, Some(p)), compaction)
           == Allocated(old(Now(sending, Flushing(job, stage, None), compaction)), false, records, bad)
    {
      dropped := dropped + multiset(bad);
      var seqno := NextSeq(Place(job.key, stage));
      p := Pending(seqno, records);
    }

    method WriteSstable(job: Frozen, stage: nat, p: Pending, ghost sending: Option<Frozen>, ghost compaction: Compaction)
      requires machine.Is(cfg) && stage < 3
      modifies this`partitions, this`disk
      ensures machine.Run(old(Now(sending, Flushing(job, stage, Some(p)), compaction)), [Register],
                          Now(sending, Flushing(job, stage + 1, None), compaction))
    {
      ghost var numbered := Now(sending, Flushing(job, stage, Some(p)), compaction);
      assert [] + [Register] == [Register];
      var t := WriteTable(p.seqno, p.rows);
      machine.Registers(cfg, numbered, [], numbered, t);
      AddSstable(Place(job.key, stage), t);
    }

    method LoseRest(job: Frozen, stage: nat, p: Pending, torn: bool, ghost rest: multiset<Rec>,
                    ghost sending: Option<Frozen>, ghost compaction: Compaction)
      modifies this`disk, this`dropped
      ensures Now(sending, Idle, compaction) == Broken(old(Now(sending, Flushing(job, stage, Some(p)), compaction)), torn, rest)
    {
      disk := Torn(torn, disk, Place(job.key, stage), p.seqno);
      dropped := dropped + multiset(p.rows) + rest;
    }

    /** The flush worker takes one request and writes its signals until one fails. */
    method FlushOne(fates: Fates, ghost sending: Option<Frozen>, ghost compaction: Compaction) returns (ghost es: seq<Event>)
      requires Valid() && queue != [] && |fates| == 3
      modifies this`queue, this`partitions, this`disk, this`dropped
      ensures queue == old(queue)[1..]
      ensures machine.Run(old(Now(sending, Idle, compaction)), es, Now(sending, Idle, compaction))
      ensures forall e | e in es :: Flushes(e)
      ensures fates == SMOOTH ==> forall e | e in es :: !e.FlushError?
    {
      ghost var start := Now(sending, Idle, compaction);
      var job := queue[0];
      machine.Dequeues(cfg, start, [], start);
      queue := queue[1..];
      es := [] + [Dequeue];
      for stage := 0 to 3
        invariant queue == old(queue)[1..]
        invariant machine.Run(start, es, Now(sending, Flushing(job, stage, None), compaction))
        invariant forall e | e in es :: Flushes(e)
        invariant fates == SMOOTH ==> forall e | e in es :: !e.FlushError?
      {
        ghost var before := Now(sending, Flushing(job, stage, None), compaction);
        var ok, more := FlushSignal(job, stage, fates[stage], sending, compaction);
        machine.RunThen(start, es, before, more, Now(sending, if ok then Flushing(job, stage + 1, None) else Idle, compaction));
        es := es + more;
        if !ok { return es; }
      }
      machine.Finishes(cfg, start, es, Now(sending, Flushing(job, 3, None), compaction));
      es := es + [FinishFlush];
    }

    /** The flush worker at work while others wait: as many requests as it gets done, each
        with its fates. */
    method FlushSome(work: seq<Fates>, ghost sending: Option<Frozen>, ghost compaction: Compaction) returns (ghost es: seq<Event>)
      requires Valid() && |work| <= |queue| && forall i | 0 <= i < |work| :: |work[i]| == 3
      modifies this`queue, this`partitions, this`disk, this`dropped
      ensures queue == old(queue)[|work|..]
      ensures machine.Run(old(Now(sending, Idle, compaction)), es, Now(sending, Idle, compaction))
      ensures forall e | e in es :: Flushes(e)
      ensures (forall i | 0 <= i < |work| :: work[i] == SMOOTH) ==> forall e | e in es :: !e.FlushError?
    {
      es := [];
      for i := 0 to |work|
        invariant queue == old(queue)[i..]
        invariant machine.Run(old(Now(sending, Idle, compaction)), es, Now(sending, Idle, compaction))
        invariant forall e | e in es :: Flushes(e)
        invariant (forall j | 0 <= j < i :: work[j] == SMOOTH) ==> forall e | e in es :: !e.FlushError?
      {
        ghost var before := Now(sending, Idle, compaction);
        ghost var more := FlushOne(work[i], sending, compaction);
        machine.RunThen(old(Now(sending, Idle, compaction)), es, before, more, Now(sending, Idle, compaction));
        es := es + more;
      }
    }

    /** Before a memtable is sent the worker gets done with `pace` requests, or as many as
        there are; a full queue makes the sender wait for at least one. */
    function Handled(pace: nat): nat
      reads this
    {
      if pace == 0 && |queue| >= QUEUE_CAPACITY then 1 else if pace < |queue| then pace else |queue|
    }

    /** One memtable is taken out and sent; an empty one is skipped. */
    method FlushKey(key: nat, pace: nat, fates: nat -> Fates, from: nat, ghost compaction: Compaction)
      returns (done: nat, ghost es: seq<Event>)
      requires Valid() && key in memtables && |queue| <= QUEUE_CAPACITY && forall i :: |fates(i)| == 3
      modifies this`memtables, this`queue, this`partitions, this`disk, this`dropped, this`accepted
      ensures memtables == old(memtables) - {key} && |queue| <= QUEUE_CAPACITY && done <= old(|queue|)
      ensures queue == old(queue)[done..] + if old(memtables[key]) == [] then [] else [Frozen(key, old(memtables[key]))]
      ensures machine.Run(old(Now(None, Idle, compaction)), es, Now(None, Idle, compaction))
      ensures FlushRun(es, fates, from, from + done)
    {
      ghost var start := Now(None, Idle, compaction);
      var rows := memtables[key];
      machine.Takes(cfg, start, [], start, key);
      memtables := memtables - {key};
      es := [] + [Take(key)];
      if rows == [] { return 0, es; }
      ghost var taken, more := Now(Some(Frozen(key, rows)), Idle, compaction), [];
      done, more := SendKey(Frozen(key, rows), pace, fates, from, compaction);
      machine.RunThen(start, es, taken, more, Now(None, Idle, compaction));
      es := es + more;
    }

    method SendKey(f: Frozen, pace: nat, fates: nat -> Fates, from: nat, ghost compaction: Compaction)
      returns (done: nat, ghost es: seq<Event>)
      requires Valid() && |queue| <= QUEUE_CAPACITY && forall i :: |fates(i)| == 3
      modifies this`queue, this`partitions, this`disk, this`dropped, this`accepted
      ensures |queue| <= QUEUE_CAPACITY && done == old(Handled(pace)) && queue == old(queue)[done..] + [f]
      ensures machine.Run(old(Now(Some(f), Idle, compaction)), es, Now(None, Idle, compaction))
      ensures FlushRun(es, fates, from, from + done)
    {
      ghost var start := Now(Some(f), Idle, compaction);
      es := GetOrCreatePartition(f.key, Some(f), Idle, compaction);
      ghost var ready := Now(Some(f), Idle, compaction);
      done := Handled(pace);
      ghost var more := FlushSome(seq(done, i requires 0 <= i < done => fates(from + i)), Some(f), compaction);
      machine.RunThen(start, es, ready, more, Now(Some(f), Idle, compaction));
      es := es + more;
      machine.Sends(cfg, start, es, Now(Some(f), Idle, compaction));
      queue := queue + [f];
      es := es + [Send];
    }

    /** The next memtable of all those to send */
    method FlushTurn(key: nat, pace: nat, fates: nat -> Fates, done: nat, ghost all: map<nat, seq<Rec>>, ghost before: seq<Frozen>,
                     ghost gone: map<nat, seq<Rec>>, ghost sent: seq<Frozen>, ghost start: State, ghost es: seq<Event>,
                     ghost compaction: Compaction)
      returns (done': nat, ghost gone': map<nat, seq<Rec>>, ghost sent': seq<Frozen>, ghost es': seq<Event>)
      requires Valid() && key in memtables && |queue| <= QUEUE_CAPACITY && forall i :: |fates(i)| == 3
      requires SentSoFar(all, before, memtables, queue, gone, sent, done)
      requires machine.Run(start, es, Now(None, Idle, compaction)) && FlushRun(es, fates, 0, done)
      modifies this`memtables, this`queue, this`partitions, this`disk, this`dropped, this`accepted
      ensures memtables == old(memtables) - {key} && |queue| <= QUEUE_CAPACITY
      ensures SentSoFar(all, before, memtables, queue, gone', sent', done')
      ensures machine.Run(start, es', Now(None, Idle, compaction)) && FlushRun(es', fates, 0, done')
    {
      ghost var was, rows := Now(None, Idle, compaction), memtables[key];
      var more, moreEs := FlushKey(key, pace, fates, done, compaction);
      machine.RunThen(start, es, was, moreEs, Now(None, Idle, compaction));
      SendOne(all, before, was.mem, was.queue, gone, sent, done, key, more);
      FlushRunConcat(es, moreEs, fates, 0, done, done + more);
      done', gone', es' := done + more, gone[key := rows], es + moreEs;
      sent' := sent + if rows == [] then [] else [Frozen(key, rows)];
    }

    /** Every memtable there is, in the order the map gives them. `pace` and `fates` say what
        the worker does meanwhile; the first `done` requests were handled, the others wait. */
    method FlushAll(pace: nat -> nat, fates: nat -> Fates, ghost compaction: Compaction)
      returns (done: nat, ghost sent: seq<Frozen>, ghost es: seq<Event>)
      requires Valid() && |queue| <= QUEUE_CAPACITY && forall i :: |fates(i)| == 3
      modifies this`memtables, this`queue, this`partitions, this`disk, this`dropped, this`accepted
      ensures memtables == map[] && |queue| <= QUEUE_CAPACITY
      ensures done <= |old(queue) + sent| && queue == (old(queue) + sent)[done..] && SentFrom(old(memtables), sent)
      ensures machine.Run(old(Now(None, Idle, compaction)), es, Now(None, Idle, compaction))
      ensures FlushRun(es, fates, 0, done)
    {
      ghost var start := Now(None, Idle, compaction);
      ghost var gone := map[];
      NoneSent(memtables, queue);
      done, sent, es := 0, [], [];
      var keys, turn := memtables.Keys, 0;
      while keys != {}
        invariant memtables.Keys == keys && |queue| <= QUEUE_CAPACITY
        invariant SentSoFar(old(memtables), old(queue), memtables, queue, gone, sent, done)
        invariant machine.Run(start, es, Now(None, Idle, compaction))
        invariant FlushRun(es, fates, 0, done)
        decreases |keys|
      {
        var key :| key in keys;
        done, gone, sent, es := FlushTurn(key, pace(turn), fates, done, old(memtables), old(queue), gone, sent, start, es, compaction);
        keys, turn := keys - {key}, turn + 1;
      }
      assert memtables == map[];
      AllSent(old(memtables), old(queue), queue, gone, sent, done);
    }

    /** Closing sends every memtable and gives the worker some time: `last` more requests get
        done, or as many as there are. Nothing waits for the others. */
    method Close(pace: nat -> nat, fates: nat -> Fates, last: nat, ghost compaction: Compaction)
      returns (done: nat, ghost sent: seq<Frozen>, ghost es: seq<Event>)
      requires Valid() && |queue| <= QUEUE_CAPACITY && forall i :: |fates(i)| == 3
      modifies this
      ensures closed && memtables == map[]
      ensures done <= |old(queue) + sent| && queue == (old(queue) + sent)[done..] && SentFrom(old(memtables), sent)
      ensures machine.Run(old(Now(None, Idle, compaction)), es, Now(None, Idle, compaction))
      ensures FlushRun(es, fates, 0, done)
    {
      closed := true;
      done, sent, es := FlushAll(pace, fates, compaction);
      var count := if last < |queue| then last else |queue|;
      ghost var before := Now(None, Idle, compaction);
      ghost var more := FlushSome(seq(count, i requires 0 <= i < count => fates(done + i)), None, compaction);
      machine.RunThen(old(Now(None, Idle, compaction)), es, before, more, Now(None, Idle, compaction));
      done, es := done + count, es + more;
    }

    // ----- Compaction -----

    /** Everything the inputs still give, in their order; files and batches that cannot be
        read are skipped. */
    static method ReadInputs(read: seq<Option<seq<Rec>>>) returns (all: seq<Rec>, any: bool)
      ensures all == Gathered(read)
      ensures any <==> exists i :: 0 <= i < |read| && read[i].Some?
    {
      all, any := [], false;
      for i := 0 to |read|
        invariant all == Gathered(read[..i])
        invariant any <==> exists j :: 0 <= j < i && read[j].Some?
      {
        assert read[..i + 1][..i] == read[..i];
        if read[i].Some? {
          all := all + read[i].value;
          any := true;
        }
      }
      assert read[..|read|] == read;
    }

    method DrainTables(at: Place) returns (inputs: seq<Table>)
      modifies this`partitions
      ensures inputs == PartAt(old(partitions), at).tables
      ensures partitions == old(partitions)[at := SigPart([], PartAt(old(partitions), at).next)]
    {
      var part := PartAt(partitions, at);
      inputs := part.tables;
      partitions := partitions[at := SigPart([], part.next)];
    }

    method StartCompaction(at: Place, ghost sending: Option<Frozen>, ghost flush: Flush) returns (inputs: seq<Table>, seqno: nat)
      requires machine.Is(cfg) && |PartAt(partitions, at).tables| >= cfg.trigger && |PartAt(partitions, at).tables| >= 2
      modifies this`partitions
      ensures inputs == PartAt(old(partitions), at).tables
      ensures machine.Run(old(Now(sending, flush, Resting)), [BeginCompaction(at), NumberCompaction],
                          Now(sending, flush, Merging(at, inputs, seqno)))
    {
      ghost var start := Now(sending, flush, Resting);
      machine.Begins(cfg, start, [], start, at);
      inputs := DrainTables(at);
      machine.Numbers(cfg, start, [] + [BeginCompaction(at)], Now(sending, flush, Drained(at, inputs)));
      seqno := NextSeq(at);
      assert [] + [BeginCompaction(at)] + [NumberCompaction] == [BeginCompaction(at), NumberCompaction];
    }

    method MergeInputs(at: Place, inputs: seq<Table>, seqno: nat, all: seq<Rec>, any: bool, fate: Fate,
                       ghost sending: Option<Frozen>, ghost flush: Flush)
      returns (ghost e: Event)
      requires machine.Is(cfg) && multiset(all) <= multiset(AllRows(inputs))
      modifies this`partitions, this`disk, this`dropped, this`orphaned
      ensures e == if !any then NothingReadable else if fate.Breaks? then CompactionError(fate.torn) else EndCompaction(all)
      ensures machine.Run(old(Now(sending, flush, Merging(at, inputs, seqno))), [e],
                          Now(sending, flush, if any && fate.Breaks? then Resting else Deleting(at, inputs)))
    {
      if !any {
        GiveUp(at, inputs, seqno, sending, flush);
        return NothingReadable;
      }
      if fate.Breaks? {
        Orphan(at, inputs, seqno, fate.torn, sending, flush);
        return CompactionError(fate.torn);
      }
      WriteMerged(at, inputs, seqno, all, sending, flush);
      return EndCompaction(all);
    }

    /** Nothing could be read: the inputs are as good as lost. */
    ghost method GiveUp(at: Place, inputs: seq<Table>, seqno: nat, sending: Option<Frozen>, flush: Flush)
      requires machine.Is(cfg)
      modifies this`dropped
      ensures machine.Run(old(Now(sending, flush, Merging(at, inputs, seqno))), [NothingReadable],
                          Now(sending, flush, Deleting(at, inputs)))
    {
      var start := Now(sending, flush, Merging(at, inputs, seqno));
      assert [] + [NothingReadable] == [NothingReadable];
      machine.Abandons(cfg, start, [], start, false);
      dropped := dropped + multiset(AllRows(inputs));
    }

    method Orphan(at: Place, ghost inputs: seq<Table>, seqno: nat, torn: bool, ghost sending: Option<Frozen>, ghost flush: Flush)
      requires machine.Is(cfg)
      modifies this`disk, this`orphaned
      ensures machine.Run(old(Now(sending, flush, Merging(at, inputs, seqno))), [CompactionError(torn)],
                          Now(sending, flush, Resting))
    {
      ghost var start := Now(sending, flush, Merging(at, inputs, seqno));
      assert [] + [CompactionError(torn)] == [CompactionError(torn)];
      machine.Abandons(cfg, start, [], start, torn);
      disk := Torn(torn, disk, at, seqno);
      orphaned := orphaned + multiset(AllRows(inputs));
    }

    method WriteMerged(at: Place, ghost inputs: seq<Table>, seqno: nat, all: seq<Rec>, ghost sending: Option<Frozen>, ghost flush: Flush)
      requires machine.Is(cfg) && multiset(all) <= multiset(AllRows(inputs))
      modifies this`partitions, this`disk, this`dropped
      ensures machine.Run(old(Now(sending, flush, Merging(at, inputs, seqno))), [EndCompaction(all)],
                          Now(sending, flush, Deleting(at, inputs)))
    {
      ghost var start := Now(sending, flush, Merging(at, inputs, seqno));
      assert [] + [EndCompaction(all)] == [EndCompaction(all)];
      var t := WriteTable(seqno, all);
      machine.Ends(cfg, start, [], start, all, t);
      AddSstable(at, t);
      dropped := dropped + (multiset(AllRows(inputs)) - multiset(all));
    }

    method DeleteFile(at: Place, input: Table, removal: Removal)
      modifies this`disk, this`stale
      ensures disk == Removed(old(disk), at, input.seqno, removal.data, removal.zone)
      ensures stale == if removal.data || removal.zone then old(stale) else old(stale) + multiset(input.rows)
    {
      disk := Removed(disk, at, input.seqno, removal.data, removal.zone);
      if !removal.data && !removal.zone { stale := stale + multiset(input.rows); }
    }

    /** The files of the inputs go one by one, by number; those that cannot be removed stay. */
    method DeleteInputs(at: Place, inputs: seq<Table>, removals: seq<Removal>, ghost sending: Option<Frozen>, ghost flush: Flush)
      returns (ghost es: seq<Event>)
      requires machine.Is(cfg) && |removals| == |inputs|
      modifies this`disk, this`stale
      ensures es == Deletions(removals) + [FinishCompaction]
      ensures machine.Run(old(Now(sending, flush, Deleting(at, inputs))), es, Now(sending, flush, Resting))
    {
      ghost var start := Now(sending, flush, Deleting(at, inputs));
      es := [];
      for i := 0 to |inputs|
        invariant es == Deletions(removals[..i])
        invariant machine.Run(start, es, Now(sending, flush, Deleting(at, inputs[i..])))
      {
        assert removals[..i + 1][..i] == removals[..i];
        assert inputs[i..][1..] == inputs[i + 1..];
        machine.Deletes(cfg, start, es, Now(sending, flush, Deleting(at, inputs[i..])), removals[i].data, removals[i].zone);
        DeleteFile(at, inputs[i], removals[i]);
        es := es + [DeleteInput(removals[i].data, removals[i].zone)];
      }
      assert removals[..|removals|] == removals;
      machine.Rests(cfg, start, es, Now(sending, flush, Deleting(at, inputs[|inputs|..])));
      es := es + [FinishCompaction];
    }

    /** The tables of a signal are drained, read and replaced by one, and their files deleted;
        an error in between leaves their files behind and their rows in no list. Whatever the
        flush worker is at stays as it is. */
    method CompactSignal(at: Place, read: seq<Option<seq<Rec>>>, fate: Fate, removals: seq<Removal>,
                         ghost sending: Option<Frozen>, ghost flush: Flush)
      returns (merged: bool, ghost es: seq<Event>)
      requires Valid() && ReadFrom(PartAt(partitions, at).tables, read) && |removals| == |read|
      modifies this`partitions, this`disk, this`dropped, this`orphaned, this`stale
      ensures machine.Run(old(Now(sending, flush, Resting)), es, Now(sending, flush, Resting))
      ensures var n, any := |PartAt(old(partitions), at).tables|, exists i :: 0 <= i < |read| && read[i].Some?;
              && merged == (n >= cfg.trigger && n >= 2 && any && fate.Succeeds?)
              && es == if n < cfg.trigger || n < 2 then []
                       else [BeginCompaction(at), NumberCompaction] +
                            if any && fate.Breaks? then [CompactionError(fate.torn)]
                            else [if any then EndCompaction(Gathered(read)) else NothingReadable]
                                 + (Deletions(removals) + [FinishCompaction])
    {
      if |PartAt(partitions, at).tables| < cfg.trigger || |PartAt(partitions, at).tables| < 2 { return false, []; }
      ghost var start := Now(sending, flush, Resting);
      var inputs, seqno := StartCompaction(at, sending, flush);
      var all, any := ReadInputs(read);
      GatheredWithin(inputs, read);
      ghost var merging := Now(sending, flush, Merging(at, inputs, seqno));
      ghost var more := MergeAndDelete(at, inputs, seqno, all, any, fate, removals, sending, flush);
      es := [BeginCompaction(at), NumberCompaction];
      machine.RunThen(start, es, merging, more, Now(sending, flush, Resting));
      merged, es := any && fate.Succeeds?, es + more;
    }

    method MergeAndDelete(at: Place, inputs: seq<Table>, seqno: nat, all: seq<Rec>, any: bool, fate: Fate, removals: seq<Removal>,
                          ghost sending: Option<Frozen>, ghost flush: Flush)
      returns (ghost es: seq<Event>)
      requires machine.Is(cfg) && multiset(all) <= multiset(AllRows(inputs)) && |removals| == |inputs|
      modifies this`partitions, this`disk, this`dropped, this`orphaned, this`stale
      ensures machine.Run(old(Now(sending, flush, Merging(at, inputs, seqno))), es, Now(sending, flush, Resting))
      ensures es == if any && fate.Breaks? then [CompactionError(fate.torn)]
                    else [if any then EndCompaction(all) else NothingReadable] + (Deletions(removals) + [FinishCompaction])
    {
      ghost var start := Now(sending, flush, Merging(at, inputs, seqno));
      ghost var e := MergeInputs(at, inputs, seqno, all, any, fate, sending, flush);
      es := [e];
      if !any || fate.Succeeds? {
        ghost var listed := Now(sending, flush, Deleting(at, inputs));
        ghost var more := DeleteInputs(at, inputs, removals, sending, flush);
        machine.RunThen(start, es, listed, more, Now(sending, flush, Resting));
        es := es + more;
      }
    }
  }
}
