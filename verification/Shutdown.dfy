/** What closing the engine saves, and exactly when it saves everything that decodes. */
module Shutdown {
  import opened Options
  import opened Partition
  import opened Engine
  import opened Invariants
  import opened StorageEngine
  import opened Conservation

  /** The step fails a flush that still held `r`. */
  ghost predicate LosesRow(cfg: Config, s: State, e: Event, r: Rec)
    requires cfg.Valid() && Enabled(cfg, s, e)
  {
    e.FlushError? && (r in s.flush.pending.value.rows || r in Later(s.flush.job.rows, s.flush.stage + 1))
  }

  /** What a step towards disk leaves alone, and whether it loses `r` */
  ghost predicate Books(s: State, t: State, lost: bool, r: Rec) {
    && t.orphaned == s.orphaned && t.compaction == s.compaction
    && s.dropped[r] <= t.dropped[r] && (t.dropped[r] == s.dropped[r] <==> !lost)
  }

  lemma NoneUndecodable(rows: seq<Rec>, r: Rec)
    requires r.decodes
    ensures multiset(Decodable(rows, false))[r] == 0
  {
    if r in Decodable(rows, false) { DecodableRows(rows, false, r); }
  }

  lemma AllocateBooks(s: State, none: bool, good: seq<Rec>, bad: seq<Rec>, r: Rec)
    requires s.flush.Flushing? && multiset(bad)[r] == 0
    ensures Books(s, Allocated(s, none, good, bad), false, r)
  {
  }

  lemma BrokenBooks(s: State, torn: bool, rest: seq<Rec>, r: Rec)
    requires s.flush.Flushing? && s.flush.pending.Some?
    ensures Books(s, Broken(s, torn, multiset(rest)), r in s.flush.pending.value.rows || r in rest, r)
  {
    var rows := s.flush.pending.value.rows;
    assert r in rows <==> multiset(rows)[r] > 0;
    assert r in rest <==> multiset(rest)[r] > 0;
  }

  lemma FlushStepBooks(cfg: Config, s: State, e: Event, r: Rec)
    requires cfg.Valid() && Enabled(cfg, s, e) && Flushes(e) && r.decodes
    ensures Books(s, Step(cfg, s, e), LosesRow(cfg, s, e, r), r)
  {
    match e
    case Allocate =>
      var rows := DrainSignal(s.flush.job.rows, s.flush.stage);
      NoneUndecodable(rows, r);
      AllocateBooks(s, rows == [], Decodable(rows, true), Decodable(rows, false), r);
    case FlushError(torn) => BrokenBooks(s, torn, Later(s.flush.job.rows, s.flush.stage + 1), r);
    case _ =>
  }

  ghost predicate LostInRun(cfg: Config, s: State, es: seq<Event>, r: Rec)
    requires cfg.Valid() && IsRun(cfg, s, es)
    decreases |es|
  {
    es != [] && (LosesRow(cfg, s, es[0], r) || LostInRun(cfg, Step(cfg, s, es[0]), es[1..], r))
  }

  lemma {:induction false} FlushRunBooks(cfg: Config, s: State, es: seq<Event>, r: Rec)
    requires cfg.Valid() && IsRun(cfg, s, es) && (forall e | e in es :: Flushes(e)) && r.decodes
    ensures Books(s, After(cfg, s, es), LostInRun(cfg, s, es, r), r)
    decreases |es|
  {
    if es != [] {
      FlushStepBooks(cfg, s, es[0], r);
      assert forall e | e in es[1..] :: e in es;
      FlushRunBooks(cfg, Step(cfg, s, es[0]), es[1..], r);
    }
  }

  /** `r` is in SSTables as often as it was accepted and not lost before `s`. */
  ghost predicate Saved(s: State, t: State, r: Rec) { OnDisk(t)[r] + s.dropped[r] + s.orphaned[r] == t.accepted[r] }

  /** Memtables empty and the workers between requests, as closing leaves them */
  ghost predicate Idles(t: State) { t.mem == map[] && t.sending.None? && t.flush.Idle? }

  lemma IdleBalance(t: State, r: Rec)
    requires Conserved(t) && Idles(t)
    ensures t.accepted[r] == QueueBag(t.queue)[r] + OnDisk(t)[r] + t.dropped[r] + t.orphaned[r]
  {
    assert Balanced(GAUGE, t, r);
    assert MemBags(t.mem) == map[];
  }

  /** A run of flushes that takes every memtable out of memory, such as closing is, saves a
      decodable row exactly if none of it is still queued at the end and no flush that held
      it failed. */
  lemma ClosingSavesExactly(cfg: Config, m: Machine, s: State, es: seq<Event>, t: State, r: Rec)
    requires m.Is(cfg) && m.Run(s, es, t) && (forall e | e in es :: Flushes(e))
    requires Inv(cfg, s) && Conserved(s) && Idles(t) && r.decodes
    ensures IsRun(cfg, s, es)
    ensures Saved(s, t, r) <==> QueueBag(t.queue)[r] == 0 && !LostInRun(cfg, s, es, r)
  {
    RunIsRun(cfg, m, s, es, t);
    EveryRunHolds(cfg, s, es);
    FlushRunBooks(cfg, s, es, r);
    IdleBalance(t, r);
  }

  lemma {:induction false} SmoothRun(cfg: Config, s: State, es: seq<Event>, r: Rec)
    requires cfg.Valid() && IsRun(cfg, s, es) && forall e | e in es :: !e.FlushError?
    ensures !LostInRun(cfg, s, es, r)
    decreases |es|
  {
    if es != [] {
      assert forall e | e in es[1..] :: e in es;
      SmoothRun(cfg, Step(cfg, s, es[0]), es[1..], r);
    }
  }

  /** With the queue empty at the end and no failure, every decodable row is saved. */
  lemma CleanClosingSaves(cfg: Config, m: Machine, s: State, es: seq<Event>, t: State, r: Rec)
    requires m.Is(cfg) && m.Run(s, es, t) && (forall e | e in es :: Flushes(e) && !e.FlushError?)
    requires Inv(cfg, s) && Conserved(s) && Idles(t) && t.queue == [] && r.decodes
    ensures Saved(s, t, r)
  {
    ClosingSavesExactly(cfg, m, s, es, t, r);
    SmoothRun(cfg, s, es, r);
  }
}
