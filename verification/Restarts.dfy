/** The files behind the books: every row the engine has on disk lies in one file, whatever
    the interleaving, and what an engine finds that is started on those files. */
module Restarts {
  import opened Options
  import opened Sorting
  import opened Partition
  import opened Engine
  import opened Conservation
  import opened Invariants

  // ----- Rows in files -----

  ghost function FileBag(file: Option<Table>): multiset<Rec> {
    match file case None => multiset{} case Some(t) => multiset(t.rows)
  }

  ghost function FileBags(dir: Directory): map<nat, multiset<Rec>> { map n | n in dir :: FileBag(dir[n]) }

  ghost function DirBag(dir: Directory): multiset<Rec> { MapBag(FileBags(dir)) }

  ghost function DirBags(disk: Disk): map<Place, multiset<Rec>> { map at | at in disk :: DirBag(disk[at]) }

  /** All rows in readable files */
  ghost function DiskBag(disk: Disk): multiset<Rec> { MapBag(DirBags(disk)) }

  /** The directories not opened yet */
  ghost function Unopened(disk: Disk, parts: map<Place, SigPart>): Disk { map at | at in disk && at !in parts :: disk[at] }

  ghost function InputBag(c: Compaction): multiset<Rec> {
    if c.Resting? then multiset{} else multiset(AllRows(c.inputs))
  }

  /** The files account for one record: it is in listed tables, in inputs of a compaction, among
      the orphaned and stale rows, and in directories that nobody opened. */
  ghost predicate Filing(s: State, x: Rec) {
    DiskBag(s.disk)[x] == PartBag(s.parts)[x] + InputBag(s.compaction)[x] + s.orphaned[x] + s.stale[x]
                          + DiskBag(Unopened(s.disk, s.parts))[x]
  }

  ghost predicate FiledOnce(s: State) { forall x :: Filing(s, x) }

  lemma DirPut(dir: Directory, n: nat, file: Option<Table>)
    requires n !in dir
    ensures DirBag(dir[n := file]) == DirBag(dir) + FileBag(file)
  {
    assert FileBags(dir[n := file]) == FileBags(dir)[n := FileBag(file)];
    MapBagUpdate(FileBags(dir), n, FileBag(file));
  }

  lemma DirErase(dir: Directory, n: nat)
    requires n in dir
    ensures DirBag(dir) == FileBag(dir[n]) + DirBag(dir - {n})
  {
    assert FileBags(dir - {n}) == FileBags(dir) - {n};
    MapBagSplit(FileBags(dir), n);
  }

  lemma NoFiles()
    ensures DirBag(map[]) == multiset{} && DiskBag(map[]) == multiset{}
  {
    assert FileBags(map[]) == map[];
    assert DirBags(map[]) == map[];
  }

  lemma DiskChange(disk: Disk, at: Place, dir: Directory)
    ensures DiskBag(disk[at := dir]) + DirBag(DirAt(disk, at)) == DiskBag(disk) + DirBag(dir)
  {
    assert DirBags(disk[at := dir]) == DirBags(disk)[at := DirBag(dir)];
    MapBagUpdate(DirBags(disk), at, DirBag(dir));
    NoFiles();
  }

  /** A file under a number of its own adds its rows. */
  lemma DiskPut(disk: Disk, at: Place, n: nat, file: Option<Table>)
    requires n !in DirAt(disk, at)
    ensures DiskBag(Put(disk, at, n, file)) == DiskBag(disk) + FileBag(file)
  {
    DirPut(DirAt(disk, at), n, file);
    DiskChange(disk, at, DirAt(disk, at)[n := file]);
    Cancel(DiskBag(Put(disk, at, n, file)), DiskBag(disk), DirBag(DirAt(disk, at)), FileBag(file));
  }

  ghost function Gone(t: Table, data: bool, zone: bool): multiset<Rec> {
    if data || zone then multiset(t.rows) else multiset{}
  }

  lemma DirRemoved(dir: Directory, t: Table)
    requires t.seqno in dir && dir[t.seqno] == Some(t)
    ensures DirBag(dir) == DirBag(dir - {t.seqno}) + multiset(t.rows)
    ensures DirBag(dir) == DirBag(dir[t.seqno := Some(t.(rows := []))]) + multiset(t.rows)
  {
    var hollow := Some(t.(rows := []));
    DirErase(dir, t.seqno);
    DirErase(dir[t.seqno := hollow], t.seqno);
    assert dir[t.seqno := hollow] - {t.seqno} == dir - {t.seqno};
    assert multiset(hollow.value.rows) == multiset{};
  }

  /** Removal by number takes away the rows of the table of that number, and no others. */
  lemma DiskRemoved(disk: Disk, at: Place, t: Table, data: bool, zone: bool)
    requires t.seqno in DirAt(disk, at) && DirAt(disk, at)[t.seqno] == Some(t)
    ensures DiskBag(Removed(disk, at, t.seqno, data, zone)) + Gone(t, data, zone) == DiskBag(disk)
  {
    var dir, after := DirAt(disk, at), DirAt(Removed(disk, at, t.seqno, data, zone), at);
    DirRemoved(dir, t);
    assert DirBag(dir) == DirBag(after) + Gone(t, data, zone);
    assert Removed(disk, at, t.seqno, data, zone) == disk[at := after];
    DiskChange(disk, at, after);
    Cancel(DiskBag(disk), DiskBag(disk[at := after]), DirBag(after), Gone(t, data, zone));
  }

  // ----- Opening a directory -----

  function Under(dir: Directory, n: nat): Directory { map k | k in dir && k < n :: dir[k] }

  ghost function BagOf(dir: Directory, n: nat): multiset<Rec> { if n in dir then FileBag(dir[n]) else multiset{} }

  lemma UnderNext(dir: Directory, n: nat)
    ensures DirBag(Under(dir, n + 1)) == DirBag(Under(dir, n)) + BagOf(dir, n)
  {
    if n in dir {
      assert Under(dir, n + 1) == Under(dir, n)[n := dir[n]];
      DirPut(Under(dir, n), n, dir[n]);
    } else {
      assert Under(dir, n + 1) == Under(dir, n);
    }
  }

  lemma AscendingNext(dir: Directory, n: nat)
    ensures multiset(AllRows(Ascending(dir, n + 1))) == multiset(AllRows(Ascending(dir, n))) + BagOf(dir, n)
  {
    var init := Ascending(dir, n);
    if n in dir && dir[n].Some? {
      AllRowsSnoc(init, dir[n].value.(seqno := n));
    } else {
      assert Ascending(dir, n + 1) == init + [];
      assert init + [] == init;
    }
  }

  lemma NothingUnder(dir: Directory)
    ensures AllRows(Ascending(dir, 0)) == [] && DirBag(Under(dir, 0)) == multiset{}
  {
    assert Under(dir, 0) == map[];
    NoFiles();
  }

  lemma {:induction false} AscendingBag(dir: Directory, n: nat)
    ensures multiset(AllRows(Ascending(dir, n))) == DirBag(Under(dir, n))
  {
    if n == 0 {
      NothingUnder(dir);
    } else {
      var m := n - 1;
      AscendingBag(dir, m);
      UnderNext(dir, m);
      AscendingNext(dir, m);
      assert DirBag(Under(dir, m + 1)) == multiset(AllRows(Ascending(dir, m + 1)));
    }
  }

  /** Opening a directory finds the rows of all of its readable files. */
  lemma LoadedBag(dir: Directory)
    ensures multiset(AllRows(Loaded(dir).tables)) == DirBag(dir)
  {
    MaxKeyBounds(dir);
    AscendingBag(dir, MaxKey(dir) + 1);
    assert Under(dir, MaxKey(dir) + 1) == dir;
  }

  // ----- Steps -----

  lemma SameUnopened(disk: Disk, parts: map<Place, SigPart>, at: Place, dir: Directory, part: SigPart)
    requires at in parts
    ensures Unopened(disk[at := dir], parts[at := part]) == Unopened(disk, parts)
    ensures Unopened(disk, parts[at := part]) == Unopened(disk, parts)
    ensures Unopened(disk[at := dir], parts) == Unopened(disk, parts)
  {
  }

  lemma OpenFiles(s: State, at: Place, part: SigPart, accepted: multiset<Rec>, x: Rec)
    requires Filing(s, x) && at !in s.parts && part == Loaded(DirAt(s.disk, at))
    ensures Filing(s.(parts := s.parts[at := part], accepted := accepted), x)
  {
    var before, after := Unopened(s.disk, s.parts), Unopened(s.disk, s.parts[at := part]);
    LoadedBag(DirAt(s.disk, at));
    PartUpdate(s.parts, at, part);
    assert AllRows([]) == [];
    assert (PartBag(s.parts[at := part]) + multiset([]))[x] == (PartBag(s.parts) + DirBag(DirAt(s.disk, at)))[x];
    UnopenedOpened(s.disk, s.parts, at, part);
    assert DiskBag(before)[x] == (DiskBag(after) + DirBag(DirAt(s.disk, at)))[x];
  }

  lemma UnopenedOpened(disk: Disk, parts: map<Place, SigPart>, at: Place, part: SigPart)
    requires at !in parts
    ensures DiskBag(Unopened(disk, parts)) == DiskBag(Unopened(disk, parts[at := part])) + DirBag(DirAt(disk, at))
  {
    var before, after := Unopened(disk, parts), Unopened(disk, parts[at := part]);
    if at in disk {
      assert before == after[at := disk[at]];
      DiskChange(after, at, disk[at]);
      NoFiles();
    } else {
      assert before == after;
      NoFiles();
    }
  }

  lemma SameFiles(s: State, t: State, x: Rec)
    requires Filing(s, x) && t.disk == s.disk && t.orphaned == s.orphaned && t.stale == s.stale
    requires PartBag(t.parts) == PartBag(s.parts) && Unopened(t.disk, t.parts) == Unopened(s.disk, s.parts)
    requires InputBag(t.compaction) == InputBag(s.compaction)
    ensures Filing(t, x)
  {
  }

  /** Handing out a number touches no file. */
  lemma NumberedParts(parts: map<Place, SigPart>, disk: Disk, at: Place, next: nat)
    requires at in parts
    ensures PartBag(parts[at := SigPart(PartAt(parts, at).tables, next)]) == PartBag(parts)
    ensures Unopened(disk, parts[at := SigPart(PartAt(parts, at).tables, next)]) == Unopened(disk, parts)
  {
    PartNumber(parts, at, next);
    SameUnopened(disk, parts, at, map[], SigPart(PartAt(parts, at).tables, next));
  }

  lemma AllocateFiles(cfg: Config, s: State, none: bool, good: seq<Rec>, bad: seq<Rec>, x: Rec)
    requires cfg.Valid() && Inv(cfg, s) && Filing(s, x) && Enabled(cfg, s, Allocate)
    ensures Filing(Allocated(s, none, good, bad), x)
  {
    var at := Place(s.flush.job.key, s.flush.stage);
    NumberedParts(s.parts, s.disk, at, PartAt(s.parts, at).next + 1);
    SameFiles(s, Allocated(s, none, good, bad), x);
  }

  /** A new table brings its file along. */
  lemma AddedFiles(parts: map<Place, SigPart>, disk: Disk, at: Place, t: Table, x: Rec)
    requires Reserved(parts, disk, at, t.seqno)
    ensures PartBag(Added(parts, at, t))[x] == PartBag(parts)[x] + multiset(t.rows)[x]
    ensures DiskBag(Put(disk, at, t.seqno, Some(t)))[x] == DiskBag(disk)[x] + multiset(t.rows)[x]
    ensures Unopened(Put(disk, at, t.seqno, Some(t)), Added(parts, at, t)) == Unopened(disk, parts)
  {
    PartAdd(parts, at, t);
    DiskPut(disk, at, t.seqno, Some(t));
    SameUnopened(disk, parts, at, DirAt(disk, at)[t.seqno := Some(t)], Added(parts, at, t)[at]);
  }

  lemma RegisterFiles(cfg: Config, s: State, t: Table, x: Rec)
    requires cfg.Valid() && Inv(cfg, s) && Filing(s, x) && Enabled(cfg, s, Register) && t.seqno == s.flush.pending.value.seqno
    ensures Filing(Registered(s, t), x)
  {
    AddedFiles(s.parts, s.disk, FlushPlace(s.flush), t, x);
  }

  lemma TornFiles(parts: map<Place, SigPart>, disk: Disk, torn: bool, at: Place, n: nat)
    requires Reserved(parts, disk, at, n)
    ensures DiskBag(Torn(torn, disk, at, n)) == DiskBag(disk)
    ensures Unopened(Torn(torn, disk, at, n), parts) == Unopened(disk, parts)
  {
    DiskPut(disk, at, n, None);
    SameUnopened(disk, parts, at, DirAt(disk, at)[n := None], parts[at]);
  }

  lemma FlushErrorFiles(cfg: Config, s: State, torn: bool, x: Rec)
    requires cfg.Valid() && Inv(cfg, s) && Filing(s, x) && Enabled(cfg, s, FlushError(torn))
    ensures Filing(Step(cfg, s, FlushError(torn)), x)
  {
    TornFiles(s.parts, s.disk, torn, FlushPlace(s.flush), s.flush.pending.value.seqno);
  }

  lemma BeginFiles(cfg: Config, s: State, at: Place, x: Rec)
    requires cfg.Valid() && Inv(cfg, s) && Filing(s, x) && Enabled(cfg, s, BeginCompaction(at))
    ensures Filing(Step(cfg, s, BeginCompaction(at)), x)
  {
    var part := s.parts[at];
    PartUpdate(s.parts, at, SigPart([], part.next));
    assert (PartBag(s.parts[at := SigPart([], part.next)]) + multiset(AllRows(part.tables)))[x] == (PartBag(s.parts) + multiset([]))[x];
    SameUnopened(s.disk, s.parts, at, map[], SigPart([], part.next));
  }

  lemma NumberFiles(cfg: Config, s: State, x: Rec)
    requires cfg.Valid() && Inv(cfg, s) && Filing(s, x) && Enabled(cfg, s, NumberCompaction)
    ensures Filing(Step(cfg, s, NumberCompaction), x)
  {
    NumberedParts(s.parts, s.disk, s.compaction.at, PartAt(s.parts, s.compaction.at).next + 1);
    SameFiles(s, Step(cfg, s, NumberCompaction), x);
  }

  lemma EndFiles(cfg: Config, s: State, t: Table, x: Rec)
    requires cfg.Valid() && Inv(cfg, s) && Filing(s, x) && s.compaction.Merging? && t.seqno == s.compaction.seqno
    ensures Filing(Merged(s, t), x)
  {
    AddedFiles(s.parts, s.disk, s.compaction.at, t, x);
  }

  lemma AbandonFiles(cfg: Config, s: State, e: Event, x: Rec)
    requires cfg.Valid() && Inv(cfg, s) && Filing(s, x) && Enabled(cfg, s, e) && (e.NothingReadable? || e.CompactionError?)
    ensures Filing(Step(cfg, s, e), x)
  {
    if e.CompactionError? { TornFiles(s.parts, s.disk, e.torn, s.compaction.at, s.compaction.seqno); }
  }

  lemma {:induction false} AllRowsFront(tables: seq<Table>)
    requires tables != []
    ensures AllRows(tables) == tables[0].rows + AllRows(tables[1..])
  {
    if |tables| > 1 {
      var init, last := tables[..|tables| - 1], tables[|tables| - 1];
      AllRowsFront(init);
      assert tables[1..] == init[1..] + [last];
      AllRowsSnoc(init[1..], last);
    } else {
      assert tables[..0] == [];
    }
  }

  lemma DeleteFiles(cfg: Config, s: State, data: bool, zone: bool, x: Rec)
    requires cfg.Valid() && Inv(cfg, s) && Filing(s, x) && Enabled(cfg, s, DeleteInput(data, zone))
    ensures Filing(Step(cfg, s, DeleteInput(data, zone)), x)
  {
    var at, t := s.compaction.at, s.compaction.inputs[0];
    assert t in s.compaction.inputs;
    DiskRemoved(s.disk, at, t, data, zone);
    AllRowsFront(s.compaction.inputs);
    RemovedUnopened(s.disk, s.parts, at, t.seqno, data, zone);
    assert (DiskBag(Removed(s.disk, at, t.seqno, data, zone)) + Gone(t, data, zone))[x] == DiskBag(s.disk)[x];
  }

  lemma RemovedUnopened(disk: Disk, parts: map<Place, SigPart>, at: Place, n: nat, data: bool, zone: bool)
    requires at in parts
    ensures Unopened(Removed(disk, at, n, data, zone), parts) == Unopened(disk, parts)
  {
  }

  predicate LeavesFiles(e: Event) {
    e.Write? || e.WriteFails? || e.Take? || e.Send? || e.Dequeue? || e.FinishFlush? || e.FinishCompaction?
  }

  lemma NoFileTouched(cfg: Config, s: State, e: Event)
    requires cfg.Valid() && Enabled(cfg, s, e) && LeavesFiles(e)
    ensures var t := Step(cfg, s, e);
            && t.disk == s.disk && t.parts == s.parts && t.orphaned == s.orphaned && t.stale == s.stale
            && InputBag(t.compaction) == InputBag(s.compaction)
  {
    match e
    case Write(r) => assert Step(cfg, s, e) == Written(cfg, s, r);
    case FinishCompaction => assert AllRows([]) == [];
    case _ =>
  }

  lemma OtherFiles(cfg: Config, s: State, e: Event, x: Rec)
    requires cfg.Valid() && Filing(s, x) && Enabled(cfg, s, e) && LeavesFiles(e)
    ensures Filing(Step(cfg, s, e), x)
  {
    NoFileTouched(cfg, s, e);
    SameFiles(s, Step(cfg, s, e), x);
  }

  lemma StepFiles(cfg: Config, s: State, e: Event, x: Rec)
    requires cfg.Valid() && Inv(cfg, s) && Filing(s, x) && Enabled(cfg, s, e)
    ensures Filing(Step(cfg, s, e), x)
  {
    match e
    case OpenSignal(at) =>
      var part := Loaded(DirAt(s.disk, at));
      OpenFiles(s, at, part, s.accepted + multiset(AllRows(part.tables)), x);
    case Allocate =>
      var rows := DrainSignal(s.flush.job.rows, s.flush.stage);
      AllocateFiles(cfg, s, rows == [], Decodable(rows, true), Decodable(rows, false), x);
    case Register => RegisterFiles(cfg, s, NewTable(s.flush.pending.value.seqno, s.flush.pending.value.rows), x);
    case FlushError(torn) => FlushErrorFiles(cfg, s, torn, x);
    case BeginCompaction(at) => BeginFiles(cfg, s, at, x);
    case NumberCompaction => NumberFiles(cfg, s, x);
    case EndCompaction(kept) => EndFiles(cfg, s, NewTable(s.compaction.seqno, kept), x);
    case NothingReadable => AbandonFiles(cfg, s, e, x);
    case CompactionError(_) => AbandonFiles(cfg, s, e, x);
    case DeleteInput(data, zone) => DeleteFiles(cfg, s, data, zone, x);
    case _ => OtherFiles(cfg, s, e, x);
  }

  /** After every run the files hold exactly the rows that the engine has on disk, each as often
      as it has it, and those it left behind. */
  lemma {:induction false} EveryRunFiles(cfg: Config, s: State, es: seq<Event>)
    requires cfg.Valid() && Inv(cfg, s) && FiledOnce(s) && IsRun(cfg, s, es)
    ensures FiledOnce(After(cfg, s, es))
    decreases |es|
  {
    if es != [] {
      StepKeeps(cfg, s, es[0]);
      forall x ensures Filing(Step(cfg, s, es[0]), x) {
        assert Filing(s, x);
        StepFiles(cfg, s, es[0], x);
      }
      EveryRunFiles(cfg, Step(cfg, s, es[0]), es[1..]);
    }
  }

  // ----- Stopping and starting again -----

  /** An engine started on the files that another one left, wherever that one stopped */
  ghost function Restarted(s: State): State {
    State(map[], [], None, Idle, Resting, map[], s.disk, multiset{}, multiset{}, multiset{}, multiset{})
  }

  lemma OpenedFiles(cfg: Config, s: State)
    requires cfg.Valid() && Opened(cfg, s)
    ensures FiledOnce(s)
  {
    assert PartBags(s.parts) == map[];
    assert Unopened(s.disk, s.parts) == s.disk;
  }

  /** A history: runs, each started on the files that the one before left. */
  ghost predicate IsHistory(cfg: Config, s: State, runs: seq<seq<Event>>)
    requires cfg.Valid()
    decreases |runs|
  {
    runs == [] || (IsRun(cfg, s, runs[0]) && IsHistory(cfg, Restarted(After(cfg, s, runs[0])), runs[1..]))
  }

  ghost function AtLast(cfg: Config, s: State, runs: seq<seq<Event>>): State
    requires cfg.Valid() && IsHistory(cfg, s, runs)
    decreases |runs|
  {
    if runs == [] then s else AtLast(cfg, Restarted(After(cfg, s, runs[0])), runs[1..])
  }

  /** Wherever a run stops, an engine started on its files is soundly opened; so every state of
      every history of runs and stops is sound, conserves rows and keeps its files. */
  lemma {:induction false} EveryHistoryHolds(cfg: Config, s: State, runs: seq<seq<Event>>, es: seq<Event>)
    requires cfg.Valid() && Opened(cfg, s) && IsHistory(cfg, s, runs) && IsRun(cfg, AtLast(cfg, s, runs), es)
    ensures Opened(cfg, AtLast(cfg, s, runs))
    ensures var t := After(cfg, AtLast(cfg, s, runs), es);
            Inv(cfg, t) && Conserved(t) && FiledOnce(t) && Opened(cfg, Restarted(t))
    decreases |runs|
  {
    OpenedHolds(cfg, s);
    OpenedFiles(cfg, s);
    if runs == [] {
      EveryRunHolds(cfg, s, es);
      EveryRunFiles(cfg, s, es);
    } else {
      EveryRunHolds(cfg, s, runs[0]);
      EveryHistoryHolds(cfg, Restarted(After(cfg, s, runs[0])), runs[1..], es);
    }
  }

  /** The directories a run leaves are listed, in whatever order, under distinct numbers, and
      scanning one gives fresh and sound tables. */
  lemma ReopenFromRun(cfg: Config, s: State, at: Place, files: seq<ZoneFile>, part: SigPart)
    requires cfg.Valid() && Inv(cfg, s) && Lists(files, DirAt(s.disk, at))
    requires part == SigPart(StableSort(SeqOf, Readable(files)), MaxSeq(files) + 1)
    ensures DistinctNumbers(files) && part == Loaded(DirAt(s.disk, at))
    ensures PartOk(part, DirAt(s.disk, at)) && TablesAt(cfg, part.tables, at)
  {
    ScanFindsDirectory(files, DirAt(s.disk, at));
    DirAtOk(cfg, s.disk, at);
    LoadedOk(cfg, DirAt(s.disk, at), at);
    FiledAt(cfg, s.disk, part.tables, at);
    ReopenIsFresh(files);
  }

  /** What compactions leave in files although it lives on in their output, or was given up */
  ghost function Leftover(s: State): multiset<Rec> {
    (if s.compaction.Deleting? then multiset(AllRows(s.compaction.inputs)) else multiset{}) + s.stale
  }

  /** Of the rows a stopped engine had, the files hold all that were not in memory and not
      dropped, and the leftovers once more. */
  lemma FilesAfterStop(s: State)
    requires Conserved(s) && FiledOnce(s)
    ensures InMemory(s) + DiskBag(s.disk) + s.dropped == s.accepted + DiskBag(Unopened(s.disk, s.parts)) + Leftover(s)
  {
    var a := InMemory(s) + DiskBag(s.disk) + s.dropped;
    var b := s.accepted + DiskBag(Unopened(s.disk, s.parts)) + Leftover(s);
    ConservedMeaning(s);
    forall x ensures a[x] == b[x] {
      assert Filing(s, x);
      assert s.accepted[x] == (InMemory(s) + OnDisk(s) + s.dropped + s.orphaned)[x];
    }
  }

  /** Starting again doubles no row exactly if no compaction was between registering its output
      and deleting its inputs, and none has ever failed to delete one. */
  lemma RestartExactly(s: State)
    requires Conserved(s) && FiledOnce(s)
    ensures InMemory(s) + DiskBag(s.disk) + s.dropped == s.accepted + DiskBag(Unopened(s.disk, s.parts))
            <==> (s.compaction.Deleting? ==> AllRows(s.compaction.inputs) == []) && s.stale == multiset{}
  {
    FilesAfterStop(s);
    BagGrows(s.accepted + DiskBag(Unopened(s.disk, s.parts)), Leftover(s));
    if s.compaction.Deleting? { NonEmptyBag(AllRows(s.compaction.inputs)); }
    if Leftover(s) == multiset{} {
      assert forall x :: s.stale[x] <= Leftover(s)[x];
      assert s.compaction.Deleting? ==> forall x :: multiset(AllRows(s.compaction.inputs))[x] <= Leftover(s)[x];
    }
  }

  /** A stop right after a compaction has registered its output leaves each of its rows twice. */
  lemma StopBeforeDeletion(cfg: Config, s: State)
    requires cfg.Valid() && Inv(cfg, s) && s.compaction.Merging?
    ensures var all := AllRows(s.compaction.inputs);
            Enabled(cfg, s, EndCompaction(all)) &&
            DiskBag(Step(cfg, s, EndCompaction(all)).disk) == DiskBag(s.disk) + multiset(all)
  {
    var t := NewTable(s.compaction.seqno, AllRows(s.compaction.inputs));
    DiskPut(s.disk, s.compaction.at, t.seqno, Some(t));
  }

  /** Rows go stale only when neither file of an input can be removed. */
  lemma StaleExactly(cfg: Config, s: State, e: Event)
    requires cfg.Valid() && Enabled(cfg, s, e)
    ensures Step(cfg, s, e).stale == s.stale
            <==> !(e.DeleteInput? && !e.data && !e.zone && s.compaction.inputs[0].rows != [])
  {
    if e.DeleteInput? {
      BagGrows(s.stale, multiset(s.compaction.inputs[0].rows));
      NonEmptyBag(s.compaction.inputs[0].rows);
    }
  }

  // ----- What is in sight after a start -----

  lemma {:induction false} MapBagEmpty<K>(m: map<K, multiset<Rec>>)
    ensures MapBag(m) == multiset{} <==> forall k | k in m :: m[k] == multiset{}
    decreases |m|
  {
    if m != map[] {
      var x :| x in m && MapBag(m) == m[x] + MapBag(m - {x});
      MapBagEmpty(m - {x});
      if MapBag(m) == multiset{} {
        assert forall r :: m[x][r] <= MapBag(m)[r] && MapBag(m - {x})[r] <= MapBag(m)[r];
        forall k | k in m ensures m[k] == multiset{} { assert k == x || k in m - {x}; }
      }
    }
  }

  /** Partitions are opened when they are first written to: the listed tables hold every row of
      the files, except those of leftovers and orphans, exactly if every directory that holds a
      row has been opened. */
  lemma SeenExactly(s: State)
    requires FiledOnce(s)
    ensures DiskBag(s.disk) == PartBag(s.parts) + InputBag(s.compaction) + s.orphaned + s.stale
            <==> forall at | at in s.disk && DirBag(s.disk[at]) != multiset{} :: at in s.parts
  {
    var seen, hidden := PartBag(s.parts) + InputBag(s.compaction) + s.orphaned + s.stale, Unopened(s.disk, s.parts);
    forall x ensures DiskBag(s.disk)[x] == (seen + DiskBag(hidden))[x] { assert Filing(s, x); }
    BagGrows(seen, DiskBag(hidden));
    MapBagEmpty(DirBags(hidden));
    forall at | at in s.disk && at !in s.parts ensures at in DirBags(hidden) && DirBags(hidden)[at] == DirBag(s.disk[at]) { }
  }
}
