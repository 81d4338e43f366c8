/** A signal's share of a partition: its SSTables and the sequence numbers they take. */
module Partition {
  import opened Options
  import opened Sorting
  import opened ZoneMap
  import Bytes

  /** A stored record. `decodes` tells whether its encoding can be read back; `size` is the
      length of the encoding. */
  datatype Rec = Rec(signal: nat, ts: nat, payload: int, size: nat, decodes: bool)

  datatype Table = Table(seqno: nat, zone: Zone, rows: seq<Rec>)

  function Times(rows: seq<Rec>): seq<nat> { seq(|rows|, i requires 0 <= i < |rows| => rows[i].ts) }

  function NewTable(seqno: nat, rows: seq<Rec>): Table { Table(seqno, ZoneOf(Times(rows)), rows) }

  ghost predicate Exact(t: Table) { t.zone == ZoneOf(Times(t.rows)) }

  ghost predicate DistinctSeqs(tables: seq<Table>) {
    forall i, j | 0 <= i < j < |tables| :: tables[i].seqno != tables[j].seqno
  }

  ghost predicate AllBelow(tables: seq<Table>, next: nat) { forall i | 0 <= i < |tables| :: tables[i].seqno < next }

  /** What is known of a signal's directory: its tables, and the next number to hand out */
  datatype SigPart = SigPart(tables: seq<Table>, next: nat)

  /** A zone-map file of the directory: its name as a number if it is one, and the table it
      describes if it can be read */
  datatype ZoneFile = ZoneFile(stem: Option<nat>, table: Option<Table>) {
    function Seq(): nat { match stem case None => 0 case Some(n) => n }
  }

  function Readable(files: seq<ZoneFile>): seq<Table> {
    if files == [] then [] else
      var f := files[|files| - 1];
      Readable(files[..|files| - 1]) + if f.table.Some? then [f.table.value.(seqno := f.Seq())] else []
  }

  function MaxSeq(files: seq<ZoneFile>): nat {
    if files == [] then 0 else
      var m, n := MaxSeq(files[..|files| - 1]), files[|files| - 1].Seq();
      if n > m then n else m
  }

  function SeqOf(t: Table): nat { t.seqno }

  class SignalPartition {
    var sstables: seq<Table>
    var nextSeq: nat

    /** Scan the directory for zone maps, in whatever order it lists them. */
    constructor Open(files: seq<ZoneFile>)
      ensures sstables == StableSort(SeqOf, Readable(files)) && nextSeq == MaxSeq(files) + 1
    {
      var maxSeq: nat, tables := 0, [];
      for i := 0 to |files|
        invariant maxSeq == MaxSeq(files[..i]) && tables == Readable(files[..i])
      {
        assert files[..i + 1][..i] == files[..i];
        var n := files[i].Seq();
        if n > maxSeq { maxSeq := n; }
        if files[i].table.Some? { tables := tables + [files[i].table.value.(seqno := n)]; }
      }
      assert files[..|files|] == files;
      sstables := StableSort(SeqOf, tables);
      nextSeq := maxSeq + 1;
    }

    method Candidates(start: nat, end: nat) returns (out: seq<Table>)
      ensures out == Overlapping(sstables, start, end)
    {
      out := [];
      for i := 0 to |sstables|
        invariant out == Overlapping(sstables[..i], start, end)
      {
        assert sstables[..i + 1][..i] == sstables[..i];
        if Overlaps(sstables[i].zone, start, end) { out := out + [sstables[i]]; }
      }
      assert sstables[..|sstables|] == sstables;
    }
  }

  function Overlapping(tables: seq<Table>, start: nat, end: nat): seq<Table> {
    if tables == [] then [] else
      Overlapping(tables[..|tables| - 1], start, end)
      + if Overlaps(tables[|tables| - 1].zone, start, end) then [tables[|tables| - 1]] else []
  }

  /** No table that holds a row in the range is left out. */
  lemma {:induction false} CandidatesOmitNothing(tables: seq<Table>, start: nat, end: nat, i: nat, j: nat)
    requires i < |tables| && Exact(tables[i]) && j < |tables[i].rows| && start <= tables[i].rows[j].ts <= end
    ensures tables[i] in Overlapping(tables, start, end)
    decreases |tables|
  {
    ZoneCovers(Times(tables[i].rows), j);
    if i < |tables| - 1 { CandidatesOmitNothing(tables[..|tables| - 1], start, end, i, j); }
  }

  /** `out` holds the tables at `at`, in order, which are those whose zone meets the range. */
  ghost predicate CandidatesAt(tables: seq<Table>, start: nat, end: nat, out: seq<Table>, at: seq<nat>) {
    && |at| == |out| && (forall i, j | 0 <= i < j < |at| :: at[i] < at[j])
    && (forall i | 0 <= i < |at| :: at[i] < |tables| && out[i] == tables[at[i]])
    && (forall k | 0 <= k < |tables| :: k in at <==> tables[k].zone.min <= end && start <= tables[k].zone.max)
  }

  lemma OneMoreCandidate(tables: seq<Table>, t: Table, start: nat, end: nat, out: seq<Table>, at: seq<nat>)
    requires CandidatesAt(tables, start, end, out, at)
    ensures if t.zone.min <= end && start <= t.zone.max then CandidatesAt(tables + [t], start, end, out + [t], at + [|tables|])
            else CandidatesAt(tables + [t], start, end, out, at)
  {
    assert forall k | 0 <= k < |tables| :: (tables + [t])[k] == tables[k];
    assert forall i | 0 <= i < |at| :: at[i] in at;
  }

  /** The candidates are exactly the tables whose zone meets the range, in their order. */
  lemma {:induction false} CandidatesExactly(tables: seq<Table>, start: nat, end: nat) returns (at: seq<nat>)
    ensures CandidatesAt(tables, start, end, Overlapping(tables, start, end), at)
    decreases |tables|
  {
    at := [];
    if tables != [] {
      var n := |tables| - 1;
      at := CandidatesExactly(tables[..n], start, end);
      OneMoreCandidate(tables[..n], tables[n], start, end, Overlapping(tables[..n], start, end), at);
      assert tables == tables[..n] + [tables[n]];
      if Overlaps(tables[n].zone, start, end) { at := at + [n]; }
    }
  }

  /** The rows of a candidate with an exact zone map are neither all before nor all after the
      range. */
  lemma CandidateIsNear(t: Table, start: nat, end: nat)
    requires Exact(t) && t.rows != [] && (forall i | 0 <= i < |t.rows| :: t.rows[i].ts < Bytes.TWO64) && Overlaps(t.zone, start, end)
    ensures exists i :: 0 <= i < |t.rows| && t.rows[i].ts <= end
    ensures exists i :: 0 <= i < |t.rows| && start <= t.rows[i].ts
  {
    var times := Times(t.rows);
    ZoneExact(times);
    var i :| 0 <= i < |times| && times[i] == t.zone.min;
    var j :| 0 <= j < |times| && times[j] == t.zone.max;
    assert t.rows[i].ts <= end && start <= t.rows[j].ts;
  }

  // ----- Reopening -----

  lemma {:induction false} MaxSeqBounds(files: seq<ZoneFile>)
    ensures forall i | 0 <= i < |files| :: files[i].Seq() <= MaxSeq(files)
    ensures MaxSeq(files) == 0 || exists i :: 0 <= i < |files| && files[i].Seq() == MaxSeq(files)
  {
    if files != [] {
      var init := files[..|files| - 1];
      MaxSeqBounds(init);
      if MaxSeq(files) != 0 && MaxSeq(files) == MaxSeq(init) {
        var i :| 0 <= i < |init| && init[i].Seq() == MaxSeq(init);
        assert files[i].Seq() == MaxSeq(files);
      }
    }
  }

  /** The table a zone-map file stands for */
  function Listed(f: ZoneFile): Table
    requires f.table.Some?
  {
    f.table.value.(seqno := f.Seq())
  }

  lemma {:induction false} ReadableMeaning(files: seq<ZoneFile>, t: Table)
    ensures t in Readable(files) <==> exists i :: 0 <= i < |files| && files[i].table.Some? && Listed(files[i]) == t
  {
    if files != [] {
      var init, last := files[..|files| - 1], files[|files| - 1];
      ReadableMeaning(init, t);
      if t in Readable(init) {
        var i :| 0 <= i < |init| && init[i].table.Some? && Listed(init[i]) == t;
        assert files[i].table.Some? && Listed(files[i]) == t;
      } else if last.table.Some? && Listed(last) == t {
        assert files[|files| - 1].table.Some?;
      }
    }
  }

  /** Readable zone maps have different numbers. */
  ghost predicate DistinctNumbers(files: seq<ZoneFile>) {
    forall i, j | 0 <= i < j < |files| && files[i].table.Some? && files[j].table.Some? :: files[i].Seq() != files[j].Seq()
  }

  lemma DistinctSnoc(tables: seq<Table>, t: Table)
    ensures DistinctSeqs(tables + [t]) <==> DistinctSeqs(tables) && forall x | x in tables :: x.seqno != t.seqno
  {
    var all := tables + [t];
    if DistinctSeqs(all) {
      forall i, j | 0 <= i < j < |tables| ensures tables[i].seqno != tables[j].seqno {
        assert all[i] == tables[i] && all[j] == tables[j];
      }
      forall x | x in tables ensures x.seqno != t.seqno {
        var i :| 0 <= i < |tables| && tables[i] == x;
        assert all[i] == x && all[|tables|] == t;
      }
    }
  }

  /** `f`, if readable, has a number no readable file has. */
  ghost predicate Differs(files: seq<ZoneFile>, f: ZoneFile) {
    f.table.Some? ==> forall i | 0 <= i < |files| && files[i].table.Some? :: files[i].Seq() != f.Seq()
  }

  lemma NumbersSnoc(files: seq<ZoneFile>, f: ZoneFile)
    ensures DistinctNumbers(files + [f]) <==> DistinctNumbers(files) && Differs(files, f)
  {
    var all := files + [f];
    assert forall i | 0 <= i < |files| :: all[i] == files[i];
    assert all[|files|] == f;
  }

  lemma DiffersMeaning(files: seq<ZoneFile>, f: ZoneFile)
    requires f.table.Some?
    ensures Differs(files, f) <==> forall x | x in Readable(files) :: x.seqno != f.Seq()
  {
    if Differs(files, f) {
      forall x | x in Readable(files) ensures x.seqno != f.Seq() { ReadableMeaning(files, x); }
    } else {
      var i :| 0 <= i < |files| && files[i].table.Some? && files[i].Seq() == f.Seq();
      ReadableMeaning(files, Listed(files[i]));
    }
  }

  lemma {:induction false} ReadableDistinct(files: seq<ZoneFile>)
    ensures DistinctSeqs(Readable(files)) <==> DistinctNumbers(files)
  {
    if files != [] {
      var init, last := files[..|files| - 1], files[|files| - 1];
      ReadableDistinct(init);
      assert files == init + [last];
      NumbersSnoc(init, last);
      if last.table.Some? {
        DistinctSnoc(Readable(init), Listed(last));
        DiffersMeaning(init, last);
      } else {
        assert Readable(files) == Readable(init);
      }
    }
  }

  lemma {:induction false} WithKeyAbsent(tables: seq<Table>, k: nat)
    requires forall i | 0 <= i < |tables| :: tables[i].seqno != k
    ensures WithKey(SeqOf, tables, k) == []
  {
    if tables != [] { WithKeyAbsent(tables[..|tables| - 1], k); }
  }

  lemma {:induction false} DistinctOnce(tables: seq<Table>, k: nat)
    requires DistinctSeqs(tables)
    ensures |WithKey(SeqOf, tables, k)| <= 1
  {
    if tables != [] {
      var init, last := tables[..|tables| - 1], tables[|tables| - 1];
      if last.seqno == k { WithKeyAbsent(init, k); } else { DistinctOnce(init, k); }
    }
  }

  lemma {:induction false} WithKeyPresent(tables: seq<Table>, i: nat)
    requires i < |tables|
    ensures |WithKey(SeqOf, tables, tables[i].seqno)| >= 1
  {
    if i < |tables| - 1 { WithKeyPresent(tables[..|tables| - 1], i); }
  }

  lemma {:induction false} OnceDistinct(tables: seq<Table>)
    requires forall k :: |WithKey(SeqOf, tables, k)| <= 1
    ensures DistinctSeqs(tables)
  {
    if tables != [] {
      var init, last := tables[..|tables| - 1], tables[|tables| - 1];
      forall k ensures |WithKey(SeqOf, init, k)| <= 1 { assert |WithKey(SeqOf, tables, k)| <= 1; }
      OnceDistinct(init);
      forall i | 0 <= i < |init| ensures init[i].seqno != last.seqno {
        WithKeyPresent(init, i);
        assert |WithKey(SeqOf, tables, last.seqno)| <= 1;
      }
    }
  }

  lemma SortDistinct(tables: seq<Table>)
    ensures DistinctSeqs(StableSort(SeqOf, tables)) <==> DistinctSeqs(tables)
  {
    forall k ensures WithKey(SeqOf, StableSort(SeqOf, tables), k) == WithKey(SeqOf, tables, k) {
      StableSortStable(SeqOf, tables, k);
    }
    if DistinctSeqs(tables) {
      forall k ensures |WithKey(SeqOf, StableSort(SeqOf, tables), k)| <= 1 { DistinctOnce(tables, k); }
      OnceDistinct(StableSort(SeqOf, tables));
    }
    if DistinctSeqs(StableSort(SeqOf, tables)) {
      forall k ensures |WithKey(SeqOf, tables, k)| <= 1 { DistinctOnce(StableSort(SeqOf, tables), k); }
      OnceDistinct(tables);
    }
  }

  /** Reopening any directory gives back its readable tables in the order of their numbers,
      all below the next number to hand out; the numbers are distinct exactly if the names
      of the readable zone maps are, as numbers. */
  lemma ReopenIsFresh(files: seq<ZoneFile>)
    ensures var tables := StableSort(SeqOf, Readable(files));
            && multiset(tables) == multiset(Readable(files)) && Ordered(SeqOf, tables)
            && AllBelow(tables, MaxSeq(files) + 1)
            && (DistinctSeqs(tables) <==> DistinctNumbers(files))
  {
    var readable, tables := Readable(files), StableSort(SeqOf, Readable(files));
    StableSortSorts(SeqOf, readable);
    SortDistinct(readable);
    ReadableDistinct(files);
    MaxSeqBounds(files);
    forall i | 0 <= i < |tables| ensures tables[i].seqno < MaxSeq(files) + 1 {
      assert tables[i] in multiset(tables);
      ReadableMeaning(files, tables[i]);
    }
  }

  /** Two readable names that are no numbers both read as 0: then the numbers clash. */
  lemma UnnumberedNamesClash(t: Table)
    ensures var files := [ZoneFile(None, Some(t)), ZoneFile(None, Some(t))];
            !DistinctSeqs(StableSort(SeqOf, Readable(files)))
  {
    var files := [ZoneFile(None, Some(t)), ZoneFile(None, Some(t))];
    ReopenIsFresh(files);
    assert files[0].Seq() == files[1].Seq();
  }

  // ----- Directories that engines write -----

  /** Zone maps by number, as the engine names them; nothing if a file cannot be read */
  type Directory = map<nat, Option<Table>>

  /** Some listing of the directory: each file once, in any order */
  ghost predicate Lists(files: seq<ZoneFile>, dir: Directory) {
    && (forall i, j | 0 <= i < j < |files| :: files[i].stem != files[j].stem)
    && (forall i | 0 <= i < |files| ::
          files[i].stem.Some? && files[i].stem.value in dir && files[i].table == dir[files[i].stem.value])
    && (forall n | n in dir :: exists i :: 0 <= i < |files| && files[i].stem == Some(n))
  }

  ghost function MaxKey(dir: Directory): nat
    decreases |dir|
  {
    if dir == map[] then 0 else
      var k :| k in dir;
      var m := MaxKey(dir - {k});
      if k > m then k else m
  }

  lemma {:induction false} MaxKeyBounds(dir: Directory)
    ensures (forall n | n in dir :: n <= MaxKey(dir)) && (MaxKey(dir) == 0 || MaxKey(dir) in dir)
    decreases |dir|
  {
    if dir != map[] {
      var k :| k in dir && MaxKey(dir) == (var m := MaxKey(dir - {k}); if k > m then k else m);
      MaxKeyBounds(dir - {k});
      forall n | n in dir ensures n <= MaxKey(dir) { assert n == k || n in dir - {k}; }
    }
  }

  /** The readable tables with numbers below `n`, by number */
  function Ascending(dir: Directory, n: nat): seq<Table> {
    if n == 0 then [] else
      Ascending(dir, n - 1) + if n - 1 in dir && dir[n - 1].Some? then [dir[n - 1].value.(seqno := n - 1)] else []
  }

  ghost function Loaded(dir: Directory): SigPart { SigPart(Ascending(dir, MaxKey(dir) + 1), MaxKey(dir) + 1) }

  ghost predicate Rising(tables: seq<Table>) { forall i, j | 0 <= i < j < |tables| :: tables[i].seqno < tables[j].seqno }

  lemma {:induction false} AscendingMeaning(dir: Directory, n: nat)
    ensures forall t :: t in Ascending(dir, n) <==>
              t.seqno < n && t.seqno in dir && dir[t.seqno].Some? && dir[t.seqno].value.(seqno := t.seqno) == t
    ensures Rising(Ascending(dir, n)) && AllBelow(Ascending(dir, n), n)
  {
    if n > 0 {
      AscendingMeaning(dir, n - 1);
      var init := Ascending(dir, n - 1);
      forall i, j | 0 <= i < j < |Ascending(dir, n)| ensures Ascending(dir, n)[i].seqno < Ascending(dir, n)[j].seqno {
        assert Ascending(dir, n)[i] == init[i];
        assert init[i].seqno < n - 1;
      }
    }
  }

  lemma {:induction false} RisingUnique(a: seq<Table>, b: seq<Table>)
    requires Rising(a) && Rising(b) && forall t :: t in a <==> t in b
    ensures a == b
  {
    assert (a != [] ==> a[0] in b) && (b != [] ==> b[0] in a);
    if a != [] {
      var n, m := |a| - 1, |b| - 1;
      assert b[m] in a && a[n] in b;
      assert a[n] == b[m];
      RisingLast(a);
      RisingLast(b);
      assert a == a[..n] + [a[n]] && b == b[..m] + [b[m]];
      forall t ensures t in a[..n] <==> t in b[..m] {
        assert t in a[..n] <==> t in a && t != a[n];
        assert t in b[..m] <==> t in b && t != b[m];
      }
      RisingUnique(a[..n], b[..m]);
    }
  }

  lemma RisingLast(a: seq<Table>)
    requires Rising(a) && a != []
    ensures a[|a| - 1] !in a[..|a| - 1]
  {
  }

  lemma OrderedRises(tables: seq<Table>)
    requires Ordered(SeqOf, tables) && DistinctSeqs(tables)
    ensures Rising(tables)
  {
    forall i, j | 0 <= i < j < |tables| ensures tables[i].seqno < tables[j].seqno {
      assert SeqOf(tables[i]) <= SeqOf(tables[j]);
    }
  }

  lemma ListedMax(files: seq<ZoneFile>, dir: Directory)
    requires Lists(files, dir)
    ensures MaxSeq(files) == MaxKey(dir)
  {
    MaxSeqBounds(files);
    MaxKeyBounds(dir);
    if MaxKey(dir) != 0 {
      var i :| 0 <= i < |files| && files[i].stem == Some(MaxKey(dir));
      assert files[i].Seq() == MaxKey(dir);
    }
    if MaxSeq(files) != 0 {
      var i :| 0 <= i < |files| && files[i].Seq() == MaxSeq(files);
      assert files[i].stem.value in dir;
    }
  }

  lemma ListedTables(files: seq<ZoneFile>, dir: Directory, t: Table)
    requires Lists(files, dir)
    ensures t in Readable(files) <==> t in Loaded(dir).tables
  {
    ReadableMeaning(files, t);
    AscendingMeaning(dir, MaxKey(dir) + 1);
    MaxKeyBounds(dir);
    if t in Readable(files) {
      var i :| 0 <= i < |files| && files[i].table.Some? && Listed(files[i]) == t;
      assert files[i].stem.value in dir;
    }
    if t in Loaded(dir).tables {
      var i :| 0 <= i < |files| && files[i].stem == Some(t.seqno);
      assert Listed(files[i]) == t;
    }
  }

  /** Whatever order the directory is listed in, scanning it finds the same tables in the same
      order and the same next number. */
  lemma ScanFindsDirectory(files: seq<ZoneFile>, dir: Directory)
    requires Lists(files, dir)
    ensures SigPart(StableSort(SeqOf, Readable(files)), MaxSeq(files) + 1) == Loaded(dir)
  {
    SortedListing(files, dir);
    AscendingMeaning(dir, MaxKey(dir) + 1);
    RisingUnique(StableSort(SeqOf, Readable(files)), Loaded(dir).tables);
    ListedMax(files, dir);
  }

  lemma SortedListing(files: seq<ZoneFile>, dir: Directory)
    requires Lists(files, dir)
    ensures Rising(StableSort(SeqOf, Readable(files)))
    ensures forall t :: t in StableSort(SeqOf, Readable(files)) <==> t in Loaded(dir).tables
  {
    var tables := StableSort(SeqOf, Readable(files));
    ReopenIsFresh(files);
    forall i, j | 0 <= i < j < |files| ensures files[i].Seq() != files[j].Seq() {
      assert files[i].stem.Some? && files[j].stem.Some?;
    }
    OrderedRises(tables);
    forall t ensures t in tables <==> t in Loaded(dir).tables {
      ListedTables(files, dir, t);
      assert t in tables <==> t in multiset(tables);
      assert t in Readable(files) <==> t in multiset(Readable(files));
    }
  }
}
