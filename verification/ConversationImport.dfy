/**
 * Importing older history into the conversation store.
 *
 * The first call on a fresh directory imports and records it.  A store whose index is lost, or was not written before a
 * crash, imports again and numbers its current file anew: here is exactly when that leaves the log as it was.
 */
module ConversationImport {
  import opened Common
  import opened ArchiveRanges
  import opened Ordering
  import opened ConversationView
  import opened ConversationStore

  // ---- De-duplicating records some of which come in several copies ----

  /** The first record of its id. */
  ghost predicate FirstOf(records: seq<Record>, x: Record) {
    exists i :: 0 <= i < |records| && records[i] == x && forall j :: 0 <= j < i ==> records[j].id != x.id
  }

  lemma FirstOfLonger(front: seq<Record>, last: Record, x: Record)
    requires FirstOf(front, x)
    ensures FirstOf(front + [last], x)
  {
    var i :| 0 <= i < |front| && front[i] == x && forall j :: 0 <= j < i ==> front[j].id != x.id;
    assert (front + [last])[i] == x && forall j :: 0 <= j < i ==> (front + [last])[j] == front[j];
  }

  /** A record is kept only if no earlier one has its id. */
  lemma {:induction false} FirstByIdIsFirst(records: seq<Record>)
    ensures forall x :: x in FirstById(records) ==> FirstOf(records, x)
    decreases |records|
  {
    if records != [] {
      hide FirstOf;
      var front, last := records[..|records| - 1], records[|records| - 1];
      assert records == front + [last];
      FirstByIdIsFirst(front);
      forall x | x in FirstById(records)
        ensures FirstOf(records, x)
      {
        if x in FirstById(front) {
          FirstOfLonger(front, last, x);
        } else {
          LastIsFirst(front, last);
        }
      }
    }
  }

  lemma LastIsFirst(front: seq<Record>, last: Record)
    requires forall i :: 0 <= i < |FirstById(front)| ==> FirstById(front)[i].id != last.id
    ensures FirstOf(front + [last], last)
  {
    forall j | 0 <= j < |front|
      ensures front[j].id != last.id
    {
      FirstByIdFinds(front, front[j]);
    }
    assert (front + [last])[|front|] == last && forall j :: 0 <= j < |front| ==> (front + [last])[j] == front[j];
  }

  /** The log's record of this id comes strictly before any other copy. */
  ghost predicate CopyOf(r: Record, log: seq<Record>) {
    exists l :: l in log && l.id == r.id && (l == r || l.sequence < r.sequence)
  }

  lemma KeptIsLog(sorted: seq<Record>, log: seq<Record>, x: Record)
    requires StrictLog(log) && SortedBy(RecordLe, sorted) && x in FirstById(sorted)
    requires (forall l :: l in log ==> l in sorted) && CopyOf(x, log)
    ensures x in log
  {
    FirstByIdIsFirst(sorted);
    var i :| 0 <= i < |sorted| && sorted[i] == x && forall j :: 0 <= j < i ==> sorted[j].id != x.id;
    var l :| l in log && l.id == x.id && (l == x || l.sequence < x.sequence);
    var j :| 0 <= j < |sorted| && sorted[j] == l;
    assert i < j ==> RecordLe(x, l);
  }

  /** Every log record is read, and whatever else is read is a later copy of one. */
  ghost predicate ReadsLog(records: seq<Record>, log: seq<Record>) {
    (forall l :: l in log ==> l in records) && forall r :: r in records ==> CopyOf(r, log)
  }

  lemma DedupePicksLog(records: seq<Record>, log: seq<Record>)
    requires StrictLog(log) && ReadsLog(records, log)
    ensures DedupeRecords(records) == log
  {
    hide CopyOf, RecordLe;
    LogIsSorted(log);
    SortSorts(RecordLe, records);
    var sorted := Sort(RecordLe, records);
    var kept := FirstById(sorted);
    FirstByIdKeeps(sorted);
    forall x | x in kept
      ensures x in log
    {
      KeptIsLog(sorted, log, x);
    }
    forall l | l in log
      ensures l in kept
    {
      FirstByIdFinds(sorted, l);
      var i :| 0 <= i < |kept| && kept[i].id == l.id;
      assert kept[i] in log;
    }
    SameDistinctElements(kept, log);
    SortSorts(RecordLe, kept);
    SortedUnique(RecordLe, log, Sort(RecordLe, kept));
  }

  /** De-duplicating leaves one record of each id. */
  lemma DedupeDistinct(records: seq<Record>)
    ensures DistinctIds(DedupeRecords(records))
    ensures forall r :: r in DedupeRecords(records) ==> r in records
    ensures forall r :: r in records ==> exists i :: 0 <= i < |DedupeRecords(records)| && DedupeRecords(records)[i].id == r.id
  {
    var sorted := Sort(RecordLe, records);
    var kept := FirstById(sorted);
    FirstByIdKeeps(sorted);
    SameElements(sorted, records);
    SameElements(Sort(RecordLe, kept), kept);
    PermutedDistinctIds(kept, Sort(RecordLe, kept));
    forall r | r in records
      ensures exists i :: 0 <= i < |DedupeRecords(records)| && DedupeRecords(records)[i].id == r.id
    {
      FirstByIdFinds(sorted, r);
      var i :| 0 <= i < |kept| && kept[i].id == r.id;
      assert kept[i] in DedupeRecords(records);
    }
  }

  /** Of the copies of a record none is numbered lower, or, numbered the same, is older. */
  ghost predicate Earliest(records: seq<Record>, r: Record) {
    r in records
    && forall x :: x in records && x.id == r.id ==> r.sequence < x.sequence || (r.sequence == x.sequence && r.time <= x.time)
  }

  /** De-duplicating keeps the earliest record of each id. */
  lemma DedupeKeepsEarliest(records: seq<Record>)
    ensures var merged := DedupeRecords(records);
            && (forall r :: r in records ==> exists i :: 0 <= i < |merged| && merged[i].id == r.id)
            && (forall m :: m in merged ==> Earliest(records, m))
  {
    hide FirstById, Sort, FirstOf, Earliest;
    var sorted := Sort(RecordLe, records);
    var kept := FirstById(sorted);
    DedupeDistinct(records);
    SortSorts(RecordLe, records);
    SameElements(Sort(RecordLe, kept), kept);
    FirstByIdIsFirst(sorted);
    forall m | m in DedupeRecords(records)
      ensures Earliest(records, m)
    {
      FirstIsEarliest(sorted, records, m);
    }
  }

  /** What is left is ordered by number, equals by time and then by id, each id once. */
  lemma DedupeOrders(records: seq<Record>, i: nat, j: nat)
    requires i < j < |DedupeRecords(records)|
    ensures var a, b := DedupeRecords(records)[i], DedupeRecords(records)[j];
            && a.id != b.id
            && (|| a.sequence < b.sequence
                || (a.sequence == b.sequence && (a.time < b.time || (a.time == b.time && a.id < b.id))))
  {
    hide FirstById, Sort;
    var kept := FirstById(Sort(RecordLe, records));
    DedupeDistinct(records);
    SortSorts(RecordLe, kept);
    assert RecordLe(Sort(RecordLe, kept)[i], Sort(RecordLe, kept)[j]);
  }

  lemma FirstIsEarliest(sorted: seq<Record>, records: seq<Record>, r: Record)
    requires SortedBy(RecordLe, sorted) && FirstOf(sorted, r) && forall x :: x in sorted <==> x in records
    ensures Earliest(records, r)
  {
    var i :| 0 <= i < |sorted| && sorted[i] == r && forall j :: 0 <= j < i ==> sorted[j].id != r.id;
    forall x | x in records && x.id == r.id
      ensures r.sequence < x.sequence || (r.sequence == x.sequence && r.time <= x.time)
    {
      var j :| 0 <= j < |sorted| && sorted[j] == x;
      assert i < j ==> RecordLe(r, x);
    }
  }

  lemma PermutedDistinctIds(a: seq<Record>, b: seq<Record>)
    requires DistinctIds(a) && multiset(a) == multiset(b)
    ensures DistinctIds(b)
  {
    SameElements(a, b);
    DistinctMultiset(a);
    forall i, j | 0 <= i < j < |b|
      ensures b[i].id != b[j].id
    {
      assert b[i] in a && b[j] in a;
      assert b == b[..j] + b[j..] && b[i] in b[..j] && b[j] in b[j..];
    }
  }

  lemma {:induction false} RenumberedAre(records: seq<Record>, from: nat)
    ensures |Renumber(records, from)| == |records|
    ensures forall i :: 0 <= i < |records| ==> Renumber(records, from)[i] == records[i].(sequence := from + i)
  {
    if records != [] {
      RenumberedAre(records[1..], from + 1);
    }
  }

  // ---- The first call ----

  lemma NoArchives(before: Collation)
    ensures KnownArchives(before, [], []) == []
  {
    assert SetItems([], ValidItems([])) == [] && Candidates([], []) == [] && Compact(before, []) == [];
  }

  /**
   * A call on a fresh directory that is not cut short imports: the older records are numbered from one, one of each id,
   * the store represents them with the message, and the import is recorded.
   */
  lemma FirstCallImports(before: Collation, disk: Disk, request: Request)
    requires StrictOrder(before) && disk.files == [] && disk.index == None && request.message.Some?
    ensures var run := Append(before, disk, request);
            var log := Renumber(DedupeRecords(request.legacy + disk.current), 1);
            var end := LastDisk(disk, run.writes);
            && Imported(end) && Refines(end, if run.outcome.Appended? then log + [run.outcome.record] else log)
            && forall r :: r in request.legacy + disk.current ==> exists l :: l in log && l.id == r.id
  {
    hide Refines, AppendTo, DedupeRecords, SoundIndex, Imported;
    var merged := DedupeRecords(request.legacy + disk.current);
    var log, index := Renumber(merged, 1), ReadIndex(before, disk);
    NoArchives(before);
    assert LastArchived([]) == 0;
    var migration := MigrateLegacy(disk, index, request.legacy);
    var migrated := disk.(current := log);
    assert migration == Migration([migrated], Index(1 + |merged|, [], true));
    DedupeDistinct(request.legacy + disk.current);
    ImportedLog(merged, migrated, migration.index);
    var rest := AppendTo(before, migrated, migration.index, request);
    AppendToRefines(before, migrated, migration.index, log, request, |rest.writes|);
    AppendToReturns(before, migrated, migration.index, log, request);
    StaysImported(before, migrated, migration.index, request, |rest.writes|);
    WholeCall(disk, migrated, rest, log);
    forall r | r in request.legacy + disk.current
      ensures exists l :: l in log && l.id == r.id
    {
      var i :| 0 <= i < |merged| && merged[i].id == r.id;
      RenumberedAre(merged, 1);
      assert log[i] in log;
    }
  }

  lemma ImportedLog(merged: seq<Record>, disk: Disk, index: Index)
    requires DistinctIds(merged) && disk.current == Renumber(merged, 1) && disk.files == [] && disk.index == None
    requires index == Index(1 + |merged|, [], true)
    ensures Refines(disk, disk.current) && SoundIndex(disk, index, disk.current)
  {
    RenumberedAre(merged, 1);
    assert disk.current == disk.current[|disk.current| - |disk.current|..];
  }

  lemma WholeCall(disk: Disk, migrated: Disk, rest: AppendRun, log: seq<Record>)
    ensures LastDisk(disk, [migrated] + rest.writes) == DiskAfter(migrated, rest.writes, |rest.writes|)
    ensures LogAfter(log, rest, |rest.writes|) == if rest.outcome.Appended? then log + [rest.outcome.record] else log
  {
  }

  // ---- Importing again ----

  /** Without a record of the import, and with no older files left, a call numbers the current file anew from here. */
  function NextNumber(before: Collation, disk: Disk): nat {
    Max(1, LastArchived(ReadIndex(before, disk).archives) + 1)
  }

  lemma ReadIsArchived(before: Collation, disk: Disk, log: seq<Record>, r: Record)
    requires StrictOrder(before) && Refines(disk, log) && r in ArchivedRecords(disk.files, ReadIndex(before, disk).archives)
    ensures Archived(disk.files, r)
  {
    hide ReadIndex, StrictLog, KnownArchives, ArchivedRecords;
    var archives := ReadIndex(before, disk).archives;
    IndexReaches(before, disk, log);
    ArchivedRecordsAre(disk.files, log, archives);
    var a :| a in archives && a.first <= r.sequence <= a.last;
    assert GoodItem(disk.files, a);
    var i :| 0 <= i < |disk.files| && disk.files[i].name == a.file;
    assert HoldsRange(disk.files[i], log);
  }

  lemma ArchivesOfIndex(before: Collation, disk: Disk)
    ensures ReadIndex(before, disk).archives
         == KnownArchives(before, disk.files, if disk.index.Some? then disk.index.value.archives else [])
  {
    hide KnownArchives;
  }

  /** An archived record is in a file whose range the index read here covers. */
  lemma ArchivedIsCovered(before: Collation, disk: Disk, log: seq<Record>, r: Record) returns (a: ArchiveItem)
    requires StrictOrder(before) && Refines(disk, log) && Archived(disk.files, r)
    ensures a in ReadIndex(before, disk).archives && a.first <= r.sequence <= a.last && r in log
  {
    hide StrictLog, KnownArchives, ReadIndex, GoodItems;
    var f :| f in disk.files && r in f.records;
    assert HoldsRange(f, log);
    ArchivesOfIndex(before, disk);
    KnownArchivesCover(before, disk.files, log, if disk.index.Some? then disk.index.value.archives else [], f);
    a :| a in ReadIndex(before, disk).archives && Contains(a, NameRange(f.name));
  }

  lemma ArchivedIsRead(before: Collation, disk: Disk, log: seq<Record>, r: Record)
    requires StrictOrder(before) && Refines(disk, log) && Archived(disk.files, r)
    ensures r in ArchivedRecords(disk.files, ReadIndex(before, disk).archives)
    ensures r in log && r.sequence < NextNumber(before, disk)
  {
    hide StrictLog, KnownArchives, ArchivedRecords, ReadIndex, GoodItem, HoldsRange, Archived;
    var archives := ReadIndex(before, disk).archives;
    var a := ArchivedIsCovered(before, disk, log, r);
    IndexReaches(before, disk, log);
    ArchivedRecordsAre(disk.files, log, archives);
    LastArchivedBounds(archives);
  }

  lemma ArchivedAreRead(before: Collation, disk: Disk, log: seq<Record>)
    requires StrictOrder(before) && Refines(disk, log)
    ensures forall r :: r in ArchivedRecords(disk.files, ReadIndex(before, disk).archives) <==> Archived(disk.files, r)
    ensures forall r :: Archived(disk.files, r) ==> r in log && r.sequence < NextNumber(before, disk)
  {
    hide Refines, ReadIndex, ArchivedRecords, Archived, NextNumber;
    forall r
      ensures r in ArchivedRecords(disk.files, ReadIndex(before, disk).archives) <==> Archived(disk.files, r)
      ensures Archived(disk.files, r) ==> r in log && r.sequence < NextNumber(before, disk)
    {
      if Archived(disk.files, r) {
        ArchivedIsRead(before, disk, log, r);
      } else if r in ArchivedRecords(disk.files, ReadIndex(before, disk).archives) {
        ReadIsArchived(before, disk, log, r);
      }
    }
  }

  lemma SuffixIsLog(disk: Disk, log: seq<Record>)
    requires Refines(disk, log)
    ensures StrictLog(disk.current) && forall i :: 0 <= i < |disk.current| ==> disk.current[i] in log
  {
    var k := |log| - |disk.current|;
    assert forall i :: 0 <= i < |disk.current| ==> disk.current[i] == log[k + i];
  }

  lemma ReimportWrites(before: Collation, disk: Disk, log: seq<Record>)
    requires StrictOrder(before) && Refines(disk, log) && !Imported(disk)
    ensures MigrateLegacy(disk, ReadIndex(before, disk), []).writes
         == [disk.(current := Renumber(disk.current, NextNumber(before, disk)))]
  {
    hide Refines, ReadIndex, DedupeRecords, Renumber, StrictLog, Imported;
    SuffixIsLog(disk, log);
    assert [] + disk.current == disk.current;
    DedupeIsLog(disk.current, disk.current);
    ReadIndexImported(before, disk);
  }

  /** The record at this place of the current file is archived too, or keeps its number. */
  ghost predicate Unharmed(before: Collation, disk: Disk, i: nat)
    requires i < |disk.current|
  {
    Archived(disk.files, disk.current[i]) || disk.current[i].sequence == NextNumber(before, disk) + i
  }

  lemma UnharmedReadsLog(before: Collation, disk: Disk, log: seq<Record>)
    requires StrictOrder(before) && Refines(disk, log)
    requires forall i :: 0 <= i < |disk.current| ==> Unharmed(before, disk, i)
    ensures ReadsLog(ArchivedRecords(disk.files, ReadIndex(before, disk).archives) + Renumber(disk.current, NextNumber(before, disk)), log)
  {
    hide ReadIndex, ArchivedRecords, StrictLog, GoodFiles, NextNumber, Renumber, Archived, GoodItems;
    var archived := ArchivedRecords(disk.files, ReadIndex(before, disk).archives);
    var again := Renumber(disk.current, NextNumber(before, disk));
    RenumberedAre(disk.current, NextNumber(before, disk));
    ArchivedAreRead(before, disk, log);
    SuffixIsLog(disk, log);
    forall l | l in log
      ensures l in archived + again
    {
      if !Archived(disk.files, l) {
        var i :| 0 <= i < |disk.current| && disk.current[i] == l;
        assert Unharmed(before, disk, i);
        assert again[i] in again;
      }
    }
    forall r | r in archived + again
      ensures CopyOf(r, log)
    {
      if r in again {
        var i :| 0 <= i < |again| && again[i] == r;
        assert Unharmed(before, disk, i) && disk.current[i] in log;
      }
    }
  }

  /** The archives a store knows do not depend on its current file. */
  lemma SameArchives(before: Collation, disk: Disk, current: seq<Record>)
    ensures ReadIndex(before, disk.(current := current)).archives == ReadIndex(before, disk).archives
  {
  }

  lemma HarmedLeavesView(before: Collation, disk: Disk, log: seq<Record>, i: nat)
    requires StrictOrder(before) && Refines(disk, log) && i < |disk.current| && !Unharmed(before, disk, i)
    ensures disk.current[i] in log
    ensures disk.current[i] !in View(before, disk.(current := Renumber(disk.current, NextNumber(before, disk))))
  {
    hide ReadIndex, ArchivedRecords, GoodFiles, DedupeRecords;
    var again := Renumber(disk.current, NextNumber(before, disk));
    var archived := ArchivedRecords(disk.files, ReadIndex(before, disk).archives);
    RenumberedAre(disk.current, NextNumber(before, disk));
    ArchivedAreRead(before, disk, log);
    SuffixIsLog(disk, log);
    SameArchives(before, disk, again);
    DedupeDistinct(archived + again);
    assert disk.current[i] !in again;
  }

  /**
   * Exactly when importing again is harmless: with no older files left, the store shows the same log after the current
   * file was numbered anew if and only if each of its records is archived too or happens to keep its number.
   */
  lemma ReimportKeepsViewIff(before: Collation, disk: Disk, log: seq<Record>)
    requires StrictOrder(before) && Refines(disk, log) && !Imported(disk)
    ensures var writes := MigrateLegacy(disk, ReadIndex(before, disk), []).writes;
            && |writes| == 1
            && (View(before, writes[0]) == log <==> forall i :: 0 <= i < |disk.current| ==> Unharmed(before, disk, i))
  {
    hide ReadIndex, Refines, Unharmed, View, MigrateLegacy, DedupeRecords, Renumber, Imported;
    ReimportWrites(before, disk, log);
    var again := disk.(current := Renumber(disk.current, NextNumber(before, disk)));
    if forall i :: 0 <= i < |disk.current| ==> Unharmed(before, disk, i) {
      UnharmedReadsLog(before, disk, log);
      UnharmedView(before, disk, log);
    } else {
      var i :| 0 <= i < |disk.current| && !Unharmed(before, disk, i);
      HarmedLeavesView(before, disk, log, i);
    }
  }

  lemma UnharmedView(before: Collation, disk: Disk, log: seq<Record>)
    requires Refines(disk, log)
    requires ReadsLog(ArchivedRecords(disk.files, ReadIndex(before, disk).archives) + Renumber(disk.current, NextNumber(before, disk)), log)
    ensures View(before, disk.(current := Renumber(disk.current, NextNumber(before, disk)))) == log
  {
    hide ReadIndex, ReadsLog, DedupeRecords;
    var again := Renumber(disk.current, NextNumber(before, disk));
    SameArchives(before, disk, again);
    DedupePicksLog(ArchivedRecords(disk.files, ReadIndex(before, disk).archives) + again, log);
  }

  /**
   * A store that lost its index between the two writes of a rotation: its last record changes its number, so a record
   * the store showed is gone from the view.
   */
  lemma LostIndexRenumbers(before: Collation, a: Record, b: Record, c: Record)
    requires StrictOrder(before) && StrictLog([a, b, c]) && a.sequence == 1 && b.sequence == 2 && c.sequence == 3
    ensures var log := [a, b, c];
            var disk := Disk(log, [ArchiveFile(FileName(1, 2), [a, b])], None);
            && Refines(disk, log) && View(before, disk) == log
            && View(before, MigrateLegacy(disk, ReadIndex(before, disk), []).writes[0]) != log
  {
    hide ReadIndex, View, MigrateLegacy;
    var log := [a, b, c];
    var file := ArchiveFile(FileName(1, 2), [a, b]);
    var disk := Disk(log, [file], None);
    assert HoldsRange(file, log) by {
      assert log[0] in log && log[1] in log && file.records[0] in file.records && file.records[1] in file.records;
    }
    LostIndexRefines(disk, log, file);
    ViewIsLog(before, disk, log);
    ReimportKeepsViewIff(before, disk, log);
    ArchivedAreRead(before, disk, log);
    assert Archived(disk.files, b) by {
      assert file in disk.files && b == file.records[1];
    }
    assert !Archived(disk.files, c);
    assert !Unharmed(before, disk, 2);
  }

  lemma LostIndexRefines(disk: Disk, log: seq<Record>, file: ArchiveFile)
    requires StrictLog(log) && HoldsRange(file, log) && disk == Disk(log, [file], None)
    ensures Refines(disk, log) && !Imported(disk)
  {
    assert disk.current == log[|log| - |disk.current|..];
  }
}
