/**
 * Reading the persona conversation store: a mutable current file, immutable archive files, and an
 * index that may lag behind both after a crash.  The view of a store is the log it represents.
 *
 * Identifiers stand for their rank in
 * the collation order, an archive file name for the sequence range it spells out, and a record keeps
 * an opaque body beside its id, time and sequence number.
 */
module ConversationView {
  import opened Common
  import opened ArchiveRanges
  import opened Ordering

  type RecordId = int

  datatype Record = Record(id: RecordId, sequence: nat, time: real, body: string)

  datatype FileName = FileName(first: nat, last: nat)

  type ArchiveItem = Range<FileName>

  type Collation = (FileName, FileName) -> bool

  datatype ArchiveFile = ArchiveFile(name: FileName, records: seq<Record>)

  /** The index; `legacyImported` says that the import of the older history files is recorded. */
  datatype Index = Index(nextSequence: nat, archives: seq<ArchiveItem>, legacyImported: bool)

  /** The store directory.  `index` is absent or unreadable as None. */
  datatype Disk = Disk(current: seq<Record>, files: seq<ArchiveFile>, index: Option<Index>)

  // ---- Reading ----

  function FileRecords(files: seq<ArchiveFile>, name: FileName): seq<Record> {
    if files == [] then []
    else if files[0].name == name then files[0].records
    else FileRecords(files[1..], name)
  }

  predicate HasFile(files: seq<ArchiveFile>, name: FileName) {
    exists i :: 0 <= i < |files| && files[i].name == name
  }

  /** Setting a key of an insertion-ordered map keyed by file name. */
  function SetItem(items: seq<ArchiveItem>, item: ArchiveItem): seq<ArchiveItem> {
    if items == [] then [item]
    else if items[0].file == item.file then [item] + items[1..]
    else [items[0]] + SetItem(items[1..], item)
  }

  function SetItems(items: seq<ArchiveItem>, more: seq<ArchiveItem>): seq<ArchiveItem>
    decreases |more|
  {
    if more == [] then items else SetItems(SetItem(items, more[0]), more[1..])
  }

  /** Index entries without positive bounds are ignored. */
  function ValidItems(items: seq<ArchiveItem>): seq<ArchiveItem> {
    if items == [] then []
    else (if items[0].first > 0 && items[0].last > 0 then [items[0]] else []) + ValidItems(items[1..])
  }

  function ItemFromFile(file: ArchiveFile): seq<ArchiveItem> {
    if file.records == [] then []
    else
      var first, last := file.records[0].sequence, file.records[|file.records| - 1].sequence;
      if first == 0 || last == 0 then [] else [Range(file.name, first, last)]
  }

  function NameRange(name: FileName): ArchiveItem {
    Range(name, name.first, name.last)
  }

  /** Directory entries the index does not know and no known range contains. */
  function Candidates(files: seq<ArchiveFile>, known: seq<ArchiveItem>): seq<ArchiveItem> {
    if files == [] then []
    else
      var range := NameRange(files[0].name);
      (if exists i :: 0 <= i < |known| && (known[i].file == range.file || Contains(known[i], range)) then [] else [range])
      + Candidates(files[1..], known)
  }

  function ItemsFromFiles(files: seq<ArchiveFile>, ranges: seq<ArchiveItem>): seq<ArchiveItem> {
    if ranges == [] then []
    else ItemFromFile(ArchiveFile(ranges[0].file, FileRecords(files, ranges[0].file))) + ItemsFromFiles(files, ranges[1..])
  }

  function DiscoveredArchives(before: Collation, files: seq<ArchiveFile>, known: seq<ArchiveItem>): seq<ArchiveItem> {
    ItemsFromFiles(files, Compact(before, Candidates(files, known)))
  }

  predicate RangeLe(a: ArchiveItem, b: ArchiveItem) {
    a.first < b.first || (a.first == b.first && a.last <= b.last)
  }

  function SortArchives(before: Collation, items: seq<ArchiveItem>): seq<ArchiveItem> {
    Sort(RangeLe, Compact(before, items))
  }

  function LastSequence(records: seq<Record>): nat {
    if records == [] then 0 else Max(records[0].sequence, LastSequence(records[1..]))
  }

  function LastArchived(items: seq<ArchiveItem>): nat {
    if items == [] then 0 else Max(items[0].last, LastArchived(items[1..]))
  }

  /** The recorded archives, the discovered ones, compacted and sorted. */
  function KnownArchives(before: Collation, files: seq<ArchiveFile>, recorded: seq<ArchiveItem>): seq<ArchiveItem> {
    var known := SetItems([], ValidItems(recorded));
    SortArchives(before, SetItems(known, DiscoveredArchives(before, files, known)))
  }

  function ReadIndex(before: Collation, disk: Disk): Index {
    var raw := if disk.index.Some? then disk.index.value else Index(0, [], false);
    var archives := KnownArchives(before, disk.files, raw.archives);
    Index(Max(Max(1, raw.nextSequence), Max(LastSequence(disk.current), LastArchived(archives)) + 1), archives, raw.legacyImported)
  }

  function ArchivedRecords(files: seq<ArchiveFile>, archives: seq<ArchiveItem>): seq<Record> {
    if archives == [] then [] else FileRecords(files, archives[0].file) + ArchivedRecords(files, archives[1..])
  }

  /** The order of records that all carry a sequence number. */
  predicate RecordLe(a: Record, b: Record) {
    a.sequence < b.sequence
    || (a.sequence == b.sequence && (a.time < b.time || (a.time == b.time && a.id <= b.id)))
  }

  function FirstById(records: seq<Record>): seq<Record> {
    if records == [] then []
    else
      var earlier, record := FirstById(records[..|records| - 1]), records[|records| - 1];
      if exists i :: 0 <= i < |earlier| && earlier[i].id == record.id then earlier else earlier + [record]
  }

  function DedupeRecords(records: seq<Record>): seq<Record> {
    Sort(RecordLe, FirstById(Sort(RecordLe, records)))
  }

  /** The archive-inclusive view of the store. */
  function View(before: Collation, disk: Disk): seq<Record> {
    DedupeRecords(ArchivedRecords(disk.files, ReadIndex(before, disk).archives) + disk.current)
  }

  // ---- The log a store refines ----

  ghost predicate StrictLog(log: seq<Record>) {
    && (forall i :: 0 <= i < |log| ==> log[i].sequence > 0)
    && (forall i, j :: 0 <= i < j < |log| ==> log[i].sequence < log[j].sequence && log[i].id != log[j].id)
  }

  /** The file holds exactly the log records of the range its name spells out. */
  ghost predicate HoldsRange(file: ArchiveFile, log: seq<Record>) {
    && file.records != []
    && file.records[0].sequence == file.name.first && file.records[|file.records| - 1].sequence == file.name.last
    && forall r :: r in file.records <==> r in log && file.name.first <= r.sequence <= file.name.last
  }

  ghost predicate GoodItem(files: seq<ArchiveFile>, item: ArchiveItem) {
    item == NameRange(item.file) && HasFile(files, item.file)
  }

  ghost predicate GoodItems(files: seq<ArchiveFile>, items: seq<ArchiveItem>) {
    forall a :: a in items ==> GoodItem(files, a)
  }

  ghost predicate GoodFiles(files: seq<ArchiveFile>, log: seq<Record>) {
    && (forall f :: f in files ==> HoldsRange(f, log))
    && (forall i, j :: 0 <= i < j < |files| ==> files[i].name != files[j].name)
  }

  ghost predicate Archived(files: seq<ArchiveFile>, r: Record) {
    exists f :: f in files && r in f.records
  }

  /** The store on disk represents this log: at rest and after a crash between any two file writes. */
  ghost predicate Refines(disk: Disk, log: seq<Record>) {
    && StrictLog(log)
    && |disk.current| <= |log| && disk.current == log[|log| - |disk.current|..]
    && GoodFiles(disk.files, log)
    && (forall r :: r in log ==> r in disk.current || Archived(disk.files, r))
    && (disk.index.Some? ==> GoodItems(disk.files, disk.index.value.archives))
  }

  // ---- The index is rebuilt from whatever the crash left ----

  lemma {:induction false} FileRecordsOf(files: seq<ArchiveFile>, log: seq<Record>, f: ArchiveFile)
    requires GoodFiles(files, log) && f in files
    ensures FileRecords(files, f.name) == f.records
  {
    if files[0] != f {
      assert f in files[1..];
      FileRecordsOf(files[1..], log, f);
    }
  }

  lemma {:induction false} SetItemKeepsGood(files: seq<ArchiveFile>, items: seq<ArchiveItem>, item: ArchiveItem)
    requires GoodItems(files, items) && GoodItem(files, item)
    ensures forall a :: a in SetItem(items, item) <==> a in items || a == item
  {
    if items != [] {
      assert items[0] in items && forall a :: a in items[1..] ==> a in items;
      if items[0].file == item.file {
        assert items[0] == item;
      } else {
        SetItemKeepsGood(files, items[1..], item);
      }
    }
  }

  lemma {:induction false} SetItemsKeepGood(files: seq<ArchiveFile>, items: seq<ArchiveItem>, more: seq<ArchiveItem>)
    requires GoodItems(files, items) && GoodItems(files, more)
    ensures forall a :: a in SetItems(items, more) <==> a in items || a in more
    decreases |more|
  {
    if more != [] {
      assert more[0] in more && forall a :: a in more[1..] ==> a in more;
      SetItemKeepsGood(files, items, more[0]);
      SetItemsKeepGood(files, SetItem(items, more[0]), more[1..]);
    }
  }

  lemma {:induction false} CandidatesOf(files: seq<ArchiveFile>, known: seq<ArchiveItem>)
    ensures forall a :: a in Candidates(files, known) ==> GoodItem(files, a)
    ensures forall f :: f in files ==>
              NameRange(f.name) in Candidates(files, known) || exists a :: a in known && (a.file == f.name || Contains(a, NameRange(f.name)))
  {
    if files != [] {
      CandidatesOf(files[1..], known);
      assert files == [files[0]] + files[1..];
      assert HasFile(files, files[0].name);
      forall a | a in Candidates(files[1..], known)
        ensures HasFile(files, a.file)
      {
        var i :| 0 <= i < |files[1..]| && files[1..][i].name == a.file;
        assert files[i + 1].name == a.file;
      }
    }
  }

  lemma {:induction false} ItemsOfGoodRanges(files: seq<ArchiveFile>, log: seq<Record>, ranges: seq<ArchiveItem>)
    requires StrictLog(log) && GoodFiles(files, log) && GoodItems(files, ranges)
    ensures ItemsFromFiles(files, ranges) == ranges
  {
    if ranges != [] {
      assert ranges[0] in ranges && forall a :: a in ranges[1..] ==> a in ranges;
      var i :| 0 <= i < |files| && files[i].name == ranges[0].file;
      FileRecordsOf(files, log, files[i]);
      assert HoldsRange(files[i], log);
      var records := files[i].records;
      assert records[0] in records && records[|records| - 1] in records;
      ItemsOfGoodRanges(files, log, ranges[1..]);
    }
  }

  lemma {:induction false} GoodItemsAreValid(files: seq<ArchiveFile>, log: seq<Record>, items: seq<ArchiveItem>)
    requires StrictLog(log) && GoodFiles(files, log) && GoodItems(files, items)
    ensures ValidItems(items) == items
  {
    if items != [] {
      assert items[0] in items && forall a :: a in items[1..] ==> a in items;
      var i :| 0 <= i < |files| && files[i].name == items[0].file;
      assert HoldsRange(files[i], log);
      var records := files[i].records;
      assert records[0] in records && records[|records| - 1] in records;
      GoodItemsAreValid(files, log, items[1..]);
    }
  }

  lemma CompactedMembers(before: Collation, items: seq<ArchiveItem>)
    requires StrictOrder(before)
    ensures forall a :: a in SortArchives(before, items) <==> a in Compact(before, items)
    ensures forall a :: a in Compact(before, items) ==> a in items
  {
    KeptFrom(before, items, 0);
    assert TotalPreorder(RangeLe);
    SortSorts(RangeLe, Compact(before, items));
  }

  lemma CompactedContainer(before: Collation, items: seq<ArchiveItem>, item: ArchiveItem)
    requires StrictOrder(before) && item in items
    ensures exists a :: a in Compact(before, items) && Contains(a, item)
  {
    var i :| 0 <= i < |items| && items[i] == item;
    var kept := KeptContainer(before, items, i);
  }

  // ---- Whatever the index file and the archive files hold ----

  lemma {:induction false} ValidItemsAre(items: seq<ArchiveItem>, a: ArchiveItem)
    ensures a in ValidItems(items) <==> a in items && a.first > 0 && a.last > 0
  {
    if items != [] {
      assert items == [items[0]] + items[1..];
      ValidItemsAre(items[1..], a);
    }
  }

  lemma {:induction false} SetItemsFrom(items: seq<ArchiveItem>, more: seq<ArchiveItem>, a: ArchiveItem)
    requires a in SetItems(items, more)
    ensures a in items || a in more
    decreases |more|
  {
    if more != [] && a !in more {
      assert a !in more[1..];
      SetItemsFrom(SetItem(items, more[0]), more[1..], a);
      SetItemFrom(items, more[0], a);
    }
  }

  lemma {:induction false} SetItemFrom(items: seq<ArchiveItem>, item: ArchiveItem, a: ArchiveItem)
    requires a in SetItem(items, item)
    ensures a in items || a == item
  {
    if items != [] && items[0].file != item.file && a != items[0] {
      assert a in SetItem(items[1..], item);
      SetItemFrom(items[1..], item, a);
    }
  }

  lemma {:induction false} ReadItemsNumbered(files: seq<ArchiveFile>, ranges: seq<ArchiveItem>, a: ArchiveItem)
    requires a in ItemsFromFiles(files, ranges)
    ensures a.first > 0 && a.last > 0
    ensures var records := FileRecords(files, a.file);
            records != [] && a.first == records[0].sequence && a.last == records[|records| - 1].sequence
  {
    var head := ItemFromFile(ArchiveFile(ranges[0].file, FileRecords(files, ranges[0].file)));
    if a !in head {
      assert a in ItemsFromFiles(files, ranges[1..]);
      ReadItemsNumbered(files, ranges[1..], a);
    }
  }

  /** An archive file is read exactly when the index neither names it nor covers the range its name spells out. */
  lemma {:induction false} CandidatesIff(files: seq<ArchiveFile>, known: seq<ArchiveItem>, a: ArchiveItem)
    ensures a in Candidates(files, known) <==>
              (exists f :: f in files && a == NameRange(f.name))
              && forall k :: k in known ==> k.file != a.file && !(k.first <= a.first && a.last <= k.last)
  {
    if files != [] {
      assert files == [files[0]] + files[1..];
      CandidatesIff(files[1..], known, a);
    }
  }

  lemma KnownArchivesInOrder(before: Collation, files: seq<ArchiveFile>, recorded: seq<ArchiveItem>, i: nat, j: nat)
    requires i < j < |KnownArchives(before, files, recorded)|
    ensures var a, b := KnownArchives(before, files, recorded)[i], KnownArchives(before, files, recorded)[j];
            a.first < b.first || (a.first == b.first && a.last <= b.last)
  {
    hide Compact, SetItems, Sort;
    var known := SetItems([], ValidItems(recorded));
    var all := SetItems(known, DiscoveredArchives(before, files, known));
    assert TotalPreorder(RangeLe);
    SortSorts(RangeLe, Compact(before, all));
    assert RangeLe(KnownArchives(before, files, recorded)[i], KnownArchives(before, files, recorded)[j]);
  }

  /** Each entry of the rebuilt index is a numbered one of the index file, or that of an archive file with numbered records. */
  lemma KnownArchivesAre(before: Collation, files: seq<ArchiveFile>, recorded: seq<ArchiveItem>, a: ArchiveItem)
    requires StrictOrder(before) && a in KnownArchives(before, files, recorded)
    ensures a.first > 0 && a.last > 0
    ensures a in recorded
            || var records := FileRecords(files, a.file);
               records != [] && a.first == records[0].sequence && a.last == records[|records| - 1].sequence
  {
    hide Compact, Candidates, SetItems, ItemsFromFiles, ValidItems, FileRecords, Sort;
    var known := SetItems([], ValidItems(recorded));
    var found := DiscoveredArchives(before, files, known);
    CompactedMembers(before, SetItems(known, found));
    SetItemsFrom(known, found, a);
    if a in found {
      ReadItemsNumbered(files, Compact(before, Candidates(files, known)), a);
    } else {
      SetItemsFrom([], ValidItems(recorded), a);
      ValidItemsAre(recorded, a);
    }
  }

  /** Every entry of the rebuilt index names an existing file and its true range. */
  lemma KnownArchivesGood(before: Collation, files: seq<ArchiveFile>, log: seq<Record>, recorded: seq<ArchiveItem>)
    requires StrictOrder(before) && StrictLog(log) && GoodFiles(files, log) && GoodItems(files, recorded)
    ensures GoodItems(files, KnownArchives(before, files, recorded))
  {
    GoodItemsAreValid(files, log, recorded);
    SetItemsKeepGood(files, [], recorded);
    var known := SetItems([], recorded);
    var candidates := Candidates(files, known);
    CandidatesOf(files, known);
    CompactedMembers(before, candidates);
    ItemsOfGoodRanges(files, log, Compact(before, candidates));
    SetItemsKeepGood(files, known, Compact(before, candidates));
    CompactedMembers(before, SetItems(known, Compact(before, candidates)));
  }

  /** Each archive file lies inside a recorded or a discovered entry. */
  lemma EntryHoldsFile(before: Collation, files: seq<ArchiveFile>, log: seq<Record>, known: seq<ArchiveItem>, f: ArchiveFile)
    requires StrictOrder(before) && StrictLog(log) && GoodFiles(files, log) && GoodItems(files, known) && f in files
    ensures exists a :: a in SetItems(known, DiscoveredArchives(before, files, known)) && Contains(a, NameRange(f.name))
  {
    hide Compact, Candidates, SetItems, ItemsFromFiles, StrictLog, GoodFiles, HasFile, HoldsRange;
    var candidates := Candidates(files, known);
    CandidatesOf(files, known);
    CompactedMembers(before, candidates);
    var found := Compact(before, candidates);
    ItemsOfGoodRanges(files, log, found);
    SetItemsKeepGood(files, known, found);
    assert DiscoveredArchives(before, files, known) == found;
    if NameRange(f.name) in candidates {
      CompactedContainer(before, candidates, NameRange(f.name));
      var holder :| holder in found && Contains(holder, NameRange(f.name));
      assert holder in SetItems(known, found);
    } else {
      var holder :| holder in known && (holder.file == f.name || Contains(holder, NameRange(f.name)));
      assert GoodItem(files, holder) && holder in SetItems(known, found);
      assert Contains(holder, NameRange(f.name));
    }
  }

  /** However far the index lagged behind, every archive file lies inside an entry of the rebuilt one. */
  lemma KnownArchivesCover(before: Collation, files: seq<ArchiveFile>, log: seq<Record>, recorded: seq<ArchiveItem>, f: ArchiveFile)
    requires StrictOrder(before) && StrictLog(log) && GoodFiles(files, log) && GoodItems(files, recorded) && f in files
    ensures exists a :: a in KnownArchives(before, files, recorded) && Contains(a, NameRange(f.name))
  {
    GoodItemsAreValid(files, log, recorded);
    SetItemsKeepGood(files, [], recorded);
    var known := SetItems([], recorded);
    EntryHoldsFile(before, files, log, known, f);
    var all := SetItems(known, DiscoveredArchives(before, files, known));
    var holder :| holder in all && Contains(holder, NameRange(f.name));
    CompactedMembers(before, all);
    CompactedContainer(before, all, holder);
    var a :| a in Compact(before, all) && Contains(a, holder);
    assert a in KnownArchives(before, files, recorded);
  }

  // ---- The view is the log ----

  lemma {:induction false} ArchivedRecordsAre(files: seq<ArchiveFile>, log: seq<Record>, archives: seq<ArchiveItem>)
    requires GoodFiles(files, log) && GoodItems(files, archives)
    ensures forall r :: r in ArchivedRecords(files, archives) <==>
              r in log && exists a :: a in archives && a.first <= r.sequence <= a.last
  {
    if archives != [] {
      var a := archives[0];
      assert archives == [a] + archives[1..];
      assert a in archives && forall b :: b in archives[1..] ==> b in archives;
      ArchivedRecordsAre(files, log, archives[1..]);
      var i :| 0 <= i < |files| && files[i].name == a.file;
      FileRecordsOf(files, log, files[i]);
      assert HoldsRange(files[i], log);
    }
  }

  /** The records the view reads are exactly those of the log. */
  lemma ReadRecordsAreLog(before: Collation, disk: Disk, log: seq<Record>)
    requires StrictOrder(before) && Refines(disk, log)
    ensures var read := ArchivedRecords(disk.files, ReadIndex(before, disk).archives) + disk.current;
            forall r :: r in read <==> r in log
  {
    var recorded := if disk.index.Some? then disk.index.value.archives else [];
    var archives := KnownArchives(before, disk.files, recorded);
    KnownArchivesGood(before, disk.files, log, recorded);
    ArchivedRecordsAre(disk.files, log, archives);
    forall r | r in log
      ensures r in disk.current || r in ArchivedRecords(disk.files, archives)
    {
      if r !in disk.current {
        var f :| f in disk.files && r in f.records;
        KnownArchivesCover(before, disk.files, log, recorded, f);
      }
    }
  }

  ghost predicate DistinctIds(records: seq<Record>) {
    forall i, j :: 0 <= i < j < |records| ==> records[i].id != records[j].id
  }

  lemma {:induction false} FirstByIdKeeps(records: seq<Record>)
    ensures forall r :: r in FirstById(records) ==> r in records
    ensures DistinctIds(FirstById(records))
    decreases |records|
  {
    if records != [] {
      FirstByIdKeeps(records[..|records| - 1]);
    }
  }

  lemma {:induction false} FirstByIdFinds(records: seq<Record>, r: Record)
    requires r in records
    ensures exists i :: 0 <= i < |FirstById(records)| && FirstById(records)[i].id == r.id
    decreases |records|
  {
    var front, last := records[..|records| - 1], records[|records| - 1];
    var earlier := FirstById(front);
    if r in front {
      FirstByIdFinds(front, r);
      var i :| 0 <= i < |earlier| && earlier[i].id == r.id;
      assert FirstById(records)[i] == earlier[i];
    } else {
      assert r == last by {
        assert records == front + [last];
      }
      if i :| 0 <= i < |earlier| && earlier[i].id == r.id {
        assert FirstById(records)[i] == earlier[i];
      } else {
        assert FirstById(records)[|earlier|] == last;
      }
    }
  }

  lemma KeptRecordsAreLog(records: seq<Record>, log: seq<Record>)
    requires StrictLog(log)
    requires forall r :: r in records <==> r in log
    ensures multiset(FirstById(records)) == multiset(log)
  {
    var kept := FirstById(records);
    FirstByIdKeeps(records);
    forall r | r in log
      ensures r in kept
    {
      FirstByIdFinds(records, r);
      var i :| 0 <= i < |kept| && kept[i].id == r.id;
      assert kept[i] in log;
    }
    SameDistinctElements(kept, log);
  }

  lemma LogIsSorted(log: seq<Record>)
    requires StrictLog(log)
    ensures TotalPreorder(RecordLe) && SortedBy(RecordLe, log) && Antisymmetric(RecordLe, log)
  {
  }

  /** Sorting and de-duplicating any reading of the log's records gives the log. */
  lemma DedupeIsLog(records: seq<Record>, log: seq<Record>)
    requires StrictLog(log)
    requires forall r :: r in records <==> r in log
    ensures DedupeRecords(records) == log
  {
    LogIsSorted(log);
    SortSorts(RecordLe, records);
    KeptRecordsAreLog(Sort(RecordLe, records), log);
    SortSorts(RecordLe, FirstById(Sort(RecordLe, records)));
    SortedUnique(RecordLe, log, DedupeRecords(records));
  }

  /** A store that refines a log shows exactly that log, without duplicates and in sequence order. */
  lemma ViewIsLog(before: Collation, disk: Disk, log: seq<Record>)
    requires StrictOrder(before) && Refines(disk, log)
    ensures View(before, disk) == log
  {
    ReadRecordsAreLog(before, disk, log);
    DedupeIsLog(ArchivedRecords(disk.files, ReadIndex(before, disk).archives) + disk.current, log);
  }

  lemma {:induction false} LastSequenceBounds(records: seq<Record>)
    ensures forall r :: r in records ==> r.sequence <= LastSequence(records)
  {
    if records != [] {
      LastSequenceBounds(records[1..]);
      assert records == [records[0]] + records[1..];
    }
  }

  lemma {:induction false} LastArchivedBounds(items: seq<ArchiveItem>)
    ensures forall a :: a in items ==> a.last <= LastArchived(items)
  {
    if items != [] {
      LastArchivedBounds(items[1..]);
      assert items == [items[0]] + items[1..];
    }
  }

  lemma {:induction false} LastSequenceIs(records: seq<Record>)
    ensures LastSequence(records) == 0 || exists r :: r in records && r.sequence == LastSequence(records)
  {
    if records != [] {
      LastSequenceIs(records[1..]);
      assert records == [records[0]] + records[1..];
    }
  }

  lemma {:induction false} LastArchivedIs(items: seq<ArchiveItem>)
    ensures LastArchived(items) == 0 || exists a :: a in items && a.last == LastArchived(items)
  {
    if items != [] {
      LastArchivedIs(items[1..]);
      assert items == [items[0]] + items[1..];
    }
  }

  /** The next sequence is the smallest from one on that the index file does not contradict and that exceeds all that is known. */
  lemma NextSequenceIs(before: Collation, disk: Disk)
    ensures var index := ReadIndex(before, disk);
            var next := index.nextSequence;
            var recorded := if disk.index.Some? then disk.index.value.nextSequence else 0;
            && next >= 1 && next >= recorded
            && (forall r :: r in disk.current ==> r.sequence < next) && (forall a :: a in index.archives ==> a.last < next)
            && (|| next == 1 || next == recorded
                || (exists r :: r in disk.current && next == r.sequence + 1)
                || exists a :: a in index.archives && next == a.last + 1)
  {
    hide KnownArchives;
    LastSequenceBounds(disk.current);
    LastSequenceIs(disk.current);
    LastArchivedBounds(ReadIndex(before, disk).archives);
    LastArchivedIs(ReadIndex(before, disk).archives);
  }

  /** The recomputed next sequence exceeds every stored one, whatever the index file says. */
  lemma NextSequenceIsFresh(before: Collation, disk: Disk, log: seq<Record>)
    requires StrictOrder(before) && Refines(disk, log)
    ensures ReadIndex(before, disk).nextSequence >= 1
    ensures forall r :: r in log ==> r.sequence < ReadIndex(before, disk).nextSequence
  {
    var archives := ReadIndex(before, disk).archives;
    var recorded := if disk.index.Some? then disk.index.value.archives else [];
    LastSequenceBounds(disk.current);
    LastArchivedBounds(archives);
    forall r | r in log
      ensures r.sequence < ReadIndex(before, disk).nextSequence
    {
      if r !in disk.current {
        var f :| f in disk.files && r in f.records;
        KnownArchivesCover(before, disk.files, log, recorded, f);
        var a :| a in archives && Contains(a, NameRange(f.name));
      }
    }
  }
}
