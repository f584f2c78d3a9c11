/**
 * Appending to the persona conversation store, with rotation of old records into archive files.
 *
 * A call is a list of atomic file writes and a crash keeps a prefix of them.  Every prefix leaves a
 * store that represents the log before or after the call.
 */
module ConversationStore {
  import opened Common
  import opened ArchiveRanges
  import opened ConversationView

  // ---- Appending ----

  /** A message to store; None when its text is blank, which the store refuses after rotating. */
  datatype Candidate = Candidate(id: RecordId, time: real, body: string)

  /** `legacy` is what the older history files hold, for a call that has to import it. */
  datatype Request = Request(message: Option<Candidate>, archiveCheck: bool, nowMs: real,
                             triggerHours: Option<real>, includeHours: Option<real>, legacy: seq<Record>)

  /** An hours option: absent or zero means the default, and anything below one hour means one. */
  function Hours(option: Option<real>, default: real): real {
    var hours := if option == None || option.value == 0.0 then default else option.value;
    if hours < 1.0 then 1.0 else hours
  }

  /** The epoch second that lies this many hours before now. */
  function HoursAgo(nowMs: real, hours: real): real {
    (nowMs - hours * 3600000.0) / 1000.0
  }

  function PrefixLength(records: seq<Record>, includeBefore: real): (n: nat)
    ensures n <= |records|
  {
    if records == [] || records[0].time > includeBefore then 0
    else 1 + PrefixLength(records[1..], includeBefore)
  }

  predicate AnyBefore(records: seq<Record>, triggerBefore: real) {
    exists i :: 0 <= i < |records| && records[i].time <= triggerBefore
  }

  /** The disk after each file write of a rotation, in order, and the index entries it leaves in memory. */
  datatype Rotation = Rotation(writes: seq<Disk>, archives: seq<ArchiveItem>, archived: Option<FileName>)

  function WithoutFile(items: seq<ArchiveItem>, name: FileName): seq<ArchiveItem> {
    if items == [] then []
    else (if items[0].file == name then [] else [items[0]]) + WithoutFile(items[1..], name)
  }

  /** How many records at the front of the current file a rotation would move; zero means no rotation. */
  function RotationLength(records: seq<Record>, request: Request): (n: nat)
    ensures n <= |records|
  {
    var triggerBefore := HoursAgo(request.nowMs, Hours(request.triggerHours, 72.0));
    var includeBefore := HoursAgo(request.nowMs, Hours(request.includeHours, 24.0));
    var n := PrefixLength(records, includeBefore);
    if !request.archiveCheck || records == [] || !AnyBefore(records, triggerBefore) || n == 0 then 0
    else if records[0].sequence == 0 || records[n - 1].sequence == 0 then 0
    else n
  }

  lemma {:induction false} PrefixIsOld(records: seq<Record>, includeBefore: real)
    ensures var n := PrefixLength(records, includeBefore);
            && (forall i :: 0 <= i < n ==> records[i].time <= includeBefore)
            && (n < |records| ==> records[n].time > includeBefore)
  {
    if records != [] && records[0].time <= includeBefore {
      PrefixIsOld(records[1..], includeBefore);
      var n := PrefixLength(records[1..], includeBefore);
      forall i | 0 <= i < n + 1
        ensures records[i].time <= includeBefore
      {
        if i > 0 {
          assert records[i] == records[1..][i - 1];
        }
      }
    }
  }

  /**
   * A rotation happens exactly when it is asked for, some record is older than the trigger and the first one is old
   * enough to be included; it moves the longest prefix of records that are.
   */
  lemma RotationMovesOldPrefix(records: seq<Record>, request: Request)
    requires forall i :: 0 <= i < |records| ==> records[i].sequence > 0
    ensures var n := RotationLength(records, request);
            var trigger := HoursAgo(request.nowMs, Hours(request.triggerHours, 72.0));
            var included := HoursAgo(request.nowMs, Hours(request.includeHours, 24.0));
            && (n > 0 <==> request.archiveCheck && AnyBefore(records, trigger) && records[0].time <= included)
            && (forall i :: 0 <= i < n ==> records[i].time <= included)
            && (0 < n < |records| ==> records[n].time > included)
  {
    hide Hours, HoursAgo;
    PrefixIsOld(records, HoursAgo(request.nowMs, Hours(request.includeHours, 24.0)));
  }

  function Rotate(before: Collation, disk: Disk, archives: seq<ArchiveItem>, request: Request): Rotation {
    var n := RotationLength(disk.current, request);
    if n == 0 then Rotation([], archives, None)
    else
      var name := FileName(disk.current[0].sequence, disk.current[n - 1].sequence);
      var filed := if HasFile(disk.files, name) then disk
                   else disk.(files := disk.files + [ArchiveFile(name, disk.current[..n])]);
      var shortened := filed.(current := disk.current[n..]);
      Rotation(if HasFile(disk.files, name) then [shortened] else [filed, shortened],
               SortArchives(before, WithoutFile(archives, name) + [NameRange(name)]), Some(name))
  }

  function FindById(records: seq<Record>, id: RecordId): Option<Record> {
    if records == [] then None
    else if records[0].id == id then Some(records[0])
    else FindById(records[1..], id)
  }

  /** Archives are searched newest range first. */
  function FindArchived(files: seq<ArchiveFile>, archives: seq<ArchiveItem>, id: RecordId): Option<Record> {
    if archives == [] then None
    else
      var found := FindById(FileRecords(files, archives[|archives| - 1].file), id);
      if found.Some? then found else FindArchived(files, archives[..|archives| - 1], id)
  }

  function FindExisting(disk: Disk, archives: seq<ArchiveItem>, id: RecordId): Option<Record> {
    var found := FindById(disk.current, id);
    if found.Some? then found else FindArchived(disk.files, archives, id)
  }

  datatype Outcome = Appended(record: Record) | Replayed(record: Record) | Refused

  /** The disk after each file write of an append, in order, and what the call returns. */
  datatype AppendRun = AppendRun(writes: seq<Disk>, outcome: Outcome)

  function LastDisk(disk: Disk, writes: seq<Disk>): Disk {
    if writes == [] then disk else writes[|writes| - 1]
  }

  /** Storing a message once the rotation is done. */
  function StoreMessage(before: Collation, disk: Disk, index: Index, message: Option<Candidate>): AppendRun {
    var saved := SortArchives(before, index.archives);
    match message
    case None => AppendRun([], Refused)
    case Some(m) =>
      match FindExisting(disk, index.archives, m.id)
      case Some(record) =>
        AppendRun([disk.(index := Some(Index(index.nextSequence, saved, index.legacyImported)))], Replayed(record))
      case None =>
        var record := Record(m.id, index.nextSequence, m.time, m.body);
        var extended := disk.(current := disk.current + [record]);
        AppendRun([extended, extended.(index := Some(Index(index.nextSequence + 1, saved, index.legacyImported)))], Appended(record))
  }

  /** Records numbered from here on. */
  function Renumber(records: seq<Record>, from: nat): seq<Record> {
    if records == [] then [] else [records[0].(sequence := from)] + Renumber(records[1..], from + 1)
  }

  /** The writes of an import, and the index in memory after it. */
  datatype Migration = Migration(writes: seq<Disk>, index: Index)

  /** Unless the index on file says it was done, older history is merged into the current file, which is numbered anew. */
  function MigrateLegacy(disk: Disk, index: Index, legacy: seq<Record>): Migration {
    if index.legacyImported then Migration([], index)
    else
      var merged := DedupeRecords(legacy + disk.current);
      var from := Max(1, LastArchived(index.archives) + 1);
      Migration([disk.(current := Renumber(merged, from))], Index(from + |merged|, index.archives, true))
  }

  /** Rotating and storing, once the import is out of the way. */
  function AppendTo(before: Collation, disk: Disk, index: Index, request: Request): AppendRun {
    var rotation := Rotate(before, disk, index.archives, request);
    var rotated := LastDisk(disk, rotation.writes);
    var stored := StoreMessage(before, rotated, index.(archives := rotation.archives), request.message);
    AppendRun(rotation.writes + stored.writes, stored.outcome)
  }

  function Append(before: Collation, disk: Disk, request: Request): AppendRun {
    var migration := MigrateLegacy(disk, ReadIndex(before, disk), request.legacy);
    var run := AppendTo(before, LastDisk(disk, migration.writes), migration.index, request);
    AppendRun(migration.writes + run.writes, run.outcome)
  }

  /** The index on file records the import, so no call numbers the current file anew. */
  predicate Imported(disk: Disk) {
    disk.index.Some? && disk.index.value.legacyImported
  }

  // ---- Every file write keeps the refinement ----

  /** Each log record is in the current file or inside an entry of these archives. */
  ghost predicate Reached(disk: Disk, archives: seq<ArchiveItem>, log: seq<Record>) {
    forall r :: r in log ==> r in disk.current || exists a :: a in archives && a.first <= r.sequence <= a.last
  }

  lemma IndexReaches(before: Collation, disk: Disk, log: seq<Record>)
    requires StrictOrder(before) && Refines(disk, log)
    ensures GoodItems(disk.files, ReadIndex(before, disk).archives)
    ensures Reached(disk, ReadIndex(before, disk).archives, log)
  {
    var recorded := if disk.index.Some? then disk.index.value.archives else [];
    KnownArchivesGood(before, disk.files, log, recorded);
    forall r | r in log && r !in disk.current
      ensures exists a :: a in ReadIndex(before, disk).archives && a.first <= r.sequence <= a.last
    {
      var f :| f in disk.files && r in f.records;
      KnownArchivesCover(before, disk.files, log, recorded, f);
      var a :| a in KnownArchives(before, disk.files, recorded) && Contains(a, NameRange(f.name));
      assert HoldsRange(f, log);
    }
  }

  lemma {:induction false} WithoutFileKeeps(items: seq<ArchiveItem>, name: FileName)
    ensures forall a :: a in WithoutFile(items, name) <==> a in items && a.file != name
  {
    if items != [] {
      assert items == [items[0]] + items[1..];
      WithoutFileKeeps(items[1..], name);
    }
  }

  lemma SliceIs(log: seq<Record>, k: nat, n: nat, r: Record)
    requires StrictLog(log) && 0 < n && k + n <= |log|
    ensures r in log[k..k + n] <==> r in log && log[k].sequence <= r.sequence <= log[k + n - 1].sequence
  {
    if r in log {
      var i :| 0 <= i < |log| && log[i] == r;
      if log[k].sequence <= r.sequence <= log[k + n - 1].sequence {
        assert k <= i < k + n;
        assert log[k..k + n][i - k] == r;
      }
    }
    if r in log[k..k + n] {
      var i :| 0 <= i < n && log[k..k + n][i] == r;
      assert log[k + i] == r;
    }
  }

  lemma SliceHoldsRange(log: seq<Record>, k: nat, n: nat)
    requires StrictLog(log) && 0 < n && k + n <= |log|
    ensures HoldsRange(ArchiveFile(FileName(log[k].sequence, log[k + n - 1].sequence), log[k..k + n]), log)
  {
    hide StrictLog;
    forall r
      ensures r in log[k..k + n] <==> r in log && log[k].sequence <= r.sequence <= log[k + n - 1].sequence
    {
      SliceIs(log, k, n, r);
    }
  }

  /** The records a rotation moves fill the range the archive file is named after. */
  lemma MovedRecords(disk: Disk, log: seq<Record>, n: nat)
    requires Refines(disk, log) && 0 < n <= |disk.current|
    ensures var moved := disk.current[..n];
            && HoldsRange(ArchiveFile(FileName(moved[0].sequence, moved[n - 1].sequence), moved), log)
            && forall r :: r in disk.current ==> r in moved || r in disk.current[n..]
  {
    hide StrictLog, HoldsRange, GoodFiles, GoodItems, Archived;
    var k := |log| - |disk.current|;
    SliceHoldsRange(log, k, n);
    assert disk.current[..n] == log[k..k + n];
    assert disk.current == disk.current[..n] + disk.current[n..];
  }

  lemma FilingKeepsFiles(files: seq<ArchiveFile>, log: seq<Record>, file: ArchiveFile)
    requires GoodFiles(files, log) && HoldsRange(file, log) && !HasFile(files, file.name)
    ensures GoodFiles(files + [file], log)
  {
    hide HoldsRange;
    forall f | f in files + [file]
      ensures HoldsRange(f, log)
    {
      assert f in files || f == file;
    }
  }

  /** Writing the archive file changes nothing the store represents. */
  lemma FilingRefines(disk: Disk, log: seq<Record>, n: nat)
    requires Refines(disk, log) && 0 < n <= |disk.current|
    requires !HasFile(disk.files, FileName(disk.current[0].sequence, disk.current[n - 1].sequence))
    ensures var name := FileName(disk.current[0].sequence, disk.current[n - 1].sequence);
            Refines(disk.(files := disk.files + [ArchiveFile(name, disk.current[..n])]), log)
  {
    hide StrictLog, HoldsRange, GoodItems, GoodFiles, HasFile;
    var file := ArchiveFile(FileName(disk.current[0].sequence, disk.current[n - 1].sequence), disk.current[..n]);
    var files := disk.files + [file];
    MovedRecords(disk, log, n);
    FilingKeepsFiles(disk.files, log, file);
    forall r | r in log
      ensures r in disk.current || Archived(files, r)
    {
      if r !in disk.current {
        var f :| f in disk.files && r in f.records;
        assert f in files;
      }
    }
    if disk.index.Some? {
      MoreFilesKeepItems(disk.files, files, disk.index.value.archives);
    }
  }

  lemma MoreFilesKeepItems(files: seq<ArchiveFile>, more: seq<ArchiveFile>, items: seq<ArchiveItem>)
    requires GoodItems(files, items) && files <= more
    ensures GoodItems(more, items)
  {
    forall a | a in items
      ensures GoodItem(more, a)
    {
      assert GoodItem(files, a);
      var i :| 0 <= i < |files| && files[i].name == a.file;
      assert more[i] == files[i];
    }
  }

  lemma MovedAreArchived(disk: Disk, log: seq<Record>, n: nat, r: Record)
    requires Refines(disk, log) && 0 < n <= |disk.current|
    requires HasFile(disk.files, FileName(disk.current[0].sequence, disk.current[n - 1].sequence))
    requires r in disk.current && r !in disk.current[n..]
    ensures Archived(disk.files, r)
  {
    hide StrictLog, GoodItems;
    var i :| 0 <= i < |disk.files| && disk.files[i].name == FileName(disk.current[0].sequence, disk.current[n - 1].sequence);
    MovedRecords(disk, log, n);
    assert HoldsRange(disk.files[i], log);
  }

  /** Shortening the current file is safe once the archive file is there. */
  lemma ShorteningRefines(disk: Disk, log: seq<Record>, n: nat)
    requires Refines(disk, log) && 0 < n <= |disk.current|
    requires HasFile(disk.files, FileName(disk.current[0].sequence, disk.current[n - 1].sequence))
    ensures Refines(disk.(current := disk.current[n..]), log)
  {
    hide StrictLog, GoodItems, GoodFiles, HasFile, Archived;
    forall r | r in log
      ensures r in disk.current[n..] || Archived(disk.files, r)
    {
      if r in disk.current && r !in disk.current[n..] {
        MovedAreArchived(disk, log, n, r);
      }
    }
    assert disk.current[n..] == log[|log| - |disk.current[n..]|..];
  }

  lemma RotationWrites(before: Collation, disk: Disk, log: seq<Record>, archives: seq<ArchiveItem>, request: Request)
    requires Refines(disk, log)
    ensures forall d :: d in Rotate(before, disk, archives, request).writes ==> Refines(d, log)
    ensures Refines(LastDisk(disk, Rotate(before, disk, archives, request).writes), log)
  {
    hide Refines, RotationLength, SortArchives, WithoutFile;
    var n := RotationLength(disk.current, request);
    if n > 0 {
      var name := FileName(disk.current[0].sequence, disk.current[n - 1].sequence);
      if !HasFile(disk.files, name) {
        FilingRefines(disk, log, n);
        var files := disk.files + [ArchiveFile(name, disk.current[..n])];
        assert files[|disk.files|].name == name;
        ShorteningRefines(disk.(files := files), log, n);
      } else {
        ShorteningRefines(disk, log, n);
      }
    }
  }

  /** Replacing an entry by its equal and compacting loses no record. */
  lemma ItemsStillReach(before: Collation, files: seq<ArchiveFile>, archives: seq<ArchiveItem>, name: FileName, holder: ArchiveItem)
    requires StrictOrder(before) && GoodItems(files, archives)
    requires holder in archives || holder == NameRange(name)
    ensures exists a :: a in SortArchives(before, WithoutFile(archives, name) + [NameRange(name)]) && Contains(a, holder)
  {
    var items := WithoutFile(archives, name) + [NameRange(name)];
    WithoutFileKeeps(archives, name);
    assert holder in items by {
      if holder in archives {
        assert GoodItem(files, holder);
      }
    }
    CompactedMembers(before, items);
    CompactedContainer(before, items, holder);
    var a :| a in Compact(before, items) && Contains(a, holder);
    assert a in SortArchives(before, items);
  }

  lemma RotationItemsGood(before: Collation, disk: Disk, archives: seq<ArchiveItem>, request: Request)
    requires StrictOrder(before) && GoodItems(disk.files, archives)
    ensures var rotation := Rotate(before, disk, archives, request);
            GoodItems(LastDisk(disk, rotation.writes).files, rotation.archives)
  {
    var n := RotationLength(disk.current, request);
    if n > 0 {
      var name := FileName(disk.current[0].sequence, disk.current[n - 1].sequence);
      var files := LastDisk(disk, Rotate(before, disk, archives, request).writes).files;
      WithoutFileKeeps(archives, name);
      MoreFilesKeepItems(disk.files, files, archives);
      if !HasFile(disk.files, name) {
        assert files[|disk.files|].name == name;
      }
      CompactedMembers(before, WithoutFile(archives, name) + [NameRange(name)]);
    }
  }

  lemma RecordStillReached(before: Collation, disk: Disk, log: seq<Record>, archives: seq<ArchiveItem>, n: nat, r: Record)
    requires StrictOrder(before) && Refines(disk, log) && 0 < n <= |disk.current|
    requires GoodItems(disk.files, archives) && Reached(disk, archives, log)
    requires r in log && r !in disk.current[n..]
    ensures var name := FileName(disk.current[0].sequence, disk.current[n - 1].sequence);
            exists a :: a in SortArchives(before, WithoutFile(archives, name) + [NameRange(name)])
                        && a.first <= r.sequence <= a.last
  {
    var name := FileName(disk.current[0].sequence, disk.current[n - 1].sequence);
    var holder := NameRange(name);
    if r in disk.current {
      MovedRecords(disk, log, n);
    } else {
      holder :| holder in archives && holder.first <= r.sequence <= holder.last;
    }
    ItemsStillReach(before, disk.files, archives, name, holder);
  }

  /** After a rotation the index entries in memory still lead to every record. */
  lemma RotationReaches(before: Collation, disk: Disk, log: seq<Record>, archives: seq<ArchiveItem>, request: Request)
    requires StrictOrder(before) && Refines(disk, log)
    requires GoodItems(disk.files, archives) && Reached(disk, archives, log)
    ensures var rotation := Rotate(before, disk, archives, request);
            Reached(LastDisk(disk, rotation.writes), rotation.archives, log)
  {
    var n := RotationLength(disk.current, request);
    if n > 0 {
      var rotation := Rotate(before, disk, archives, request);
      assert LastDisk(disk, rotation.writes).current == disk.current[n..];
      forall r | r in log && r !in disk.current[n..]
        ensures exists a :: a in rotation.archives && a.first <= r.sequence <= a.last
      {
        RecordStillReached(before, disk, log, archives, n, r);
      }
    }
  }

  lemma {:induction false} FindByIdFinds(records: seq<Record>, id: RecordId)
    ensures match FindById(records, id)
            case Some(r) => r in records && r.id == id
            case None => forall r :: r in records ==> r.id != id
  {
    if records != [] && records[0].id != id {
      FindByIdFinds(records[1..], id);
      assert records == [records[0]] + records[1..];
    }
  }

  lemma {:induction false} FindArchivedFinds(files: seq<ArchiveFile>, archives: seq<ArchiveItem>, id: RecordId)
    ensures match FindArchived(files, archives, id)
            case Some(r) => r.id == id && exists a :: a in archives && r in FileRecords(files, a.file)
            case None => forall a :: a in archives ==> forall r :: r in FileRecords(files, a.file) ==> r.id != id
    decreases |archives|
  {
    if archives != [] {
      var front, last := archives[..|archives| - 1], archives[|archives| - 1];
      assert archives == front + [last];
      FindByIdFinds(FileRecords(files, last.file), id);
      FindArchivedFinds(files, front, id);
    }
  }

  /** A message is found in the store exactly when its id is in the log. */
  lemma FindExistingIsLookup(disk: Disk, archives: seq<ArchiveItem>, log: seq<Record>, id: RecordId)
    requires Refines(disk, log) && GoodItems(disk.files, archives) && Reached(disk, archives, log)
    ensures match FindExisting(disk, archives, id)
            case Some(r) => r in log && r.id == id
            case None => forall r :: r in log ==> r.id != id
  {
    FindByIdFinds(disk.current, id);
    FindArchivedFinds(disk.files, archives, id);
    forall a | a in archives
      ensures forall r :: r in FileRecords(disk.files, a.file) <==> r in log && a.first <= r.sequence <= a.last
    {
      assert GoodItem(disk.files, a);
      var i :| 0 <= i < |disk.files| && disk.files[i].name == a.file;
      FileRecordsOf(disk.files, log, disk.files[i]);
      assert HoldsRange(disk.files[i], log);
    }
  }

  /** The disk after the first `k` file writes of a call. */
  function DiskAfter(disk: Disk, writes: seq<Disk>, k: nat): Disk {
    if k == 0 || writes == [] then disk else writes[Min(k, |writes|) - 1]
  }

  /** The log after the first `k` file writes: the write that extends the current file is the commit point. */
  function LogAfter(log: seq<Record>, run: AppendRun, k: nat): seq<Record> {
    if run.outcome.Appended? && k + 1 >= |run.writes| then log + [run.outcome.record] else log
  }

  lemma ExtendRefines(disk: Disk, log: seq<Record>, record: Record)
    requires Refines(disk, log) && record.sequence > 0
    requires forall r :: r in log ==> r.sequence < record.sequence && r.id != record.id
    ensures Refines(disk.(current := disk.current + [record]), log + [record])
  {
    var longer := log + [record];
    forall f | f in disk.files
      ensures HoldsRange(f, longer)
    {
      assert HoldsRange(f, log) && f.records[|f.records| - 1] in f.records;
    }
    forall r | r in longer
      ensures r in disk.current + [record] || Archived(disk.files, r)
    {
      assert r in log || r == record;
    }
  }

  lemma IndexWriteRefines(before: Collation, disk: Disk, log: seq<Record>, nextSequence: nat, archives: seq<ArchiveItem>)
    requires StrictOrder(before) && Refines(disk, log) && GoodItems(disk.files, archives)
    ensures forall imported :: Refines(disk.(index := Some(Index(nextSequence, SortArchives(before, archives), imported))), log)
  {
    CompactedMembers(before, archives);
  }

  /** An index in memory that leads to every record and numbers past all of them. */
  ghost predicate SoundIndex(disk: Disk, index: Index, log: seq<Record>) {
    && GoodItems(disk.files, index.archives) && Reached(disk, index.archives, log)
    && index.nextSequence >= 1 && forall r :: r in log ==> r.sequence < index.nextSequence
  }

  /** A blank message is refused, a known id gives its record, and a new record is numbered past the whole log. */
  ghost predicate Answers(outcome: Outcome, message: Option<Candidate>, log: seq<Record>) {
    match outcome
    case Refused => message == None
    case Replayed(r) => message.Some? && r in log && r.id == message.value.id
    case Appended(r) =>
      && message == Some(Candidate(r.id, r.time, r.body)) && r.sequence > 0
      && forall x :: x in log ==> x.sequence < r.sequence && x.id != r.id
  }

  lemma StoreReturns(before: Collation, disk: Disk, index: Index, log: seq<Record>, message: Option<Candidate>)
    requires StrictOrder(before) && Refines(disk, log) && SoundIndex(disk, index, log)
    ensures Answers(StoreMessage(before, disk, index, message).outcome, message, log)
  {
    if message.Some? {
      FindExistingIsLookup(disk, index.archives, log, message.value.id);
    }
  }

  lemma ReplayedDisk(before: Collation, disk: Disk, index: Index, log: seq<Record>, message: Option<Candidate>)
    requires StrictOrder(before) && Refines(disk, log) && SoundIndex(disk, index, log)
    requires StoreMessage(before, disk, index, message).outcome.Replayed?
    ensures Refines(StoreMessage(before, disk, index, message).writes[0], log)
  {
    IndexWriteRefines(before, disk, log, index.nextSequence, index.archives);
  }

  lemma AppendedDisks(before: Collation, disk: Disk, index: Index, log: seq<Record>, message: Option<Candidate>)
    requires StrictOrder(before) && Refines(disk, log) && SoundIndex(disk, index, log)
    requires StoreMessage(before, disk, index, message).outcome.Appended?
    ensures var run := StoreMessage(before, disk, index, message);
            Refines(run.writes[0], log + [run.outcome.record]) && Refines(run.writes[1], log + [run.outcome.record])
  {
    hide Refines, StrictLog, FindExisting, SortArchives, Reached, GoodItems;
    var record := StoreMessage(before, disk, index, message).outcome.record;
    StoreReturns(before, disk, index, log, message);
    ExtendRefines(disk, log, record);
    IndexWriteRefines(before, disk.(current := disk.current + [record]), log + [record],
                      index.nextSequence + 1, index.archives);
  }

  lemma StoreRefines(before: Collation, disk: Disk, index: Index, log: seq<Record>, message: Option<Candidate>, k: nat)
    requires StrictOrder(before) && Refines(disk, log) && SoundIndex(disk, index, log) && k > 0
    ensures var run := StoreMessage(before, disk, index, message);
            Refines(DiskAfter(disk, run.writes, k), LogAfter(log, run, k))
  {
    hide Refines, SoundIndex, FindExisting;
    match StoreMessage(before, disk, index, message).outcome
    case Refused =>
    case Replayed(_) => ReplayedDisk(before, disk, index, log, message);
    case Appended(_) => AppendedDisks(before, disk, index, log, message);
  }

  lemma ReadIndexSound(before: Collation, disk: Disk, log: seq<Record>)
    requires StrictOrder(before) && Refines(disk, log)
    ensures SoundIndex(disk, ReadIndex(before, disk), log)
  {
    NextSequenceIsFresh(before, disk, log);
    IndexReaches(before, disk, log);
  }

  lemma RotatedIndexSound(before: Collation, disk: Disk, index: Index, log: seq<Record>, request: Request)
    requires StrictOrder(before) && Refines(disk, log) && SoundIndex(disk, index, log)
    ensures var rotation := Rotate(before, disk, index.archives, request);
            var rotated := LastDisk(disk, rotation.writes);
            Refines(rotated, log) && SoundIndex(rotated, index.(archives := rotation.archives), log)
  {
    RotationWrites(before, disk, log, index.archives, request);
    RotationItemsGood(before, disk, index.archives, request);
    RotationReaches(before, disk, log, index.archives, request);
  }

  lemma NothingToImport(before: Collation, disk: Disk, request: Request)
    requires Imported(disk)
    ensures Append(before, disk, request) == AppendTo(before, disk, ReadIndex(before, disk), request)
  {
    hide KnownArchives, Rotate, StoreMessage;
    var run := AppendTo(before, disk, ReadIndex(before, disk), request);
    assert [] + run.writes == run.writes;
  }

  /** What a call that is not cut short returns. */
  lemma AppendReturns(before: Collation, disk: Disk, log: seq<Record>, request: Request)
    requires StrictOrder(before) && Refines(disk, log) && Imported(disk)
    ensures Answers(Append(before, disk, request).outcome, request.message, log)
  {
    hide Refines, SoundIndex, ReadIndex, Rotate, Append;
    NothingToImport(before, disk, request);
    ReadIndexSound(before, disk, log);
    AppendToReturns(before, disk, ReadIndex(before, disk), log, request);
  }

  lemma AppendToReturns(before: Collation, disk: Disk, index: Index, log: seq<Record>, request: Request)
    requires StrictOrder(before) && Refines(disk, log) && SoundIndex(disk, index, log)
    ensures Answers(AppendTo(before, disk, index, request).outcome, request.message, log)
  {
    hide Refines, SoundIndex, Rotate;
    var rotation := Rotate(before, disk, index.archives, request);
    RotatedIndexSound(before, disk, index, log, request);
    StoreReturns(before, LastDisk(disk, rotation.writes), index.(archives := rotation.archives), log, request.message);
  }

  lemma DiskAfterSplits(disk: Disk, first: seq<Disk>, later: seq<Disk>, k: nat)
    ensures DiskAfter(disk, first + later, k)
         == if k <= |first| then DiskAfter(disk, first, k) else DiskAfter(LastDisk(disk, first), later, k - |first|)
  {
  }

  lemma AppendToRefines(before: Collation, disk: Disk, index: Index, log: seq<Record>, request: Request, k: nat)
    requires StrictOrder(before) && Refines(disk, log) && SoundIndex(disk, index, log)
    ensures var run := AppendTo(before, disk, index, request);
            Refines(DiskAfter(disk, run.writes, k), LogAfter(log, run, k))
  {
    hide Refines, SoundIndex, Rotate;
    var rotation := Rotate(before, disk, index.archives, request);
    var rotated := LastDisk(disk, rotation.writes);
    var stored := StoreMessage(before, rotated, index.(archives := rotation.archives), request.message);
    RotatedIndexSound(before, disk, index, log, request);
    DiskAfterSplits(disk, rotation.writes, stored.writes, k);
    if k <= |rotation.writes| {
      RotationDisks(before, disk, log, index.archives, request, k);
      assert stored.outcome.Appended? ==> |stored.writes| == 2;
    } else {
      StoreRefines(before, rotated, index.(archives := rotation.archives), log, request.message, k - |rotation.writes|);
    }
  }

  /** A crash after any number of file writes leaves a store that refines the log before or after the call. */
  lemma AppendRefines(before: Collation, disk: Disk, log: seq<Record>, request: Request, k: nat)
    requires StrictOrder(before) && Refines(disk, log) && Imported(disk)
    ensures var run := Append(before, disk, request);
            && Refines(DiskAfter(disk, run.writes, k), LogAfter(log, run, k))
            && Imported(DiskAfter(disk, run.writes, k))
  {
    hide Refines, SoundIndex, ReadIndex, AppendTo, Append, DiskAfter, Imported;
    NothingToImport(before, disk, request);
    ReadIndexSound(before, disk, log);
    AppendToRefines(before, disk, ReadIndex(before, disk), log, request, k);
    assert ReadIndex(before, disk).legacyImported by {
      ReadIndexImported(before, disk);
    }
    StaysImported(before, disk, ReadIndex(before, disk), request, k);
  }

  lemma ReadIndexImported(before: Collation, disk: Disk)
    ensures ReadIndex(before, disk).legacyImported <==> Imported(disk)
  {
  }

  /** No write of a call takes the record of the import away, and a call that got as far as the index leaves it. */
  lemma StaysImported(before: Collation, disk: Disk, index: Index, request: Request, k: nat)
    requires index.legacyImported
    ensures var run := AppendTo(before, disk, index, request);
            && (Imported(disk) ==> Imported(DiskAfter(disk, run.writes, k)))
            && (k >= |run.writes| && !run.outcome.Refused? ==> Imported(DiskAfter(disk, run.writes, k)))
  {
    hide RotationLength, HasFile, SortArchives, FindExisting;
  }

  lemma RotationDisks(before: Collation, disk: Disk, log: seq<Record>, archives: seq<ArchiveItem>, request: Request, k: nat)
    requires Refines(disk, log) && k <= |Rotate(before, disk, archives, request).writes|
    ensures Refines(DiskAfter(disk, Rotate(before, disk, archives, request).writes, k), log)
  {
    RotationWrites(before, disk, log, archives, request);
    var writes := Rotate(before, disk, archives, request).writes;
    if k > 0 {
      assert writes[k - 1] in writes;
    }
  }

  // ---- Whole runs ----

  /** One append call; fewer writes than it needs means the process crashed there. */
  datatype Call = Call(request: Request, writes: nat)

  function RunCall(before: Collation, disk: Disk, call: Call): Disk {
    DiskAfter(disk, Append(before, disk, call.request).writes, call.writes)
  }

  function RunCalls(before: Collation, disk: Disk, calls: seq<Call>): Disk
    decreases |calls|
  {
    if calls == [] then disk else RunCalls(before, RunCall(before, disk, calls[0]), calls[1..])
  }

  /** Every run of appends, rotations and crashes refines one log that only ever grows at its end. */
  lemma {:induction false} RunsRefineOneLog(before: Collation, disk: Disk, log: seq<Record>, calls: seq<Call>)
    requires StrictOrder(before) && Refines(disk, log) && Imported(disk)
    ensures var end := RunCalls(before, disk, calls);
            Refines(end, View(before, end)) && Imported(end) && log <= View(before, end)
    decreases |calls|
  {
    hide Refines, Append, View, DiskAfter, Imported;
    if calls == [] {
      ViewIsLog(before, disk, log);
    } else {
      var run := Append(before, disk, calls[0].request);
      AppendRefines(before, disk, log, calls[0].request, calls[0].writes);
      RunsRefineOneLog(before, RunCall(before, disk, calls[0]), LogAfter(log, run, calls[0].writes), calls[1..]);
    }
  }

  /** What a completed call returned is in the view of every later state. */
  lemma CommittedStays(before: Collation, disk: Disk, log: seq<Record>, call: Call, later: seq<Call>)
    requires StrictOrder(before) && Refines(disk, log) && Imported(disk)
    requires call.writes >= |Append(before, disk, call.request).writes|
    ensures var run := Append(before, disk, call.request);
            !run.outcome.Refused? ==> run.outcome.record in View(before, RunCalls(before, RunCall(before, disk, call), later))
  {
    hide Refines, Append, View, RunCalls, Imported;
    var run := Append(before, disk, call.request);
    AppendRefines(before, disk, log, call.request, call.writes);
    AppendReturns(before, disk, log, call.request);
    var longer := LogAfter(log, run, call.writes);
    RunsRefineOneLog(before, RunCall(before, disk, call), longer, later);
    if !run.outcome.Refused? {
      assert run.outcome.record in longer;
    }
  }

  class Store {
    const before: Collation
    var disk: Disk
    /** File writes left before the process crashes. */
    var writesLeft: nat

    constructor (before: Collation, disk: Disk, writesLeft: nat)
      ensures this.before == before && this.disk == disk && this.writesLeft == writesLeft
    {
      this.before, this.disk, this.writesLeft := before, disk, writesLeft;
    }

    /** Replaces one file atomically, unless the process is gone. */
    method Commit(next: Disk) returns (alive: bool)
      modifies this
      ensures alive == (old(writesLeft) > 0)
      ensures disk == if alive then next else old(disk)
      ensures writesLeft == if alive then old(writesLeft) - 1 else 0
    {
      alive := writesLeft > 0;
      if alive {
        disk := next;
        writesLeft := writesLeft - 1;
      }
    }

    method EligiblePrefix(records: seq<Record>, includeBefore: real) returns (prefixLength: nat)
      ensures prefixLength == PrefixLength(records, includeBefore)
    {
      prefixLength := 0;
      while prefixLength < |records| && records[prefixLength].time <= includeBefore
        invariant prefixLength <= |records|
        invariant PrefixLength(records, includeBefore) == prefixLength + PrefixLength(records[prefixLength..], includeBefore)
      {
        prefixLength := prefixLength + 1;
      }
    }

    method RotationPrefix(request: Request) returns (n: nat)
      ensures n == RotationLength(disk.current, request)
    {
      if !request.archiveCheck || |disk.current| == 0 {
        return 0;
      }
      if !AnyBefore(disk.current, HoursAgo(request.nowMs, Hours(request.triggerHours, 72.0))) {
        return 0;
      }
      n := EligiblePrefix(disk.current, HoursAgo(request.nowMs, Hours(request.includeHours, 24.0)));
      if n > 0 && (disk.current[0].sequence == 0 || disk.current[n - 1].sequence == 0) {
        n := 0;
      }
    }

    method ArchiveEligiblePrefix(archives: seq<ArchiveItem>, request: Request) returns (alive: bool, items: seq<ArchiveItem>)
      modifies this
      ensures var rotation := Rotate(before, old(disk), archives, request);
              && disk == DiskAfter(old(disk), rotation.writes, old(writesLeft))
              && alive == (old(writesLeft) >= |rotation.writes|)
              && (alive ==> items == rotation.archives && writesLeft == old(writesLeft) - |rotation.writes|)
    {
      hide RotationLength, HasFile, SortArchives;
      items := archives;
      var n := RotationPrefix(request);
      if n == 0 {
        return true, archives;
      }
      var name := FileName(disk.current[0].sequence, disk.current[n - 1].sequence);
      var remaining := disk.current[n..];
      if !HasFile(disk.files, name) {
        alive := Commit(disk.(files := disk.files + [ArchiveFile(name, disk.current[..n])]));
        if !alive {
          return;
        }
      }
      items := SortArchives(before, WithoutFile(archives, name) + [NameRange(name)]);
      alive := Commit(disk.(current := remaining));
    }

    method CommitMessage(index: Index, message: Option<Candidate>) returns (outcome: Option<Outcome>)
      modifies this
      ensures var run := StoreMessage(before, old(disk), index, message);
              && disk == DiskAfter(old(disk), run.writes, old(writesLeft))
              && outcome == if old(writesLeft) >= |run.writes| then Some(run.outcome) else None
    {
      hide FindExisting, SortArchives;
      if message == None {
        return Some(Refused);
      }
      var alive;
      var m := message.value;
      var saved := SortArchives(before, index.archives);
      var existing := FindExisting(disk, index.archives, m.id);
      if existing.Some? {
        alive := Commit(disk.(index := Some(Index(index.nextSequence, saved, index.legacyImported))));
        return if alive then Some(Replayed(existing.value)) else None;
      }
      var record := Record(m.id, index.nextSequence, m.time, m.body);
      alive := Commit(disk.(current := disk.current + [record]));
      if alive {
        alive := Commit(disk.(index := Some(Index(index.nextSequence + 1, saved, index.legacyImported))));
      }
      return if alive then Some(Appended(record)) else None;
    }

    /** Appends a message; without an outcome the process crashed on the way. */
    method AppendMessage(request: Request) returns (outcome: Option<Outcome>)
      modifies this
      ensures var run := Append(before, old(disk), request);
              && disk == DiskAfter(old(disk), run.writes, old(writesLeft))
              && outcome == if old(writesLeft) >= |run.writes| then Some(run.outcome) else None
    {
      hide ReadIndex, AppendTo, DedupeRecords;
      ghost var start, budget := disk, writesLeft;
      var read := ReadIndex(before, disk);
      ghost var migration := MigrateLegacy(disk, read, request.legacy);
      ghost var rest := AppendTo(before, LastDisk(start, migration.writes), migration.index, request);
      DiskAfterSplits(start, migration.writes, rest.writes, budget);
      var alive, index := ImportLegacy(read, request.legacy);
      if !alive {
        return None;
      }
      outcome := StoreRequest(index, request);
    }

    /** Imports older history unless that is recorded: one write of the current file. */
    method ImportLegacy(read: Index, legacy: seq<Record>) returns (alive: bool, index: Index)
      modifies this
      ensures var migration := MigrateLegacy(old(disk), read, legacy);
              && disk == DiskAfter(old(disk), migration.writes, old(writesLeft))
              && alive == (old(writesLeft) >= |migration.writes|)
              && (alive ==> index == migration.index && writesLeft == old(writesLeft) - |migration.writes|)
    {
      hide DedupeRecords;
      if read.legacyImported {
        return true, read;
      }
      var migrated := DedupeRecords(legacy + disk.current);
      var sequence: nat := Max(1, LastArchived(read.archives) + 1);
      var sequenced := NumberFrom(migrated, sequence);
      alive := Commit(disk.(current := sequenced));
      index := Index(sequence + |migrated|, read.archives, true);
    }

    method NumberFrom(records: seq<Record>, from: nat) returns (sequenced: seq<Record>)
      ensures sequenced == Renumber(records, from)
    {
      sequenced := [];
      for i := 0 to |records|
        invariant sequenced + Renumber(records[i..], from + i) == Renumber(records, from)
      {
        sequenced := sequenced + [records[i].(sequence := from + i)];
      }
    }

    /** Rotates and stores, with the index in memory. */
    method StoreRequest(index: Index, request: Request) returns (outcome: Option<Outcome>)
      modifies this
      ensures var run := AppendTo(before, old(disk), index, request);
              && disk == DiskAfter(old(disk), run.writes, old(writesLeft))
              && outcome == if old(writesLeft) >= |run.writes| then Some(run.outcome) else None
    {
      hide Rotate, StoreMessage;
      ghost var start, budget := disk, writesLeft;
      ghost var rotation := Rotate(before, disk, index.archives, request);
      ghost var stored := StoreMessage(before, LastDisk(start, rotation.writes), index.(archives := rotation.archives), request.message);
      DiskAfterSplits(start, rotation.writes, stored.writes, budget);
      var alive, archives := ArchiveEligiblePrefix(index.archives, request);
      if !alive {
        return None;
      }
      assert disk == LastDisk(start, rotation.writes);
      outcome := CommitMessage(index.(archives := archives), request.message);
    }
  }
}
