/**
 * What a rotation and a whole append leave in the current file, the archives and the index of the conversation store.
 */
module ConversationRotation {
  import opened Common
  import opened ArchiveRanges
  import opened ConversationView
  import opened ConversationStore

  /** The number of hours an option stands for: the default when absent or zero, and never less than one. */
  ghost predicate MeansHours(option: Option<real>, default: real, hours: real) {
    hours == if option == None || option.value == 0.0 then default else if option.value < 1.0 then 1.0 else option.value
  }

  /** Some record is at least `triggerHours` old, by default 72. */
  ghost predicate Triggered(records: seq<Record>, request: Request) {
    request.archiveCheck
    && exists hours, i :: MeansHours(request.triggerHours, 72.0, hours) && 0 <= i < |records|
                          && records[i].time * 1000.0 <= request.nowMs - hours * 3600000.0
  }

  /** Where a rotation cuts: at the first record younger than `includeHours`, by default 24; nowhere unless triggered. */
  ghost predicate CutsAt(records: seq<Record>, request: Request, cut: nat) {
    && cut <= |records|
    && (!Triggered(records, request) ==> cut == 0)
    && (Triggered(records, request) ==>
          forall hours :: MeansHours(request.includeHours, 24.0, hours) ==>
            && (forall i :: 0 <= i < cut ==> records[i].time * 1000.0 <= request.nowMs - hours * 3600000.0)
            && (cut < |records| ==> records[cut].time * 1000.0 > request.nowMs - hours * 3600000.0))
  }

  /** A rotation moves what lies before the cut, unless the first or last record of it carries no number. */
  lemma RotationCuts(records: seq<Record>, request: Request) returns (cut: nat)
    ensures cut <= |records| && CutsAt(records, request, cut)
    ensures RotationLength(records, request)
         == if cut > 0 && (records[0].sequence == 0 || records[cut - 1].sequence == 0) then 0 else cut
  {
    var trigger, included := Hours(request.triggerHours, 72.0), Hours(request.includeHours, 24.0);
    assert MeansHours(request.triggerHours, 72.0, trigger) && MeansHours(request.includeHours, 24.0, included);
    PrefixIsOld(records, HoursAgo(request.nowMs, included));
    cut := if Triggered(records, request) then PrefixLength(records, HoursAgo(request.nowMs, included)) else 0;
  }

  /** One archive file, named after the first and last of these records, holds exactly them. */
  ghost predicate Filed(disk: Disk, moved: seq<Record>) {
    moved != [] ==>
      exists f :: f in disk.files && f.name == FileName(moved[0].sequence, moved[|moved| - 1].sequence)
                  && forall r :: r in f.records <==> r in moved
  }

  lemma SequencesPositive(disk: Disk, log: seq<Record>)
    requires Refines(disk, log)
    ensures forall i :: 0 <= i < |disk.current| ==> disk.current[i].sequence > 0
  {
    var k := |log| - |disk.current|;
    assert forall i :: 0 <= i < |disk.current| ==> disk.current[i] == log[k + i];
  }

  lemma MovedAreFiled(disk: Disk, log: seq<Record>, n: nat)
    requires Refines(disk, log) && 0 < n <= |disk.current|
    requires HasFile(disk.files, FileName(disk.current[0].sequence, disk.current[n - 1].sequence))
    ensures Filed(disk, disk.current[..n])
  {
    hide StrictLog, GoodItems;
    var moved := disk.current[..n];
    var i :| 0 <= i < |disk.files| && disk.files[i].name == FileName(moved[0].sequence, moved[n - 1].sequence);
    var f := disk.files[i];
    MovedRecords(disk, log, n);
    assert HoldsRange(f, log);
    assert forall r :: r in f.records <==> r in moved;
  }

  /**
   * A finished rotation leaves in the current file exactly the records from the cut on, and those before it in one archive
   * file of their own; without a cut nothing moves.
   */
  lemma RotationLeaves(before: Collation, disk: Disk, log: seq<Record>, archives: seq<ArchiveItem>, request: Request) returns (cut: nat)
    requires Refines(disk, log)
    ensures CutsAt(disk.current, request, cut) && cut <= |disk.current|
    ensures var rotated := LastDisk(disk, Rotate(before, disk, archives, request).writes);
            && rotated.current == disk.current[cut..] && rotated.index == disk.index
            && Filed(rotated, disk.current[..cut])
            && (cut == 0 ==> rotated == disk)
            && Rotate(before, disk, archives, request).archived
               == (if cut == 0 then None else Some(FileName(disk.current[0].sequence, disk.current[cut - 1].sequence)))
            && forall f :: f in disk.files ==> f in rotated.files
  {
    hide Refines, RotationLength, SortArchives, WithoutFile, CutsAt, Filed, HasFile;
    SequencesPositive(disk, log);
    cut := RotationCuts(disk.current, request);
    NothingFiled(disk);
    if cut > 0 {
      var name := FileName(disk.current[0].sequence, disk.current[cut - 1].sequence);
      if HasFile(disk.files, name) {
        MovedAreFiled(disk, log, cut);
        SameFiles(disk, disk.(current := disk.current[cut..]), disk.current[..cut]);
      } else {
        var filed := disk.(files := disk.files + [ArchiveFile(name, disk.current[..cut])]);
        NewFile(disk.files, name, disk.current[..cut]);
        FilingRefines(disk, log, cut);
        MovedAreFiled(filed, log, cut);
        SameFiles(filed, filed.(current := disk.current[cut..]), disk.current[..cut]);
      }
    } else {
      assert disk.current[0..] == disk.current && disk.current[..0] == [];
    }
  }

  lemma NothingFiled(disk: Disk)
    ensures Filed(disk, [])
  {
  }

  lemma NewFile(files: seq<ArchiveFile>, name: FileName, records: seq<Record>)
    ensures HasFile(files + [ArchiveFile(name, records)], name)
    ensures forall f :: f in files ==> f in files + [ArchiveFile(name, records)]
  {
    assert (files + [ArchiveFile(name, records)])[|files|].name == name;
  }

  lemma SameFiles(a: Disk, b: Disk, moved: seq<Record>)
    requires a.files == b.files && Filed(a, moved)
    ensures Filed(b, moved)
  {
  }

  /** The writes of storing a message leave the archives alone and extend the current file by the appended record only. */
  lemma StoringLeaves(before: Collation, disk: Disk, index: Index, message: Option<Candidate>)
    ensures var run := StoreMessage(before, disk, index, message);
            var end := LastDisk(disk, run.writes);
            && end.files == disk.files
            && end.current == disk.current + (if run.outcome.Appended? then [run.outcome.record] else [])
            && (run.outcome.Refused? ==> end == disk)
            && (!run.outcome.Refused? ==>
                  && end.index == Some(Index(if run.outcome.Appended? then index.nextSequence + 1 else index.nextSequence,
                                             SortArchives(before, index.archives), index.legacyImported)))
            && (run.outcome.Appended? ==> run.outcome.record.sequence == index.nextSequence)
  {
    hide FindExisting, SortArchives;
    assert disk.current + [] == disk.current;
  }

  /**
   * What a finished append leaves, once the import is recorded: the current file from the cut on with the appended record at
   * its end, the records before the cut in one archive file of their own, and no archive file less.
   */
  lemma AppendLeaves(before: Collation, disk: Disk, log: seq<Record>, request: Request) returns (cut: nat)
    requires StrictOrder(before) && Refines(disk, log) && Imported(disk)
    ensures CutsAt(disk.current, request, cut)
    ensures var run := Append(before, disk, request);
            var end := LastDisk(disk, run.writes);
            && end.current == disk.current[cut..] + (if run.outcome.Appended? then [run.outcome.record] else [])
            && Filed(end, disk.current[..cut])
            && forall f :: f in disk.files ==> f in end.files
  {
    hide Refines, ReadIndex, Rotate, StoreMessage, Append, Filed, CutsAt, Imported;
    NothingToImport(before, disk, request);
    var index := ReadIndex(before, disk);
    var rotation := Rotate(before, disk, index.archives, request);
    var rotated := LastDisk(disk, rotation.writes);
    cut := RotationLeaves(before, disk, log, index.archives, request);
    var stored := StoreMessage(before, rotated, index.(archives := rotation.archives), request.message);
    StoringLeaves(before, rotated, index.(archives := rotation.archives), request.message);
    LastOfBoth(disk, rotation.writes, stored.writes);
    SameFiles(rotated, LastDisk(rotated, stored.writes), disk.current[..cut]);
  }

  lemma LastOfBoth(disk: Disk, first: seq<Disk>, later: seq<Disk>)
    ensures LastDisk(disk, first + later) == LastDisk(LastDisk(disk, first), later)
  {
  }

  /**
   * The index a finished append leaves, unless it refused a blank message: it numbers past every record, and leads to every
   * record that is not in the current file.
   */
  lemma AppendLeavesIndex(before: Collation, disk: Disk, log: seq<Record>, request: Request)
    requires StrictOrder(before) && Refines(disk, log) && Imported(disk) && request.message.Some?
    ensures var run := Append(before, disk, request);
            var end := LastDisk(disk, run.writes);
            var known := if run.outcome.Appended? then log + [run.outcome.record] else log;
            && end.index.Some? && (forall r :: r in known ==> r.sequence < end.index.value.nextSequence)
            && forall r :: r in known ==>
                 r in end.current || exists a :: a in end.index.value.archives && a.first <= r.sequence <= a.last
  {
    hide Refines, ReadIndex, Rotate, StoreMessage, Append, Imported, SoundIndex;
    NothingToImport(before, disk, request);
    var index := ReadIndex(before, disk);
    var rotation := Rotate(before, disk, index.archives, request);
    var rotated := LastDisk(disk, rotation.writes);
    ReadIndexSound(before, disk, log);
    RotatedIndexSound(before, disk, index, log, request);
    var held := index.(archives := rotation.archives);
    var stored := StoreMessage(before, rotated, held, request.message);
    StoringLeaves(before, rotated, held, request.message);
    LastOfBoth(disk, rotation.writes, stored.writes);
    StoreReturns(before, rotated, held, log, request.message);
    SavedIndexReaches(before, rotated, held, log, stored);
  }

  lemma SavedIndexReaches(before: Collation, disk: Disk, index: Index, log: seq<Record>, stored: AppendRun)
    requires StrictOrder(before) && SoundIndex(disk, index, log)
    requires stored.outcome.Appended? ==> stored.outcome.record.sequence == index.nextSequence
    ensures var known := if stored.outcome.Appended? then log + [stored.outcome.record] else log;
            var current := disk.current + (if stored.outcome.Appended? then [stored.outcome.record] else []);
            && (forall r :: r in known ==>
                  r.sequence < if stored.outcome.Appended? then index.nextSequence + 1 else index.nextSequence)
            && forall r :: r in known ==>
                 r in current || exists a :: a in SortArchives(before, index.archives) && a.first <= r.sequence <= a.last
  {
    hide SortArchives, Compact;
    CompactedMembers(before, index.archives);
    forall r | r in log && r !in disk.current
      ensures exists a :: a in SortArchives(before, index.archives) && a.first <= r.sequence <= a.last
    {
      var holder :| holder in index.archives && holder.first <= r.sequence <= holder.last;
      CompactedContainer(before, index.archives, holder);
      var a :| a in Compact(before, index.archives) && Contains(a, holder);
    }
  }
}
