/**
 * The append side of the persona chat ledger.
 *
 * Every append runs behind the tail of its file: it loads the ids on file, from a cache stamped with the
 * file size when that still matches, writes its row unless the id is known, and restamps the cache.  It
 * may fail between any two of these steps, and a restart forgets everything but the file.  Since appends never overlap, no id is written twice.
 */
module ChatLedger {
  import opened Common
  import opened PromiseTails

  type RowId = string

  /** A row on file; its length in bytes includes the newline. */
  datatype Row = Row(id: RowId, bytes: nat)

  datatype Cache = Cache(size: nat, ids: set<RowId>)

  /** What a running append has done so far. */
  datatype Progress = Loaded(ids: set<RowId>) | Written(ids: set<RowId>)

  /** The tail map of one ledger file, the row each append wants, its progress, the file, and the id cache. */
  datatype Ledger = Ledger(tails: Tails, wanted: seq<Row>, progress: map<nat, Progress>, rows: seq<Row>, cache: Option<Cache>)

  datatype Action =
    | AppendCalled(row: Row)
    | AppendBegins(op: nat)
    | IdsLoaded(op: nat, stampTrusted: bool)
    | RowWritten(op: nat)
    | CacheStamped(op: nat)
    | AppendEnds(op: nat, ok: bool)
    | AppendReleased(op: nat)
    | Restarted

  const FILE := "final-replies"

  function Size(rows: seq<Row>): nat {
    if rows == [] then 0 else Size(rows[..|rows| - 1]) + rows[|rows| - 1].bytes
  }

  function Ids(rows: seq<Row>): set<RowId> {
    set i | 0 <= i < |rows| :: rows[i].id
  }

  predicate IsRunning(l: Ledger, i: nat) {
    i < |l.tails.ops| && i < |l.wanted| && l.tails.ops[i].phase == Running
  }

  /** The ids a load yields: the cache when its size stamp matches and its time stamp does too, else the file's. */
  function LoadIds(rows: seq<Row>, cache: Option<Cache>, stampTrusted: bool): set<RowId> {
    if cache.Some? && cache.value.size == Size(rows) && stampTrusted then cache.value.ids else Ids(rows)
  }

  function Next(l: Ledger, a: Action): Ledger {
    match a
    case AppendCalled(row) =>
      if row.bytes == 0 then l
      else l.(tails := PromiseTails.Next(l.tails, Call(FILE)), wanted := l.wanted + [row])
    case AppendBegins(i) => l.(tails := PromiseTails.Next(l.tails, Begin(i)))
    case IdsLoaded(i, stampTrusted) =>
      if IsRunning(l, i) && i !in l.progress then
        var ids := LoadIds(l.rows, l.cache, stampTrusted);
        l.(progress := l.progress[i := Loaded(ids)], cache := if l.rows == [] then l.cache else Some(Cache(Size(l.rows), ids)))
      else l
    case RowWritten(i) =>
      if IsRunning(l, i) && i in l.progress && l.progress[i].Loaded? && l.wanted[i].id !in l.progress[i].ids
      then l.(rows := l.rows + [l.wanted[i]], progress := l.progress[i := Written(l.progress[i].ids)])
      else l
    case CacheStamped(i) =>
      if IsRunning(l, i) && i in l.progress && l.progress[i].Written?
      then l.(cache := Some(Cache(Size(l.rows), l.progress[i].ids + {l.wanted[i].id})))
      else l
    case AppendEnds(i, ok) =>
      if IsRunning(l, i) then l.(tails := PromiseTails.Next(l.tails, Finish(i, ok)), progress := l.progress - {i}) else l
    case AppendReleased(i) => l.(tails := PromiseTails.Next(l.tails, CleanUp(i)))
    case Restarted => Ledger(Tails([], map[]), [], map[], l.rows, None)
  }

  function Run(l: Ledger, actions: seq<Action>): Ledger
    decreases |actions|
  {
    if actions == [] then l else Run(Next(l, actions[0]), actions[1..])
  }

  const EMPTY := Ledger(Tails([], map[]), [], map[], [], None)

  ghost predicate NoIdTwice(rows: seq<Row>) {
    forall i, j :: 0 <= i < j < |rows| ==> rows[i].id != rows[j].id
  }

  ghost predicate PositiveRows(rows: seq<Row>) {
    forall i :: 0 <= i < |rows| ==> rows[i].bytes > 0
  }

  /** The cache is that of the file as it was after some of its rows. */
  ghost predicate CacheOfPrefix(cache: Option<Cache>, rows: seq<Row>) {
    cache.Some? ==> exists k :: 0 <= k <= |rows| && cache.value == Cache(Size(rows[..k]), Ids(rows[..k]))
  }

  ghost predicate ProgressSound(l: Ledger) {
    forall i :: i in l.progress ==>
      && IsRunning(l, i)
      && match l.progress[i]
         case Loaded(ids) => ids == Ids(l.rows)
         case Written(ids) => ids + {l.wanted[i].id} == Ids(l.rows)
  }

  ghost predicate LedgerInv(l: Ledger) {
    && Inv(l.tails) && |l.wanted| == |l.tails.ops|
    && (forall i :: 0 <= i < |l.tails.ops| ==> l.tails.ops[i].key == FILE && l.wanted[i].bytes > 0)
    && NoIdTwice(l.rows) && PositiveRows(l.rows) && CacheOfPrefix(l.cache, l.rows) && ProgressSound(l)
  }

  lemma {:induction false} SizeGrows(rows: seq<Row>, k: nat)
    requires PositiveRows(rows) && k <= |rows|
    ensures Size(rows[..k]) <= Size(rows)
    ensures k < |rows| ==> Size(rows[..k]) < Size(rows)
    decreases |rows|
  {
    if k < |rows| {
      var front := rows[..|rows| - 1];
      SizeGrows(front, k);
      assert front[..k] == rows[..k];
    } else {
      assert rows[..k] == rows;
    }
  }

  /** A size stamp that matches the file identifies its content, so the cached ids are the file's. */
  lemma MatchingStampIsExact(cache: Option<Cache>, rows: seq<Row>)
    requires PositiveRows(rows) && CacheOfPrefix(cache, rows)
    ensures cache.Some? && cache.value.size == Size(rows) ==> cache.value.ids == Ids(rows)
    ensures forall trusted :: LoadIds(rows, cache, trusted) == Ids(rows)
  {
    if cache.Some? && cache.value.size == Size(rows) {
      var k :| 0 <= k <= |rows| && cache.value == Cache(Size(rows[..k]), Ids(rows[..k]));
      SizeGrows(rows, k);
      assert rows[..|rows|] == rows;
    }
  }

  lemma CurrentStamp(rows: seq<Row>)
    ensures CacheOfPrefix(Some(Cache(Size(rows), Ids(rows))), rows)
  {
    assert rows[..|rows|] == rows;
  }

  lemma MoreRowsKeepCache(cache: Option<Cache>, rows: seq<Row>, row: Row)
    requires CacheOfPrefix(cache, rows)
    ensures CacheOfPrefix(cache, rows + [row])
    ensures Ids(rows + [row]) == Ids(rows) + {row.id}
  {
    var more := rows + [row];
    if cache.Some? {
      var k :| 0 <= k <= |rows| && cache.value == Cache(Size(rows[..k]), Ids(rows[..k]));
      assert more[..k] == rows[..k];
    }
    forall i | 0 <= i < |rows|
      ensures rows[i].id in Ids(more)
    {
      assert more[i] == rows[i];
    }
    assert more[|rows|] == row;
  }

  /** Two appends never run at once. */
  lemma RunningIsUnique(l: Ledger, i: nat, j: nat)
    requires LedgerInv(l) && IsRunning(l, i) && IsRunning(l, j)
    ensures i == j
  {
    var first, second := Min(i, j), Max(i, j);
    assert AllOver(l.tails.ops, FILE, second);
  }

  /** A step of the tail map changes no key and stops no running append, unless it is that append's end. */
  lemma StepKeepsRunning(t: Tails, step: Step)
    requires Inv(t) && !step.Call?
    ensures var next := PromiseTails.Next(t, step);
            && Inv(next) && |next.ops| == |t.ops|
            && forall i :: 0 <= i < |t.ops| ==>
                 && next.ops[i].key == t.ops[i].key
                 && (t.ops[i].phase == Running && !(step.Finish? && step.op == i) ==> next.ops[i].phase == Running)
  {
    hide Inv;
    StepKeepsInv(t, step);
  }

  /** Steps of the tail map alone. */
  lemma TailStepKeepsInv(l: Ledger, step: Step)
    requires LedgerInv(l) && !step.Call? && !step.Finish?
    ensures LedgerInv(l.(tails := PromiseTails.Next(l.tails, step)))
  {
    hide CacheOfPrefix, NoIdTwice, PositiveRows, Inv, PromiseTails.Next, Ids;
    StepKeepsRunning(l.tails, step);
  }

  lemma EndKeepsInv(l: Ledger, i: nat, ok: bool)
    requires LedgerInv(l) && IsRunning(l, i)
    ensures LedgerInv(Next(l, AppendEnds(i, ok)))
  {
    hide CacheOfPrefix, NoIdTwice, PositiveRows, Inv, PromiseTails.Next, Ids;
    StepKeepsRunning(l.tails, Finish(i, ok));
  }

  lemma CallKeepsLedger(l: Ledger, row: Row)
    requires LedgerInv(l)
    ensures LedgerInv(Next(l, AppendCalled(row)))
  {
    hide CacheOfPrefix, NoIdTwice, PositiveRows, Inv, Ids;
    StepKeepsInv(l.tails, Call(FILE));
  }

  lemma LoadKeepsInv(l: Ledger, i: nat, stampTrusted: bool)
    requires LedgerInv(l)
    ensures LedgerInv(Next(l, IdsLoaded(i, stampTrusted)))
  {
    hide CacheOfPrefix, NoIdTwice, Inv, Ids;
    MatchingStampIsExact(l.cache, l.rows);
    CurrentStamp(l.rows);
  }

  lemma StampKeepsInv(l: Ledger, i: nat)
    requires LedgerInv(l)
    ensures LedgerInv(Next(l, CacheStamped(i)))
  {
    hide CacheOfPrefix, NoIdTwice, Inv, Ids;
    CurrentStamp(l.rows);
  }

  lemma WriteKeepsInv(l: Ledger, i: nat)
    requires LedgerInv(l) && IsRunning(l, i) && i in l.progress && l.progress[i].Loaded? && l.wanted[i].id !in l.progress[i].ids
    ensures LedgerInv(Next(l, RowWritten(i)))
  {
    hide Inv, CacheOfPrefix;
    var row := l.wanted[i];
    MoreRowsKeepCache(l.cache, l.rows, row);
    assert row.id !in Ids(l.rows);
    forall j | j in l.progress
      ensures j == i
    {
      RunningIsUnique(l, i, j);
    }
    var next := Next(l, RowWritten(i));
    forall a, b | 0 <= a < b < |next.rows|
      ensures next.rows[a].id != next.rows[b].id
    {
      if b == |l.rows| {
        assert next.rows[a] == l.rows[a] && l.rows[a].id in Ids(l.rows);
      }
    }
  }

  lemma RestartKeepsInv(l: Ledger)
    requires LedgerInv(l)
    ensures LedgerInv(Next(l, Restarted))
  {
    hide NoIdTwice, PositiveRows;
  }

  lemma ActionKeepsInv(l: Ledger, a: Action)
    requires LedgerInv(l)
    ensures LedgerInv(Next(l, a))
  {
    hide Inv, CacheOfPrefix, NoIdTwice, PositiveRows, ProgressSound, Ids;
    match a
    case AppendCalled(row) => CallKeepsLedger(l, row);
    case AppendBegins(i) => TailStepKeepsInv(l, Begin(i));
    case IdsLoaded(i, stampTrusted) => LoadKeepsInv(l, i, stampTrusted);
    case RowWritten(i) =>
      if IsRunning(l, i) && i in l.progress && l.progress[i].Loaded? && l.wanted[i].id !in l.progress[i].ids {
        WriteKeepsInv(l, i);
      }
    case CacheStamped(i) => StampKeepsInv(l, i);
    case AppendEnds(i, ok) =>
      if IsRunning(l, i) {
        EndKeepsInv(l, i, ok);
      }
    case AppendReleased(i) => TailStepKeepsInv(l, CleanUp(i));
    case Restarted => RestartKeepsInv(l);
  }

  lemma {:induction false} RunKeepsLedgerInv(l: Ledger, actions: seq<Action>)
    requires LedgerInv(l)
    ensures LedgerInv(Run(l, actions))
    decreases |actions|
  {
    if actions != [] {
      ActionKeepsInv(l, actions[0]);
      RunKeepsLedgerInv(Next(l, actions[0]), actions[1..]);
    }
  }

  /** In every run, whatever fails and however often the process restarts, the ledger never holds an id twice and a cache with a matching stamp is exact. */
  lemma LedgerNeverDuplicates(actions: seq<Action>)
    ensures var l := Run(EMPTY, actions);
            && NoIdTwice(l.rows)
            && (l.cache.Some? && l.cache.value.size == Size(l.rows) ==> l.cache.value.ids == Ids(l.rows))
  {
    RunKeepsLedgerInv(EMPTY, actions);
    var l := Run(EMPTY, actions);
    MatchingStampIsExact(l.cache, l.rows);
  }

  /** The ledger only grows. */
  lemma {:induction false} RowsOnlyGrow(l: Ledger, actions: seq<Action>)
    ensures l.rows <= Run(l, actions).rows
    decreases |actions|
  {
    if actions != [] {
      RowsOnlyGrow(Next(l, actions[0]), actions[1..]);
    }
  }

  // ---- One undisturbed append ----

  /** Nothing is running: every call so far has ended. */
  ghost predicate Quiet(l: Ledger) {
    LedgerInv(l) && forall i :: 0 <= i < |l.tails.ops| ==> l.tails.ops[i].phase.Over()
  }

  /** The steps of an append that nothing disturbs, called as number `i`. */
  function UndisturbedAppend(i: nat, row: Row, stampTrusted: bool): seq<Action> {
    [AppendCalled(row), AppendBegins(i), IdsLoaded(i, stampTrusted), RowWritten(i), CacheStamped(i), AppendEnds(i, true), AppendReleased(i)]
  }

  lemma BeginsAtOnce(l: Ledger, row: Row)
    requires Quiet(l) && row.bytes > 0
    ensures var i, called := |l.tails.ops|, Next(l, AppendCalled(row));
            var begun := Next(called, AppendBegins(i));
            && LedgerInv(begun) && IsRunning(begun, i) && begun.progress == l.progress && begun.rows == l.rows
            && begun.wanted == l.wanted + [row] && |begun.tails.ops| == i + 1
  {
    var i, called := |l.tails.ops|, Next(l, AppendCalled(row));
    ActionKeepsInv(l, AppendCalled(row));
    ActionKeepsInv(called, AppendBegins(i));
    assert called.tails.ops[i].previous.Some? ==> called.tails.ops[called.tails.ops[i].previous.value] == l.tails.ops[called.tails.ops[i].previous.value];
    assert CanBegin(called.tails, i);
  }

  /** The steps between beginning and ending write the row unless its id is on file, and stamp the cache exactly. */
  lemma NoIdOnEmptyFile(id: RowId)
    ensures id !in Ids([])
  {
  }

  lemma WritesUnlessKnown(l: Ledger, i: nat, stampTrusted: bool)
    requires LedgerInv(l) && IsRunning(l, i) && i !in l.progress
    ensures var end := Next(Next(Next(l, IdsLoaded(i, stampTrusted)), RowWritten(i)), CacheStamped(i));
            && LedgerInv(end) && end.tails == l.tails && end.wanted == l.wanted
            && end.rows == (if l.wanted[i].id in Ids(l.rows) then l.rows else l.rows + [l.wanted[i]])
            && end.cache == Some(Cache(Size(end.rows), Ids(end.rows)))
  {
    hide Inv, CacheOfPrefix, NoIdTwice, PositiveRows, Ids, Size;
    var loaded := Next(l, IdsLoaded(i, stampTrusted));
    MatchingStampIsExact(l.cache, l.rows);
    ActionKeepsInv(l, IdsLoaded(i, stampTrusted));
    ActionKeepsInv(loaded, RowWritten(i));
    var written := Next(loaded, RowWritten(i));
    ActionKeepsInv(written, CacheStamped(i));
    NoIdOnEmptyFile(l.wanted[i].id);
    MoreRowsKeepCache(l.cache, l.rows, l.wanted[i]);
  }

  /** An append that nothing disturbs adds its row to a quiet ledger, unless the id is on file, and leaves it quiet, the cache exact. */
  lemma UndisturbedAppends(l: Ledger, row: Row, stampTrusted: bool)
    requires Quiet(l) && row.bytes > 0
    ensures var end := Run(l, UndisturbedAppend(|l.tails.ops|, row, stampTrusted));
            && Quiet(end)
            && end.rows == (if row.id in Ids(l.rows) then l.rows else l.rows + [row])
            && end.cache == Some(Cache(Size(end.rows), Ids(end.rows))) && FILE !in end.tails.tail
  {
    hide LedgerInv, CacheOfPrefix, Ids, Size, Next;
    var i := |l.tails.ops|;
    var begun := Next(Next(l, AppendCalled(row)), AppendBegins(i));
    BeginsAtOnce(l, row);
    NoProgress(l, i);
    WritesUnlessKnown(begun, i, stampTrusted);
    var stamped := Next(Next(Next(begun, IdsLoaded(i, stampTrusted)), RowWritten(i)), CacheStamped(i));
    SevenSteps(l, UndisturbedAppend(i, row, stampTrusted));
    EndsQuiet(l, row, stamped, i);
  }

  lemma NoProgress(l: Ledger, i: nat)
    requires Quiet(l) && i == |l.tails.ops|
    ensures i !in l.progress
  {
  }

  lemma SevenSteps(l: Ledger, actions: seq<Action>)
    requires |actions| == 7
    ensures Run(l, actions)
         == Next(Next(Next(Next(Next(Next(Next(l, actions[0]), actions[1]), actions[2]), actions[3]), actions[4]), actions[5]), actions[6])
  {
    hide Next;
    assert actions[1..][1..] == actions[2..] && actions[2..][1..] == actions[3..] && actions[3..][1..] == actions[4..];
    assert actions[4..][1..] == actions[5..] && actions[5..][1..] == actions[6..] && actions[6..][1..] == [];
    var l1 := Next(l, actions[0]);
    var l2 := Next(l1, actions[1]);
    var l3 := Next(l2, actions[2]);
    var l4 := Next(l3, actions[3]);
    var l5 := Next(l4, actions[4]);
    var l6 := Next(l5, actions[5]);
    assert Run(l, actions) == Run(l1, actions[1..]) == Run(l2, actions[2..]) == Run(l3, actions[3..]);
    assert Run(l3, actions[3..]) == Run(l4, actions[4..]) == Run(l5, actions[5..]) == Run(l6, actions[6..]);
    assert Run(l6, actions[6..]) == Run(Next(l6, actions[6]), []);
  }

  lemma EndsQuiet(l: Ledger, row: Row, stamped: Ledger, i: nat)
    requires Quiet(l) && i == |l.tails.ops| && row.bytes > 0 && LedgerInv(stamped)
    requires var begun := Next(Next(l, AppendCalled(row)), AppendBegins(i));
             stamped.tails == begun.tails && stamped.wanted == begun.wanted && IsRunning(begun, i)
    ensures var end := Next(Next(stamped, AppendEnds(i, true)), AppendReleased(i));
            Quiet(end) && end.rows == stamped.rows && end.cache == stamped.cache && FILE !in end.tails.tail
  {
    hide CacheOfPrefix, NoIdTwice, PositiveRows, ProgressSound, Inv;
    var ended := Next(stamped, AppendEnds(i, true));
    ActionKeepsInv(stamped, AppendEnds(i, true));
    ActionKeepsInv(ended, AppendReleased(i));
  }

  class LedgerFile {
    var rows: seq<Row>
    var cache: Option<Cache>

    ghost predicate Valid()
      reads this
    {
      NoIdTwice(rows) && PositiveRows(rows) && CacheOfPrefix(cache, rows)
    }

    constructor ()
      ensures Valid() && rows == []
    {
      rows, cache := [], None;
    }

    /** Loads the ids on file, rebuilding the cache when its stamp does not match. */
    method HistoryIds(stampTrusted: bool) returns (ids: set<RowId>)
      requires Valid()
      modifies this`cache
      ensures Valid() && ids == Ids(rows)
    {
      MatchingStampIsExact(cache, rows);
      if |rows| == 0 {
        return {};
      }
      if cache.Some? && cache.value.size == Size(rows) && stampTrusted {
        return cache.value.ids;
      }
      ids := {};
      for i := 0 to |rows|
        invariant ids == Ids(rows[..i])
      {
        AddedId(rows, i);
        ids := ids + {rows[i].id};
      }
      assert rows[..|rows|] == rows;
      cache := Some(Cache(Size(rows), ids));
      CurrentStamp(rows);
    }

    /** Appends a row unless its id is on file already. */
    method AppendReply(row: Row, stampTrusted: bool) returns (appended: bool)
      requires Valid() && row.bytes > 0
      modifies this
      ensures Valid() && appended == (row.id !in Ids(old(rows)))
      ensures rows == if appended then old(rows) + [row] else old(rows)
      ensures appended ==> cache == Some(Cache(Size(rows), Ids(rows)))
    {
      var ids := HistoryIds(stampTrusted);
      if row.id in ids {
        return false;
      }
      MoreRowsKeepCache(cache, rows, row);
      FreshRow(rows, row);
      rows := rows + [row];
      cache := Some(Cache(Size(rows), ids + {row.id}));
      CurrentStamp(rows);
      return true;
    }
  }

  lemma AddedId(rows: seq<Row>, i: nat)
    requires i < |rows|
    ensures Ids(rows[..i + 1]) == Ids(rows[..i]) + {rows[i].id}
  {
    assert rows[..i + 1] == rows[..i] + [rows[i]];
    MoreRowsKeepCache(None, rows[..i], rows[i]);
  }

  lemma FreshRow(rows: seq<Row>, row: Row)
    requires NoIdTwice(rows) && row.id !in Ids(rows)
    ensures NoIdTwice(rows + [row])
  {
    forall i | 0 <= i < |rows|
      ensures rows[i].id != row.id
    {
      assert rows[i].id in Ids(rows);
    }
  }
}
