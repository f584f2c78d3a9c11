/**
 * Backward paging over a persona's chat ledger, a file with one record a line.
 *
 * A page is read backwards from a byte offset in fixed windows; the start of a line cut by a
 * window is carried to the next one.  The reference collects whole lines, newest first.
 */
module ChatPaging {
  import opened Common
  import opened ByteLines

  const WINDOW_BYTES := 64 * 1024
  const MAX_BYTES := 1024 * 1024

  datatype Reply = Reply(id: string, text: string)

  datatype PageResult =
    | Page(entries: seq<Reply>, nextCursor: Option<nat>)
    | InvalidLimit
    | InvalidCursor
    | HistoryChanged
    | IncompleteRecord
    | InvalidRecord
    | RecordTooLarge

  function CursorAt(offset: nat): Option<nat> {
    if offset > 0 then Some(offset) else None
  }

  /** The offset of the first byte after these newline-terminated lines. */
  function Offset(lines: seq<Bytes>): nat {
    if lines == [] then 0 else Offset(DropLast(lines)) + |Last(lines)| + 1
  }

  /** Entries and bytes a page has gathered so far. */
  datatype Gathered = Gathered(entries: seq<Reply>, bytes: nat) {
    predicate Full(limit: int) {
      |entries| >= limit || bytes >= MAX_BYTES
    }
  }

  /** Adds a line to a page; blank lines add nothing.  None when the record does not parse. */
  function Gather(parse: Bytes -> Option<Reply>, line: Bytes, page: Gathered): Option<Gathered> {
    if line == [] then Some(page)
    else
      match parse(line)
      case None => None
      case Some(reply) => Some(Gathered(page.entries + [reply], page.bytes + |line|))
  }

  /** The reference: whole lines, newest first, until the page is full. */
  function Collect(parse: Bytes -> Option<Reply>, limit: int, lines: seq<Bytes>, page: Gathered): PageResult {
    if lines == [] then Page(page.entries, None)
    else
      match Gather(parse, Last(lines), page)
      case None => InvalidRecord
      case Some(more) =>
        if more.Full(limit) then Page(more.entries, CursorAt(Offset(DropLast(lines))))
        else Collect(parse, limit, DropLast(lines), more)
  }

  predicate AllShort(lines: seq<Bytes>) {
    forall i :: 0 <= i < |lines| ==> |lines[i]| <= MAX_BYTES
  }

  /** The reference page for a request. */
  function PageSpec(parse: Bytes -> Option<Reply>, file: Option<Bytes>, cursor: Option<int>, limit: int): PageResult {
    if limit < 1 || limit > 100 then InvalidLimit
    else if cursor.Some? && cursor.value < 0 then InvalidCursor
    else if file == None then Page([], None)
    else
      var position := if cursor.Some? then cursor.value else |file.value|;
      if position > |file.value| then HistoryChanged
      else if position > 0 && file.value[position - 1] != NEWLINE then IncompleteRecord
      else Collect(parse, limit, CompleteLines(file.value[..position]), Gathered([], 0))
  }

  /** The position of the last newline, or -1. */
  function LastNewline(s: Bytes): (index: int)
    ensures -1 <= index < |s|
    ensures index >= 0 ==> s[index] == NEWLINE && NoNewline(s[index + 1..])
    ensures index < 0 ==> NoNewline(s)
  {
    if s == [] then -1
    else if Last(s) == NEWLINE then |s| - 1
    else
      assert s == DropLast(s) + [Last(s)];
      LastNewline(DropLast(s))
  }

  lemma CollectBlank(parse: Bytes -> Option<Reply>, limit: int, lines: seq<Bytes>, page: Gathered)
    requires !page.Full(limit)
    ensures Collect(parse, limit, lines + [[]], page) == Collect(parse, limit, lines, page)
  {
    assert DropLast(lines + [[]]) == lines;
  }

  lemma {:induction false} SegmentsEnd(before: Bytes)
    ensures Offset(Segments(before)) == |before| + 1
    decreases |before|
  {
    var cut := LastNewline(before);
    if cut < 0 {
      SegmentsOfOneLine(before);
      assert DropLast([before]) == [];
    } else {
      var line := before[cut + 1..];
      assert before == before[..cut] + [NEWLINE] + line;
      SegmentsAtNewline(before[..cut], line);
      SegmentsEnd(before[..cut]);
      assert DropLast(Segments(before[..cut]) + [line]) == Segments(before[..cut]);
    }
  }

  lemma TailWithinLastSegment(before: Bytes, tail: Bytes)
    requires NoNewline(tail)
    ensures |Last(Segments(before + tail))| >= |tail|
  {
    var cut := LastNewline(before);
    if cut < 0 {
      SegmentsOfOneLine(before + tail);
    } else {
      assert before + tail == before[..cut] + [NEWLINE] + (before[cut + 1..] + tail);
      SegmentsAtNewline(before[..cut], before[cut + 1..] + tail);
    }
  }

  /** `page` and `text` have exactly `goal` left to produce. */
  ghost predicate Leads(parse: Bytes -> Option<Reply>, limit: int, text: Bytes, page: Gathered, goal: PageResult, short: bool) {
    && !page.Full(limit)
    && goal == Collect(parse, limit, Segments(text), page)
    && (short ==> AllShort(Segments(text)))
  }

  /** One line off the end of the text. */
  lemma TakeLine(parse: Bytes -> Option<Reply>, limit: int, before: Bytes, line: Bytes, page: Gathered, goal: PageResult, short: bool)
    requires NoNewline(line)
    requires Leads(parse, limit, before + [NEWLINE] + line, page, goal, short)
    ensures match Gather(parse, line, page)
            case None => goal == InvalidRecord
            case Some(more) =>
              if more.Full(limit) then goal == Page(more.entries, CursorAt(|before| + 1))
              else Leads(parse, limit, before, more, goal, short)
  {
    var older := Segments(before);
    SegmentsAtNewline(before, line);
    SegmentsEnd(before);
    assert DropLast(older + [line]) == older && Last(older + [line]) == line;
    assert short ==> forall i :: 0 <= i < |older| ==> older[i] == (older + [line])[i];
  }

  /** The oldest line of the file, which no newline precedes. */
  lemma TakeOldestLine(parse: Bytes -> Option<Reply>, limit: int, line: Bytes, page: Gathered, goal: PageResult, short: bool)
    requires NoNewline(line)
    requires Leads(parse, limit, line, page, goal, short)
    ensures match Gather(parse, line, page)
            case None => goal == InvalidRecord
            case Some(more) =>
              if more.Full(limit) then goal == Page(more.entries, None)
              else Leads(parse, limit, [], more, goal, short)
  {
    SegmentsOfOneLine(line);
    assert DropLast([line]) == [] && Last([line]) == line;
    match Gather(parse, line, page)
    case None =>
    case Some(more) =>
      if !more.Full(limit) {
        CollectBlank(parse, limit, [], more);
        var none: seq<Bytes> := [];
        assert none + [[]] == [[]];
      }
  }

  lemma DropFinalNewline(parse: Bytes -> Option<Reply>, limit: int, text: Bytes, page: Gathered, goal: PageResult, short: bool)
    requires text != [] && Last(text) == NEWLINE
    requires Leads(parse, limit, text, page, goal, short)
    ensures Leads(parse, limit, DropLast(text), page, goal, short)
  {
    assert text == DropLast(text) + [NEWLINE] + [];
    TakeLine(parse, limit, DropLast(text), [], page, goal, short);
  }

  method ReadLine(parse: Bytes -> Option<Reply>, limit: int, ghost before: Bytes, start: nat, combined: Bytes,
                  end: nat, newline: int, page: Gathered, ghost goal: PageResult, ghost short: bool)
      returns (finished: Option<PageResult>, more: Gathered)
    requires start == |before| && end <= |combined|
    requires newline == LastNewline(combined[..end])
    requires newline < 0 ==> start == 0
    requires Leads(parse, limit, before + combined[..end], page, goal, short)
    ensures finished.Some? ==> finished.value == goal
    ensures finished == None ==> Leads(parse, limit, before + combined[..Max(0, newline)], more, goal, short)
  {
    var line := combined[newline + 1..end];
    assert combined[..end][newline + 1..] == line;
    if newline < 0 {
      assert before + combined[..end] == line;
      TakeOldestLine(parse, limit, line, page, goal, short);
      assert before + combined[..0] == [];
    } else {
      assert before + combined[..end] == before + combined[..newline] + [NEWLINE] + line;
      TakeLine(parse, limit, before + combined[..newline], line, page, goal, short);
    }
    var gathered := Gather(parse, line, page);
    if gathered == None {
      return Some(InvalidRecord), page;
    }
    more := gathered.value;
    if more.Full(limit) {
      return Some(Page(more.entries, CursorAt(start + newline + 1))), more;
    }
    return None, more;
  }

  lemma NothingLeft(parse: Bytes -> Option<Reply>, limit: int, page: Gathered, goal: PageResult, short: bool)
    requires Leads(parse, limit, [], page, goal, short)
    ensures goal == Page(page.entries, None)
  {
    var none: seq<Bytes> := [];
    CollectBlank(parse, limit, none, page);
    assert none + [[]] == [[]];
  }

  /** Collects the lines that start inside a window; `start` is the window's offset in the file. */
  method ReadWindow(parse: Bytes -> Option<Reply>, limit: int, ghost before: Bytes, start: nat, combined: Bytes, page: Gathered,
                    ghost goal: PageResult, ghost short: bool)
      returns (finished: Option<PageResult>, pending: Bytes, more: Gathered)
    requires start == |before|
    requires Leads(parse, limit, before + combined, page, goal, short)
    ensures finished.Some? ==> finished.value == goal
    ensures finished == None ==> NoNewline(pending) && Leads(parse, limit, before + pending, more, goal, short)
    ensures finished == None && start == 0 ==> pending == []
  {
    var end := |combined|;
    more := page;
    assert combined[..end] == combined;
    if end > 0 && combined[end - 1] == NEWLINE {
      end := end - 1;
      DropFinalNewline(parse, limit, before + combined, page, goal, short);
      assert DropLast(before + combined) == before + combined[..end];
    }
    while end > 0
      invariant 0 <= end <= |combined|
      invariant Leads(parse, limit, before + combined[..end], more, goal, short)
    {
      var newline := LastNewline(combined[..end]);
      if newline < 0 && start > 0 {
        return None, combined[..end], more;
      }
      finished, more := ReadLine(parse, limit, before, start, combined, end, newline, more, goal, short);
      if finished.Some? {
        return finished, [], more;
      }
      end := Max(0, newline);
    }
    assert combined[..end] == [];
    return None, [], more;
  }

  /**
   * The windowed reader returns the reference page, for every file, cursor and limit.  Only a line
   * longer than 1 MiB can make it give up instead.
   */
  method ReadPage(parse: Bytes -> Option<Reply>, file: Option<Bytes>, cursor: Option<int>, limit: int) returns (result: PageResult)
    ensures result == PageSpec(parse, file, cursor, limit)
         || (result == RecordTooLarge && file.Some? && !AllShort(Segments(file.value)))
  {
    if limit < 1 || limit > 100 {
      return InvalidLimit;
    }
    if cursor.Some? && cursor.value < 0 {
      return InvalidCursor;
    }
    if file == None {
      return Page([], None);
    }
    var size := |file.value|;
    var position := if cursor.Some? then cursor.value else size;
    if position > size {
      return HistoryChanged;
    }
    if position > 0 && file.value[position - 1] != NEWLINE {
      return IncompleteRecord;
    }
    result := ReadBackwards(parse, file.value, position, limit);
  }

  method ReadBackwards(parse: Bytes -> Option<Reply>, file: Bytes, from: nat, limit: int) returns (result: PageResult)
    requires 1 <= limit && from <= |file|
    requires from > 0 ==> file[from - 1] == NEWLINE
    ensures result == Collect(parse, limit, CompleteLines(file[..from]), Gathered([], 0))
         || (result == RecordTooLarge && !AllShort(Segments(file)))
  {
    ghost var goal := Collect(parse, limit, CompleteLines(file[..from]), Gathered([], 0));
    ghost var short := AllShort(Segments(file));
    var position, pending, page := from, [], Gathered([], 0);
    StartOfPaging(parse, limit, file, from);
    while position > 0
      invariant 0 <= position <= |file|
      invariant Leads(parse, limit, file[..position] + pending, page, goal, short)
      invariant position == 0 ==> pending == []
    {
      var start := Max(0, position - WINDOW_BYTES);
      var combined := file[start..position] + pending;
      assert file[..position] + pending == file[..start] + combined;
      var finished: Option<PageResult>;
      finished, pending, page := ReadWindow(parse, limit, file[..start], start, combined, page, goal, short);
      if finished.Some? {
        return finished.value;
      }
      if |pending| > MAX_BYTES {
        TailWithinLastSegment(file[..start], pending);
        return RecordTooLarge;
      }
      position := start;
    }
    assert file[..position] + pending == [];
    NothingLeft(parse, limit, page, goal, short);
    return Page(page.entries, None);
  }

  lemma StartOfPaging(parse: Bytes -> Option<Reply>, limit: int, file: Bytes, from: nat)
    requires 1 <= limit && from <= |file|
    requires from > 0 ==> file[from - 1] == NEWLINE
    ensures Leads(parse, limit, file[..from] + [], Gathered([], 0),
                  Collect(parse, limit, CompleteLines(file[..from]), Gathered([], 0)), AllShort(Segments(file)))
  {
    if from == 0 {
      var none: seq<Bytes> := [];
      assert none + [[]] == [[]];
      CollectBlank(parse, limit, none, Gathered([], 0));
    } else {
      var text := file[..from - 1];
      assert file[..from] == text + [NEWLINE] + [];
      assert file == text + [NEWLINE] + file[from..];
      SegmentsAround(text, []);
      SegmentsAround(text, file[from..]);
      CollectBlank(parse, limit, Segments(text), Gathered([], 0));
      assert forall i :: 0 <= i < |Segments(text)| ==> Segments(text)[i] == Segments(file)[i];
    }
    assert file[..from] + [] == file[..from];
  }

  /** The ledger file that holds these lines. */
  function Ledger(lines: seq<Bytes>): Bytes {
    if lines == [] then [] else Ledger(DropLast(lines)) + Last(lines) + [NEWLINE]
  }

  predicate IsHistory(parse: Bytes -> Option<Reply>, lines: seq<Bytes>) {
    forall i :: 0 <= i < |lines| ==>
      lines[i] != [] && NoNewline(lines[i]) && |lines[i]| <= MAX_BYTES && parse(lines[i]).Some?
  }

  /** All records of a history, newest first. */
  function Newest(parse: Bytes -> Option<Reply>, lines: seq<Bytes>): (replies: seq<Reply>)
    requires IsHistory(parse, lines)
  {
    if lines == [] then [] else [parse(Last(lines)).value] + Newest(parse, DropLast(lines))
  }

  lemma AppendLine(ledger: Bytes, line: Bytes)
    requires ledger == [] || Last(ledger) == NEWLINE
    requires NoNewline(line)
    ensures CompleteLines(ledger + line + [NEWLINE]) == CompleteLines(ledger) + [line]
  {
    var text := ledger + line;
    assert text + [NEWLINE] + [] == ledger + line + [NEWLINE];
    SegmentsAround(text, []);
    if ledger == [] {
      SegmentsOfOneLine(line);
      assert text == line;
    } else {
      var before := DropLast(ledger);
      assert ledger == before + [NEWLINE] + [];
      SegmentsAround(before, []);
      assert text == before + [NEWLINE] + line;
      SegmentsAtNewline(before, line);
    }
  }

  lemma {:induction false} LedgerLines(lines: seq<Bytes>)
    requires forall i :: 0 <= i < |lines| ==> NoNewline(lines[i])
    ensures CompleteLines(Ledger(lines)) == lines && |Ledger(lines)| == Offset(lines)
    ensures lines != [] ==> Last(Ledger(lines)) == NEWLINE
    decreases |lines|
  {
    if lines == [] {
      assert CompleteLines([]) == [];
    } else {
      var older := DropLast(lines);
      assert lines == older + [Last(lines)];
      LedgerLines(older);
      AppendLine(Ledger(older), Last(lines));
      assert Ledger(lines) == Ledger(older) + Last(lines) + [NEWLINE];
    }
  }

  lemma {:induction false} LedgerPrefix(lines: seq<Bytes>, more: seq<Bytes>)
    ensures Offset(lines) == |Ledger(lines)| <= |Ledger(lines + more)|
    ensures Ledger(lines + more)[..Offset(lines)] == Ledger(lines)
    decreases |lines| + |more|
  {
    if more != [] {
      LedgerPrefix(lines, DropLast(more));
      assert DropLast(lines + more) == lines + DropLast(more);
    } else {
      assert lines + more == lines;
      if lines != [] {
        LedgerPrefix(DropLast(lines), []);
        assert DropLast(lines) + [] == DropLast(lines);
      }
    }
  }

  /** How many older lines a page over a history leaves. */
  function LinesLeft(limit: int, lines: seq<Bytes>, page: Gathered): (left: nat)
    ensures left <= |lines| && (lines != [] ==> left < |lines|)
  {
    if lines == [] then 0
    else if |page.entries| + 1 >= limit || page.bytes + |Last(lines)| >= MAX_BYTES then |lines| - 1
    else LinesLeft(limit, DropLast(lines), Gathered(page.entries + [Reply("", "")], page.bytes + |Last(lines)|))
  }

  lemma {:induction false} LinesLeftCounts(limit: int, lines: seq<Bytes>, a: Gathered, b: Gathered)
    requires |a.entries| == |b.entries| && a.bytes == b.bytes
    ensures LinesLeft(limit, lines, a) == LinesLeft(limit, lines, b)
    decreases |lines|
  {
    if lines != [] {
      var size := |Last(lines)|;
      LinesLeftCounts(limit, DropLast(lines), Gathered(a.entries + [Reply("", "")], a.bytes + size),
                      Gathered(b.entries + [Reply("", "")], b.bytes + size));
    }
  }

  /** A page over a history: its newest records in order, and a cursor on the boundary of the rest. */
  lemma {:induction false} CollectHistory(parse: Bytes -> Option<Reply>, limit: int, lines: seq<Bytes>, page: Gathered)
      returns (taken: seq<Reply>)
    requires IsHistory(parse, lines)
    ensures var left := LinesLeft(limit, lines, page);
            && Collect(parse, limit, lines, page) == Page(page.entries + taken, CursorAt(Offset(lines[..left])))
            && taken + Newest(parse, lines[..left]) == Newest(parse, lines)
    decreases |lines|
  {
    if lines == [] {
      taken := [];
    } else {
      var reply, older := parse(Last(lines)).value, DropLast(lines);
      var more := Gathered(page.entries + [reply], page.bytes + |Last(lines)|);
      if more.Full(limit) {
        taken := [reply];
      } else {
        var rest := CollectHistory(parse, limit, older, more);
        LinesLeftCounts(limit, older, more, Gathered(page.entries + [Reply("", "")], more.bytes));
        taken := [reply] + rest;
        var left := LinesLeft(limit, lines, page);
        assert lines[..left] == older[..left];
        assert page.entries + taken == more.entries + rest;
      }
    }
  }

  /** One page request; `appended` records reach the ledger before it is served. */
  datatype Visit = Visit(limit: int, appended: seq<Bytes>)

  datatype Followed = Followed(entries: seq<Reply>, next: Option<nat>) | Broken

  /** Follows cursors from `cursor`, one visit a page, while the ledger grows. */
  function Follow(parse: Bytes -> Option<Reply>, lines: seq<Bytes>, cursor: nat, visits: seq<Visit>): Followed
    decreases |visits|
  {
    if visits == [] || cursor == 0 then Followed([], CursorAt(cursor))
    else
      var grown := lines + visits[0].appended;
      match PageSpec(parse, Some(Ledger(grown)), Some(cursor), visits[0].limit)
      case Page(entries, None) => Followed(entries, None)
      case Page(entries, Some(next)) =>
        (match Follow(parse, grown, next, visits[1..])
         case Followed(older, last) => Followed(entries + older, last)
         case Broken => Broken)
      case _ => Broken
  }

  ghost predicate GoodVisits(parse: Bytes -> Option<Reply>, visits: seq<Visit>) {
    forall i :: 0 <= i < |visits| ==> 1 <= visits[i].limit <= 100 && IsHistory(parse, visits[i].appended)
  }

  lemma OnePage(parse: Bytes -> Option<Reply>, lines: seq<Bytes>, k: nat, visit: Visit) returns (taken: seq<Reply>, rest: nat)
    requires IsHistory(parse, lines) && 0 < k <= |lines|
    requires 1 <= visit.limit <= 100 && IsHistory(parse, visit.appended)
    ensures rest < k
    ensures PageSpec(parse, Some(Ledger(lines + visit.appended)), Some(Offset(lines[..k])), visit.limit)
         == Page(taken, CursorAt(Offset(lines[..rest])))
    ensures taken + Newest(parse, lines[..rest]) == Newest(parse, lines[..k])
  {
    var shown, later := lines[..k], lines[k..] + visit.appended;
    assert lines + visit.appended == shown + later;
    LedgerPrefix(shown, later);
    LedgerLines(shown);
    taken := CollectHistory(parse, visit.limit, shown, Gathered([], 0));
    rest := LinesLeft(visit.limit, shown, Gathered([], 0));
    assert shown[..rest] == lines[..rest];
  }

  /**
   * Following cursors from a record boundary yields the older records, newest first, each once,
   * and stops on a record boundary again; every visit makes progress, and appends change nothing.
   */
  lemma {:induction false} PagingExact(parse: Bytes -> Option<Reply>, lines: seq<Bytes>, k: nat, visits: seq<Visit>)
      returns (left: nat)
    requires IsHistory(parse, lines) && k <= |lines| && GoodVisits(parse, visits)
    ensures left <= k && (left == 0 || left + |visits| <= k)
    ensures Follow(parse, lines, Offset(lines[..k]), visits).Followed?
    ensures var f := Follow(parse, lines, Offset(lines[..k]), visits);
            && f.next == CursorAt(Offset(lines[..left]))
            && f.entries + Newest(parse, lines[..left]) == Newest(parse, lines[..k])
    decreases |visits|
  {
    left := k;
    if k > 0 && visits != [] {
      var grown := lines + visits[0].appended;
      var taken, rest := OnePage(parse, lines, k, visits[0]);
      assert grown[..rest] == lines[..rest];
      left := PagingExact(parse, grown, rest, visits[1..]);
      assert grown[..left] == lines[..left];
    }
  }

  /** With as many visits as records, paging from the end returns the whole history. */
  lemma PagingComplete(parse: Bytes -> Option<Reply>, lines: seq<Bytes>, visits: seq<Visit>)
    requires IsHistory(parse, lines) && GoodVisits(parse, visits) && |visits| >= |lines|
    ensures Follow(parse, lines, |Ledger(lines)|, visits) == Followed(Newest(parse, lines), None)
  {
    LedgerLines(lines);
    assert lines[..|lines|] == lines;
    var left := PagingExact(parse, lines, |lines|, visits);
    assert left == 0;
  }

  /** On a history within the size limit the windowed reader never gives up, so it returns the reference page. */
  lemma HistoryNeverTooLarge(parse: Bytes -> Option<Reply>, lines: seq<Bytes>)
    requires IsHistory(parse, lines)
    ensures AllShort(Segments(Ledger(lines)))
  {
    LedgerLines(lines);
    if lines != [] {
      var before := DropLast(Ledger(lines));
      assert Ledger(lines) == before + [NEWLINE] + [];
      SegmentsAround(before, []);
      assert Segments(Ledger(lines)) == lines + [[]];
    }
  }

  /** The first request, which has no cursor, reads from the end of the ledger; later appends leave a cursor's page as it was. */
  lemma CursorPages(parse: Bytes -> Option<Reply>, file: Bytes, more: Bytes, cursor: nat, limit: int)
    requires cursor <= |file|
    ensures PageSpec(parse, Some(file), None, limit) == PageSpec(parse, Some(file), Some(|file|), limit)
    ensures PageSpec(parse, Some(file + more), Some(cursor), limit) == PageSpec(parse, Some(file), Some(cursor), limit)
  {
    assert (file + more)[..cursor] == file[..cursor];
  }
}
