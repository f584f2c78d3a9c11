/**
 * What one page of the chat history holds: which requests are refused and how, and exactly how many lines a page takes.
 */
module ChatPages {
  import opened Common
  import opened ByteLines
  import opened ChatPaging

  // ---- Refusals ----

  /** Which requests are refused, in the order in which the reader looks. */
  lemma RefusedWhen(parse: Bytes -> Option<Reply>, file: Option<Bytes>, cursor: Option<int>, limit: int)
    ensures PageSpec(parse, file, cursor, limit) == InvalidLimit <==> limit < 1 || 100 < limit
    ensures PageSpec(parse, file, cursor, limit) == InvalidCursor <==> 1 <= limit <= 100 && cursor.Some? && cursor.value < 0
    ensures PageSpec(parse, file, cursor, limit) == HistoryChanged <==>
              1 <= limit <= 100 && file.Some? && cursor.Some? && cursor.value > |file.value|
    ensures PageSpec(parse, file, cursor, limit) == IncompleteRecord <==>
              && 1 <= limit <= 100 && file.Some? && (cursor.Some? ==> 0 <= cursor.value <= |file.value|)
              && var from := if cursor.Some? then cursor.value else |file.value|;
                 from > 0 && file.value[from - 1] != 10
    ensures file == None && 1 <= limit <= 100 && (cursor.Some? ==> cursor.value >= 0) ==>
              PageSpec(parse, file, cursor, limit) == Page([], None)
  {
    if file.Some? {
      var from := if cursor.Some? then cursor.value else |file.value|;
      if 0 <= from <= |file.value| {
        CollectKinds(parse, limit, CompleteLines(file.value[..from]), Gathered([], 0));
      }
    }
  }

  /** Collecting gives a page or meets a record that does not parse. */
  lemma {:induction false} CollectKinds(parse: Bytes -> Option<Reply>, limit: int, lines: seq<Bytes>, page: Gathered)
    ensures var result := Collect(parse, limit, lines, page);
            result.Page? || result == InvalidRecord
    decreases |lines|
  {
    if lines != [] {
      var more := Gather(parse, Last(lines), page);
      if more.Some? && !more.value.Full(limit) {
        CollectKinds(parse, limit, DropLast(lines), more.value);
      }
    }
  }

  // ---- How much a page takes ----

  /** The records of these lines, newest first; blank lines hold none. */
  function Replies(parse: Bytes -> Option<Reply>, lines: seq<Bytes>): seq<Reply> {
    if lines == [] then []
    else Replies(parse, lines[1..]) + if lines[0] == [] || parse(lines[0]) == None then [] else [parse(lines[0]).value]
  }

  function TotalBytes(lines: seq<Bytes>): nat {
    if lines == [] then 0 else |lines[0]| + TotalBytes(lines[1..])
  }

  /** A page is full with `limit` records, or with a mebibyte. */
  predicate FullPage(parse: Bytes -> Option<Reply>, limit: int, lines: seq<Bytes>) {
    |Replies(parse, lines)| >= limit || TotalBytes(lines) >= 1048576
  }

  /** What the lines from `k` on have gathered. */
  function Held(parse: Bytes -> Option<Reply>, lines: seq<Bytes>, k: nat): Gathered
    requires k <= |lines|
  {
    Gathered(Replies(parse, lines[k..]), TotalBytes(lines[k..]))
  }

  lemma HeldOneMore(parse: Bytes -> Option<Reply>, limit: int, lines: seq<Bytes>, k: nat)
    requires 0 < k <= |lines| && (lines[k - 1] != [] ==> parse(lines[k - 1]).Some?)
    ensures Gather(parse, lines[k - 1], Held(parse, lines, k)) == Some(Held(parse, lines, k - 1))
    ensures Held(parse, lines, k - 1).Full(limit) <==> FullPage(parse, limit, lines[k - 1..])
  {
    assert lines[k - 1..][1..] == lines[k..] && lines[k - 1..][0] == lines[k - 1];
    if lines[k - 1] == [] {
      assert Replies(parse, lines[k..]) + [] == Replies(parse, lines[k..]);
    }
  }

  lemma CollectStep(parse: Bytes -> Option<Reply>, limit: int, lines: seq<Bytes>, k: nat, page: Gathered)
    requires 0 < k <= |lines|
    ensures Collect(parse, limit, lines[..k], page) ==
              match Gather(parse, lines[k - 1], page)
              case None => InvalidRecord
              case Some(more) =>
                if more.Full(limit) then Page(more.entries, CursorAt(Offset(lines[..k - 1]))) else Collect(parse, limit, lines[..k - 1], more)
  {
    assert Last(lines[..k]) == lines[k - 1] && DropLast(lines[..k]) == lines[..k - 1];
  }

  lemma {:induction false} CollectFrom(parse: Bytes -> Option<Reply>, limit: int, lines: seq<Bytes>, k: nat, n: nat)
    requires n < k <= |lines| && forall i :: n <= i < |lines| && lines[i] != [] ==> parse(lines[i]).Some?
    requires (n > 0 ==> FullPage(parse, limit, lines[n..])) && forall m :: n < m < k ==> !FullPage(parse, limit, lines[m..])
    ensures Collect(parse, limit, lines[..k], Held(parse, lines, k)) == Page(Replies(parse, lines[n..]), CursorAt(Offset(lines[..n])))
    decreases k - n
  {
    hide Collect, Replies, TotalBytes, Offset, FullPage, Gather;
    HeldOneMore(parse, limit, lines, k);
    CollectStep(parse, limit, lines, k, Held(parse, lines, k));
    if k - 1 > n {
      CollectFrom(parse, limit, lines, k - 1, n);
    } else if n == 0 {
      CollectNothing(parse, limit, Held(parse, lines, 0));
      assert lines[..0] == [];
    }
  }

  lemma CollectNothing(parse: Bytes -> Option<Reply>, limit: int, page: Gathered)
    ensures Collect(parse, limit, [], page) == Page(page.entries, None) && CursorAt(Offset([])) == None
  {
  }

  /**
   * A page takes lines from the end until it is full, and no longer: with these last lines, all of which parse, full for
   * the first time or being all there are, it holds their records, newest first, and its cursor is where they begin.
   */
  lemma PageTakes(parse: Bytes -> Option<Reply>, limit: int, lines: seq<Bytes>, n: nat)
    requires n < |lines| && forall i :: n <= i < |lines| && lines[i] != [] ==> parse(lines[i]).Some?
    requires (n > 0 ==> FullPage(parse, limit, lines[n..])) && forall m :: n < m < |lines| ==> !FullPage(parse, limit, lines[m..])
    ensures Collect(parse, limit, lines, Gathered([], 0)) == Page(Replies(parse, lines[n..]), CursorAt(Offset(lines[..n])))
  {
    hide Collect, FullPage, Offset;
    assert lines[..|lines|] == lines && lines[|lines|..] == [];
    assert Held(parse, lines, |lines|) == Gathered([], 0);
    CollectFrom(parse, limit, lines, |lines|, n);
  }

  lemma {:induction false} BrokenFrom(parse: Bytes -> Option<Reply>, limit: int, lines: seq<Bytes>, k: nat, n: nat)
    requires n < k <= |lines| && forall i :: n < i < |lines| && lines[i] != [] ==> parse(lines[i]).Some?
    requires lines[n] != [] && parse(lines[n]) == None && forall m :: n < m < k ==> !FullPage(parse, limit, lines[m..])
    ensures Collect(parse, limit, lines[..k], Held(parse, lines, k)) == InvalidRecord
    decreases k - n
  {
    hide Collect, Replies, TotalBytes, Offset, FullPage;
    CollectStep(parse, limit, lines, k, Held(parse, lines, k));
    if k - 1 > n {
      HeldOneMore(parse, limit, lines, k);
      BrokenFrom(parse, limit, lines, k - 1, n);
    }
  }

  /** A record that does not parse, reached before the page is full, fails the request. */
  lemma BrokenRecordFails(parse: Bytes -> Option<Reply>, limit: int, lines: seq<Bytes>, n: nat)
    requires n < |lines| && forall i :: n < i < |lines| && lines[i] != [] ==> parse(lines[i]).Some?
    requires lines[n] != [] && parse(lines[n]) == None && forall m :: n < m < |lines| ==> !FullPage(parse, limit, lines[m..])
    ensures Collect(parse, limit, lines, Gathered([], 0)) == InvalidRecord
  {
    hide Collect, FullPage, Offset;
    assert lines[..|lines|] == lines && lines[|lines|..] == [];
    assert Held(parse, lines, |lines|) == Gathered([], 0);
    BrokenFrom(parse, limit, lines, |lines|, n);
  }

  /** Where the cursor of a page points: just behind the newline of the last line it did not take. */
  lemma {:induction false} OffsetIs(lines: seq<Bytes>)
    ensures Offset(lines) == TotalBytes(lines) + |lines|
    decreases |lines|
  {
    if lines != [] {
      OffsetIs(DropLast(lines));
      BytesSnoc(DropLast(lines), Last(lines));
      assert lines == DropLast(lines) + [Last(lines)];
    }
  }

  lemma {:induction false} BytesSnoc(lines: seq<Bytes>, line: Bytes)
    ensures TotalBytes(lines + [line]) == TotalBytes(lines) + |line|
  {
    if lines == [] {
      assert lines + [line] == [line] && [line][1..] == [];
    } else {
      assert (lines + [line])[1..] == lines[1..] + [line];
      BytesSnoc(lines[1..], line);
    }
  }
}
