/**
 * The backward scan of a Codex rollout file.
 *
 * The file is read from its end in chunks.  A line may span chunks, so the scan carries the
 * beginning of the line cut by the current chunk, or only the fact that this line is already
 * longer than the limit.  The reference is a plain walk over the complete lines, newest first.
 */
module RolloutScan {
  import opened Common
  import opened ByteLines

  type TurnId = string

  datatype RolloutRecord =
    | Turn(turnId: TurnId, observedAt: int)
    | Terminal(turnId: TurnId, observedAt: int)

  datatype Activity = Active(at: int) | Inactive(at: int) | Unknown

  /** What decides the meaning of a line: the parser, the record limit and the time used for a missing one. */
  datatype Reader = Reader(relevant: Bytes -> Option<RolloutRecord>, maxRecordBytes: nat, fallback: int) {
    /** The record on a line the scan looks at; over-long lines carry none. */
    function Record(line: Bytes): Option<RolloutRecord> {
      if |line| > maxRecordBytes then None else relevant(line)
    }

    function TimeOf(record: RolloutRecord): int {
      if record.observedAt == 0 then fallback else record.observedAt
    }
  }

  /** Either the newest turn decided the activity, or only terminal events were met. */
  datatype Walked = Decided(activity: Activity) | Seen(terminals: map<TurnId, int>)

  function Inspect(reader: Reader, line: Bytes, terminals: map<TurnId, int>): Walked {
    match reader.Record(line)
    case None => Seen(terminals)
    case Some(record) =>
      match record
      case Terminal(id, _) => Seen(terminals[id := reader.TimeOf(record)])
      case Turn(id, _) =>
        if id in terminals then Decided(Inactive(terminals[id]))
        else Decided(Active(reader.TimeOf(record)))
  }

  /** The plain backward walk over a list of lines. */
  function Walk(reader: Reader, lines: seq<Bytes>, terminals: map<TurnId, int>): Walked {
    if lines == [] then Seen(terminals)
    else
      match Inspect(reader, Last(lines), terminals)
      case Decided(activity) => Decided(activity)
      case Seen(more) => Walk(reader, DropLast(lines), more)
  }

  /** `activity` is the answer for a walk that ended this way. */
  ghost predicate Concludes(walked: Walked, activity: Activity) {
    match walked
    case Decided(found) => activity == found
    case Seen(terminals) =>
      if terminals == map[] then activity == Unknown
      else activity.Inactive? && activity.at in terminals.Values
           && forall id :: id in terminals ==> terminals[id] <= activity.at
  }

  method LatestTerminal(terminals: map<TurnId, int>) returns (activity: Activity)
    ensures Concludes(Seen(terminals), activity)
  {
    if terminals == map[] {
      return Unknown;
    }
    var keys := terminals.Keys;
    var first :| first in keys;
    var latest := terminals[first];
    while keys != {}
      invariant keys <= terminals.Keys
      invariant latest in terminals.Values
      invariant forall id :: id in terminals && id !in keys ==> terminals[id] <= latest
      decreases keys
    {
      var id :| id in keys;
      latest := Max(latest, terminals[id]);
      keys := keys - {id};
    }
    return Inactive(latest);
  }

  /** `newlines` lists, in order, the newline positions below `upto`. */
  ghost predicate AreNewlines(chunk: Bytes, newlines: seq<int>, upto: nat) {
    && upto <= |chunk|
    && (forall k :: 0 <= k < |newlines| ==> 0 <= newlines[k] < upto && chunk[newlines[k]] == NEWLINE)
    && (forall j, k :: 0 <= j < k < |newlines| ==> newlines[j] < newlines[k])
    && (forall i :: 0 <= i < upto && chunk[i] == NEWLINE ==> i in newlines)
  }

  lemma BetweenNewlines(chunk: Bytes, newlines: seq<int>, k: nat)
    requires AreNewlines(chunk, newlines, |chunk|) && k < |newlines|
    ensures k == 0 ==> NoNewline(chunk[..newlines[k]])
    ensures k > 0 ==> NoNewline(chunk[newlines[k - 1] + 1..newlines[k]])
    ensures k == |newlines| - 1 ==> NoNewline(chunk[newlines[k] + 1..])
  {
  }

  method NewlinesOf(chunk: Bytes) returns (newlines: seq<int>)
    ensures AreNewlines(chunk, newlines, |chunk|)
  {
    newlines := [];
    for index := 0 to |chunk|
      invariant AreNewlines(chunk, newlines, index)
    {
      if chunk[index] == NEWLINE {
        newlines := newlines + [index];
      }
    }
  }

  /** Continues a walk with older lines, unless it is already decided. */
  function Resume(reader: Reader, walked: Walked, older: seq<Bytes>): Walked {
    match walked
    case Decided(_) => walked
    case Seen(terminals) => Walk(reader, older, terminals)
  }

  lemma StepBack(reader: Reader, before: Bytes, line: Bytes, terminals: map<TurnId, int>)
    requires NoNewline(line)
    ensures Walk(reader, Segments(before + [NEWLINE] + line), terminals)
         == Resume(reader, Inspect(reader, line, terminals), Segments(before))
    ensures CompleteLines(before + [NEWLINE] + line) == Segments(before)
  {
    SegmentsAtNewline(before, line);
  }

  /** Inspects the lines that lie wholly inside a chunk, newest first. */
  method InspectInnerLines(reader: Reader, ghost before: Bytes, chunk: Bytes, newlines: seq<int>, terminals: map<TurnId, int>)
      returns (walked: Walked)
    requires newlines != [] && AreNewlines(chunk, newlines, |chunk|)
    ensures Walk(reader, Segments(before + chunk[..Last(newlines)]), terminals)
         == Resume(reader, walked, Segments(before + chunk[..newlines[0]]))
  {
    hide Segments, Walk, Inspect;
    var index := |newlines| - 1;
    var found := terminals;
    while index >= 1
      invariant 0 <= index < |newlines|
      invariant Walk(reader, Segments(before + chunk[..Last(newlines)]), terminals)
             == Walk(reader, Segments(before + chunk[..newlines[index]]), found)
    {
      var line := chunk[newlines[index - 1] + 1..newlines[index]];
      BetweenNewlines(chunk, newlines, index);
      StepBack(reader, before + chunk[..newlines[index - 1]], line, found);
      assert before + chunk[..newlines[index]]
          == before + chunk[..newlines[index - 1]] + [NEWLINE] + line;
      var result := Inspect(reader, line, found);
      if result.Decided? {
        return result;
      }
      found := result.terminals;
      index := index - 1;
    }
    return Seen(found);
  }

  /** What the scan keeps of the line cut by the start of the current chunk. */
  datatype Carry = Carry(suffix: Bytes, discard: bool)

  function CarryAcross(reader: Reader, chunk: Bytes, carry: Carry): Carry {
    if carry.discard then carry
    else if |chunk| + |carry.suffix| <= reader.maxRecordBytes then Carry(chunk + carry.suffix, false)
    else Carry([], true)
  }

  function CarryPrefix(reader: Reader, prefix: Bytes): Carry {
    if |prefix| <= reader.maxRecordBytes then Carry(prefix, false) else Carry([], true)
  }

  /** The carried text is the whole line cut by the chunk, unless that line is already too long. */
  ghost predicate Carries(reader: Reader, pending: Bytes, carry: Carry) {
    if carry.discard then |pending| > reader.maxRecordBytes else carry.suffix == pending
  }

  /** The answer sought is the walk over what is left, minus an unterminated newest line. */
  ghost predicate Remains(reader: Reader, goal: Walked, text: Bytes, ignoreNewest: bool, terminals: map<TurnId, int>) {
    if ignoreNewest then terminals == map[] && goal == Walk(reader, CompleteLines(text), map[])
    else goal == Walk(reader, Segments(text), terminals)
  }

  /** The line that starts in this chunk and ends in a newer one. */
  method InspectBoundaryLine(reader: Reader, ghost goal: Walked, ghost before: Bytes, head: Bytes, ghost pending: Bytes,
                             carry: Carry, ignoreNewest: bool, terminals: map<TurnId, int>)
      returns (walked: Walked)
    requires NoNewline(head) && NoNewline(pending)
    requires Carries(reader, pending, carry)
    requires Remains(reader, goal, before + [NEWLINE] + (head + pending), ignoreNewest, terminals)
    ensures goal == Resume(reader, walked, Segments(before))
  {
    StepBack(reader, before, head + pending, terminals);
    if ignoreNewest || carry.discard {
      return Seen(terminals);
    }
    walked := Inspect(reader, head + carry.suffix, terminals);
  }

  method ScanChunkWithNewlines(reader: Reader, ghost goal: Walked, ghost before: Bytes, chunk: Bytes, newlines: seq<int>,
                               ghost pending: Bytes, carry: Carry, ignoreNewest: bool,
                               terminals: map<TurnId, int>)
      returns (walked: Walked)
    requires newlines != [] && AreNewlines(chunk, newlines, |chunk|)
    requires NoNewline(pending) && Carries(reader, pending, carry)
    requires Remains(reader, goal, before + chunk + pending, ignoreNewest, terminals)
    ensures walked.Decided? ==> goal == walked
    ensures walked.Seen? ==> Remains(reader, goal, before + chunk[..newlines[0]], false, walked.terminals)
  {
    var last := Last(newlines);
    BetweenNewlines(chunk, newlines, |newlines| - 1);
    assert before + chunk + pending == before + chunk[..last] + [NEWLINE] + (chunk[last + 1..] + pending);
    walked := InspectBoundaryLine(reader, goal, before + chunk[..last], chunk[last + 1..], pending,
                                  carry, ignoreNewest, terminals);
    if walked.Seen? {
      walked := InspectInnerLines(reader, before, chunk, newlines, walked.terminals);
    }
  }

  lemma WalkOneLine(reader: Reader, line: Bytes, terminals: map<TurnId, int>)
    ensures Walk(reader, DropLast([line]), terminals) == Seen(terminals)
    ensures Walk(reader, [line], terminals) == Inspect(reader, line, terminals)
  {
    assert DropLast([line]) == [];
    assert Last([line]) == line;
  }

  /** The oldest line of the file, which no newline precedes. */
  method FinishScan(reader: Reader, ghost goal: Walked, ghost pending: Bytes, carry: Carry,
                    ignoreNewest: bool, terminals: map<TurnId, int>)
      returns (activity: Activity)
    requires NoNewline(pending) && Carries(reader, pending, carry)
    requires Remains(reader, goal, pending, ignoreNewest, terminals)
    ensures Concludes(goal, activity)
  {
    SegmentsOfOneLine(pending);
    WalkOneLine(reader, pending, terminals);
    var walked := Seen(terminals);
    if !ignoreNewest && !carry.discard {
      walked := Inspect(reader, carry.suffix, terminals);
    }
    assert goal == walked;
    if walked.Decided? {
      return walked.activity;
    }
    activity := LatestTerminal(walked.terminals);
  }

  lemma StartOfScan(reader: Reader, file: Bytes)
    requires reader.relevant([]) == None
    ensures var goal := Walk(reader, CompleteLines(file), map[]);
            if file == [] then Concludes(goal, Unknown)
            else Remains(reader, goal, file, Last(file) != NEWLINE, map[])
  {
    if file != [] && Last(file) == NEWLINE {
      StepBack(reader, DropLast(file), [], map[]);
      assert DropLast(file) + [NEWLINE] + [] == file;
    }
  }

  /**
   * The chunked scan concludes what the plain walk over the complete lines concludes, for every
   * file, chunk size and record limit.
   */
  method ScanRolloutBackwards(file: Bytes, relevant: Bytes -> Option<RolloutRecord>, fallback: int,
                              chunkOption: int, maxRecordOption: int)
      returns (activity: Activity)
    requires relevant([]) == None
    ensures Concludes(Walk(Reader(relevant, Max(64, maxRecordOption), fallback), CompleteLines(file), map[]), activity)
  {
    var chunkBytes := Max(16, chunkOption);
    var reader := Reader(relevant, Max(64, maxRecordOption), fallback);
    ghost var goal := Walk(reader, CompleteLines(file), map[]);
    StartOfScan(reader, file);
    if |file| == 0 {
      return Unknown;
    }
    var terminals: map<TurnId, int> := map[];
    var ignoreNewestBoundary := Last(file) != NEWLINE;
    var end, carry := |file|, Carry([], false);
    ghost var pending: Bytes := [];  // the bytes from `end` up to the next newline
    assert file[..end] + pending == file;
    while end > 0
      invariant 0 <= end <= |file|
      invariant NoNewline(pending) && Carries(reader, pending, carry)
      invariant Remains(reader, goal, file[..end] + pending, ignoreNewestBoundary, terminals)
    {
      var start := Max(0, end - chunkBytes);
      var chunk := file[start..end];
      assert file[..start] + chunk == file[..end];
      var newlines := NewlinesOf(chunk);
      if newlines == [] {
        carry := CarryAcross(reader, chunk, carry);
        assert file[..end] + pending == file[..start] + (chunk + pending);
        pending := chunk + pending;
      } else {
        var walked := ScanChunkWithNewlines(reader, goal, file[..start], chunk, newlines, pending,
                                            carry, ignoreNewestBoundary, terminals);
        if walked.Decided? {
          return walked.activity;
        }
        ignoreNewestBoundary, terminals := false, walked.terminals;
        BetweenNewlines(chunk, newlines, 0);
        pending := chunk[..newlines[0]];
        carry := CarryPrefix(reader, chunk[..newlines[0]]);
      }
      end := start;
    }
    assert file[..end] + pending == pending;
    activity := FinishScan(reader, goal, pending, carry, ignoreNewestBoundary, terminals);
  }

  /** The newest turn among the lines. */
  ghost predicate NewestTurn(reader: Reader, lines: seq<Bytes>, i: nat) {
    && i < |lines|
    && IsTurn(reader, lines[i])
    && forall j :: i < j < |lines| ==> !IsTurn(reader, lines[j])
  }

  predicate IsTurn(reader: Reader, line: Bytes) {
    var record := reader.Record(line);
    record.Some? && record.value.Turn?
  }

  /** For every turn that ended: the time on the oldest terminal line that names it. */
  ghost function Endings(reader: Reader, lines: seq<Bytes>): map<TurnId, int> {
    if lines == [] then map[]
    else
      var later := Endings(reader, lines[1..]);
      match reader.Record(lines[0])
      case Some(Terminal(id, _)) => later[id := reader.TimeOf(reader.Record(lines[0]).value)]
      case _ => later
  }

  lemma {:induction false} EndingsSplit(reader: Reader, lines: seq<Bytes>, newest: Bytes)
    ensures Endings(reader, lines + [newest]) == Endings(reader, [newest]) + Endings(reader, lines)
  {
    if lines == [] {
      assert [] + [newest] == [newest];
    } else {
      EndingsSplit(reader, lines[1..], newest);
      assert (lines + [newest])[1..] == lines[1..] + [newest];
    }
  }

  lemma NoEndings(reader: Reader, terminals: map<TurnId, int>)
    ensures terminals + Endings(reader, []) == terminals
  {
  }

  lemma InspectEnding(reader: Reader, line: Bytes, terminals: map<TurnId, int>)
    requires !IsTurn(reader, line)
    ensures Inspect(reader, line, terminals) == Seen(terminals + Endings(reader, [line]))
  {
  }

  lemma {:induction false} WalkWithoutTurns(reader: Reader, lines: seq<Bytes>, terminals: map<TurnId, int>)
    requires forall j :: 0 <= j < |lines| ==> !IsTurn(reader, lines[j])
    ensures Walk(reader, lines, terminals) == Seen(terminals + Endings(reader, lines))
    decreases |lines|
  {
    hide Endings, Inspect, IsTurn;
    if lines == [] {
      NoEndings(reader, terminals);
    } else {
      var older, newest := DropLast(lines), Last(lines);
      assert lines == older + [newest];
      EndingsSplit(reader, older, newest);
      InspectEnding(reader, newest, terminals);
      WalkWithoutTurns(reader, older, terminals + Endings(reader, [newest]));
    }
  }

  lemma {:induction false} WalkSplits(reader: Reader, older: seq<Bytes>, newer: seq<Bytes>, terminals: map<TurnId, int>)
    ensures Walk(reader, older + newer, terminals) == Resume(reader, Walk(reader, newer, terminals), older)
    decreases |newer|
  {
    if newer == [] {
      assert older + newer == older;
    } else {
      assert DropLast(older + newer) == older + DropLast(newer);
      match Inspect(reader, Last(newer), terminals)
      case Decided(_) =>
      case Seen(more) => WalkSplits(reader, older, DropLast(newer), more);
    }
  }

  /**
   * What the walk means: the newest turn is inactive exactly when a later line ends it, at the
   * time of the oldest such line; without any turn only the endings remain.
   */
  lemma WalkMeaning(reader: Reader, lines: seq<Bytes>, i: nat)
    ensures NewestTurn(reader, lines, i) ==>
              var turn, endings := reader.Record(lines[i]).value, Endings(reader, lines[i + 1..]);
              Walk(reader, lines, map[])
              == Decided(if turn.turnId in endings then Inactive(endings[turn.turnId]) else Active(reader.TimeOf(turn)))
    ensures (forall j :: 0 <= j < |lines| ==> !IsTurn(reader, lines[j])) ==>
              Walk(reader, lines, map[]) == Seen(Endings(reader, lines))
  {
    if NewestTurn(reader, lines, i) {
      var endings := Endings(reader, lines[i + 1..]);
      assert lines == lines[..i + 1] + lines[i + 1..];
      WalkSplits(reader, lines[..i + 1], lines[i + 1..], map[]);
      WalkWithoutTurns(reader, lines[i + 1..], map[]);
      assert map[] + endings == endings;
      assert Last(lines[..i + 1]) == lines[i];
    } else if forall j :: 0 <= j < |lines| ==> !IsTurn(reader, lines[j]) {
      WalkWithoutTurns(reader, lines, map[]);
      assert map[] + Endings(reader, lines) == Endings(reader, lines);
    }
  }

  // ---- What the answer says about the lines ----

  /** The record a line within the limit holds. */
  predicate Holds(reader: Reader, line: Bytes, record: RolloutRecord) {
    |line| <= reader.maxRecordBytes && reader.relevant(line) == Some(record)
  }

  predicate EndsTurn(reader: Reader, line: Bytes, id: TurnId) {
    && |line| <= reader.maxRecordBytes && reader.relevant(line).Some?
    && reader.relevant(line).value.Terminal? && reader.relevant(line).value.turnId == id
  }

  /** The time on a record, or the fallback when it has none. */
  function StampOf(reader: Reader, line: Bytes): int
    requires reader.relevant(line).Some?
  {
    if reader.relevant(line).value.observedAt != 0 then reader.relevant(line).value.observedAt else reader.fallback
  }

  /** The ending of a turn is the oldest line that ends it. */
  lemma {:induction false} EndingsAre(reader: Reader, lines: seq<Bytes>, id: TurnId)
    ensures id in Endings(reader, lines) <==> exists i :: 0 <= i < |lines| && EndsTurn(reader, lines[i], id)
    ensures forall i :: 0 <= i < |lines| && EndsTurn(reader, lines[i], id) && (forall j :: 0 <= j < i ==> !EndsTurn(reader, lines[j], id)) ==>
              id in Endings(reader, lines) && Endings(reader, lines)[id] == StampOf(reader, lines[i])
  {
    if lines != [] {
      EndingsAre(reader, lines[1..], id);
      forall i | 0 <= i < |lines| && EndsTurn(reader, lines[i], id) && forall j :: 0 <= j < i ==> !EndsTurn(reader, lines[j], id)
        ensures id in Endings(reader, lines) && Endings(reader, lines)[id] == StampOf(reader, lines[i])
      {
        if i > 0 {
          assert lines[1..][i - 1] == lines[i] && !EndsTurn(reader, lines[0], id);
          assert forall j :: 0 <= j < i - 1 ==> lines[1..][j] == lines[j + 1];
        }
      }
      if i :| 0 <= i < |lines[1..]| && EndsTurn(reader, lines[1..][i], id) {
        assert EndsTurn(reader, lines[i + 1], id);
      }
    }
  }

  /**
   * The answer about the newest turn among the lines within the limit: inactive since the oldest later line that ends it, or
   * active since its own time.  A missing time is the fallback.
   */
  lemma NewestTurnDecides(reader: Reader, lines: seq<Bytes>, i: nat, turn: RolloutRecord)
    requires i < |lines| && turn.Turn? && Holds(reader, lines[i], turn)
    requires forall j :: i < j < |lines| ==>
               !(|lines[j]| <= reader.maxRecordBytes && reader.relevant(lines[j]).Some? && reader.relevant(lines[j]).value.Turn?)
    ensures forall k :: i < k < |lines| && EndsTurn(reader, lines[k], turn.turnId)
                        && (forall j :: i < j < k ==> !EndsTurn(reader, lines[j], turn.turnId)) ==>
              Walk(reader, lines, map[]) == Decided(Inactive(StampOf(reader, lines[k])))
    ensures (forall k :: i < k < |lines| ==> !EndsTurn(reader, lines[k], turn.turnId)) ==>
              Walk(reader, lines, map[]) == Decided(Active(StampOf(reader, lines[i])))
  {
    hide Walk, Endings, StampOf;
    var later := lines[i + 1..];
    assert NewestTurn(reader, lines, i);
    WalkMeaning(reader, lines, i);
    EndingsAre(reader, later, turn.turnId);
    assert forall k :: 0 <= k < |later| ==> later[k] == lines[i + 1 + k];
    forall k | i < k < |lines| && EndsTurn(reader, lines[k], turn.turnId) && forall j :: i < j < k ==> !EndsTurn(reader, lines[j], turn.turnId)
      ensures Walk(reader, lines, map[]) == Decided(Inactive(StampOf(reader, lines[k])))
    {
      assert later[k - i - 1] == lines[k];
    }
    TurnTime(reader, lines[i], turn);
  }

  lemma TurnTime(reader: Reader, line: Bytes, turn: RolloutRecord)
    requires Holds(reader, line, turn)
    ensures reader.TimeOf(turn) == StampOf(reader, line) && reader.Record(line) == Some(turn)
  {
  }
}
