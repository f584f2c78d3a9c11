/** Newline-separated segments of a byte string, the reference view for both backward readers. */
module ByteLines {
  import opened Common

  const NEWLINE: Byte := 10

  predicate NoNewline(s: Bytes) {
    NEWLINE !in s
  }

  /** The pieces between newlines; the last piece is what follows the final newline. */
  function Segments(s: Bytes): (pieces: seq<Bytes>)
    ensures pieces != []
  {
    if s == [] then [[]]
    else if s[0] == NEWLINE then [[]] + Segments(s[1..])
    else
      var later := Segments(s[1..]);
      [[s[0]] + later[0]] + later[1..]
  }

  function DropLast<T>(s: seq<T>): seq<T>
    requires s != []
  {
    s[..|s| - 1]
  }

  function Last<T>(s: seq<T>): T
    requires s != []
  {
    s[|s| - 1]
  }

  /** The newline-terminated lines of a file, without their newlines. */
  function CompleteLines(s: Bytes): seq<Bytes> {
    DropLast(Segments(s))
  }

  lemma {:induction false} SegmentsOfOneLine(s: Bytes)
    requires NoNewline(s)
    ensures Segments(s) == [s]
  {
    if s != [] {
      SegmentsOfOneLine(s[1..]);
      assert s == [s[0]] + s[1..];
    }
  }

  /** A newline separates the segments before it from those after it. */
  lemma {:induction false} SegmentsAround(before: Bytes, after: Bytes)
    ensures Segments(before + [NEWLINE] + after) == Segments(before) + Segments(after)
  {
    var whole := before + [NEWLINE] + after;
    if before == [] {
      assert whole[1..] == after;
    } else {
      assert whole[1..] == before[1..] + [NEWLINE] + after;
      SegmentsAround(before[1..], after);
    }
  }

  lemma SegmentsAtNewline(before: Bytes, line: Bytes)
    requires NoNewline(line)
    ensures Segments(before + [NEWLINE] + line) == Segments(before) + [line]
  {
    SegmentsAround(before, line);
    SegmentsOfOneLine(line);
  }
}
