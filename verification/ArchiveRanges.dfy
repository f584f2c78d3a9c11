/**
 * Compaction of archive ranges.
 *
 * An archive file holds the records of a range of sequence numbers.  A range inside another one is
 * redundant; between equal ranges the file name that collates first wins.
 */
module ArchiveRanges {

  datatype Range<F> = Range(file: F, first: nat, last: nat)

  predicate Contains<F>(container: Range<F>, item: Range<F>) {
    container.first <= item.first && container.last >= item.last
  }

  /** `candidate` makes `item` redundant. */
  predicate Dominates<F>(before: (F, F) -> bool, candidate: Range<F>, item: Range<F>) {
    && Contains(candidate, item)
    && (candidate.first < item.first || candidate.last > item.last || before(candidate.file, item.file))
  }

  predicate Dropped<F>(before: (F, F) -> bool, items: seq<Range<F>>, index: nat)
    requires index < |items|
  {
    exists j :: 0 <= j < |items| && j != index && Dominates(before, items[j], items[index])
  }

  function KeepFrom<F>(before: (F, F) -> bool, items: seq<Range<F>>, index: nat): seq<Range<F>>
    requires index <= |items|
    decreases |items| - index
  {
    if index == |items| then []
    else (if Dropped(before, items, index) then [] else [items[index]]) + KeepFrom(before, items, index + 1)
  }

  function Compact<F>(before: (F, F) -> bool, items: seq<Range<F>>): seq<Range<F>> {
    KeepFrom(before, items, 0)
  }

  /** The collation of file names. */
  ghost predicate StrictOrder<F(!new)>(before: (F, F) -> bool) {
    && (forall a :: !before(a, a))
    && (forall a, b, c :: before(a, b) && before(b, c) ==> before(a, c))
  }

  lemma DominatesIsStrict<F(!new)>(before: (F, F) -> bool, a: Range<F>, b: Range<F>, c: Range<F>)
    requires StrictOrder(before)
    ensures !Dominates(before, a, a)
    ensures Dominates(before, a, b) && Dominates(before, b, c) ==> Dominates(before, a, c)
  {
  }

  lemma {:induction false} KeptFrom<F>(before: (F, F) -> bool, items: seq<Range<F>>, index: nat)
    requires index <= |items|
    ensures forall r :: r in KeepFrom(before, items, index)
                   <==> exists i :: index <= i < |items| && items[i] == r && !Dropped(before, items, i)
    decreases |items| - index
  {
    if index < |items| {
      KeptFrom(before, items, index + 1);
    }
  }

  /** The positions whose ranges make position `i` redundant. */
  ghost function Dominators<F>(before: (F, F) -> bool, items: seq<Range<F>>, i: nat): set<nat>
    requires i < |items|
  {
    set j: nat | j < |items| && Dominates(before, items[j], items[i])
  }

  /**
   * Every range is kept or inside a kept range.  Its immediate container may itself be dropped; the
   * chain of containers ends because each has fewer dominators than the one before.
   */
  lemma {:induction false} KeptContainer<F(!new)>(before: (F, F) -> bool, items: seq<Range<F>>, i: nat) returns (kept: nat)
    requires StrictOrder(before) && i < |items|
    ensures kept < |items| && !Dropped(before, items, kept)
    ensures items[kept] in Compact(before, items) && Contains(items[kept], items[i])
    decreases Dominators(before, items, i)
  {
    if !Dropped(before, items, i) {
      kept := i;
      KeptFrom(before, items, 0);
    } else {
      var j: nat :| j < |items| && j != i && Dominates(before, items[j], items[i]);
      forall k | k in Dominators(before, items, j)
        ensures k in Dominators(before, items, i)
      {
        DominatesIsStrict(before, items[k], items[j], items[i]);
      }
      DominatesIsStrict(before, items[j], items[j], items[j]);
      assert j in Dominators(before, items, i) && j !in Dominators(before, items, j);
      kept := KeptContainer(before, items, j);
    }
  }

  predicate Covers<F>(items: seq<Range<F>>, n: nat) {
    exists i :: 0 <= i < |items| && items[i].first <= n <= items[i].last
  }

  /** Compaction covers the same sequence numbers. */
  lemma CoverageUnchanged<F(!new)>(before: (F, F) -> bool, items: seq<Range<F>>, n: nat)
    requires StrictOrder(before)
    ensures Covers(Compact(before, items), n) <==> Covers(items, n)
  {
    var compacted := Compact(before, items);
    KeptFrom(before, items, 0);
    if Covers(compacted, n) {
      var k :| 0 <= k < |compacted| && compacted[k].first <= n <= compacted[k].last;
      assert compacted[k] in compacted;
    } else if i :| 0 <= i < |items| && items[i].first <= n <= items[i].last {
      var kept := KeptContainer(before, items, i);
    }
  }

  /** No kept range makes another one redundant; in particular none lies strictly inside another. */
  lemma NoneRedundant<F(!new)>(before: (F, F) -> bool, items: seq<Range<F>>, a: Range<F>, b: Range<F>)
    requires StrictOrder(before)
    requires a in Compact(before, items) && b in Compact(before, items)
    ensures a.first <= b.first && b.last <= a.last ==> a.first == b.first && a.last == b.last && !before(a.file, b.file)
    ensures !Dominates(before, a, b)
  {
    KeptFrom(before, items, 0);
    var i :| 0 <= i < |items| && items[i] == a && !Dropped(before, items, i);
    var j :| 0 <= j < |items| && items[j] == b && !Dropped(before, items, j);
    DominatesIsStrict(before, a, a, a);
  }

  lemma {:induction false} KeepAllFrom<F>(before: (F, F) -> bool, items: seq<Range<F>>, index: nat)
    requires index <= |items|
    requires forall i :: 0 <= i < |items| ==> !Dropped(before, items, i)
    ensures KeepFrom(before, items, index) == items[index..]
    decreases |items| - index
  {
    if index < |items| {
      KeepAllFrom(before, items, index + 1);
    }
  }

  /** Compacting again changes nothing. */
  lemma CompactIdempotent<F(!new)>(before: (F, F) -> bool, items: seq<Range<F>>)
    requires StrictOrder(before)
    ensures Compact(before, Compact(before, items)) == Compact(before, items)
  {
    var compacted := Compact(before, items);
    forall i | 0 <= i < |compacted|
      ensures !Dropped(before, compacted, i)
    {
      forall j | 0 <= j < |compacted|
        ensures !Dominates(before, compacted[j], compacted[i])
      {
        NoneRedundant(before, items, compacted[j], compacted[i]);
      }
    }
    KeepAllFrom(before, compacted, 0);
  }

  /** Only what another range makes redundant is dropped: a range strictly inside none, and first of its equals, is kept. */
  lemma KeptUnlessRedundant<F(!new)>(before: (F, F) -> bool, items: seq<Range<F>>, i: nat)
    requires StrictOrder(before) && i < |items|
    requires forall j :: 0 <= j < |items| && items[j].first <= items[i].first && items[i].last <= items[j].last ==>
               items[j].first == items[i].first && items[j].last == items[i].last && !before(items[j].file, items[i].file)
    ensures items[i] in Compact(before, items)
  {
    KeptFrom(before, items, 0);
    assert !Dropped(before, items, i);
  }
}
