/** The newest-first selection of stored messages for an agent packet. */
module RecentMessages {
  import opened Common
  import opened ArchiveRanges
  import opened ConversationView

  type Cost = Record -> nat

  function TotalCost(cost: Cost, records: seq<Record>): nat {
    if records == [] then 0 else TotalCost(cost, records[..|records| - 1]) + cost(records[|records| - 1])
  }

  /** What is chosen from the records, given how many newer ones are chosen already and what they cost. */
  function Select(cost: Cost, records: seq<Record>, limit: nat, maxChars: nat, picked: nat, chars: nat): seq<Record>
    decreases |records|
  {
    if records == [] || picked >= limit then []
    else
      var older, item := records[..|records| - 1], records[|records| - 1];
      if picked > 0 && chars + cost(item) > maxChars then Select(cost, older, limit, maxChars, picked, chars)
      else Select(cost, older, limit, maxChars, picked + 1, chars + cost(item)) + [item]
  }

  function Reverse(records: seq<Record>): seq<Record> {
    if records == [] then [] else Reverse(records[1..]) + [records[0]]
  }

  lemma {:induction false} ReverseSnoc(records: seq<Record>, item: Record)
    ensures Reverse(records + [item]) == [item] + Reverse(records)
  {
    if records == [] {
      assert records + [item] == [item];
      assert Reverse([item]) == Reverse([]) + [item];
    } else {
      ReverseSnoc(records[1..], item);
      assert (records + [item])[1..] == records[1..] + [item];
    }
  }

  method RecentItems(cost: Cost, filtered: seq<Record>, limit: nat, maxChars: nat) returns (recent: seq<Record>)
    ensures recent == Select(cost, filtered, limit, maxChars, 0, 0)
  {
    var selected: seq<Record> := [];
    var chars: nat := 0;
    var index := |filtered|;
    assert filtered[..index] == filtered;
    while index > 0 && |selected| < limit
      invariant 0 <= index <= |filtered|
      invariant Select(cost, filtered, limit, maxChars, 0, 0)
             == Select(cost, filtered[..index], limit, maxChars, |selected|, chars) + Reverse(selected)
    {
      index := index - 1;
      var item := filtered[index];
      assert filtered[..index + 1][..index] == filtered[..index];
      if |selected| > 0 && chars + cost(item) > maxChars {
        continue;
      }
      ReverseSnoc(selected, item);
      selected := selected + [item];
      chars := chars + cost(item);
    }
    recent := Reverse(selected);
  }

  /** Within the limit and the budget; the newest message is always chosen, even when it alone is too long. */
  lemma {:induction false} SelectionBounded(cost: Cost, records: seq<Record>, limit: nat, maxChars: nat, picked: nat, chars: nat)
    requires picked > 0 ==> chars <= maxChars || picked == 1
    ensures var chosen := Select(cost, records, limit, maxChars, picked, chars);
            && |chosen| + picked <= Max(limit, picked)
            && (picked > 0 && chosen != [] ==> chars + TotalCost(cost, chosen) <= maxChars)
            && (picked == 0 ==> |chosen| <= 1 || TotalCost(cost, chosen) <= maxChars)
            && (picked == 0 && limit > 0 && records != [] ==>
                  chosen != [] && chosen[|chosen| - 1] == records[|records| - 1])
    decreases |records|
  {
    if records != [] && picked < limit {
      var older, item := records[..|records| - 1], records[|records| - 1];
      if picked > 0 && chars + cost(item) > maxChars {
        SelectionBounded(cost, older, limit, maxChars, picked, chars);
      } else {
        SelectionBounded(cost, older, limit, maxChars, picked + 1, chars + cost(item));
        var earlier := Select(cost, older, limit, maxChars, picked + 1, chars + cost(item));
        assert (earlier + [item])[..|earlier|] == earlier;
      }
    }
  }

  /** When the budget covers everything, the selection is simply the newest `limit` messages. */
  lemma {:induction false} SelectionIsSuffix(cost: Cost, records: seq<Record>, limit: nat, maxChars: nat, picked: nat, chars: nat)
    requires chars + TotalCost(cost, records) <= maxChars && picked <= limit
    ensures Select(cost, records, limit, maxChars, picked, chars)
         == records[|records| - Min(|records|, limit - picked)..]
    decreases |records|
  {
    if records != [] && picked < limit {
      var older, item := records[..|records| - 1], records[|records| - 1];
      SelectionIsSuffix(cost, older, limit, maxChars, picked + 1, chars + cost(item));
      assert records == older + [item];
    }
  }

  /** The query's filters on adapter, channel, conversation, time and excluded messages. */
  function Matching(keep: Record -> bool, records: seq<Record>): seq<Record> {
    if records == [] then [] else (if keep(records[0]) then [records[0]] else []) + Matching(keep, records[1..])
  }

  /** Reading a store with archives and an ample budget returns the newest messages of its log that match the query. */
  lemma RecentIsLogSuffix(before: Collation, disk: Disk, log: seq<Record>, keep: Record -> bool, cost: Cost, limit: nat, maxChars: nat)
    requires StrictOrder(before) && Refines(disk, log) && TotalCost(cost, Matching(keep, log)) <= maxChars
    ensures var matching := Matching(keep, log);
            Select(cost, Matching(keep, View(before, disk)), limit, maxChars, 0, 0) == matching[|matching| - Min(|matching|, limit)..]
  {
    hide View, Refines, StrictOrder, TotalCost, Select, Matching;
    ViewIsLog(before, disk, log);
    SelectionIsSuffix(cost, Matching(keep, log), limit, maxChars, 0, 0);
  }

  lemma SelectNewest(cost: Cost, item: Record, limit: nat, maxChars: nat, picked: nat, chars: nat)
    ensures Select(cost, [], limit, maxChars, picked, chars) == [] && TotalCost(cost, []) == 0
    ensures Select(cost, [item], limit, maxChars, picked, chars)
         == if picked < limit && (picked == 0 || chars + cost(item) <= maxChars) then [item] else []
  {
    assert [item][..0] == [];
    assert Select(cost, [], limit, maxChars, picked + 1, chars + cost(item)) == [];
  }

  lemma {:induction false} SelectOlder(cost: Cost, records: seq<Record>, k: nat, limit: nat, maxChars: nat, picked: nat, chars: nat)
    requires 0 < k <= |records|
    ensures var newer := Select(cost, records[k..], limit, maxChars, picked, chars);
            var all := Select(cost, records[k - 1..], limit, maxChars, picked, chars);
            var item := records[k - 1];
            all == (if picked + |newer| < limit && (picked + |newer| == 0 || chars + TotalCost(cost, newer) + cost(item) <= maxChars)
                    then [item] else []) + newer
    decreases |records|
  {
    var n := |records|;
    if k == n {
      assert records[k..] == [] && records[k - 1..] == [records[k - 1]];
      SelectNewest(cost, records[k - 1], limit, maxChars, picked, chars);
    } else if picked < limit {
      var last, front := records[n - 1], records[..n - 1];
      assert records[k..][..n - k - 1] == front[k..] && records[k - 1..][..n - k] == front[k - 1..];
      if picked > 0 && chars + cost(last) > maxChars {
        SelectOlder(cost, front, k, limit, maxChars, picked, chars);
      } else {
        SelectOlder(cost, front, k, limit, maxChars, picked + 1, chars + cost(last));
        var newer := Select(cost, front[k..], limit, maxChars, picked + 1, chars + cost(last));
        assert (newer + [last])[..|newer|] == newer;
        assert [records[k - 1]] + newer + [last] == [records[k - 1]] + (newer + [last]);
      }
    }
  }

  /**
   * Which messages are chosen: an older message exactly when fewer than the limit of the newer ones are chosen and it fits
   * into the budget beside them, or none of them is chosen; one that does not fit is passed over, not the end.
   */
  lemma ChosenIff(cost: Cost, records: seq<Record>, k: nat, limit: nat, maxChars: nat)
    requires 0 < k <= |records|
    ensures var newer := Select(cost, records[k..], limit, maxChars, 0, 0);
            var item := records[k - 1];
            Select(cost, records[k - 1..], limit, maxChars, 0, 0) ==
              (if |newer| < limit && (newer == [] || TotalCost(cost, newer) + cost(item) <= maxChars) then [item] else []) + newer
  {
    hide Select, TotalCost;
    SelectOlder(cost, records, k, limit, maxChars, 0, 0);
  }

  /** Matching keeps the messages that pass, in order. */
  lemma {:induction false} MatchingOlder(keep: Record -> bool, records: seq<Record>, item: Record)
    ensures Matching(keep, records + [item]) == Matching(keep, records) + if keep(item) then [item] else []
    decreases |records|
  {
    hide Select, TotalCost, Reverse;
    var all := records + [item];
    if records == [] {
      assert all == [item] && all[1..] == [] && Matching(keep, []) == [];
    } else {
      assert all[0] == records[0] && all[1..] == records[1..] + [item];
      MatchingOlder(keep, records[1..], item);
      var head: seq<Record> := if keep(records[0]) then [records[0]] else [];
      var rest := Matching(keep, records[1..]);
      var tail: seq<Record> := if keep(item) then [item] else [];
      assert head + (rest + tail) == head + rest + tail;
    }
  }
}
