/**
 * A message delivered once is not delivered again: the grouping queue refuses the identities of successful snapshots,
 * across restarts, until 2000 others have been delivered after them.
 */
module GroupingReplay {
  import opened Common
  import opened Ordering
  import opened MessageGrouping
  import opened GroupingSafety

  /** The list remembers this identity, and everything remembered after it is among these others. */
  ghost predicate Remembers(list: seq<string>, id: string, others: set<string>) {
    && Distinct(list)
    && exists i :: 0 <= i < |list| && list[i] == id && forall j :: i < j < |list| ==> list[j] in others
  }

  lemma {:induction false} AddAllKeeps(list: seq<string>, more: seq<string>, id: string, others: set<string>)
    requires Remembers(list, id, others) && forall i :: 0 <= i < |more| ==> more[i] in others || more[i] == id
    ensures Remembers(AddAll(list, more), id, others)
    decreases |more|
  {
    if more != [] {
      var next := if more[0] in list then list else list + [more[0]];
      var i :| 0 <= i < |list| && list[i] == id && forall j :: i < j < |list| ==> list[j] in others;
      assert next[i] == id;
      AddAllKeeps(next, more[1..], id, others);
    }
  }

  lemma {:induction false} AddAllIsDistinct(list: seq<string>, more: seq<string>)
    requires Distinct(list)
    ensures Distinct(AddAll(list, more)) && list <= AddAll(list, more)
    ensures forall x :: x in AddAll(list, more) <==> x in list || x in more
    decreases |more|
  {
    if more != [] {
      assert more == [more[0]] + more[1..];
      AddAllIsDistinct(if more[0] in list then list else list + [more[0]], more[1..]);
    }
  }

  /** Of a list of different identities only the first 2000 from its end matter, so one with fewer others behind it stays. */
  lemma SuffixKeeps(list: seq<string>, id: string, others: set<string>, n: nat)
    requires Remembers(list, id, others) && |others| < 2000 && id !in others && n <= |list| && |list| - n >= 2000
    ensures Remembers(list[n..], id, others)
  {
    var i :| 0 <= i < |list| && list[i] == id && forall j :: i < j < |list| ==> list[j] in others;
    FewBehind(list[i + 1..], others);
    assert i >= n;
    assert list[n..][i - n] == id;
  }

  lemma {:induction false} FewBehind(list: seq<string>, others: set<string>)
    requires Distinct(list) && forall i :: 0 <= i < |list| ==> list[i] in others
    ensures |list| <= |others|
  {
    if list != [] {
      FewBehind(list[1..], others - {list[0]});
    }
  }

  /** Trimming takes identities off the front, down to 2000. */
  lemma {:induction false} TrimIs(list: seq<string>)
    ensures exists n :: 0 <= n <= |list| && Trim(list) == list[n..] && (n > 0 ==> |list| - n >= 2000)
    ensures |Trim(list)| <= 2000 || Trim(list)[0] == ""
    decreases |list|
  {
    if |list| > DELIVERED_WINDOW && list[0] != "" {
      TrimIs(list[1..]);
      var n :| 0 <= n <= |list[1..]| && Trim(list[1..]) == list[1..][n..] && (n > 0 ==> |list[1..]| - n >= 2000);
      assert list[1..][n..] == list[n + 1..];
    } else {
      assert Trim(list) == list[0..];
    }
  }

  lemma TrimKeeps(list: seq<string>, id: string, others: set<string>)
    requires Remembers(list, id, others) && |others| < 2000 && id !in others
    ensures Remembers(Trim(list), id, others)
  {
    TrimIs(list);
    var n :| 0 <= n <= |list| && Trim(list) == list[n..] && (n > 0 ==> |list| - n >= 2000);
    if n > 0 {
      SuffixKeeps(list, id, others, n);
    } else {
      assert list[0..] == list;
    }
  }

  lemma {:induction false} NonEmptyAre(list: seq<string>)
    ensures forall x :: x in KeepNonEmpty(list) <==> x in list && x != ""
    ensures Distinct(list) ==> Distinct(KeepNonEmpty(list))
  {
    if list != [] {
      assert list == [list[0]] + list[1..];
      NonEmptyAre(list[1..]);
      var rest := KeepNonEmpty(list[1..]);
      if Distinct(list) {
        forall j | 0 <= j < |rest|
          ensures rest[j] != list[0]
        {
          assert rest[j] in list[1..];
        }
      }
    }
  }

  lemma {:induction false} NonEmptyKeeps(list: seq<string>, id: string, others: set<string>)
    requires Remembers(list, id, others) && id != ""
    ensures Remembers(KeepNonEmpty(list), id, others)
  {
    NonEmptyAre(list);
    var rest := KeepNonEmpty(list[1..]);
    assert list == [list[0]] + list[1..];
    if list[0] == id {
      NonEmptyAre(list[1..]);
      assert KeepNonEmpty(list) == [id] + rest;
      var i :| 0 <= i < |list| && list[i] == id && forall j :: i < j < |list| ==> list[j] in others;
      assert i == 0;
      forall j | 0 <= j < |rest|
        ensures rest[j] in others
      {
        assert rest[j] in list[1..];
        var k :| 0 <= k < |list[1..]| && list[1..][k] == rest[j];
        assert list[k + 1] in others;
      }
      assert KeepNonEmpty(list)[0] == id;
    } else {
      RestRemembers(list, id, others);
      NonEmptyKeeps(list[1..], id, others);
      var i :| 0 <= i < |rest| && rest[i] == id && forall j :: i < j < |rest| ==> rest[j] in others;
      assert KeepNonEmpty(list)[|KeepNonEmpty(list)| - |rest| + i] == id;
    }
  }

  lemma RestRemembers(list: seq<string>, id: string, others: set<string>)
    requires Remembers(list, id, others) && list[0] != id
    ensures Remembers(list[1..], id, others)
  {
    var i :| 0 <= i < |list| && list[i] == id && forall j :: i < j < |list| ==> list[j] in others;
    assert list[1..][i - 1] == id;
  }

  lemma LastNKeeps(list: seq<string>, id: string, others: set<string>)
    requires Remembers(list, id, others) && |others| < 2000 && id !in others
    ensures Remembers(LastN(list, DELIVERED_WINDOW), id, others)
  {
    if |list| > DELIVERED_WINDOW {
      SuffixKeeps(list, id, others, |list| - DELIVERED_WINDOW);
    }
  }

  lemma {:induction false} AddDistinct(list: seq<string>, more: seq<string>)
    requires Distinct(list + more)
    ensures AddAll(list, more) == list + more
    decreases |more|
  {
    if more == [] {
      assert list + more == list;
    } else {
      assert (list + more)[|list|] == more[0];
      assert more[0] !in list by {
        forall i | 0 <= i < |list|
          ensures list[i] != more[0]
        {
          assert (list + more)[i] == list[i];
        }
      }
      assert list + [more[0]] + more[1..] == list + more;
      AddDistinct(list + [more[0]], more[1..]);
    }
  }

  /** A restart reads the remembered identities back. */
  lemma RecoverKeeps(disk: Saved, id: string, others: set<string>)
    requires Remembers(disk.delivered, id, others) && |others| < 2000 && id !in others && id != ""
    ensures Remembers(Recover(disk).delivered, id, others)
  {
    hide Remembers, KeepNonEmpty;
    var kept := KeepNonEmpty(disk.delivered);
    NonEmptyKeeps(disk.delivered, id, others);
    LastNKeeps(kept, id, others);
    RemembersIsDistinct(LastN(kept, DELIVERED_WINDOW), id, others);
    assert [] + LastN(kept, DELIVERED_WINDOW) == LastN(kept, DELIVERED_WINDOW);
    AddDistinct([], LastN(kept, DELIVERED_WINDOW));
  }

  lemma RemembersIsDistinct(list: seq<string>, id: string, others: set<string>)
    requires Remembers(list, id, others)
    ensures Distinct(list) && id in list
  {
  }

  // ---- Runs ----

  /** The identities of the snapshots whose delivery succeeds in this run and is recorded. */
  function DeliveredIn(w: World, events: seq<Event>): set<string>
    decreases |events|
  {
    if events == [] then {}
    else
      var now := if events[0].DeliverySucceeds? && events[0].key in w.queue.flights then Identities(w.queue.flights[events[0].key]) else {};
      now + DeliveredIn(Next(w, events[0]), events[1..])
  }

  /** In memory and on file. */
  ghost predicate Known(q: Queue, id: string, others: set<string>) {
    Remembers(q.delivered, id, others) && Remembers(q.disk.delivered, id, others)
  }

  lemma SuccessKeepsKnown(q: Queue, key: string, id: string, others: set<string>)
    requires Shape(q) && key in q.flights && Known(q, id, others)
    requires |others| < 2000 && id !in others && Identities(q.flights[key]) <= others + {id}
    ensures Known(Succeed(q, key), id, others)
  {
    hide Shape, Remembers;
    var g := FlightGroup(q, key);
    var ids := IdentityList(q.flights[key]);
    forall i | 0 <= i < |ids|
      ensures ids[i] in others || ids[i] == id
    {
      assert q.flights[key][i].identity in Identities(q.flights[key]);
    }
    AddAllKeeps(q.delivered, ids, id, others);
    TrimKeeps(AddAll(q.delivered, ids), id, others);
    SuccessDelivered(q, key);
  }

  /** A success remembers the identities of its snapshot, in memory and on file. */
  lemma SuccessDelivered(q: Queue, key: string)
    requires Shape(q) && key in q.flights
    ensures Succeed(q, key).delivered == Trim(AddAll(q.delivered, IdentityList(q.flights[key])))
    ensures Succeed(q, key).disk.delivered == Succeed(q, key).delivered
  {
    hide Trim, AddAll, Put, Remove, WithoutIdentities, FlightsMatch;
    var g := FlightGroup(q, key);
  }

  lemma OtherStepKeepsKnown(w: World, e: Event, id: string, others: set<string>)
    requires Known(w.queue, id, others) && !(e.DeliverySucceeds? && e.key in w.queue.flights)
    requires |others| < 2000 && id !in others && id != ""
    ensures Known(Next(w, e).queue, id, others)
  {
    hide Remembers, Put, Existing, Joined, NormalizeGroup, RestoreGroups, KeepNonEmpty;
    if e.Crash? || e.SucceedsThenCrash? {
      RecoverKeeps(w.queue.disk, id, others);
    }
  }

  lemma {:induction false} RunKeepsKnown(w: World, events: seq<Event>, id: string, others: set<string>)
    requires Shape(w.queue) && Known(w.queue, id, others) && id !in others && id != ""
    requires |others| < 2000 && DeliveredIn(w, events) <= others + {id}
    ensures Known(Run(w, events).queue, id, others)
    decreases |events|
  {
    hide Shape, Known, Next;
    if events != [] {
      var e := events[0];
      StepKeepsShape(w, e);
      if e.DeliverySucceeds? && e.key in w.queue.flights {
        SuccessKeepsKnown(w.queue, e.key, id, others);
        SuccessStep(w, e.key);
      } else {
        OtherStepKeepsKnown(w, e, id, others);
      }
      RunKeepsKnown(Next(w, e), events[1..], id, others);
    }
  }

  lemma SuccessStep(w: World, key: string)
    requires key in w.queue.flights
    ensures Next(w, DeliverySucceeds(key)).queue == Succeed(w.queue, key)
  {
  }

  /** The identities of the items that come after this one in the snapshot. */
  function After(sent: seq<Item>, id: string): set<string> {
    if sent == [] then {} else if sent[0].identity == id then Identities(sent[1..]) else After(sent[1..], id)
  }

  lemma {:induction false} AddingRemembers(list: seq<string>, sent: seq<Item>, id: string)
    requires Distinct(list) && id !in list && id in Identities(sent)
    ensures Remembers(AddAll(list, IdentityList(sent)), id, After(sent, id) - {id})
    decreases |sent|
  {
    var ids := IdentityList(sent);
    assert ids[1..] == IdentityList(sent[1..]);
    var next := if ids[0] in list then list else list + [ids[0]];
    if sent[0].identity == id {
      var others := Identities(sent[1..]) - {id};
      assert next[|list|] == id;
      assert Remembers(next, id, others);
      forall i | 0 <= i < |ids[1..]|
        ensures ids[1..][i] in others || ids[1..][i] == id
      {
        assert sent[1..][i].identity in Identities(sent[1..]);
      }
      AddAllKeeps(next, ids[1..], id, others);
    } else {
      var i :| 0 <= i < |sent| && sent[i].identity == id;
      assert sent[1..][i - 1].identity in Identities(sent[1..]);
      AddingRemembers(next, sent[1..], id);
    }
  }

  /** An identity just delivered for the first time is remembered, with only its successors in the snapshot behind it. */
  lemma SuccessRemembers(q: Queue, key: string, id: string, others: set<string>)
    requires Shape(q) && Distinct(q.delivered) && key in q.flights && id in Identities(q.flights[key]) && id !in q.delivered
    requires After(q.flights[key], id) <= others + {id} && id !in others && |others| < 2000
    ensures Known(Succeed(q, key), id, others)
  {
    hide Shape, Trim, AddAll, After;
    AddingRemembers(q.delivered, q.flights[key], id);
    var added := AddAll(q.delivered, IdentityList(q.flights[key]));
    assert Remembers(added, id, others) by {
      MoreOthers(added, id, After(q.flights[key], id) - {id}, others);
    }
    TrimKeeps(added, id, others);
    SuccessDelivered(q, key);
  }

  lemma MoreOthers(list: seq<string>, id: string, few: set<string>, others: set<string>)
    requires Remembers(list, id, few) && few <= others
    ensures Remembers(list, id, others)
  {
  }

  /**
   * No message is taken twice: after a recorded success every later fragment with an identity of its snapshot is refused,
   * in every run with restarts, while fewer than 2000 other identities have been delivered after it.
   */
  lemma DeliveredIsRefused(w: World, key: string, events: seq<Event>, input: Input, now: real, freshId: string)
    requires Shape(w.queue) && Distinct(w.queue.delivered) && key in w.queue.flights
    requires input.identity in Identities(w.queue.flights[key]) && input.identity !in w.queue.delivered && input.identity != ""
    requires var others := After(w.queue.flights[key], input.identity) + DeliveredIn(Next(w, DeliverySucceeds(key)), events);
             |others - {input.identity}| < 2000
    ensures var q := Run(Next(w, DeliverySucceeds(key)), events).queue;
            Enqueue(q, input, now, freshId) == Enqueued(q, "", false, 0)
  {
    hide Shape, Next, Run, DeliveredIn, After, Known;
    var id, landed := input.identity, Next(w, DeliverySucceeds(key));
    var others := After(w.queue.flights[key], id) + DeliveredIn(landed, events) - {id};
    SuccessRemembers(w.queue, key, id, others);
    SuccessStep(w, key);
    StepKeepsShape(w, DeliverySucceeds(key));
    RunKeepsKnown(landed, events, id, others);
    KnownIsRefused(Run(landed, events).queue, id, others, input, now, freshId);
  }

  lemma KnownIsRefused(q: Queue, id: string, others: set<string>, input: Input, now: real, freshId: string)
    requires Known(q, id, others) && input.identity == id
    ensures Enqueue(q, input, now, freshId) == Enqueued(q, "", false, 0)
  {
  }

  /** What the list holds behind position `i`. */
  function Behind(list: seq<string>, i: nat): set<string> {
    set j | i < j < |list| :: list[j]
  }

  /** What was remembered before stays refused as well, counting whatever was remembered after it. */
  lemma RememberedIsRefused(w: World, events: seq<Event>, input: Input, now: real, freshId: string, i: nat)
    requires Shape(w.queue) && Distinct(w.queue.delivered) && w.queue.disk.delivered == w.queue.delivered
    requires i < |w.queue.delivered| && w.queue.delivered[i] == input.identity && input.identity != ""
    requires |Behind(w.queue.delivered, i) + DeliveredIn(w, events) - {input.identity}| < 2000
    ensures Enqueue(Run(w, events).queue, input, now, freshId).accepted == false
  {
    hide Shape, Run, DeliveredIn;
    var id := input.identity;
    var others := Behind(w.queue.delivered, i) + DeliveredIn(w, events) - {id};
    assert forall j :: i < j < |w.queue.delivered| ==> w.queue.delivered[j] in Behind(w.queue.delivered, i);
    RunKeepsKnown(w, events, id, others);
    KnownIsRefused(Run(w, events).queue, id, others, input, now, freshId);
  }

  /** Every step keeps the remembered identities different. */
  lemma StepKeepsDistinct(w: World, e: Event)
    requires Shape(w.queue) && Distinct(w.queue.delivered)
    ensures Distinct(Next(w, e).queue.delivered)
  {
    hide Shape, AddAll, Trim, Put, Existing, Joined, RestoreGroups, KeepNonEmpty;
    match e
    case DeliverySucceeds(key) =>
      if key in w.queue.flights {
        SuccessDelivered(w.queue, key);
        SuccessStep(w, key);
        AddAllIsDistinct(w.queue.delivered, IdentityList(w.queue.flights[key]));
        TrimIs(AddAll(w.queue.delivered, IdentityList(w.queue.flights[key])));
      }
    case SucceedsThenCrash(key) => StartIsDistinct(w.queue.disk);
    case Crash => StartIsDistinct(w.queue.disk);
    case _ =>
  }

  lemma StartIsDistinct(disk: Saved)
    ensures Distinct(Recover(disk).delivered)
  {
    AddAllIsDistinct([], LastN(KeepNonEmpty(disk.delivered), DELIVERED_WINDOW));
  }

  /** After a success at most 2000 identities are remembered, unless the oldest is empty, which stops the trimming. */
  lemma WindowIsBounded(q: Queue, key: string)
    requires Shape(q) && key in q.flights
    ensures |Succeed(q, key).delivered| <= 2000 || Succeed(q, key).delivered[0] == ""
  {
    SuccessDelivered(q, key);
    TrimIs(AddAll(q.delivered, IdentityList(q.flights[key])));
  }
}
