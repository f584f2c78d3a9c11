/**
 * What the grouping queue does with one fragment, one failure and one restart, in terms of its groups: where a fragment
 * goes, how long its group then waits, when a failed group is tried again, and what of a group a restart keeps.
 */
module GroupingFragments {
  import opened Common
  import opened MessageGrouping
  import opened GroupingSafety

  // ---- Where a fragment goes ----

  /** The group a fragment joins: that of its key, else, if it quotes nothing, the only pending group of its base key. */
  ghost predicate Hosts(groups: seq<Group>, input: Input, g: Group) {
    && g in groups
    && (g.key == input.key
        || (&& (forall h :: h in groups ==> h.key != input.key) && (input.replyTo == None || input.replyTo == Some(""))
            && g.baseKey == input.baseKey && g.status == Pending
            && forall h :: h in groups && h.baseKey == input.baseKey && h.status == Pending ==> h == g))
  }

  lemma {:induction false} CandidatesAre(groups: seq<Group>, input: Input)
    requires UniqueKeys(groups)
    ensures forall g :: g in BaseCandidates(groups, input) <==>
              && g in groups && (input.replyTo == None || input.replyTo == Some("")) && g.baseKey == input.baseKey && g.status == Pending
    ensures UniqueKeys(BaseCandidates(groups, input))
  {
    if groups != [] {
      assert groups == [groups[0]] + groups[1..];
      CandidatesAre(groups[1..], input);
      var rest := BaseCandidates(groups[1..], input);
      forall j | 0 <= j < |rest|
        ensures rest[j].key != groups[0].key
      {
        assert rest[j] in groups[1..];
      }
    }
  }

  lemma ExistingIsHost(groups: seq<Group>, input: Input, g: Group)
    requires UniqueKeys(groups)
    ensures Existing(groups, input) == Some(g) <==> Hosts(groups, input, g)
  {
    hide UniqueKeys, BaseCandidates;
    FindIs(groups, input.key);
    CandidatesAre(groups, input);
    var candidates := BaseCandidates(groups, input);
    if |candidates| == 1 {
      assert candidates[0] in candidates;
    } else if |candidates| > 1 {
      TwoCandidates(candidates);
    }
  }

  lemma TwoCandidates(candidates: seq<Group>)
    requires UniqueKeys(candidates) && |candidates| > 1
    ensures candidates[0] in candidates && candidates[1] in candidates && candidates[0] != candidates[1]
  {
  }

  /** A fragment is accepted unless its identity was delivered recently or waits in the group it would join. */
  lemma AcceptedIff(q: Queue, input: Input, now: real, freshId: string)
    requires UniqueKeys(q.groups)
    ensures Enqueue(q, input, now, freshId).accepted <==>
              input.identity !in q.delivered && forall g :: Hosts(q.groups, input, g) ==> input.identity !in Identities(g.items)
    ensures !Enqueue(q, input, now, freshId).accepted ==> Enqueue(q, input, now, freshId).queue == q
  {
    hide Hosts, Existing, UniqueKeys;
    var existing := Existing(q.groups, input);
    if existing.Some? {
      ExistingIsHost(q.groups, input, existing.value);
    }
    forall g | Hosts(q.groups, input, g)
      ensures existing == Some(g)
    {
      ExistingIsHost(q.groups, input, g);
    }
  }

  /** The waits a policy stands for: between 1 and 300 s, with defaults for what is no positive number, in increasing order. */
  lemma PolicyWaits(policy: Policy)
    ensures SettleSeconds(policy) ==
              (if policy.settle == None || policy.settle.value <= 0.0 then 6.0
               else if policy.settle.value < 1.0 then 1.0 else if policy.settle.value > 300.0 then 300.0 else policy.settle.value)
    ensures IncompleteSettleSeconds(policy) >= SettleSeconds(policy) && MaxWaitSeconds(policy) >= IncompleteSettleSeconds(policy)
    ensures var wanted := if policy.incompleteSettle == None || policy.incompleteSettle.value <= 0.0 then 12.0
                          else if policy.incompleteSettle.value < 1.0 then 1.0
                          else if policy.incompleteSettle.value > 300.0 then 300.0 else policy.incompleteSettle.value;
            IncompleteSettleSeconds(policy) == if wanted < SettleSeconds(policy) then SettleSeconds(policy) else wanted
    ensures var wanted := if policy.maxWait == None || policy.maxWait.value <= 0.0 then 20.0
                          else if policy.maxWait.value < 1.0 then 1.0
                          else if policy.maxWait.value > 300.0 then 300.0 else policy.maxWait.value;
            MaxWaitSeconds(policy) == if wanted < IncompleteSettleSeconds(policy) then IncompleteSettleSeconds(policy) else wanted
  {
  }

  /** The group after this fragment: one more item, and delivered after the settle time, but not past its bound. */
  ghost predicate GrownBy(before: Group, after: Group, input: Input, now: real) {
    var wait := if input.incomplete then IncompleteSettleSeconds(input.policy) else SettleSeconds(input.policy);
    var bound := if before.status == Delivering && now + MaxWaitSeconds(input.policy) * 1000.0 > before.maxDeadlineAt
                 then now + MaxWaitSeconds(input.policy) * 1000.0 else before.maxDeadlineAt;
    && after.groupId == before.groupId && after.key == before.key && after.baseKey == before.baseKey
    && after.endpoint == before.endpoint && after.conversationKey == before.conversationKey && after.sender == before.sender
    && after.replyTo == before.replyTo && after.createdAt == before.createdAt && after.attempts == before.attempts
    && after.status == before.status && after.updatedAt == now && after.lastError == None
    && after.items == before.items + [Item(input.identity, now, input.incomplete, input.routeKind, input.body)]
    && after.maxDeadlineAt == bound
    && after.deadlineAt == if now + wait * 1000.0 < bound then now + wait * 1000.0 else bound
  }

  /**
   * Where an accepted fragment ends up: in the group that hosts it, or in a new one of its own key; every other group
   * stays, and the file holds the groups.
   */
  lemma FragmentGoes(q: Queue, input: Input, now: real, freshId: string)
    requires UniqueKeys(q.groups) && Enqueue(q, input, now, freshId).accepted
    ensures var run := Enqueue(q, input, now, freshId);
            && run.queue.disk == Saved(run.queue.groups, run.queue.delivered) && run.queue.delivered == q.delivered
            && forall h :: Hosts(q.groups, input, h) ==>
                 var found := Find(run.queue.groups, h.key);
                 && found.Some? && GrownBy(h, found.value, input, now)
                 && run.groupId == h.groupId && run.itemCount == |h.items| + 1
                 && forall key :: key != h.key ==> Find(run.queue.groups, key) == Find(q.groups, key)
    ensures (forall h :: h in q.groups ==> !Hosts(q.groups, input, h)) ==>
              var run := Enqueue(q, input, now, freshId);
              var found := Find(run.queue.groups, input.key);
              && found.Some? && run.groupId == freshId && run.itemCount == 1
              && GrownBy(Group(freshId, input.key, input.baseKey, input.endpoint, input.conversationKey, input.sender, input.replyTo,
                               now, now, now, now + MaxWaitSeconds(input.policy) * 1000.0, Pending, 0, None, []), found.value, input, now)
              && forall key :: key != input.key ==> Find(run.queue.groups, key) == Find(q.groups, key)
  {
    hide Hosts, Existing, UniqueKeys, Put, Find;
    var existing := Existing(q.groups, input);
    var g := Target(q, input, now, freshId);
    forall key
      ensures Find(Put(q.groups, g), key) == if key == g.key then Some(g) else Find(q.groups, key)
    {
      FindAfterPut(q.groups, g, key);
    }
    forall h | Hosts(q.groups, input, h)
      ensures existing == Some(h)
    {
      ExistingIsHost(q.groups, input, h);
    }
    if existing.Some? {
      ExistingIsHost(q.groups, input, existing.value);
      HostIsGroup(q.groups, input, existing.value);
    }
  }

  lemma HostIsGroup(groups: seq<Group>, input: Input, g: Group)
    requires Hosts(groups, input, g)
    ensures g in groups
  {
  }

  // ---- When a failed group is tried again ----

  /** Milliseconds until the next attempt after this many failed ones. */
  function RetryMilliseconds(attempts: nat): real {
    if attempts <= 1 then 5000.0 else if attempts == 2 then 10000.0 else if attempts == 3 then 20000.0
    else if attempts == 4 then 40000.0 else 60000.0
  }

  lemma RetryTable(attempts: nat)
    requires attempts >= 1
    ensures RetrySeconds(attempts) as real * 1000.0 == RetryMilliseconds(attempts)
  {
    assert Power2(0) == 1 && Power2(1) == 2 && Power2(2) == 4 && Power2(3) == 8 && Power2(4) == 16;
  }

  /** A delivery counts as one more attempt. */
  lemma AttemptCounts(q: Queue, key: string, g: Group)
    requires Shape(q) && Find(q.groups, key) == Some(g) && g.status == Pending
    ensures var begun := BeginFlush(q, key);
            && begun.1 && key in begun.0.flights && begun.0.flights[key] == g.items && key !in begun.0.timers
            && Find(begun.0.groups, key) == Some(g.(status := Delivering, attempts := g.attempts + 1, lastError := None))
            && forall k :: k != key ==> Find(begun.0.groups, k) == Find(q.groups, k)
  {
    hide Find, Put;
    var sending := g.(status := Delivering, attempts := g.attempts + 1, lastError := None);
    assert g.key == key by {
      FindIs(q.groups, key);
    }
    forall k
      ensures Find(Put(q.groups, sending), k) == if k == key then Some(sending) else Find(q.groups, k)
    {
      FindAfterPut(q.groups, sending, k);
    }
  }

  /**
   * A failed delivery leaves its group pending, with every item, until exactly the time its number of attempts gives from
   * now, and pushes its bound no further than that.
   */
  lemma FailureWaits(q: Queue, key: string, g: Group, now: real, error: string)
    requires Shape(q) && key in q.flights && Find(q.groups, key) == Some(g)
    ensures var found := Find(Fail(q, key, now, error).groups, key);
            && found.Some? && found.value.status == Pending && found.value.lastError == Some(error)
            && found.value.items == g.items && found.value.attempts == g.attempts && found.value.createdAt == g.createdAt
            && found.value.deadlineAt == now + RetryMilliseconds(g.attempts)
            && found.value.maxDeadlineAt == (if g.maxDeadlineAt < found.value.deadlineAt then found.value.deadlineAt else g.maxDeadlineAt)
            && key in Fail(q, key, now, error).timers && key !in Fail(q, key, now, error).flights
  {
    hide FlightsMatch, RetrySeconds, RetryMilliseconds;
    var h := FlightGroup(q, key);
    RetryTable(g.attempts);
    FindAfterPut(q.groups, Waiting(g, now, error), key);
  }

  // ---- What of a group a restart keeps ----

  /** Item by item, in order: those with an identity and a route kind. */
  lemma {:induction false} RecoveredInOrder(items: seq<Item>, item: Item)
    ensures RecoverableItems(items + [item])
         == RecoverableItems(items) + if item.identity != "" && item.routeKind != "" then [item] else []
  {
    if items == [] {
      assert items + [item] == [item];
      assert RecoverableItems([]) == [];
    } else {
      assert (items + [item])[1..] == items[1..] + [item];
      RecoveredInOrder(items[1..], item);
    }
  }

  /** A recovered group has everything it had on file, but waits again, and no later than its bound. */
  lemma RestartKeepsGroup(disk: Saved, key: string)
    requires UniqueKeys(disk.pending)
    ensures match Find(disk.pending, key)
            case None => Find(Recover(disk).groups, key) == None && key !in Recover(disk).timers
            case Some(g) =>
              var found := Find(Recover(disk).groups, key);
              && (found.Some? <==>
                    && g.groupId != "" && g.key != "" && g.baseKey != "" && g.endpoint != "" && g.conversationKey != "" && g.sender != ""
                    && exists i :: 0 <= i < |g.items| && g.items[i].identity != "" && g.items[i].routeKind != "")
              && (found.Some? <==> key in Recover(disk).timers)
              && (found.Some? ==>
                    var h := found.value;
                    && h.groupId == g.groupId && h.key == g.key && h.baseKey == g.baseKey && h.endpoint == g.endpoint
                    && h.conversationKey == g.conversationKey && h.sender == g.sender && h.replyTo == g.replyTo
                    && h.createdAt == g.createdAt && h.updatedAt == g.updatedAt && h.attempts == g.attempts
                    && h.lastError == (if g.lastError == Some("") then None else g.lastError)
                    && h.status == Pending && h.items == RecoverableItems(g.items) && h.deadlineAt == g.deadlineAt
                    && h.maxDeadlineAt == if g.maxDeadlineAt < g.deadlineAt then g.deadlineAt else g.maxDeadlineAt)
  {
    hide RestoreGroups, Find, RecoverableItems, UniqueKeys;
    RestoredFinds(disk.pending, key);
    RestoredAreNormalized(disk.pending);
    FindIs(RestoreGroups(disk.pending), key);
    TimersOf(RestoreGroups(disk.pending), key);
    match Find(disk.pending, key)
    case None =>
    case Some(g) => SomeRecoverable(g.items);
  }

  lemma TimersOf(groups: seq<Group>, key: string)
    requires UniqueKeys(groups)
    ensures key in Keys(groups) <==> Find(groups, key).Some?
  {
    FindIs(groups, key);
    if key in Keys(groups) {
      var i :| 0 <= i < |groups| && groups[i].key == key;
      assert groups[i] in groups;
    }
  }

  lemma SomeRecoverable(items: seq<Item>)
    ensures RecoverableItems(items) != [] <==> exists i :: 0 <= i < |items| && items[i].identity != "" && items[i].routeKind != ""
  {
    RecoverableIs(items);
    if RecoverableItems(items) != [] {
      assert RecoverableItems(items)[0] in items;
    }
    if i :| 0 <= i < |items| && items[i].identity != "" && items[i].routeKind != "" {
      assert items[i] in RecoverableItems(items);
    }
  }

  /**
   * What the events of a run stand for: a timer flushes the group it is armed for, a restart has what is on file and
   * nothing else, even right after a delivery that was not recorded, and what was accepted or delivered stays known.
   */
  lemma WhatEventsDo(w: World, e: Event)
    requires UniqueKeys(w.queue.groups)
    ensures e.TimerFires? && e.key in w.queue.timers && (exists g :: g in w.queue.groups && g.key == e.key && g.status == Pending) ==>
              Next(w, e) == Next(w, Flush(e.key))
    ensures e.Crash? || (e.SucceedsThenCrash? && e.key in w.queue.flights) ==> Next(w, e).queue == Recover(w.queue.disk)
    ensures e.Shutdown? ==> Next(w, e).queue == Close(w.queue)
    ensures (e.DeliverySucceeds? || e.SucceedsThenCrash?) && e.key in w.queue.flights ==>
              Next(w, e).done == w.done + Identities(w.queue.flights[e.key])
    ensures e.Arrive? && Enqueue(w.queue, e.input, e.now, e.freshId).accepted ==> Next(w, e).accepted == w.accepted + {e.input.identity}
  {
    hide Recover, Enqueue, Close;
    if e.TimerFires? && e.key in w.queue.timers && exists g :: g in w.queue.groups && g.key == e.key && g.status == Pending {
      FindIs(w.queue.groups, e.key);
      assert w.queue.timers - {e.key} - {e.key} == w.queue.timers - {e.key};
    }
  }

  /** A closed queue has no timers, and its file holds what it held in memory. */
  lemma CloseDisarms(q: Queue)
    ensures Close(q).timers == {} && Close(q).groups == q.groups && Close(q).disk == Saved(q.groups, q.delivered)
  {
  }
}
