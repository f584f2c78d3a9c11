/**
 * The grouping queue loses no message: what every operation keeps, over runs of arrivals, deliveries, failures,
 * crashes and restarts, for any input.
 */
module GroupingSafety {
  import opened Common
  import opened MessageGrouping

  // ---- Deliveries under way ----

  /** Deliveries under way are exactly those of delivering groups, whose items begin with the snapshot. */
  ghost predicate FlightsMatch(groups: seq<Group>, flights: map<string, seq<Item>>) {
    && (forall g :: g in groups && g.status == Delivering ==> g.key in flights && flights[g.key] <= g.items && g.attempts >= 1)
    && (forall key :: key in flights ==> exists g :: g in groups && g.key == key && g.status == Delivering)
  }

  /** What the queue keeps whatever its inputs and its state file hold. */
  ghost predicate Shape(q: Queue) {
    UniqueKeys(q.groups) && FlightsMatch(q.groups, q.flights)
  }

  /** Replacing a group by one of the same status and attempts that only gained items. */
  lemma GrownGroupKeepsFlights(q: Queue, g: Group)
    requires UniqueKeys(q.groups) && FlightsMatch(q.groups, q.flights)
    requires match Find(q.groups, g.key)
             case Some(h) => h.status == g.status && h.attempts == g.attempts && h.items <= g.items
             case None => g.status == Pending
    ensures FlightsMatch(Put(q.groups, g), q.flights)
  {
    var groups := Put(q.groups, g);
    FindIs(q.groups, g.key);
    PutIs(q.groups, g);
    forall key | key in q.flights
      ensures exists h :: h in groups && h.key == key && h.status == Delivering
    {
      var h :| h in q.groups && h.key == key && h.status == Delivering;
      assert if h.key == g.key then g in groups else h in groups;
    }
  }

  /** The group an accepted fragment joins keeps its key, status and fields and gains one item. */
  lemma TargetGrows(q: Queue, input: Input, now: real, freshId: string)
    requires UniqueKeys(q.groups) && Enqueue(q, input, now, freshId).accepted
    ensures var g := Target(q, input, now, freshId);
            match Find(q.groups, g.key)
            case Some(h) =>
              && h in q.groups && g == Joined(h, input, now) && HasKeyFields(g) == HasKeyFields(h)
              && h.status == g.status && h.attempts == g.attempts && h.items <= g.items && input.identity !in Identities(h.items)
            case None => g == Joined(NewGroup(input, now, freshId), input, now)
  {
    var existing := Existing(q.groups, input);
    ExistingIsGroup(q.groups, input);
    FindIs(q.groups, if existing.Some? then existing.value.key else input.key);
  }

  lemma EnqueueKeepsShape(q: Queue, input: Input, now: real, freshId: string)
    requires Shape(q)
    ensures Shape(Enqueue(q, input, now, freshId).queue)
  {
    hide Existing, Joined, FlightsMatch, UniqueKeys;
    if Enqueue(q, input, now, freshId).accepted {
      var g := Target(q, input, now, freshId);
      TargetGrows(q, input, now, freshId);
      NewGroupIsPending(q, input, now, freshId);
      PutIs(q.groups, g);
      GrownGroupKeepsFlights(q, g);
    }
  }

  lemma NewGroupIsPending(q: Queue, input: Input, now: real, freshId: string)
    ensures Joined(NewGroup(input, now, freshId), input, now).status == Pending
  {
  }

  lemma BeginKeepsFlights(groups: seq<Group>, flights: map<string, seq<Item>>, g: Group)
    requires UniqueKeys(groups) && FlightsMatch(groups, flights)
    requires g.status == Delivering && g.attempts >= 1
    ensures FlightsMatch(Put(groups, g), flights[g.key := g.items])
  {
    var put := Put(groups, g);
    PutIs(groups, g);
    var more := flights[g.key := g.items];
    forall key | key in more
      ensures exists h :: h in put && h.key == key && h.status == Delivering
    {
      if key == g.key {
        assert g in put;
      } else {
        var h :| h in groups && h.key == key && h.status == Delivering;
        assert h in put;
      }
    }
  }

  /** When a delivery ends, its group is pending again or gone, and its flight is over. */
  lemma EndKeepsFlights(groups: seq<Group>, flights: map<string, seq<Item>>, key: string, after: seq<Group>)
    requires UniqueKeys(groups) && FlightsMatch(groups, flights)
    requires forall h :: h in after && h.key != key <==> h in groups && h.key != key
    requires forall h :: h in after && h.key == key ==> h.status == Pending
    ensures FlightsMatch(after, flights - {key})
  {
    forall k | k in flights - {key}
      ensures exists h :: h in after && h.key == k && h.status == Delivering
    {
      var h :| h in groups && h.key == k && h.status == Delivering;
      assert h in after && h.key != key;
    }
  }

  lemma BeginKeepsShape(q: Queue, key: string)
    requires Shape(q)
    ensures Shape(BeginFlush(q, key).0)
  {
    hide FlightsMatch, UniqueKeys;
    FindIs(q.groups, key);
    if BeginFlush(q, key).1 {
      var g := Find(q.groups, key).value;
      var sending := g.(status := Delivering, attempts := g.attempts + 1, lastError := None);
      PutIs(q.groups, sending);
      BeginKeepsFlights(q.groups, q.flights, sending);
    }
  }

  /** The group a delivery under way belongs to. */
  lemma FlightGroup(q: Queue, key: string) returns (g: Group)
    requires Shape(q) && key in q.flights
    ensures Find(q.groups, key) == Some(g) && g in q.groups && g.key == key
    ensures g.status == Delivering && g.attempts >= 1 && q.flights[key] <= g.items
  {
    g :| g in q.groups && g.key == key && g.status == Delivering;
    FindIs(q.groups, key);
  }

  /** What is left of a group after its delivery succeeded. */
  function Remainder(g: Group, sent: seq<Item>): Group {
    var items := WithoutIdentities(g.items, Identities(sent));
    g.(items := items, status := Pending, attempts := 0, lastError := None,
       createdAt := if items == [] then g.createdAt else items[0].receivedAt)
  }

  lemma SucceedKeepsShape(q: Queue, key: string)
    requires Shape(q) && key in q.flights
    ensures Shape(Succeed(q, key))
  {
    hide FlightsMatch, UniqueKeys, Trim, AddAll;
    var g := FlightGroup(q, key);
    var rest := Remainder(g, q.flights[key]);
    RemoveIs(q.groups, key);
    PutIs(q.groups, rest);
    EndKeepsFlights(q.groups, q.flights, key, Succeed(q, key).groups);
  }

  lemma FailKeepsShape(q: Queue, key: string, now: real, error: string)
    requires Shape(q) && key in q.flights
    ensures Shape(Fail(q, key, now, error))
  {
    hide FlightsMatch, UniqueKeys, RetrySeconds;
    var g := FlightGroup(q, key);
    PutIs(q.groups, Waiting(g, now, error));
    EndKeepsFlights(q.groups, q.flights, key, Put(q.groups, Waiting(g, now, error)));
  }

  /** A queue started on any state file has this shape, and no group of it is being delivered. */
  lemma {:induction false} RestoredAreNormalized(pending: seq<Group>)
    ensures forall g :: g in RestoreGroups(pending) ==> NormalizeGroup(g) == Some(g) && g.status == Pending
    ensures forall g :: g in RestoreGroups(pending) ==> exists h :: h in pending && NormalizeGroup(h) == Some(g)
    ensures UniqueKeys(RestoreGroups(pending))
    decreases |pending|
  {
    if pending != [] {
      var front, last := pending[..|pending| - 1], pending[|pending| - 1];
      assert pending == front + [last];
      RestoredAreNormalized(front);
      match NormalizeGroup(last)
      case None =>
      case Some(group) =>
        NormalizedTwice(last);
        PutIs(RestoreGroups(front), group);
    }
  }

  lemma {:induction false} RecoverableIs(items: seq<Item>)
    ensures forall x :: x in RecoverableItems(items) <==> x in items && x.identity != "" && x.routeKind != ""
    ensures (forall x :: x in items ==> x.identity != "" && x.routeKind != "") ==> RecoverableItems(items) == items
    ensures DistinctItems(items) ==> DistinctItems(RecoverableItems(items))
  {
    if items != [] {
      assert items == [items[0]] + items[1..];
      RecoverableIs(items[1..]);
      var rest := RecoverableItems(items[1..]);
      if DistinctItems(items) {
        forall j | 0 <= j < |rest|
          ensures rest[j].identity != items[0].identity
        {
          assert rest[j] in items[1..];
        }
      }
    }
  }

  lemma NormalizedTwice(g: Group)
    requires NormalizeGroup(g).Some?
    ensures NormalizeGroup(NormalizeGroup(g).value) == NormalizeGroup(g) && NormalizeGroup(g).value.key == g.key
  {
    RecoverableIs(g.items);
    RecoverableIs(RecoverableItems(g.items));
  }

  lemma RecoverIsShaped(disk: Saved)
    ensures Shape(Recover(disk))
  {
    RestoredAreNormalized(disk.pending);
  }

  lemma StepKeepsShape(w: World, e: Event)
    requires Shape(w.queue)
    ensures Shape(Next(w, e).queue)
  {
    hide FlightsMatch, UniqueKeys, Enqueue, BeginFlush, Succeed, Fail, Recover;
    var q := w.queue;
    match e
    case Arrive(input, now, freshId) => EnqueueKeepsShape(q, input, now, freshId);
    case Flush(key) => BeginKeepsShape(q, key);
    case TimerFires(key) => BeginKeepsShape(q.(timers := q.timers - {key}), key);
    case DeliverySucceeds(key) => if key in q.flights { SucceedKeepsShape(q, key); }
    case DeliveryFails(key, now, error) => if key in q.flights { FailKeepsShape(q, key, now, error); }
    case SucceedsThenCrash(key) => RecoverIsShaped(q.disk);
    case Crash => RecoverIsShaped(q.disk);
    case Shutdown =>
  }

  // ---- Items are distinct, deadlines bounded, and the file in step ----

  ghost predicate DistinctItems(items: seq<Item>) {
    forall i, j :: 0 <= i < j < |items| ==> items[i].identity != items[j].identity
  }

  /** No identity twice, and no deadline past the group's own bound. */
  ghost predicate GoodGroup(g: Group) {
    DistinctItems(g.items) && g.deadlineAt <= g.maxDeadlineAt
  }

  ghost predicate GoodGroups(groups: seq<Group>) {
    forall g :: g in groups ==> GoodGroup(g)
  }

  /** A restart would recover the same groups from the file as from memory. */
  ghost predicate InStep(q: Queue) {
    RestoreGroups(q.groups) == RestoreGroups(q.disk.pending)
  }

  ghost predicate Inv(q: Queue) {
    Shape(q) && GoodGroups(q.groups) && InStep(q)
  }

  lemma JoinedIsGood(g: Group, input: Input, now: real)
    requires GoodGroup(g) || g.items == []
    requires input.identity !in Identities(g.items)
    ensures GoodGroup(Joined(g, input, now))
  {
    var items := Joined(g, input, now).items;
    forall i, j | 0 <= i < j < |items|
      ensures items[i].identity != items[j].identity
    {
      if j == |g.items| {
        assert items[i] == g.items[i] && g.items[i].identity in Identities(g.items);
      }
    }
  }

  lemma EnqueueKeepsGood(q: Queue, input: Input, now: real, freshId: string)
    requires Shape(q) && GoodGroups(q.groups)
    ensures GoodGroups(Enqueue(q, input, now, freshId).queue.groups)
  {
    hide Existing, Joined, FlightsMatch;
    if Enqueue(q, input, now, freshId).accepted {
      var g := Target(q, input, now, freshId);
      TargetGrows(q, input, now, freshId);
      JoinedIsGood(match Find(q.groups, g.key) case Some(h) => h case None => NewGroup(input, now, freshId), input, now);
      PutIs(q.groups, g);
    }
  }

  lemma {:induction false} NoneWithout(items: seq<Item>, gone: set<string>)
    ensures (forall i :: 0 <= i < |items| ==> items[i].identity !in gone) ==> WithoutIdentities(items, gone) == items
    ensures (forall i :: 0 <= i < |items| ==> items[i].identity in gone) ==> WithoutIdentities(items, gone) == []
  {
    if items != [] {
      NoneWithout(items[1..], gone);
    }
  }

  lemma {:induction false} WithoutSplits(a: seq<Item>, b: seq<Item>, gone: set<string>)
    ensures WithoutIdentities(a + b, gone) == WithoutIdentities(a, gone) + WithoutIdentities(b, gone)
  {
    if a == [] {
      assert a + b == b;
    } else {
      WithoutSplits(a[1..], b, gone);
      assert (a + b)[1..] == a[1..] + b && (a + b)[0] == a[0];
      var head: seq<Item> := if a[0].identity in gone then [] else [a[0]];
      var x, y := WithoutIdentities(a[1..], gone), WithoutIdentities(b, gone);
      assert head + (x + y) == head + x + y;
      assert WithoutIdentities(a + b, gone) == head + WithoutIdentities((a + b)[1..], gone);
    }
  }

  /** Removing the identities of a delivered snapshot leaves exactly what was appended since, in order. */
  lemma RemainderIsAppended(sent: seq<Item>, items: seq<Item>)
    requires sent <= items && DistinctItems(items)
    ensures WithoutIdentities(items, Identities(sent)) == items[|sent|..]
  {
    var appended := items[|sent|..];
    assert items == sent + appended;
    WithoutSplits(sent, appended, Identities(sent));
    NoneWithout(sent, Identities(sent));
    forall i | 0 <= i < |appended|
      ensures appended[i].identity !in Identities(sent)
    {
      forall j | 0 <= j < |sent|
        ensures sent[j].identity != appended[i].identity
      {
        assert sent[j] == items[j] && appended[i] == items[|sent| + i];
      }
    }
    NoneWithout(appended, Identities(sent));
  }

  lemma SucceedKeepsGood(q: Queue, key: string)
    requires Shape(q) && GoodGroups(q.groups) && key in q.flights
    ensures GoodGroups(Succeed(q, key).groups)
  {
    hide FlightsMatch, Trim, AddAll;
    var g := FlightGroup(q, key);
    assert GoodGroup(g);
    RemainderIsAppended(q.flights[key], g.items);
    RemoveIs(q.groups, key);
    PutIs(q.groups, Remainder(g, q.flights[key]));
  }

  lemma BeginKeepsGood(q: Queue, key: string)
    requires Shape(q) && GoodGroups(q.groups)
    ensures GoodGroups(BeginFlush(q, key).0.groups)
  {
    hide FlightsMatch, DistinctItems;
    FindIs(q.groups, key);
    if BeginFlush(q, key).1 {
      var g := Find(q.groups, key).value;
      assert GoodGroup(g);
      PutIs(q.groups, g.(status := Delivering, attempts := g.attempts + 1, lastError := None));
    }
  }

  lemma FailKeepsGood(q: Queue, key: string, now: real, error: string)
    requires Shape(q) && GoodGroups(q.groups) && key in q.flights
    ensures GoodGroups(Fail(q, key, now, error).groups)
  {
    hide FlightsMatch, DistinctItems, RetrySeconds;
    var g := FlightGroup(q, key);
    assert GoodGroup(g);
    PutIs(q.groups, Waiting(g, now, error));
  }

  lemma RecoverKeepsGood(q: Queue)
    requires Inv(q)
    ensures GoodGroups(Recover(q.disk).groups)
  {
    RestoredAreNormalized(q.groups);
    forall g | g in RestoreGroups(q.groups)
      ensures GoodGroup(g)
    {
      var h :| h in q.groups && NormalizeGroup(h) == Some(g);
      assert GoodGroup(h);
      RecoverableIs(h.items);
    }
  }

  /** A restart of what a restart brought back changes nothing. */
  lemma {:induction false} RestoringNormalized(groups: seq<Group>)
    requires UniqueKeys(groups) && forall g :: g in groups ==> NormalizeGroup(g) == Some(g)
    ensures RestoreGroups(groups) == groups
    decreases |groups|
  {
    if groups != [] {
      var front, last := groups[..|groups| - 1], groups[|groups| - 1];
      assert groups == front + [last];
      RestoringNormalized(front);
      PutIs(front, last);
    }
  }

  lemma RecoverIsInStep(disk: Saved)
    ensures InStep(Recover(disk))
  {
    RestoredAreNormalized(disk.pending);
    RestoringNormalized(RestoreGroups(disk.pending));
  }

  lemma StepKeepsInStep(w: World, e: Event)
    requires InStep(w.queue)
    ensures InStep(Next(w, e).queue)
  {
    hide Existing, Joined, Put, Remove, NormalizeGroup, RestoreGroups, Trim, AddAll, WithoutIdentities;
    if e.Crash? || e.SucceedsThenCrash? {
      RecoverIsInStep(w.queue.disk);
    }
  }

  lemma StepKeepsGood(w: World, e: Event)
    requires Inv(w.queue)
    ensures GoodGroups(Next(w, e).queue.groups)
  {
    hide FlightsMatch, UniqueKeys, GoodGroup, Enqueue, BeginFlush, Succeed, Fail, Recover, InStep;
    var q := w.queue;
    match e
    case Arrive(input, now, freshId) => EnqueueKeepsGood(q, input, now, freshId);
    case Flush(key) => BeginKeepsGood(q, key);
    case TimerFires(key) => BeginKeepsGood(q.(timers := q.timers - {key}), key);
    case DeliverySucceeds(key) => if key in q.flights { SucceedKeepsGood(q, key); }
    case DeliveryFails(key, now, error) => if key in q.flights { FailKeepsGood(q, key, now, error); }
    case SucceedsThenCrash(key) => RecoverKeepsGood(q);
    case Crash => RecoverKeepsGood(q);
    case Shutdown =>
  }

  lemma StepKeepsInv(w: World, e: Event)
    requires Inv(w.queue)
    ensures Inv(Next(w, e).queue)
  {
    hide Next, Shape, GoodGroups, InStep;
    StepKeepsShape(w, e);
    StepKeepsGood(w, e);
    StepKeepsInStep(w, e);
  }

  lemma {:induction false} RunKeepsInv(w: World, events: seq<Event>)
    requires Inv(w.queue)
    ensures Inv(Run(w, events).queue)
    decreases |events|
  {
    hide Inv, Next;
    if events != [] {
      StepKeepsInv(w, events[0]);
      RunKeepsInv(Next(w, events[0]), events[1..]);
    }
  }

  // ---- What ends a delivery ----

  /** After a successful delivery the group holds exactly the items appended meanwhile, or is gone. */
  lemma SucceedKeepsAppended(q: Queue, key: string)
    requires Inv(q) && key in q.flights
    ensures Find(q.groups, key).Some? && |q.flights[key]| <= |Find(q.groups, key).value.items|
    ensures var rest := Find(q.groups, key).value.items[|q.flights[key]|..];
            match Find(Succeed(q, key).groups, key)
            case None => rest == []
            case Some(g) => rest != [] && g.items == rest && g.status == Pending && g.attempts == 0
  {
    var g := FlightGroup(q, key);
    RemainderIsAppended(q.flights[key], g.items);
    var items := WithoutIdentities(g.items, Identities(q.flights[key]));
    if items == [] {
      RemoveIs(q.groups, key);
      FindIs(Remove(q.groups, key), key);
    } else {
      PutIs(q.groups, Remainder(g, q.flights[key]));
      FindIs(Put(q.groups, Remainder(g, q.flights[key])), key);
    }
  }

  /** A failed delivery loses nothing: the group is pending again with all its items. */
  lemma FailKeepsItems(q: Queue, key: string, now: real, error: string)
    requires Shape(q) && key in q.flights
    ensures var g := Find(Fail(q, key, now, error).groups, key);
            g.Some? && Find(q.groups, key).Some? && g.value.items == Find(q.groups, key).value.items && g.value.status == Pending
  {
    var g := FlightGroup(q, key);
    PutIs(q.groups, Waiting(g, now, error));
    FindIs(Put(q.groups, Waiting(g, now, error)), key);
  }

  // ---- What a restart recovers ----

  /** A restart recovers this identity from the group. */
  ghost predicate Keeps(g: Group, id: string) {
    HasKeyFields(g) && id != "" && exists i :: 0 <= i < |g.items| && g.items[i].identity == id && g.items[i].routeKind != ""
  }

  ghost predicate KeptIn(groups: seq<Group>, id: string) {
    exists g :: g in groups && Keeps(g, id)
  }

  ghost predicate HeldIn(groups: seq<Group>, id: string) {
    exists g :: g in groups && id in Identities(g.items)
  }

  lemma NormalizedKeeps(g: Group, id: string)
    ensures Keeps(g, id) <==> NormalizeGroup(g).Some? && id in Identities(NormalizeGroup(g).value.items)
  {
    RecoverableIs(g.items);
    var kept := RecoverableItems(g.items);
    if Keeps(g, id) {
      var i :| 0 <= i < |g.items| && g.items[i].identity == id && g.items[i].routeKind != "";
      assert g.items[i] in kept;
    }
    if id in Identities(kept) {
      var i :| 0 <= i < |kept| && kept[i].identity == id;
      assert kept[i] in g.items;
    }
  }

  /** A restart normalizes each group on its own and drops those that cannot be. */
  lemma {:induction false} RestoredFinds(groups: seq<Group>, key: string)
    requires UniqueKeys(groups)
    ensures Find(RestoreGroups(groups), key)
         == match Find(groups, key) case None => None case Some(g) => NormalizeGroup(g)
    decreases |groups|
  {
    if groups != [] {
      var front, last := groups[..|groups| - 1], groups[|groups| - 1];
      assert groups == front + [last];
      RestoredFinds(front, key);
      FindIs(front, key);
      FindIs(groups, key);
      if Find(front, key).Some? {
        assert Find(front, key).value in groups;
      }
      match NormalizeGroup(last)
      case None =>
      case Some(group) => FindAfterPut(RestoreGroups(front), group, key);
    }
  }

  lemma KeptIsHeld(groups: seq<Group>, id: string)
    requires UniqueKeys(groups)
    ensures KeptIn(groups, id) <==> HeldIn(RestoreGroups(groups), id)
  {
    RestoredAreNormalized(groups);
    var restored := RestoreGroups(groups);
    if KeptIn(groups, id) {
      var g :| g in groups && Keeps(g, id);
      NormalizedKeeps(g, id);
      FindIs(groups, g.key);
      RestoredFinds(groups, g.key);
      FindIs(restored, g.key);
    }
    if HeldIn(restored, id) {
      var r :| r in restored && id in Identities(r.items);
      var g :| g in groups && NormalizeGroup(g) == Some(r);
      NormalizedKeeps(g, id);
    }
  }

  /** What a restart brought back, a second restart brings back. */
  lemma RestoredKeeps(pending: seq<Group>, id: string)
    ensures HeldIn(RestoreGroups(pending), id) ==> KeptIn(RestoreGroups(pending), id)
  {
    RestoredAreNormalized(pending);
    RestoringNormalized(RestoreGroups(pending));
    KeptIsHeld(RestoreGroups(pending), id);
  }

  /**
   * Exactly when an accepted fragment survives a restart, on any queue: its group is recovered and holds it if and only
   * if that group, which may have been opened by another fragment, has all its key fields and the fragment has an
   * identity and a route kind.
   */
  lemma SurvivesRestartIff(q: Queue, input: Input, now: real, freshId: string)
    requires UniqueKeys(q.groups) && Enqueue(q, input, now, freshId).accepted
    ensures var found := Find(Recover(Enqueue(q, input, now, freshId).queue.disk).groups, Target(q, input, now, freshId).key);
            found.Some? && input.identity in Identities(found.value.items) <==> RecoverableArrival(q, input, now, freshId)
  {
    hide Existing, Joined, NormalizeGroup, RestoreGroups, Put, Find, UniqueKeys, HasKeyFields, Keeps;
    var g := Target(q, input, now, freshId);
    PutIs(q.groups, g);
    FindAfterPut(q.groups, g, g.key);
    RestoredFinds(Put(q.groups, g), g.key);
    NormalizedKeeps(g, input.identity);
    JoinedKeepsIff(q, input, now, freshId);
  }

  /** The last item of a joined group is the fragment, and no other item has its identity. */
  lemma JoinedKeepsIff(q: Queue, input: Input, now: real, freshId: string)
    requires UniqueKeys(q.groups) && Enqueue(q, input, now, freshId).accepted
    ensures var g := Target(q, input, now, freshId);
            Keeps(g, input.identity) <==> HasKeyFields(g) && input.identity != "" && input.routeKind != ""
  {
    hide Existing;
    TargetGrows(q, input, now, freshId);
    var g := Target(q, input, now, freshId);
    var base := match Find(q.groups, g.key) case Some(h) => h case None => NewGroup(input, now, freshId);
    assert g == Joined(base, input, now);
    var n := |base.items|;
    assert g.items[n].identity == input.identity && g.items[n].routeKind == input.routeKind;
    assert forall i :: 0 <= i < n ==> base.items[i].identity in Identities(base.items) && g.items[i] == base.items[i];
  }

  const EMPTY := Queue([], [], {}, map[], Saved([], []))

  function Fragment(sender: string, identity: string): Input {
    Input("key", "base", "endpoint", "conversation", sender, None, identity, false, Policy(None, None, None), "chat", "text")
  }

  /** A second fragment of the same key joins the group the first one opened. */
  lemma SecondJoinsFirst(first: Input, second: Input)
    requires first.key == second.key && first.identity != second.identity
    ensures var q := Enqueue(EMPTY, first, 0.0, "group").queue;
            && UniqueKeys(q.groups) && Enqueue(q, second, 1.0, "other").accepted
            && Target(q, second, 1.0, "other").groupId == "group" && Target(q, second, 1.0, "other").sender == first.sender
            && Target(q, second, 1.0, "other").key == first.key && Target(q, second, 1.0, "other").baseKey == first.baseKey
            && Target(q, second, 1.0, "other").endpoint == first.endpoint
            && Target(q, second, 1.0, "other").conversationKey == first.conversationKey
  {
    var g := Joined(NewGroup(first, 0.0, "group"), first, 0.0);
    assert Existing([], first) == None;
    assert Enqueue(EMPTY, first, 0.0, "group").queue.groups == [g];
    assert g.items == [Item(first.identity, 0.0, first.incomplete, first.routeKind, first.body)];
    assert Find([g], second.key) == Some(g);
  }

  /** The fragment's own fields do not decide: a well-formed one is lost when it joins a group without a sender. */
  lemma WellFormedFragmentLost()
    ensures var first, second := Fragment("", "id1"), Fragment("sender", "id2");
            var q := Enqueue(EMPTY, first, 0.0, "group").queue;
            && WellFormedInput(second) && Enqueue(q, second, 1.0, "other").accepted
            && Find(Recover(Enqueue(q, second, 1.0, "other").queue.disk).groups, "key") == None
  {
    var first, second := Fragment("", "id1"), Fragment("sender", "id2");
    SecondJoinsFirst(first, second);
    var q := Enqueue(EMPTY, first, 0.0, "group").queue;
    var g := Target(q, second, 1.0, "other");
    TargetGrows(q, second, 1.0, "other");
    PutIs(q.groups, g);
    FindIs(Put(q.groups, g), "key");
    RestoredFinds(Put(q.groups, g), "key");
  }

  /** And one without a sender is recovered when it joins a group that has one. */
  lemma IllFormedFragmentRecovered()
    ensures var first, second := Fragment("sender", "id1"), Fragment("", "id2");
            var q := Enqueue(EMPTY, first, 0.0, "group").queue;
            var found := Find(Recover(Enqueue(q, second, 1.0, "other").queue.disk).groups, "key");
            && !WellFormedInput(second) && Enqueue(q, second, 1.0, "other").accepted
            && found.Some? && "id2" in Identities(found.value.items)
  {
    var first, second := Fragment("sender", "id1"), Fragment("", "id2");
    SecondJoinsFirst(first, second);
    SurvivesRestartIff(Enqueue(EMPTY, first, 0.0, "group").queue, second, 1.0, "other");
  }

  // ---- No run loses a message ----

  /** Every fragment accepted where a restart recovers it was delivered or is in a group a restart would recover. */
  ghost predicate NothingLost(w: World) {
    forall id :: id in w.recoverable ==> id in w.done || HeldIn(RestoreGroups(w.queue.disk.pending), id)
  }

  lemma PutKeeps(groups: seq<Group>, g: Group, id: string)
    requires UniqueKeys(groups) && KeptIn(groups, id)
    requires forall h :: h in groups && h.key == g.key ==> (Keeps(h, id) ==> Keeps(g, id))
    ensures KeptIn(Put(groups, g), id)
  {
    hide Keeps, UniqueKeys;
    PutIs(groups, g);
    var h :| h in groups && Keeps(h, id);
    assert (if h.key == g.key then g else h) in Put(groups, g);
  }

  lemma EnqueueKeeps(q: Queue, input: Input, now: real, freshId: string, id: string)
    requires Shape(q)
    requires KeptIn(q.groups, id) || (RecoverableArrival(q, input, now, freshId) && id == input.identity)
    ensures KeptIn(Enqueue(q, input, now, freshId).queue.groups, id)
  {
    hide Existing, Joined, FlightsMatch;
    if Enqueue(q, input, now, freshId).accepted {
      var g := Target(q, input, now, freshId);
      TargetGrows(q, input, now, freshId);
      FindIs(q.groups, g.key);
      PutIs(q.groups, g);
      if KeptIn(q.groups, id) {
        forall h | h in q.groups && h.key == g.key && Keeps(h, id)
          ensures Keeps(g, id)
        {
          var i :| 0 <= i < |h.items| && h.items[i].identity == id && h.items[i].routeKind != "";
          assert g.items[i] == h.items[i];
        }
        PutKeeps(q.groups, g, id);
      } else {
        JoinedKeepsIff(q, input, now, freshId);
        assert g in Put(q.groups, g);
      }
    }
  }

  /** Replacing a group by one with the same fields and items. */
  lemma SameItemsKeep(q: Queue, g: Group, h: Group, id: string)
    requires UniqueKeys(q.groups) && Find(q.groups, g.key) == Some(h) && KeptIn(q.groups, id)
    requires HasKeyFields(g) == HasKeyFields(h) && g.items == h.items
    ensures KeptIn(Put(q.groups, g), id)
  {
    FindIs(q.groups, g.key);
    PutKeeps(q.groups, g, id);
  }

  lemma SucceedKeeps(q: Queue, key: string, id: string)
    requires Shape(q) && GoodGroups(q.groups) && key in q.flights && KeptIn(q.groups, id)
    ensures id in Identities(q.flights[key]) || KeptIn(Succeed(q, key).groups, id)
  {
    hide FlightsMatch, Trim, AddAll;
    var g := FlightGroup(q, key);
    assert GoodGroup(g);
    var rest := Remainder(g, q.flights[key]);
    RemainderIsAppended(q.flights[key], g.items);
    FindIs(q.groups, key);
    RemoveIs(q.groups, key);
    PutIs(q.groups, rest);
    var h :| h in q.groups && Keeps(h, id);
    if h.key != key {
      assert h in Succeed(q, key).groups;
    } else if id !in Identities(q.flights[key]) {
      RemainderKeeps(g, q.flights[key], id);
      assert rest in Succeed(q, key).groups;
    }
  }

  lemma RemainderKeeps(g: Group, sent: seq<Item>, id: string)
    requires sent <= g.items && DistinctItems(g.items) && Keeps(g, id) && id !in Identities(sent)
    ensures Keeps(Remainder(g, sent), id) && Remainder(g, sent).items != []
  {
    RemainderIsAppended(sent, g.items);
    var i :| 0 <= i < |g.items| && g.items[i].identity == id && g.items[i].routeKind != "";
    assert forall k :: 0 <= k < |sent| ==> sent[k].identity in Identities(sent) && g.items[k] == sent[k];
    assert Remainder(g, sent).items[i - |sent|] == g.items[i];
  }

  lemma BeginKeeps(q: Queue, key: string, id: string)
    requires Shape(q) && KeptIn(q.groups, id)
    ensures KeptIn(BeginFlush(q, key).0.groups, id)
  {
    hide FlightsMatch, KeptIn;
    FindIs(q.groups, key);
    if BeginFlush(q, key).1 {
      var g := Find(q.groups, key).value;
      SameItemsKeep(q, g.(status := Delivering, attempts := g.attempts + 1, lastError := None), g, id);
    }
  }

  lemma FailKeeps(q: Queue, key: string, now: real, error: string, id: string)
    requires Shape(q) && key in q.flights && KeptIn(q.groups, id)
    ensures KeptIn(Fail(q, key, now, error).groups, id)
  {
    hide FlightsMatch, KeptIn, RetrySeconds;
    var g := FlightGroup(q, key);
    SameItemsKeep(q, Waiting(g, now, error), g, id);
  }

  /** An identity kept before a step, or accepted by it where a restart recovers it, is kept or delivered after it. */
  lemma StepKeeps(w: World, e: Event, id: string)
    requires Inv(w.queue)
    requires KeptIn(w.queue.groups, id) || (id in Next(w, e).recoverable && id !in w.recoverable)
    ensures id in Next(w, e).done || KeptIn(Next(w, e).queue.groups, id)
  {
    hide FlightsMatch, GoodGroups, Enqueue, BeginFlush, Succeed, Fail, KeptIn, RecoverableArrival, UniqueKeys;
    var q := w.queue;
    match e
    case Arrive(input, now, freshId) => EnqueueKeeps(q, input, now, freshId, id);
    case Flush(key) => BeginKeeps(q, key, id);
    case TimerFires(key) => BeginKeeps(q.(timers := q.timers - {key}), key, id);
    case DeliverySucceeds(key) => if key in q.flights { SucceedKeeps(q, key, id); }
    case DeliveryFails(key, now, error) => if key in q.flights { FailKeeps(q, key, now, error, id); }
    case SucceedsThenCrash(key) =>
      KeptIsHeld(q.groups, id);
      RestoredKeeps(q.disk.pending, id);
    case Crash =>
      KeptIsHeld(q.groups, id);
      RestoredKeeps(q.disk.pending, id);
    case Shutdown =>
  }

  lemma StepLosesNothing(w: World, e: Event)
    requires Inv(w.queue) && NothingLost(w)
    ensures Inv(Next(w, e).queue) && NothingLost(Next(w, e))
  {
    hide Next, HeldIn, KeptIn, FlightsMatch, GoodGroups;
    var next := Next(w, e);
    StepKeepsInv(w, e);
    forall id | id in next.recoverable
      ensures id in next.done || HeldIn(RestoreGroups(next.queue.disk.pending), id)
    {
      DoneStays(w, e, id);
      KeptIsHeld(w.queue.groups, id);
      KeptIsHeld(next.queue.groups, id);
      if id !in w.done {
        StepKeeps(w, e, id);
      }
    }
  }

  lemma DoneStays(w: World, e: Event, id: string)
    ensures id in w.done ==> id in Next(w, e).done
  {
  }

  /**
   * Grouping never loses a message a restart would recover: in any run of arrivals, deliveries, failures, crashes and
   * restarts, whatever fields the fragments have.
   */
  lemma {:induction false} RunLosesNothing(w: World, events: seq<Event>)
    requires Inv(w.queue) && NothingLost(w)
    ensures Inv(Run(w, events).queue) && NothingLost(Run(w, events))
    decreases |events|
  {
    if events != [] {
      hide Inv, NothingLost, Next;
      StepLosesNothing(w, events[0]);
      RunLosesNothing(Next(w, events[0]), events[1..]);
    }
  }

  /** A queue started on an empty state file. */
  lemma StartIsSafe()
    ensures Inv(Recover(Saved([], []))) && NothingLost(World(Recover(Saved([], [])), {}, {}, {}))
  {
  }

  // ---- Runs of well-formed fragments ----

  predicate WellFormedInput(input: Input) {
    && input.key != "" && input.baseKey != "" && input.endpoint != "" && input.conversationKey != "" && input.sender != ""
    && input.identity != "" && input.routeKind != ""
  }

  ghost predicate GoodEvents(events: seq<Event>) {
    forall i :: 0 <= i < |events| && events[i].Arrive? ==> WellFormedInput(events[i].input) && events[i].freshId != ""
  }

  ghost predicate AllHaveFields(groups: seq<Group>) {
    forall g :: g in groups ==> HasKeyFields(g)
  }

  lemma EnqueueKeepsFields(q: Queue, input: Input, now: real, freshId: string)
    requires UniqueKeys(q.groups) && AllHaveFields(q.groups) && WellFormedInput(input) && freshId != ""
    ensures AllHaveFields(Enqueue(q, input, now, freshId).queue.groups)
    ensures Enqueue(q, input, now, freshId).accepted ==> RecoverableArrival(q, input, now, freshId)
  {
    hide Existing, UniqueKeys;
    if Enqueue(q, input, now, freshId).accepted {
      TargetGrows(q, input, now, freshId);
      PutIs(q.groups, Target(q, input, now, freshId));
    }
  }

  lemma StepKeepsFields(w: World, e: Event)
    requires Shape(w.queue) && AllHaveFields(w.queue.groups) && w.accepted <= w.recoverable
    requires e.Arrive? ==> WellFormedInput(e.input) && e.freshId != ""
    ensures AllHaveFields(Next(w, e).queue.groups) && Next(w, e).accepted <= Next(w, e).recoverable
  {
    hide FlightsMatch, UniqueKeys, Enqueue, RecoverableArrival, Trim, AddAll, RetrySeconds;
    var q := w.queue;
    match e
    case Arrive(input, now, freshId) => EnqueueKeepsFields(q, input, now, freshId);
    case Flush(key) => BeginKeepsFields(q, key);
    case TimerFires(key) => BeginKeepsFields(q.(timers := q.timers - {key}), key);
    case DeliverySucceeds(key) =>
      if key in q.flights {
        var g := FlightGroup(q, key);
        RemoveIs(q.groups, key);
        PutIs(q.groups, Remainder(g, q.flights[key]));
      }
    case DeliveryFails(key, now, error) =>
      if key in q.flights {
        var g := FlightGroup(q, key);
        PutIs(q.groups, Waiting(g, now, error));
      }
    case SucceedsThenCrash(key) => RestoredAreNormalized(q.disk.pending);
    case Crash => RestoredAreNormalized(q.disk.pending);
    case Shutdown =>
  }

  lemma BeginKeepsFields(q: Queue, key: string)
    requires UniqueKeys(q.groups) && AllHaveFields(q.groups)
    ensures AllHaveFields(BeginFlush(q, key).0.groups)
  {
    FindIs(q.groups, key);
    if BeginFlush(q, key).1 {
      var g := Find(q.groups, key).value;
      PutIs(q.groups, g.(status := Delivering, attempts := g.attempts + 1, lastError := None));
    }
  }

  /** Every accepted fragment was delivered or is in a group a restart would recover. */
  ghost predicate EveryoneAccountedFor(w: World) {
    forall id :: id in w.accepted ==> id in w.done || HeldIn(RestoreGroups(w.queue.disk.pending), id)
  }

  /** With non-empty fields throughout, every accepted fragment is delivered or recoverable in every run. */
  lemma {:induction false} WellFormedRunsLoseNothing(w: World, events: seq<Event>)
    requires Inv(w.queue) && NothingLost(w) && GoodEvents(events)
    requires AllHaveFields(w.queue.groups) && w.accepted <= w.recoverable
    ensures EveryoneAccountedFor(Run(w, events))
    decreases |events|
  {
    if events != [] {
      hide Inv, NothingLost, Next, AllHaveFields, EveryoneAccountedFor;
      StepLosesNothing(w, events[0]);
      assert Shape(w.queue) by {
        InvHasShape(w.queue);
      }
      StepKeepsFields(w, events[0]);
      WellFormedRunsLoseNothing(Next(w, events[0]), events[1..]);
    }
  }

  lemma InvHasShape(q: Queue)
    requires Inv(q)
    ensures Shape(q)
  {
  }
}
