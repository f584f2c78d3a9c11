/**
 * The grouping queue's timers and deadlines, for any input and any state file.
 *
 * Armed timers are exactly the keys of pending groups, later fragments cannot postpone a first delivery, and what
 * arrives during a delivery waits by the bound computed here.
 */
module GroupingTimers {
  import opened Common
  import opened MessageGrouping
  import opened GroupingSafety

  /** A timer is armed for a key exactly when its group is pending. */
  ghost predicate TimersExact(q: Queue) {
    forall key :: key in q.timers <==> exists g :: g in q.groups && g.key == key && g.status == Pending
  }

  lemma EnqueueKeepsTimers(q: Queue, input: Input, now: real, freshId: string)
    requires Shape(q) && TimersExact(q)
    ensures TimersExact(Enqueue(q, input, now, freshId).queue)
  {
    hide Existing, Joined, FlightsMatch;
    if Enqueue(q, input, now, freshId).accepted {
      var g := Target(q, input, now, freshId);
      var after := Enqueue(q, input, now, freshId).queue;
      TargetGrows(q, input, now, freshId);
      FindIs(q.groups, g.key);
      PutIs(q.groups, g);
      PutTimers(q, g, after.groups, after.timers);
    }
  }

  /** Replacing one group, with its timer set by its new status. */
  lemma PutTimers(q: Queue, g: Group, groups: seq<Group>, timers: set<string>)
    requires UniqueKeys(q.groups) && TimersExact(q) && groups == Put(q.groups, g)
    requires forall key :: key != g.key ==> (key in timers <==> key in q.timers)
    requires g.key in timers <==> g.status == Pending
    ensures forall key :: key in timers <==> exists h :: h in groups && h.key == key && h.status == Pending
  {
    PutIs(q.groups, g);
    forall key
      ensures key in timers <==> exists h :: h in groups && h.key == key && h.status == Pending
    {
      if key == g.key {
        assert g in groups;
      } else if key in timers {
        var h :| h in q.groups && h.key == key && h.status == Pending;
        assert h in groups;
      }
    }
  }

  lemma BeginKeepsTimers(q: Queue, key: string)
    requires Shape(q) && TimersExact(q)
    ensures TimersExact(BeginFlush(q, key).0)
    ensures key in q.timers ==> BeginFlush(q, key).1 && FireTimer(q, key) == BeginFlush(q, key)
  {
    FindIs(q.groups, key);
    if BeginFlush(q, key).1 {
      var g := Find(q.groups, key).value;
      assert q.timers - {key} - {key} == q.timers - {key};
      PutTimers(q, g.(status := Delivering, attempts := g.attempts + 1, lastError := None),
                BeginFlush(q, key).0.groups, q.timers - {key});
    }
  }

  lemma SucceedKeepsTimers(q: Queue, key: string)
    requires Shape(q) && TimersExact(q) && key in q.flights
    ensures TimersExact(Succeed(q, key))
  {
    hide FlightsMatch, Trim, AddAll;
    var g := FlightGroup(q, key);
    var after := Succeed(q, key);
    FindIs(q.groups, key);
    if WithoutIdentities(g.items, Identities(q.flights[key])) == [] {
      RemoveIs(q.groups, key);
      forall k
        ensures k in after.timers <==> exists h :: h in after.groups && h.key == k && h.status == Pending
      {
        if k in q.timers {
          var h :| h in q.groups && h.key == k && h.status == Pending;
          assert h in after.groups;
        }
      }
    } else {
      PutTimers(q, Remainder(g, q.flights[key]), after.groups, after.timers);
    }
  }

  lemma FailKeepsTimers(q: Queue, key: string, now: real, error: string)
    requires Shape(q) && TimersExact(q) && key in q.flights
    ensures TimersExact(Fail(q, key, now, error))
  {
    hide FlightsMatch, RetrySeconds;
    var g := FlightGroup(q, key);
    PutTimers(q, Waiting(g, now, error), Put(q.groups, Waiting(g, now, error)), q.timers + {key});
  }

  lemma RecoverArmsAll(q: Queue)
    ensures TimersExact(Recover(q.disk))
  {
    RestoredAreNormalized(q.disk.pending);
    var groups := RestoreGroups(q.disk.pending);
    forall key
      ensures key in Keys(groups) <==> exists g :: g in groups && g.key == key && g.status == Pending
    {
      if key in Keys(groups) {
        var i :| 0 <= i < |groups| && groups[i].key == key;
        assert groups[i] in groups;
      }
    }
  }

  lemma StepKeepsTimers(w: World, e: Event)
    requires Shape(w.queue) && TimersExact(w.queue) && !e.Shutdown?
    ensures TimersExact(Next(w, e).queue)
  {
    hide FlightsMatch, UniqueKeys, TimersExact, Enqueue, BeginFlush, Succeed, Fail, Recover;
    var q := w.queue;
    match e {
      case Arrive(input, now, freshId) => EnqueueKeepsTimers(q, input, now, freshId);
      case Flush(key) => BeginKeepsTimers(q, key);
      case TimerFires(key) => BeginKeepsTimers(q, key);
      case DeliverySucceeds(key) => if key in q.flights { SucceedKeepsTimers(q, key); }
      case DeliveryFails(key, now, error) => if key in q.flights { FailKeepsTimers(q, key, now, error); }
      case SucceedsThenCrash(key) => RecoverArmsAll(q);
      case Crash => RecoverArmsAll(q);
    }
  }

  /** From any state with exact timers, such as any start, and while the queue is open, armed timers are exactly the keys of pending groups. */
  lemma {:induction false} TimersStayExact(w: World, events: seq<Event>)
    requires Shape(w.queue) && TimersExact(w.queue)
    requires forall i :: 0 <= i < |events| ==> !events[i].Shutdown?
    ensures TimersExact(Run(w, events).queue)
    decreases |events|
  {
    if events != [] {
      hide Shape, TimersExact, Next;
      StepKeepsShape(w, events[0]);
      StepKeepsTimers(w, events[0]);
      TimersStayExact(Next(w, events[0]), events[1..]);
    }
  }

  /** A queue started on any state file has a shape and timers that runs keep. */
  lemma StartHasTimers(disk: Saved)
    ensures Shape(Recover(disk)) && TimersExact(Recover(disk))
  {
    RecoverIsShaped(disk);
    RecoverArmsAll(Recover(disk));
  }

  // ---- How long a fragment can be held back ----

  /** A group of this key waits for its first delivery within this window. */
  ghost predicate WaitsWithin(q: Queue, key: string, createdAt: real, maxDeadlineAt: real) {
    var g := Find(q.groups, key);
    && g.Some? && g.value.status == Pending
    && g.value.createdAt == createdAt && g.value.maxDeadlineAt == maxDeadlineAt && g.value.deadlineAt <= maxDeadlineAt
  }

  /** A new group's window opens with its first fragment and lasts the normalized maximum wait, at most 300 s. */
  lemma NewGroupWindow(q: Queue, input: Input, now: real, freshId: string)
    requires UniqueKeys(q.groups) && Existing(q.groups, input) == None && input.identity !in q.delivered
    ensures WaitsWithin(Enqueue(q, input, now, freshId).queue, input.key, now, now + MaxWaitSeconds(input.policy) * 1000.0)
    ensures MaxWaitSeconds(input.policy) * 1000.0 <= 300000.0
  {
    var g := Joined(NewGroup(input, now, freshId), input, now);
    PutIs(q.groups, g);
    FindIs(Put(q.groups, g), input.key);
  }

  /** An event other than a delivery attempt of this group, a restart or a shutdown. */
  predicate LeavesWaiting(e: Event, key: string) {
    match e
    case Arrive(_, _, _) => true
    case Flush(k) => k != key
    case TimerFires(k) => k != key
    case DeliverySucceeds(k) => k != key
    case DeliveryFails(k, _, _) => k != key
    case _ => false
  }

  lemma ArriveKeepsWindow(w: World, input: Input, now: real, freshId: string, key: string, createdAt: real, maxDeadlineAt: real)
    requires Shape(w.queue) && WaitsWithin(w.queue, key, createdAt, maxDeadlineAt)
    ensures WaitsWithin(Next(w, Arrive(input, now, freshId)).queue, key, createdAt, maxDeadlineAt)
  {
    hide FlightsMatch, RetrySeconds, Trim, AddAll, RestoreGroups;
    var q := w.queue;
    var target := Target(q, input, now, freshId);
    ExistingIsGroup(q.groups, input);
    FindIs(q.groups, target.key);
    FindAfterPut(q.groups, target, key);
  }

  /** Starting a delivery of one group leaves the others waiting. */
  lemma BeginKeepsWindow(q: Queue, k: string, key: string, createdAt: real, maxDeadlineAt: real)
    requires UniqueKeys(q.groups) && k != key && WaitsWithin(q, key, createdAt, maxDeadlineAt)
    ensures WaitsWithin(BeginFlush(q, k).0, key, createdAt, maxDeadlineAt)
    ensures k in q.timers ==> WaitsWithin(FireTimer(q, k).0, key, createdAt, maxDeadlineAt)
  {
    hide Put;
    if Find(q.groups, k).Some? {
      var g := Find(q.groups, k).value;
      FindIs(q.groups, k);
      FindAfterPut(q.groups, g.(status := Delivering, attempts := g.attempts + 1, lastError := None), key);
    }
  }

  lemma StepKeepsWindow(w: World, e: Event, key: string, createdAt: real, maxDeadlineAt: real)
    requires Shape(w.queue) && LeavesWaiting(e, key) && WaitsWithin(w.queue, key, createdAt, maxDeadlineAt)
    ensures WaitsWithin(Next(w, e).queue, key, createdAt, maxDeadlineAt)
  {
    hide FlightsMatch, RetrySeconds, Trim, AddAll, RestoreGroups, BeginFlush, FireTimer, Enqueue;
    var q := w.queue;
    match e
    case Arrive(input, now, freshId) => ArriveKeepsWindow(w, input, now, freshId, key, createdAt, maxDeadlineAt);
    case Flush(k) => BeginKeepsWindow(q, k, key, createdAt, maxDeadlineAt);
    case TimerFires(k) => BeginKeepsWindow(q, k, key, createdAt, maxDeadlineAt);
    case DeliverySucceeds(k) =>
      if k in q.flights {
        var g := FlightGroup(q, k);
        FindAfterRemove(q.groups, k, key);
        FindAfterPut(q.groups, Remainder(g, q.flights[k]), key);
      }
    case DeliveryFails(k, now, error) =>
      if k in q.flights {
        var g := FlightGroup(q, k);
        FindAfterPut(q.groups, Waiting(g, now, error), key);
      }
  }

  /** Before the first attempt no number of later fragments moves the deadline past the window. */
  lemma {:induction false} FragmentsCannotPostpone(w: World, events: seq<Event>, key: string, createdAt: real, maxDeadlineAt: real)
    requires Shape(w.queue) && WaitsWithin(w.queue, key, createdAt, maxDeadlineAt)
    requires forall i :: 0 <= i < |events| ==> LeavesWaiting(events[i], key)
    ensures WaitsWithin(Run(w, events).queue, key, createdAt, maxDeadlineAt)
    decreases |events|
  {
    if events != [] {
      hide Shape, WaitsWithin, Next;
      StepKeepsShape(w, events[0]);
      StepKeepsWindow(w, events[0], key, createdAt, maxDeadlineAt);
      FragmentsCannotPostpone(Next(w, events[0]), events[1..], key, createdAt, maxDeadlineAt);
    }
  }

  // ---- What arrives during a delivery ----

  /** A fragment that joined a group being delivered: when, and when it alone would have the group delivered and at the latest. */
  datatype Arrival = Arrival(at: real, settled: real, until: real)

  predicate Joins(q: Queue, e: Event, key: string) {
    e.Arrive? && Enqueue(q, e.input, e.now, e.freshId).accepted && Target(q, e.input, e.now, e.freshId).key == key
  }

  function ArrivalOf(e: Event): Arrival
    requires e.Arrive?
  {
    var wait := if e.input.incomplete then IncompleteSettleSeconds(e.input.policy) else SettleSeconds(e.input.policy);
    Arrival(e.now, e.now + wait * 1000.0, e.now + MaxWaitSeconds(e.input.policy) * 1000.0)
  }

  /** The fragments of a run that join the group of this key. */
  function Arrivals(w: World, events: seq<Event>, key: string): seq<Arrival>
    decreases |events|
  {
    if events == [] then []
    else (if Joins(w.queue, events[0], key) then [ArrivalOf(events[0])] else []) + Arrivals(Next(w, events[0]), events[1..], key)
  }

  /** An event that does not end the delivery of this key. */
  predicate StaysInFlight(e: Event, key: string) {
    match e
    case DeliverySucceeds(k) => k != key
    case DeliveryFails(k, _, _) => k != key
    case SucceedsThenCrash(_) => false
    case Crash => false
    case _ => true
  }

  function Latest(maxDeadlineAt: real, arrivals: seq<Arrival>): real
    decreases |arrivals|
  {
    if arrivals == [] then maxDeadlineAt else Latest(MaxReal(maxDeadlineAt, arrivals[0].until), arrivals[1..])
  }

  /** The deadline the last arrival sets, within the bound. */
  function LastDeadline(maxDeadlineAt: real, arrivals: seq<Arrival>): real
    requires arrivals != []
  {
    MinReal(Latest(maxDeadlineAt, arrivals), arrivals[|arrivals| - 1].settled)
  }

  lemma {:induction false} LatestIs(maxDeadlineAt: real, arrivals: seq<Arrival>, bound: real)
    ensures Latest(maxDeadlineAt, arrivals) <= bound
       <==> maxDeadlineAt <= bound && forall i :: 0 <= i < |arrivals| ==> arrivals[i].until <= bound
    decreases |arrivals|
  {
    if arrivals != [] {
      LatestIs(MaxReal(maxDeadlineAt, arrivals[0].until), arrivals[1..], bound);
      assert arrivals == [arrivals[0]] + arrivals[1..];
    }
  }

  /** The group being delivered has gained exactly these arrivals. */
  ghost predicate Gathered(q: Queue, key: string, g: Group, sent: seq<Item>, arrivals: seq<Arrival>) {
    var found := Find(q.groups, key);
    && key in q.flights && q.flights[key] == sent && found.Some? && found.value.status == Delivering
    && found.value.maxDeadlineAt == Latest(g.maxDeadlineAt, arrivals)
    && found.value.deadlineAt == (if arrivals == [] then g.deadlineAt else LastDeadline(g.maxDeadlineAt, arrivals))
    && g.items <= found.value.items && |found.value.items| == |g.items| + |arrivals|
    && forall i :: 0 <= i < |arrivals| ==> found.value.items[|g.items| + i].receivedAt == arrivals[i].at
  }

  /** The group after one event of a run that leaves its delivery under way. */
  function AfterEvent(q: Queue, e: Event, key: string, g: Group): Group {
    if Joins(q, e, key) then Joined(g, e.input, e.now) else g
  }

  lemma ArrivalInFlight(w: World, e: Event, key: string, g: Group)
    requires Shape(w.queue) && Find(w.queue.groups, key) == Some(g) && e.Arrive?
    ensures Find(Next(w, e).queue.groups, key) == Some(AfterEvent(w.queue, e, key, g))
    ensures Next(w, e).queue.flights == w.queue.flights
  {
    hide Existing, Joined, FlightsMatch;
    var q := w.queue;
    if Enqueue(q, e.input, e.now, e.freshId).accepted {
      TargetGrows(q, e.input, e.now, e.freshId);
      FindAfterPut(q.groups, Target(q, e.input, e.now, e.freshId), key);
    }
  }

  lemma FlushInFlight(q: Queue, k: string, key: string, g: Group)
    requires Shape(q) && Find(q.groups, key) == Some(g) && g.status == Delivering
    ensures Find(BeginFlush(q, k).0.groups, key) == Some(g)
    ensures key in q.flights ==> key in BeginFlush(q, k).0.flights && BeginFlush(q, k).0.flights[key] == q.flights[key]
  {
    hide FlightsMatch;
    FindIs(q.groups, k);
    if BeginFlush(q, k).1 {
      var h := Find(q.groups, k).value;
      FindAfterPut(q.groups, h.(status := Delivering, attempts := h.attempts + 1, lastError := None), key);
    }
  }

  lemma OtherDeliveryEnds(w: World, e: Event, k: string, key: string, g: Group)
    requires Shape(w.queue) && Find(w.queue.groups, key) == Some(g) && k != key && k in w.queue.flights
    requires e == DeliverySucceeds(k) || (e.DeliveryFails? && e.key == k)
    ensures Find(Next(w, e).queue.groups, key) == Some(g)
    ensures Next(w, e).queue.flights == w.queue.flights - {k}
  {
    hide FlightsMatch, RetrySeconds, Trim, AddAll;
    var q := w.queue;
    var h := FlightGroup(q, k);
    FindAfterRemove(q.groups, k, key);
    FindAfterPut(q.groups, Remainder(h, q.flights[k]), key);
    if e.DeliveryFails? {
      FindAfterPut(q.groups, Waiting(h, e.now, e.error), key);
    }
  }

  lemma StepInFlight(w: World, e: Event, key: string, g: Group)
    requires Shape(w.queue) && Find(w.queue.groups, key) == Some(g) && g.status == Delivering && key in w.queue.flights
    requires StaysInFlight(e, key)
    ensures var next := Next(w, e).queue;
            && Find(next.groups, key) == Some(AfterEvent(w.queue, e, key, g))
            && key in next.flights && next.flights[key] == w.queue.flights[key]
  {
    hide Shape, Enqueue, BeginFlush, Succeed, Fail, Joined;
    match e
    case Arrive(_, _, _) => ArrivalInFlight(w, e, key, g);
    case Flush(k) => FlushInFlight(w.queue, k, key, g);
    case TimerFires(k) =>
      SameShape(w.queue, w.queue.timers - {k});
      FlushInFlight(w.queue.(timers := w.queue.timers - {k}), k, key, g);
    case DeliverySucceeds(k) => if k in w.queue.flights { OtherDeliveryEnds(w, e, k, key, g); }
    case DeliveryFails(k, _, _) => if k in w.queue.flights { OtherDeliveryEnds(w, e, k, key, g); }
    case Shutdown =>
  }

  lemma SameShape(q: Queue, timers: set<string>)
    requires Shape(q)
    ensures Shape(q.(timers := timers))
  {
  }

  /** Over a run that leaves the delivery under way its group gains exactly the arrivals, and its bound follows them. */
  lemma {:induction false} FlightGathers(w: World, events: seq<Event>, key: string, g: Group)
    requires Shape(w.queue) && Find(w.queue.groups, key) == Some(g) && g.status == Delivering && key in w.queue.flights
    requires forall i :: 0 <= i < |events| ==> StaysInFlight(events[i], key)
    ensures Gathered(Run(w, events).queue, key, g, w.queue.flights[key], Arrivals(w, events, key))
    decreases |events|
  {
    if events != [] {
      hide Shape, Next, Gathered, StaysInFlight, Joined, Joins, Run, Arrivals;
      var e, next := events[0], Next(w, events[0]);
      var h, later := AfterEvent(w.queue, e, key, g), Arrivals(next, events[1..], key);
      FirstEvent(w, events, key);
      StepInFlight(w, e, key, g);
      StepKeepsShape(w, e);
      if Joins(w.queue, e, key) {
        JoinsArrives(w.queue, e, key);
        JoinedInFlight(g, e);
        FlightGathers(next, events[1..], key, h);
        GatheredOneMore(Run(w, events).queue, key, g, h, w.queue.flights[key], ArrivalOf(e), later);
      } else {
        FlightGathers(next, events[1..], key, h);
        assert [] + later == later;
      }
    }
  }

  lemma FirstEvent(w: World, events: seq<Event>, key: string)
    requires events != []
    ensures Run(w, events) == Run(Next(w, events[0]), events[1..])
    ensures Arrivals(w, events, key)
         == (if Joins(w.queue, events[0], key) then [ArrivalOf(events[0])] else []) + Arrivals(Next(w, events[0]), events[1..], key)
  {
  }

  lemma JoinsArrives(q: Queue, e: Event, key: string)
    requires Joins(q, e, key)
    ensures e.Arrive?
  {
  }

  lemma JoinedInFlight(g: Group, e: Event)
    requires g.status == Delivering && e.Arrive?
    ensures var h := Joined(g, e.input, e.now);
            && h.status == Delivering && h.maxDeadlineAt == MaxReal(g.maxDeadlineAt, ArrivalOf(e).until)
            && h.deadlineAt == MinReal(h.maxDeadlineAt, ArrivalOf(e).settled)
            && g.items <= h.items && |h.items| == |g.items| + 1 && h.items[|g.items|].receivedAt == ArrivalOf(e).at
  {
  }

  lemma GatheredOneMore(q: Queue, key: string, g: Group, h: Group, sent: seq<Item>, first: Arrival, later: seq<Arrival>)
    requires Gathered(q, key, h, sent, later)
    requires h.maxDeadlineAt == MaxReal(g.maxDeadlineAt, first.until) && h.deadlineAt == MinReal(h.maxDeadlineAt, first.settled)
    requires g.items <= h.items && |h.items| == |g.items| + 1 && h.items[|g.items|].receivedAt == first.at
    ensures Gathered(q, key, g, sent, [first] + later)
  {
    var found := Find(q.groups, key).value;
    assert ([first] + later)[1..] == later;
    forall i | 0 <= i < |[first] + later|
      ensures found.items[|g.items| + i].receivedAt == ([first] + later)[i].at
    {
      if i > 0 {
        assert found.items[|h.items| + (i - 1)].receivedAt == later[i - 1].at;
      }
    }
  }

  /**
   * The group after a whole delivery: begun with what was pending, joined by these arrivals, and successful.  It is gone,
   * or waits again from its first arrival and at the latest until the bound at take-off or that of any arrival.
   */
  lemma RemainderWaits(w: World, events: seq<Event>, key: string, g: Group)
    requires Inv(w.queue) && Find(w.queue.groups, key) == Some(g) && g.status == Pending
    requires forall i :: 0 <= i < |events| ==> StaysInFlight(events[i], key)
    ensures var taken := Next(w, Flush(key));
            var landed := Next(Run(taken, events), DeliverySucceeds(key)).queue;
            var arrivals := Arrivals(taken, events, key);
            if arrivals == [] then Find(landed.groups, key) == None
            else WaitsWithin(landed, key, arrivals[0].at, Latest(g.maxDeadlineAt, arrivals))
                 && Find(landed.groups, key).value.deadlineAt == LastDeadline(g.maxDeadlineAt, arrivals)
  {
    hide Succeed, BeginFlush, StaysInFlight, Arrivals, Latest, Run, WaitsWithin, Gathered, Shape, GoodGroups, InStep;
    var taken := Next(w, Flush(key));
    var sending := g.(status := Delivering, attempts := g.attempts + 1, lastError := None);
    InvHasShape(w.queue);
    TakeOff(w.queue, key, g);
    StepKeepsInv(w, Flush(key));
    InvHasShape(taken.queue);
    FlightGathers(taken, events, key, sending);
    RunKeepsInv(taken, events);
    GatheredIsFlight(Run(taken, events).queue, key, sending, g.items, Arrivals(taken, events, key));
    Landing(Run(taken, events).queue, key, sending, Arrivals(taken, events, key));
  }

  lemma GatheredIsFlight(q: Queue, key: string, g: Group, sent: seq<Item>, arrivals: seq<Arrival>)
    requires Gathered(q, key, g, sent, arrivals)
    ensures key in q.flights
  {
  }

  lemma TakeOff(q: Queue, key: string, g: Group)
    requires Shape(q) && Find(q.groups, key) == Some(g) && g.status == Pending
    ensures var after := BeginFlush(q, key).0;
            && Find(after.groups, key) == Some(g.(status := Delivering, attempts := g.attempts + 1, lastError := None))
            && key in after.flights && after.flights[key] == g.items
  {
    FindIs(q.groups, key);
    FindAfterPut(q.groups, g.(status := Delivering, attempts := g.attempts + 1, lastError := None), key);
  }

  lemma Landing(q: Queue, key: string, g: Group, arrivals: seq<Arrival>)
    requires Inv(q) && Gathered(q, key, g, g.items, arrivals)
    ensures if arrivals == [] then Find(Succeed(q, key).groups, key) == None
            else WaitsWithin(Succeed(q, key), key, arrivals[0].at, Latest(g.maxDeadlineAt, arrivals))
                 && Find(Succeed(q, key).groups, key).value.deadlineAt == LastDeadline(g.maxDeadlineAt, arrivals)
  {
    hide FlightsMatch, Trim, AddAll, Latest, InStep;
    var h := FlightGroup(q, key);
    assert GoodGroup(h);
    RemainderIsAppended(g.items, h.items);
    RemoveIs(q.groups, key);
    FindIs(Remove(q.groups, key), key);
    FindAfterPut(q.groups, Remainder(h, g.items), key);
  }

  /** What is left of the group after that delivery. */
  function RemainderOf(w: World, events: seq<Event>, key: string): Option<Group> {
    Find(Next(Run(Next(w, Flush(key)), events), DeliverySucceeds(key)).queue.groups, key)
  }

  /** A delivery of this pending group that some fragments joined. */
  ghost predicate JoinedDelivery(w: World, events: seq<Event>, key: string, g: Group) {
    && Inv(w.queue) && Find(w.queue.groups, key) == Some(g) && g.status == Pending
    && (forall i :: 0 <= i < |events| ==> StaysInFlight(events[i], key))
    && Arrivals(Next(w, Flush(key)), events, key) != []
  }

  lemma RemainderIs(w: World, events: seq<Event>, key: string, g: Group)
    requires JoinedDelivery(w, events, key, g)
    ensures var rest, arrivals := RemainderOf(w, events, key), Arrivals(Next(w, Flush(key)), events, key);
            && rest.Some? && rest.value.createdAt == arrivals[0].at
            && rest.value.maxDeadlineAt == Latest(g.maxDeadlineAt, arrivals)
  {
    hide Run, Arrivals, StaysInFlight, Latest, Inv;
    RemainderWaits(w, events, key, g);
  }

  /**
   * When the 300 s window holds for what is left after a success: if and only if the bound at take-off and that of every
   * arrival during the delivery lie within 300 s of the first arrival.
   */
  lemma RemainderWindowIff(w: World, events: seq<Event>, key: string, g: Group)
    requires JoinedDelivery(w, events, key, g)
    ensures var rest, arrivals := RemainderOf(w, events, key), Arrivals(Next(w, Flush(key)), events, key);
            && rest.Some? && rest.value.createdAt == arrivals[0].at
            && (rest.value.maxDeadlineAt <= rest.value.createdAt + 300000.0 <==>
                  && g.maxDeadlineAt <= arrivals[0].at + 300000.0
                  && forall i :: 0 <= i < |arrivals| ==> arrivals[i].until <= arrivals[0].at + 300000.0)
  {
    hide Next, RemainderOf, Arrivals, Latest;
    var arrivals := Arrivals(Next(w, Flush(key)), events, key);
    RemainderIs(w, events, key, g);
    LatestIs(g.maxDeadlineAt, arrivals, arrivals[0].at + 300000.0);
  }

  /** When the latest of these arrivals came. */
  function LatestAt(arrivals: seq<Arrival>): (at: real)
    requires arrivals != []
    ensures forall i :: 0 <= i < |arrivals| ==> arrivals[i].at <= at
    ensures exists i :: 0 <= i < |arrivals| && arrivals[i].at == at
  {
    if |arrivals| == 1 then arrivals[0].at
    else
      assert arrivals == [arrivals[0]] + arrivals[1..];
      MaxReal(arrivals[0].at, LatestAt(arrivals[1..]))
  }

  /** The bound that always holds: that of take-off, or 300 s after the latest arrival during the delivery. */
  lemma RemainderBound(w: World, events: seq<Event>, key: string, g: Group)
    requires JoinedDelivery(w, events, key, g)
    ensures var rest, arrivals := RemainderOf(w, events, key), Arrivals(Next(w, Flush(key)), events, key);
            rest.Some? && rest.value.maxDeadlineAt <= MaxReal(g.maxDeadlineAt, LatestAt(arrivals) + 300000.0)
  {
    hide Next, RemainderOf, Arrivals, Latest, LatestAt, MaxReal;
    RemainderIs(w, events, key, g);
    ArrivalsWaitAtMost(Next(w, Flush(key)), events, key);
    LatestBound(g.maxDeadlineAt, Arrivals(Next(w, Flush(key)), events, key));
  }

  lemma LatestBound(maxDeadlineAt: real, arrivals: seq<Arrival>)
    requires arrivals != [] && forall i :: 0 <= i < |arrivals| ==> arrivals[i].until <= arrivals[i].at + 300000.0
    ensures Latest(maxDeadlineAt, arrivals) <= MaxReal(maxDeadlineAt, LatestAt(arrivals) + 300000.0)
  {
    hide LatestAt;
    LatestIs(maxDeadlineAt, arrivals, MaxReal(maxDeadlineAt, LatestAt(arrivals) + 300000.0));
  }

  lemma {:induction false} ArrivalsWaitAtMost(w: World, events: seq<Event>, key: string)
    ensures forall i :: 0 <= i < |Arrivals(w, events, key)| ==>
              Arrivals(w, events, key)[i].until <= Arrivals(w, events, key)[i].at + 300000.0
    decreases |events|
  {
    hide Next, Joins;
    if events != [] {
      ArrivalsWaitAtMost(Next(w, events[0]), events[1..], key);
    }
  }

  // ---- A remainder that waits too long ----

  const SLOW := Policy(Some(300.0), Some(300.0), Some(300.0))

  function SlowFragment(identity: string): Input {
    Input("key", "base", "endpoint", "conversation", "sender", None, identity, false, SLOW, "chat", "text")
  }

  /** A group taken off at 0 s and joined at 10 s and 20 s waits until 320 s, 310 s after its new creation. */
  lemma RemainderWindowExceeded()
    ensures var w := World(Enqueue(EMPTY, SlowFragment("id1"), 0.0, "group").queue, {}, {}, {});
            var events := [Arrive(SlowFragment("id2"), 10000.0, "x"), Arrive(SlowFragment("id3"), 20000.0, "y")];
            var rest := Find(Next(Run(Next(w, Flush("key")), events), DeliverySucceeds("key")).queue.groups, "key");
            && rest.Some? && rest.value.createdAt == 10000.0 && rest.value.maxDeadlineAt == 320000.0
            && rest.value.deadlineAt == 320000.0 > rest.value.createdAt + 300000.0
  {
    hide Next, Run, Arrivals, Inv, StaysInFlight, Latest, Joined, Find;
    var w := World(Enqueue(EMPTY, SlowFragment("id1"), 0.0, "group").queue, {}, {}, {});
    var second, third := Arrive(SlowFragment("id2"), 10000.0, "x"), Arrive(SlowFragment("id3"), 20000.0, "y");
    var g := Joined(NewGroup(SlowFragment("id1"), 0.0, "group"), SlowFragment("id1"), 0.0);
    OneGroup(w, g);
    FlushTakesOff(w, g);
    SlowArrivals(Next(w, Flush("key")), second, third, g.(status := Delivering, attempts := g.attempts + 1, lastError := None));
    Arriving(second, "key");
    Arriving(third, "key");
    RemainderWaits(w, [second, third], "key", g);
  }

  lemma SlowArrivals(w: World, second: Event, third: Event, g: Group)
    requires second == Arrive(SlowFragment("id2"), 10000.0, "x") && third == Arrive(SlowFragment("id3"), 20000.0, "y")
    requires Shape(w.queue) && Find(w.queue.groups, "key") == Some(g) && w.queue.delivered == []
    requires |g.items| == 1 && g.items[0].identity == "id1"
    ensures var arrivals := Arrivals(w, [second, third], "key");
            && arrivals == [Arrival(10000.0, 310000.0, 310000.0), Arrival(20000.0, 320000.0, 320000.0)]
            && Latest(300000.0, arrivals) == 320000.0 && LastDeadline(300000.0, arrivals) == 320000.0
  {
    hide Next, Run, Arrivals, Shape, Joins, Find;
    JoinsFlight(w, second, "key", g);
    JoinsFlight(Next(w, second), third, "key", Joined(g, second.input, second.now));
    var events := [second, third];
    assert events[1..] == [third] && [third][1..] == [];
    FirstEvent(w, events, "key");
    FirstEvent(Next(w, second), [third], "key");
    NoArrivals(Next(Next(w, second), third), "key");
    var arrivals := Arrivals(w, events, "key");
    assert arrivals == [Arrival(10000.0, 310000.0, 310000.0), Arrival(20000.0, 320000.0, 320000.0)];
    assert arrivals[1..] == [arrivals[1]] && [arrivals[1]][1..] == [];
    assert Latest(320000.0, []) == 320000.0;
  }

  lemma Arriving(e: Event, key: string)
    requires e.Arrive?
    ensures StaysInFlight(e, key)
  {
  }

  lemma NoArrivals(w: World, key: string)
    ensures Arrivals(w, [], key) == []
  {
  }

  lemma OneGroup(w: World, g: Group)
    requires w == World(Enqueue(EMPTY, SlowFragment("id1"), 0.0, "group").queue, {}, {}, {})
    requires g == Joined(NewGroup(SlowFragment("id1"), 0.0, "group"), SlowFragment("id1"), 0.0)
    ensures Inv(w.queue) && Find(w.queue.groups, "key") == Some(g) && w.queue.delivered == [] && g.status == Pending
    ensures g.maxDeadlineAt == 300000.0 && |g.items| == 1 && g.items[0].identity == "id1" && g.key == "key"
  {
    StartIsSafe();
    assert RestoreGroups([]) == [];
    var start := World(EMPTY, {}, {}, {});
    StepKeepsInv(start, Arrive(SlowFragment("id1"), 0.0, "group"));
    assert Existing([], SlowFragment("id1")) == None;
    assert w.queue.groups == [g];
  }

  lemma FlushTakesOff(w: World, g: Group)
    requires Inv(w.queue) && Find(w.queue.groups, "key") == Some(g) && g.status == Pending && w.queue.delivered == []
    ensures var taken := Next(w, Flush("key"));
            && Shape(taken.queue) && taken.queue.delivered == []
            && Find(taken.queue.groups, "key") == Some(g.(status := Delivering, attempts := g.attempts + 1, lastError := None))
  {
    StepKeepsShape(w, Flush("key"));
    TakeOff(w.queue, "key", g);
  }

  /** A fragment of the key of a delivering group joins it, unless it is known. */
  lemma JoinsFlight(w: World, e: Event, key: string, g: Group)
    requires Shape(w.queue) && Find(w.queue.groups, key) == Some(g) && w.queue.delivered == []
    requires e.Arrive? && e.input.key == key && e.input.identity !in Identities(g.items)
    ensures Joins(w.queue, e, key)
    ensures Shape(Next(w, e).queue) && Next(w, e).queue.delivered == []
    ensures Find(Next(w, e).queue.groups, key) == Some(Joined(g, e.input, e.now))
  {
    FindIs(w.queue.groups, key);
    StepKeepsShape(w, e);
    ArrivalInFlight(w, e, key, g);
  }

  // ---- Retries ----

  lemma {:induction false} Power2Grows(a: nat, b: nat)
    requires a <= b
    ensures 1 <= Power2(a) <= Power2(b)
    decreases b
  {
    if a < b {
      Power2Grows(a, b - 1);
    } else if a > 0 {
      Power2Grows(a - 1, b - 1);
    }
  }

  /** The retry delay never shrinks with more attempts and stays between 5 and 60 seconds. */
  lemma RetryDelays(fewer: nat, more: nat)
    requires 1 <= fewer <= more
    ensures 5 <= RetrySeconds(fewer) <= RetrySeconds(more) <= 60
  {
    Power2Grows(Min(4, fewer - 1), Min(4, more - 1));
  }
}
