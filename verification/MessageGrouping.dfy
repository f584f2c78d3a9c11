/**
 * The message grouping queue: fragments of one conversation are collected, delivered together after
 * a quiet period, retried on failure, and persisted after every change.
 *
 * Times are milliseconds.  A delivery is split into its begin and its end, because fragments may be
 * enqueued in between.
 */
module MessageGrouping {
  import opened Common

  const DELIVERED_WINDOW := 2000

  datatype Item = Item(identity: string, receivedAt: real, incomplete: bool, routeKind: string, body: string)

  datatype Status = Pending | Delivering

  datatype Group = Group(
    groupId: string, key: string, baseKey: string, endpoint: string, conversationKey: string, sender: string,
    replyTo: Option<string>, createdAt: real, updatedAt: real, deadlineAt: real, maxDeadlineAt: real,
    status: Status, attempts: nat, lastError: Option<string>, items: seq<Item>)

  /** The state file. */
  datatype Saved = Saved(pending: seq<Group>, delivered: seq<string>)

  /**
   * The queue in memory and its state file.  `groups` and `delivered` are kept in insertion order;
   * `flights` holds, for every delivery under way, the items of its snapshot.
   */
  datatype Queue = Queue(groups: seq<Group>, delivered: seq<string>, timers: set<string>,
                         flights: map<string, seq<Item>>, disk: Saved)

  // ---- Policies ----

  /** Waiting times in seconds; None stands for a value that is not a finite number. */
  datatype Policy = Policy(settle: Option<real>, incompleteSettle: Option<real>, maxWait: Option<real>)

  function MaxReal(a: real, b: real): real {
    if a < b then b else a
  }

  function MinReal(a: real, b: real): real {
    if a < b then a else b
  }

  function NormalizedSeconds(value: Option<real>, fallback: real): real {
    if value.Some? && value.value > 0.0 then MaxReal(1.0, MinReal(300.0, value.value)) else fallback
  }

  function SettleSeconds(policy: Policy): real {
    NormalizedSeconds(policy.settle, 6.0)
  }

  function IncompleteSettleSeconds(policy: Policy): real {
    MaxReal(SettleSeconds(policy), NormalizedSeconds(policy.incompleteSettle, 12.0))
  }

  function MaxWaitSeconds(policy: Policy): (seconds: real)
    ensures 1.0 <= seconds <= 300.0
  {
    MaxReal(IncompleteSettleSeconds(policy), NormalizedSeconds(policy.maxWait, 20.0))
  }

  function Power2(n: nat): nat {
    if n == 0 then 1 else 2 * Power2(n - 1)
  }

  /** Seconds before a failed delivery is tried again; `attempts` counts the failed one. */
  function RetrySeconds(attempts: nat): int
    requires attempts >= 1
  {
    Min(60, 5 * Power2(Min(4, attempts - 1)))
  }

  // ---- Groups by key ----

  function Find(groups: seq<Group>, key: string): Option<Group> {
    if groups == [] then None
    else if groups[0].key == key then Some(groups[0])
    else Find(groups[1..], key)
  }

  function Put(groups: seq<Group>, group: Group): seq<Group> {
    if groups == [] then [group]
    else if groups[0].key == group.key then [group] + groups[1..]
    else [groups[0]] + Put(groups[1..], group)
  }

  function Remove(groups: seq<Group>, key: string): seq<Group> {
    if groups == [] then []
    else if groups[0].key == key then groups[1..]
    else [groups[0]] + Remove(groups[1..], key)
  }

  function Identities(items: seq<Item>): set<string> {
    set i | 0 <= i < |items| :: items[i].identity
  }

  function WithoutIdentities(items: seq<Item>, gone: set<string>): seq<Item> {
    if items == [] then []
    else (if items[0].identity in gone then [] else [items[0]]) + WithoutIdentities(items[1..], gone)
  }

  // ---- Recovery ----

  function RecoverableItems(items: seq<Item>): seq<Item> {
    if items == [] then []
    else (if items[0].identity != "" && items[0].routeKind != "" then [items[0]] else []) + RecoverableItems(items[1..])
  }

  predicate HasKeyFields(g: Group) {
    g.groupId != "" && g.key != "" && g.baseKey != "" && g.endpoint != "" && g.conversationKey != "" && g.sender != ""
  }

  function NormalizeGroup(g: Group): Option<Group> {
    var items := RecoverableItems(g.items);
    if !HasKeyFields(g) || items == [] then None
    else Some(g.(maxDeadlineAt := MaxReal(g.deadlineAt, g.maxDeadlineAt), status := Pending, items := items,
                 lastError := if g.lastError == Some("") then None else g.lastError))
  }

  function RestoreGroups(pending: seq<Group>): seq<Group> {
    if pending == [] then []
    else
      var earlier := RestoreGroups(pending[..|pending| - 1]);
      match NormalizeGroup(pending[|pending| - 1])
      case None => earlier
      case Some(group) => Put(earlier, group)
  }

  function Keys(groups: seq<Group>): set<string> {
    set i | 0 <= i < |groups| :: groups[i].key
  }

  function KeepNonEmpty(ids: seq<string>): seq<string> {
    if ids == [] then [] else (if ids[0] == "" then [] else [ids[0]]) + KeepNonEmpty(ids[1..])
  }

  /** A new queue over a state file; every recovered group is armed. */
  function Recover(disk: Saved): Queue {
    var groups := RestoreGroups(disk.pending);
    Queue(groups, AddAll([], LastN(KeepNonEmpty(disk.delivered), DELIVERED_WINDOW)), Keys(groups), map[], disk)
  }

  /** Adds identities to an insertion-ordered set. */
  function AddAll(ids: seq<string>, more: seq<string>): seq<string>
    decreases |more|
  {
    if more == [] then ids else AddAll(if more[0] in ids then ids else ids + [more[0]], more[1..])
  }

  /** Forgets the oldest delivered identities; an empty one stops the loop. */
  function Trim(ids: seq<string>): seq<string> {
    if |ids| > DELIVERED_WINDOW && ids[0] != "" then Trim(ids[1..]) else ids
  }

  // ---- Operations ----

  datatype Input = Input(key: string, baseKey: string, endpoint: string, conversationKey: string, sender: string,
                         replyTo: Option<string>, identity: string, incomplete: bool, policy: Policy,
                         routeKind: string, body: string)

  function Persist(q: Queue): Queue {
    q.(disk := Saved(q.groups, q.delivered))
  }

  /** Pending groups a fragment without a quoted message may join. */
  function BaseCandidates(groups: seq<Group>, input: Input): seq<Group> {
    if groups == [] || (input.replyTo.Some? && input.replyTo.value != "") then []
    else (if groups[0].baseKey == input.baseKey && groups[0].status == Pending then [groups[0]] else [])
         + BaseCandidates(groups[1..], input)
  }

  function Existing(groups: seq<Group>, input: Input): Option<Group> {
    var exact := Find(groups, input.key);
    if exact.Some? then exact
    else
      var candidates := BaseCandidates(groups, input);
      if |candidates| == 1 then Some(candidates[0]) else None
  }

  function NewGroup(input: Input, now: real, groupId: string): Group {
    Group(groupId, input.key, input.baseKey, input.endpoint, input.conversationKey, input.sender, input.replyTo,
          now, now, now, now + MaxWaitSeconds(input.policy) * 1000.0, Pending, 0, None, [])
  }

  /** The group after the fragment joined it. */
  function Joined(g: Group, input: Input, now: real): Group {
    var maxDeadlineAt := if g.status == Delivering
                         then MaxReal(g.maxDeadlineAt, now + MaxWaitSeconds(input.policy) * 1000.0)
                         else g.maxDeadlineAt;
    var wait := if input.incomplete then IncompleteSettleSeconds(input.policy) else SettleSeconds(input.policy);
    g.(updatedAt := now, lastError := None, maxDeadlineAt := maxDeadlineAt,
       deadlineAt := MinReal(maxDeadlineAt, now + wait * 1000.0),
       items := g.items + [Item(input.identity, now, input.incomplete, input.routeKind, input.body)])
  }

  datatype Enqueued = Enqueued(queue: Queue, groupId: string, accepted: bool, itemCount: nat)

  function Enqueue(q: Queue, input: Input, now: real, freshId: string): Enqueued {
    if input.identity in q.delivered then Enqueued(q, "", false, 0)
    else
      var existing := Existing(q.groups, input);
      if existing.Some? && input.identity in Identities(existing.value.items)
      then Enqueued(q, existing.value.groupId, false, |existing.value.items|)
      else
        var g := Joined(if existing.Some? then existing.value else NewGroup(input, now, freshId), input, now);
        var stored := Persist(q.(groups := Put(q.groups, g)));
        Enqueued(if g.status == Delivering then stored else stored.(timers := stored.timers + {g.key}),
                 g.groupId, true, |g.items|)
  }

  /** Starts a delivery; false when there is nothing to deliver. */
  function BeginFlush(q: Queue, key: string): (Queue, bool) {
    match Find(q.groups, key)
    case None => (q, false)
    case Some(g) =>
      if g.status == Delivering then (q, false)
      else
        var sending := g.(status := Delivering, attempts := g.attempts + 1, lastError := None);
        (Persist(q.(groups := Put(q.groups, sending), timers := q.timers - {key}, flights := q.flights[key := g.items])), true)
  }

  function FireTimer(q: Queue, key: string): (Queue, bool) {
    BeginFlush(q.(timers := q.timers - {key}), key)
  }

  function IdentityList(items: seq<Item>): seq<string> {
    seq(|items|, i requires 0 <= i < |items| => items[i].identity)
  }

  function EndFlush(q: Queue, key: string): Queue {
    q.(flights := q.flights - {key})
  }

  /** The delivery of the snapshot succeeded. */
  function Succeed(q: Queue, key: string): Queue
    requires key in q.flights
  {
    match Find(q.groups, key)
    case None => q
    case Some(g) =>
      var sent := q.flights[key];
      var items := WithoutIdentities(g.items, Identities(sent));
      var told := q.(delivered := Trim(AddAll(q.delivered, IdentityList(sent))));
      if items == [] then Persist(EndFlush(told.(groups := Remove(told.groups, key)), key))
      else
        var rest := g.(items := items, status := Pending, attempts := 0, lastError := None, createdAt := items[0].receivedAt);
        Persist(EndFlush(told.(groups := Put(told.groups, rest), timers := told.timers + {key}), key))
  }

  /** The group after a failed delivery. */
  function Waiting(g: Group, now: real, error: string): Group {
    var deadlineAt := now + RetrySeconds(Max(1, g.attempts)) as real * 1000.0;
    g.(status := Pending, lastError := Some(error), deadlineAt := deadlineAt,
       maxDeadlineAt := MaxReal(g.maxDeadlineAt, deadlineAt))
  }

  /** The delivery failed: the group waits for a retry. */
  function Fail(q: Queue, key: string, now: real, error: string): Queue
    requires key in q.flights
  {
    match Find(q.groups, key)
    case None => q
    case Some(g) =>
      Persist(EndFlush(q.(groups := Put(q.groups, Waiting(g, now, error)), timers := q.timers + {key}), key))
  }

  function Close(q: Queue): Queue {
    Persist(q.(timers := {}))
  }

  /** The group an accepted fragment ends up in. */
  function Target(q: Queue, input: Input, now: real, freshId: string): Group {
    var existing := Existing(q.groups, input);
    Joined(if existing.Some? then existing.value else NewGroup(input, now, freshId), input, now)
  }

  // ---- Runs ----

  datatype Event =
    | Arrive(input: Input, now: real, freshId: string)
    | Flush(key: string)
    | TimerFires(key: string)
    | DeliverySucceeds(key: string)
    | DeliveryFails(key: string, now: real, error: string)
    | SucceedsThenCrash(key: string)
    | Crash
    | Shutdown

  /**
   * A run's state, with every identity ever accepted, those accepted in a place a restart recovers, and every
   * identity in a delivered snapshot.
   */
  datatype World = World(queue: Queue, accepted: set<string>, recoverable: set<string>, done: set<string>)

  /** An accepted fragment a restart would recover: its group has all key fields, and it has an identity and a route kind. */
  predicate RecoverableArrival(q: Queue, input: Input, now: real, freshId: string) {
    && Enqueue(q, input, now, freshId).accepted
    && HasKeyFields(Target(q, input, now, freshId)) && input.identity != "" && input.routeKind != ""
  }

  function Next(w: World, e: Event): World {
    match e
    case Arrive(input, now, freshId) =>
      var run := Enqueue(w.queue, input, now, freshId);
      World(run.queue, if run.accepted then w.accepted + {input.identity} else w.accepted,
            if RecoverableArrival(w.queue, input, now, freshId) then w.recoverable + {input.identity} else w.recoverable, w.done)
    case Flush(key) => w.(queue := BeginFlush(w.queue, key).0)
    case TimerFires(key) => if key in w.queue.timers then w.(queue := FireTimer(w.queue, key).0) else w
    case DeliverySucceeds(key) =>
      if key in w.queue.flights then w.(queue := Succeed(w.queue, key), done := w.done + Identities(w.queue.flights[key])) else w
    case DeliveryFails(key, now, error) => if key in w.queue.flights then w.(queue := Fail(w.queue, key, now, error)) else w
    case SucceedsThenCrash(key) =>
      if key in w.queue.flights then w.(queue := Recover(w.queue.disk), done := w.done + Identities(w.queue.flights[key])) else w
    case Crash => w.(queue := Recover(w.queue.disk))
    case Shutdown => w.(queue := Close(w.queue))
  }

  function Run(w: World, events: seq<Event>): World
    decreases |events|
  {
    if events == [] then w else Run(Next(w, events[0]), events[1..])
  }

  // ---- Groups have unique keys ----

  ghost predicate UniqueKeys(groups: seq<Group>) {
    forall i, j :: 0 <= i < j < |groups| ==> groups[i].key != groups[j].key
  }

  lemma {:induction false} FindIs(groups: seq<Group>, key: string)
    requires UniqueKeys(groups)
    ensures match Find(groups, key)
            case Some(g) => g in groups && g.key == key
            case None => forall g :: g in groups ==> g.key != key
    ensures forall g :: g in groups && g.key == key ==> Find(groups, key) == Some(g)
  {
    if groups != [] {
      assert groups == [groups[0]] + groups[1..];
      FindIs(groups[1..], key);
    }
  }

  lemma {:induction false} PutIs(groups: seq<Group>, group: Group)
    requires UniqueKeys(groups)
    ensures UniqueKeys(Put(groups, group))
    ensures forall g :: g in Put(groups, group) <==> g == group || (g in groups && g.key != group.key)
    ensures (forall g :: g in groups ==> g.key != group.key) ==> Put(groups, group) == groups + [group]
  {
    if groups != [] {
      assert groups == [groups[0]] + groups[1..];
      if groups[0].key != group.key {
        PutIs(groups[1..], group);
        var rest := Put(groups[1..], group);
        forall j | 0 <= j < |rest|
          ensures rest[j].key != groups[0].key
        {
          assert rest[j] in rest;
        }
      }
    }
  }

  lemma {:induction false} RemoveIs(groups: seq<Group>, key: string)
    requires UniqueKeys(groups)
    ensures UniqueKeys(Remove(groups, key))
    ensures forall g :: g in Remove(groups, key) <==> g in groups && g.key != key
  {
    if groups != [] {
      assert groups == [groups[0]] + groups[1..];
      if groups[0].key != key {
        RemoveIs(groups[1..], key);
        var rest := Remove(groups[1..], key);
        forall j | 0 <= j < |rest|
          ensures rest[j].key != groups[0].key
        {
          assert rest[j] in rest;
        }
      }
    }
  }

  lemma {:induction false} FindAfterPut(groups: seq<Group>, group: Group, key: string)
    ensures Find(Put(groups, group), key) == if key == group.key then Some(group) else Find(groups, key)
  {
    if groups != [] && groups[0].key != group.key {
      FindAfterPut(groups[1..], group, key);
    }
  }

  lemma {:induction false} FindAfterRemove(groups: seq<Group>, gone: string, key: string)
    requires key != gone
    ensures Find(Remove(groups, gone), key) == Find(groups, key)
  {
    if groups != [] && groups[0].key != gone {
      FindAfterRemove(groups[1..], gone, key);
    }
  }

  lemma {:induction false} ExistingIsGroup(groups: seq<Group>, input: Input)
    ensures Existing(groups, input).Some? ==> Existing(groups, input).value in groups
    ensures Existing(groups, input) == None ==> Find(groups, input.key) == None
    ensures forall g :: g in BaseCandidates(groups, input) ==> g in groups && g.status == Pending
    ensures Find(groups, input.key).Some? ==> Find(groups, input.key).value in groups
  {
    if groups != [] {
      assert groups == [groups[0]] + groups[1..];
      ExistingIsGroup(groups[1..], input);
    }
  }

  // ---- The queue object ----

  class MessageGroupingQueue {
    var groups: seq<Group>
    var deliveredIdentities: seq<string>
    var timers: set<string>
    var flights: map<string, seq<Item>>
    var disk: Saved

    function State(): Queue
      reads this
    {
      Queue(groups, deliveredIdentities, timers, flights, disk)
    }

    /** Recovers the queue from its state file and arms every group. */
    constructor (saved: Saved)
      ensures State() == Recover(saved)
    {
      hide Put, Keys, NormalizeGroup, AddAll, LastN, KeepNonEmpty;
      deliveredIdentities := AddAll([], LastN(KeepNonEmpty(saved.delivered), DELIVERED_WINDOW));
      groups, timers, flights, disk := [], {}, map[], saved;
      new;
      NoKeys();
      var i := 0;
      assert saved.pending[..|saved.pending|] == saved.pending;
      while i < |saved.pending|
        invariant 0 <= i <= |saved.pending|
        invariant groups == RestoreGroups(saved.pending[..i])
        invariant timers == Keys(groups)
        invariant deliveredIdentities == AddAll([], LastN(KeepNonEmpty(saved.delivered), DELIVERED_WINDOW))
        invariant flights == map[] && disk == saved
      {
        assert saved.pending[..i + 1][..i] == saved.pending[..i];
        var recovered := NormalizeGroup(saved.pending[i]);
        if recovered.Some? {
          PutKeys(groups, recovered.value);
          groups := Put(groups, recovered.value);
          timers := timers + {recovered.value.key};
        }
        i := i + 1;
      }
    }

    method PersistState()
      modifies this`disk
      ensures State() == Persist(old(State()))
    {
      disk := Saved(groups, deliveredIdentities);
    }

    method EnqueueMessage(input: Input, now: real, freshId: string) returns (groupId: string, accepted: bool, itemCount: nat)
      modifies this
      ensures Enqueued(State(), groupId, accepted, itemCount) == Enqueue(old(State()), input, now, freshId)
    {
      if input.identity in deliveredIdentities {
        return "", false, 0;
      }
      var existing := Existing(groups, input);
      if existing.Some? && input.identity in Identities(existing.value.items) {
        return existing.value.groupId, false, |existing.value.items|;
      }
      var group := if existing.Some? then existing.value else NewGroup(input, now, freshId);
      var wasDelivering := group.status == Delivering;
      group := Joined(group, input, now);
      groups := Put(groups, group);
      PersistState();
      if !wasDelivering {
        timers := timers + {group.key};
      }
      return group.groupId, true, |group.items|;
    }

    /** The part of a flush before the delivery is awaited. */
    method BeginDelivery(key: string) returns (started: bool)
      modifies this
      ensures (State(), started) == BeginFlush(old(State()), key)
    {
      var found := Find(groups, key);
      if found == None || found.value.status == Delivering {
        return false;
      }
      var group := found.value;
      timers := timers - {key};
      flights := flights[key := group.items];
      groups := Put(groups, group.(status := Delivering, attempts := group.attempts + 1, lastError := None));
      PersistState();
      return true;
    }

    method RememberDelivered(identities: seq<string>)
      modifies this`deliveredIdentities
      ensures deliveredIdentities == Trim(AddAll(old(deliveredIdentities), identities))
    {
      var i := 0;
      assert identities[0..] == identities;
      while i < |identities|
        invariant 0 <= i <= |identities|
        invariant AddAll(deliveredIdentities, identities[i..]) == AddAll(old(deliveredIdentities), identities)
      {
        if identities[i] !in deliveredIdentities {
          deliveredIdentities := deliveredIdentities + [identities[i]];
        }
        i := i + 1;
      }
      while |deliveredIdentities| > DELIVERED_WINDOW
        invariant Trim(deliveredIdentities) == Trim(AddAll(old(deliveredIdentities), identities))
        decreases |deliveredIdentities|
      {
        if deliveredIdentities[0] == "" {
          break;
        }
        deliveredIdentities := deliveredIdentities[1..];
      }
    }

    method DeliverySucceeded(key: string)
      requires key in flights
      modifies this
      ensures State() == Succeed(old(State()), key)
    {
      var found := Find(groups, key);
      if found == None {
        return;
      }
      var group, sent := found.value, flights[key];
      var items := WithoutIdentities(group.items, Identities(sent));
      RememberDelivered(IdentityList(sent));
      if items == [] {
        groups := Remove(groups, key);
      } else {
        groups := Put(groups, group.(items := items, status := Pending, attempts := 0, lastError := None,
                                     createdAt := items[0].receivedAt));
        timers := timers + {key};
      }
      flights := flights - {key};
      PersistState();
    }

    method DeliveryFailed(key: string, now: real, error: string)
      requires key in flights
      modifies this
      ensures State() == Fail(old(State()), key, now, error)
    {
      var found := Find(groups, key);
      if found == None {
        return;
      }
      groups := Put(groups, Waiting(found.value, now, error));
      flights := flights - {key};
      PersistState();
      timers := timers + {key};
    }

    method CloseQueue()
      modifies this
      ensures State() == Close(old(State()))
    {
      timers := {};
      PersistState();
    }
  }

  lemma {:induction false} PutKeys(groups: seq<Group>, group: Group)
    ensures Keys(Put(groups, group)) == Keys(groups) + {group.key}
  {
    if groups != [] {
      assert groups == [groups[0]] + groups[1..];
      KeysOfCons(groups[0], groups[1..]);
      if groups[0].key == group.key {
        KeysOfCons(group, groups[1..]);
      } else {
        PutKeys(groups[1..], group);
        KeysOfCons(groups[0], Put(groups[1..], group));
      }
    } else {
      assert [group] + groups == [group];
      KeysOfCons(group, groups);
    }
  }

  lemma NoKeys()
    ensures Keys([]) == {}
  {
  }

  lemma KeysOfCons(group: Group, groups: seq<Group>)
    ensures Keys([group] + groups) == {group.key} + Keys(groups)
  {
    forall i | 0 <= i < |groups|
      ensures groups[i].key in Keys([group] + groups)
    {
      assert ([group] + groups)[i + 1] == groups[i];
    }
    assert ([group] + groups)[0] == group;
  }
}
