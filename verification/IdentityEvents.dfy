/**
 * The identity relation log: events that carry a whole record and name the events they supersede.
 *
 * The state of a record is computed from the events nothing supersedes, its heads.  Event ids and times
 * stand for their rank in the collation order; texts are those left after trimming and cutting.
 */
module IdentityEvents {
  import opened Common
  import opened Ordering

  const MAX_LIST := 50
  const OBSERVED_PREFIX := "identity-participant-observed-"

  type EventId = int

  datatype Status = Candidate | Confirmed | Corrected | Retired

  datatype ParticipantKind = Person | Organization | SharedAccount | Automated | UnknownKind

  datatype TargetKind = ParticipantTarget | OrganizationTarget | ProjectTarget

  datatype Evidence = Evidence(messageId: Option<string>, note: string)

  datatype Link = Link(participantId: string, status: Status, confidence: Option<real>, evidence: seq<Evidence>)

  datatype Scope = Scope(conversationKeys: seq<string>, projectIds: seq<string>)

  datatype Record =
    | Endpoint(id: string, platform: string, namespace: string, sender: string, displayName: Option<string>,
               isSelf: Option<bool>, links: seq<Link>, updatedAt: int)
    | Participant(id: string, kind: ParticipantKind, displayName: Option<string>, aliases: seq<string>, habits: seq<string>,
                  status: Status, evidence: seq<Evidence>, updatedAt: int)
    | Card(id: string, subject: string, targetKind: TargetKind, targetId: string, relationship: string, status: Status,
           scope: Scope, evidence: seq<Evidence>, updatedAt: int)

  datatype RecordKind = EndpointKind | PersonKind | CardKind

  /** What an event is about. */
  datatype RecordKey = RecordKey(kind: RecordKind, id: string)

  /** `supersedes` is None on legacy events, which supersede whatever was current when they were written. */
  datatype Event = Event(id: EventId, record: Record, supersedes: Option<set<EventId>>)

  function KeyOf(record: Record): RecordKey {
    RecordKey(if record.Endpoint? then EndpointKind else if record.Participant? then PersonKind else CardKind, record.id)
  }

  function GroupOf(log: seq<Event>, key: RecordKey): seq<Event> {
    if log == [] then []
    else (if KeyOf(log[0].record) == key then [log[0]] else []) + GroupOf(log[1..], key)
  }

  // ---- Heads ----

  /** The explicit parents of an event, never itself. */
  function Parents(e: Event): Option<set<EventId>> {
    if e.supersedes == None then None else Some(e.supersedes.value - {e.id})
  }

  function ExplicitlySuperseded(group: seq<Event>): set<EventId> {
    if group == [] then {}
    else
      var parents := Parents(group[|group| - 1]);
      ExplicitlySuperseded(group[..|group| - 1]) + if parents.Some? then parents.value else {}
  }

  /** Walking the log in order: ids superseded so far, and the ids still current. */
  datatype Walked = Walked(superseded: set<EventId>, current: set<EventId>)

  function WalkOne(w: Walked, e: Event, explicit: set<EventId>): Walked {
    var parents := if Parents(e).Some? then Parents(e).value else w.current;
    Walked(w.superseded + parents, (w.current - parents) + if e.id in explicit then {} else {e.id})
  }

  function Walk(group: seq<Event>, explicit: set<EventId>): Walked {
    if group == [] then Walked({}, {})
    else WalkOne(Walk(group[..|group| - 1], explicit), group[|group| - 1], explicit)
  }

  function Superseded(group: seq<Event>, explicit: set<EventId>): set<EventId> {
    explicit + Walk(group, explicit).superseded
  }

  function NotIn(group: seq<Event>, gone: set<EventId>): seq<Event> {
    if group == [] then []
    else (if group[0].id in gone then [] else [group[0]]) + NotIn(group[1..], gone)
  }

  /** The events nothing supersedes; if every one is superseded, the last. */
  function Heads(group: seq<Event>): seq<Event> {
    var heads := NotIn(group, Superseded(group, ExplicitlySuperseded(group)));
    if heads == [] && group != [] then [group[|group| - 1]] else heads
  }

  // ---- Collapsing the heads into one record ----

  predicate IsObservedCandidate(r: Record) {
    r.Participant? && OBSERVED_PREFIX <= r.id && r.kind == UnknownKind && r.status == Candidate
  }

  /** The fields in which heads may not differ without conflict. */
  datatype Compared =
    | ComparedEndpoint(id: string, platform: string, namespace: string, sender: string, isSelf: Option<bool>, links: seq<Link>)
    | ComparedObserved(id: string, kind: ParticipantKind, habits: seq<string>, status: Status)
    | ComparedOther(record: Record)

  function ConflictComparable(r: Record): Compared {
    match r
    case Endpoint(id, platform, namespace, sender, _, isSelf, links, _) =>
      ComparedEndpoint(id, platform, namespace, sender, isSelf, links)
    case Participant(id, kind, name, aliases, habits, status, evidence, _) =>
      if IsObservedCandidate(r) then ComparedObserved(id, kind, habits, status)
      else ComparedOther(Participant(id, kind, name, aliases, habits, status, evidence, 0))
    case Card(id, subject, targetKind, targetId, relationship, status, scope, evidence, _) =>
      ComparedOther(Card(id, subject, targetKind, targetId, relationship, status, scope, evidence, 0))
  }

  predicate ByIdLe(a: Event, b: Event) {
    a.id <= b.id
  }

  predicate ByTimeLe(a: Event, b: Event) {
    a.record.updatedAt < b.record.updatedAt || (a.record.updatedAt == b.record.updatedAt && a.id <= b.id)
  }

  function LatestName(byTime: seq<Event>): Option<string> {
    if byTime == [] then None
    else
      var last := byTime[|byTime| - 1].record;
      if !last.Card? && last.displayName.Some? then last.displayName else LatestName(byTime[..|byTime| - 1])
  }

  function AllAliases(byTime: seq<Event>): seq<string> {
    if byTime == [] then []
    else (if byTime[0].record.Participant? then byTime[0].record.aliases else []) + AllAliases(byTime[1..])
  }

  function AllEvidence(byTime: seq<Event>): seq<Evidence> {
    if byTime == [] then []
    else (if byTime[0].record.Participant? then byTime[0].record.evidence else []) + AllEvidence(byTime[1..])
  }

  function Unique<T(==)>(s: seq<T>): seq<T> {
    if s == [] then []
    else
      var front := Unique(s[..|s| - 1]);
      if s[|s| - 1] in front then front else front + [s[|s| - 1]]
  }

  /** The record that stands for heads that do not conflict: the latest, with the clues of the others. */
  function MergedRecord(heads: seq<Event>): Record
    requires heads != []
  {
    var byTime := Sort(ByTimeLe, heads);
    assert |byTime| == |multiset(byTime)| == |multiset(heads)| == |heads|;
    var selected := byTime[|byTime| - 1].record;
    match selected
    case Endpoint(id, platform, namespace, sender, _, isSelf, links, updatedAt) =>
      Endpoint(id, platform, namespace, sender, LatestName(byTime), isSelf, links, updatedAt)
    case Participant(id, kind, _, _, habits, status, _, updatedAt) =>
      if !IsObservedCandidate(selected) then selected
      else
        Participant(id, kind, LatestName(byTime), FirstN(Unique(AllAliases(byTime)), MAX_LIST), habits, status,
                    LastN(Unique(AllEvidence(byTime)), MAX_LIST), updatedAt)
    case Card(_, _, _, _, _, _, _, _, _) => selected
  }

  /** Whether the latest head has no name and shows that of an earlier one, which moves the name to the end of its JSON. */
  predicate LendsName(heads: seq<Event>)
    requires heads != []
  {
    var byTime := Sort(ByTimeLe, heads);
    assert |byTime| == |multiset(byTime)| == |multiset(heads)| == |heads|;
    var selected := byTime[|byTime| - 1].record;
    && (selected.Endpoint? || IsObservedCandidate(selected))
    && selected.displayName.None? && LatestName(byTime).Some?
  }

  datatype Collapsed = Collapsed(record: Record, conflicted: bool, candidates: seq<Event>, nameLent: bool)

  predicate Differ(heads: seq<Event>) {
    exists i, j :: 0 <= i < |heads| && 0 <= j < |heads|
      && ConflictComparable(heads[i].record) != ConflictComparable(heads[j].record)
  }

  function Collapse(heads: seq<Event>): Collapsed
    requires heads != []
  {
    var sorted := Sort(ByIdLe, heads);
    assert |sorted| == |multiset(sorted)| == |multiset(heads)| == |heads|;
    Collapsed(MergedRecord(sorted), Differ(sorted), if Differ(sorted) then sorted else [], LendsName(sorted))
  }

  /** The state of one record, None when the log does not mention it. */
  function Lookup(log: seq<Event>, key: RecordKey): Option<Collapsed> {
    var group := GroupOf(log, key);
    if group == [] then None else Some(Collapse(Heads(group)))
  }

  // ---- The heads of explicit logs ----

  ghost predicate DistinctIds(log: seq<Event>) {
    forall i, j :: 0 <= i < j < |log| ==> log[i].id != log[j].id
  }

  ghost predicate AllExplicit(log: seq<Event>) {
    forall e :: e in log ==> e.supersedes.Some?
  }

  /** Supersedes edges have no cycle: some rank decreases along each of them. */
  ghost predicate Acyclic(log: seq<Event>, rank: EventId -> int) {
    forall e, p :: e in log && e.supersedes.Some? && p in e.supersedes.value && p != e.id ==> rank(p) < rank(e.id)
  }

  ghost predicate SupersededIn(group: seq<Event>, id: EventId) {
    exists e :: e in group && Parents(e).Some? && id in Parents(e).value
  }

  lemma {:induction false} GroupOfIs(log: seq<Event>, key: RecordKey)
    ensures forall e :: e in GroupOf(log, key) <==> e in log && KeyOf(e.record) == key
    ensures DistinctIds(log) ==> DistinctIds(GroupOf(log, key))
  {
    if log != [] {
      assert log == [log[0]] + log[1..];
      GroupOfIs(log[1..], key);
      if DistinctIds(log) {
        var rest := GroupOf(log[1..], key);
        forall j | 0 <= j < |rest|
          ensures rest[j].id != log[0].id
        {
          assert rest[j] in log[1..];
        }
      }
    }
  }

  lemma {:induction false} ExplicitIs(group: seq<Event>)
    ensures forall id :: id in ExplicitlySuperseded(group) <==> SupersededIn(group, id)
    decreases |group|
  {
    if group != [] {
      var front, last := group[..|group| - 1], group[|group| - 1];
      assert group == front + [last];
      ExplicitIs(front);
    }
  }

  lemma {:induction false} WalkOfExplicit(group: seq<Event>, explicit: set<EventId>)
    requires AllExplicit(group)
    ensures Walk(group, explicit).superseded == ExplicitlySuperseded(group)
    decreases |group|
  {
    if group != [] {
      var front, last := group[..|group| - 1], group[|group| - 1];
      assert group == front + [last] && last in group;
      WalkOfExplicit(front, explicit);
    }
  }

  lemma {:induction false} NotInIs(group: seq<Event>, gone: set<EventId>)
    ensures forall e :: e in NotIn(group, gone) <==> e in group && e.id !in gone
    ensures DistinctIds(group) ==> DistinctIds(NotIn(group, gone))
  {
    if group != [] {
      assert group == [group[0]] + group[1..];
      NotInIs(group[1..], gone);
      if DistinctIds(group) {
        var rest := NotIn(group[1..], gone);
        forall j | 0 <= j < |rest|
          ensures rest[j].id != group[0].id
        {
          assert rest[j] in group[1..];
        }
      }
    }
  }

  /** An event of highest rank is superseded by none. */
  lemma {:induction false} SomeTopEvent(group: seq<Event>, rank: EventId -> int) returns (top: Event)
    requires group != []
    ensures top in group && forall e :: e in group ==> rank(e.id) <= rank(top.id)
  {
    top := group[0];
    if |group| > 1 {
      var other := SomeTopEvent(group[1..], rank);
      assert group == [group[0]] + group[1..];
      if rank(top.id) < rank(other.id) {
        top := other;
      }
    }
  }

  /** Some event of the group is superseded by none. */
  ghost predicate SomeoneStands(group: seq<Event>) {
    exists e :: e in group && !SupersededIn(group, e.id)
  }

  /** Without cycles some event stands. */
  lemma AcyclicStands(group: seq<Event>, rank: EventId -> int)
    requires group != [] && Acyclic(group, rank)
    ensures SomeoneStands(group)
  {
    var top := SomeTopEvent(group, rank);
    assert !SupersededIn(group, top.id);
  }

  /** In an explicit log where some event stands the heads are exactly those events; where none stands, the last one. */
  lemma HeadsAreUnsuperseded(group: seq<Event>)
    requires group != [] && AllExplicit(group)
    ensures Heads(group) != []
    ensures SomeoneStands(group) ==>
              (forall e :: e in Heads(group) <==> e in group && !SupersededIn(group, e.id)) && Heads(group) == NotIn(group, ExplicitlySuperseded(group))
    ensures !SomeoneStands(group) ==> Heads(group) == [group[|group| - 1]]
  {
    var explicit := ExplicitlySuperseded(group);
    ExplicitIs(group);
    WalkOfExplicit(group, explicit);
    assert Superseded(group, explicit) == explicit;
    NotInIs(group, explicit);
    if SomeoneStands(group) {
      var e :| e in group && !SupersededIn(group, e.id);
      assert e in NotIn(group, explicit);
    } else {
      NothingLeft(group, explicit);
    }
  }

  // ---- Convergence of replicas ----

  lemma {:induction false} DistinctIdsMeansDistinct(s: seq<Event>)
    requires DistinctIds(s)
    ensures Distinct(s) && Antisymmetric(ByIdLe, s)
  {
    forall x, y | x in s && y in s && ByIdLe(x, y) && ByIdLe(y, x)
      ensures x == y
    {
      var i :| 0 <= i < |s| && s[i] == x;
      var j :| 0 <= j < |s| && s[j] == y;
    }
  }

  /** Heads with the same events collapse to the same record, in whatever order they come. */
  lemma CollapseForgetsOrder(a: seq<Event>, b: seq<Event>)
    requires a != [] && b != [] && DistinctIds(a) && DistinctIds(b)
    requires forall e :: e in a <==> e in b
    ensures Collapse(a) == Collapse(b)
  {
    DistinctIdsMeansDistinct(a);
    DistinctIdsMeansDistinct(b);
    SameDistinctElements(a, b);
    SortForgetsOrder(ByIdLe, a, b);
  }

  lemma GroupKeepsShape(log: seq<Event>, key: RecordKey, rank: EventId -> int)
    requires AllExplicit(log) && Acyclic(log, rank)
    ensures AllExplicit(GroupOf(log, key)) && Acyclic(GroupOf(log, key), rank)
  {
    GroupOfIs(log, key);
  }

  /** Replicas that hold the same events agree on every record and every conflict, whatever order they hold them in. */
  lemma ReplicasConverge(a: seq<Event>, b: seq<Event>, rank: EventId -> int, key: RecordKey)
    requires DistinctIds(a) && DistinctIds(b) && AllExplicit(a) && Acyclic(a, rank)
    requires forall e :: e in a <==> e in b
    ensures Lookup(a, key) == Lookup(b, key)
    ensures Lookup(a, key).Some? <==> exists e :: e in a && KeyOf(e.record) == key
  {
    var inA, inB := GroupOf(a, key), GroupOf(b, key);
    GroupKeepsShape(a, key, rank);
    GroupKeepsShape(b, key, rank);
    GroupOfIs(a, key);
    GroupOfIs(b, key);
    assert forall e :: e in inA <==> e in inB;
    DistinctIdsMeansDistinct(inA);
    DistinctIdsMeansDistinct(inB);
    SameDistinctElements(inA, inB);
    SameElements(inA, inB);
    if inA != [] {
      assert inA[0] in inA;
      AcyclicStands(inA, rank);
      HeadsAgree(inA, inB);
      CollapseForgetsOrder(Heads(inA), Heads(inB));
    }
  }

  lemma HeadsAgree(a: seq<Event>, b: seq<Event>)
    requires a != [] && b != [] && DistinctIds(a) && DistinctIds(b)
    requires AllExplicit(a) && AllExplicit(b) && SomeoneStands(a)
    requires forall e :: e in a <==> e in b
    ensures Heads(a) != [] && Heads(b) != [] && DistinctIds(Heads(a)) && DistinctIds(Heads(b))
    ensures forall e :: e in Heads(a) <==> e in Heads(b)
  {
    forall id
      ensures SupersededIn(a, id) <==> SupersededIn(b, id)
    {
    }
    HeadsAreUnsuperseded(a);
    HeadsAreUnsuperseded(b);
    NotInIs(a, ExplicitlySuperseded(a));
    NotInIs(b, ExplicitlySuperseded(b));
  }

  /** The same events in another order. */
  ghost predicate Reordered(group: seq<Event>, other: seq<Event>) {
    DistinctIds(other) && forall e :: e in other <==> e in group
  }

  /** Every event alone would show the same record. */
  ghost predicate AllShownAlike(group: seq<Event>) {
    forall a, b :: a in group && b in group ==> Shown(a.record) == Shown(b.record)
  }

  lemma MoveLast(group: seq<Event>, i: nat) returns (other: seq<Event>)
    requires DistinctIds(group) && i < |group|
    ensures Reordered(group, other) && other != [] && other[|other| - 1] == group[i]
  {
    other := group[..i] + group[i + 1..] + [group[i]];
    assert group == group[..i] + [group[i]] + group[i + 1..];
    forall e
      ensures e in other <==> e in group
    {
    }
  }

  lemma ReorderedKeeps(group: seq<Event>, other: seq<Event>)
    requires Reordered(group, other) && group != [] && AllExplicit(group)
    ensures other != [] && AllExplicit(other) && SomeoneStands(other) == SomeoneStands(group)
  {
    assert group[0] in other;
    forall id
      ensures SupersededIn(other, id) <==> SupersededIn(group, id)
    {
    }
  }

  /** The record of a group where no event stands is that of its last event. */
  lemma NobodyStands(group: seq<Event>)
    requires group != [] && AllExplicit(group) && !SomeoneStands(group)
    ensures Collapse(Heads(group)) == Collapsed(Shown(group[|group| - 1].record), false, [], false)
  {
    HeadsAreUnsuperseded(group);
    OneHeadCollapses(group[|group| - 1]);
  }

  /**
   * Exactly when the order of an explicit log does not matter: if and only if some event stands, or all events would show
   * the same record.
   */
  lemma OrderIrrelevantIff(group: seq<Event>)
    requires group != [] && DistinctIds(group) && AllExplicit(group)
    ensures (forall other :: Reordered(group, other) ==> Heads(other) != [] && Collapse(Heads(other)) == Collapse(Heads(group)))
       <==> SomeoneStands(group) || AllShownAlike(group)
  {
    hide Heads, Collapse, Shown, SomeoneStands, AllExplicit;
    HeadsExist(group);
    if SomeoneStands(group) || AllShownAlike(group) {
      forall other | Reordered(group, other)
        ensures Heads(other) != [] && Collapse(Heads(other)) == Collapse(Heads(group))
      {
        ReorderedAgrees(group, other);
      }
    } else {
      var a, b :| a in group && b in group && Shown(a.record) != Shown(b.record);
      var i :| 0 <= i < |group| && group[i] == a;
      var j :| 0 <= j < |group| && group[j] == b;
      var lastA := MoveLast(group, i);
      var lastB := MoveLast(group, j);
      ReorderedKeeps(group, lastA);
      ReorderedKeeps(group, lastB);
      NobodyStands(lastA);
      NobodyStands(lastB);
      assert Reordered(group, lastA) && Reordered(group, lastB);
    }
  }

  lemma ReorderedAgrees(group: seq<Event>, other: seq<Event>)
    requires group != [] && DistinctIds(group) && AllExplicit(group) && Reordered(group, other)
    requires SomeoneStands(group) || AllShownAlike(group)
    ensures Heads(other) != [] && Collapse(Heads(other)) == Collapse(Heads(group))
  {
    hide Heads, Collapse, Shown, SomeoneStands, AllExplicit;
    ReorderedKeeps(group, other);
    HeadsAreUnsuperseded(other);
    HeadsAreUnsuperseded(group);
    if SomeoneStands(group) {
      HeadsAgree(group, other);
      CollapseForgetsOrder(Heads(group), Heads(other));
    } else {
      NobodyStands(group);
      NobodyStands(other);
      assert other[|other| - 1] in group && group[|group| - 1] in group;
    }
  }

  // ---- One update resolves any history ----

  function IdsOf(events: seq<Event>): set<EventId> {
    set e | e in events :: e.id
  }

  /** No event of the group has this id or supersedes it. */
  ghost predicate Fresh(group: seq<Event>, id: EventId) {
    forall e :: e in group ==> e.id != id && (e.supersedes.Some? ==> id !in e.supersedes.value)
  }

  /** Superseding more from the start never brings an event back. */
  lemma {:induction false} SupersedingMoreLosesMore(group: seq<Event>, few: set<EventId>, many: set<EventId>)
    requires few <= many
    ensures Walk(group, few).superseded <= many + Walk(group, many).superseded
    ensures Walk(group, few).current <= many + Walk(group, many).superseded + Walk(group, many).current
    decreases |group|
  {
    if group != [] {
      SupersedingMoreLosesMore(group[..|group| - 1], few, many);
    }
  }

  lemma {:induction false} FreshIsNotWalked(group: seq<Event>, explicit: set<EventId>, id: EventId)
    requires Fresh(group, id)
    ensures id !in Walk(group, explicit).superseded && id !in Walk(group, explicit).current
    ensures id !in ExplicitlySuperseded(group)
    decreases |group|
  {
    if group != [] {
      assert group[|group| - 1] in group;
      FreshIsNotWalked(group[..|group| - 1], explicit, id);
    }
  }

  /** Events written by writers that all saw the same heads. */
  ghost predicate ForksOf(group: seq<Event>, forks: seq<Event>) {
    forall f :: f in forks ==> f.supersedes == Some(IdsOf(Heads(group))) && Fresh(group, f.id)
  }

  lemma {:induction false} HeadsAreInGroup(group: seq<Event>)
    ensures forall h :: h in Heads(group) ==> h in group
  {
    NotInIs(group, Superseded(group, ExplicitlySuperseded(group)));
    assert group != [] ==> group[|group| - 1] in group;
  }

  lemma ForkParents(group: seq<Event>, forks: seq<Event>, f: Event)
    requires ForksOf(group, forks) && f in forks
    ensures Parents(f) == Some(IdsOf(Heads(group)))
  {
    HeadsAreInGroup(group);
    assert f.id !in IdsOf(Heads(group));
    assert IdsOf(Heads(group)) - {f.id} == IdsOf(Heads(group));
  }

  lemma {:induction false} ForksWalk(group: seq<Event>, forks: seq<Event>, explicit: set<EventId>)
    requires ForksOf(group, forks)
    ensures Walk(group, explicit).superseded <= Walk(group + forks, explicit).superseded
    ensures Walk(group + forks, explicit).superseded <= Walk(group, explicit).superseded + IdsOf(Heads(group))
    ensures ExplicitlySuperseded(group + forks)
      == ExplicitlySuperseded(group) + if forks == [] then {} else IdsOf(Heads(group))
    decreases |forks|
  {
    if forks == [] {
      assert group + forks == group;
    } else {
      var front, last := forks[..|forks| - 1], forks[|forks| - 1];
      ForksWalk(group, front, explicit);
      assert (group + forks)[..|group + forks| - 1] == group + front;
      assert (group + forks)[|group + forks| - 1] == last;
      ForkParents(group, forks, last);
    }
  }

  lemma {:induction false} NotInAll(group: seq<Event>, more: seq<Event>, gone: set<EventId>)
    requires forall e :: e in group ==> e.id in gone
    requires forall e :: e in more ==> e.id !in gone
    ensures NotIn(group + more, gone) == more
    decreases |group + more|
  {
    if group != [] {
      assert (group + more)[0] == group[0] && (group + more)[1..] == group[1..] + more;
      NotInAll(group[1..], more, gone);
    } else if more != [] {
      assert group + more == more && more == [more[0]] + more[1..];
      assert group + more[1..] == more[1..];
      NotInAll(group, more[1..], gone);
    }
  }

  /**
   * After any history, explicit, legacy or mixed, even one whose events all supersede each other, events that supersede
   * its heads are themselves exactly the heads.
   */
  lemma ForksBecomeHeads(group: seq<Event>, forks: seq<Event>)
    requires forks != [] && ForksOf(group, forks)
    ensures Heads(group + forks) == forks
  {
    var few := ExplicitlySuperseded(group);
    var many := ExplicitlySuperseded(group + forks);
    var gone := Superseded(group + forks, many);
    ForksWalk(group, forks, many);
    SupersedingMoreLosesMore(group, few, many);
    NotInIs(group, Superseded(group, few));
    forall e | e in group
      ensures e.id in gone
    {
      if e.id !in Superseded(group, few) {
        assert e in Heads(group);
      }
    }
    HeadsAreInGroup(group);
    forall f | f in forks
      ensures f.id !in gone
    {
      FreshIsNotWalked(group, many, f.id);
    }
    NotInAll(group, forks, gone);
  }

  lemma {:induction false} GroupOfAppended(log: seq<Event>, more: seq<Event>, key: RecordKey)
    ensures GroupOf(log + more, key) == GroupOf(log, key) + GroupOf(more, key)
  {
    if log == [] {
      assert log + more == more;
    } else {
      assert (log + more)[0] == log[0] && (log + more)[1..] == log[1..] + more;
      GroupOfAppended(log[1..], more, key);
    }
  }

  /** The record as lookups show it when it is the only head. */
  function Shown(r: Record): Record {
    match r
    case Participant(id, kind, name, aliases, habits, status, evidence, updatedAt) =>
      if !IsObservedCandidate(r) then r
      else
        Participant(id, kind, name, FirstN(Unique(aliases), MAX_LIST), habits, status, LastN(Unique(evidence), MAX_LIST), updatedAt)
    case _ => r
  }

  lemma OneHeadCollapses(e: Event)
    ensures Collapse([e]) == Collapsed(Shown(e.record), false, [], false)
  {
    assert Sort(ByIdLe, [e]) == [e] && Sort(ByTimeLe, [e]) == [e];
    assert AllAliases([e]) == if e.record.Participant? then e.record.aliases else [];
    assert AllEvidence([e]) == if e.record.Participant? then e.record.evidence else [];
    assert LatestName([e]) == if !e.record.Card? then e.record.displayName else None by {
      assert LatestName([e][..0]) == None;
    }
  }

  lemma LookupOf(log: seq<Event>, key: RecordKey, group: seq<Event>, heads: seq<Event>)
    requires GroupOf(log, key) == group && group != [] && Heads(group) == heads && heads != []
    ensures Lookup(log, key) == Some(Collapse(heads))
  {
  }

  lemma GroupAfterAppend(log: seq<Event>, e: Event, key: RecordKey)
    ensures GroupOf(log + [e], key) == GroupOf(log, key) + if KeyOf(e.record) == key then [e] else []
  {
    GroupOfAppended(log, [e], key);
    assert [e][1..] == [];
  }

  /** An appended update that supersedes the heads it saw leaves its record with one head and no conflict. */
  lemma UpdateResolves(log: seq<Event>, e: Event)
    requires e.supersedes == Some(IdsOf(Heads(GroupOf(log, KeyOf(e.record)))))
    requires Fresh(log, e.id)
    ensures Heads(GroupOf(log + [e], KeyOf(e.record))) == [e]
    ensures Lookup(log + [e], KeyOf(e.record)) == Some(Collapsed(Shown(e.record), false, [], false))
  {
    hide Heads, Collapse, Shown, GroupOf, Lookup;
    var key := KeyOf(e.record);
    var group := GroupOf(log, key);
    GroupOfIs(log, key);
    GroupAfterAppend(log, e, key);
    ForksBecomeHeads(group, [e]);
    OneHeadCollapses(e);
    LookupOf(log + [e], key, group + [e], [e]);
  }

  lemma OthersUnchanged(log: seq<Event>, e: Event, key: RecordKey)
    requires key != KeyOf(e.record)
    ensures Lookup(log + [e], key) == Lookup(log, key)
  {
    hide Heads, Collapse, GroupOf;
    GroupAfterAppend(log, e, key);
    assert GroupOf(log, key) + [] == GroupOf(log, key);
  }

  /** Two writers that saw the same heads conflict exactly when their records differ in the compared fields. */
  lemma ForksConflictIff(log: seq<Event>, a: Event, b: Event)
    requires KeyOf(a.record) == KeyOf(b.record)
    requires ForksOf(GroupOf(log, KeyOf(a.record)), [a, b])
    ensures Lookup(log + [a, b], KeyOf(a.record)).Some?
    ensures Lookup(log + [a, b], KeyOf(a.record)).value.conflicted
      <==> ConflictComparable(a.record) != ConflictComparable(b.record)
  {
    hide Heads, Collapse, GroupOf, Lookup;
    var key := KeyOf(a.record);
    var group := GroupOf(log, key);
    GroupAfterAppend(log, a, key);
    GroupAfterAppend(log + [a], b, key);
    assert log + [a] + [b] == log + [a, b] && group + [a] + [b] == group + [a, b];
    ForksBecomeHeads(group, [a, b]);
    LookupOf(log + [a, b], key, group + [a, b], [a, b]);
    PairConflictIff(a, b);
  }

  lemma PairConflictIff(a: Event, b: Event)
    ensures Collapse([a, b]).conflicted <==> ConflictComparable(a.record) != ConflictComparable(b.record)
  {
    hide ConflictComparable, MergedRecord, Sort;
    var sorted := Sort(ByIdLe, [a, b]);
    SameElements(sorted, [a, b]);
    assert a in [a, b] && b in [a, b];
    var i :| 0 <= i < |sorted| && sorted[i] == a;
    var j :| 0 <= j < |sorted| && sorted[j] == b;
    assert forall k :: 0 <= k < |sorted| ==> sorted[k] in [a, b];
  }

  /** Without acyclicity replicas may disagree: of two events that supersede each other, the last in the log wins. */
  lemma CycleKeepsLast(a: Event, b: Event)
    requires a.id != b.id && a.supersedes == Some({b.id}) && b.supersedes == Some({a.id})
    ensures Heads([a, b]) == [b] && Heads([b, a]) == [a]
  {
    CycleHead(a, b);
    CycleHead(b, a);
  }

  lemma CycleHead(a: Event, b: Event)
    requires a.id != b.id && a.supersedes == Some({b.id}) && b.supersedes == Some({a.id})
    ensures Heads([a, b]) == [b]
  {
    var group := [a, b];
    ExplicitIs(group);
    assert a in group && b in group && a.id in Parents(b).value && b.id in Parents(a).value;
    var superseded := Superseded(group, ExplicitlySuperseded(group));
    NotInIs(group, superseded);
    NothingLeft(group, superseded);
  }

  lemma {:induction false} NothingLeft(group: seq<Event>, gone: set<EventId>)
    requires forall e :: e in group ==> e.id in gone
    ensures NotIn(group, gone) == []
  {
    if group != [] {
      assert group[0] in group;
      NothingLeft(group[1..], gone);
    }
  }

  // ---- Computing the state of every record ----

  lemma ExplicitStep(group: seq<Event>, i: nat)
    requires i < |group|
    ensures ExplicitlySuperseded(group[..i + 1])
      == ExplicitlySuperseded(group[..i]) + if Parents(group[i]).Some? then Parents(group[i]).value else {}
  {
    assert group[..i + 1][..i] == group[..i];
  }

  lemma WalkStep(group: seq<Event>, i: nat, explicit: set<EventId>)
    requires i < |group|
    ensures Walk(group[..i + 1], explicit) == WalkOne(Walk(group[..i], explicit), group[i], explicit)
  {
    assert group[..i + 1][..i] == group[..i];
  }

  method ComputeHeads(group: seq<Event>) returns (heads: seq<Event>)
    ensures heads == Heads(group)
  {
    hide ExplicitlySuperseded, Walk, Parents, NotIn;
    var explicit: set<EventId> := {};
    assert group[..0] == [] && ExplicitlySuperseded([]) == {} && Walk([], {}) == Walked({}, {}) by {
      EmptyGroup({});
    }
    for i := 0 to |group|
      invariant explicit == ExplicitlySuperseded(group[..i])
    {
      ExplicitStep(group, i);
      var parents := Parents(group[i]);
      if parents.Some? {
        explicit := explicit + parents.value;
      }
    }
    assert group[..|group|] == group;
    var inferred: set<EventId>, current: set<EventId> := {}, {};
    EmptyGroup(explicit);
    for i := 0 to |group|
      invariant Walked(inferred, current) == Walk(group[..i], explicit)
    {
      WalkStep(group, i, explicit);
      var parents := if Parents(group[i]).Some? then Parents(group[i]).value else current;
      inferred := inferred + parents;
      current := current - parents;
      if group[i].id !in explicit {
        current := current + {group[i].id};
      }
    }
    heads := Keep(group, explicit + inferred);
    if heads == [] && |group| > 0 {
      heads := [group[|group| - 1]];
    }
  }

  lemma EmptyGroup(explicit: set<EventId>)
    ensures ExplicitlySuperseded([]) == {} && Walk([], explicit) == Walked({}, {})
  {
  }

  method Keep(group: seq<Event>, gone: set<EventId>) returns (kept: seq<Event>)
    ensures kept == NotIn(group, gone)
  {
    kept := [];
    for i := 0 to |group|
      invariant kept + NotIn(group[i..], gone) == NotIn(group, gone)
    {
      if group[i].id !in gone {
        kept := kept + [group[i]];
      }
    }
  }

  /** The state of all records: the events grouped by record, and each group collapsed. */
  method ComputeState(log: seq<Event>) returns (state: map<RecordKey, Collapsed>)
    ensures forall key :: Lookup(log, key) == if key in state then Some(state[key]) else None
  {
    hide Heads, Collapse, GroupOf;
    var grouped := GroupEvents(log);
    state := map[];
    var todo := grouped.Keys;
    while todo != {}
      invariant state.Keys + todo == grouped.Keys
      invariant forall key :: key in state ==> Lookup(log, key) == Some(state[key])
      decreases |todo|
    {
      var key :| key in todo;
      var heads := ComputeHeads(grouped[key]);
      HeadsExist(grouped[key]);
      state := state[key := Collapse(heads)];
      todo := todo - {key};
    }
  }

  lemma HeadsExist(group: seq<Event>)
    requires group != []
    ensures Heads(group) != []
  {
  }

  lemma NoGroups()
    ensures forall key :: GroupOf([], key) == []
  {
  }

  method GroupEvents(log: seq<Event>) returns (grouped: map<RecordKey, seq<Event>>)
    ensures forall key :: GroupOf(log, key) == if key in grouped then grouped[key] else []
    ensures forall key :: key in grouped ==> grouped[key] != []
  {
    hide GroupOf;
    grouped := map[];
    assert log[..0] == [];
    NoGroups();
    for i := 0 to |log|
      invariant forall key :: GroupOf(log[..i], key) == if key in grouped then grouped[key] else []
      invariant forall key :: key in grouped ==> grouped[key] != []
    {
      var key := KeyOf(log[i].record);
      var group := if key in grouped then grouped[key] else [];
      assert log[..i + 1] == log[..i] + [log[i]];
      forall other
        ensures GroupOf(log[..i + 1], other) == GroupOf(log[..i], other) + if key == other then [log[i]] else []
      {
        GroupAfterAppend(log[..i], log[i], other);
      }
      grouped := grouped[key := group + [log[i]]];
    }
    assert log[..|log|] == log;
  }
}
