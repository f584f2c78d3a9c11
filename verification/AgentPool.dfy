/**
 * The message agent pool: which worker session a message group is allocated to, and when a new one is
 * created.
 *
 * Allocations run one at a time; between them a delivery may replace the thread of a worker.  Thread
 * ids stand for their rank in the collation order, and answers of the manager are inputs.
 */
module AgentPool {
  import opened Common
  import opened Ordering

  type ThreadId = int

  const HEARTBEAT := "heartbeat"
  const REFERENCED_WEIGHT := 6000
  const AFFINITY_LIMIT := 100

  datatype Affinity = Affinity(groupId: string, endpoint: string, conversationKey: string, sender: string,
                               messageIds: seq<string>, lastUsedAt: int)

  datatype Worker = Worker(threadId: ThreadId, index: int, createdAt: int, affinities: seq<Affinity>)

  datatype Group = Group(groupId: string, endpoint: string, conversationKey: string, sender: string,
                         replyTo: Option<string>, messageIds: seq<string>)

  datatype Availability = Active | Idle | NotLoaded | Archived | Unavailable | Gone

  // ---- Ranking ----

  function AffinityWeight(affinity: Affinity, group: Group): (weight: int)
    ensures 0 <= weight <= 5000
  {
    if group.replyTo.Some? && group.replyTo.value != "" && group.replyTo.value in affinity.messageIds then 5000
    else if affinity.groupId == group.groupId then 4000
    else if affinity.endpoint != group.endpoint then 0
    else if affinity.conversationKey != group.conversationKey then 1000
    else if affinity.sender != group.sender then 2000
    else 3000
  }

  function BestWeight(affinities: seq<Affinity>, group: Group): (weight: int)
    ensures 0 <= weight <= 5000
    ensures forall a :: a in affinities ==> AffinityWeight(a, group) <= weight
  {
    if affinities == [] then 0
    else
      assert affinities == [affinities[0]] + affinities[1..];
      Max(AffinityWeight(affinities[0], group), BestWeight(affinities[1..], group))
  }

  /** The score of a worker; quoting one of its messages outweighs every affinity. */
  function Score(worker: Worker, group: Option<Group>, referenced: set<ThreadId>): int {
    if group == None then 0
    else BestWeight(worker.affinities, group.value) + if worker.threadId in referenced then REFERENCED_WEIGHT else 0
  }

  function LatestUse(affinities: seq<Affinity>): int {
    if affinities == [] then 0 else Max(affinities[0].lastUsedAt, LatestUse(affinities[1..]))
  }

  /** A worker and its place in the pool. */
  datatype Candidate = Candidate(at: nat, worker: Worker)

  function Candidates(workers: seq<Worker>): seq<Candidate> {
    seq(|workers|, i requires 0 <= i < |workers| => Candidate(i, workers[i]))
  }

  /** The sort key of a worker, smaller first. */
  function RankKey(c: Candidate, group: Option<Group>, referenced: set<ThreadId>): (int, int, int, int, int) {
    (-Score(c.worker, group, referenced), -LatestUse(c.worker.affinities), c.worker.index, c.worker.createdAt, c.worker.threadId)
  }

  predicate KeyLe(a: (int, int, int, int, int), b: (int, int, int, int, int)) {
    a.0 < b.0 || (a.0 == b.0 && (a.1 < b.1 || (a.1 == b.1 && (a.2 < b.2 || (a.2 == b.2 &&
      (a.3 < b.3 || (a.3 == b.3 && a.4 <= b.4)))))))
  }

  function RankOrder(group: Option<Group>, referenced: set<ThreadId>): (Candidate, Candidate) -> bool {
    (a: Candidate, b: Candidate) => KeyLe(RankKey(a, group, referenced), RankKey(b, group, referenced))
  }

  function Rank(workers: seq<Worker>, group: Option<Group>, referenced: set<ThreadId>): seq<Candidate> {
    Sort(RankOrder(group, referenced), Candidates(workers))
  }

  /** The ranked workers with a positive score. */
  function Familiar(ranked: seq<Candidate>, group: Group, referenced: set<ThreadId>): seq<Candidate> {
    if ranked == [] then []
    else (if Score(ranked[0].worker, Some(group), referenced) > 0 then [ranked[0]] else [])
         + Familiar(ranked[1..], group, referenced)
  }

  // ---- Selection ----

  datatype Selection = Use(at: nat, replaceArchived: bool) | CreateNew | NoneAvailable

  type Reading = ThreadId -> Availability

  function FirstWith(ranked: seq<Candidate>, reading: Reading, wanted: Availability): Option<nat> {
    if ranked == [] then None
    else if reading(ranked[0].worker.threadId) == wanted then Some(ranked[0].at)
    else FirstWith(ranked[1..], reading, wanted)
  }

  /** The first familiar worker that is close enough, or idle. */
  function FirstCloseOrIdle(familiar: seq<Candidate>, group: Group, referenced: set<ThreadId>, reading: Reading): Option<nat> {
    if familiar == [] then None
    else if Score(familiar[0].worker, Some(group), referenced) >= 4000 || reading(familiar[0].worker.threadId) == Idle
    then Some(familiar[0].at)
    else FirstCloseOrIdle(familiar[1..], group, referenced, reading)
  }

  predicate Loadable(a: Availability) {
    a == Active || a == Idle || a == NotLoaded
  }

  predicate AnyLoadable(workers: seq<Worker>, reading: Reading) {
    exists i :: 0 <= i < |workers| && Loadable(reading(workers[i].threadId))
  }

  predicate AtCap(workers: seq<Worker>, maxAgents: Option<nat>) {
    maxAgents.Some? && |workers| >= maxAgents.value
  }

  /** Where an allocation goes when no familiar worker is close enough or idle. */
  function SelectFallback(workers: seq<Worker>, maxAgents: Option<nat>, familiar: seq<Candidate>, all: seq<Candidate>,
                          reading: Reading, source: Availability): Selection {
    var idle, loadFamiliar, load, archived :=
      FirstWith(all, reading, Idle), FirstWith(familiar, reading, NotLoaded), FirstWith(all, reading, NotLoaded), FirstWith(all, reading, Archived);
    if idle.Some? then Use(idle.value, false)
    else if loadFamiliar.Some? then Use(loadFamiliar.value, false)
    else if load.Some? then Use(load.value, false)
    else if archived.Some? then Use(archived.value, true)
    else if AtCap(workers, maxAgents) && workers != [] then
      Use(if familiar != [] then familiar[0].at else if all != [] then all[0].at else 0, false)
    else if !AnyLoadable(workers, reading) && !Loadable(source) then NoneAvailable
    else CreateNew
  }

  function Select(workers: seq<Worker>, maxAgents: Option<nat>, group: Group, referenced: set<ThreadId>,
                  reading: Reading, source: Availability): Selection {
    var all := Rank(workers, Some(group), referenced);
    var familiar := Familiar(all, group, referenced);
    if group.endpoint == HEARTBEAT && familiar != [] then Use(familiar[0].at, false)
    else
      var close := FirstCloseOrIdle(familiar, group, referenced, reading);
      if close.Some? then Use(close.value, false)
      else SelectFallback(workers, maxAgents, familiar, all, reading, source)
  }

  // ---- Allocation ----

  function WithoutGroup(affinities: seq<Affinity>, groupId: string): seq<Affinity> {
    if affinities == [] then []
    else (if affinities[0].groupId == groupId then [] else [affinities[0]]) + WithoutGroup(affinities[1..], groupId)
  }

  function LastAffinities(affinities: seq<Affinity>): seq<Affinity> {
    if |affinities| <= AFFINITY_LIMIT then affinities else affinities[|affinities| - AFFINITY_LIMIT..]
  }

  function AffinityOf(group: Group, now: int): Affinity {
    Affinity(group.groupId, group.endpoint, group.conversationKey, group.sender, group.messageIds, now)
  }

  function Remember(worker: Worker, group: Group, now: int): Worker {
    worker.(affinities := LastAffinities(WithoutGroup(worker.affinities, group.groupId) + [AffinityOf(group, now)]))
  }

  function LargestIndex(workers: seq<Worker>): int {
    if workers == [] then 0 else Max(workers[0].index, LargestIndex(workers[1..]))
  }

  /** The manager's answers to one allocation; None where a request failed or its answer was refused. */
  datatype Answers = Answers(reading: Reading, source: Availability, created: Option<ThreadId>, replaced: Option<ThreadId>, now: int)

  /** The pool after an allocation, and the place of the allocated worker; None when the delivery threw. */
  datatype Allocation = Allocation(workers: seq<Worker>, at: Option<nat>)

  function Allocate(workers: seq<Worker>, maxAgents: Option<nat>, group: Group, referenced: set<ThreadId>, answers: Answers): Allocation {
    match Select(workers, maxAgents, group, referenced, answers.reading, answers.source)
    case NoneAvailable => Allocation(workers, None)
    case CreateNew =>
      if answers.created == None || AtCap(workers, maxAgents) then Allocation(workers, None)
      else
        var worker := Worker(answers.created.value, LargestIndex(workers) + 1, answers.now, []);
        Allocation(workers + [Remember(worker, group, answers.now)], Some(|workers|))
    case Use(at, replaceArchived) =>
      if at >= |workers| || (replaceArchived && answers.replaced == None) then Allocation(workers, None)
      else
        var worker := if replaceArchived then workers[at].(threadId := answers.replaced.value) else workers[at];
        Allocation(workers[at := Remember(worker, group, answers.now)], Some(at))
  }

  /** A delivery's send may report that its thread was replaced. */
  function Adopt(workers: seq<Worker>, at: nat, threadId: ThreadId): seq<Worker> {
    if at < |workers| then workers[at := workers[at].(threadId := threadId)] else workers
  }

  datatype Step =
    | Deliver(group: Group, referenced: set<ThreadId>, answers: Answers)
    | AdoptThread(at: nat, threadId: ThreadId)

  function Next(workers: seq<Worker>, maxAgents: Option<nat>, step: Step): seq<Worker> {
    match step
    case Deliver(group, referenced, answers) => Allocate(workers, maxAgents, group, referenced, answers).workers
    case AdoptThread(at, threadId) => Adopt(workers, at, threadId)
  }

  function Run(workers: seq<Worker>, maxAgents: Option<nat>, steps: seq<Step>): seq<Worker>
    decreases |steps|
  {
    if steps == [] then workers else Run(Next(workers, maxAgents, steps[0]), maxAgents, steps[1..])
  }

  // ---- What ranking gives ----

  lemma RankOrderIsPreorder(group: Option<Group>, referenced: set<ThreadId>)
    ensures TotalPreorder(RankOrder(group, referenced))
  {
  }

  /** The ranking holds every worker once, best score first. */
  lemma RankedByScore(workers: seq<Worker>, group: Group, referenced: set<ThreadId>)
    ensures var ranked := Rank(workers, Some(group), referenced);
            && |ranked| == |workers|
            && (forall c :: c in ranked <==> c.at < |workers| && c.worker == workers[c.at])
            && (forall i, j :: 0 <= i < j < |ranked| ==>
                  Score(ranked[i].worker, Some(group), referenced) >= Score(ranked[j].worker, Some(group), referenced))
  {
    var order, ranked := RankOrder(Some(group), referenced), Rank(workers, Some(group), referenced);
    RankOrderIsPreorder(Some(group), referenced);
    SortSorts(order, Candidates(workers));
    forall c: Candidate | c.at < |workers| && c.worker == workers[c.at]
      ensures c in Candidates(workers)
    {
      assert Candidates(workers)[c.at] == c;
    }
    forall i, j | 0 <= i < j < |ranked|
      ensures Score(ranked[i].worker, Some(group), referenced) >= Score(ranked[j].worker, Some(group), referenced)
    {
      assert order(ranked[i], ranked[j]);
    }
  }

  lemma {:induction false} FamiliarIs(ranked: seq<Candidate>, group: Group, referenced: set<ThreadId>)
    ensures forall c :: c in Familiar(ranked, group, referenced) <==> c in ranked && Score(c.worker, Some(group), referenced) > 0
    ensures ranked != [] && Score(ranked[0].worker, Some(group), referenced) > 0 ==>
              Familiar(ranked, group, referenced) != [] && Familiar(ranked, group, referenced)[0] == ranked[0]
  {
    if ranked != [] {
      assert ranked == [ranked[0]] + ranked[1..];
      FamiliarIs(ranked[1..], group, referenced);
    }
  }

  lemma {:induction false} FirstWithFinds(ranked: seq<Candidate>, reading: Reading, wanted: Availability)
    ensures FirstWith(ranked, reading, wanted).Some? ==>
              exists c :: c in ranked && c.at == FirstWith(ranked, reading, wanted).value && reading(c.worker.threadId) == wanted
    ensures FirstWith(ranked, reading, wanted) == None ==> forall c :: c in ranked ==> reading(c.worker.threadId) != wanted
  {
    if ranked != [] && reading(ranked[0].worker.threadId) != wanted {
      assert ranked == [ranked[0]] + ranked[1..];
      FirstWithFinds(ranked[1..], reading, wanted);
    }
  }

  lemma {:induction false} FirstCloseOrIdleFinds(familiar: seq<Candidate>, group: Group, referenced: set<ThreadId>, reading: Reading)
    ensures FirstCloseOrIdle(familiar, group, referenced, reading).Some? ==>
              exists c :: c in familiar && c.at == FirstCloseOrIdle(familiar, group, referenced, reading).value
    ensures FirstCloseOrIdle(familiar, group, referenced, reading) == None ==>
              forall c :: c in familiar ==> Score(c.worker, Some(group), referenced) < 4000 && reading(c.worker.threadId) != Idle
  {
    if familiar != [] && FirstCloseOrIdle(familiar, group, referenced, reading) != Some(familiar[0].at) {
      FirstCloseOrIdleFinds(familiar[1..], group, referenced, reading);
      assert familiar == [familiar[0]] + familiar[1..];
    }
  }

  /** A selection always names a worker of the pool. */
  lemma SelectionInPool(workers: seq<Worker>, maxAgents: Option<nat>, group: Group, referenced: set<ThreadId>, reading: Reading, source: Availability)
    ensures var s := Select(workers, maxAgents, group, referenced, reading, source);
            s.Use? ==> s.at < |workers|
  {
    hide Score, Rank, Familiar, FirstWith, FirstCloseOrIdle, AnyLoadable, Loadable;
    var all := Rank(workers, Some(group), referenced);
    var familiar := Familiar(all, group, referenced);
    RankedByScore(workers, group, referenced);
    FamiliarIs(all, group, referenced);
    FirstCloseOrIdleFinds(familiar, group, referenced, reading);
    FirstWithFinds(all, reading, Idle);
    FirstWithFinds(familiar, reading, NotLoaded);
    FirstWithFinds(all, reading, NotLoaded);
    FirstWithFinds(all, reading, Archived);
  }

  /** No worker can take the group: none close, none idle, loadable or archived, none that serves heartbeats if it is one. */
  ghost predicate NobodyFits(workers: seq<Worker>, group: Group, referenced: set<ThreadId>, reading: Reading) {
    forall i :: 0 <= i < |workers| ==>
      && Score(workers[i], Some(group), referenced) < 4000
      && reading(workers[i].threadId) != Idle && reading(workers[i].threadId) != NotLoaded && reading(workers[i].threadId) != Archived
      && (group.endpoint == HEARTBEAT ==> Score(workers[i], Some(group), referenced) <= 0)
  }

  /** None of the searches of a selection finds a worker. */
  predicate NothingFound(all: seq<Candidate>, familiar: seq<Candidate>, group: Group, referenced: set<ThreadId>, reading: Reading) {
    && (group.endpoint == HEARTBEAT ==> familiar == [])
    && FirstCloseOrIdle(familiar, group, referenced, reading) == None && FirstWith(all, reading, Idle) == None
    && FirstWith(familiar, reading, NotLoaded) == None && FirstWith(all, reading, NotLoaded) == None
    && FirstWith(all, reading, Archived) == None
  }

  lemma SearchesFail(workers: seq<Worker>, all: seq<Candidate>, familiar: seq<Candidate>, group: Group, referenced: set<ThreadId>, reading: Reading)
    requires forall c :: c in all <==> c.at < |workers| && c.worker == workers[c.at]
    requires forall c :: c in familiar <==> c in all && Score(c.worker, Some(group), referenced) > 0
    requires NobodyFits(workers, group, referenced, reading)
    ensures NothingFound(all, familiar, group, referenced, reading)
  {
    hide Score, FirstWith, FirstCloseOrIdle;
    FirstCloseOrIdleFinds(familiar, group, referenced, reading);
    FirstWithFinds(all, reading, Idle);
    FirstWithFinds(familiar, reading, NotLoaded);
    FirstWithFinds(all, reading, NotLoaded);
    FirstWithFinds(all, reading, Archived);
    CloseIsClose(familiar, group, referenced, reading);
    assert |familiar| == 0 || familiar[0] in familiar;
  }

  lemma {:induction false} CloseIsClose(familiar: seq<Candidate>, group: Group, referenced: set<ThreadId>, reading: Reading)
    ensures FirstCloseOrIdle(familiar, group, referenced, reading).Some? ==>
              exists c :: c in familiar && (Score(c.worker, Some(group), referenced) >= 4000 || reading(c.worker.threadId) == Idle)
  {
    hide Score;
    if familiar != [] {
      assert familiar == [familiar[0]] + familiar[1..];
      CloseIsClose(familiar[1..], group, referenced, reading);
    }
  }

  lemma FailedSearches(workers: seq<Worker>, all: seq<Candidate>, familiar: seq<Candidate>, group: Group, referenced: set<ThreadId>, reading: Reading)
    requires forall c :: c in all <==> c.at < |workers| && c.worker == workers[c.at]
    requires forall c :: c in familiar <==> c in all && Score(c.worker, Some(group), referenced) > 0
    requires NothingFound(all, familiar, group, referenced, reading)
    ensures NobodyFits(workers, group, referenced, reading)
  {
    hide Score, FirstWith, FirstCloseOrIdle;
    FirstCloseOrIdleFinds(familiar, group, referenced, reading);
    FirstWithFinds(all, reading, Idle);
    FirstWithFinds(all, reading, NotLoaded);
    FirstWithFinds(all, reading, Archived);
    forall i | 0 <= i < |workers|
      ensures Candidate(i, workers[i]) in all
    {
    }
  }

  /** A worker is created exactly when nobody fits, there is room or no worker at all, and something can be loaded. */
  lemma CreatesNewIff(workers: seq<Worker>, maxAgents: Option<nat>, group: Group, referenced: set<ThreadId>, reading: Reading, source: Availability)
    ensures Select(workers, maxAgents, group, referenced, reading, source) == CreateNew
      <==> NobodyFits(workers, group, referenced, reading)
           && (AtCap(workers, maxAgents) ==> workers == [])
           && (AnyLoadable(workers, reading) || Loadable(source))
  {
    hide Score, Loadable, Rank, Familiar, FirstWith, FirstCloseOrIdle, NobodyFits, AnyLoadable, AtCap;
    var all := Rank(workers, Some(group), referenced);
    var familiar := Familiar(all, group, referenced);
    RankedByScore(workers, group, referenced);
    FamiliarIs(all, group, referenced);
    if NothingFound(all, familiar, group, referenced, reading) {
      FailedSearches(workers, all, familiar, group, referenced, reading);
    } else if NobodyFits(workers, group, referenced, reading) {
      SearchesFail(workers, all, familiar, group, referenced, reading);
    }
  }

  // ---- Growth ----

  predicate WithinCap(workers: seq<Worker>, maxAgents: Option<nat>) {
    maxAgents.Some? ==> |workers| <= maxAgents.value
  }

  lemma StepWithinCap(workers: seq<Worker>, maxAgents: Option<nat>, step: Step)
    requires WithinCap(workers, maxAgents)
    ensures WithinCap(Next(workers, maxAgents, step), maxAgents) && |Next(workers, maxAgents, step)| >= |workers|
  {
    hide Select, Remember, LargestIndex;
  }

  /** The pool never exceeds its cap, over any run of allocations and thread replacements. */
  lemma {:induction false} PoolStaysWithinCap(workers: seq<Worker>, maxAgents: Option<nat>, steps: seq<Step>)
    requires WithinCap(workers, maxAgents)
    ensures WithinCap(Run(workers, maxAgents, steps), maxAgents)
    ensures |Run(workers, maxAgents, steps)| >= |workers|
    decreases |steps|
  {
    if steps != [] {
      hide Next;
      StepWithinCap(workers, maxAgents, steps[0]);
      PoolStaysWithinCap(Next(workers, maxAgents, steps[0]), maxAgents, steps[1..]);
    }
  }

  ghost predicate ServesHeartbeat(worker: Worker) {
    exists a :: a in worker.affinities && a.endpoint == HEARTBEAT
  }

  ghost predicate HasHeartbeat(workers: seq<Worker>) {
    exists i :: 0 <= i < |workers| && ServesHeartbeat(workers[i])
  }

  lemma RememberedGroup(worker: Worker, group: Group, now: int)
    ensures AffinityOf(group, now) in Remember(worker, group, now).affinities
    ensures Remember(worker, group, now).threadId == worker.threadId
    ensures |Remember(worker, group, now).affinities| <= AFFINITY_LIMIT
  {
    var affinities := Remember(worker, group, now).affinities;
    assert affinities[|affinities| - 1] == AffinityOf(group, now);
  }

  /** A worker that has served a heartbeat takes the next one, whatever availability is reported. */
  lemma HeartbeatReused(workers: seq<Worker>, maxAgents: Option<nat>, group: Group, referenced: set<ThreadId>, reading: Reading, source: Availability)
    requires HasHeartbeat(workers) && group.endpoint == HEARTBEAT
    ensures var s := Select(workers, maxAgents, group, referenced, reading, source);
            s.Use? && !s.replaceArchived && s.at < |workers|
  {
    var all := Rank(workers, Some(group), referenced);
    var i :| 0 <= i < |workers| && ServesHeartbeat(workers[i]);
    var a :| a in workers[i].affinities && a.endpoint == HEARTBEAT;
    assert AffinityWeight(a, group) >= 1000;
    RankedByScore(workers, group, referenced);
    FamiliarIs(all, group, referenced);
    assert Candidate(i, workers[i]) in all;
    assert Candidate(i, workers[i]) in Familiar(all, group, referenced);
    var first := Familiar(all, group, referenced)[0];
    assert first in all;
  }

  lemma HeartbeatStep(workers: seq<Worker>, maxAgents: Option<nat>, step: Step)
    requires step.Deliver? ==> step.group.endpoint == HEARTBEAT
    ensures var next := Next(workers, maxAgents, step);
            && (HasHeartbeat(workers) ==> HasHeartbeat(next) && |next| == |workers|)
            && (|next| > |workers| ==> HasHeartbeat(next) && |next| == |workers| + 1)
  {
    hide Select, Remember;
    match step
    case AdoptThread(at, threadId) =>
      if HasHeartbeat(workers) {
        var i :| 0 <= i < |workers| && ServesHeartbeat(workers[i]);
        assert ServesHeartbeat(Adopt(workers, at, threadId)[i]);
      }
    case Deliver(group, referenced, answers) =>
      var allocation := Allocate(workers, maxAgents, group, referenced, answers);
      if HasHeartbeat(workers) {
        HeartbeatReused(workers, maxAgents, group, referenced, answers.reading, answers.source);
      }
      if allocation.at.Some? {
        HeartbeatRemembered(workers, maxAgents, group, referenced, answers);
      }
  }

  lemma HeartbeatRemembered(workers: seq<Worker>, maxAgents: Option<nat>, group: Group, referenced: set<ThreadId>, answers: Answers)
    requires group.endpoint == HEARTBEAT && Allocate(workers, maxAgents, group, referenced, answers).at.Some?
    ensures HasHeartbeat(Allocate(workers, maxAgents, group, referenced, answers).workers)
  {
    hide Select, Remember;
    var allocation := Allocate(workers, maxAgents, group, referenced, answers);
    var at := allocation.at.value;
    match Select(workers, maxAgents, group, referenced, answers.reading, answers.source) {
      case CreateNew =>
        RememberedGroup(Worker(answers.created.value, LargestIndex(workers) + 1, answers.now, []), group, answers.now);
      case Use(_, replaceArchived) =>
        RememberedGroup(if replaceArchived then workers[at].(threadId := answers.replaced.value) else workers[at], group, answers.now);
    }
    assert AffinityOf(group, answers.now) in allocation.workers[at].affinities;
    assert ServesHeartbeat(allocation.workers[at]);
  }

  /** A run of heartbeat groups creates at most one worker, and none if some worker already serves them. */
  lemma {:induction false} HeartbeatsCreateAtMostOne(workers: seq<Worker>, maxAgents: Option<nat>, steps: seq<Step>)
    requires forall i :: 0 <= i < |steps| && steps[i].Deliver? ==> steps[i].group.endpoint == HEARTBEAT
    ensures |Run(workers, maxAgents, steps)| <= |workers| + 1
    ensures HasHeartbeat(workers) ==> |Run(workers, maxAgents, steps)| == |workers|
    decreases |steps|
  {
    if steps != [] {
      hide HasHeartbeat;
      var next := Next(workers, maxAgents, steps[0]);
      HeartbeatStep(workers, maxAgents, steps[0]);
      GrowsByOne(workers, maxAgents, steps[0]);
      HeartbeatsCreateAtMostOne(next, maxAgents, steps[1..]);
    }
  }

  lemma GrowsByOne(workers: seq<Worker>, maxAgents: Option<nat>, step: Step)
    ensures |workers| <= |Next(workers, maxAgents, step)| <= |workers| + 1
  {
    hide Select;
  }

  // ---- Routing by quoted message ----

  ghost predicate Quotes(workers: seq<Worker>, referenced: set<ThreadId>) {
    exists i :: 0 <= i < |workers| && workers[i].threadId in referenced
  }

  /** The best-ranked worker is a quoted one, above every unquoted worker. */
  lemma QuotedRankFirst(workers: seq<Worker>, group: Group, referenced: set<ThreadId>)
    requires Quotes(workers, referenced)
    ensures var all := Rank(workers, Some(group), referenced);
            all != [] && all[0].worker.threadId in referenced && Score(all[0].worker, Some(group), referenced) >= REFERENCED_WEIGHT
  {
    var i :| 0 <= i < |workers| && workers[i].threadId in referenced;
    var all := Rank(workers, Some(group), referenced);
    RankedByScore(workers, group, referenced);
    assert Candidate(i, workers[i]) in all;
    var k :| 0 <= k < |all| && all[k] == Candidate(i, workers[i]);
    assert Score(all[0].worker, Some(group), referenced) >= Score(all[k].worker, Some(group), referenced);
  }

  /** A delivery that quotes a message sent by some pool session is always allocated to such a session. */
  lemma QuotedSessionChosen(workers: seq<Worker>, maxAgents: Option<nat>, group: Group, referenced: set<ThreadId>, answers: Answers)
    requires Quotes(workers, referenced)
    ensures var allocation := Allocate(workers, maxAgents, group, referenced, answers);
            && |allocation.workers| == |workers|
            && allocation.at.Some? && allocation.at.value < |workers|
            && workers[allocation.at.value].threadId in referenced
            && allocation.workers[allocation.at.value].threadId == workers[allocation.at.value].threadId
  {
    var all := Rank(workers, Some(group), referenced);
    QuotedRankFirst(workers, group, referenced);
    RankedByScore(workers, group, referenced);
    FamiliarIs(all, group, referenced);
    assert Familiar(all, group, referenced)[0] == all[0];
    assert all[0] in all;
    assert Select(workers, maxAgents, group, referenced, answers.reading, answers.source) == Use(all[0].at, false);
    RememberedGroup(workers[all[0].at], group, answers.now);
  }

  // ---- The pool object ----

  /** The restored workers a new pool keeps. */
  function BestRanked(restored: seq<Worker>, maxAgents: Option<nat>): seq<Worker> {
    var ranked := Rank(restored, None, {});
    seq(if maxAgents.Some? then Min(|ranked|, maxAgents.value) else |ranked|,
        i requires 0 <= i < |ranked| => ranked[i].worker)
  }

  /** A new pool has its cap's worth of restored workers, and drops none while there is room. */
  lemma BestRankedFills(restored: seq<Worker>, maxAgents: Option<nat>)
    ensures |BestRanked(restored, maxAgents)| == if maxAgents.Some? then Min(|restored|, maxAgents.value) else |restored|
    ensures forall w :: w in BestRanked(restored, maxAgents) ==> w in restored
  {
    hide RankOrder;
    var ranked := Rank(restored, None, {});
    SameElements(ranked, Candidates(restored));
    forall i | 0 <= i < |ranked|
      ensures ranked[i].worker in restored
    {
      assert ranked[i] in Candidates(restored);
    }
  }

  class MessageAgentPool {
    const maxAgents: Option<nat>
    var workers: seq<Worker>

    /** Keeps the best-ranked restored workers, up to the cap. */
    constructor (restored: seq<Worker>, maxAgents: Option<nat>)
      ensures this.maxAgents == maxAgents && workers == BestRanked(restored, maxAgents)
      ensures WithinCap(workers, maxAgents)
    {
      this.maxAgents := maxAgents;
      workers := BestRanked(restored, maxAgents);
    }

    method FindFirst(ranked: seq<Candidate>, reading: Reading, wanted: Availability) returns (at: Option<nat>)
      ensures at == FirstWith(ranked, reading, wanted)
    {
      var i := 0;
      while i < |ranked|
        invariant 0 <= i <= |ranked|
        invariant FirstWith(ranked, reading, wanted) == FirstWith(ranked[i..], reading, wanted)
      {
        if reading(ranked[i].worker.threadId) == wanted {
          return Some(ranked[i].at);
        }
        i := i + 1;
      }
      return None;
    }

    method FindCloseOrIdle(familiar: seq<Candidate>, group: Group, referenced: set<ThreadId>, reading: Reading) returns (at: Option<nat>)
      ensures at == FirstCloseOrIdle(familiar, group, referenced, reading)
    {
      var i := 0;
      while i < |familiar|
        invariant 0 <= i <= |familiar|
        invariant FirstCloseOrIdle(familiar, group, referenced, reading) == FirstCloseOrIdle(familiar[i..], group, referenced, reading)
      {
        if Score(familiar[i].worker, Some(group), referenced) >= 4000 || reading(familiar[i].worker.threadId) == Idle {
          return Some(familiar[i].at);
        }
        i := i + 1;
      }
      return None;
    }

    method SelectFallbackWorker(familiar: seq<Candidate>, all: seq<Candidate>, reading: Reading, source: Availability) returns (s: Selection)
      ensures s == SelectFallback(workers, maxAgents, familiar, all, reading, source)
    {
      var idle := FindFirst(all, reading, Idle);
      if idle.Some? {
        return Use(idle.value, false);
      }
      var loadFamiliar := FindFirst(familiar, reading, NotLoaded);
      if loadFamiliar.Some? {
        return Use(loadFamiliar.value, false);
      }
      var load := FindFirst(all, reading, NotLoaded);
      if load.Some? {
        return Use(load.value, false);
      }
      var archived := FindFirst(all, reading, Archived);
      if archived.Some? {
        return Use(archived.value, true);
      }
      if AtCap(workers, maxAgents) && |workers| > 0 {
        return Use(if |familiar| > 0 then familiar[0].at else if |all| > 0 then all[0].at else 0, false);
      }
      return if !AnyLoadable(workers, reading) && !Loadable(source) then NoneAvailable else CreateNew;
    }

    method SelectWorker(group: Group, referenced: set<ThreadId>, reading: Reading, source: Availability) returns (s: Selection)
      ensures s == Select(workers, maxAgents, group, referenced, reading, source)
    {
      var all := Rank(workers, Some(group), referenced);
      var familiar := Familiar(all, group, referenced);
      if group.endpoint == HEARTBEAT && |familiar| > 0 {
        return Use(familiar[0].at, false);
      }
      var close := FindCloseOrIdle(familiar, group, referenced, reading);
      if close.Some? {
        return Use(close.value, false);
      }
      s := SelectFallbackWorker(familiar, all, reading, source);
    }

    /** The part of a delivery under the allocation lock. */
    method AllocateWorker(group: Group, referenced: set<ThreadId>, answers: Answers) returns (at: Option<nat>)
      modifies this
      ensures Allocation(workers, at) == Allocate(old(workers), maxAgents, group, referenced, answers)
    {
      var selection := SelectWorker(group, referenced, answers.reading, answers.source);
      match selection {
        case NoneAvailable =>
          return None;
        case CreateNew =>
          if answers.created == None || AtCap(workers, maxAgents) {
            return None;
          }
          var worker := Worker(answers.created.value, LargestIndex(workers) + 1, answers.now, []);
          workers := workers + [Remember(worker, group, answers.now)];
          return Some(|workers| - 1);
        case Use(chosen, replaceArchived) =>
          if chosen >= |workers| || (replaceArchived && answers.replaced == None) {
            return None;
          }
          var worker := workers[chosen];
          if replaceArchived {
            worker := worker.(threadId := answers.replaced.value);
          }
          workers := workers[chosen := Remember(worker, group, answers.now)];
          return Some(chosen);
      }
    }

    method AdoptResolvedThread(at: nat, threadId: ThreadId)
      modifies this
      ensures workers == Adopt(old(workers), at, threadId)
    {
      if at < |workers| {
        workers := workers[at := workers[at].(threadId := threadId)];
      }
    }
  }
}
