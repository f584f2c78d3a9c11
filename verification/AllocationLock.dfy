/**
 * The allocation lock of the message agent pool.
 *
 * Deliveries run concurrently, but each waits for the tail of the allocations before it chooses a worker and, after
 * requests to the manager, commits the choice.  Between the two the thread of a worker may be replaced by another
 * delivery.  In every interleaving the pool keeps its cap, and heartbeats create at most one worker.
 */
module AllocationLock {
  import opened Common
  import opened AgentPool
  import Tail = PromiseTails

  const LOCK := "allocation"

  /** A choice not yet committed. */
  datatype Choice = Choice(group: Group, selection: Selection)

  /** The allocations behind the tail, the pool, and the choices of running allocations. */
  datatype Machine = Machine(tails: Tail.Tails, workers: seq<Worker>, choices: map<nat, Choice>)

  datatype Move =
    | Called
    | Begins(op: nat)
    | Chooses(op: nat, group: Group, referenced: set<ThreadId>, reading: Reading, source: Availability)
    | Commits(op: nat, created: Option<ThreadId>, replaced: Option<ThreadId>, now: int)
    | Ends(op: nat, ok: bool)
    | ThreadReplaced(at: nat, threadId: ThreadId)

  predicate IsRunning(m: Machine, i: nat) {
    i < |m.tails.ops| && m.tails.ops[i].phase == Tail.Running
  }

  /** The pool after a choice is carried out; a failed request leaves it as it was. */
  function Committed(workers: seq<Worker>, choice: Choice, created: Option<ThreadId>, replaced: Option<ThreadId>, now: int): seq<Worker> {
    match choice.selection
    case NoneAvailable => workers
    case CreateNew =>
      if created == None then workers
      else workers + [Remember(Worker(created.value, LargestIndex(workers) + 1, now, []), choice.group, now)]
    case Use(at, replaceArchived) =>
      if at >= |workers| || (replaceArchived && replaced == None) then workers
      else
        var worker := if replaceArchived then workers[at].(threadId := replaced.value) else workers[at];
        workers[at := Remember(worker, choice.group, now)]
  }

  /** The cap is checked when a creation starts, before the manager is asked. */
  function Next(maxAgents: Option<nat>, m: Machine, move: Move): Machine {
    match move
    case Called => m.(tails := Tail.Next(m.tails, Tail.Call(LOCK)))
    case Begins(i) => m.(tails := Tail.Next(m.tails, Tail.Begin(i)))
    case Chooses(i, group, referenced, reading, source) =>
      var selection := Select(m.workers, maxAgents, group, referenced, reading, source);
      if !IsRunning(m, i) || i in m.choices || (selection == CreateNew && AtCap(m.workers, maxAgents)) then m
      else m.(choices := m.choices[i := Choice(group, selection)])
    case Commits(i, created, replaced, now) =>
      if IsRunning(m, i) && i in m.choices
      then m.(workers := Committed(m.workers, m.choices[i], created, replaced, now), choices := m.choices - {i})
      else m
    case Ends(i, ok) =>
      if IsRunning(m, i) then m.(tails := Tail.Next(m.tails, Tail.Finish(i, ok)), choices := m.choices - {i}) else m
    case ThreadReplaced(at, threadId) => m.(workers := Adopt(m.workers, at, threadId))
  }

  function Run(maxAgents: Option<nat>, m: Machine, moves: seq<Move>): Machine
    decreases |moves|
  {
    if moves == [] then m else Run(maxAgents, Next(maxAgents, m, moves[0]), moves[1..])
  }

  /** Choices belong to running allocations, of which there is at most one. */
  ghost predicate Locked(m: Machine) {
    && Tail.Inv(m.tails) && (forall i :: 0 <= i < |m.tails.ops| ==> m.tails.ops[i].key == LOCK)
    && (forall i :: i in m.choices ==> IsRunning(m, i))
  }

  lemma OneAllocation(m: Machine, i: nat, j: nat)
    requires Locked(m) && IsRunning(m, i) && IsRunning(m, j)
    ensures i == j
  {
    var first, second := Min(i, j), Max(i, j);
    assert Tail.AllOver(m.tails.ops, LOCK, second);
  }

  lemma TailStepKeepsLocked(m: Machine, step: Tail.Step)
    requires Locked(m) && (step.Call? ==> step.key == LOCK)
    requires step.Finish? ==> step.op !in m.choices
    ensures Locked(m.(tails := Tail.Next(m.tails, step)))
  {
    hide Tail.Inv;
    Tail.StepKeepsInv(m.tails, step);
  }

  lemma MoveKeepsLocked(maxAgents: Option<nat>, m: Machine, move: Move)
    requires Locked(m)
    ensures Locked(Next(maxAgents, m, move))
  {
    hide Tail.Inv, Tail.Next, Select, Committed, Adopt;
    match move
    case Called => TailStepKeepsLocked(m, Tail.Call(LOCK));
    case Begins(i) => TailStepKeepsLocked(m, Tail.Begin(i));
    case Ends(i, ok) =>
      if IsRunning(m, i) {
        TailStepKeepsLocked(m.(choices := m.choices - {i}), Tail.Finish(i, ok));
      }
    case _ =>
  }

  // ---- The cap ----

  /** The pool is within its cap, and a creation under way has room. */
  ghost predicate Capped(maxAgents: Option<nat>, m: Machine) {
    && WithinCap(m.workers, maxAgents)
    && forall i :: i in m.choices && m.choices[i].selection == CreateNew ==> !AtCap(m.workers, maxAgents)
  }

  lemma MoveKeepsCapped(maxAgents: Option<nat>, m: Machine, move: Move)
    requires Locked(m) && Capped(maxAgents, m)
    ensures Capped(maxAgents, Next(maxAgents, m, move))
  {
    hide Tail.Inv, Tail.Next, Select, Remember, LargestIndex;
    if move.Commits? && IsRunning(m, move.op) && move.op in m.choices {
      forall j | j in m.choices
        ensures j == move.op
      {
        OneAllocation(m, move.op, j);
      }
    }
  }

  /** In every interleaving of deliveries the pool never exceeds its cap. */
  lemma {:induction false} LockedPoolWithinCap(maxAgents: Option<nat>, m: Machine, moves: seq<Move>)
    requires Locked(m) && Capped(maxAgents, m)
    ensures WithinCap(Run(maxAgents, m, moves).workers, maxAgents)
    decreases |moves|
  {
    if moves != [] {
      hide Locked, Capped, Next;
      MoveKeepsLocked(maxAgents, m, moves[0]);
      MoveKeepsCapped(maxAgents, m, moves[0]);
      LockedPoolWithinCap(maxAgents, Next(maxAgents, m, moves[0]), moves[1..]);
    }
  }

  /** A pool at rest within its cap. */
  lemma StartIsLocked(maxAgents: Option<nat>, workers: seq<Worker>)
    requires WithinCap(workers, maxAgents)
    ensures Locked(Machine(Tail.Tails([], map[]), workers, map[])) && Capped(maxAgents, Machine(Tail.Tails([], map[]), workers, map[]))
  {
  }

  // ---- One undisturbed allocation ----

  /** No allocation is waiting or running. */
  ghost predicate Idle(m: Machine) {
    Locked(m) && forall i :: 0 <= i < |m.tails.ops| ==> m.tails.ops[i].phase.Over()
  }

  /** The moves of an allocation, called as number `i`. */
  function UndisturbedAllocation(i: nat, group: Group, referenced: set<ThreadId>, answers: Answers): seq<Move> {
    [Called, Begins(i), Chooses(i, group, referenced, answers.reading, answers.source),
     Commits(i, answers.created, answers.replaced, answers.now), Ends(i, true)]
  }

  lemma LockTaken(maxAgents: Option<nat>, m: Machine)
    requires Idle(m)
    ensures var i, taken := |m.tails.ops|, Next(maxAgents, Next(maxAgents, m, Called), Begins(|m.tails.ops|));
            && Locked(taken) && IsRunning(taken, i) && |taken.tails.ops| == i + 1 && taken.workers == m.workers && taken.choices == map[]
            && forall j :: 0 <= j < i ==> taken.tails.ops[j] == m.tails.ops[j]
  {
    hide Tail.Inv;
    var called := Next(maxAgents, m, Called);
    MoveKeepsLocked(maxAgents, m, Called);
    MoveKeepsLocked(maxAgents, called, Begins(|m.tails.ops|));
    Tail.FirstUnfinishedCanStep(called.tails, |m.tails.ops|);
  }

  lemma ChoiceIsAllocation(maxAgents: Option<nat>, m: Machine, i: nat, group: Group, referenced: set<ThreadId>, answers: Answers)
    requires IsRunning(m, i) && m.choices == map[]
    ensures var chosen := Next(maxAgents, m, Chooses(i, group, referenced, answers.reading, answers.source));
            var end := Next(maxAgents, chosen, Commits(i, answers.created, answers.replaced, answers.now));
            && end.workers == Allocate(m.workers, maxAgents, group, referenced, answers).workers
            && end.tails == m.tails && end.choices == map[]
  {
    hide Select, Remember, LargestIndex;
  }

  lemma LockReleased(maxAgents: Option<nat>, m: Machine, i: nat)
    requires Locked(m) && IsRunning(m, i) && i + 1 == |m.tails.ops|
    requires forall j :: 0 <= j < i ==> m.tails.ops[j].phase.Over()
    ensures Idle(Next(maxAgents, m, Ends(i, true))) && Next(maxAgents, m, Ends(i, true)).workers == m.workers
  {
    MoveKeepsLocked(maxAgents, m, Ends(i, true));
  }

  lemma FiveMoves(maxAgents: Option<nat>, m: Machine, moves: seq<Move>)
    requires |moves| == 5
    ensures Run(maxAgents, m, moves)
         == Next(maxAgents, Next(maxAgents, Next(maxAgents, Next(maxAgents, Next(maxAgents, m, moves[0]), moves[1]), moves[2]), moves[3]), moves[4])
  {
    hide Next;
    assert moves[1..][1..] == moves[2..] && moves[2..][1..] == moves[3..] && moves[3..][1..] == moves[4..] && moves[4..][1..] == [];
    var m1 := Next(maxAgents, m, moves[0]);
    var m2 := Next(maxAgents, m1, moves[1]);
    var m3 := Next(maxAgents, m2, moves[2]);
    var m4 := Next(maxAgents, m3, moves[3]);
    assert Run(maxAgents, m, moves) == Run(maxAgents, m1, moves[1..]) == Run(maxAgents, m2, moves[2..]) == Run(maxAgents, m3, moves[3..]);
    assert Run(maxAgents, m3, moves[3..]) == Run(maxAgents, m4, moves[4..]) == Run(maxAgents, Next(maxAgents, m4, moves[4]), []);
  }

  /** Choosing, asking the manager and committing, undisturbed, is one allocation, and leaves the lock free. */
  lemma UndisturbedAllocates(maxAgents: Option<nat>, m: Machine, group: Group, referenced: set<ThreadId>, answers: Answers)
    requires Idle(m)
    ensures var end := Run(maxAgents, m, UndisturbedAllocation(|m.tails.ops|, group, referenced, answers));
            Idle(end) && end.workers == Allocate(m.workers, maxAgents, group, referenced, answers).workers
  {
    hide Tail.Inv, Next, Allocate, IsRunning;
    var i := |m.tails.ops|;
    var moves := UndisturbedAllocation(i, group, referenced, answers);
    var taken := Next(maxAgents, Next(maxAgents, m, Called), Begins(i));
    var committed := Next(maxAgents, Next(maxAgents, taken, moves[2]), moves[3]);
    LockTaken(maxAgents, m);
    ChoiceIsAllocation(maxAgents, taken, i, group, referenced, answers);
    MoveKeepsLocked(maxAgents, taken, moves[2]);
    MoveKeepsLocked(maxAgents, Next(maxAgents, taken, moves[2]), moves[3]);
    StaysRunning(taken, committed, i);
    LockReleased(maxAgents, committed, i);
    FiveMoves(maxAgents, m, moves);
  }

  lemma StaysRunning(m: Machine, later: Machine, i: nat)
    requires IsRunning(m, i) && later.tails == m.tails
    ensures IsRunning(later, i)
  {
  }

  /** A thread may be replaced at any time: that worker gets the new one, and the lock and the choices stay. */
  lemma ThreadReplacedAnytime(maxAgents: Option<nat>, m: Machine, at: nat, threadId: ThreadId)
    ensures var end := Next(maxAgents, m, ThreadReplaced(at, threadId));
            && end.tails == m.tails && end.choices == m.choices && |end.workers| == |m.workers|
            && forall i :: 0 <= i < |m.workers| ==> end.workers[i] == if i == at then m.workers[i].(threadId := threadId) else m.workers[i]
  {
  }

  // ---- Heartbeats ----

  /** Since the pool had `n` workers at most one was created, and that one, like any user of the pool, serves heartbeats. */
  ghost predicate OneHeartbeat(m: Machine, n: nat) {
    && (|m.workers| == n || (|m.workers| == n + 1 && HasHeartbeat(m.workers)))
    && forall i :: i in m.choices ==>
         m.choices[i].group.endpoint == HEARTBEAT && (m.choices[i].selection == CreateNew ==> !HasHeartbeat(m.workers))
  }

  lemma AdoptKeepsHeartbeat(workers: seq<Worker>, at: nat, threadId: ThreadId)
    ensures HasHeartbeat(Adopt(workers, at, threadId)) <==> HasHeartbeat(workers)
  {
    var after := Adopt(workers, at, threadId);
    if HasHeartbeat(workers) {
      var i :| 0 <= i < |workers| && ServesHeartbeat(workers[i]);
      assert ServesHeartbeat(after[i]);
    }
    if HasHeartbeat(after) {
      var i :| 0 <= i < |after| && ServesHeartbeat(after[i]);
      assert ServesHeartbeat(workers[i]);
    }
  }

  lemma CommitServesHeartbeat(workers: seq<Worker>, choice: Choice, created: Option<ThreadId>, replaced: Option<ThreadId>, now: int)
    requires choice.group.endpoint == HEARTBEAT
    ensures var after := Committed(workers, choice, created, replaced, now);
            && (HasHeartbeat(after) || after == workers)
            && (choice.selection != CreateNew ==> |after| == |workers|) && |workers| <= |after| <= |workers| + 1
  {
    hide Remember;
    var after := Committed(workers, choice, created, replaced, now);
    match choice.selection
    case NoneAvailable =>
    case CreateNew =>
      if created.Some? {
        RememberedGroup(Worker(created.value, LargestIndex(workers) + 1, now, []), choice.group, now);
        assert ServesHeartbeat(after[|workers|]);
      }
    case Use(at, replaceArchived) =>
      if at < |workers| && !(replaceArchived && replaced == None) {
        RememberedGroup(if replaceArchived then workers[at].(threadId := replaced.value) else workers[at], choice.group, now);
        assert ServesHeartbeat(after[at]);
      }
  }

  lemma MoveKeepsOneHeartbeat(maxAgents: Option<nat>, m: Machine, move: Move, n: nat)
    requires Locked(m) && OneHeartbeat(m, n) && (move.Chooses? ==> move.group.endpoint == HEARTBEAT)
    ensures OneHeartbeat(Next(maxAgents, m, move), n)
  {
    hide Tail.Inv, Tail.Next, Select, Committed, HasHeartbeat, Adopt;
    match move
    case Chooses(i, group, referenced, reading, source) =>
      if HasHeartbeat(m.workers) {
        HeartbeatReused(m.workers, maxAgents, group, referenced, reading, source);
      }
    case Commits(i, created, replaced, now) =>
      if IsRunning(m, i) && i in m.choices {
        CommitServesHeartbeat(m.workers, m.choices[i], created, replaced, now);
        forall j | j in m.choices
          ensures j == i
        {
          OneAllocation(m, i, j);
        }
      }
    case ThreadReplaced(at, threadId) =>
      AdoptKeepsHeartbeat(m.workers, at, threadId);
      AdoptKeepsLength(m.workers, at, threadId);
    case _ =>
  }

  lemma AdoptKeepsLength(workers: seq<Worker>, at: nat, threadId: ThreadId)
    ensures |Adopt(workers, at, threadId)| == |workers|
  {
  }

  lemma {:induction false} RunKeepsOneHeartbeat(maxAgents: Option<nat>, m: Machine, moves: seq<Move>, n: nat)
    requires Locked(m) && OneHeartbeat(m, n)
    requires forall i :: 0 <= i < |moves| && moves[i].Chooses? ==> moves[i].group.endpoint == HEARTBEAT
    ensures OneHeartbeat(Run(maxAgents, m, moves), n)
    decreases |moves|
  {
    if moves != [] {
      hide Locked, OneHeartbeat, Next;
      MoveKeepsLocked(maxAgents, m, moves[0]);
      MoveKeepsOneHeartbeat(maxAgents, m, moves[0], n);
      RunKeepsOneHeartbeat(maxAgents, Next(maxAgents, m, moves[0]), moves[1..], n);
    }
  }

  /** However deliveries of heartbeats interleave and whatever availability is reported, they create at most one worker. */
  lemma LockedHeartbeatsCreateAtMostOne(maxAgents: Option<nat>, workers: seq<Worker>, moves: seq<Move>)
    requires WithinCap(workers, maxAgents)
    requires forall i :: 0 <= i < |moves| && moves[i].Chooses? ==> moves[i].group.endpoint == HEARTBEAT
    ensures |Run(maxAgents, Machine(Tail.Tails([], map[]), workers, map[]), moves).workers| <= |workers| + 1
  {
    hide Run;
    StartIsLocked(maxAgents, workers);
    RunKeepsOneHeartbeat(maxAgents, Machine(Tail.Tails([], map[]), workers, map[]), moves, |workers|);
  }
}
