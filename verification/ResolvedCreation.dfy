/**
 * Durable creations as the resolver starts them.
 *
 * The resolver shares a creation under one key while it is unfinished; the creation itself goes step by step through
 * the reservation file of the key.  In every interleaving, with restarts, the calls that work on one file never
 * overlap, so no creation is repeated without a confirmation that the earlier task is missing.
 */
module ResolvedCreation {
  import opened Common
  import opened ThreadCreation
  import Resolver = SessionResolver

  type Key = Resolver.CreationKey

  /** A call under way: the file and history it found, what it meets, and how many of its steps are done. */
  datatype Started = Started(file: File, history: seq<Event>, env: Env, done: nat)

  /** The resolver's creations, the calls of one key, and that key's reservation file with its history. */
  datatype Machine = Machine(scope: Resolver.Scope, calls: map<nat, Started>, file: File, history: seq<Event>)

  datatype Move =
    | Ask(key: Key, now: int, env: Env)
    | Advance(creation: nat)
    | Settles(creation: nat, succeeded: bool)
    | Files(creation: nat, now: int)
    | Restart

  function Steps(call: Started): seq<Event> {
    Call(call.file, call.env)
  }

  predicate Unfinished(call: Started) {
    call.done < |Steps(call)|
  }

  /** A promise settles only once its call has gone through all its steps; a restart forgets the creations, not the file. */
  function Next(key: Key, m: Machine, move: Move): Machine {
    match move
    case Ask(k, now, env) =>
      m.(scope := Resolver.Next(m.scope, Resolver.CallCreate(k, now)),
         calls := if k == key && !Resolver.Shares(m.scope, k, now)
                  then m.calls[|m.scope.creations| := Started(m.file, m.history, env, 0)] else m.calls)
    case Advance(c) =>
      if c in m.calls && Unfinished(m.calls[c]) then
        var call := m.calls[c];
        var e := Steps(call)[call.done];
        m.(calls := m.calls[c := call.(done := call.done + 1)], file := if e.Wrote? then e.file else m.file, history := m.history + [e])
      else m
    case Settles(c, succeeded) =>
      if c in m.calls && Unfinished(m.calls[c]) then m else m.(scope := Resolver.Next(m.scope, Resolver.Settle(c, succeeded)))
    case Files(c, now) => m.(scope := Resolver.Next(m.scope, Resolver.File(c, now)))
    case Restart => Machine(Resolver.Scope([], map[]), map[], m.file, m.history)
  }

  function Run(key: Key, m: Machine, moves: seq<Move>): Machine
    decreases |moves|
  {
    if moves == [] then m else Run(key, Next(key, m, moves[0]), moves[1..])
  }

  /** The file and history are those of this call after the steps it has done. */
  ghost predicate At(m: Machine, call: Started) {
    && Fits(call.file, AuditAll(call.history)) && call.done <= |Steps(call)|
    && var p := Play(Process(call.file, call.history, call.done), Steps(call));
       m.file == p.file && m.history == p.history
  }

  ghost predicate Inv(key: Key, m: Machine) {
    && Resolver.Inv(m.scope) && Fits(m.file, AuditAll(m.history))
    && forall c :: c in m.calls ==>
         && c < |m.scope.creations| && m.scope.creations[c].key == key
         && (Unfinished(m.calls[c]) ==> m.scope.creations[c].phase == Resolver.Running && At(m, m.calls[c]))
  }

  /** Two calls on one file are never both under way. */
  lemma CallsNeverOverlap(key: Key, m: Machine, a: nat, b: nat)
    requires Inv(key, m) && a in m.calls && b in m.calls && Unfinished(m.calls[a]) && Unfinished(m.calls[b])
    ensures a == b
  {
    hide At;
  }

  /** A process that dies early has played exactly the first events. */
  lemma {:induction false} PlayPrefix(p: Process, events: seq<Event>)
    requires p.stepsLeft < |events|
    ensures var q := Play(p.(stepsLeft := p.stepsLeft + 1), events);
            var r := Play(p, events);
            q == Process(if events[p.stepsLeft].Wrote? then events[p.stepsLeft].file else r.file,
                         r.history + [events[p.stepsLeft]], 0)
    ensures Play(p, events).stepsLeft == 0
    decreases |events|
  {
    if p.stepsLeft == 0 {
      DeadPlay(p, events);
      DeadPlay(Emit(p.(stepsLeft := 1), events[0]), events[1..]);
    } else {
      PlayPrefix(Emit(p, events[0]), events[1..]);
    }
  }

  lemma AdvanceKeepsAt(key: Key, m: Machine, c: nat)
    requires c in m.calls && Unfinished(m.calls[c]) && At(m, m.calls[c])
    ensures var next := Next(key, m, Advance(c));
            At(next, next.calls[c]) && Fits(next.file, AuditAll(next.history))
  {
    hide Call, Fits, AuditAll;
    var call := m.calls[c];
    PlayPrefix(Process(call.file, call.history, call.done), Steps(call));
    assert Safe(Process(call.file, call.history, call.done + 1));
    CallKeepsSafe(Process(call.file, call.history, call.done + 1), call.env);
  }

  lemma AdvanceKeepsInv(key: Key, m: Machine, c: nat)
    requires Inv(key, m)
    ensures Inv(key, Next(key, m, Advance(c)))
  {
    hide At, Call, Fits, AuditAll;
    if c in m.calls && Unfinished(m.calls[c]) {
      AdvanceKeepsAt(key, m, c);
      forall d | d in m.calls && Unfinished(m.calls[d])
        ensures d == c
      {
        CallsNeverOverlap(key, m, c, d);
      }
    }
  }

  lemma NothingDone(m: Machine, env: Env)
    requires Fits(m.file, AuditAll(m.history))
    ensures At(m, Started(m.file, m.history, env, 0))
  {
    DeadPlay(Process(m.file, m.history, 0), Call(m.file, env));
  }

  /** A call starts only when no other call of its key is under way, so what it finds on file is final. */
  lemma AskKeepsInv(key: Key, m: Machine, k: Key, now: int, env: Env)
    requires Inv(key, m)
    ensures Inv(key, Next(key, m, Ask(k, now, env)))
  {
    hide At, Call, Fits, AuditAll;
    Resolver.StepKeepsInv(m.scope, Resolver.CallCreate(k, now));
    NothingDone(m, env);
    var next := Next(key, m, Ask(k, now, env));
    forall c | c in next.calls && Unfinished(next.calls[c])
      ensures At(next, next.calls[c])
    {
      if c in m.calls && c < |m.scope.creations| {
        SameAt(m, next, m.calls[c]);
      } else {
        SameAt(m, next, Started(m.file, m.history, env, 0));
      }
    }
  }

  lemma SameAt(m: Machine, next: Machine, call: Started)
    requires m.file == next.file && m.history == next.history && At(m, call)
    ensures At(next, call)
  {
  }

  lemma ScopeKeepsInv(key: Key, m: Machine, step: Resolver.Step)
    requires Inv(key, m) && !step.CallCreate?
    requires step.Settle? ==> !(step.creation in m.calls && Unfinished(m.calls[step.creation]))
    ensures Inv(key, m.(scope := Resolver.Next(m.scope, step)))
  {
    hide At, Call, Fits, AuditAll, Resolver.Inv;
    Resolver.StepKeepsInv(m.scope, step);
    var next := m.(scope := Resolver.Next(m.scope, step));
    forall c | c in m.calls && Unfinished(m.calls[c])
      ensures At(next, m.calls[c]) && next.scope.creations[c].phase == Resolver.Running
    {
      SameAt(m, next, m.calls[c]);
    }
  }

  lemma MoveKeepsInv(key: Key, m: Machine, move: Move)
    requires Inv(key, m)
    ensures Inv(key, Next(key, m, move))
  {
    hide Inv, Call;
    match move
    case Ask(k, now, env) => AskKeepsInv(key, m, k, now, env);
    case Advance(c) => AdvanceKeepsInv(key, m, c);
    case Settles(c, succeeded) =>
      if !(c in m.calls && Unfinished(m.calls[c])) {
        ScopeKeepsInv(key, m, Resolver.Settle(c, succeeded));
      }
    case Files(c, now) => ScopeKeepsInv(key, m, Resolver.File(c, now));
    case Restart => RestartKeepsInv(key, m);
  }

  lemma RestartKeepsInv(key: Key, m: Machine)
    requires Inv(key, m)
    ensures Inv(key, Next(key, m, Restart))
  {
  }

  lemma {:induction false} RunKeepsInv(key: Key, m: Machine, moves: seq<Move>)
    requires Inv(key, m)
    ensures Inv(key, Run(key, m, moves))
    decreases |moves|
  {
    hide Inv, Next;
    if moves != [] {
      MoveKeepsInv(key, m, moves[0]);
      RunKeepsInv(key, Next(key, m, moves[0]), moves[1..]);
    }
  }

  // ---- One undisturbed creation ----

  function Advances(c: nat, n: nat): seq<Move> {
    if n == 0 then [] else [Advance(c)] + Advances(c, n - 1)
  }

  /** The moves of a creation, called as number `c`, whose call has `n` steps. */
  function UndisturbedCreation(key: Key, c: nat, n: nat, now: int, env: Env, succeeded: bool, filedAt: int): seq<Move> {
    [Ask(key, now, env)] + (Advances(c, n) + [Settles(c, succeeded), Files(c, filedAt)])
  }

  lemma {:induction false} RunSplits(key: Key, m: Machine, first: seq<Move>, later: seq<Move>)
    ensures Run(key, m, first + later) == Run(key, Run(key, m, first), later)
    decreases |first|
  {
    hide Next;
    if first == [] {
      assert first + later == later;
    } else {
      assert (first + later)[1..] == first[1..] + later;
      RunSplits(key, Next(key, m, first[0]), first[1..], later);
    }
  }

  lemma {:induction false} AdvancesPlay(key: Key, m: Machine, c: nat, n: nat)
    requires c in m.calls && m.calls[c].done + n == |Steps(m.calls[c])|
    ensures var call, end := m.calls[c], Run(key, m, Advances(c, n));
            && end.scope == m.scope && end.calls == m.calls[c := call.(done := |Steps(call)|)]
            && end.file == FileAfter(m.file, Steps(call)[call.done..]) && end.history == m.history + Steps(call)[call.done..]
    decreases n
  {
    hide Call;
    var call := m.calls[c];
    if n > 0 {
      var next := Next(key, m, Advance(c));
      AdvancesPlay(key, next, c, n - 1);
      assert Advances(c, n) == [Advance(c)] + Advances(c, n - 1);
      assert Steps(call)[call.done..] == [Steps(call)[call.done]] + Steps(call)[call.done + 1..];
    }
  }

  lemma AskStarts(key: Key, m: Machine, now: int, env: Env)
    requires Inv(key, m) && !Resolver.Shares(m.scope, key, now)
    ensures var c, asked := |m.scope.creations|, Next(key, m, Ask(key, now, env));
            && c !in m.calls && asked.calls == m.calls[c := Started(m.file, m.history, env, 0)]
            && asked.file == m.file && asked.history == m.history
            && asked.scope.creations == m.scope.creations + [Resolver.Creation(key, Resolver.Running)]
            && key in asked.scope.entries && asked.scope.entries[key].creation == c
  {
    hide At;
  }

  lemma SettlesAndFiles(key: Key, m: Machine, c: nat, succeeded: bool, filedAt: int)
    requires !(c in m.calls && Unfinished(m.calls[c])) && c < |m.scope.creations| && m.scope.creations[c] == Resolver.Creation(key, Resolver.Running)
    requires key in m.scope.entries && m.scope.entries[key].creation == c
    ensures var end := Run(key, m, [Settles(c, succeeded), Files(c, filedAt)]);
            && end.scope.creations == m.scope.creations[c := Resolver.Creation(key, Resolver.Filed(succeeded))]
            && (if succeeded then key in end.scope.entries && end.scope.entries[key] == Resolver.Entry(c, Some(filedAt))
                else key !in end.scope.entries)
            && end.calls == m.calls && end.file == m.file && end.history == m.history
  {
    hide Unfinished;
    var moves := [Settles(c, succeeded), Files(c, filedAt)];
    assert moves[1..] == [Files(c, filedAt)] && moves[1..][1..] == [];
    var settled := Next(key, m, moves[0]);
    assert Run(key, m, moves) == Run(key, settled, moves[1..]) == Run(key, Next(key, settled, moves[1]), []);
  }

  /**
   * A creation that nothing disturbs goes through the file step by step and is then filed: shared for a minute when it
   * succeeded, forgotten when it failed.
   */
  lemma UndisturbedCreationRuns(key: Key, m: Machine, now: int, env: Env, succeeded: bool, filedAt: int)
    requires Inv(key, m) && !Resolver.Shares(m.scope, key, now)
    ensures var c, steps := |m.scope.creations|, Call(m.file, env);
            var end := Run(key, m, UndisturbedCreation(key, c, |steps|, now, env, succeeded, filedAt));
            && end.history == m.history + steps && end.file == FileAfter(m.file, steps)
            && end.scope.creations == m.scope.creations + [Resolver.Creation(key, Resolver.Filed(succeeded))]
            && (if succeeded then key in end.scope.entries && end.scope.entries[key] == Resolver.Entry(c, Some(filedAt))
                else key !in end.scope.entries)
            && c in end.calls && !Unfinished(end.calls[c]) && forall d :: d in m.calls ==> d in end.calls && end.calls[d] == m.calls[d]
  {
    hide Call, FileAfter, Inv, Next, Resolver.Shares;
    var c, steps := |m.scope.creations|, Call(m.file, env);
    var asked := Next(key, m, Ask(key, now, env));
    AskStarts(key, m, now, env);
    assert steps[0..] == steps;
    AdvancesPlay(key, asked, c, |steps|);
    RunSplits(key, asked, Advances(c, |steps|), [Settles(c, succeeded), Files(c, filedAt)]);
    SettlesAndFiles(key, Run(key, asked, Advances(c, |steps|)), c, succeeded, filedAt);
  }

  /**
   * However calls through the resolver interleave and the process restarts, between two creations under one key there is a
   * confirmation that the task of the first one is missing.
   */
  lemma ResolvedCreationsConfirmed(key: Key, moves: seq<Move>, i: nat, j: nat)
    requires var history := Run(key, Machine(Resolver.Scope([], map[]), map[], Absent, []), moves).history;
             i < j < |history| && history[i].CreateCalled? && history[j].CreateCalled?
    ensures var history := Run(key, Machine(Resolver.Scope([], map[]), map[], Absent, []), moves).history;
            exists k :: i < k < j && history[k].ConfirmedMissing?
  {
    var start := Machine(Resolver.Scope([], map[]), map[], Absent, []);
    assert AuditAll([]).Some? && Fits(Absent, AuditAll([]));
    RunKeepsInv(key, start, moves);
    SecondCreateWasConfirmed(Run(key, start, moves).history, i, j);
  }
}
