/**
 * Durable creation of a Codex Desktop thread.
 *
 * A reservation file per creation key records how far a creation got, so that a crashed or slow
 * creation is never simply started again.  Calls for one key do not overlap; SessionResolver shows
 * where that comes from.  A call is the list of its events, and a crash keeps a prefix of them.
 */
module ThreadCreation {
  import opened Common

  datatype Stage = Reserved | Creating | ThreadCreated | Naming | InitialTurn | Completed | Uncertain | FailedBeforeCreate

  datatype ThreadResult = ThreadResult(id: string, title: string)

  datatype Reservation = Reservation(state: Stage, createdAt: int, updatedAt: int, threadId: Option<string>,
                                     result: Option<ThreadResult>, error: Option<string>)

  /** The reservation file; a crash while it is first written leaves it torn. */
  datatype File = Absent | Torn | Stored(reservation: Reservation)

  datatype Confirmation = NotAsked | Answered(missing: bool) | ConfirmationFailed

  /** The stages a running creation may report. */
  type ReportedStage = s: Stage | s == ThreadCreated || s == Naming || s == InitialTurn witness ThreadCreated

  datatype Report = Report(state: ReportedStage, threadId: string)

  datatype Ending = Succeeds(result: ThreadResult) | Fails(error: string)

  /** What one call meets: the clock, the staleness bound, the missing-task check, and what `create` does. */
  datatype Env = Env(now: int, staleAfter: int, confirm: Confirmation, reports: seq<Report>, ending: Ending)

  datatype Event =
    | Wrote(file: File)
    | ConfirmedMissing(stale: Reservation)
    | CreateCalled
    | Returned(result: ThreadResult)
    | Blocked(reservation: Reservation)
    | Unreadable

  function HasThread(r: Reservation): bool {
    r.threadId.Some? && r.threadId.value != ""
  }

  // ---- One call ----

  datatype Reserve = Created(events: seq<Event>, reservation: Reservation) | Exists(reservation: Reservation) | Broken

  function ReserveCreation(file: File, now: int): Reserve {
    match file
    case Absent =>
      var r := Reservation(Reserved, now, now, None, None, None);
      Created([Wrote(Torn), Wrote(Stored(r))], r)
    case Torn => Broken
    case Stored(existing) =>
      if existing.state != FailedBeforeCreate then Exists(existing)
      else
        var r := Reservation(Reserved, existing.createdAt, now, None, None, None);
        Created([Wrote(Stored(r))], r)
  }

  function ReportWrites(current: Reservation, reports: seq<Report>, now: int): seq<Event>
    decreases |reports|
  {
    if reports == [] then []
    else
      var next := current.(state := reports[0].state, threadId := Some(reports[0].threadId), updatedAt := now);
      [Wrote(Stored(next))] + ReportWrites(next, reports[1..], now)
  }

  function AfterReports(current: Reservation, reports: seq<Report>, now: int): Reservation
    decreases |reports|
  {
    if reports == [] then current
    else AfterReports(current.(state := reports[0].state, threadId := Some(reports[0].threadId), updatedAt := now), reports[1..], now)
  }

  /** The end of a creation. */
  function Conclude(current: Reservation, env: Env): seq<Event> {
    match env.ending
    case Succeeds(result) =>
      [Wrote(Stored(current.(state := Completed, threadId := Some(result.id), result := Some(result), error := None, updatedAt := env.now))),
       Returned(result)]
    case Fails(error) =>
      var uncertain := current.(state := Uncertain, error := Some(error), updatedAt := env.now);
      [Wrote(Stored(uncertain)), Blocked(uncertain)]
  }

  /** Runs `create` on a fresh reservation. */
  function Create(reserved: Reservation, env: Env): seq<Event> {
    var creating := reserved.(state := Creating, updatedAt := env.now);
    [Wrote(Stored(creating)), CreateCalled]
    + ReportWrites(creating, env.reports, env.now)
    + Conclude(AfterReports(creating, env.reports, env.now), env)
  }

  predicate IsStale(r: Reservation, env: Env) {
    r.state == Creating && env.now - r.updatedAt >= env.staleAfter
  }

  predicate MissingConfirmed(r: Reservation, env: Env) {
    !HasThread(r) && env.confirm == Answered(true)
  }

  /** What a call does about a reservation it finds. */
  function HandleExisting(r: Reservation, env: Env): seq<Event> {
    if r.state == Completed && r.result.Some? then [Returned(r.result.value)]
    else if !IsStale(r, env) then [Blocked(r)]
    else if MissingConfirmed(r, env) then
      var failed := r.(state := FailedBeforeCreate, error := Some("confirmed missing"), updatedAt := env.now);
      [ConfirmedMissing(r), Wrote(Stored(failed))] +
      (match ReserveCreation(Stored(failed), env.now)
       case Created(events, reserved) => events + Create(reserved, env)
       case Exists(other) => [Blocked(other)]
       case Broken => [Unreadable])
    else
      var uncertain := r.(state := Uncertain, error := Some("not confirmed"), updatedAt := env.now);
      [Wrote(Stored(uncertain)), Blocked(uncertain)]
  }

  function Call(file: File, env: Env): seq<Event> {
    match ReserveCreation(file, env.now)
    case Broken => [Unreadable]
    case Created(events, reserved) => events + Create(reserved, env)
    case Exists(r) => HandleExisting(r, env)
  }

  // ---- Crashes and runs ----

  /** A process over the reservation file, with the events so far and how many more it lives to see. */
  datatype Process = Process(file: File, history: seq<Event>, stepsLeft: nat)

  function Emit(p: Process, e: Event): Process {
    if p.stepsLeft == 0 then p
    else Process(if e.Wrote? then e.file else p.file, p.history + [e], p.stepsLeft - 1)
  }

  function Play(p: Process, events: seq<Event>): Process
    decreases |events|
  {
    if events == [] then p else Play(Emit(p, events[0]), events[1..])
  }

  /** One call and the event after which its process dies, if it does not finish first. */
  datatype Attempt = Attempt(env: Env, steps: nat)

  function RunCalls(file: File, history: seq<Event>, attempts: seq<Attempt>): Process
    decreases |attempts|
  {
    if attempts == [] then Process(file, history, 0)
    else
      var p := Play(Process(file, history, attempts[0].steps), Call(file, attempts[0].env));
      RunCalls(p.file, p.history, attempts[1..])
  }

  lemma {:induction false} PlaySplits(p: Process, first: seq<Event>, later: seq<Event>)
    ensures Play(p, first + later) == Play(Play(p, first), later)
    decreases |first|
  {
    if first == [] {
      assert first + later == later;
    } else {
      PlaySplits(Emit(p, first[0]), first[1..], later);
      assert (first + later)[1..] == first[1..] + later;
    }
  }

  // ---- Safety ----

  /**
   * Reads a history: None once `create` was called while an earlier creation was still unaccounted
   * for; otherwise whether one is unaccounted for now.
   */
  function Audit(outstanding: Option<bool>, e: Event): Option<bool> {
    match outstanding
    case None => None
    case Some(open) =>
      if e.CreateCalled? then (if open then None else Some(true))
      else if e.ConfirmedMissing? then Some(false)
      else outstanding
  }

  function AuditAll(history: seq<Event>): Option<bool> {
    if history == [] then Some(false)
    else Audit(AuditAll(history[..|history| - 1]), history[|history| - 1])
  }

  /** What the file must look like while a creation is, or is not, unaccounted for. */
  predicate Fits(file: File, outstanding: Option<bool>) {
    && outstanding.Some?
    && (outstanding == Some(true) ==> file.Stored? && file.reservation.state != Reserved && file.reservation.state != FailedBeforeCreate)
    && (file.Stored? && HasThread(file.reservation) ==>
          file.reservation.state != Reserved && file.reservation.state != Creating && file.reservation.state != FailedBeforeCreate)
  }

  ghost predicate Safe(p: Process) {
    Fits(p.file, AuditAll(p.history))
  }

  lemma AuditSnoc(history: seq<Event>, e: Event)
    ensures AuditAll(history + [e]) == Audit(AuditAll(history), e)
  {
    assert (history + [e])[..|history|] == history;
  }

  /** An event that is harmless whatever is outstanding. */
  lemma EmitKeepsSafe(p: Process, e: Event)
    requires Safe(p)
    requires p.stepsLeft > 0 && e.CreateCalled? ==>
               AuditAll(p.history) == Some(false) && p.file.Stored? && p.file.reservation.state == Creating
    requires p.stepsLeft > 0 && e.Wrote? ==> Fits(e.file, AuditAll(p.history))
    ensures Safe(Emit(p, e))
  {
    AuditSnoc(p.history, e);
  }

  lemma {:induction false} ReportsKeepSafe(p: Process, current: Reservation, reports: seq<Report>, now: int)
    requires Safe(p) && (p.stepsLeft > 0 ==> p.file == Stored(current))
    requires current.state != Reserved && current.state != FailedBeforeCreate
    ensures var q, last := Play(p, ReportWrites(current, reports, now)), AfterReports(current, reports, now);
            && Safe(q) && (q.stepsLeft > 0 ==> q.file == Stored(last) && q.stepsLeft <= p.stepsLeft)
            && last.state != Reserved && last.state != FailedBeforeCreate && (last.state == Creating ==> last == current)
    decreases |reports|
  {
    if reports != [] {
      var next := current.(state := reports[0].state, threadId := Some(reports[0].threadId), updatedAt := now);
      var e, rest := Wrote(Stored(next)), ReportWrites(next, reports[1..], now);
      EmitKeepsSafe(p, e);
      assert ([e] + rest)[1..] == rest;
      ReportsKeepSafe(Emit(p, e), next, reports[1..], now);
    }
  }

  lemma PlayTwo(p: Process, a: Event, b: Event)
    ensures Play(p, [a, b]) == Emit(Emit(p, a), b)
  {
    var first, rest := Emit(p, a), [b];
    assert [a, b][1..] == rest && [a, b][0] == a;
    PlayOne(first, b);
  }

  lemma PlayOne(p: Process, e: Event)
    ensures Play(p, [e]) == Emit(p, e)
  {
    assert [e][1..] == [] && Play(Emit(p, e), []) == Emit(p, e);
  }

  lemma ConcludeKeepsSafe(p: Process, current: Reservation, env: Env)
    requires Safe(p) && (p.stepsLeft > 0 ==> p.file == Stored(current))
    requires current.state != Reserved && current.state != FailedBeforeCreate
    ensures Safe(Play(p, Conclude(current, env)))
  {
    var events := Conclude(current, env);
    PlayTwo(p, events[0], events[1]);
    EmitKeepsSafe(p, events[0]);
    EmitKeepsSafe(Emit(p, events[0]), events[1]);
  }

  lemma CreateKeepsSafe(p: Process, reserved: Reservation, env: Env)
    requires Safe(p) && reserved.state == Reserved && reserved.threadId == None
    requires p.stepsLeft > 0 ==> AuditAll(p.history) == Some(false)
    ensures Safe(Play(p, Create(reserved, env)))
  {
    var creating := reserved.(state := Creating, updatedAt := env.now);
    var start := [Wrote(Stored(creating)), CreateCalled];
    var reports, last := ReportWrites(creating, env.reports, env.now), AfterReports(creating, env.reports, env.now);
    PlaySplits(p, start + reports, Conclude(last, env));
    PlaySplits(p, start, reports);
    PlayTwo(p, start[0], start[1]);
    var written := Emit(p, start[0]);
    EmitKeepsSafe(p, start[0]);
    AuditSnoc(p.history, start[0]);
    if written.stepsLeft > 0 {
      EmitKeepsSafe(written, CreateCalled);
    }
    ReportsKeepSafe(Play(p, start), creating, env.reports, env.now);
    ConcludeKeepsSafe(Play(p, start + reports), last, env);
  }

  /** A fresh reservation over a file nothing is outstanding for, then the creation. */
  lemma ReservedKeepsSafe(p: Process, file: File, env: Env)
    requires Safe(p) && ReserveCreation(file, env.now).Created?
    requires p.stepsLeft > 0 ==> AuditAll(p.history) == Some(false)
    ensures Safe(Play(p, ReserveCreation(file, env.now).events + Create(ReserveCreation(file, env.now).reservation, env)))
  {
    var reserve := ReserveCreation(file, env.now);
    var events := reserve.events;
    PlaySplits(p, events, Create(reserve.reservation, env));
    EmitKeepsSafe(p, events[0]);
    AuditSnoc(p.history, events[0]);
    var first := Emit(p, events[0]);
    if |events| == 2 {
      PlayTwo(p, events[0], events[1]);
      EmitKeepsSafe(first, events[1]);
      AuditSnoc(first.history, events[1]);
    } else {
      PlayOne(p, events[0]);
    }
    CreateKeepsSafe(Play(p, events), reserve.reservation, env);
  }

  lemma HandleKeepsSafe(p: Process, r: Reservation, env: Env)
    requires Safe(p) && p.file == Stored(r) && r.state != FailedBeforeCreate
    ensures Safe(Play(p, HandleExisting(r, env)))
  {
    var events := HandleExisting(r, env);
    if |events| == 1 {
      PlayOne(p, events[0]);
      EmitKeepsSafe(p, events[0]);
    } else if !MissingConfirmed(r, env) {
      PlayTwo(p, events[0], events[1]);
      EmitKeepsSafe(p, events[0]);
      EmitKeepsSafe(Emit(p, events[0]), events[1]);
    } else {
      var failed := r.(state := FailedBeforeCreate, error := Some("confirmed missing"), updatedAt := env.now);
      var reserve := ReserveCreation(Stored(failed), env.now);
      var start := [ConfirmedMissing(r), Wrote(Stored(failed))];
      PlaySplits(p, start, reserve.events + Create(reserve.reservation, env));
      PlayTwo(p, start[0], start[1]);
      EmitKeepsSafe(p, start[0]);
      AuditSnoc(p.history, start[0]);
      var told := Emit(p, start[0]);
      if told.stepsLeft > 0 {
        EmitKeepsSafe(told, start[1]);
        AuditSnoc(told.history, start[1]);
      }
      ReservedKeepsSafe(Play(p, start), Stored(failed), env);
    }
  }

  lemma CallKeepsSafe(p: Process, env: Env)
    requires Safe(p)
    ensures Safe(Play(p, Call(p.file, env)))
  {
    match ReserveCreation(p.file, env.now)
    case Broken =>
      PlayOne(p, Unreadable);
      EmitKeepsSafe(p, Unreadable);
    case Created(_, _) =>
      assert AuditAll(p.history) == Some(AuditAll(p.history).value);
      assert !AuditAll(p.history).value;
      ReservedKeepsSafe(p, p.file, env);
    case Exists(r) => HandleKeepsSafe(p, r, env);
  }

  /** Every run of non-overlapping calls, crashing anywhere, passes the audit. */
  lemma {:induction false} RunsPassAudit(file: File, history: seq<Event>, attempts: seq<Attempt>)
    requires Fits(file, AuditAll(history))
    ensures Safe(RunCalls(file, history, attempts))
    decreases |attempts|
  {
    if attempts != [] {
      var p := Process(file, history, attempts[0].steps);
      CallKeepsSafe(p, attempts[0].env);
      var q := Play(p, Call(file, attempts[0].env));
      RunsPassAudit(q.file, q.history, attempts[1..]);
    }
  }

  /**
   * What passing the audit means: between two creations there is a positive confirmation that the
   * task of the first one is missing.
   */
  lemma {:induction false} SecondCreateWasConfirmed(history: seq<Event>, i: nat, j: nat)
    requires AuditAll(history).Some? && i < j < |history|
    requires history[i].CreateCalled? && history[j].CreateCalled?
    ensures exists k :: i < k < j && history[k].ConfirmedMissing?
    decreases |history|
  {
    var front, e := history[..|history| - 1], history[|history| - 1];
    if j < |front| {
      SecondCreateWasConfirmed(front, i, j);
      var k :| i < k < j && front[k].ConfirmedMissing?;
      assert history[k] == front[k];
    } else {
      StillOutstanding(front, i);
    }
  }

  /** Without a confirmation after it, a creation is still outstanding. */
  lemma {:induction false} StillOutstanding(history: seq<Event>, i: nat)
    requires AuditAll(history).Some? && i < |history| && history[i].CreateCalled?
    ensures AuditAll(history) == Some(true) || exists k :: i < k < |history| && history[k].ConfirmedMissing?
    decreases |history|
  {
    var front, e := history[..|history| - 1], history[|history| - 1];
    if i < |front| {
      StillOutstanding(front, i);
      if e.ConfirmedMissing? {
        assert history[|front|].ConfirmedMissing?;
      } else if k :| i < k < |front| && front[k].ConfirmedMissing? {
        assert history[k] == front[k];
      }
    }
  }

  /** A confirmation is only ever asked about a stale `creating` reservation without a thread id. */
  lemma ConfirmationIsAboutStale(file: File, env: Env, i: nat)
    requires i < |Call(file, env)| && Call(file, env)[i].ConfirmedMissing?
    ensures file == Stored(Call(file, env)[i].stale)
    ensures var r := Call(file, env)[i].stale;
            && r.state == Creating && env.now - r.updatedAt >= env.staleAfter
            && (r.threadId == None || r.threadId == Some("")) && env.confirm == Answered(true)
  {
    var events := Call(file, env);
    match ReserveCreation(file, env.now)
    case Broken =>
    case Created(start, reserved) =>
      NoConfirmationsIn(start + Create(reserved, env), reserved, env, start);
    case Exists(r) =>
      if IsStale(r, env) && MissingConfirmed(r, env) && !(r.state == Completed && r.result.Some?) {
        var failed := r.(state := FailedBeforeCreate, error := Some("confirmed missing"), updatedAt := env.now);
        var reserve := ReserveCreation(Stored(failed), env.now);
        NoConfirmationsIn(reserve.events + Create(reserve.reservation, env), reserve.reservation, env, reserve.events);
      }
  }

  lemma NoConfirmationsIn(events: seq<Event>, reserved: Reservation, env: Env, start: seq<Event>)
    requires events == start + Create(reserved, env)
    requires forall i :: 0 <= i < |start| ==> start[i].Wrote?
    ensures forall i :: 0 <= i < |events| ==> !events[i].ConfirmedMissing?
  {
    var creating := reserved.(state := Creating, updatedAt := env.now);
    ReportsAreWrites(creating, env.reports, env.now);
  }

  lemma {:induction false} ReportsAreWrites(current: Reservation, reports: seq<Report>, now: int)
    ensures forall i :: 0 <= i < |ReportWrites(current, reports, now)| ==> ReportWrites(current, reports, now)[i].Wrote?
    decreases |reports|
  {
    if reports != [] {
      ReportsAreWrites(current.(state := reports[0].state, threadId := Some(reports[0].threadId), updatedAt := now), reports[1..], now);
    }
  }

  // ---- A stored thread id, and a stored result, are final ----

  /** Once a thread id is on file, a call neither writes nor creates. */
  lemma StoredThreadIsFinal(file: File, outstanding: Option<bool>, env: Env)
    requires Fits(file, outstanding) && file.Stored? && HasThread(file.reservation)
    ensures Call(file, env) == if file.reservation.state == Completed && file.reservation.result.Some?
                               then [Returned(file.reservation.result.value)] else [Blocked(file.reservation)]
  {
  }

  /** A file on which every call does one thing without writing: no run does anything else. */
  lemma {:induction false} RunsOnlyRepeat(file: File, only: Event, history: seq<Event>, attempts: seq<Attempt>)
    requires !only.Wrote? && forall env :: Call(file, env) == [only]
    ensures var p := RunCalls(file, history, attempts);
            && p.file == file && history <= p.history
            && forall i :: |history| <= i < |p.history| ==> p.history[i] == only
    decreases |attempts|
  {
    hide Call;
    if attempts != [] {
      var start := Process(file, history, attempts[0].steps);
      PlayOne(start, only);
      var p := Emit(start, only);
      RunsOnlyRepeat(p.file, only, p.history, attempts[1..]);
    }
  }

  /** After a crash or a finished call that left a thread id on file, nothing is ever created again. */
  lemma ThreadIdEndsCreation(file: File, history: seq<Event>, attempts: seq<Attempt>)
    requires Fits(file, AuditAll(history)) && file.Stored? && HasThread(file.reservation)
    ensures var p := RunCalls(file, history, attempts);
            && p.file == file && history <= p.history
            && forall i :: |history| <= i < |p.history| ==>
                 p.history[i] == if file.reservation.state == Completed && file.reservation.result.Some?
                                 then Returned(file.reservation.result.value) else Blocked(file.reservation)
  {
    hide Call, Fits, RunCalls;
    var only := if file.reservation.state == Completed && file.reservation.result.Some?
                then Returned(file.reservation.result.value) else Blocked(file.reservation);
    forall env
      ensures Call(file, env) == [only]
    {
      StoredThreadIsFinal(file, AuditAll(history), env);
    }
    RunsOnlyRepeat(file, only, history, attempts);
  }

  /** Once a creation is completed on file, every later call returns its result, in every run with crashes. */
  lemma CompletedIsReturned(file: File, history: seq<Event>, attempts: seq<Attempt>)
    requires file.Stored? && file.reservation.state == Completed && file.reservation.result.Some?
    ensures var p := RunCalls(file, history, attempts);
            && p.file == file && history <= p.history
            && forall i :: |history| <= i < |p.history| ==> p.history[i] == Returned(file.reservation.result.value)
  {
    hide RunCalls;
    RunsOnlyRepeat(file, Returned(file.reservation.result.value), history, attempts);
  }

  /**
   * A reservation whose process died before `creating` was written, or whose outcome is uncertain, blocks every later call
   * of every run, and so does an unreadable file: nothing retries them.
   */
  lemma ReservedNeverRetried(file: File, history: seq<Event>, attempts: seq<Attempt>)
    requires file == Torn || (file.Stored? && (file.reservation.state == Reserved || file.reservation.state == Uncertain))
    ensures var p := RunCalls(file, history, attempts);
            && p.file == file && history <= p.history
            && forall i :: |history| <= i < |p.history| ==>
                 p.history[i] == if file == Torn then Unreadable else Blocked(file.reservation)
  {
    hide RunCalls;
    RunsOnlyRepeat(file, if file == Torn then Unreadable else Blocked(file.reservation), history, attempts);
  }

  // ---- An undisturbed creation ----

  function FileAfter(file: File, events: seq<Event>): File
    decreases |events|
  {
    if events == [] then file else FileAfter(if events[0].Wrote? then events[0].file else file, events[1..])
  }

  /** A process that lives long enough plays everything. */
  lemma {:induction false} PlayAll(p: Process, events: seq<Event>)
    requires p.stepsLeft >= |events|
    ensures Play(p, events) == Process(FileAfter(p.file, events), p.history + events, p.stepsLeft - |events|)
    decreases |events|
  {
    if events == [] {
      assert p.history + events == p.history;
    } else {
      PlayAll(Emit(p, events[0]), events[1..]);
      assert p.history + [events[0]] + events[1..] == p.history + events;
    }
  }

  lemma {:induction false} LastWriteStays(file: File, before: seq<Event>, last: File, end: Event)
    requires !end.Wrote?
    ensures FileAfter(file, before + [Wrote(last), end]) == last
    decreases |before|
  {
    if before == [] {
      assert before + [Wrote(last), end] == [Wrote(last), end];
      assert [Wrote(last), end][1..] == [end] && [end][1..] == [];
      assert FileAfter(last, [end]) == FileAfter(last, []);
    } else {
      assert (before + [Wrote(last), end])[1..] == before[1..] + [Wrote(last), end];
      LastWriteStays(if before[0].Wrote? then before[0].file else file, before[1..], last, end);
    }
  }

  lemma FreshCreation(env: Env, steps: nat)
    requires env.ending.Succeeds? && steps >= |Call(Absent, env)|
    ensures var p := Play(Process(Absent, [], steps), Call(Absent, env));
            && p.history == Call(Absent, env) && CreateCalled in p.history
            && p.file.Stored? && p.file.reservation.state == Completed
            && p.file.reservation.threadId == Some(env.ending.result.id) && p.file.reservation.result == Some(env.ending.result)
            && p.history[|p.history| - 1] == Returned(env.ending.result)
  {
    var reserve := ReserveCreation(Absent, env.now);
    var creating := reserve.reservation.(state := Creating, updatedAt := env.now);
    var reports := ReportWrites(creating, env.reports, env.now);
    var last := AfterReports(creating, env.reports, env.now);
    var begin := reserve.events + ([Wrote(Stored(creating)), CreateCalled] + reports);
    var end := Conclude(last, env);
    assert Call(Absent, env) == begin + end;
    assert begin[3] == CreateCalled && begin[3] in begin;
    PlayAll(Process(Absent, [], steps), Call(Absent, env));
    LastWriteStays(Absent, begin, end[0].file, end[1]);
  }

  /**
   * A first call that is not cut short and whose creation succeeds creates, leaves a completed reservation on file,
   * and its result is what every later call of every run returns.
   */
  lemma FreshCreationCompletes(env: Env, steps: nat, later: seq<Attempt>)
    requires env.ending.Succeeds? && steps >= |Call(Absent, env)|
    ensures var p := Play(Process(Absent, [], steps), Call(Absent, env));
            && p.history == Call(Absent, env) && CreateCalled in p.history
            && p.file.Stored? && p.file.reservation.state == Completed
            && p.file.reservation.threadId == Some(env.ending.result.id)
            && p.history[|p.history| - 1] == Returned(env.ending.result)
            && var end := RunCalls(p.file, p.history, later);
               p.history <= end.history
               && forall i :: |p.history| <= i < |end.history| ==> end.history[i] == Returned(env.ending.result)
  {
    hide RunCalls, Play, Call;
    FreshCreation(env, steps);
    var p := Play(Process(Absent, [], steps), Call(Absent, env));
    CompletedIsReturned(p.file, p.history, later);
  }

  // ---- Which calls create ----

  ghost predicate Creates(events: seq<Event>) {
    exists i :: 0 <= i < |events| && events[i].CreateCalled?
  }

  ghost predicate Confirms(events: seq<Event>) {
    exists i :: 0 <= i < |events| && events[i].ConfirmedMissing?
  }

  /**
   * On a reservation that no failure reopened, a call creates, and confirms a missing task, if and only if the reservation
   * is `creating` and at least as old as the bound, has no thread id, and the confirmation said missing.
   */
  lemma ReopensIff(r: Reservation, env: Env)
    requires r.state != FailedBeforeCreate
    ensures var events := Call(Stored(r), env);
            var reopens := && r.state == Creating && env.now - r.updatedAt >= env.staleAfter
                           && (r.threadId == None || r.threadId == Some("")) && env.confirm == Answered(true);
            && (Creates(events) <==> reopens)
            && (Confirms(events) <==> reopens)
            && (reopens ==> events[0] == ConfirmedMissing(r))
  {
    var events := Call(Stored(r), env);
    if r.state == Creating && env.now - r.updatedAt >= env.staleAfter
       && (r.threadId == None || r.threadId == Some("")) && env.confirm == Answered(true) {
      var failed := r.(state := FailedBeforeCreate, error := Some("confirmed missing"), updatedAt := env.now);
      var reserve := ReserveCreation(Stored(failed), env.now);
      var begin := [ConfirmedMissing(r), Wrote(Stored(failed))];
      assert events == begin + (reserve.events + Create(reserve.reservation, env));
      assert events[0].ConfirmedMissing?;
      assert events[2 + |reserve.events| + 1] == Create(reserve.reservation, env)[1] == CreateCalled;
    }
  }

  /** What a call does with a reservation it does not reopen: return a result, block, or mark a stale one uncertain. */
  lemma ClosedReservation(r: Reservation, env: Env)
    requires r.state != FailedBeforeCreate
    ensures r.state == Completed && r.result.Some? ==> Call(Stored(r), env) == [Returned(r.result.value)]
    ensures !(r.state == Completed && r.result.Some?) && (r.state != Creating || env.now - r.updatedAt < env.staleAfter) ==>
              Call(Stored(r), env) == [Blocked(r)]
    ensures r.state == Creating && env.now - r.updatedAt >= env.staleAfter
            && !((r.threadId == None || r.threadId == Some("")) && env.confirm == Answered(true)) ==>
              var events := Call(Stored(r), env);
              && |events| == 2 && events[0].Wrote? && events[0].file.Stored? && events[1] == Blocked(events[0].file.reservation)
              && var marked := events[0].file.reservation;
                 marked.state == Uncertain && marked.threadId == r.threadId && marked.result == r.result && marked.error.Some?
                 && marked.createdAt == r.createdAt && marked.updatedAt == env.now
  {
  }

  /** On no file, and on a reservation that failed before anything was created, every call creates, exactly once. */
  lemma OpenReservationCreates(file: File, env: Env)
    requires file == Absent || (file.Stored? && file.reservation.state == FailedBeforeCreate)
    ensures var events, at := Call(file, env), if file == Absent then 3 else 2;
            && at < |events| && (forall i :: 0 <= i < |events| ==> (events[i].CreateCalled? <==> i == at))
            && events[at - 1].Wrote? && events[at - 1].file.Stored?
            && events[at - 1].file.reservation.state == Creating && events[at - 1].file.reservation.updatedAt == env.now
            && events[at - 1].file.reservation.threadId == None && events[at - 1].file.reservation.result == None
            && events[at - 1].file.reservation.createdAt == (if file == Absent then env.now else file.reservation.createdAt)
  {
    var reserve := ReserveCreation(file, env.now);
    var creating := reserve.reservation.(state := Creating, updatedAt := env.now);
    var events, n := Call(file, env), |reserve.events|;
    ReportsAreWrites(creating, env.reports, env.now);
    assert events == reserve.events + Create(reserve.reservation, env);
    assert events[n + 1] == CreateCalled && events[n] == Wrote(Stored(creating));
  }

  /** However a call came to create, it ends with the outcome on file: the completed result, or an uncertain reservation. */
  lemma CreationEnds(file: File, env: Env)
    requires Creates(Call(file, env))
    ensures var events := Call(file, env);
            && |events| >= 2 && events[|events| - 2].Wrote? && events[|events| - 2].file.Stored?
            && var r, last := events[|events| - 2].file.reservation, events[|events| - 1];
               && r.updatedAt == env.now
               && (env.ending.Succeeds? ==>
                     && r.state == Completed && r.result == Some(env.ending.result) && r.threadId == Some(env.ending.result.id)
                     && r.error == None && last == Returned(env.ending.result))
               && (env.ending.Fails? ==>
                     r.state == Uncertain && r.result == None && r.error == Some(env.ending.error) && last == Blocked(r))
  {
    hide ReportWrites, AfterReports;
    var from := if file.Stored? && file.reservation.state != FailedBeforeCreate
                then Stored(file.reservation.(state := FailedBeforeCreate, error := Some("confirmed missing"), updatedAt := env.now)) else file;
    var reserve := ReserveCreation(from, env.now);
    var creating := reserve.reservation.(state := Creating, updatedAt := env.now);
    AfterReportsKeep(creating, env.reports, env.now);
  }

  lemma {:induction false} AfterReportsKeep(current: Reservation, reports: seq<Report>, now: int)
    ensures AfterReports(current, reports, now).result == current.result && AfterReports(current, reports, now).error == current.error
    decreases |reports|
  {
    if reports != [] {
      AfterReportsKeep(current.(state := reports[0].state, threadId := Some(reports[0].threadId), updatedAt := now), reports[1..], now);
    }
  }

  /** How far a creation got is on file: after `k` reports the stage and thread id of the last one. */
  lemma {:induction false} ReportsOnFile(current: Reservation, reports: seq<Report>, now: int, k: nat)
    requires 0 < k <= |reports|
    ensures |ReportWrites(current, reports, now)| == |reports|
    ensures var e := ReportWrites(current, reports, now)[k - 1];
            && e.Wrote? && e.file.Stored? && e.file.reservation.state == reports[k - 1].state
            && e.file.reservation.threadId == Some(reports[k - 1].threadId) && e.file.reservation.updatedAt == now
            && e.file.reservation.createdAt == current.createdAt && e.file.reservation.result == current.result
    ensures k == |reports| ==> ReportWrites(current, reports, now)[k - 1] == Wrote(Stored(AfterReports(current, reports, now)))
    decreases |reports|
  {
    var next := current.(state := reports[0].state, threadId := Some(reports[0].threadId), updatedAt := now);
    if k > 1 {
      ReportsOnFile(next, reports[1..], now, k - 1);
    } else if |reports| > 1 {
      ReportsOnFile(next, reports[1..], now, 1);
    }
  }

  /** A first call that dies right after its `k`-th report leaves that report's stage and thread id on file. */
  lemma CrashAfterReport(env: Env, k: nat)
    requires 0 < k <= |env.reports|
    ensures var p := Play(Process(Absent, [], 4 + k), Call(Absent, env));
            && p.file.Stored? && p.file.reservation.state == env.reports[k - 1].state
            && p.file.reservation.threadId == Some(env.reports[k - 1].threadId)
            && p.file.reservation.createdAt == env.now
  {
    var reserve := ReserveCreation(Absent, env.now);
    var creating := reserve.reservation.(state := Creating, updatedAt := env.now);
    var writes := ReportWrites(creating, env.reports, env.now);
    var begin := reserve.events + [Wrote(Stored(creating)), CreateCalled];
    var end := Conclude(AfterReports(creating, env.reports, env.now), env);
    ReportsOnFile(creating, env.reports, env.now, k);
    assert Call(Absent, env) == (begin + writes[..k]) + (writes[k..] + end);
    PlaySplits(Process(Absent, [], 4 + k), begin + writes[..k], writes[k..] + end);
    PlayAll(Process(Absent, [], 4 + k), begin + writes[..k]);
    DeadPlay(Play(Process(Absent, [], 4 + k), begin + writes[..k]), writes[k..] + end);
    assert writes[..k] == writes[..k - 1] + [writes[k - 1]];
    LastWriteOnFile(Absent, begin + writes[..k - 1], writes[k - 1].file);
    assert begin + writes[..k] == (begin + writes[..k - 1]) + [writes[k - 1]];
  }

  /** Of a dead process nothing more is seen. */
  lemma {:induction false} DeadPlay(p: Process, events: seq<Event>)
    requires p.stepsLeft == 0
    ensures Play(p, events) == p
    decreases |events|
  {
    if events != [] {
      DeadPlay(p, events[1..]);
    }
  }

  lemma {:induction false} LastWriteOnFile(file: File, before: seq<Event>, last: File)
    ensures FileAfter(file, before + [Wrote(last)]) == last
    decreases |before|
  {
    if before == [] {
      assert before + [Wrote(last)] == [Wrote(last)] && [Wrote(last)][1..] == [];
      assert FileAfter(last, []) == last;
    } else {
      assert (before + [Wrote(last)])[1..] == before[1..] + [Wrote(last)];
      LastWriteOnFile(if before[0].Wrote? then before[0].file else file, before[1..], last);
    }
  }

  lemma {:induction false} LastReport(current: Reservation, reports: seq<Report>, now: int)
    ensures reports == [] ==> AfterReports(current, reports, now) == current
    ensures reports != [] ==>
              var last := AfterReports(current, reports, now);
              last.threadId == Some(reports[|reports| - 1].threadId) && last.result == current.result && last.createdAt == current.createdAt
    decreases |reports|
  {
    if reports != [] {
      LastReport(current.(state := reports[0].state, threadId := Some(reports[0].threadId), updatedAt := now), reports[1..], now);
    }
  }

  lemma FailedCreation(env: Env, steps: nat)
    requires env.ending.Fails? && steps >= |Call(Absent, env)|
    ensures var p := Play(Process(Absent, [], steps), Call(Absent, env));
            && p.history == Call(Absent, env) && p.history != []
            && p.file.Stored? && p.file.reservation.state == Uncertain
            && p.file.reservation.threadId == (if env.reports == [] then None else Some(env.reports[|env.reports| - 1].threadId))
            && p.file.reservation.error == Some(env.ending.error)
            && p.history[|p.history| - 1] == Blocked(p.file.reservation)
  {
    var reserve := ReserveCreation(Absent, env.now);
    var creating := reserve.reservation.(state := Creating, updatedAt := env.now);
    var last := AfterReports(creating, env.reports, env.now);
    var begin := reserve.events + ([Wrote(Stored(creating)), CreateCalled] + ReportWrites(creating, env.reports, env.now));
    var end := Conclude(last, env);
    assert Call(Absent, env) == begin + end;
    LastReport(creating, env.reports, env.now);
    PlayAll(Process(Absent, [], steps), Call(Absent, env));
    LastWriteStays(Absent, begin, end[0].file, end[1]);
  }

  /** A creation that fails, and is not cut short, stays uncertain with the last reported thread id, and blocks every later run. */
  lemma FailedCreationBlocks(env: Env, steps: nat, later: seq<Attempt>)
    requires env.ending.Fails? && steps >= |Call(Absent, env)|
    ensures var p := Play(Process(Absent, [], steps), Call(Absent, env));
            && p.file.Stored? && p.file.reservation.state == Uncertain
            && p.file.reservation.threadId == (if env.reports == [] then None else Some(env.reports[|env.reports| - 1].threadId))
            && p.history != [] && p.history[|p.history| - 1] == Blocked(p.file.reservation)
            && var end := RunCalls(p.file, p.history, later);
               end.file == p.file && forall i :: |p.history| <= i < |end.history| ==> end.history[i] == Blocked(p.file.reservation)
  {
    hide RunCalls, Play, Call;
    FailedCreation(env, steps);
    var p := Play(Process(Absent, [], steps), Call(Absent, env));
    ReservedNeverRetried(p.file, p.history, later);
  }

  // ---- The store object ----

  class CreationStore {
    var file: File
    var history: seq<Event>
    var stepsLeft: nat

    constructor (file: File, stepsLeft: nat)
      ensures State() == Process(file, [], stepsLeft)
    {
      this.file, this.history, this.stepsLeft := file, [], stepsLeft;
    }

    function State(): Process
      reads this
    {
      Process(file, history, stepsLeft)
    }

    /** One observable step, unless the process is gone. */
    method Do(e: Event)
      modifies this
      ensures State() == Emit(old(State()), e)
    {
      if stepsLeft > 0 {
        if e.Wrote? {
          file := e.file;
        }
        history := history + [e];
        stepsLeft := stepsLeft - 1;
      }
    }

    method DoAll(events: seq<Event>)
      modifies this
      ensures State() == Play(old(State()), events)
    {
      var i := 0;
      assert events[0..] == events;
      while i < |events|
        invariant 0 <= i <= |events|
        invariant Play(State(), events[i..]) == Play(old(State()), events)
      {
        Do(events[i]);
        i := i + 1;
      }
    }

    /** Runs `create` and records the stages it reports. */
    method RunCreate(reserved: Reservation, env: Env)
      modifies this
      ensures State() == Play(old(State()), Create(reserved, env))
    {
      ghost var start := State();
      var current := reserved.(state := Creating, updatedAt := env.now);
      ghost var begin, writes := [Wrote(Stored(current)), CreateCalled], ReportWrites(current, env.reports, env.now);
      PlaySplits(start, begin + writes, Conclude(AfterReports(current, env.reports, env.now), env));
      PlaySplits(start, begin, writes);
      PlayTwo(start, begin[0], begin[1]);
      Do(Wrote(Stored(current)));
      Do(CreateCalled);
      ghost var last := AfterReports(current, env.reports, env.now);
      var i := 0;
      while i < |env.reports|
        invariant 0 <= i <= |env.reports|
        invariant AfterReports(current, env.reports[i..], env.now) == last
        invariant Play(State(), ReportWrites(current, env.reports[i..], env.now)) == Play(start, begin + writes)
      {
        ghost var next := current.(state := env.reports[i].state, threadId := Some(env.reports[i].threadId), updatedAt := env.now);
        assert ReportWrites(current, env.reports[i..], env.now)
            == [Wrote(Stored(next))] + ReportWrites(next, env.reports[i + 1..], env.now) by {
          assert env.reports[i..][1..] == env.reports[i + 1..];
        }
        current := current.(state := env.reports[i].state, threadId := Some(env.reports[i].threadId), updatedAt := env.now);
        Do(Wrote(Stored(current)));
        i := i + 1;
      }
      DoAll(Conclude(current, env));
    }

    method CreateWithReservation(env: Env)
      modifies this
      ensures State() == Play(old(State()), Call(old(file), env))
    {
      var reserve := ReserveCreation(file, env.now);
      match reserve {
        case Broken => DoAll([Unreadable]);
        case Created(events, reserved) =>
          PlaySplits(State(), events, Create(reserved, env));
          DoAll(events);
          RunCreate(reserved, env);
        case Exists(r) => ResumeReservation(r, env);
      }
    }

    method ResumeReservation(r: Reservation, env: Env)
      requires r.state != FailedBeforeCreate
      modifies this
      ensures State() == Play(old(State()), HandleExisting(r, env))
    {
      if r.state == Completed && r.result.Some? {
        DoAll([Returned(r.result.value)]);
      } else if !IsStale(r, env) {
        DoAll([Blocked(r)]);
      } else if MissingConfirmed(r, env) {
        var failed := r.(state := FailedBeforeCreate, error := Some("confirmed missing"), updatedAt := env.now);
        var reserve := ReserveCreation(Stored(failed), env.now);
        ghost var start := [ConfirmedMissing(r), Wrote(Stored(failed))];
        PlaySplits(State(), start, reserve.events + Create(reserve.reservation, env));
        PlaySplits(Play(State(), start), reserve.events, Create(reserve.reservation, env));
        DoAll([ConfirmedMissing(r), Wrote(Stored(failed))]);
        DoAll(reserve.events);
        RunCreate(reserve.reservation, env);
      } else {
        var uncertain := r.(state := Uncertain, error := Some("not confirmed"), updatedAt := env.now);
        DoAll([Wrote(Stored(uncertain)), Blocked(uncertain)]);
      }
    }
  }
}
