/**
 * Delivery of one prompt to the Codex Desktop owner of a thread.
 *
 * The bridge first steers an active turn, falls back to starting a turn, waits for a receipt of
 * a marked prompt, and retries while the owner is still loading the thread.  Its promise is that
 * a turn request that may have been accepted is never followed by another one.
 */
module DesktopDelivery {
  import opened Common

  /** How the bridge reads an error text; the four tests are independent substring searches. */
  datatype Failure = Failure(inactive: bool, loading: bool, steerTimeout: bool, startTimeout: bool)

  datatype Answer = Accepted | Failed(failure: Failure)

  /** One look for the receipt; the reader may itself fail. */
  datatype Poll = ReceiptFound | ReceiptAbsent | ReaderFailed(failure: Failure)

  /** What the outside world answers during one attempt.  The polls are those the grace period allows. */
  datatype Attempt = Attempt(steer: Answer, steerPolls: seq<Poll>, model: Option<Failure>, start: Answer, startPolls: seq<Poll>)

  /** A whole delivery: is the prompt marked, one answer set per allowed attempt, and does opening the thread fail. */
  datatype World = World(marked: bool, attempts: seq<Attempt>, opening: Option<Failure>)

  datatype Event =
    | SteerSent(answer: Answer)
    | StartSent(answer: Answer)
    | ReceiptConfirmed
    | ReceiptMissing
    | ReaderBroke(failure: Failure)
    | ThreadOpened

  datatype Action = Started | Steered

  datatype Thrown = UnconfirmedError | OtherError(failure: Failure)

  datatype Outcome<T> = Returned(value: T) | Threw(thrown: Thrown)

  /** The events a step adds to the trace, and how it ends. */
  datatype Step<T> = Step(events: seq<Event>, outcome: Outcome<T>)

  datatype Delivery = Delivered(action: Action, openedThread: bool) | Unconfirmed | Rejected(failure: Failure) | NotLoaded

  datatype Run = Run(events: seq<Event>, delivery: Delivery)

  predicate LooksInactive<T>(outcome: Outcome<T>) {
    outcome.Threw? && outcome.thrown.OtherError? && outcome.thrown.failure.inactive
  }

  predicate LooksLoading<T>(outcome: Outcome<T>) {
    outcome.Threw? && outcome.thrown.OtherError? && outcome.thrown.failure.loading
  }

  function Then<T>(events: seq<Event>, step: Step<T>): Step<T> {
    Step(events + step.events, step.outcome)
  }

  /** Polls for the receipt until it is found, the reader fails, or the grace period ends. */
  function Confirm(polls: seq<Poll>): Step<bool> {
    if polls == [] then Step([ReceiptMissing], Returned(false))
    else
      match polls[0]
      case ReceiptFound => Step([ReceiptConfirmed], Returned(true))
      case ReaderFailed(failure) => Step([ReaderBroke(failure)], Threw(OtherError(failure)))
      case ReceiptAbsent => Confirm(polls[1..])
  }

  /** An unmarked prompt has no receipt to wait for. */
  function ReceiptConfirmedFor(marked: bool, polls: seq<Poll>): Step<bool> {
    if marked then Confirm(polls) else Step([], Returned(true))
  }

  /** A timed-out request may have been accepted: only a receipt turns it into a success. */
  function AfterTimeout(marked: bool, polls: seq<Poll>): Step<bool> {
    if !marked then Step([], Threw(UnconfirmedError))
    else
      var receipt := Confirm(polls);
      match receipt.outcome
      case Returned(true) => receipt
      case Returned(false) => Step(receipt.events, Threw(UnconfirmedError))
      case Threw(_) => receipt
  }

  /** Returns whether the receipt is already confirmed. */
  function Steer(marked: bool, attempt: Attempt): Step<bool> {
    match attempt.steer
    case Accepted => Step([SteerSent(Accepted)], Returned(false))
    case Failed(failure) =>
      if failure.steerTimeout then Then([SteerSent(attempt.steer)], AfterTimeout(marked, attempt.steerPolls))
      else Step([SteerSent(attempt.steer)], Threw(OtherError(failure)))
  }

  function Start(marked: bool, attempt: Attempt): Step<bool> {
    match attempt.model
    case Some(failure) => Step([], Threw(OtherError(failure)))
    case None =>
      match attempt.start
      case Accepted => Step([StartSent(Accepted)], Returned(false))
      case Failed(failure) =>
        if failure.startTimeout then Then([StartSent(attempt.start)], AfterTimeout(marked, attempt.startPolls))
        else Step([StartSent(attempt.start)], Threw(OtherError(failure)))
  }

  /** Waits for the receipt unless the request already confirmed it. */
  function Settle(request: Step<bool>, marked: bool, polls: seq<Poll>, action: Action): Step<Action> {
    match request.outcome
    case Threw(thrown) => Step(request.events, Threw(thrown))
    case Returned(true) => Step(request.events, Returned(action))
    case Returned(false) =>
      var receipt := ReceiptConfirmedFor(marked, polls);
      Step(request.events + receipt.events,
           match receipt.outcome
           case Threw(thrown) => Threw(thrown)
           case Returned(confirmed) => if confirmed then Returned(action) else Threw(UnconfirmedError))
  }

  function DeliverToOwner(marked: bool, attempt: Attempt): Step<Action> {
    var steered := Settle(Steer(marked, attempt), marked, attempt.steerPolls, Steered);
    if LooksInactive(steered.outcome)
    then Then(steered.events, Settle(Start(marked, attempt), marked, attempt.startPolls, Started))
    else steered
  }

  function Before(events: seq<Event>, run: Run): Run {
    run.(events := events + run.events)
  }

  /** One pass of the retry loop; without a delivery result the loop goes on. */
  datatype Pass = Pass(events: seq<Event>, finished: Option<Delivery>, nowOpened: bool)

  function TryOnce(world: World, attempt: Attempt, threadOpened: bool): Pass {
    var step := DeliverToOwner(world.marked, attempt);
    match step.outcome
    case Returned(action) => Pass(step.events, Some(Delivered(action, threadOpened)), threadOpened)
    case Threw(UnconfirmedError) => Pass(step.events, Some(Unconfirmed), threadOpened)
    case Threw(OtherError(failure)) =>
      if !failure.loading then Pass(step.events, Some(Rejected(failure)), threadOpened)
      else if threadOpened then Pass(step.events, None, true)
      else if world.opening.Some? then Pass(step.events + [ThreadOpened], Some(Rejected(world.opening.value)), true)
      else Pass(step.events + [ThreadOpened], None, true)
  }

  /** The retry loop from attempt `i` on. */
  function DeliverFrom(world: World, i: nat, threadOpened: bool): Run
    requires i <= |world.attempts|
    decreases |world.attempts| - i
  {
    if i == |world.attempts| then Run([], NotLoaded)
    else
      var pass := TryOnce(world, world.attempts[i], threadOpened);
      match pass.finished
      case Some(delivery) => Run(pass.events, delivery)
      case None => Before(pass.events, DeliverFrom(world, i + 1, pass.nowOpened))
  }

  function DeliverNow(world: World): Run {
    DeliverFrom(world, 0, false)
  }

  /** The owner said in so many words that it did not take the turn. */
  predicate Refused(event: Event) {
    match event
    case SteerSent(Failed(failure)) => !failure.steerTimeout && (failure.inactive || failure.loading)
    case StartSent(Failed(failure)) => !failure.startTimeout && failure.loading
    case _ => false
  }

  predicate IsRequest(event: Event) {
    event.SteerSent? || event.StartSent?
  }

  /** Every request but the last was explicitly refused. */
  ghost predicate NoBlindResend(events: seq<Event>) {
    forall i, j :: 0 <= i < j < |events| && IsRequest(events[i]) && IsRequest(events[j]) ==> Refused(events[i])
  }

  ghost predicate AllRefused(events: seq<Event>) {
    forall i :: 0 <= i < |events| && IsRequest(events[i]) ==> Refused(events[i])
  }

  ghost predicate NoRequests(events: seq<Event>) {
    forall i :: 0 <= i < |events| ==> !IsRequest(events[i])
  }

  /** A reader failure the bridge cannot mistake for a refusal that lets it send again. */
  predicate HarmlessFailure(failure: Failure, retries: bool) {
    !failure.inactive && (retries ==> !failure.loading)
  }

  ghost predicate ReaderHarmless(polls: seq<Poll>, retries: bool) {
    forall i :: 0 <= i < |polls| && polls[i].ReaderFailed? ==> HarmlessFailure(polls[i].failure, retries)
  }

  lemma {:induction false} ConfirmSteps(polls: seq<Poll>)
    ensures var step := Confirm(polls);
            && NoRequests(step.events)
            && step.outcome != Threw(UnconfirmedError)
            && (step.outcome == Returned(true) ==> step.events == [ReceiptConfirmed])
            && (step.outcome.Threw? ==> ReaderFailed(step.outcome.thrown.failure) in polls)
  {
    if polls != [] && polls[0].ReceiptAbsent? {
      ConfirmSteps(polls[1..]);
    }
  }

  lemma AllRefusedThen(first: seq<Event>, later: seq<Event>)
    requires AllRefused(first)
    ensures NoBlindResend(later) ==> NoBlindResend(first + later)
    ensures AllRefused(later) ==> AllRefused(first + later)
  {
    var all := first + later;
    forall i, j | NoBlindResend(later) && 0 <= i < j < |all| && IsRequest(all[i]) && IsRequest(all[j])
      ensures Refused(all[i])
    {
      if i >= |first| {
        assert all[i] == later[i - |first|] && all[j] == later[j - |first|];
      }
    }
  }

  lemma OneRequest(request: Event, later: seq<Event>)
    requires NoRequests(later)
    ensures NoBlindResend([request] + later)
    ensures !IsRequest(request) || Refused(request) ==> AllRefused([request] + later)
    ensures NoBlindResend(later) && AllRefused(later)
  {
  }

  /** A settled request is the only one of its step, and an error that may lead to another request means it was refused. */
  lemma SettledSteer(marked: bool, attempt: Attempt, retries: bool)
    requires ReaderHarmless(attempt.steerPolls, retries)
    ensures var step := Settle(Steer(marked, attempt), marked, attempt.steerPolls, Steered);
            && NoBlindResend(step.events)
            && (LooksInactive(step.outcome) || (retries && LooksLoading(step.outcome)) ==> AllRefused(step.events))
  {
    var receipt := ReceiptConfirmedFor(marked, attempt.steerPolls);
    ConfirmSteps(attempt.steerPolls);
    OneRequest(SteerSent(attempt.steer), receipt.events);
    OneRequest(SteerSent(attempt.steer), []);
  }

  lemma SettledStart(marked: bool, attempt: Attempt, retries: bool)
    requires ReaderHarmless(attempt.startPolls, retries)
    ensures var step := Settle(Start(marked, attempt), marked, attempt.startPolls, Started);
            && NoBlindResend(step.events)
            && (retries && LooksLoading(step.outcome) ==> AllRefused(step.events))
  {
    var receipt := ReceiptConfirmedFor(marked, attempt.startPolls);
    ConfirmSteps(attempt.startPolls);
    OneRequest(StartSent(attempt.start), receipt.events);
    OneRequest(StartSent(attempt.start), []);
  }

  ghost predicate HarmlessAttempt(attempt: Attempt, retries: bool) {
    ReaderHarmless(attempt.steerPolls, retries) && ReaderHarmless(attempt.startPolls, retries)
  }

  lemma AttemptSafe(marked: bool, attempt: Attempt, retries: bool)
    requires HarmlessAttempt(attempt, retries)
    ensures var step := DeliverToOwner(marked, attempt);
            && NoBlindResend(step.events)
            && (retries && LooksLoading(step.outcome) ==> AllRefused(step.events))
  {
    var steered := Settle(Steer(marked, attempt), marked, attempt.steerPolls, Steered);
    var started := Settle(Start(marked, attempt), marked, attempt.startPolls, Started);
    SettledSteer(marked, attempt, retries);
    SettledStart(marked, attempt, retries);
    if LooksInactive(steered.outcome) {
      AllRefusedThen(steered.events, started.events);
    }
  }

  ghost predicate HarmlessWorld(world: World) {
    forall i :: 0 <= i < |world.attempts| ==> HarmlessAttempt(world.attempts[i], |world.attempts| >= 2)
  }

  /**
   * No maybe-accepted turn is ever resent: a further steer or start request follows an earlier one
   * only if the owner explicitly refused that one.
   */
  lemma {:induction false} NeverResent(world: World, i: nat, threadOpened: bool)
    requires HarmlessWorld(world) && i <= |world.attempts|
    ensures NoBlindResend(DeliverFrom(world, i, threadOpened).events)
    decreases |world.attempts| - i
  {
    if i < |world.attempts| {
      var pass := TryOnce(world, world.attempts[i], threadOpened);
      var step := DeliverToOwner(world.marked, world.attempts[i]);
      AttemptSafe(world.marked, world.attempts[i], |world.attempts| >= 2);
      QuietEnd(step.events, [ThreadOpened]);
      if pass.finished == None {
        var later := DeliverFrom(world, i + 1, pass.nowOpened).events;
        if |world.attempts| >= 2 {
          NeverResent(world, i + 1, pass.nowOpened);
          OneRequest(ThreadOpened, []);
          AllRefusedThen(step.events, [ThreadOpened]);
          AllRefusedThen(pass.events, later);
        } else {
          QuietEnd(pass.events, later);
        }
      }
    }
  }

  lemma QuietEnd(events: seq<Event>, later: seq<Event>)
    requires NoBlindResend(events) && NoRequests(later)
    ensures NoBlindResend(events + later)
  {
  }

  ghost predicate ReaderFailuresIn(polls: seq<Poll>, failures: set<Failure>) {
    forall i :: 0 <= i < |polls| && polls[i].ReaderFailed? ==> polls[i].failure in failures
  }

  /** A world with `n` attempts whose receipt reader fails in no other ways than these. */
  ghost predicate Allows(world: World, n: nat, failures: set<Failure>) {
    && |world.attempts| == n
    && forall i :: 0 <= i < n ==>
         ReaderFailuresIn(world.attempts[i].steerPolls, failures) && ReaderFailuresIn(world.attempts[i].startPolls, failures)
  }

  /** An owner that accepts the first steer while the receipt reader fails. */
  function MisreadWorld(n: nat, failure: Failure): World {
    World(true, seq(n, _ => Attempt(Accepted, [ReaderFailed(failure)], None, Accepted, [ReceiptFound])), None)
  }

  lemma MisreadResends(n: nat, failure: Failure)
    requires n >= 1 && !HarmlessFailure(failure, n >= 2)
    ensures !NoBlindResend(DeliverNow(MisreadWorld(n, failure)).events)
  {
    var world := MisreadWorld(n, failure);
    var polls := [ReaderFailed(failure)];
    assert Confirm(polls) == Step([ReaderBroke(failure)], Threw(OtherError(failure)));
    var first := DeliverToOwner(true, world.attempts[0]).events;
    assert first[0] == SteerSent(Accepted);
    if failure.inactive {
      assert first[2] == StartSent(Accepted);
      assert TryOnce(world, world.attempts[0], false).events == first;
      assert DeliverNow(world).events[..|first|] == first;
    } else {
      assert DeliverNow(world).events[3..] == DeliverFrom(world, 1, true).events;
      assert DeliverToOwner(true, world.attempts[1]).events[0] == SteerSent(Accepted);
      var events := DeliverNow(world).events;
      assert events == first + [ThreadOpened] + DeliverFrom(world, 1, true).events;
      assert events[0] == SteerSent(Accepted) == events[3];
      assert IsRequest(events[0]) && IsRequest(events[3]) && !Refused(events[0]);
    }
  }

  /**
   * The exact condition on the receipt reader: whatever the owner answers, no maybe-accepted turn is
   * resent, if and only if no reader failure reads like an inactive turn or, when retries are
   * allowed, like a loading owner.
   */
  lemma ReaderCondition(n: nat, failures: set<Failure>)
    requires n >= 1
    ensures (forall world :: Allows(world, n, failures) ==> NoBlindResend(DeliverNow(world).events))
       <==> (forall failure :: failure in failures ==> HarmlessFailure(failure, n >= 2))
  {
    if failure :| failure in failures && !HarmlessFailure(failure, n >= 2) {
      MisreadResends(n, failure);
      assert Allows(MisreadWorld(n, failure), n, failures);
    } else {
      forall world | Allows(world, n, failures)
        ensures NoBlindResend(DeliverNow(world).events)
      {
        NeverResent(world, 0, false);
      }
    }
  }

  function Opens(events: seq<Event>): nat {
    if events == [] then 0 else (if events[0].ThreadOpened? then 1 else 0) + Opens(events[1..])
  }

  lemma {:induction false} OpensSplit(first: seq<Event>, later: seq<Event>)
    ensures Opens(first + later) == Opens(first) + Opens(later)
  {
    if first == [] {
      assert first + later == later;
    } else {
      OpensSplit(first[1..], later);
      assert (first + later)[1..] == first[1..] + later;
    }
  }

  lemma {:induction false} NothingOpened(events: seq<Event>)
    requires ThreadOpened !in events
    ensures Opens(events) == 0
  {
    if events != [] {
      NothingOpened(events[1..]);
    }
  }

  lemma {:induction false} ConfirmOpensNothing(polls: seq<Poll>)
    ensures ThreadOpened !in Confirm(polls).events
  {
    if polls != [] && polls[0].ReceiptAbsent? {
      ConfirmOpensNothing(polls[1..]);
    }
  }

  lemma RequestOpensNothing(marked: bool, attempt: Attempt)
    ensures ThreadOpened !in Settle(Steer(marked, attempt), marked, attempt.steerPolls, Steered).events
    ensures ThreadOpened !in Settle(Start(marked, attempt), marked, attempt.startPolls, Started).events
  {
    hide Confirm;
    ConfirmOpensNothing(attempt.steerPolls);
    ConfirmOpensNothing(attempt.startPolls);
  }

  lemma AttemptOpensNothing(marked: bool, attempt: Attempt)
    ensures Opens(DeliverToOwner(marked, attempt).events) == 0
  {
    hide Settle, Steer, Start, Opens;
    RequestOpensNothing(marked, attempt);
    NothingOpened(DeliverToOwner(marked, attempt).events);
  }

  /** The thread is opened at most once in a delivery, and a successful delivery reports whether it was. */
  lemma {:induction false} OpenedOnce(world: World, i: nat, threadOpened: bool)
    requires i <= |world.attempts|
    ensures var run := DeliverFrom(world, i, threadOpened);
            && Opens(run.events) <= (if threadOpened then 0 else 1)
            && (run.delivery.Delivered? ==> run.delivery.openedThread == (threadOpened || Opens(run.events) == 1))
    decreases |world.attempts| - i
  {
    hide DeliverToOwner;
    if i < |world.attempts| {
      var step := DeliverToOwner(world.marked, world.attempts[i]);
      AttemptOpensNothing(world.marked, world.attempts[i]);
      OpenedOnce(world, i + 1, true);
      OpensSplit(step.events, [ThreadOpened]);
      OpensSplit(step.events, DeliverFrom(world, i + 1, true).events);
      OpensSplit(step.events + [ThreadOpened], DeliverFrom(world, i + 1, true).events);
    }
  }

  ghost predicate EndsWith(events: seq<Event>, last: Event) {
    events != [] && events[|events| - 1] == last
  }

  lemma SuccessfulAttempt(marked: bool, attempt: Attempt)
    ensures var step := DeliverToOwner(marked, attempt);
            step.outcome.Returned? ==>
              EndsWith(step.events, if marked then ReceiptConfirmed
                                    else if step.outcome.value == Steered then SteerSent(Accepted) else StartSent(Accepted))
  {
    hide Confirm, NoRequests;
    ConfirmSteps(attempt.steerPolls);
    ConfirmSteps(attempt.startPolls);
  }

  /** Success for a marked prompt implies a confirmed receipt; for an unmarked one, an accepted request. */
  lemma {:induction false} SuccessIsConfirmed(world: World, i: nat, threadOpened: bool)
    requires i <= |world.attempts|
    ensures var run := DeliverFrom(world, i, threadOpened);
            run.delivery.Delivered? ==>
              EndsWith(run.events, if world.marked then ReceiptConfirmed
                                   else if run.delivery.action == Steered then SteerSent(Accepted) else StartSent(Accepted))
    decreases |world.attempts| - i
  {
    if i < |world.attempts| {
      var pass := TryOnce(world, world.attempts[i], threadOpened);
      SuccessfulAttempt(world.marked, world.attempts[i]);
      if pass.finished == None {
        SuccessIsConfirmed(world, i + 1, true);
      }
    }
  }

  /** An active turn is steered and an inactive one started; with the receipt found the first attempt delivers. */
  lemma FirstAttemptDelivers(world: World, failure: Failure)
    requires world.attempts != []
    ensures var attempt, run := world.attempts[0], DeliverNow(world);
            && (attempt.steer == Accepted && ReceiptConfirmedFor(world.marked, attempt.steerPolls).outcome == Returned(true) ==>
                  run == Run([SteerSent(Accepted)] + (if world.marked then [ReceiptConfirmed] else []), Delivered(Steered, false)))
            && (attempt.steer == Failed(failure) && failure.inactive && !failure.steerTimeout && attempt.model == None
                && attempt.start == Accepted && ReceiptConfirmedFor(world.marked, attempt.startPolls).outcome == Returned(true) ==>
                  run == Run([SteerSent(Failed(failure)), StartSent(Accepted)] + (if world.marked then [ReceiptConfirmed] else []),
                             Delivered(Started, false)))
  {
    hide Confirm, NoRequests;
    var attempt := world.attempts[0];
    ConfirmSteps(attempt.steerPolls);
    ConfirmSteps(attempt.startPolls);
    assert DeliverNow(world) == DeliverFrom(world, 0, false);
  }

  type ThreadId = string

  class DesktopBridge {
    var activeThreads: set<ThreadId>
    /** Everything sent or learned, oldest first. */
    var trace: seq<Event>

    constructor ()
      ensures activeThreads == {} && trace == []
    {
      activeThreads, trace := {}, [];
    }

    method ConfirmDeliveryReceipt(polls: seq<Poll>) returns (outcome: Outcome<bool>)
      modifies this`trace
      ensures trace == old(trace) + Confirm(polls).events && outcome == Confirm(polls).outcome
    {
      var i := 0;
      while i < |polls|
        invariant 0 <= i <= |polls|
        invariant Confirm(polls) == Confirm(polls[i..])
        invariant trace == old(trace)
      {
        match polls[i] {
          case ReceiptFound =>
            trace := trace + [ReceiptConfirmed];
            return Returned(true);
          case ReaderFailed(failure) =>
            trace := trace + [ReaderBroke(failure)];
            return Threw(OtherError(failure));
          case ReceiptAbsent =>
        }
        i := i + 1;
      }
      trace := trace + [ReceiptMissing];
      return Returned(false);
    }

    method SteerTurn(marked: bool, attempt: Attempt) returns (outcome: Outcome<bool>)
      modifies this`trace
      ensures trace == old(trace) + Steer(marked, attempt).events && outcome == Steer(marked, attempt).outcome
    {
      trace := trace + [SteerSent(attempt.steer)];
      match attempt.steer {
        case Accepted =>
          return Returned(false);
        case Failed(failure) =>
          if !failure.steerTimeout {
            return Threw(OtherError(failure));
          }
          outcome := this.AfterRequestTimeout(marked, attempt.steerPolls);
      }
    }

    method AfterRequestTimeout(marked: bool, polls: seq<Poll>) returns (outcome: Outcome<bool>)
      modifies this`trace
      ensures trace == old(trace) + AfterTimeout(marked, polls).events && outcome == AfterTimeout(marked, polls).outcome
    {
      if !marked {
        return Threw(UnconfirmedError);
      }
      outcome := ConfirmDeliveryReceipt(polls);
      if outcome == Returned(false) {
        outcome := Threw(UnconfirmedError);
      }
    }

    method StartTurn(marked: bool, attempt: Attempt) returns (outcome: Outcome<bool>)
      modifies this`trace
      ensures trace == old(trace) + Start(marked, attempt).events && outcome == Start(marked, attempt).outcome
    {
      if attempt.model.Some? {
        return Threw(OtherError(attempt.model.value));
      }
      trace := trace + [StartSent(attempt.start)];
      match attempt.start {
        case Accepted =>
          return Returned(false);
        case Failed(failure) =>
          if !failure.startTimeout {
            return Threw(OtherError(failure));
          }
          outcome := this.AfterRequestTimeout(marked, attempt.startPolls);
      }
    }

    /** Waits for the receipt of a request that has not confirmed it yet. */
    method SettleTurn(request: Outcome<bool>, marked: bool, polls: seq<Poll>, action: Action) returns (outcome: Outcome<Action>)
      modifies this`trace
      ensures trace == old(trace) + Settle(Step([], request), marked, polls, action).events
      ensures outcome == Settle(Step([], request), marked, polls, action).outcome
    {
      match request {
        case Threw(thrown) => return Threw(thrown);
        case Returned(true) => return Returned(action);
        case Returned(false) =>
          if !marked {
            return Returned(action);
          }
          var receipt := ConfirmDeliveryReceipt(polls);
          match receipt {
            case Threw(thrown) => return Threw(thrown);
            case Returned(true) => return Returned(action);
            case Returned(false) => return Threw(UnconfirmedError);
          }
      }
    }

    method SteerAndSettle(marked: bool, attempt: Attempt) returns (outcome: Outcome<Action>)
      modifies this`trace
      ensures trace == old(trace) + Settle(Steer(marked, attempt), marked, attempt.steerPolls, Steered).events
      ensures outcome == Settle(Steer(marked, attempt), marked, attempt.steerPolls, Steered).outcome
    {
      var steered := SteerTurn(marked, attempt);
      outcome := SettleTurn(steered, marked, attempt.steerPolls, Steered);
      SettleSplits(Steer(marked, attempt), marked, attempt.steerPolls, Steered);
    }

    method StartAndSettle(marked: bool, attempt: Attempt) returns (outcome: Outcome<Action>)
      modifies this`trace
      ensures trace == old(trace) + Settle(Start(marked, attempt), marked, attempt.startPolls, Started).events
      ensures outcome == Settle(Start(marked, attempt), marked, attempt.startPolls, Started).outcome
    {
      var started := StartTurn(marked, attempt);
      outcome := SettleTurn(started, marked, attempt.startPolls, Started);
      SettleSplits(Start(marked, attempt), marked, attempt.startPolls, Started);
    }

    method DeliverTurn(marked: bool, attempt: Attempt) returns (outcome: Outcome<Action>)
      modifies this`trace
      ensures trace == old(trace) + DeliverToOwner(marked, attempt).events && outcome == DeliverToOwner(marked, attempt).outcome
    {
      outcome := SteerAndSettle(marked, attempt);
      if LooksInactive(outcome) {
        outcome := StartAndSettle(marked, attempt);
      }
    }

    /** One pass of the retry loop; without a result the loop goes on. */
    method TryAttempt(world: World, attempt: nat, threadOpened: bool) returns (finished: Option<Delivery>, nowOpened: bool)
      requires attempt < |world.attempts|
      modifies this`trace
      ensures trace == old(trace) + TryOnce(world, world.attempts[attempt], threadOpened).events
      ensures finished == TryOnce(world, world.attempts[attempt], threadOpened).finished
      ensures nowOpened == TryOnce(world, world.attempts[attempt], threadOpened).nowOpened
    {
      nowOpened := threadOpened;
      var outcome := DeliverTurn(world.marked, world.attempts[attempt]);
      match outcome {
        case Returned(action) => return Some(Delivered(action, threadOpened)), threadOpened;
        case Threw(UnconfirmedError) => return Some(Unconfirmed), threadOpened;
        case Threw(OtherError(failure)) =>
          if !failure.loading {
            return Some(Rejected(failure)), threadOpened;
          }
          if !threadOpened {
            nowOpened := true;
            trace := trace + [ThreadOpened];
            if world.opening.Some? {
              return Some(Rejected(world.opening.value)), true;
            }
          }
          return None, nowOpened;
      }
    }

    /** The same pass, seen as one step of the whole delivery. */
    method AdvanceDelivery(world: World, attempt: nat, threadOpened: bool) returns (finished: Option<Delivery>, nowOpened: bool)
      requires attempt < |world.attempts|
      modifies this`trace
      ensures var run := DeliverFrom(world, attempt, threadOpened);
              match finished
              case Some(delivery) => trace == old(trace) + run.events && delivery == run.delivery
              case None =>
                var later := DeliverFrom(world, attempt + 1, nowOpened);
                trace + later.events == old(trace) + run.events && later.delivery == run.delivery
    {
      finished, nowOpened := TryAttempt(world, attempt, threadOpened);
    }

    method Deliver(world: World, threadId: ThreadId) returns (delivery: Delivery)
      modifies this
      ensures trace == old(trace) + DeliverNow(world).events && delivery == DeliverNow(world).delivery
      ensures activeThreads == old(activeThreads) + if delivery.Delivered? then {threadId} else {}
    {
      var threadOpened := false;
      var attempt := 0;
      while attempt < |world.attempts|
        invariant 0 <= attempt <= |world.attempts|
        invariant activeThreads == old(activeThreads)
        invariant old(trace) + DeliverNow(world).events == trace + DeliverFrom(world, attempt, threadOpened).events
        invariant DeliverNow(world).delivery == DeliverFrom(world, attempt, threadOpened).delivery
      {
        var finished;
        finished, threadOpened := AdvanceDelivery(world, attempt, threadOpened);
        if finished.Some? {
          if finished.value.Delivered? {
            activeThreads := activeThreads + {threadId};
          }
          return finished.value;
        }
        attempt := attempt + 1;
      }
      return NotLoaded;
    }
  }

  lemma SettleSplits(request: Step<bool>, marked: bool, polls: seq<Poll>, action: Action)
    ensures Settle(request, marked, polls, action)
         == Then(request.events, Settle(Step([], request.outcome), marked, polls, action))
  {
    assert forall later: seq<Event> :: [] + later == later;
  }
}
