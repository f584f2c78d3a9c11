/**
 * What one delivery attempt of the Codex Desktop bridge does for every answer it meets, and when the bridge tries again.
 */
module DesktopOutcomes {
  import opened Common
  import opened DesktopDelivery

  ghost predicate AbsentUpTo(polls: seq<Poll>, i: nat)
    requires i <= |polls|
  {
    forall j :: 0 <= j < i ==> polls[j] == ReceiptAbsent
  }

  /** Polling goes on while the receipt is absent, and the first other answer decides. */
  lemma {:induction false} PollingIs(polls: seq<Poll>, i: nat)
    requires i <= |polls| && AbsentUpTo(polls, i)
    ensures Confirm(polls) ==
              if i == |polls| then Step([ReceiptMissing], Returned(false))
              else
                match polls[i]
                case ReceiptFound => Step([ReceiptConfirmed], Returned(true))
                case ReaderFailed(failure) => Step([ReaderBroke(failure)], Threw(OtherError(failure)))
                case ReceiptAbsent => Confirm(polls)
  {
    if i > 0 {
      assert polls[0] == ReceiptAbsent;
      PollingIs(polls[1..], i - 1);
    }
  }

  ghost predicate ReaderWorks(polls: seq<Poll>) {
    forall i :: 0 <= i < |polls| ==> !polls[i].ReaderFailed?
  }

  ghost predicate Found(polls: seq<Poll>) {
    ReceiptFound in polls
  }

  /** With a working reader only the presence of the receipt matters. */
  lemma {:induction false} ConfirmIff(polls: seq<Poll>)
    requires ReaderWorks(polls)
    ensures Confirm(polls) == if Found(polls) then Step([ReceiptConfirmed], Returned(true)) else Step([ReceiptMissing], Returned(false))
  {
    if polls != [] && polls[0] == ReceiptAbsent {
      assert polls == [polls[0]] + polls[1..];
      ConfirmIff(polls[1..]);
    }
  }

  /** How an accepted or timed-out request ends: confirmed, unconfirmed, or, accepted and unmarked, at once. */
  function Settled(sent: Event, accepted: bool, marked: bool, found: bool, action: Action): Step<Action> {
    if !marked then Step([sent], if accepted then Returned(action) else Threw(UnconfirmedError))
    else if found then Step([sent, ReceiptConfirmed], Returned(action))
    else Step([sent, ReceiptMissing], Threw(UnconfirmedError))
  }

  /** What steering leads to: settled when accepted or timed out, and the owner's refusal otherwise. */
  lemma SteerOutcome(marked: bool, attempt: Attempt)
    requires ReaderWorks(attempt.steerPolls)
    ensures Settle(Steer(marked, attempt), marked, attempt.steerPolls, Steered) ==
              match attempt.steer
              case Accepted => Settled(SteerSent(attempt.steer), true, marked, Found(attempt.steerPolls), Steered)
              case Failed(failure) =>
                if failure.steerTimeout then Settled(SteerSent(attempt.steer), false, marked, Found(attempt.steerPolls), Steered)
                else Step([SteerSent(attempt.steer)], Threw(OtherError(failure)))
  {
    hide Confirm, Found;
    ConfirmIff(attempt.steerPolls);
  }

  /** What starting leads to: nothing is sent when the model check fails. */
  lemma StartOutcome(marked: bool, attempt: Attempt)
    requires ReaderWorks(attempt.startPolls)
    ensures Settle(Start(marked, attempt), marked, attempt.startPolls, Started) ==
              if attempt.model.Some? then Step([], Threw(OtherError(attempt.model.value)))
              else
                match attempt.start
                case Accepted => Settled(StartSent(attempt.start), true, marked, Found(attempt.startPolls), Started)
                case Failed(failure) =>
                  if failure.startTimeout then Settled(StartSent(attempt.start), false, marked, Found(attempt.startPolls), Started)
                  else Step([StartSent(attempt.start)], Threw(OtherError(failure)))
  {
    hide Confirm, Found;
    ConfirmIff(attempt.startPolls);
  }

  /**
   * A whole attempt, with a working receipt reader: a turn is started if and only if steering was refused, without a
   * time-out, because no turn was active.
   */
  lemma AttemptOutcome(marked: bool, attempt: Attempt)
    requires ReaderWorks(attempt.steerPolls) && ReaderWorks(attempt.startPolls)
    ensures var step := DeliverToOwner(marked, attempt);
            var refused := attempt.steer.Failed? && !attempt.steer.failure.steerTimeout && attempt.steer.failure.inactive;
            && step.events != [] && step.events[0] == SteerSent(attempt.steer)
            && ((exists i :: 0 <= i < |step.events| && step.events[i].StartSent?) <==> refused && attempt.model == None)
            && (!refused ==> step == Settle(Steer(marked, attempt), marked, attempt.steerPolls, Steered))
            && (refused ==>
                  && step.outcome == Settle(Start(marked, attempt), marked, attempt.startPolls, Started).outcome
                  && step.events == [SteerSent(attempt.steer)] + Settle(Start(marked, attempt), marked, attempt.startPolls, Started).events)
  {
    hide Settle, Steer, Start, Found;
    SteerOutcome(marked, attempt);
    StartOutcome(marked, attempt);
    var step := DeliverToOwner(marked, attempt);
    if attempt.steer.Failed? && !attempt.steer.failure.steerTimeout && attempt.steer.failure.inactive && attempt.model == None {
      assert step.events[1] == StartSent(attempt.start);
    }
  }

  // ---- When the bridge tries again ----

  /** The owner said that it is still loading the thread. */
  predicate SaysLoading(world: World, i: nat)
    requires i < |world.attempts|
  {
    var outcome := DeliverToOwner(world.marked, world.attempts[i]).outcome;
    outcome.Threw? && outcome.thrown.OtherError? && outcome.thrown.failure.loading
  }

  /** What the outcome of the deciding attempt makes of the delivery. */
  predicate Decides(outcome: Outcome<Action>, threadOpened: bool, delivery: Delivery) {
    match outcome
    case Returned(action) => delivery == Delivered(action, threadOpened)
    case Threw(UnconfirmedError) => delivery == Unconfirmed
    case Threw(OtherError(failure)) => delivery == Rejected(failure)
  }

  lemma {:induction false} RetriesFrom(world: World, i: nat, n: nat, threadOpened: bool)
    requires i <= n <= |world.attempts| && world.opening == None && forall j :: i <= j < n ==> SaysLoading(world, j)
    requires n < |world.attempts| ==> !SaysLoading(world, n)
    ensures var delivery := DeliverFrom(world, i, threadOpened).delivery;
            if n == |world.attempts| then delivery == NotLoaded
            else Decides(DeliverToOwner(world.marked, world.attempts[n]).outcome, threadOpened || n > i, delivery)
    decreases n - i
  {
    hide DeliverToOwner;
    if i < n {
      assert SaysLoading(world, i);
      RetriesFrom(world, i + 1, n, true);
    }
  }

  /**
   * The bridge tries again exactly while the owner says that it is loading: the first attempt that ends otherwise decides,
   * with the thread opened if there was one before it, and without such an attempt the delivery is not loaded.
   */
  lemma RetriesWhileLoading(world: World, n: nat)
    requires n <= |world.attempts| && world.opening == None && forall j :: 0 <= j < n ==> SaysLoading(world, j)
    requires n < |world.attempts| ==> !SaysLoading(world, n)
    ensures var delivery := DeliverNow(world).delivery;
            if n == |world.attempts| then delivery == NotLoaded
            else Decides(DeliverToOwner(world.marked, world.attempts[n]).outcome, n > 0, delivery)
  {
    RetriesFrom(world, 0, n, false);
  }

  /** When the thread cannot be opened that error ends the delivery, after one attempt. */
  lemma OpeningFails(world: World)
    requires world.attempts != [] && SaysLoading(world, 0) && world.opening.Some?
    ensures DeliverNow(world) == Run(DeliverToOwner(world.marked, world.attempts[0]).events + [ThreadOpened], Rejected(world.opening.value))
  {
    hide DeliverToOwner;
    assert DeliverNow(world) == DeliverFrom(world, 0, false);
  }
}
