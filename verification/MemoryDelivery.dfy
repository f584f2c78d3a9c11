/**
 * Delivery of a consolidation prompt to the memory agent.
 *
 * Before a prompt is sent its hash is persisted as pending; the mark is cleared only when the outcome
 * is known.  A restart rereads the state file, and nothing is resent while the mark is there.
 * Deliveries of one agent run one after another; a delivery is the list of its events.
 */
module MemoryDelivery {
  import opened Common

  datatype Binding = Binding(threadId: string, threadName: string, workspace: string, initialized: bool)

  /** A prompt sent but not accounted for; the delivery id is known when the failed send reported one. */
  datatype PendingDelivery = PendingDelivery(promptHash: int, deliveryId: Option<string>)

  datatype State = State(binding: Option<Binding>, pending: Option<PendingDelivery>)

  /** How the send request ended. */
  datatype SendOutcome = Sent | SendFailed(deliveryId: Option<string>, notStarted: bool)

  /** The answer to a receipt read: the recorded state, or an error. */
  datatype Receipt = AcceptedReceipt | OtherReceipt | ReadFailed

  /** What one delivery meets.  `resolved` is the binding found or created, or None when that failed. */
  datatype Env = Env(promptHash: int, receipt: Receipt, resolved: Option<Binding>, send: SendOutcome)

  datatype Event =
    | Persisted(state: State)
    | SendStarted(promptHash: int)
    | SendEnded(outcome: SendOutcome)
    | ReadBack(deliveryId: string, receipt: Receipt)
    | Finished(promptHash: int)
    | Refused

  predicate Blank(s: string) {
    forall i :: 0 <= i < |s| ==> s[i] == ' ' || s[i] == '\t' || s[i] == '\n' || s[i] == '\r'
  }

  /** A binding `threadFromResponse` lets through. */
  predicate Complete(b: Binding) {
    !Blank(b.threadId) && !Blank(b.threadName) && !Blank(b.workspace)
  }

  /** A state file read at start: without a complete binding everything in it is dropped. */
  function ReadState(saved: Option<State>): State {
    if saved == None || saved.value.binding == None || !Complete(saved.value.binding.value) then State(None, None)
    else saved.value
  }

  // ---- One delivery ----

  function Persist(binding: Binding, pending: Option<PendingDelivery>): Event {
    Persisted(State(Some(binding), pending))
  }

  /** What a failed send leaves pending. */
  function PendingAfterFailure(promptHash: int, outcome: SendOutcome): Option<PendingDelivery>
    requires outcome.SendFailed?
  {
    if outcome.deliveryId.Some? && !Blank(outcome.deliveryId.value) then Some(PendingDelivery(promptHash, outcome.deliveryId))
    else if outcome.notStarted then None
    else Some(PendingDelivery(promptHash, None))
  }

  /** A fresh delivery to a resolved agent. */
  function SendPrompt(binding: Binding, env: Env): seq<Event> {
    [Persist(binding, None), Persist(binding, Some(PendingDelivery(env.promptHash, None))), SendStarted(env.promptHash),
     SendEnded(env.send)] +
    match env.send
    case Sent => [Persist(binding.(initialized := true), None), Finished(env.promptHash)]
    case SendFailed(_, _) => [Persist(binding, PendingAfterFailure(env.promptHash, env.send)), Refused]
  }

  /** A delivery that finds an earlier one pending: it only asks for the receipt, if it can. */
  function SettlePending(state: State, env: Env): seq<Event>
    requires state.pending.Some?
  {
    var pending := state.pending.value;
    if state.binding == None || pending.promptHash != env.promptHash || pending.deliveryId == None || pending.deliveryId.value == ""
    then [Refused]
    else
      [ReadBack(pending.deliveryId.value, env.receipt)] +
      if env.receipt == AcceptedReceipt then [Persist(state.binding.value.(initialized := true), None), Finished(env.promptHash)] else [Refused]
  }

  function Deliver(state: State, env: Env): seq<Event> {
    if state.pending.Some? then SettlePending(state, env)
    else if env.resolved == None || !Complete(env.resolved.value) then [Refused]
    else SendPrompt(env.resolved.value, env)
  }

  // ---- Crashes and runs ----

  /** The agent in memory, its state file, its history and how many more events it lives to see. */
  datatype Process = Process(memory: State, disk: Option<State>, history: seq<Event>, stepsLeft: nat)

  function Emit(p: Process, e: Event): Process {
    if p.stepsLeft == 0 then p
    else if e.Persisted? then Process(e.state, Some(e.state), p.history + [e], p.stepsLeft - 1)
    else p.(history := p.history + [e], stepsLeft := p.stepsLeft - 1)
  }

  function Play(p: Process, events: seq<Event>): Process
    decreases |events|
  {
    if events == [] then p else Play(Emit(p, events[0]), events[1..])
  }

  /** A delivery, and the event after which the process dies if it does not finish first; `restart` rereads the file. */
  datatype Attempt = Attempt(env: Env, steps: nat)

  function RunOne(p: Process, attempt: Attempt): Process {
    var q := Play(p.(stepsLeft := attempt.steps), Deliver(p.memory, attempt.env));
    if attempt.steps >= |Deliver(p.memory, attempt.env)| then q
    else q.(memory := ReadState(q.disk))
  }

  function Run(p: Process, attempts: seq<Attempt>): Process
    decreases |attempts|
  {
    if attempts == [] then p else Run(RunOne(p, attempts[0]), attempts[1..])
  }

  // ---- Safety ----

  /** What a history says about the last send: settled, possibly accepted (under the id it reported), or repeated blindly. */
  datatype Ledger = Clear | Outstanding(deliveryId: Option<string>) | Violated

  function Book(ledger: Ledger, e: Event): Ledger {
    match e
    case SendStarted(_) => if ledger == Clear then Outstanding(None) else Violated
    case SendEnded(Sent) => if ledger == Violated then Violated else Clear
    case SendEnded(SendFailed(id, notStarted)) =>
      if ledger == Violated then Violated
      else if id.Some? && !Blank(id.value) then Outstanding(id)
      else if notStarted then Clear
      else Outstanding(None)
    case ReadBack(id, receipt) => if receipt == AcceptedReceipt && ledger == Outstanding(Some(id)) then Clear else ledger
    case _ => ledger
  }

  function BookAll(history: seq<Event>): Ledger {
    if history == [] then Clear else Book(BookAll(history[..|history| - 1]), history[|history| - 1])
  }

  /** A state under which nothing is sent while a send is outstanding, and only its own receipt settles it. */
  predicate Guards(state: State, ledger: Ledger) {
    ledger.Outstanding? ==>
      && state.pending.Some?
      && (state.pending.value.deliveryId.Some? ==> ledger.deliveryId == state.pending.value.deliveryId)
  }

  /** The state file survives a restart with its pending mark. */
  predicate Durable(disk: Option<State>, ledger: Ledger) {
    Guards(ReadState(disk), ledger)
  }

  ghost predicate Safe(p: Process) {
    var ledger := BookAll(p.history);
    ledger != Violated && Guards(p.memory, ledger) && Durable(p.disk, ledger)
  }

  lemma BookSnoc(history: seq<Event>, e: Event)
    ensures BookAll(history + [e]) == Book(BookAll(history), e)
  {
    assert (history + [e])[..|history|] == history;
  }

  lemma EmitKeepsSafe(p: Process, e: Event)
    requires Safe(p)
    requires p.stepsLeft > 0 ==>
               var ledger := Book(BookAll(p.history), e);
               if e.Persisted? then Guards(e.state, ledger) && Guards(ReadState(Some(e.state)), ledger)
               else ledger != Violated && Guards(p.memory, ledger) && Durable(p.disk, ledger)
    ensures Safe(Emit(p, e))
    ensures Emit(p, e).stepsLeft > 0 ==> BookAll(Emit(p, e).history) == Book(BookAll(p.history), e)
  {
    BookSnoc(p.history, e);
  }

  lemma {:induction false} PlaySplits(p: Process, first: seq<Event>, later: seq<Event>)
    ensures Play(p, first + later) == Play(Play(p, first), later)
    decreases |first|
  {
    if first == [] {
      assert first + later == later;
    } else {
      PlaySplits(Emit(p, first[0]), first[1..], later);
      assert (first + later)[1..] == first[1..] + later;
    }
  }

  lemma PlayOne(p: Process, e: Event)
    ensures Play(p, [e]) == Emit(p, e)
  {
    assert [e][1..] == [] && Play(Emit(p, e), []) == Emit(p, e);
  }

  lemma PlayTwo(p: Process, a: Event, b: Event)
    ensures Play(p, [a, b]) == Emit(Emit(p, a), b)
  {
    assert [a, b][1..] == [b];
    PlayOne(Emit(p, a), b);
  }

  /** The pending mark is on file before anything is sent. */
  lemma MarkKeepsSafe(p: Process, binding: Binding, promptHash: int)
    requires Safe(p) && Complete(binding)
    requires p.stepsLeft > 0 ==> BookAll(p.history) == Clear
    ensures var q := Emit(Emit(p, Persist(binding, None)), Persist(binding, Some(PendingDelivery(promptHash, None))));
            && Safe(q)
            && (q.stepsLeft > 0 ==> BookAll(q.history) == Clear && q.disk == Some(q.memory)
                                    && q.memory == State(Some(binding), Some(PendingDelivery(promptHash, None))))
  {
    EmitKeepsSafe(p, Persist(binding, None));
    EmitKeepsSafe(Emit(p, Persist(binding, None)), Persist(binding, Some(PendingDelivery(promptHash, None))));
  }

  /** With the mark on file, the send and the state write that follows its outcome. */
  lemma MarkedSendKeepsSafe(p: Process, binding: Binding, env: Env)
    requires Safe(p) && Complete(binding)
    requires p.stepsLeft > 0 ==> BookAll(p.history) == Clear && p.disk == Some(p.memory)
                                 && p.memory == State(Some(binding), Some(PendingDelivery(env.promptHash, None)))
    ensures var q := Emit(Emit(p, SendStarted(env.promptHash)), SendEnded(env.send));
            && Safe(q)
            && (q.stepsLeft > 0 ==> BookAll(q.history) == Book(Outstanding(None), SendEnded(env.send)))
  {
    EmitKeepsSafe(p, SendStarted(env.promptHash));
    EmitKeepsSafe(Emit(p, SendStarted(env.promptHash)), SendEnded(env.send));
  }

  lemma OutcomeKeepsSafe(p: Process, binding: Binding, env: Env)
    requires Safe(p) && Complete(binding)
    requires p.stepsLeft > 0 ==> BookAll(p.history) == Book(Outstanding(None), SendEnded(env.send))
    ensures Safe(Play(p, SendPrompt(binding, env)[4..]))
  {
    var events := SendPrompt(binding, env);
    assert events[4..] == [events[4], events[5]];
    PlayTwo(p, events[4], events[5]);
    EmitKeepsSafe(p, events[4]);
    EmitKeepsSafe(Emit(p, events[4]), events[5]);
  }

  /** From a settled ledger, a send and its outcome. */
  lemma SendKeepsSafe(p: Process, binding: Binding, env: Env)
    requires Safe(p) && Complete(binding)
    requires p.stepsLeft > 0 ==> BookAll(p.history) == Clear
    ensures Safe(Play(p, SendPrompt(binding, env)))
  {
    hide Safe, BookAll, Book;
    var events := SendPrompt(binding, env);
    assert events == [events[0], events[1]] + ([events[2], events[3]] + events[4..]);
    PlaySplits(p, [events[0], events[1]], [events[2], events[3]] + events[4..]);
    PlayTwo(p, events[0], events[1]);
    MarkKeepsSafe(p, binding, env.promptHash);
    var marked := Play(p, [events[0], events[1]]);
    PlaySplits(marked, [events[2], events[3]], events[4..]);
    PlayTwo(marked, events[2], events[3]);
    MarkedSendKeepsSafe(marked, binding, env);
    OutcomeKeepsSafe(Play(marked, [events[2], events[3]]), binding, env);
  }

  lemma SettleKeepsSafe(p: Process, env: Env)
    requires Safe(p) && p.memory.pending.Some?
    ensures Safe(Play(p, SettlePending(p.memory, env)))
  {
    hide BookAll, Play, Blank;
    var events := SettlePending(p.memory, env);
    EmitKeepsSafe(p, events[0]);
    var read := Emit(p, events[0]);
    if |events| == 1 {
      PlayOne(p, Refused);
    } else if |events| == 2 {
      assert events == [events[0], Refused];
      PlayTwo(p, events[0], Refused);
      EmitKeepsSafe(read, Refused);
    } else {
      assert events == [events[0]] + [events[1], Finished(env.promptHash)];
      PlaySplits(p, [events[0]], [events[1], Finished(env.promptHash)]);
      PlayOne(p, events[0]);
      PlayTwo(read, events[1], Finished(env.promptHash));
      EmitKeepsSafe(read, events[1]);
      EmitKeepsSafe(Emit(read, events[1]), Finished(env.promptHash));
    }
  }

  lemma DeliverKeepsSafe(p: Process, env: Env)
    requires Safe(p)
    ensures Safe(Play(p, Deliver(p.memory, env)))
  {
    if p.memory.pending.Some? {
      SettleKeepsSafe(p, env);
    } else if env.resolved == None || !Complete(env.resolved.value) {
      PlayOne(p, Refused);
      EmitKeepsSafe(p, Refused);
    } else {
      SendKeepsSafe(p, env.resolved.value, env);
    }
  }

  /** Every run of deliveries, crashes and restarts keeps the guard: no send is ever repeated blindly. */
  lemma {:induction false} RunKeepsSafe(p: Process, attempts: seq<Attempt>)
    requires Safe(p)
    ensures Safe(Run(p, attempts))
    decreases |attempts|
  {
    if attempts != [] {
      DeliverKeepsSafe(p.(stepsLeft := attempts[0].steps), attempts[0].env);
      RunKeepsSafe(RunOne(p, attempts[0]), attempts[1..]);
    }
  }

  lemma StartIsSafe()
    ensures Safe(Process(State(None, None), None, [], 0))
  {
  }

  /** The end of a send that failed and reported this delivery id. */
  predicate Reports(e: Event, id: string) {
    e.SendEnded? && e.outcome.SendFailed? && e.outcome.deliveryId == Some(id)
  }

  /** The last send that ended after event `i` reported this delivery id. */
  ghost predicate LastReported(history: seq<Event>, i: nat, id: string) {
    exists m :: i < m < |history| && Reports(history[m], id) && forall n :: m < n < |history| ==> !history[n].SendEnded?
  }

  /**
   * Event `k` settles the send started at `i`, with no other send in between: the send is known to have succeeded or not to
   * have started, or the receipt of exactly the delivery it reported last was read back as accepted.
   */
  ghost predicate SettlesSend(history: seq<Event>, i: nat, k: nat) {
    && i < k < |history| && (forall m :: i < m <= k ==> !history[m].SendStarted?)
    && match history[k]
       case SendEnded(Sent) => true
       case SendEnded(SendFailed(id, notStarted)) => notStarted && (id == None || Blank(id.value))
       case ReadBack(id, receipt) => receipt == AcceptedReceipt && LastReported(history[..k], i, id)
       case _ => false
  }

  /** What an unviolated ledger means: before a second send the first one was settled, by its own receipt if by any. */
  lemma {:induction false} SecondSendWasSettled(history: seq<Event>, i: nat, j: nat)
    requires BookAll(history) != Violated && i < j < |history|
    requires history[i].SendStarted? && history[j].SendStarted?
    ensures exists k :: i < k < j && SettlesSend(history, i, k)
    decreases |history|
  {
    hide SettlesSend, LastReported;
    var front, last := history[..|history| - 1], history[|history| - 1];
    assert history == front + [last];
    if j < |front| {
      SecondSendWasSettled(front, i, j);
      var k :| i < k < j && SettlesSend(front, i, k);
      SettledStays(front, last, i, k);
    } else {
      UnsettledIsOutstanding(front, i);
      if k :| i < k < |front| && SettlesSend(front, i, k) {
        SettledStays(front, last, i, k);
      }
    }
  }

  lemma SettledStays(front: seq<Event>, last: Event, i: nat, k: nat)
    requires SettlesSend(front, i, k)
    ensures SettlesSend(front + [last], i, k)
  {
    hide LastReported;
    assert (front + [last])[..k] == front[..k];
  }

  /** The ledger after a send that nothing settled: outstanding, and the delivery id is the one it reported last. */
  ghost predicate StillOutstanding(history: seq<Event>, i: nat) {
    var ledger := BookAll(history);
    && ledger.Outstanding? && (forall m :: i < m < |history| ==> !history[m].SendStarted?)
    && (ledger.deliveryId.Some? ==> LastReported(history, i, ledger.deliveryId.value))
  }

  lemma {:induction false} UnsettledIsOutstanding(history: seq<Event>, i: nat)
    requires BookAll(history) != Violated && i < |history| && history[i].SendStarted?
    ensures StillOutstanding(history, i) || exists k :: i < k < |history| && SettlesSend(history, i, k)
    decreases |history|
  {
    hide SettlesSend, StillOutstanding;
    var front, e := history[..|history| - 1], history[|history| - 1];
    assert history == front + [e];
    if i == |front| {
      SendStartsOutstanding(front, e);
    } else {
      UnsettledIsOutstanding(front, i);
      if k :| i < k < |front| && SettlesSend(front, i, k) {
        SettledStays(front, e, i, k);
      } else {
        OutstandingStep(front, e, i);
      }
    }
  }

  lemma SendStartsOutstanding(front: seq<Event>, e: Event)
    requires e.SendStarted? && BookAll(front + [e]) != Violated
    ensures StillOutstanding(front + [e], |front|)
  {
    BookSnoc(front, e);
  }

  lemma OutstandingStep(front: seq<Event>, e: Event, i: nat)
    requires i < |front| && StillOutstanding(front, i) && BookAll(front + [e]) != Violated
    ensures StillOutstanding(front + [e], i) || SettlesSend(front + [e], i, |front|)
  {
    hide BookAll, Blank;
    var history := front + [e];
    BookSnoc(front, e);
    assert history[..|front|] == front;
    if Book(BookAll(front), e).Outstanding? {
      if !e.SendEnded? && BookAll(front).deliveryId.Some? {
        LastReportedStays(front, e, i, BookAll(front).deliveryId.value);
      }
      assert history[|front|] == e;
    }
  }

  lemma LastReportedStays(front: seq<Event>, e: Event, i: nat, id: string)
    requires LastReported(front, i, id) && !e.SendEnded?
    ensures LastReported(front + [e], i, id)
  {
    var m :| i < m < |front| && Reports(front[m], id) && forall n :: m < n < |front| ==> !front[n].SendEnded?;
    assert Reports((front + [e])[m], id);
  }

  /**
   * A delivery that may have been accepted without an id to ask for blocks every later one, in every run of deliveries,
   * crashes and restarts: nothing is sent, and the mark stays on file.
   */
  lemma {:induction false} UnknownSendBlocksForever(p: Process, attempts: seq<Attempt>)
    requires p.memory.pending.Some? && p.memory.pending.value.deliveryId == None && ReadState(p.disk) == p.memory
    ensures var q := Run(p, attempts);
            && q.memory == p.memory && q.disk == p.disk && p.history <= q.history
            && forall i :: |p.history| <= i < |q.history| ==> q.history[i] == Refused
    decreases |attempts|
  {
    if attempts != [] {
      hide ReadState, Run;
      PlayOne(p.(stepsLeft := attempts[0].steps), Refused);
      RunFirst(p, attempts);
      UnknownSendBlocksForever(RunOne(p, attempts[0]), attempts[1..]);
    } else {
      assert Run(p, attempts) == p;
    }
  }

  lemma RunFirst(p: Process, attempts: seq<Attempt>)
    requires attempts != []
    ensures Run(p, attempts) == Run(RunOne(p, attempts[0]), attempts[1..])
  {
  }

  // ---- Undisturbed deliveries ----

  lemma EmitOne(p: Process, e: Event)
    requires p.stepsLeft > 0
    ensures Emit(p, e) == Process(if e.Persisted? then e.state else p.memory, if e.Persisted? then Some(e.state) else p.disk,
                                  p.history + [e], p.stepsLeft - 1)
  {
  }

  /** The state after the last state write among these events. */
  function StateAfter(state: State, events: seq<Event>): State
    decreases |events|
  {
    if events == [] then state else StateAfter(if events[0].Persisted? then events[0].state else state, events[1..])
  }

  lemma {:induction false} PlayAll(p: Process, events: seq<Event>)
    requires p.stepsLeft >= |events|
    ensures Play(p, events).history == p.history + events && Play(p, events).memory == StateAfter(p.memory, events)
    ensures p.disk == Some(p.memory) || (events != [] && events[0].Persisted?) ==> Play(p, events).disk == Some(Play(p, events).memory)
    decreases |events|
  {
    if events == [] {
      assert p.history + events == p.history;
    } else {
      EmitOne(p, events[0]);
      PlayAll(Emit(p, events[0]), events[1..]);
      assert p.history + [events[0]] + events[1..] == p.history + events;
    }
  }

  /** With nothing pending a successful delivery sends the prompt once and leaves an initialized binding and no mark on file. */
  lemma CleanDelivery(p: Process, env: Env)
    requires p.memory.pending == None && env.send == Sent
    requires env.resolved.Some? && Complete(env.resolved.value) && p.stepsLeft >= 6
    ensures var q := Play(p, Deliver(p.memory, env));
            && q.history == p.history + Deliver(p.memory, env) && |Deliver(p.memory, env)| == 6
            && q.memory == State(Some(env.resolved.value.(initialized := true)), None) && q.disk == Some(q.memory)
            && (forall i :: 0 <= i < 6 ==> (Deliver(p.memory, env)[i].SendStarted? <==> i == 2))
            && Deliver(p.memory, env)[2] == SendStarted(env.promptHash)
            && Deliver(p.memory, env)[1] == Persisted(State(env.resolved, Some(PendingDelivery(env.promptHash, None))))
  {
    var binding, events := env.resolved.value, Deliver(p.memory, env);
    PlayAll(p, events);
    assert events == [Persist(binding, None), Persist(binding, Some(PendingDelivery(env.promptHash, None))), SendStarted(env.promptHash),
                      SendEnded(Sent), Persist(binding.(initialized := true), None), Finished(env.promptHash)];
    StateAfterSplits(p.memory, events[..4], events[4..]);
    assert events == events[..4] + events[4..];
    LastState(StateAfter(p.memory, events[..4]), events[4].state, Finished(env.promptHash));
    assert events[4..] == [events[4], Finished(env.promptHash)];
  }

  lemma {:induction false} StateAfterSplits(state: State, first: seq<Event>, later: seq<Event>)
    ensures StateAfter(state, first + later) == StateAfter(StateAfter(state, first), later)
    decreases |first|
  {
    if first == [] {
      assert first + later == later;
    } else {
      assert (first + later)[1..] == first[1..] + later;
      StateAfterSplits(if first[0].Persisted? then first[0].state else state, first[1..], later);
    }
  }

  lemma LastState(before: State, last: State, end: Event)
    requires !end.Persisted?
    ensures StateAfter(before, [Persisted(last), end]) == last
  {
    assert [Persisted(last), end][1..] == [end] && [end][1..] == [];
    assert StateAfter(last, [end]) == StateAfter(last, []);
  }

  /** A prompt found pending whose receipt says accepted is finished without being sent again. */
  lemma AcceptedReceiptFinishes(p: Process, env: Env, id: string)
    requires p.memory.pending == Some(PendingDelivery(env.promptHash, Some(id))) && id != ""
    requires p.memory.binding.Some? && env.receipt == AcceptedReceipt && p.stepsLeft >= 3
    ensures var q := Play(p, Deliver(p.memory, env));
            && q.history == p.history + [ReadBack(id, AcceptedReceipt), Persisted(q.memory), Finished(env.promptHash)]
            && q.memory == State(Some(p.memory.binding.value.(initialized := true)), None)
  {
    var events := Deliver(p.memory, env);
    var settled := State(Some(p.memory.binding.value.(initialized := true)), None);
    assert events == [ReadBack(id, AcceptedReceipt), Persisted(settled), Finished(env.promptHash)];
    PlayAll(p, events);
    assert events[1..] == [Persisted(settled), Finished(env.promptHash)];
    assert StateAfter(p.memory, events) == StateAfter(p.memory, events[1..]);
    LastState(p.memory, settled, Finished(env.promptHash));
  }

  // ---- Whose prompt is finished ----

  /** A mark with a delivery id belongs to a send of exactly this prompt that reported this id. */
  ghost predicate MarkSent(state: State, history: seq<Event>) {
    state.pending.Some? && state.pending.value.deliveryId.Some? ==>
      exists j :: 0 <= j < |history| - 1 && history[j] == SendStarted(state.pending.value.promptHash)
                  && Reports(history[j + 1], state.pending.value.deliveryId.value)
  }

  /** This read-back accepts the delivery the failed send reported. */
  predicate Accepts(read: Event, sent: Event) {
    read.ReadBack? && read.receipt == AcceptedReceipt && Reports(sent, read.deliveryId)
  }

  /** A send of this prompt succeeded before position `i`, or the delivery it reported was read back as accepted. */
  ghost predicate WasSent(history: seq<Event>, promptHash: int, i: nat)
    requires i <= |history|
  {
    exists j :: 0 <= j < i - 1 && history[j] == SendStarted(promptHash)
                && (history[j + 1] == SendEnded(Sent) || exists k :: j + 1 < k < i && Accepts(history[k], history[j + 1]))
  }

  ghost predicate FinishedSent(history: seq<Event>) {
    forall i :: 0 <= i < |history| && history[i].Finished? ==> WasSent(history, history[i].promptHash, i)
  }

  ghost predicate Sound(p: Process) {
    MarkSent(p.memory, p.history) && MarkSent(ReadState(p.disk), p.history) && FinishedSent(p.history)
  }

  lemma MarkStaysSent(state: State, history: seq<Event>, e: Event)
    requires MarkSent(state, history)
    ensures MarkSent(state, history + [e])
  {
    if state.pending.Some? && state.pending.value.deliveryId.Some? {
      var j :| 0 <= j < |history| - 1 && history[j] == SendStarted(state.pending.value.promptHash)
               && Reports(history[j + 1], state.pending.value.deliveryId.value);
      assert (history + [e])[j] == history[j] && (history + [e])[j + 1] == history[j + 1];
    }
  }

  lemma SentStays(history: seq<Event>, e: Event, promptHash: int, i: nat)
    requires i <= |history| && WasSent(history, promptHash, i)
    ensures WasSent(history + [e], promptHash, i)
  {
    var more := history + [e];
    var j :| 0 <= j < i - 1 && history[j] == SendStarted(promptHash)
             && (history[j + 1] == SendEnded(Sent) || exists k :: j + 1 < k < i && Accepts(history[k], history[j + 1]));
    assert more[j] == history[j] && more[j + 1] == history[j + 1];
    if k :| j + 1 < k < i && Accepts(history[k], history[j + 1]) {
      assert Accepts(more[k], more[j + 1]);
    }
  }

  lemma EmitKeepsSound(p: Process, e: Event)
    requires Sound(p)
    requires p.stepsLeft > 0 && e.Persisted? ==> MarkSent(e.state, p.history)
    requires p.stepsLeft > 0 && e.Finished? ==> WasSent(p.history, e.promptHash, |p.history|)
    ensures Sound(Emit(p, e))
  {
    hide WasSent, MarkSent;
    if p.stepsLeft > 0 {
      var more := p.history + [e];
      MarkStaysSent(p.memory, p.history, e);
      MarkStaysSent(ReadState(p.disk), p.history, e);
      if e.Persisted? {
        MarkStaysSent(e.state, p.history, e);
        NoMark(more);
      }
      forall i | 0 <= i < |more| && more[i].Finished?
        ensures WasSent(more, more[i].promptHash, i)
      {
        SentStays(p.history, e, more[i].promptHash, i);
      }
    }
  }

  lemma NoMark(history: seq<Event>)
    ensures MarkSent(State(None, None), history)
  {
  }

  /** An event that finishes nothing and leaves no mark with a delivery id. */
  predicate Plain(e: Event) {
    !e.Finished? && (e.Persisted? && e.state.pending.Some? ==> e.state.pending.value.deliveryId == None)
  }

  lemma {:induction false} PlayPlainKeepsSound(p: Process, events: seq<Event>)
    requires Sound(p) && forall i :: 0 <= i < |events| ==> Plain(events[i])
    ensures Sound(Play(p, events))
    ensures Play(p, events).stepsLeft > 0 ==> Play(p, events).history == p.history + events
    decreases |events|
  {
    hide Sound;
    if events == [] {
      assert p.history + events == p.history;
    } else {
      EmitKeepsSound(p, events[0]);
      PlayPlainKeepsSound(Emit(p, events[0]), events[1..]);
      DeadStaysDead(Emit(p, events[0]), events[1..]);
      assert p.history + [events[0]] + events[1..] == p.history + events;
    }
  }

  lemma {:induction false} DeadStaysDead(p: Process, events: seq<Event>)
    ensures Play(p, events).stepsLeft > 0 ==> p.stepsLeft > 0
    decreases |events|
  {
    if events != [] {
      DeadStaysDead(Emit(p, events[0]), events[1..]);
    }
  }

  lemma SendKeepsSound(p: Process, binding: Binding, env: Env)
    requires Sound(p)
    ensures Sound(Play(p, SendPrompt(binding, env)))
  {
    hide Sound, WasSent, MarkSent, Play;
    var events := SendPrompt(binding, env);
    assert events == events[..4] + [events[4], events[5]];
    PlaySplits(p, events[..4], [events[4], events[5]]);
    PlayPlainKeepsSound(p, events[..4]);
    var sent := Play(p, events[..4]);
    PlayTwo(sent, events[4], events[5]);
    if sent.stepsLeft > 0 {
      assert sent.history[|p.history| + 2] == SendStarted(env.promptHash) && sent.history[|p.history| + 3] == SendEnded(env.send);
      OutcomeIsSent(sent.history, |p.history| + 2, binding, env);
    }
    EmitKeepsSound(sent, events[4]);
    var written := Emit(sent, events[4]);
    if written.stepsLeft > 0 && env.send == Sent {
      assert written.history == sent.history + [events[4]];
      assert WasSent(written.history, env.promptHash, |written.history|) by {
        SuccessIsSent(written.history, |p.history| + 2, env.promptHash);
      }
    }
    EmitKeepsSound(written, events[5]);
  }

  lemma OutcomeIsSent(history: seq<Event>, j: nat, binding: Binding, env: Env)
    requires j + 1 < |history| && history[j] == SendStarted(env.promptHash) && history[j + 1] == SendEnded(env.send)
    ensures MarkSent(SendPrompt(binding, env)[4].state, history)
  {
  }

  lemma SuccessIsSent(history: seq<Event>, j: nat, promptHash: int)
    requires j + 1 < |history| - 1 && history[j] == SendStarted(promptHash) && history[j + 1] == SendEnded(Sent)
    ensures WasSent(history, promptHash, |history|)
  {
  }

  lemma SettleKeepsSound(p: Process, env: Env)
    requires Sound(p) && p.memory.pending.Some?
    ensures Sound(Play(p, SettlePending(p.memory, env)))
  {
    hide WasSent, Play, FinishedSent;
    var events := SettlePending(p.memory, env);
    if |events| == 1 {
      PlayOne(p, events[0]);
      EmitKeepsSound(p, events[0]);
    } else if |events| == 2 {
      assert events == [events[0], events[1]];
      PlayTwo(p, events[0], events[1]);
      EmitKeepsSound(p, events[0]);
      EmitKeepsSound(Emit(p, events[0]), events[1]);
    } else {
      assert events == [events[0], events[1]] + [events[2]];
      PlaySplits(p, [events[0], events[1]], [events[2]]);
      PlayPlainKeepsSound(p, [events[0], events[1]]);
      var settled := Play(p, [events[0], events[1]]);
      PlayOne(settled, events[2]);
      if settled.stepsLeft > 0 {
        ReceiptIsSent(p, env, settled.history);
      }
      EmitKeepsSound(settled, events[2]);
    }
  }

  lemma ReceiptIsSent(p: Process, env: Env, history: seq<Event>)
    requires p.memory.pending.Some? && MarkSent(p.memory, p.history) && |SettlePending(p.memory, env)| == 3
    requires history == p.history + SettlePending(p.memory, env)[..2]
    ensures WasSent(history, env.promptHash, |history|)
  {
    var id := p.memory.pending.value.deliveryId.value;
    var j :| 0 <= j < |p.history| - 1 && p.history[j] == SendStarted(env.promptHash) && Reports(p.history[j + 1], id);
    assert history[j] == p.history[j] && history[j + 1] == p.history[j + 1];
    assert Accepts(history[|p.history|], history[j + 1]);
  }

  lemma DeliverKeepsSound(p: Process, env: Env)
    requires Sound(p)
    ensures Sound(Play(p, Deliver(p.memory, env)))
  {
    hide Sound, Play;
    if p.memory.pending.Some? {
      SettleKeepsSound(p, env);
    } else if env.resolved == None || !Complete(env.resolved.value) {
      PlayOne(p, Refused);
      EmitKeepsSound(p, Refused);
    } else {
      SendKeepsSound(p, env.resolved.value, env);
    }
  }

  lemma {:induction false} RunKeepsSound(p: Process, attempts: seq<Attempt>)
    requires Sound(p)
    ensures Sound(Run(p, attempts))
    decreases |attempts|
  {
    hide Play, Deliver, MarkSent, FinishedSent;
    if attempts != [] {
      DeliverKeepsSound(p.(stepsLeft := attempts[0].steps), attempts[0].env);
      RunKeepsSound(RunOne(p, attempts[0]), attempts[1..]);
    }
  }

  /**
   * Whose prompt is finished: in every run from an empty state file, with crashes and restarts, a delivery reports a prompt
   * finished only after a send of exactly that prompt that succeeded, or whose own delivery was read back as accepted.
   */
  lemma FinishedWasSent(attempts: seq<Attempt>, i: nat)
    requires var history := Run(Process(State(None, None), None, [], 0), attempts).history;
             i < |history| && history[i].Finished?
    ensures var history := Run(Process(State(None, None), None, [], 0), attempts).history;
            WasSent(history, history[i].promptHash, i)
  {
    hide Run, WasSent;
    RunKeepsSound(Process(State(None, None), None, [], 0), attempts);
  }

  /** A delivery finishes only its own prompt: sent now with success, or marked as pending under its own hash and accepted. */
  lemma FinishesOwnPrompt(state: State, env: Env, i: nat)
    requires i < |Deliver(state, env)| && Deliver(state, env)[i].Finished?
    ensures var events := Deliver(state, env);
            && events[i] == Finished(env.promptHash)
            && if state.pending == None then
                 exists j :: 0 <= j < i - 1 && events[j] == SendStarted(env.promptHash) && events[j + 1] == SendEnded(Sent)
               else
                 && state.pending.value.promptHash == env.promptHash && env.receipt == AcceptedReceipt
                 && state.pending.value.deliveryId.Some? && state.pending.value.deliveryId.value != ""
                 && events[0] == ReadBack(state.pending.value.deliveryId.value, AcceptedReceipt)
  {
    if state.pending == None {
      assert Deliver(state, env)[2] == SendStarted(env.promptHash) && Deliver(state, env)[3] == SendEnded(env.send);
    }
  }

  /** A mark of another prompt, one without a delivery id, and a state without a binding refuse every delivery outright. */
  lemma ForeignMarkRefuses(state: State, env: Env)
    requires state.pending.Some?
    ensures Deliver(state, env) == [Refused] <==>
              || state.pending.value.promptHash != env.promptHash || state.binding == None
              || state.pending.value.deliveryId == None || state.pending.value.deliveryId.value == ""
    ensures forall i :: 0 <= i < |Deliver(state, env)| ==> !Deliver(state, env)[i].SendStarted?
  {
  }

  /** Some character is not a space, tab or line end. */
  predicate HasText(s: string) {
    exists i :: 0 <= i < |s| && s[i] != ' ' && s[i] != '\t' && s[i] != '\n' && s[i] != '\r'
  }

  /** A binding whose three texts are not blank. */
  predicate Usable(binding: Option<Binding>) {
    binding.Some? && HasText(binding.value.threadId) && HasText(binding.value.threadName) && HasText(binding.value.workspace)
  }

  /** Without a mark a delivery sends its prompt, and exactly this one, if and only if a usable binding was found. */
  lemma SendsIff(state: State, env: Env)
    requires state.pending == None
    ensures (exists i :: 0 <= i < |Deliver(state, env)| && Deliver(state, env)[i].SendStarted?) <==> Usable(env.resolved)
    ensures forall i :: 0 <= i < |Deliver(state, env)| && Deliver(state, env)[i].SendStarted? ==>
              Deliver(state, env)[i] == SendStarted(env.promptHash)
    ensures !Usable(env.resolved) ==> Deliver(state, env) == [Refused]
  {
    if Usable(env.resolved) {
      assert Deliver(state, env)[2] == SendStarted(env.promptHash);
    }
  }

  /** A restart reads the file as it is, mark included, if its binding is usable, and otherwise nothing. */
  lemma RestartReads(saved: State)
    ensures ReadState(Some(saved)) == if Usable(saved.binding) then saved else State(None, None)
    ensures ReadState(None) == State(None, None)
  {
  }

  /** A delivery that is cut short leaves in memory only what a restart reads; one that is not keeps its memory. */
  lemma CrashForgets(p: Process, attempt: Attempt)
    ensures var played, end := Play(p.(stepsLeft := attempt.steps), Deliver(p.memory, attempt.env)), RunOne(p, attempt);
            && end.disk == played.disk && end.history == played.history
            && (attempt.steps >= |Deliver(p.memory, attempt.env)| ==> end.memory == played.memory)
            && (attempt.steps < |Deliver(p.memory, attempt.env)| ==>
                  end.memory == if end.disk.Some? && Usable(end.disk.value.binding) then end.disk.value else State(None, None))
  {
    hide Deliver, Play;
  }

  /**
   * What a failed send leaves, in memory and on file: the delivery id it reported, whatever else it said; without one
   * nothing if it said not started, and otherwise a mark no later delivery gets past.
   */
  lemma FailedDelivery(p: Process, env: Env)
    requires p.memory.pending == None && env.send.SendFailed? && p.stepsLeft >= 6
    requires env.resolved.Some? && Complete(env.resolved.value)
    ensures var q := Play(p, Deliver(p.memory, env));
            var id := env.send.deliveryId;
            && q.disk == Some(q.memory) && q.memory.binding == env.resolved
            && q.history == p.history + Deliver(p.memory, env) && |Deliver(p.memory, env)| == 6 && Deliver(p.memory, env)[5] == Refused
            && q.memory.pending ==
                 if id.Some? && HasText(id.value) then Some(PendingDelivery(env.promptHash, id))
                 else if env.send.notStarted then None
                 else Some(PendingDelivery(env.promptHash, None))
  {
    var binding, events := env.resolved.value, Deliver(p.memory, env);
    var left := PendingAfterFailure(env.promptHash, env.send);
    PlayAll(p, events);
    assert events == events[..4] + [Persisted(State(Some(binding), left)), Refused];
    StateAfterSplits(p.memory, events[..4], events[4..]);
    LastState(StateAfter(p.memory, events[..4]), State(Some(binding), left), Refused);
    assert events[4..] == [Persisted(State(Some(binding), left)), Refused];
  }

  // ---- The agent object ----

  class MemoryAgent {
    var memory: State
    var disk: Option<State>
    var history: seq<Event>
    var stepsLeft: nat

    /** A restart: the agent reads its state file. */
    constructor (disk: Option<State>, history: seq<Event>, stepsLeft: nat)
      ensures Snapshot() == Process(ReadState(disk), disk, history, stepsLeft)
    {
      this.memory, this.disk, this.history, this.stepsLeft := ReadState(disk), disk, history, stepsLeft;
    }

    function Snapshot(): Process
      reads this
    {
      Process(memory, disk, history, stepsLeft)
    }

    method Do(e: Event)
      modifies this
      ensures Snapshot() == Emit(old(Snapshot()), e)
    {
      if stepsLeft > 0 {
        if e.Persisted? {
          memory, disk := e.state, Some(e.state);
        }
        history := history + [e];
        stepsLeft := stepsLeft - 1;
      }
    }

    method DeliverPrompt(env: Env)
      modifies this
      ensures Snapshot() == Play(old(Snapshot()), Deliver(old(memory), env))
    {
      if memory.pending.Some? {
        SettleDelivery(env);
        return;
      }
      if env.resolved == None || !Complete(env.resolved.value) {
        PlayOne(Snapshot(), Refused);
        Do(Refused);
        return;
      }
      var binding := env.resolved.value;
      ghost var events, start := SendPrompt(binding, env), Snapshot();
      assert events == [events[0], events[1]] + ([events[2], events[3]] + [events[4], events[5]]);
      PlaySplits(start, [events[0], events[1]], [events[2], events[3]] + [events[4], events[5]]);
      PlayTwo(start, events[0], events[1]);
      Do(Persist(binding, None));
      Do(Persist(binding, Some(PendingDelivery(env.promptHash, None))));
      PlaySplits(Snapshot(), [events[2], events[3]], [events[4], events[5]]);
      PlayTwo(Snapshot(), events[2], events[3]);
      Do(SendStarted(env.promptHash));
      Do(SendEnded(env.send));
      PlayTwo(Snapshot(), events[4], events[5]);
      if env.send == Sent {
        Do(Persist(binding.(initialized := true), None));
        Do(Finished(env.promptHash));
      } else {
        Do(Persist(binding, PendingAfterFailure(env.promptHash, env.send)));
        Do(Refused);
      }
    }

    method SettleDelivery(env: Env)
      requires memory.pending.Some?
      modifies this
      ensures Snapshot() == Play(old(Snapshot()), SettlePending(old(memory), env))
    {
      var pending, binding := memory.pending.value, memory.binding;
      if binding == None || pending.promptHash != env.promptHash || pending.deliveryId == None || pending.deliveryId.value == "" {
        PlayOne(Snapshot(), Refused);
        Do(Refused);
        return;
      }
      var read := ReadBack(pending.deliveryId.value, env.receipt);
      if env.receipt != AcceptedReceipt {
        PlayTwo(Snapshot(), read, Refused);
        Do(read);
        Do(Refused);
        return;
      }
      var settled := Persist(binding.value.(initialized := true), None);
      PlaySplits(Snapshot(), [read], [settled, Finished(env.promptHash)]);
      PlayOne(Snapshot(), read);
      assert [read] + [settled, Finished(env.promptHash)] == SettlePending(memory, env);
      Do(read);
      PlayTwo(Snapshot(), settled, Finished(env.promptHash));
      Do(settled);
      Do(Finished(env.promptHash));
    }
  }
}
