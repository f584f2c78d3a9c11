/**
 * Serialization by promise tails.
 *
 * A map keeps, per key, the promise of the last operation.  A new operation is chained behind it
 * whatever its outcome, becomes the new tail, and removes the entry when it ends and is still the tail.
 * The model is a state machine over the steps of the operations, in any interleaving.
 */
module PromiseTails {
  import opened Common

  type Key = string

  datatype Phase = Waiting | Running | Settled(ok: bool) | CleanedUp(ok: bool) {
    predicate Over() {
      Settled? || CleanedUp?
    }
  }

  /** An operation, numbered by its place in call order, and the operation it was chained behind. */
  datatype Operation = Operation(key: Key, previous: Option<nat>, phase: Phase)

  datatype Tails = Tails(ops: seq<Operation>, tail: map<Key, nat>)

  datatype Step =
    | Call(key: Key)
    | Begin(op: nat)
    | Finish(op: nat, ok: bool)
    | CleanUp(op: nat)

  predicate CanBegin(t: Tails, i: nat) {
    && i < |t.ops| && t.ops[i].phase == Waiting
    && (t.ops[i].previous.Some? ==> t.ops[i].previous.value < |t.ops| && t.ops[t.ops[i].previous.value].phase.Over())
  }

  function SetPhase(t: Tails, i: nat, phase: Phase): Tails
    requires i < |t.ops|
  {
    t.(ops := t.ops[i := t.ops[i].(phase := phase)])
  }

  function Next(t: Tails, step: Step): Tails {
    match step
    case Call(key) =>
      var previous := if key in t.tail then Some(t.tail[key]) else None;
      Tails(t.ops + [Operation(key, previous, Waiting)], t.tail[key := |t.ops|])
    case Begin(i) => if CanBegin(t, i) then SetPhase(t, i, Running) else t
    case Finish(i, ok) => if i < |t.ops| && t.ops[i].phase == Running then SetPhase(t, i, Settled(ok)) else t
    case CleanUp(i) =>
      if i < |t.ops| && t.ops[i].phase.Settled? then
        var done := SetPhase(t, i, CleanedUp(t.ops[i].phase.ok));
        var key := t.ops[i].key;
        if key in t.tail && t.tail[key] == i then done.(tail := t.tail - {key}) else done
      else t
  }

  function Run(t: Tails, steps: seq<Step>): Tails
    decreases |steps|
  {
    if steps == [] then t else Run(Next(t, steps[0]), steps[1..])
  }

  /** All operations of a key before position `i` are over. */
  ghost predicate AllOver(ops: seq<Operation>, key: Key, i: nat) {
    forall j :: 0 <= j < i && j < |ops| && ops[j].key == key ==> ops[j].phase.Over()
  }

  /** An operation is chained behind the last earlier one of its key, or all earlier ones are over. */
  ghost predicate Chained(ops: seq<Operation>, i: nat)
    requires i < |ops|
  {
    match ops[i].previous
    case None => AllOver(ops, ops[i].key, i)
    case Some(p) => p < i && ops[p].key == ops[i].key && forall j :: p < j < i ==> ops[j].key != ops[i].key
  }

  ghost predicate Inv(t: Tails) {
    && (forall i :: 0 <= i < |t.ops| ==> Chained(t.ops, i))
    && (forall i :: 0 <= i < |t.ops| && t.ops[i].phase != Waiting ==> AllOver(t.ops, t.ops[i].key, i))
    && (forall key :: key in t.tail ==>
          t.tail[key] < |t.ops| && t.ops[t.tail[key]].key == key
          && forall j :: t.tail[key] < j < |t.ops| ==> t.ops[j].key != key)
    && (forall i :: 0 <= i < |t.ops| && !t.ops[i].phase.Over() ==>
          t.ops[i].key in t.tail && i <= t.tail[t.ops[i].key])
  }

  lemma CallKeepsInv(t: Tails, key: Key)
    requires Inv(t)
    ensures Inv(Next(t, Call(key)))
  {
    var next, n := Next(t, Call(key)), |t.ops|;
    forall i | 0 <= i < n
      ensures Chained(next.ops, i) && (next.ops[i].phase != Waiting ==> AllOver(next.ops, next.ops[i].key, i))
    {
      assert next.ops[i] == t.ops[i] && Chained(t.ops, i);
    }
    assert Chained(next.ops, n);
  }

  /** Changing the phase of an operation whose predecessors are over, or that is over itself. */
  lemma PhaseKeepsInv(t: Tails, i: nat, phase: Phase)
    requires Inv(t) && i < |t.ops| && AllOver(t.ops, t.ops[i].key, i)
    requires t.ops[i].phase.Over() ==> phase.Over()
    requires phase == Waiting ==> t.ops[i].phase == Waiting
    ensures Inv(SetPhase(t, i, phase))
  {
    var next := SetPhase(t, i, phase);
    forall k | 0 <= k < |t.ops|
      ensures Chained(next.ops, k) && (next.ops[k].phase != Waiting ==> AllOver(next.ops, next.ops[k].key, k))
    {
      assert Chained(t.ops, k);
      assert next.ops[k].key == t.ops[k].key && next.ops[k].previous == t.ops[k].previous;
    }
  }

  lemma BeginFollowsAll(t: Tails, i: nat)
    requires Inv(t) && CanBegin(t, i)
    ensures AllOver(t.ops, t.ops[i].key, i)
  {
    assert Chained(t.ops, i);
    if t.ops[i].previous.Some? {
      var p := t.ops[i].previous.value;
      assert AllOver(t.ops, t.ops[p].key, p);
    }
  }

  lemma DropTail(t: Tails, key: Key)
    requires Inv(t) && key in t.tail && t.ops[t.tail[key]].phase.Over()
    ensures Inv(t.(tail := t.tail - {key}))
  {
    assert AllOver(t.ops, key, t.tail[key]);
  }

  lemma StepKeepsInv(t: Tails, step: Step)
    requires Inv(t)
    ensures Inv(Next(t, step))
  {
    match step
    case Call(key) => CallKeepsInv(t, key);
    case Begin(i) =>
      if CanBegin(t, i) {
        BeginFollowsAll(t, i);
        PhaseKeepsInv(t, i, Running);
      }
    case Finish(i, ok) =>
      if i < |t.ops| && t.ops[i].phase == Running {
        PhaseKeepsInv(t, i, Settled(ok));
      }
    case CleanUp(i) =>
      if i < |t.ops| && t.ops[i].phase.Settled? {
        PhaseKeepsInv(t, i, CleanedUp(t.ops[i].phase.ok));
        var done, key := SetPhase(t, i, CleanedUp(t.ops[i].phase.ok)), t.ops[i].key;
        if key in t.tail && t.tail[key] == i {
          DropTail(done, key);
        }
      }
  }

  lemma {:induction false} RunKeepsInv(t: Tails, steps: seq<Step>)
    requires Inv(t)
    ensures Inv(Run(t, steps))
    decreases |steps|
  {
    if steps != [] {
      StepKeepsInv(t, steps[0]);
      RunKeepsInv(Next(t, steps[0]), steps[1..]);
    }
  }

  /** Operations of one key run one at a time and in call order, whatever earlier ones ended with. */
  lemma OneAtATime(steps: seq<Step>, i: nat, j: nat)
    requires var t := Run(Tails([], map[]), steps);
             i < j < |t.ops| && t.ops[i].key == t.ops[j].key && t.ops[j].phase != Waiting
    ensures Run(Tails([], map[]), steps).ops[i].phase.Over()
  {
    RunKeepsInv(Tails([], map[]), steps);
  }

  /** The map entry is gone only when no operation of the key waits or runs; otherwise it names the last one called. */
  lemma EntryDroppedLast(steps: seq<Step>, key: Key)
    ensures var t := Run(Tails([], map[]), steps);
            if key in t.tail
            then t.tail[key] < |t.ops| && t.ops[t.tail[key]].key == key
                 && forall j :: t.tail[key] < j < |t.ops| ==> t.ops[j].key != key
            else forall i :: 0 <= i < |t.ops| && t.ops[i].key == key ==> t.ops[i].phase.Over()
  {
    RunKeepsInv(Tails([], map[]), steps);
  }

  /** No operation is stuck: the first of a key that is not over can take its next step. */
  lemma FirstUnfinishedCanStep(t: Tails, i: nat)
    requires Inv(t) && i < |t.ops| && !t.ops[i].phase.Over() && AllOver(t.ops, t.ops[i].key, i)
    ensures t.ops[i].phase == Waiting ==> Next(t, Begin(i)).ops == t.ops[i := t.ops[i].(phase := Running)]
    ensures t.ops[i].phase == Running ==> forall ok :: Next(t, Finish(i, ok)).ops == t.ops[i := t.ops[i].(phase := Settled(ok))]
  {
    assert Chained(t.ops, i);
  }

  /** A settled operation cleans up, and removes the entry if it still names it. */
  lemma SettledCleansUp(t: Tails, i: nat)
    requires i < |t.ops| && t.ops[i].phase.Settled?
    ensures var key, end := t.ops[i].key, Next(t, CleanUp(i));
            && end.ops == t.ops[i := t.ops[i].(phase := CleanedUp(t.ops[i].phase.ok))]
            && (forall k :: k in end.tail <==> k in t.tail && !(k == key && t.tail[k] == i))
            && forall k :: k in end.tail ==> end.tail[k] == t.tail[k]
  {
  }

  // ---- Entries do not pile up ----

  /** The tail of a key has not cleaned up after itself yet. */
  ghost predicate TailsPending(t: Tails) {
    forall key :: key in t.tail ==> t.tail[key] < |t.ops| && !t.ops[t.tail[key]].phase.CleanedUp?
  }

  lemma StepKeepsPending(t: Tails, step: Step)
    requires Inv(t) && TailsPending(t)
    ensures TailsPending(Next(t, step))
  {
    hide Chained, AllOver;
  }

  lemma {:induction false} RunKeepsPending(t: Tails, steps: seq<Step>)
    requires Inv(t) && TailsPending(t)
    ensures TailsPending(Run(t, steps))
    decreases |steps|
  {
    if steps != [] {
      hide Inv, TailsPending, Next;
      StepKeepsPending(t, steps[0]);
      StepKeepsInv(t, steps[0]);
      RunKeepsPending(Next(t, steps[0]), steps[1..]);
    }
  }

  /** Once every operation of a key has settled and cleaned up, its entry is gone. */
  lemma EntryGoneWhenDone(steps: seq<Step>, key: Key)
    requires var t := Run(Tails([], map[]), steps);
             forall i :: 0 <= i < |t.ops| && t.ops[i].key == key ==> t.ops[i].phase.CleanedUp?
    ensures key !in Run(Tails([], map[]), steps).tail
  {
    RunKeepsPending(Tails([], map[]), steps);
    EntryDroppedLast(steps, key);
  }

  /** Outcomes are kept: an operation that has settled stays as it settled, whatever others do. */
  lemma OutcomeStays(t: Tails, step: Step, i: nat)
    requires i < |t.ops| && t.ops[i].phase.Over()
    ensures i < |Next(t, step).ops| && Next(t, step).ops[i].phase.Over()
    ensures Next(t, step).ops[i].phase.ok == t.ops[i].phase.ok && Next(t, step).ops[i].key == t.ops[i].key
  {
  }

  // ---- The map of tails as an object ----

  class TailMap {
    var ops: seq<Operation>
    var tail: map<Key, nat>

    constructor ()
      ensures State() == Tails([], map[])
    {
      ops, tail := [], map[];
    }

    function State(): Tails
      reads this
    {
      Tails(ops, tail)
    }

    /** Chains a new operation behind the current tail of its key. */
    method Schedule(key: Key) returns (op: nat)
      modifies this
      ensures op == |old(ops)| && State() == Next(old(State()), Call(key))
    {
      var previous := if key in tail then Some(tail[key]) else None;
      op := |ops|;
      ops := ops + [Operation(key, previous, Waiting)];
      tail := tail[key := op];
    }

    /** The caller's clean-up once its operation has settled. */
    method Release(op: nat)
      requires op < |ops| && ops[op].phase.Settled?
      modifies this
      ensures State() == Next(old(State()), CleanUp(op))
    {
      var key := ops[op].key;
      if key in tail && tail[key] == op {
        tail := tail - {key};
      }
      ops := ops[op := ops[op].(phase := CleanedUp(ops[op].phase.ok))];
    }
  }
}
