/**
 * Resolving a Codex session by id or by name, and sharing creations under one key.
 *
 * The shared-creation map is modelled as a state machine over its steps: a call, the settling of a
 * running creation, and the callback that files the outcome in the map.
 */
module SessionResolver {
  import opened Common

  const RECENT_CREATION_TTL := 60000

  /** What both the resolver and the durable reservation use as a key. */
  datatype CreationKey = CreationKey(workspace: string, title: string, replacementFor: string)

  datatype Phase = Running | Settled(succeeded: bool) | Filed(succeeded: bool)

  /** A call of the creation dependency. */
  datatype Creation = Creation(key: CreationKey, phase: Phase)

  /** A map entry: the creation it shares, and when that settled successfully. */
  datatype Entry = Entry(creation: nat, settledAt: Option<int>)

  datatype Scope = Scope(creations: seq<Creation>, entries: map<CreationKey, Entry>)

  datatype Step =
    | CallCreate(key: CreationKey, now: int)
    | Settle(creation: nat, succeeded: bool)
    | File(creation: nat, now: int)

  predicate Shares(s: Scope, key: CreationKey, now: int) {
    key in s.entries && (s.entries[key].settledAt == None || now - s.entries[key].settledAt.value <= RECENT_CREATION_TTL)
  }

  /** The creation whose promise a call at this moment returns. */
  function CreationFor(s: Scope, key: CreationKey, now: int): nat {
    if Shares(s, key, now) then s.entries[key].creation else |s.creations|
  }

  function Next(s: Scope, step: Step): Scope {
    match step
    case CallCreate(key, now) =>
      if Shares(s, key, now) then s
      else Scope(s.creations + [Creation(key, Running)], s.entries[key := Entry(|s.creations|, None)])
    case Settle(c, succeeded) =>
      if c < |s.creations| && s.creations[c].phase == Running
      then s.(creations := s.creations[c := s.creations[c].(phase := Settled(succeeded))])
      else s
    case File(c, now) =>
      if c < |s.creations| && s.creations[c].phase.Settled? then
        var creation := s.creations[c];
        var mine := creation.key in s.entries && s.entries[creation.key].creation == c;
        Scope(s.creations[c := creation.(phase := Filed(creation.phase.succeeded))],
              if !mine then s.entries
              else if creation.phase.succeeded then s.entries[creation.key := Entry(c, Some(now))]
              else s.entries - {creation.key})
      else s
  }

  function Run(s: Scope, steps: seq<Step>): Scope
    decreases |steps|
  {
    if steps == [] then s else Run(Next(s, steps[0]), steps[1..])
  }

  predicate Unfiled(c: Creation) {
    !c.phase.Filed?
  }

  /** Every creation whose outcome is not filed yet is the one its key shares, without a time limit. */
  ghost predicate Inv(s: Scope) {
    && (forall c :: 0 <= c < |s.creations| && Unfiled(s.creations[c]) ==>
          s.creations[c].key in s.entries && s.entries[s.creations[c].key] == Entry(c, None))
    && (forall key :: key in s.entries ==> s.entries[key].creation < |s.creations| && s.creations[s.entries[key].creation].key == key)
  }

  lemma CallKeepsInv(s: Scope, key: CreationKey, now: int)
    requires Inv(s)
    ensures Inv(Next(s, CallCreate(key, now)))
  {
  }

  lemma SettleKeepsInv(s: Scope, c: nat, succeeded: bool)
    requires Inv(s)
    ensures Inv(Next(s, Settle(c, succeeded)))
  {
  }

  lemma FileKeepsInv(s: Scope, c: nat, now: int)
    requires Inv(s)
    ensures Inv(Next(s, File(c, now)))
  {
  }

  lemma StepKeepsInv(s: Scope, step: Step)
    requires Inv(s)
    ensures Inv(Next(s, step))
  {
    hide Inv, Next;
    match step
    case CallCreate(key, now) => CallKeepsInv(s, key, now);
    case Settle(c, succeeded) => SettleKeepsInv(s, c, succeeded);
    case File(c, now) => FileKeepsInv(s, c, now);
  }

  lemma {:induction false} RunKeepsInv(s: Scope, steps: seq<Step>)
    requires Inv(s)
    ensures Inv(Run(s, steps))
    decreases |steps|
  {
    if steps != [] {
      StepKeepsInv(s, steps[0]);
      RunKeepsInv(Next(s, steps[0]), steps[1..]);
    }
  }

  /** In every reachable state at most one creation of a key is running: calls under one key never overlap. */
  lemma CreationsNeverOverlap(steps: seq<Step>, a: nat, b: nat)
    requires var s := Run(Scope([], map[]), steps);
             && a < |s.creations| && b < |s.creations| && s.creations[a].key == s.creations[b].key
             && s.creations[a].phase.Running? && !s.creations[b].phase.Filed?
    ensures a == b
  {
    RunKeepsInv(Scope([], map[]), steps);
  }

  /** While a creation is running, another call under its key starts nothing and shares its outcome. */
  lemma RunningCreationIsShared(s: Scope, c: nat, now: int)
    requires Inv(s) && c < |s.creations| && Unfiled(s.creations[c])
    ensures CreationFor(s, s.creations[c].key, now) == c
    ensures Next(s, CallCreate(s.creations[c].key, now)) == s
  {
  }

  /** The map entry a call leaves behind names the creation whose promise it returned. */
  lemma CallReturnsEntry(s: Scope, key: CreationKey, now: int)
    requires Inv(s)
    ensures var t := Next(s, CallCreate(key, now));
            && key in t.entries && t.entries[key].creation == CreationFor(s, key, now)
            && (Shares(s, key, now) || t.creations == s.creations + [Creation(key, Running)])
  {
  }

  // ---- How long a creation is shared ----

  /** A success is shared by calls of its key for a minute after it was filed, unless another call replaced it meanwhile. */
  lemma SuccessIsShared(s: Scope, c: nat, filedAt: int, now: int)
    requires Inv(s) && c < |s.creations| && s.creations[c].phase == Settled(true)
    ensures var key, filed := s.creations[c].key, Next(s, File(c, filedAt));
            && (now <= filedAt + 60000 ==> CreationFor(filed, key, now) == c && Next(filed, CallCreate(key, now)) == filed)
            && (now > filedAt + 60000 ==>
                  && CreationFor(filed, key, now) == |filed.creations|
                  && Next(filed, CallCreate(key, now)).creations == filed.creations + [Creation(key, Running)])
  {
  }

  /** A failure is not shared: the next call of its key starts a new creation at once. */
  lemma FailureIsForgotten(s: Scope, c: nat, filedAt: int, now: int)
    requires Inv(s) && c < |s.creations| && s.creations[c].phase == Settled(false)
    ensures var key, filed := s.creations[c].key, Next(s, File(c, filedAt));
            && key !in filed.entries && CreationFor(filed, key, now) == |filed.creations|
            && Next(filed, CallCreate(key, now)).creations == filed.creations + [Creation(key, Running)]
            && forall k :: k != key ==> (k in filed.entries <==> k in s.entries) && (k in s.entries ==> filed.entries[k] == s.entries[k])
  {
  }

  // ---- Choosing a session ----

  /** A listed thread; `updatedAt` is None when its date does not parse. */
  datatype Thread = Thread(id: string, title: string, updatedAt: Option<int>, archived: bool, sameWorkspace: bool)

  /** `a` is at least as late as `b`; an unreadable date is earlier than every readable one. */
  predicate NotEarlier(a: Thread, b: Thread) {
    b.updatedAt == None || (a.updatedAt.Some? && a.updatedAt.value >= b.updatedAt.value)
  }

  ghost predicate UniqueLatest(matches: seq<Thread>, i: nat) {
    && i < |matches| && matches[i].updatedAt.Some?
    && forall j :: 0 <= j < |matches| && j != i ==>
         matches[j].updatedAt == None || matches[j].updatedAt.value < matches[i].updatedAt.value
  }

  /** Finds the thread that is later than all others, if one is. */
  method UniquelyLatestThread(matches: seq<Thread>) returns (latest: Option<Thread>)
    ensures latest.Some? <==> exists i: nat :: UniqueLatest(matches, i)
    ensures forall i: nat :: UniqueLatest(matches, i) ==> latest == Some(matches[i])
  {
    latest := None;
    var latestTime: Option<int> := None;
    var latestCount, at := 0, 0;
    for k := 0 to |matches|
      invariant latestTime == None ==> latest == None && forall j :: 0 <= j < k ==> matches[j].updatedAt == None
      invariant latestTime.Some? ==> at < k && latest == Some(matches[at]) && matches[at].updatedAt == latestTime
      invariant latestTime.Some? ==> forall j :: 0 <= j < k ==> NotEarlier(matches[at], matches[j])
      invariant latestTime.Some? ==> latestCount >= 1
      invariant latestTime.Some? && latestCount == 1 ==>
                  forall j :: 0 <= j < k && j != at ==> matches[j].updatedAt != latestTime
      invariant latestTime.Some? && latestCount > 1 ==>
                  exists j :: 0 <= j < k && j != at && matches[j].updatedAt == latestTime
    {
      var updatedAt := matches[k].updatedAt;
      if updatedAt.Some? && (latestTime == None || updatedAt.value > latestTime.value) {
        latest, latestTime, latestCount, at := Some(matches[k]), updatedAt, 1, k;
      } else if updatedAt == latestTime {
        latestCount := latestCount + 1;
      }
    }
    if latestTime.Some? && latestCount == 1 {
      assert UniqueLatest(matches, at);
    } else {
      if i: nat :| UniqueLatest(matches, i) {
        assert latestTime.Some?;
        assert i == at;
      }
      latest := None;
    }
  }

  datatype Reason = MissingThread | ArchivedThread(previous: string)

  datatype Resolution =
    | ById(thread: Thread)
    | ByName(thread: Thread)
    | Create(reason: Reason)
    | Missing
    | Ambiguous(candidates: seq<Thread>)
    | Archived(thread: Thread)

  predicate NameMatches(t: Thread, title: string) {
    !t.archived && t.title == title && t.sameWorkspace
  }

  function Matching(listed: seq<Thread>, title: string): seq<Thread> {
    if listed == [] then []
    else (if NameMatches(listed[0], title) then [listed[0]] else []) + Matching(listed[1..], title)
  }

  /** The candidates in the order of the listing. */
  lemma {:induction false} MatchingInOrder(listed: seq<Thread>, title: string, t: Thread)
    ensures Matching(listed + [t], title)
         == Matching(listed, title) + if !t.archived && t.title == title && t.sameWorkspace then [t] else []
  {
    if listed == [] {
      assert listed + [t] == [t] && [t][1..] == [];
    } else {
      assert (listed + [t])[0] == listed[0] && (listed + [t])[1..] == listed[1..] + [t];
      MatchingInOrder(listed[1..], title, t);
    }
  }

  lemma {:induction false} MatchingIs(listed: seq<Thread>, title: string)
    ensures forall t :: t in Matching(listed, title) <==> t in listed && !t.archived && t.title == title && t.sameWorkspace
  {
    if listed != [] {
      assert listed == [listed[0]] + listed[1..];
      MatchingIs(listed[1..], title);
    }
  }

  /** `exact` is what reading the bound id found; a creation is left to the shared-creation map. */
  method ResolveSession(exact: Option<Thread>, listed: seq<Thread>, title: string, createIfMissing: bool) returns (r: Resolution)
    ensures r.ById? || r.Archived? || (r.Create? && r.reason.ArchivedThread?) ==> exact.Some?
    ensures exact.Some? && !exact.value.archived ==> r == ById(exact.value)
    ensures exact.Some? && exact.value.archived ==>
              r == if createIfMissing then Create(ArchivedThread(exact.value.id)) else Archived(exact.value)
    ensures exact == None ==>
              var matches := Matching(listed, title);
              && (matches == [] ==> r == if createIfMissing then Create(MissingThread) else Missing)
              && (|matches| == 1 ==> r == ByName(matches[0]))
              && (|matches| > 1 ==> forall i: nat :: UniqueLatest(matches, i) ==> r == ByName(matches[i]))
              && (|matches| > 1 && (forall i: nat :: !UniqueLatest(matches, i)) ==> r == Ambiguous(matches))
    ensures r.ByName? ==> r.thread in listed && !r.thread.archived && r.thread.title == title && r.thread.sameWorkspace
    ensures exact == None ==>
              (r.Create? || r.Missing? <==> forall t :: t in listed ==> t.archived || t.title != title || !t.sameWorkspace)
  {
    if exact.Some? {
      if !exact.value.archived {
        return ById(exact.value);
      }
      return if createIfMissing then Create(ArchivedThread(exact.value.id)) else Archived(exact.value);
    }
    var matches := Matching(listed, title);
    MatchingIs(listed, title);
    if |matches| > 1 {
      assert matches[0] in matches;
      var latest := UniquelyLatestThread(matches);
      if latest.Some? {
        return ByName(latest.value);
      }
      return Ambiguous(matches);
    }
    if |matches| == 1 {
      assert matches[0] in matches;
      return ByName(matches[0]);
    }
    return if createIfMissing then Create(MissingThread) else Missing;
  }

  // ---- The creation map as the resolver keeps it ----

  class CreationMap {
    var creations: seq<Creation>
    var entries: map<CreationKey, Entry>

    constructor ()
      ensures State() == Scope([], map[])
    {
      creations, entries := [], map[];
    }

    function State(): Scope
      reads this
    {
      Scope(creations, entries)
    }

    method CreateIdempotently(key: CreationKey, now: int) returns (creation: nat)
      modifies this
      ensures creation == CreationFor(old(State()), key, now)
      ensures State() == Next(old(State()), CallCreate(key, now))
    {
      if key in entries {
        var existing := entries[key];
        if existing.settledAt == None || now - existing.settledAt.value <= RECENT_CREATION_TTL {
          return existing.creation;
        }
        entries := entries - {key};
      }
      creation := |creations|;
      creations := creations + [Creation(key, Running)];
      entries := entries[key := Entry(creation, None)];
    }

    /** The callback on a settled creation. */
    method FileOutcome(creation: nat, now: int)
      requires creation < |creations| && creations[creation].phase.Settled?
      modifies this
      ensures State() == Next(old(State()), File(creation, now))
    {
      var settled := creations[creation];
      if settled.key in entries && entries[settled.key].creation == creation {
        if settled.phase.succeeded {
          entries := entries[settled.key := Entry(creation, Some(now))];
        } else {
          entries := entries - {settled.key};
        }
      }
      creations := creations[creation := settled.(phase := Filed(settled.phase.succeeded))];
    }
  }
}
