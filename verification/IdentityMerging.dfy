/**
 * What lookups show for a record with several heads: when the heads conflict, and how heads that do not are merged.
 */
module IdentityMerging {
  import opened Common
  import opened Ordering
  import opened IdentityEvents

  // ---- When heads conflict ----

  predicate Seen(r: Record) {
    r.Participant? && "identity-participant-observed-" <= r.id && r.kind == UnknownKind && r.status == Candidate
  }

  /**
   * Two versions of one record disagree: accounts in anything but name and time, participants only observed in their
   * habits, and everything else in anything but time.
   */
  predicate Disagree(a: Record, b: Record) {
    match (a, b)
    case (Endpoint(id, platform, namespace, sender, _, isSelf, links, _), Endpoint(id', platform', namespace', sender', _, isSelf', links', _)) =>
      platform != platform' || namespace != namespace' || sender != sender' || isSelf != isSelf' || links != links'
    case (Participant(id, kind, name, aliases, habits, status, evidence, _), Participant(id', kind', name', aliases', habits', status', evidence', _)) =>
      if Seen(a) && Seen(b) then habits != habits'
      else kind != kind' || name != name' || aliases != aliases' || habits != habits' || status != status' || evidence != evidence'
    case (Card(id, subject, targetKind, targetId, relationship, status, scope, evidence, _),
          Card(id', subject', targetKind', targetId', relationship', status', scope', evidence', _)) =>
      || subject != subject' || targetKind != targetKind' || targetId != targetId' || relationship != relationship' || status != status'
      || scope != scope' || evidence != evidence'
    case _ => true
  }

  lemma ComparableIff(a: Record, b: Record)
    requires KeyOf(a) == KeyOf(b)
    ensures ConflictComparable(a) != ConflictComparable(b) <==> Disagree(a, b)
  {
  }

  /** Heads conflict exactly when two of them disagree; then all of them are listed, in the order of their ids. */
  lemma ConflictIff(heads: seq<Event>, key: RecordKey)
    requires heads != [] && forall h :: h in heads ==> KeyOf(h.record) == key
    ensures var c := Collapse(heads);
            && (c.conflicted <==> exists a, b :: a in heads && b in heads && Disagree(a.record, b.record))
            && (!c.conflicted ==> c.candidates == [])
            && (c.conflicted ==>
                  && multiset(c.candidates) == multiset(heads)
                  && forall i, j :: 0 <= i < j < |c.candidates| ==> c.candidates[i].id <= c.candidates[j].id)
  {
    hide ConflictComparable, Disagree, MergedRecord, LendsName, Sort;
    var sorted := Sort(ByIdLe, heads);
    SortSorts(ByIdLe, heads);
    forall a, b | a in heads && b in heads
      ensures ConflictComparable(a.record) != ConflictComparable(b.record) <==> Disagree(a.record, b.record)
    {
      ComparableIff(a.record, b.record);
    }
    if a, b :| a in heads && b in heads && Disagree(a.record, b.record) {
      var i :| 0 <= i < |sorted| && sorted[i] == a;
      var j :| 0 <= j < |sorted| && sorted[j] == b;
    }
    assert forall i :: 0 <= i < |sorted| ==> sorted[i] in heads;
  }

  // ---- How heads are merged ----

  /** No head is later: by time, and by id among those of the same time. */
  ghost predicate IsLatest(heads: seq<Event>, latest: Event) {
    && latest in heads
    && forall h :: h in heads ==>
         h.record.updatedAt < latest.record.updatedAt || (h.record.updatedAt == latest.record.updatedAt && h.id <= latest.id)
  }

  function NameOf(r: Record): Option<string> {
    if r.Card? then None else r.displayName
  }

  /** The name of the latest head that has one. */
  ghost predicate IsLatestName(heads: seq<Event>, name: Option<string>) {
    if name == None then forall h :: h in heads ==> NameOf(h.record) == None
    else exists h :: h in heads && NameOf(h.record) == name
                     && forall g :: g in heads && NameOf(g.record).Some? ==>
                          g.record.updatedAt < h.record.updatedAt || (g.record.updatedAt == h.record.updatedAt && g.id <= h.id)
  }

  lemma LastIsLatest(byTime: seq<Event>)
    requires SortedBy(ByTimeLe, byTime) && byTime != []
    ensures IsLatest(byTime, byTime[|byTime| - 1])
  {
    var last := byTime[|byTime| - 1];
    forall h | h in byTime
      ensures h.record.updatedAt < last.record.updatedAt || (h.record.updatedAt == last.record.updatedAt && h.id <= last.id)
    {
      var i :| 0 <= i < |byTime| && byTime[i] == h;
      assert i < |byTime| - 1 ==> ByTimeLe(h, last);
    }
  }

  lemma {:induction false} LatestNameIs(byTime: seq<Event>)
    requires SortedBy(ByTimeLe, byTime)
    ensures IsLatestName(byTime, LatestName(byTime))
    decreases |byTime|
  {
    hide IsLatestName;
    if byTime == [] {
      NoNames([]);
    } else {
      var front, last := byTime[..|byTime| - 1], byTime[|byTime| - 1];
      assert byTime == front + [last];
      LatestNameIs(front);
      if NameOf(last.record) == None {
        UnnamedLast(front, last, LatestName(front));
      } else {
        LastIsLatest(byTime);
        NamedLast(byTime, last);
      }
    }
  }

  lemma NoNames(byTime: seq<Event>)
    requires byTime == []
    ensures IsLatestName(byTime, None)
  {
  }

  lemma UnnamedLast(front: seq<Event>, last: Event, name: Option<string>)
    requires IsLatestName(front, name) && NameOf(last.record) == None
    ensures IsLatestName(front + [last], name)
  {
    if name.Some? {
      var h :| h in front && NameOf(h.record) == name
               && forall g :: g in front && NameOf(g.record).Some? ==>
                    g.record.updatedAt < h.record.updatedAt || (g.record.updatedAt == h.record.updatedAt && g.id <= h.id);
      assert h in front + [last];
    }
  }

  lemma NamedLast(byTime: seq<Event>, last: Event)
    requires IsLatest(byTime, last) && NameOf(last.record).Some?
    ensures IsLatestName(byTime, NameOf(last.record))
  {
  }

  lemma {:induction false} AliasesAre(byTime: seq<Event>, x: string)
    ensures x in AllAliases(byTime) <==> exists h :: h in byTime && h.record.Participant? && x in h.record.aliases
  {
    if byTime != [] {
      assert byTime == [byTime[0]] + byTime[1..];
      AliasesAre(byTime[1..], x);
    }
  }

  lemma {:induction false} EvidenceIs(byTime: seq<Event>, x: Evidence)
    ensures x in AllEvidence(byTime) <==> exists h :: h in byTime && h.record.Participant? && x in h.record.evidence
  {
    if byTime != [] {
      assert byTime == [byTime[0]] + byTime[1..];
      EvidenceIs(byTime[1..], x);
    }
  }

  /** Every element once, in the order of its first occurrence. */
  lemma UniqueInOrder<T>(s: seq<T>, x: T)
    ensures Unique(s + [x]) == if x in s then Unique(s) else Unique(s) + [x]
  {
    assert (s + [x])[..|s|] == s;
    UniqueElements(s);
  }

  lemma {:induction false} UniqueElements<T>(s: seq<T>)
    ensures forall y :: y in Unique(s) <==> y in s
    ensures forall i, j :: 0 <= i < j < |Unique(s)| ==> Unique(s)[i] != Unique(s)[j]
    decreases |s|
  {
    if s != [] {
      var front := s[..|s| - 1];
      assert s == front + [s[|s| - 1]];
      UniqueElements(front);
    }
  }

  /** What the merged list holds of the union: nothing else, nothing twice, at most 50, and all of it if fewer. */
  ghost predicate UnionOf<T(!new)>(merged: seq<T>, all: seq<T>) {
    && (forall x :: x in merged ==> x in all) && |merged| <= 50
    && (forall i, j :: 0 <= i < j < |merged| ==> merged[i] != merged[j])
    && (|merged| < 50 ==> forall x :: x in all ==> x in merged)
  }

  lemma LimitedUnions<T(!new)>(all: seq<T>)
    ensures UnionOf(FirstN(Unique(all), MAX_LIST), all) && UnionOf(LastN(Unique(all), MAX_LIST), all)
  {
    UniqueElements(all);
    var u := Unique(all);
    if |u| > MAX_LIST {
      assert forall x :: x in u[..MAX_LIST] ==> x in u;
      assert forall x :: x in u[|u| - MAX_LIST..] ==> x in u;
    }
  }

  /** The heads by time: the same heads, the latest last. */
  lemma ByTime(heads: seq<Event>, latest: Event) returns (byTime: seq<Event>)
    requires heads != [] && IsLatest(heads, latest) && DistinctIds(heads)
    ensures byTime == Sort(ByTimeLe, Sort(ByIdLe, heads)) && |byTime| == |heads| && byTime[|byTime| - 1] == latest
    ensures (forall h :: h in byTime <==> h in heads) && SortedBy(ByTimeLe, byTime)
  {
    hide Sort;
    var sorted := Sort(ByIdLe, heads);
    byTime := Sort(ByTimeLe, sorted);
    SameElements(sorted, heads);
    SortSorts(ByTimeLe, sorted);
    var last := byTime[|byTime| - 1];
    assert last in heads;
    var i :| 0 <= i < |byTime| && byTime[i] == latest;
    assert i < |byTime| - 1 ==> ByTimeLe(latest, last);
    SameId(heads, last, latest);
  }

  lemma SameId(heads: seq<Event>, a: Event, b: Event)
    requires DistinctIds(heads) && a in heads && b in heads
    ensures a.id == b.id ==> a == b
  {
  }

  /**
   * The record shown for several heads is that of the latest one.  An account shows the name of the latest head that has
   * one, and so does a participant only observed, which also shows the aliases and the evidence of all heads.
   */
  lemma MergedShows(heads: seq<Event>, latest: Event)
    requires heads != [] && IsLatest(heads, latest) && DistinctIds(heads)
    ensures var r, was := Collapse(heads).record, latest.record;
            match was
            case Endpoint(id, platform, namespace, sender, _, isSelf, links, updatedAt) =>
              && r.Endpoint? && r.id == id && r.platform == platform && r.namespace == namespace && r.sender == sender
              && r.isSelf == isSelf && r.links == links && r.updatedAt == updatedAt && IsLatestName(heads, r.displayName)
            case Participant(id, kind, _, _, habits, status, _, updatedAt) =>
              if !Seen(was) then r == was
              else
                && r.Participant? && r.id == id && r.kind == kind && r.habits == habits && r.status == status && r.updatedAt == updatedAt
                && IsLatestName(heads, r.displayName)
                && (forall x :: x in r.aliases ==> exists h :: h in heads && h.record.Participant? && x in h.record.aliases)
                && |r.aliases| <= 50
                && (|r.aliases| < 50 ==> forall h, x :: h in heads && h.record.Participant? && x in h.record.aliases ==> x in r.aliases)
                && (forall x :: x in r.evidence ==> exists h :: h in heads && h.record.Participant? && x in h.record.evidence)
                && |r.evidence| <= 50
                && (|r.evidence| < 50 ==> forall h, x :: h in heads && h.record.Participant? && x in h.record.evidence ==> x in r.evidence)
            case Card(_, _, _, _, _, _, _, _, _) => r == was
  {
    hide Sort, Differ, LendsName, AllAliases, AllEvidence, Unique, LatestName, IsLatestName;
    var byTime := ByTime(heads, latest);
    LatestNameIs(byTime);
    SameNames(byTime, heads, LatestName(byTime));
    if Seen(latest.record) {
      LimitedUnions(AllAliases(byTime));
      LimitedUnions(AllEvidence(byTime));
      forall x
        ensures x in AllAliases(byTime) <==> exists h :: h in heads && h.record.Participant? && x in h.record.aliases
      {
        AliasesAre(byTime, x);
      }
      forall x
        ensures x in AllEvidence(byTime) <==> exists h :: h in heads && h.record.Participant? && x in h.record.evidence
      {
        EvidenceIs(byTime, x);
      }
    }
  }

  /** The name shown is lent when the latest head, an account or a participant only observed, has none and an earlier one has. */
  lemma LentIff(heads: seq<Event>, latest: Event)
    requires heads != [] && IsLatest(heads, latest) && DistinctIds(heads)
    ensures Collapse(heads).nameLent <==>
              && (latest.record.Endpoint? || Seen(latest.record)) && latest.record.displayName == None
              && exists h :: h in heads && NameOf(h.record).Some?
  {
    hide Sort, Differ, MergedRecord, LatestName, IsLatestName;
    var byTime := ByTime(heads, latest);
    LatestNameIs(byTime);
    SameNames(byTime, heads, LatestName(byTime));
    LatestNameSome(heads, LatestName(byTime));
  }

  lemma LatestNameSome(heads: seq<Event>, name: Option<string>)
    requires IsLatestName(heads, name)
    ensures name.Some? <==> exists h :: h in heads && NameOf(h.record).Some?
  {
  }

  lemma SameNames(a: seq<Event>, b: seq<Event>, name: Option<string>)
    requires forall h :: h in a <==> h in b
    ensures IsLatestName(a, name) <==> IsLatestName(b, name)
  {
  }

  // ---- Legacy events ----

  /** Whatever is neither superseded nor current has not been written yet. */
  lemma {:induction false} HeadsAreCurrent(group: seq<Event>, explicit: set<EventId>, e: Event)
    requires e in group && e.id !in explicit && e.id !in Walk(group, explicit).superseded
    ensures e.id in Walk(group, explicit).current
    decreases |group|
  {
    var front, last := group[..|group| - 1], group[|group| - 1];
    assert group == front + [last];
    if e in front {
      HeadsAreCurrent(front, explicit, e);
    }
  }

  /** A legacy event, which names no parents, replaces everything that was current when it was written. */
  lemma LegacyEventReplacesAll(group: seq<Event>, e: Event)
    requires e.supersedes == None && Fresh(group, e.id)
    ensures Heads(group + [e]) == [e]
  {
    var all := group + [e];
    var explicit := ExplicitlySuperseded(all);
    assert all[..|all| - 1] == group && all[|all| - 1] == e;
    assert explicit == ExplicitlySuperseded(group);
    FreshIsNotWalked(group, explicit, e.id);
    var gone := Superseded(all, explicit);
    forall g | g in group
      ensures g.id in gone
    {
      if g.id !in explicit && g.id !in Walk(group, explicit).superseded {
        HeadsAreCurrent(group, explicit, g);
      }
    }
    NotInAll(group, [e], gone);
  }
}
