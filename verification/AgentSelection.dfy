/**
 * Which agent serves a group: how much each past contact weighs, how equals are ordered, and in what order the pool looks
 * for an agent that can take the group.
 */
module AgentSelection {
  import opened Common
  import opened Ordering
  import opened AgentPool

  // ---- What contacts weigh ----

  /** The group answers a message of this contact. */
  predicate Answers(a: Affinity, group: Group) {
    group.replyTo.Some? && group.replyTo.value != "" && group.replyTo.value in a.messageIds
  }

  predicate SameConversation(a: Affinity, group: Group) {
    a.endpoint == group.endpoint && a.conversationKey == group.conversationKey
  }

  /**
   * The best contact counts: answering one of its messages, then the same group, then the same sender, conversation and
   * endpoint; and a session whose message is quoted gets 6000 on top.
   */
  lemma ScoreIs(worker: Worker, group: Group, referenced: set<ThreadId>)
    ensures Score(worker, Some(group), referenced) == (if worker.threadId in referenced then 6000 else 0) +
              if exists a :: a in worker.affinities && Answers(a, group) then 5000
              else if exists a :: a in worker.affinities && a.groupId == group.groupId then 4000
              else if exists a :: a in worker.affinities && SameConversation(a, group) && a.sender == group.sender then 3000
              else if exists a :: a in worker.affinities && SameConversation(a, group) then 2000
              else if exists a :: a in worker.affinities && a.endpoint == group.endpoint then 1000
              else 0
  {
    BestIs(worker.affinities, group);
  }

  lemma {:induction false} BestIs(affinities: seq<Affinity>, group: Group)
    ensures forall a :: a in affinities ==> AffinityWeight(a, group) <= BestWeight(affinities, group)
    ensures BestWeight(affinities, group) == 0 || exists a :: a in affinities && AffinityWeight(a, group) == BestWeight(affinities, group)
  {
    if affinities != [] {
      assert affinities == [affinities[0]] + affinities[1..];
      BestIs(affinities[1..], group);
    }
  }

  // ---- How equals are ordered ----

  /** No contact is later, and without any it is zero. */
  lemma {:induction false} LatestUseIs(affinities: seq<Affinity>)
    ensures LatestUse(affinities) >= 0 && forall a :: a in affinities ==> a.lastUsedAt <= LatestUse(affinities)
    ensures LatestUse(affinities) == 0 || exists a :: a in affinities && a.lastUsedAt == LatestUse(affinities)
  {
    if affinities != [] {
      assert affinities == [affinities[0]] + affinities[1..];
      LatestUseIs(affinities[1..]);
    }
  }

  /** Of two ranked agents the first has the better score, or used later, or a smaller index, or is older, or comes first by id. */
  lemma RankedBefore(workers: seq<Worker>, group: Option<Group>, referenced: set<ThreadId>, i: nat, j: nat)
    requires i < j < |Rank(workers, group, referenced)|
    ensures var a, b := Rank(workers, group, referenced)[i].worker, Rank(workers, group, referenced)[j].worker;
            var score, other := Score(a, group, referenced), Score(b, group, referenced);
            || score > other
            || (score == other
                && (|| LatestUse(a.affinities) > LatestUse(b.affinities)
                    || (LatestUse(a.affinities) == LatestUse(b.affinities)
                        && (|| a.index < b.index
                            || (a.index == b.index
                                && (a.createdAt < b.createdAt || (a.createdAt == b.createdAt && a.threadId <= b.threadId)))))))
  {
    hide Score, LatestUse;
    RankOrderIsPreorder(group, referenced);
    SortSorts(RankOrder(group, referenced), Candidates(workers));
    var ranked := Rank(workers, group, referenced);
    assert RankOrder(group, referenced)(ranked[i], ranked[j]);
  }

  // ---- In what order the pool looks ----

  /**
   * What an agent offers, best first: close, or familiar and idle; idle; familiar and loadable; loadable; archived, to be
   * replaced; nothing.
   */
  function Offer(c: Candidate, group: Group, referenced: set<ThreadId>, reading: Reading): nat {
    var score, state := Score(c.worker, Some(group), referenced), reading(c.worker.threadId);
    if score >= 4000 || (score > 0 && state == Idle) then 1
    else if state == Idle then 2
    else if score > 0 && state == NotLoaded then 3
    else if state == NotLoaded then 4
    else if state == Archived then 5
    else 6
  }

  /** The first in this order with the best offer. */
  ghost predicate BestOffer(ranked: seq<Candidate>, group: Group, referenced: set<ThreadId>, reading: Reading, i: nat) {
    && i < |ranked|
    && (forall j :: 0 <= j < |ranked| ==> Offer(ranked[i], group, referenced, reading) <= Offer(ranked[j], group, referenced, reading))
    && forall j :: 0 <= j < i ==> Offer(ranked[j], group, referenced, reading) != Offer(ranked[i], group, referenced, reading)
  }

  lemma {:induction false} FirstWithIs(ranked: seq<Candidate>, reading: Reading, wanted: Availability)
    ensures (forall c :: c in ranked ==> reading(c.worker.threadId) != wanted) ==> FirstWith(ranked, reading, wanted) == None
    ensures forall i :: 0 <= i < |ranked| && reading(ranked[i].worker.threadId) == wanted
                        && (forall j :: 0 <= j < i ==> reading(ranked[j].worker.threadId) != wanted) ==>
              FirstWith(ranked, reading, wanted) == Some(ranked[i].at)
  {
    if ranked != [] {
      assert ranked == [ranked[0]] + ranked[1..];
      FirstWithIs(ranked[1..], reading, wanted);
      forall i | 0 <= i < |ranked| && reading(ranked[i].worker.threadId) == wanted
                 && forall j :: 0 <= j < i ==> reading(ranked[j].worker.threadId) != wanted
        ensures FirstWith(ranked, reading, wanted) == Some(ranked[i].at)
      {
        if i > 0 {
          assert ranked[1..][i - 1] == ranked[i] && forall j :: 0 <= j < i - 1 ==> ranked[1..][j] == ranked[j + 1];
        }
      }
    }
  }

  /** The first familiar agent in this state. */
  lemma {:induction false} FirstFamiliarWith(ranked: seq<Candidate>, group: Group, referenced: set<ThreadId>, reading: Reading, i: nat)
    requires i < |ranked| && Score(ranked[i].worker, Some(group), referenced) > 0 && reading(ranked[i].worker.threadId) == NotLoaded
    requires forall j :: 0 <= j < i ==>
               !(Score(ranked[j].worker, Some(group), referenced) > 0 && reading(ranked[j].worker.threadId) == NotLoaded)
    ensures FirstWith(Familiar(ranked, group, referenced), reading, NotLoaded) == Some(ranked[i].at)
  {
    hide Score;
    var rest := Familiar(ranked[1..], group, referenced);
    if i > 0 {
      assert ranked[1..][i - 1] == ranked[i] && forall j :: 0 <= j < i - 1 ==> ranked[1..][j] == ranked[j + 1];
      FirstFamiliarWith(ranked[1..], group, referenced, reading, i - 1);
      if Score(ranked[0].worker, Some(group), referenced) > 0 {
        assert ([ranked[0]] + rest)[1..] == rest;
      } else {
        assert [] + rest == rest;
      }
    } else {
      assert ([ranked[0]] + rest)[0] == ranked[0];
    }
  }

  /** The first agent that is close, or familiar and idle. */
  lemma {:induction false} FirstCloseIs(ranked: seq<Candidate>, group: Group, referenced: set<ThreadId>, reading: Reading, i: nat)
    requires i < |ranked| && Offer(ranked[i], group, referenced, reading) == 1
    requires forall j :: 0 <= j < i ==> Offer(ranked[j], group, referenced, reading) != 1
    ensures FirstCloseOrIdle(Familiar(ranked, group, referenced), group, referenced, reading) == Some(ranked[i].at)
  {
    hide Score;
    var rest := Familiar(ranked[1..], group, referenced);
    if i > 0 {
      assert ranked[1..][i - 1] == ranked[i] && forall j :: 0 <= j < i - 1 ==> ranked[1..][j] == ranked[j + 1];
      FirstCloseIs(ranked[1..], group, referenced, reading, i - 1);
      if Score(ranked[0].worker, Some(group), referenced) > 0 {
        assert ([ranked[0]] + rest)[1..] == rest;
      } else {
        assert [] + rest == rest;
      }
    } else {
      assert ([ranked[0]] + rest)[0] == ranked[0];
    }
  }

  lemma NoneClose(ranked: seq<Candidate>, group: Group, referenced: set<ThreadId>, reading: Reading)
    requires forall j :: 0 <= j < |ranked| ==> Offer(ranked[j], group, referenced, reading) != 1
    ensures FirstCloseOrIdle(Familiar(ranked, group, referenced), group, referenced, reading) == None
  {
    hide Score, FirstCloseOrIdle;
    FamiliarIs(ranked, group, referenced);
    CloseIsClose(Familiar(ranked, group, referenced), group, referenced, reading);
  }

  lemma NoFamiliarNotLoaded(ranked: seq<Candidate>, group: Group, referenced: set<ThreadId>, reading: Reading)
    requires forall j :: 0 <= j < |ranked| ==> Offer(ranked[j], group, referenced, reading) > 3
    ensures FirstWith(Familiar(ranked, group, referenced), reading, NotLoaded) == None
  {
    hide Score, FirstWith;
    FamiliarIs(ranked, group, referenced);
    FirstWithFinds(Familiar(ranked, group, referenced), reading, NotLoaded);
  }

  /** What the fallback picks when nobody is close: the first agent with the best offer. */
  lemma FallbackIs(workers: seq<Worker>, maxAgents: Option<nat>, all: seq<Candidate>, group: Group, referenced: set<ThreadId>,
                   reading: Reading, source: Availability, i: nat)
    requires BestOffer(all, group, referenced, reading, i) && 1 < Offer(all[i], group, referenced, reading) < 6
    ensures SelectFallback(workers, maxAgents, Familiar(all, group, referenced), all, reading, source)
              == Use(all[i].at, Offer(all[i], group, referenced, reading) == 5)
  {
    hide Score, Familiar, FirstWith, SelectFallback;
    var offer := Offer(all[i], group, referenced, reading);
    if offer == 2 {
      FirstOffered(all, group, referenced, reading, Idle, i);
    } else if offer == 3 {
      NoneOffers(all, group, referenced, reading, Idle, i);
      FirstFamiliarWith(all, group, referenced, reading, i);
    } else {
      NoneOffers(all, group, referenced, reading, Idle, i);
      NoFamiliarNotLoaded(all, group, referenced, reading);
      FirstOffered(all, group, referenced, reading, if offer == 4 then NotLoaded else Archived, i);
      if offer == 5 {
        NoneOffers(all, group, referenced, reading, NotLoaded, i);
      }
    }
    FallbackTakes(workers, maxAgents, Familiar(all, group, referenced), all, reading, source);
  }

  lemma FallbackTakes(workers: seq<Worker>, maxAgents: Option<nat>, familiar: seq<Candidate>, all: seq<Candidate>,
                      reading: Reading, source: Availability)
    ensures var s := SelectFallback(workers, maxAgents, familiar, all, reading, source);
            var idle, near := FirstWith(all, reading, Idle), FirstWith(familiar, reading, NotLoaded);
            var loadable, archived := FirstWith(all, reading, NotLoaded), FirstWith(all, reading, Archived);
            if idle.Some? then s == Use(idle.value, false)
            else if near.Some? then s == Use(near.value, false)
            else if loadable.Some? then s == Use(loadable.value, false)
            else archived.Some? ==> s == Use(archived.value, true)
  {
    hide FirstWith;
  }

  /** The states a good offer stands for. */
  lemma OfferOf(c: Candidate, group: Group, referenced: set<ThreadId>, reading: Reading)
    ensures var offer, state := Offer(c, group, referenced, reading), reading(c.worker.threadId);
            && (offer == 2 ==> state == Idle) && (offer == 4 ==> state == NotLoaded) && (offer == 5 ==> state == Archived)
            && (state == Idle ==> offer <= 2) && (state == NotLoaded ==> offer <= 4) && (state == Archived ==> offer <= 5)
  {
    hide Score;
  }

  function OfferFor(wanted: Availability): nat {
    match wanted case Idle => 2 case NotLoaded => 4 case Archived => 5 case _ => 6
  }

  /** The best offer, in the state it stands for, is the first agent in that state. */
  lemma FirstOffered(all: seq<Candidate>, group: Group, referenced: set<ThreadId>, reading: Reading, wanted: Availability, i: nat)
    requires BestOffer(all, group, referenced, reading, i)
    requires Offer(all[i], group, referenced, reading) == OfferFor(wanted) < 6
    ensures FirstWith(all, reading, wanted) == Some(all[i].at)
  {
    hide Score, FirstWith, Offer;
    OfferOf(all[i], group, referenced, reading);
    forall j | 0 <= j < i
      ensures reading(all[j].worker.threadId) != wanted
    {
      OfferOf(all[j], group, referenced, reading);
    }
    FirstWithIs(all, reading, wanted);
  }

  lemma NoneOffers(all: seq<Candidate>, group: Group, referenced: set<ThreadId>, reading: Reading, wanted: Availability, i: nat)
    requires BestOffer(all, group, referenced, reading, i)
    requires OfferFor(wanted) < 6 && Offer(all[i], group, referenced, reading) > OfferFor(wanted)
    ensures FirstWith(all, reading, wanted) == None
  {
    hide Score, FirstWith, Offer;
    forall c | c in all
      ensures reading(c.worker.threadId) != wanted
    {
      var j :| 0 <= j < |all| && all[j] == c;
      OfferOf(c, group, referenced, reading);
      OfferOf(all[i], group, referenced, reading);
      assert Offer(all[i], group, referenced, reading) <= Offer(all[j], group, referenced, reading);
    }
    FirstWithIs(all, reading, wanted);
  }

  /**
   * The selection: a heartbeat goes to the best-ranked agent if that one ever served its endpoint; any other group to the
   * first ranked agent with the best offer, an archived one to be replaced.
   */
  lemma SelectionIs(workers: seq<Worker>, maxAgents: Option<nat>, group: Group, referenced: set<ThreadId>, reading: Reading,
                    source: Availability, i: nat)
    ensures var all := Rank(workers, Some(group), referenced);
            var s := Select(workers, maxAgents, group, referenced, reading, source);
            var heartbeat := group.endpoint == "heartbeat" && all != [] && Score(all[0].worker, Some(group), referenced) > 0;
            && (heartbeat ==> s == Use(all[0].at, false))
            && (!heartbeat && BestOffer(all, group, referenced, reading, i) && Offer(all[i], group, referenced, reading) < 6 ==>
                  s == Use(all[i].at, Offer(all[i], group, referenced, reading) == 5))
  {
    hide Score, Rank, FirstWith, FirstCloseOrIdle, SelectFallback, Offer;
    var all := Rank(workers, Some(group), referenced);
    RankedByScore(workers, group, referenced);
    FamiliarIs(all, group, referenced);
    NobodyFamiliar(all, group, referenced);
    if BestOffer(all, group, referenced, reading, i) && Offer(all[i], group, referenced, reading) < 6 {
      OffersStartAtOne(all[i], group, referenced, reading);
      if Offer(all[i], group, referenced, reading) == 1 {
        FirstCloseIs(all, group, referenced, reading, i);
      } else {
        NoneClose(all, group, referenced, reading);
        FallbackIs(workers, maxAgents, all, group, referenced, reading, source, i);
      }
    }
  }

  lemma OffersStartAtOne(c: Candidate, group: Group, referenced: set<ThreadId>, reading: Reading)
    ensures 1 <= Offer(c, group, referenced, reading) <= 6
  {
  }

  lemma {:induction false} NobodyFamiliar(ranked: seq<Candidate>, group: Group, referenced: set<ThreadId>)
    ensures (forall c :: c in ranked ==> Score(c.worker, Some(group), referenced) <= 0) ==> Familiar(ranked, group, referenced) == []
  {
    hide Score;
    if ranked != [] {
      assert ranked == [ranked[0]] + ranked[1..];
      NobodyFamiliar(ranked[1..], group, referenced);
    }
  }

  /** When nobody offers anything: at its cap the pool takes the best-ranked agent; with nothing to load it takes nobody. */
  lemma NobodyOffers(workers: seq<Worker>, maxAgents: Option<nat>, group: Group, referenced: set<ThreadId>, reading: Reading,
                     source: Availability)
    requires forall j :: 0 <= j < |workers| ==> Offer(Candidate(j, workers[j]), group, referenced, reading) == 6
    requires group.endpoint != "heartbeat"
    ensures var all := Rank(workers, Some(group), referenced);
            var s := Select(workers, maxAgents, group, referenced, reading, source);
            var loadable := (exists j :: 0 <= j < |workers| && Loads(reading(workers[j].threadId))) || Loads(source);
            && (maxAgents.Some? && |workers| >= maxAgents.value && workers != [] ==> all != [] && s == Use(all[0].at, false))
            && (!(maxAgents.Some? && |workers| >= maxAgents.value && workers != []) ==>
                  s == if loadable then CreateNew else NoneAvailable)
  {
    hide Score, Rank, FirstWith, FirstCloseOrIdle;
    var all := Rank(workers, Some(group), referenced);
    RankedByScore(workers, group, referenced);
    forall j | 0 <= j < |all|
      ensures Offer(all[j], group, referenced, reading) == 6
    {
      assert all[j] in all;
    }
    NoneClose(all, group, referenced, reading);
    NoFamiliarNotLoaded(all, group, referenced, reading);
    FirstWithIs(all, reading, Idle);
    FirstWithIs(all, reading, NotLoaded);
    FirstWithIs(all, reading, Archived);
    FirstFamiliar(all, group, referenced);
  }

  predicate Loads(state: Availability) {
    state == Active || state == Idle || state == NotLoaded
  }

  /** Since ranking goes by score, the first familiar agent, if there is one, is the best-ranked. */
  lemma FirstFamiliar(ranked: seq<Candidate>, group: Group, referenced: set<ThreadId>)
    requires forall i, j :: 0 <= i < j < |ranked| ==>
               Score(ranked[i].worker, Some(group), referenced) >= Score(ranked[j].worker, Some(group), referenced)
    ensures Familiar(ranked, group, referenced) != [] ==> ranked != [] && Familiar(ranked, group, referenced)[0] == ranked[0]
  {
    hide Score;
    FamiliarIs(ranked, group, referenced);
    var familiar := Familiar(ranked, group, referenced);
    if familiar != [] {
      assert familiar[0] in ranked;
      var i :| 0 <= i < |ranked| && ranked[i] == familiar[0];
      assert Score(ranked[0].worker, Some(group), referenced) >= Score(ranked[i].worker, Some(group), referenced);
    }
  }

  // ---- What the pool then holds ----

  lemma {:induction false} LargestIndexIs(workers: seq<Worker>)
    ensures LargestIndex(workers) >= 0 && forall i :: 0 <= i < |workers| ==> workers[i].index <= LargestIndex(workers)
    ensures LargestIndex(workers) == 0 || exists i :: 0 <= i < |workers| && workers[i].index == LargestIndex(workers)
  {
    if workers != [] {
      LargestIndexIs(workers[1..]);
      assert forall i :: 0 < i < |workers| ==> workers[1..][i - 1] == workers[i];
    }
  }

  lemma {:induction false} OthersKept(affinities: seq<Affinity>, groupId: string)
    ensures forall a :: a in WithoutGroup(affinities, groupId) <==> a in affinities && a.groupId != groupId
  {
    if affinities != [] {
      assert affinities == [affinities[0]] + affinities[1..];
      OthersKept(affinities[1..], groupId);
    }
  }

  /** An agent remembers each group once, the newest last, and forgets the oldest beyond a hundred. */
  lemma RemembersGroup(worker: Worker, group: Group, now: int)
    ensures var r := Remember(worker, group, now);
            && r == worker.(affinities := r.affinities) && 0 < |r.affinities| <= 100
            && r.affinities[|r.affinities| - 1] == Affinity(group.groupId, group.endpoint, group.conversationKey, group.sender, group.messageIds, now)
            && (forall i :: 0 <= i < |r.affinities| - 1 ==> r.affinities[i] in worker.affinities && r.affinities[i].groupId != group.groupId)
            && (|worker.affinities| < 100 ==> forall a :: a in worker.affinities && a.groupId != group.groupId ==> a in r.affinities)
  {
    hide WithoutGroup;
    var others := WithoutGroup(worker.affinities, group.groupId);
    OthersKept(worker.affinities, group.groupId);
    NoMoreOthers(worker.affinities, group.groupId);
    var all := others + [AffinityOf(group, now)];
    assert forall i :: 0 <= i < |others| ==> all[i] == others[i] && others[i] in others;
  }

  /** A replaced thread changes nothing but the thread of its agent. */
  lemma AdoptedThread(workers: seq<Worker>, maxAgents: Option<nat>, at: nat, threadId: ThreadId)
    ensures var adopted := Next(workers, maxAgents, AdoptThread(at, threadId));
            && |adopted| == |workers|
            && forall i :: 0 <= i < |workers| ==> adopted[i] == if i == at then workers[i].(threadId := threadId) else workers[i]
  {
  }

  lemma {:induction false} NoMoreOthers(affinities: seq<Affinity>, groupId: string)
    ensures |WithoutGroup(affinities, groupId)| <= |affinities|
  {
    if affinities != [] {
      NoMoreOthers(affinities[1..], groupId);
    }
  }

  /** A created agent has the thread the manager made, the next index, and this group as its only contact. */
  lemma CreatedAgent(workers: seq<Worker>, maxAgents: Option<nat>, group: Group, referenced: set<ThreadId>, answers: Answers)
    requires Select(workers, maxAgents, group, referenced, answers.reading, answers.source) == CreateNew
    ensures var allocation := Allocate(workers, maxAgents, group, referenced, answers);
            if answers.created == None || (maxAgents.Some? && |workers| >= maxAgents.value) then allocation == Allocation(workers, None)
            else
              && |allocation.workers| == |workers| + 1 && allocation.workers[..|workers|] == workers
              && allocation.at == Some(|workers|)
              && var w := allocation.workers[|workers|];
                 && Some(w.threadId) == answers.created && w.createdAt == answers.now
                 && (forall i :: 0 <= i < |workers| ==> workers[i].index < w.index)
                 && (w.index == 1 || exists i :: 0 <= i < |workers| && workers[i].index == w.index - 1)
                 && w.affinities == [Affinity(group.groupId, group.endpoint, group.conversationKey, group.sender, group.messageIds, answers.now)]
  {
    hide Select, LargestIndex;
    LargestIndexIs(workers);
    assert WithoutGroup([], group.groupId) == [];
  }

  /** A chosen agent keeps its place; an archived one gets the thread that replaces it, or the allocation fails. */
  lemma ChosenAgent(workers: seq<Worker>, maxAgents: Option<nat>, group: Group, referenced: set<ThreadId>, answers: Answers)
    requires Select(workers, maxAgents, group, referenced, answers.reading, answers.source).Use?
    ensures var s := Select(workers, maxAgents, group, referenced, answers.reading, answers.source);
            var allocation := Allocate(workers, maxAgents, group, referenced, answers);
            && s.at < |workers|
            && if s.replaceArchived && answers.replaced == None then allocation == Allocation(workers, None)
               else
                 && allocation.at == Some(s.at) && |allocation.workers| == |workers|
                 && (forall i :: 0 <= i < |workers| && i != s.at ==> allocation.workers[i] == workers[i])
                 && var w := allocation.workers[s.at];
                    && Some(w.threadId) == (if s.replaceArchived then answers.replaced else Some(workers[s.at].threadId))
                    && w.index == workers[s.at].index && w.createdAt == workers[s.at].createdAt && w.affinities != []
                    && w.affinities[|w.affinities| - 1]
                       == Affinity(group.groupId, group.endpoint, group.conversationKey, group.sender, group.messageIds, answers.now)
  {
    hide Select, Remember;
    SelectionInPool(workers, maxAgents, group, referenced, answers.reading, answers.source);
    var s := Select(workers, maxAgents, group, referenced, answers.reading, answers.source);
    if !(s.replaceArchived && answers.replaced == None) {
      RemembersGroup(if s.replaceArchived then workers[s.at].(threadId := answers.replaced.value) else workers[s.at], group, answers.now);
    }
  }
}
