/**
 * What a deliberate identity update does to the record it is about: exactly when it is refused, and what lookups show
 * afterwards, field by field.
 */
module IdentityUpdates {
  import opened Common
  import opened IdentityEvents
  import opened IdentityLearning
  import opened IdentityMerging

  // ---- Parts of the statements ----

  /** The first fifty. */
  function Fifty<T>(s: seq<T>): seq<T> {
    if |s| > 50 then s[..50] else s
  }

  /** The last fifty of these, each once. */
  function Newest<T(==)>(s: seq<T>): seq<T> {
    LastN(Unique(s), 50)
  }

  lemma NewestAreFew<T>(s: seq<T>)
    ensures Fifty(Newest(s)) == Newest(s)
  {
  }

  /** The value a field has after an update: the one given, or the one before. */
  predicate Became<T(==)>(now: T, given: Field<T>, before: T) {
    now == if given.Given? then given.value else before
  }

  /** A participant that a link or a card may name; an authoritative link needs a confirmed or corrected one. */
  predicate MayName(found: Option<Collapsed>, authoritative: bool) {
    && found.Some? && found.value.record.Participant? && !found.value.conflicted && found.value.record.status != Retired
    && (authoritative ==> found.value.record.status == Confirmed || found.value.record.status == Corrected)
  }

  predicate IsAuthoritative(link: Link) {
    link.status == Confirmed || link.status == Corrected
  }

  /** At most one authoritative link, and every link that is not retired names a participant it may name. */
  ghost predicate SoundLinks(log: seq<Event>, links: seq<Link>) {
    && (forall i, j :: 0 <= i < j < |links| ==> !(IsAuthoritative(links[i]) && IsAuthoritative(links[j])))
    && forall i :: 0 <= i < |links| && links[i].status != Retired ==>
         MayName(Lookup(log, PersonKey(links[i].participantId)), IsAuthoritative(links[i]))
  }

  /** A list as lookups show it: as stored, or for an observed candidate without repetitions. */
  predicate ShownAs<T(==)>(now: seq<T>, stored: seq<T>, seen: bool) {
    now == stored || (seen && (now == Fifty(Unique(stored)) || now == LastN(Unique(stored), 50)))
  }

  // ---- Links ----

  lemma {:induction false} AtMostOneAuthoritative(links: seq<Link>)
    ensures |AuthoritativeLinks(links)| == 0 <==> forall i :: 0 <= i < |links| ==> !IsAuthoritative(links[i])
    ensures |AuthoritativeLinks(links)| <= 1 <==>
              forall i, j :: 0 <= i < j < |links| ==> !(IsAuthoritative(links[i]) && IsAuthoritative(links[j]))
  {
    if links != [] {
      assert links == [links[0]] + links[1..];
      AtMostOneAuthoritative(links[1..]);
      if IsAuthoritative(links[0]) && |AuthoritativeLinks(links)| > 1 {
        var j :| 0 <= j < |links[1..]| && IsAuthoritative(links[1..][j]);
        assert links[j + 1] == links[1..][j];
      }
      if !IsAuthoritative(links[0]) && |AuthoritativeLinks(links)| > 1 {
        var i, j :| 0 <= i < j < |links[1..]| && IsAuthoritative(links[1..][i]) && IsAuthoritative(links[1..][j]);
        assert links[i + 1] == links[1..][i] && links[j + 1] == links[1..][j];
      }
    }
  }

  lemma {:induction false} EachLinkChecked(log: seq<Event>, links: seq<Link>)
    ensures CheckEachLink(log, links) == None <==>
              forall i :: 0 <= i < |links| && links[i].status != Retired ==>
                MayName(Lookup(log, PersonKey(links[i].participantId)), IsAuthoritative(links[i]))
  {
    hide Lookup;
    if links != [] {
      assert links == [links[0]] + links[1..];
      EachLinkChecked(log, links[1..]);
    }
  }

  lemma LinksChecked(log: seq<Event>, links: seq<Link>)
    ensures CheckLinks(log, links) == None <==> SoundLinks(log, links)
  {
    hide Lookup, MayName, CheckEachLink, AuthoritativeLinks;
    AtMostOneAuthoritative(links);
    EachLinkChecked(log, links);
  }

  // ---- Accounts ----

  /** The account a patch is about. */
  function PatchedAccount(patch: Patch): RecordKey
    requires patch.EndpointPatch? && patch.platform.Some? && patch.namespace.Some? && patch.sender.Some?
  {
    AccountKey(AccountId(patch.platform.value, patch.namespace.value, patch.sender.value))
  }

  function LinksBefore(before: Option<Collapsed>): seq<Link> {
    if before.Some? && before.value.record.Endpoint? then before.value.record.links else []
  }

  /**
   * An account update is accepted if and only if its three texts are there, a disputed account is given its links anew,
   * and the links, given or kept, name each participant once, hold at most one authoritative link, and name usable people.
   */
  lemma AccountUpdateIff(log: seq<Event>, patch: Patch, now: int, id: EventId)
    requires patch.EndpointPatch?
    ensures Update(log, patch, now, id).Ok? <==>
              && patch.platform.Some? && patch.namespace.Some? && patch.sender.Some?
              && var before := Lookup(log, PatchedAccount(patch));
                 && !(before.Some? && before.value.conflicted && patch.links.Missing?) && !patch.links.Bad?
                 && if patch.links.Given? then
                      && (forall i, j :: 0 <= i < j < |Fifty(patch.links.value)| ==>
                            Fifty(patch.links.value)[i].participantId != Fifty(patch.links.value)[j].participantId)
                      && SoundLinks(log, Fifty(patch.links.value))
                    else SoundLinks(log, LinksBefore(before))
    ensures Update(log, patch, now, id).Err? ==> After(log, patch, now, id) == log
  {
    hide Lookup, SoundLinks, CheckLinks;
    if patch.platform.Some? && patch.namespace.Some? && patch.sender.Some? {
      var before := Lookup(log, PatchedAccount(patch));
      var links := if patch.links.Given? then Fifty(patch.links.value) else LinksBefore(before);
      LinksChecked(log, links);
    }
  }

  /** What an accepted account update leaves: each given field as given, each other field as it was, no conflict. */
  lemma AccountUpdateShows(log: seq<Event>, patch: Patch, now: int, id: EventId)
    requires patch.EndpointPatch? && Fresh(log, id) && Update(log, patch, now, id).Ok?
    ensures var before, found := Lookup(log, PatchedAccount(patch)), Lookup(After(log, patch, now, id), PatchedAccount(patch));
            && found.Some? && !found.value.conflicted && found.value.record.Endpoint?
            && var was, r := if before.Some? && before.value.record.Endpoint? then before.value.record
                             else Endpoint("", "", "", "", None, None, [], 0), found.value.record;
               && (After(log, patch, now, id) != log ==> r.updatedAt == now)
               && Some(r.platform) == patch.platform && Some(r.namespace) == patch.namespace && Some(r.sender) == patch.sender
               && Became(r.displayName, patch.displayName, was.displayName)
               && Became(r.isSelf, patch.isSelf, was.isSelf)
               && r.links == if patch.links.Given? then Fifty(patch.links.value) else was.links
  {
    hide Lookup, After, CheckLinks, OneLinkEach;
    UpdateConverges(log, patch, now, id);
    if !Update(log, patch, now, id).value.appended {
      QuietWhenSame(log, patch, now, id);
    }
  }

  /** Two authoritative links, or one to a participant that is not confirmed, are refused, and nothing changes. */
  lemma UnsoundLinksRefused(log: seq<Event>, patch: Patch, now: int, id: EventId)
    requires patch.EndpointPatch? && patch.links.Given?
    requires var links := Fifty(patch.links.value);
             || (exists i, j :: 0 <= i < j < |links| && IsAuthoritative(links[i]) && IsAuthoritative(links[j]))
             || (exists i :: 0 <= i < |links| && IsAuthoritative(links[i])
                             && !MayName(Lookup(log, PersonKey(links[i].participantId)), true))
    ensures Update(log, patch, now, id).Err? && After(log, patch, now, id) == log
  {
    hide Lookup, Update, MayName;
    AccountUpdateIff(log, patch, now, id);
  }

  // ---- Participants ----

  /** A participant update is refused only for a field its parser refuses, or a dispute it does not settle in every field. */
  lemma ParticipantUpdateIff(log: seq<Event>, patch: Patch, now: int, id: EventId)
    requires patch.ParticipantPatch?
    ensures var before := Lookup(log, PersonKey(patch.id));
            Update(log, patch, now, id).Ok? <==>
              && !patch.kind.Bad? && !patch.aliases.Bad? && !patch.habits.Bad? && !patch.status.Bad? && !patch.evidence.Bad?
              && (before.Some? && before.value.conflicted ==>
                    && !patch.kind.Missing? && !patch.displayName.Missing? && !patch.aliases.Missing? && !patch.status.Missing?
                    && !patch.evidence.Missing?)
    ensures Update(log, patch, now, id).Err? ==> After(log, patch, now, id) == log
  {
    hide Lookup, Unique;
  }

  /** What an accepted participant update leaves. */
  lemma ParticipantUpdateShows(log: seq<Event>, patch: Patch, now: int, id: EventId)
    requires patch.ParticipantPatch? && Fresh(log, id) && Update(log, patch, now, id).Ok?
    ensures var before, found := Lookup(log, PersonKey(patch.id)), Lookup(After(log, patch, now, id), PersonKey(patch.id));
            && found.Some? && !found.value.conflicted && found.value.record.Participant?
            && var was, r := if before.Some? && before.value.record.Participant? then before.value.record
                             else Participant(patch.id, UnknownKind, None, [], [], Candidate, [], 0), found.value.record;
               && r.id == patch.id && (After(log, patch, now, id) != log ==> r.updatedAt == now)
               && r.kind == (if patch.kind.Given? && patch.kind.value.Some? then patch.kind.value.value else was.kind)
               && r.status == (if patch.status.Given? && patch.status.value.Some? then patch.status.value.value else was.status)
               && Became(r.displayName, patch.displayName, was.displayName)
               && r.habits == (if patch.habits.Given? then LimitHabits(patch.habits.value) else was.habits)
               && ShownAs(r.aliases, if patch.aliases.Given? then Fifty(Unique(patch.aliases.value)) else was.aliases, Seen(r))
               && ShownAs(r.evidence, if patch.evidence.Given? then Fifty(patch.evidence.value) else was.evidence, Seen(r))
  {
    hide Lookup, After, Unique;
    UpdateConverges(log, patch, now, id);
    if !Update(log, patch, now, id).value.appended {
      QuietWhenSame(log, patch, now, id);
    }
  }

  /** At most 24 speaking habits. */
  function LimitHabits(habits: seq<string>): seq<string> {
    if |habits| > 24 then habits[..24] else habits
  }

  /** So a deliberate update can confirm, correct and retire a participant, and take any of it back. */
  lemma StatusUpdates(log: seq<Event>, person: string, status: Status, now: int, id: EventId)
    requires Fresh(log, id)
    requires Lookup(log, PersonKey(person)).Some? ==> !Lookup(log, PersonKey(person)).value.conflicted
    ensures var patch := ParticipantPatch(person, Missing, Missing, Missing, Missing, Given(Some(status)), Missing);
            var found := Lookup(After(log, patch, now, id), PersonKey(person));
            found.Some? && !found.value.conflicted && found.value.record.Participant? && found.value.record.status == status
  {
    hide Lookup, After, Update, ShownAs;
    var patch := ParticipantPatch(person, Missing, Missing, Missing, Missing, Given(Some(status)), Missing);
    ParticipantUpdateIff(log, patch, now, id);
    ParticipantUpdateShows(log, patch, now, id);
  }

  // ---- Relation cards ----

  /** The card before, or what stands for none. */
  function CardBefore(log: seq<Event>, id: string): Option<Record> {
    var found := Lookup(log, CardKey(id));
    if found.Some? && found.value.record.Card? then Some(found.value.record) else None
  }

  /** A text that is given, or kept when its key is not there. */
  predicate HasValue<T>(field: Field<Option<T>>, kept: bool) {
    if field.Given? then field.value.Some? else kept
  }

  /**
   * A card update is accepted if and only if all its parts are there, given or kept, a dispute is settled in every part,
   * and, unless the card is corrected or retired, its subject and a target that is a participant may be named.
   */
  lemma CardUpdateIff(log: seq<Event>, patch: Patch, now: int, id: EventId)
    requires patch.CardPatch?
    ensures var before, was := Lookup(log, CardKey(patch.id)), CardBefore(log, patch.id);
            Update(log, patch, now, id).Ok? <==>
              && (before.Some? && before.value.conflicted ==>
                    && !patch.subject.Missing? && !patch.targetKind.Missing? && !patch.targetId.Missing? && !patch.relationship.Missing?
                    && !patch.status.Missing? && !patch.scope.Missing? && !patch.evidence.Missing?)
              && HasValue(patch.subject, was.Some?) && HasValue(patch.targetKind, was.Some?) && HasValue(patch.targetId, was.Some?)
              && HasValue(patch.relationship, was.Some?)
              && !patch.targetKind.Bad? && !patch.status.Bad? && !patch.scope.Bad? && !patch.evidence.Bad?
              && var status := if patch.status.Given? && patch.status.value.Some? then patch.status.value.value
                               else if was.Some? then was.value.status else Candidate;
                 var subject := if patch.subject.Given? then patch.subject.value.value else was.value.subject;
                 var targetKind := if patch.targetKind.Given? then patch.targetKind.value.value else was.value.targetKind;
                 var targetId := if patch.targetId.Given? then patch.targetId.value.value else was.value.targetId;
                 (status == Candidate || status == Confirmed ==>
                    && MayName(Lookup(log, PersonKey(subject)), false)
                    && (targetKind == ParticipantTarget ==> MayName(Lookup(log, PersonKey(targetId)), false)))
    ensures Update(log, patch, now, id).Err? ==> After(log, patch, now, id) == log
  {
    hide Lookup;
  }

  /** Each part of this card is the one given, or the one before. */
  predicate CardAsGiven(r: Record, patch: Patch, was: Option<Record>)
    requires patch.CardPatch? && (was.Some? ==> was.value.Card?)
    requires HasValue(patch.subject, was.Some?) && HasValue(patch.targetKind, was.Some?) && HasValue(patch.targetId, was.Some?)
    requires HasValue(patch.relationship, was.Some?)
  {
    && r.Card? && r.id == patch.id
    && Some(r.subject) == (if patch.subject.Given? then patch.subject.value else Some(was.value.subject))
    && Some(r.targetKind) == (if patch.targetKind.Given? then patch.targetKind.value else Some(was.value.targetKind))
    && Some(r.targetId) == (if patch.targetId.Given? then patch.targetId.value else Some(was.value.targetId))
    && Some(r.relationship) == (if patch.relationship.Given? then patch.relationship.value else Some(was.value.relationship))
    && r.status == (if patch.status.Given? && patch.status.value.Some? then patch.status.value.value
                    else if was.Some? then was.value.status else Candidate)
    && r.scope == (if patch.scope.Given? then patch.scope.value else if was.Some? then was.value.scope else Scope([], []))
    && r.evidence == if patch.evidence.Given? then Fifty(patch.evidence.value) else if was.Some? then was.value.evidence else []
  }

  lemma UpdatedLike(log: seq<Event>, patch: Patch, now: int, id: EventId)
    requires Update(log, patch, now, id).Ok?
    ensures var next, updated := NextRecord(log, patch, now), Update(log, patch, now, id).value;
            && next.Ok? && WithoutTime(updated.record) == WithoutTime(next.value) && (updated.appended ==> updated.record == next.value)
  {
    hide NextRecord, Lookup;
  }

  lemma NextCardIs(log: seq<Event>, patch: Patch, now: int)
    requires patch.CardPatch? && NextRecord(log, patch, now).Ok?
    requires var was := CardBefore(log, patch.id);
             && HasValue(patch.subject, was.Some?) && HasValue(patch.targetKind, was.Some?) && HasValue(patch.targetId, was.Some?)
             && HasValue(patch.relationship, was.Some?)
    ensures CardAsGiven(NextRecord(log, patch, now).value, patch, CardBefore(log, patch.id)) && NextRecord(log, patch, now).value.updatedAt == now
  {
    hide Lookup, CurrentParticipant;
  }

  lemma SameCard(a: Record, b: Record, patch: Patch, was: Option<Record>)
    requires patch.CardPatch? && (was.Some? ==> was.value.Card?)
    requires HasValue(patch.subject, was.Some?) && HasValue(patch.targetKind, was.Some?) && HasValue(patch.targetId, was.Some?)
    requires HasValue(patch.relationship, was.Some?)
    requires CardAsGiven(a, patch, was) && WithoutTime(a) == WithoutTime(b)
    ensures CardAsGiven(b, patch, was)
  {
  }

  /** What an accepted card update leaves. */
  lemma CardUpdateShows(log: seq<Event>, patch: Patch, now: int, id: EventId)
    requires patch.CardPatch? && Fresh(log, id) && Update(log, patch, now, id).Ok?
    ensures var was, found := CardBefore(log, patch.id), Lookup(After(log, patch, now, id), CardKey(patch.id));
            && HasValue(patch.subject, was.Some?) && HasValue(patch.targetKind, was.Some?) && HasValue(patch.targetId, was.Some?)
            && HasValue(patch.relationship, was.Some?)
            && found.Some? && !found.value.conflicted && CardAsGiven(found.value.record, patch, was)
            && (After(log, patch, now, id) != log ==> found.value.record.updatedAt == now)
  {
    hide Lookup, After, Update, NextRecord, CardAsGiven, WithoutTime;
    CardUpdateIff(log, patch, now, id);
    UpdateConverges(log, patch, now, id);
    UpdatedKind(log, patch, now, id);
    UpdatedLike(log, patch, now, id);
    NextCardIs(log, patch, now);
    SameCard(NextRecord(log, patch, now).value, Update(log, patch, now, id).value.record, patch, CardBefore(log, patch.id));
    if !Update(log, patch, now, id).value.appended {
      QuietWhenSame(log, patch, now, id);
    }
  }

  // ---- Updates that change nothing ----

  /** An accepted update that gives nothing, on an undisputed record that shows no lent name, appends nothing. */
  lemma EmptyUpdateIsQuiet(log: seq<Event>, patch: Patch, now: int, id: EventId)
    requires match patch
             case EndpointPatch(platform, namespace, sender, name, isSelf, links) => name.Missing? && isSelf.Missing? && links.Missing?
             case ParticipantPatch(_, kind, name, aliases, habits, status, evidence) =>
               && kind.Missing? && name.Missing? && aliases.Missing? && habits.Missing? && status.Missing? && evidence.Missing?
             case CardPatch(_, subject, targetKind, targetId, relationship, status, scope, evidence) =>
               && subject.Missing? && targetKind.Missing? && targetId.Missing? && relationship.Missing? && status.Missing?
               && scope.Missing? && evidence.Missing?
    requires Update(log, patch, now, id).Ok?
    requires var before := Lookup(log, KeyOf(Update(log, patch, now, id).value.record));
             before.Some? && !before.value.conflicted && !before.value.nameLent
    requires patch.EndpointPatch? ==>
               var r := Lookup(log, KeyOf(Update(log, patch, now, id).value.record)).value.record;
               r.Endpoint? && Some(r.platform) == patch.platform && Some(r.namespace) == patch.namespace && Some(r.sender) == patch.sender
    ensures After(log, patch, now, id) == log
  {
    hide Lookup, After, CheckLinks, OneLinkEach, Unique, CurrentParticipant;
    LookupIsKeyed(log, KeyOf(NextRecord(log, patch, now).value));
    QuietWhenSame(log, patch, now, id);
  }

  /** A record that is disputed, or shows a lent name, is written again even when nothing in it changes. */
  lemma UnsettledIsWritten(log: seq<Event>, patch: Patch, now: int, id: EventId)
    requires Update(log, patch, now, id).Ok?
    requires var before := Lookup(log, KeyOf(Update(log, patch, now, id).value.record));
             before == None || before.value.conflicted || before.value.nameLent
    ensures Update(log, patch, now, id).value.appended
    ensures var later := After(log, patch, now, id);
            |later| == |log| + 1 && later[..|log|] == log && later[|log|].id == id
            && later[|log|].record == Update(log, patch, now, id).value.record
  {
    hide Lookup, NextRecord;
    LookupIsKeyed(log, KeyOf(NextRecord(log, patch, now).value));
  }

  lemma QuietWhenSame(log: seq<Event>, patch: Patch, now: int, id: EventId)
    requires Update(log, patch, now, id).Ok? && !Update(log, patch, now, id).value.appended
    ensures After(log, patch, now, id) == log
  {
    hide Update;
  }

  // ---- Identifiers ----

  lemma SeparatorAt(a: string, x: string)
    requires '\0' !in a
    ensures var all := a + "\0" + x;
            all[|a|] == '\0' && all[..|a|] == a && all[|a| + 1..] == x && forall i :: 0 <= i < |a| ==> all[i] != '\0'
  {
    var all := a + "\0" + x;
    assert forall i :: 0 <= i < |a| ==> all[i] == a[i] && a[i] in a;
  }

  lemma FirstSeparator(a: string, b: string, x: string, y: string)
    requires '\0' !in a && '\0' !in b && a + "\0" + x == b + "\0" + y
    ensures a == b && x == y
  {
    SeparatorAt(a, x);
    SeparatorAt(b, y);
  }

  /** Different accounts have different ids, and so have the participants named after them, as long as no text holds a zero. */
  lemma AccountsHaveOwnIds(platform: string, namespace: string, sender: string, platform': string, namespace': string, sender': string)
    requires '\0' !in platform && '\0' !in namespace && '\0' !in platform' && '\0' !in namespace'
    requires || AccountId(platform, namespace, sender) == AccountId(platform', namespace', sender')
             || ObservedParticipantId(platform, namespace, sender) == ObservedParticipantId(platform', namespace', sender')
    ensures platform == platform' && namespace == namespace' && sender == sender'
  {
    if AccountId(platform, namespace, sender) == AccountId(platform', namespace', sender') {
      TextsOfId("identity-account-", platform, namespace, sender, platform', namespace', sender');
    } else {
      TextsOfId(OBSERVED_PREFIX, platform, namespace, sender, platform', namespace', sender');
    }
  }

  lemma TextsOfId(prefix: string, a: string, b: string, c: string, a': string, b': string, c': string)
    requires '\0' !in a && '\0' !in b && '\0' !in a' && '\0' !in b'
    requires prefix + a + "\0" + b + "\0" + c == prefix + a' + "\0" + b' + "\0" + c'
    ensures a == a' && b == b' && c == c'
  {
    IdSplits(prefix, a, b, c);
    IdSplits(prefix, a', b', c');
    SamePrefix(prefix, a + "\0" + (b + "\0" + c), a' + "\0" + (b' + "\0" + c'));
    FirstSeparator(a, a', b + "\0" + c, b' + "\0" + c');
    FirstSeparator(b, b', c, c');
  }

  lemma IdSplits(prefix: string, a: string, b: string, c: string)
    ensures prefix + a + "\0" + b + "\0" + c == prefix + (a + "\0" + (b + "\0" + c))
  {
  }

  lemma SamePrefix(prefix: string, x: string, y: string)
    ensures prefix + x == prefix + y ==> x == y
  {
    assert (prefix + x)[|prefix|..] == x && (prefix + y)[|prefix|..] == y;
  }

  // ---- Observing an account that is known ----

  /** An account that is disputed, the persona's own, confirmed for someone or ambiguous is left alone. */
  lemma ObservationLeavesAlone(log: seq<Event>, account: Account, drawn: Drawn)
    requires |drawn.ids| == 2
    requires account.platform.Some? && account.namespace.Some? && account.sender.Some?
    requires var found := AccountOf(log, AccountId(account.platform.value, account.namespace.value, account.sender.value));
             && found.Some? && found.value.record.Endpoint?
             && (|| found.value.conflicted || found.value.record.isSelf == Some(true)
                 || (exists i :: 0 <= i < |found.value.record.links| && IsAuthoritative(found.value.record.links[i]))
                 || (exists i, j :: 0 <= i < j < |found.value.record.links|
                                    && found.value.record.links[i].status == Candidate && found.value.record.links[j].status == Candidate))
    ensures ObserveEndpoint(log, account, drawn) == Learned(log, None)
  {
    hide Lookup, Update, After, ObserveParticipant;
    var found := AccountOf(log, AccountId(account.platform.value, account.namespace.value, account.sender.value));
    var links := found.value.record.links;
    AtMostOneAuthoritative(links);
    if i, j :| 0 <= i < j < |links| && links[i].status == Candidate && links[j].status == Candidate {
      TwoCandidates(links, i, j);
    }
  }

  lemma {:induction false} CandidatesAre(links: seq<Link>)
    ensures forall link :: link in CandidateLinks(links) <==> link in links && link.status == Candidate
  {
    if links != [] {
      assert links == [links[0]] + links[1..];
      CandidatesAre(links[1..]);
    }
  }

  /** Two candidate links are two in the list of candidates. */
  lemma {:induction false} TwoCandidates(links: seq<Link>, i: nat, j: nat)
    requires i < j < |links| && links[i].status == Candidate && links[j].status == Candidate
    ensures |CandidateLinks(links)| > 1
  {
    if i == 0 {
      CandidatesAre(links[1..]);
      assert links[1..][j - 1] in links[1..];
      assert links[j] in CandidateLinks(links[1..]);
    } else {
      TwoCandidates(links[1..], i - 1, j - 1);
    }
  }

  /** An undisputed account of someone else with one candidate link. */
  ghost predicate LearnsAbout(found: Option<Collapsed>, link: Link) {
    && found.Some? && found.value.record.Endpoint? && !found.value.conflicted && found.value.record.isSelf != Some(true)
    && AuthoritativeLinks(found.value.record.links) == [] && CandidateLinks(found.value.record.links) == [link]
  }

  /**
   * Seeing such an account again never fails: its candidate stays one and learns the name as an alias, and the account
   * takes the name and keeps its links.
   */
  lemma ObservationTeaches(log: seq<Event>, account: Account, drawn: Drawn, link: Link, was: Record)
    requires |drawn.ids| == 2 && FreshIds(log, drawn.ids)
    requires account.platform.Some? && account.namespace.Some? && account.sender.Some?
    requires LearnsAbout(AccountOf(log, AccountId(account.platform.value, account.namespace.value, account.sender.value)), link)
    requires was.Participant? && was.status == Candidate && Lookup(log, PersonKey(link.participantId)).Some?
    requires var person := Lookup(log, PersonKey(link.participantId)).value; person.record == was && !person.conflicted
    requires var links := LinksOf(AccountOf(log, AccountId(account.platform.value, account.namespace.value, account.sender.value)));
             OneLinkEach(Fifty(links)) && link in Fifty(links)
    ensures var before := AccountOf(log, AccountId(account.platform.value, account.namespace.value, account.sender.value));
            var result := ObserveEndpoint(log, account, drawn);
            var found := AccountOf(result.log, AccountId(account.platform.value, account.namespace.value, account.sender.value));
            var person := Lookup(result.log, PersonKey(link.participantId));
            && result.error == None
            && found.Some? && !found.value.conflicted && found.value.record.Endpoint? && found.value.record.links == Fifty(LinksOf(before))
            && found.value.record.displayName == (if account.name.Some? then account.name else before.value.record.displayName)
            && found.value.record.isSelf == before.value.record.isSelf
            && person.Some? && !person.value.conflicted && person.value.record.Participant?
            && person.value.record.status == Candidate && person.value.record.kind == was.kind
            && person.value.record.displayName == (if was.displayName.Some? then was.displayName else account.name)
            && ShownAs(person.value.record.aliases,
                       Fifty(Unique(Fifty(Unique(was.aliases + if account.name.Some? then [account.name.value] else [])))),
                       Seen(person.value.record))
            && var seen := [Evidence(None, "first seen: " + account.platform.value + "/" + account.namespace.value + "/" + account.sender.value)];
               ShownAs(person.value.record.evidence, Newest(was.evidence + seen), Seen(person.value.record))
  {
    hide Lookup, Update, After, FreshIds, AccountObservation, ParticipantObservation, CandidateLinks, AuthoritativeLinks, ShownAs, Unique;
    var key := AccountId(account.platform.value, account.namespace.value, account.sender.value);
    var before := AccountOf(log, key);
    var seen := FirstSeen(account.platform.value, account.namespace.value, account.sender.value);
    var middle := ObserveParticipant(log, link.participantId, account.name, seen, drawn);
    PersonTaught(log, link.participantId, was, account.name, seen, drawn);
    assert AccountOf(middle.log, key) == before;
    AccountTaught(middle.log, account, before, link, seen, drawn);
  }

  /** An observation of an account that links someone twice fails, and leaves the account as it was. */
  lemma UnsoundLinksFail(log: seq<Event>, account: Account, drawn: Drawn, link: Link, was: Record)
    requires |drawn.ids| == 2 && FreshIds(log, drawn.ids)
    requires account.platform.Some? && account.namespace.Some? && account.sender.Some?
    requires LearnsAbout(AccountOf(log, AccountId(account.platform.value, account.namespace.value, account.sender.value)), link)
    requires was.Participant? && was.status == Candidate && Lookup(log, PersonKey(link.participantId)).Some?
    requires var person := Lookup(log, PersonKey(link.participantId)).value; person.record == was && !person.conflicted
    requires var links := LinksOf(AccountOf(log, AccountId(account.platform.value, account.namespace.value, account.sender.value)));
             !OneLinkEach(Fifty(links))
    ensures var key := AccountKey(AccountId(account.platform.value, account.namespace.value, account.sender.value));
            var result := ObserveEndpoint(log, account, drawn);
            result.error.Some? && Lookup(result.log, key) == Lookup(log, key)
  {
    hide Lookup, Update, After, FreshIds, AccountObservation, ParticipantObservation, CandidateLinks, AuthoritativeLinks, ShownAs, Unique;
    var key := AccountId(account.platform.value, account.namespace.value, account.sender.value);
    var before := AccountOf(log, key);
    var seen := FirstSeen(account.platform.value, account.namespace.value, account.sender.value);
    var middle := ObserveParticipant(log, link.participantId, account.name, seen, drawn);
    PersonTaught(log, link.participantId, was, account.name, seen, drawn);
    assert AccountOf(middle.log, key) == before;
    var patch := AccountObservation(account, before, link.participantId, seen);
    ObservedLinks(account, before, link, seen);
    AccountUpdateIff(middle.log, patch, drawn.now, drawn.ids[1]);
  }

  lemma ObservedLinks(account: Account, before: Option<Collapsed>, link: Link, seen: seq<Evidence>)
    requires LearnsAbout(before, link)
    ensures var patch := AccountObservation(account, before, link.participantId, seen);
            patch.EndpointPatch? && patch.links == Given(LinksOf(before))
  {
    CandidateIsLinked(LinksOf(before), link);
  }

  lemma PersonTaught(log: seq<Event>, person: string, was: Record, name: Option<string>, seen: seq<Evidence>, drawn: Drawn)
    requires |drawn.ids| == 2 && FreshIds(log, drawn.ids)
    requires was.Participant? && was.status == Candidate && Lookup(log, PersonKey(person)).Some?
    requires Lookup(log, PersonKey(person)).value.record == was && !Lookup(log, PersonKey(person)).value.conflicted
    ensures var result := ObserveParticipant(log, person, name, seen, drawn);
            var found := Lookup(result.log, PersonKey(person));
            && result.error == None && Fresh(result.log, drawn.ids[1])
            && found.Some? && !found.value.conflicted && found.value.record.Participant?
            && found.value.record.status == Candidate && found.value.record.kind == was.kind
            && found.value.record.displayName == (if was.displayName.Some? then was.displayName else name)
            && ShownAs(found.value.record.aliases, Fifty(Unique(Fifty(Unique(was.aliases + if name.Some? then [name.value] else [])))),
                       Seen(found.value.record))
            && ShownAs(found.value.record.evidence, Newest(was.evidence + seen), Seen(found.value.record))
            && forall key: RecordKey :: key.kind == EndpointKind ==> Lookup(result.log, key) == Lookup(log, key)
  {
    hide Lookup, Update, After, ShownAs, Unique;
    NewestAreFew(was.evidence + seen);
    var patch := ParticipantObservation(log, person, name, seen);
    ParticipantUpdateIff(log, patch, drawn.now, drawn.ids[0]);
    ParticipantUpdateShows(log, patch, drawn.now, drawn.ids[0]);
    RestStaysFresh(log, drawn.ids, patch, drawn.now);
    assert drawn.ids[1..][0] == drawn.ids[1];
    UpdatedKind(log, patch, drawn.now, drawn.ids[0]);
    forall key: RecordKey | key.kind == EndpointKind
      ensures Lookup(After(log, patch, drawn.now, drawn.ids[0]), key) == Lookup(log, key)
    {
      UpdateKeepsOthers(log, patch, drawn.now, drawn.ids[0], key);
    }
  }

  /** An update is about a record of its patch's kind. */
  lemma UpdatedKind(log: seq<Event>, patch: Patch, now: int, id: EventId)
    requires Update(log, patch, now, id).Ok?
    ensures KeyOf(Update(log, patch, now, id).value.record).kind
         == match patch case EndpointPatch(_, _, _, _, _, _) => EndpointKind case ParticipantPatch(_, _, _, _, _, _, _) => PersonKind
            case CardPatch(_, _, _, _, _, _, _, _) => CardKind
    ensures !patch.EndpointPatch? ==> KeyOf(Update(log, patch, now, id).value.record).id == patch.id
  {
    hide Lookup, CheckLinks, OneLinkEach, Unique, CurrentParticipant;
    LookupIsKeyed(log, KeyOf(NextRecord(log, patch, now).value));
  }

  lemma AccountTaught(log: seq<Event>, account: Account, before: Option<Collapsed>, link: Link, seen: seq<Evidence>, drawn: Drawn)
    requires |drawn.ids| == 2 && Fresh(log, drawn.ids[1])
    requires account.platform.Some? && account.namespace.Some? && account.sender.Some?
    requires AccountOf(log, AccountId(account.platform.value, account.namespace.value, account.sender.value)) == before
    requires LearnsAbout(before, link) && OneLinkEach(Fifty(LinksOf(before)))
    requires var person := Lookup(log, PersonKey(link.participantId));
             person.Some? && !person.value.conflicted && person.value.record.Participant? && person.value.record.status == Candidate
    ensures var patch := AccountObservation(account, before, link.participantId, seen);
            var later := After(log, patch, drawn.now, drawn.ids[1]);
            var found := AccountOf(later, AccountId(account.platform.value, account.namespace.value, account.sender.value));
            && Update(log, patch, drawn.now, drawn.ids[1]).Ok?
            && found.Some? && !found.value.conflicted && found.value.record.Endpoint? && found.value.record.links == Fifty(LinksOf(before))
            && found.value.record.displayName == (if account.name.Some? then account.name else before.value.record.displayName)
            && found.value.record.isSelf == before.value.record.isSelf
            && Lookup(later, PersonKey(link.participantId)) == Lookup(log, PersonKey(link.participantId))
  {
    hide Lookup, Update, After, SoundLinks;
    var patch := AccountObservation(account, before, link.participantId, seen);
    var links := LinksOf(before);
    assert link in CandidateLinks(links);
    CandidatesAre(links);
    assert patch.links == Given(links) by {
      CandidateIsLinked(links, link);
    }
    assert SoundLinks(log, Fifty(links)) by {
      OnlyCandidateSound(log, links, link);
    }
    AccountUpdateIff(log, patch, drawn.now, drawn.ids[1]);
    AccountUpdateShows(log, patch, drawn.now, drawn.ids[1]);
    UpdatedKind(log, patch, drawn.now, drawn.ids[1]);
    UpdateKeepsOthers(log, patch, drawn.now, drawn.ids[1], PersonKey(link.participantId));
  }

  lemma CandidateIsLinked(links: seq<Link>, link: Link)
    requires CandidateLinks(links) == [link]
    ensures Links(CandidateLinks(links), link.participantId)
  {
    assert CandidateLinks(links)[0].participantId == link.participantId;
  }

  lemma OnlyCandidateSound(log: seq<Event>, links: seq<Link>, link: Link)
    requires AuthoritativeLinks(links) == [] && CandidateLinks(links) == [link]
    requires MayName(Lookup(log, PersonKey(link.participantId)), false)
    ensures SoundLinks(log, Fifty(links))
  {
    hide Lookup, MayName;
    AtMostOneAuthoritative(links);
    CandidatesAre(links);
    forall i | 0 <= i < |Fifty(links)| && Fifty(links)[i].status != Retired
      ensures Fifty(links)[i] == link
    {
      assert links[i] in links && links[i] in CandidateLinks(links);
    }
  }

  // ---- Recording clues ----

  /** Exactly when clues are accepted. */
  lemma CluesAcceptedIff(log: seq<Event>, account: Account, clues: Clues)
    ensures CluesAccepted(log, account, clues).Ok? <==>
              && account.platform.Some? && account.namespace.Some? && account.sender.Some?
              && var found := AccountOf(log, AccountId(account.platform.value, account.namespace.value, account.sender.value));
                 && found.Some? && !found.value.conflicted && !IsSelf(found)
                 && (forall i :: 0 <= i < |LinksOf(found)| ==> !IsAuthoritative(LinksOf(found)[i]))
                 && (exists link :: MeansLink(LinksOf(found), clues.participant, link)
                                    && Lookup(log, PersonKey(link.participantId)).Some?
                                    && Lookup(log, PersonKey(link.participantId)).value.record.Participant?
                                    && !Lookup(log, PersonKey(link.participantId)).value.conflicted
                                    && Lookup(log, PersonKey(link.participantId)).value.record.status == Candidate)
                 && (exists i :: 0 <= i < |Fifty(clues.evidence)| && Fifty(clues.evidence)[i].messageId.Some?)
                 && forall i :: 0 <= i < |Fifty(clues.relations)| ==>
                      var card := Lookup(log, CardKey(Fifty(clues.relations)[i].id));
                      card.Some? ==> !card.value.conflicted && card.value.record.Card? && card.value.record.status == Candidate
  {
    hide Lookup, AuthoritativeLinks, ChosenLink, MeansLink;
    if account.platform.Some? && account.namespace.Some? && account.sender.Some? {
      var found := AccountOf(log, AccountId(account.platform.value, account.namespace.value, account.sender.value));
      AtMostOneAuthoritative(LinksOf(found));
      ChosenIs(LinksOf(found), clues.participant);
      CardsLearnable(log, Fifty(clues.relations));
      var link := ChosenLink(LinksOf(found), clues.participant);
      if link.Some? {
        assert MeansLink(LinksOf(found), clues.participant, link.value);
      }
      assert forall l :: MeansLink(LinksOf(found), clues.participant, l) ==> link == Some(l);
      assert FirstN(clues.evidence, MAX_LIST) == Fifty(clues.evidence) && FirstN(clues.relations, MAX_LIST) == Fifty(clues.relations);
      MessageIs(Fifty(clues.evidence));
    }
  }

  lemma MessageIs(evidence: seq<Evidence>)
    ensures HasMessage(evidence) <==> exists i :: 0 <= i < |evidence| && evidence[i].messageId.Some?
  {
  }

  lemma CardsLearnable(log: seq<Event>, relations: seq<RelationClue>)
    ensures AllLearnable(log, relations) <==>
              forall i :: 0 <= i < |relations| ==>
                var card := Lookup(log, CardKey(relations[i].id));
                card.Some? ==> !card.value.conflicted && card.value.record.Card? && card.value.record.status == Candidate
  {
    hide Lookup;
    forall i | 0 <= i < |relations|
      ensures Lookup(log, CardKey(relations[i].id)).Some? ==> Lookup(log, CardKey(relations[i].id)).value.record.Card?
    {
      LookupIsKeyed(log, CardKey(relations[i].id));
    }
  }

  /** The link clues mean: the first candidate link to the participant asked for, or the only candidate link. */
  ghost predicate MeansLink(links: seq<Link>, requested: Option<string>, link: Link) {
    if requested == None then CandidateLinks(links) == [link]
    else exists i :: 0 <= i < |CandidateLinks(links)| && CandidateLinks(links)[i] == link && link.participantId == requested.value
                     && forall j :: 0 <= j < i ==> CandidateLinks(links)[j].participantId != requested.value
  }

  lemma ChosenIs(links: seq<Link>, requested: Option<string>)
    ensures forall link :: ChosenLink(links, requested) == Some(link) <==> MeansLink(links, requested, link)
  {
    if requested.Some? {
      FoundIsFirst(CandidateLinks(links), requested.value);
    }
  }

  lemma {:induction false} FoundIsFirst(links: seq<Link>, participant: string)
    ensures match FindLink(links, participant)
            case None => forall i :: 0 <= i < |links| ==> links[i].participantId != participant
            case Some(link) =>
              exists i :: 0 <= i < |links| && links[i] == link && link.participantId == participant
                          && forall j :: 0 <= j < i ==> links[j].participantId != participant
  {
    if links != [] && links[0].participantId != participant {
      FoundIsFirst(links[1..], participant);
      if i :| FindLink(links, participant).Some? && 0 <= i < |links[1..]| && links[1..][i] == FindLink(links, participant).value
              && forall j :: 0 <= j < i ==> links[1..][j].participantId != participant {
        assert links[i + 1] == links[1..][i];
        forall j | 0 <= j < i + 1
          ensures links[j].participantId != participant
        {
          assert j > 0 ==> links[j] == links[1..][j - 1];
        }
      }
    }
  }

  /** Recording cards leaves every record alone that is not one of these cards. */
  lemma {:induction false} CardsLeaveOthers(first: seq<Event>, log: seq<Event>, subject: string, clues: Clues,
                                            relations: seq<RelationClue>, now: int, ids: seq<EventId>, key: RecordKey)
    requires |ids| == |relations| && forall i :: 0 <= i < |relations| ==> key != CardKey(relations[i].id)
    ensures Lookup(RecordCards(first, log, subject, clues, relations, now, ids).log, key) == Lookup(log, key)
    decreases |relations|
  {
    hide Lookup, Update, After;
    if relations != [] {
      var patch := CardClue(subject, relations[0], KnownEvidence(first, relations[0].id), clues.evidence);
      if Update(log, patch, now, ids[0]).Ok? {
        UpdatedKind(log, patch, now, ids[0]);
        UpdateKeepsOthers(log, patch, now, ids[0], key);
        CardsLeaveOthers(first, After(log, patch, now, ids[0]), subject, clues, relations[1..], now, ids[1..], key);
      }
    }
  }

  /** This card holds the clue, as a candidate about the subject, with the evidence it had and all that was given. */
  ghost predicate HoldsClue(found: Option<Collapsed>, subject: string, clue: RelationClue, known: seq<Evidence>, more: seq<Evidence>) {
    && found.Some? && !found.value.conflicted && found.value.record.Card? && found.value.record.status == Candidate
    && found.value.record.subject == subject && found.value.record.targetKind == clue.targetKind
    && found.value.record.targetId == clue.targetId && found.value.record.relationship == clue.relationship
    && found.value.record.scope == clue.scope
    && found.value.record.evidence == Newest(known + Fifty(clue.evidence) + Fifty(more))
  }

  /** The evidence of a card before. */
  function EvidenceOf(found: Option<Collapsed>): seq<Evidence> {
    if found.Some? && found.value.record.Card? then found.value.record.evidence else []
  }

  lemma {:induction false} CardsShow(first: seq<Event>, log: seq<Event>, subject: string, clues: Clues,
                                     relations: seq<RelationClue>, now: int, ids: seq<EventId>, i: nat)
    requires |ids| == |relations| && FreshIds(log, ids) && i < |relations|
    requires RecordCards(first, log, subject, clues, relations, now, ids).error == None
    requires forall j :: i < j < |relations| ==> relations[j].id != relations[i].id
    ensures HoldsClue(Lookup(RecordCards(first, log, subject, clues, relations, now, ids).log, CardKey(relations[i].id)), subject, relations[i],
                      EvidenceOf(Lookup(first, CardKey(relations[i].id))), clues.evidence)
    decreases |relations|
  {
    hide Lookup, Update, After, FreshIds;
    var patch := CardClue(subject, relations[0], KnownEvidence(first, relations[0].id), clues.evidence);
    var next := After(log, patch, now, ids[0]);
    RestStaysFresh(log, ids, patch, now);
    if i == 0 {
      CardShows(log, patch, now, ids, subject, relations[0], EvidenceOf(Lookup(first, CardKey(relations[0].id))), clues.evidence);
      CardsLeaveOthers(first, next, subject, clues, relations[1..], now, ids[1..], CardKey(relations[0].id));
    } else {
      CardsShow(first, next, subject, clues, relations[1..], now, ids[1..], i - 1);
    }
  }

  lemma CardShows(log: seq<Event>, patch: Patch, now: int, ids: seq<EventId>, subject: string, clue: RelationClue,
                  known: seq<Evidence>, more: seq<Evidence>)
    requires ids != [] && FreshIds(log, ids) && Update(log, patch, now, ids[0]).Ok? && patch.CardPatch? && patch.id == clue.id
    requires patch.subject == Given(Some(subject)) && patch.targetKind == Given(Some(clue.targetKind))
    requires patch.targetId == Given(Some(clue.targetId)) && patch.relationship == Given(Some(clue.relationship))
    requires patch.status == Given(Some(Candidate)) && patch.scope == Given(clue.scope)
    requires patch.evidence == Given(Newest(known + Fifty(clue.evidence) + Fifty(more)))
    ensures HoldsClue(Lookup(After(log, patch, now, ids[0]), CardKey(clue.id)), subject, clue, known, more)
  {
    hide Lookup, Update, After, Newest;
    NewestAreFew(known + Fifty(clue.evidence) + Fifty(more));
    CardUpdateShows(log, patch, now, ids[0]);
  }

  ghost predicate LastOfItsId(relations: seq<RelationClue>, i: nat)
    requires i < |relations|
  {
    forall j :: i < j < |relations| ==> relations[j].id != relations[i].id
  }

  /**
   * What recorded clues leave, when no step failed: the candidate with the kind and name given or kept, all its
   * aliases and evidence, still a candidate, and for every relation, unless a later one has the same id, a candidate card about it.
   */
  lemma CluesTeach(log: seq<Event>, account: Account, clues: Clues, drawn: Drawn)
    requires EnoughIds(clues, drawn) && FreshIds(log, drawn.ids)
    requires CluesAccepted(log, account, clues).Ok? && RecordClues(log, account, clues, drawn).error == None
    ensures var was, after := CluesAccepted(log, account, clues).value, RecordClues(log, account, clues, drawn).log;
            var person := Lookup(after, PersonKey(was.id));
            && person.Some? && !person.value.conflicted && person.value.record.Participant? && person.value.record.status == Candidate
            && person.value.record.kind == (if clues.kind.Some? then clues.kind.value else was.kind)
            && person.value.record.displayName == (if clues.name.Some? then clues.name else was.displayName)
            && (var name := if clues.name.Some? then clues.name else was.displayName;
                ShownAs(person.value.record.aliases,
                        Fifty(Unique(Fifty(Unique(was.aliases + clues.aliases + if name.Some? then [name.value] else [])))),
                        Seen(person.value.record)))
            && ShownAs(person.value.record.evidence, Newest(was.evidence + Fifty(clues.evidence)), Seen(person.value.record))
            && forall i :: 0 <= i < |Fifty(clues.relations)| && LastOfItsId(Fifty(clues.relations), i) ==>
                 HoldsClue(Lookup(after, CardKey(Fifty(clues.relations)[i].id)), was.id, Fifty(clues.relations)[i],
                           EvidenceOf(Lookup(log, CardKey(Fifty(clues.relations)[i].id))), clues.evidence)
  {
    hide Lookup, Update, After, FreshIds, CluesAccepted, RecordCards, HoldsClue, Learnable, AllLearnable, ShownAs, Unique;
    var was := CluesAccepted(log, account, clues).value;
    var patch := ParticipantClues(was, clues);
    var relations := Fifty(clues.relations);
    assert FirstN(clues.relations, MAX_LIST) == relations;
    var next := After(log, patch, drawn.now, drawn.ids[0]);
    var cards := RecordCards(log, next, was.id, clues, relations, drawn.now, drawn.ids[1..]);
    assert RecordClues(log, account, clues, drawn) == cards;
    RestStaysFresh(log, drawn.ids, patch, drawn.now);
    NewestAreFew(was.evidence + Fifty(clues.evidence));
    PersonLearned(log, patch, drawn, was);
    CardsLeaveOthers(log, next, was.id, clues, relations, drawn.now, drawn.ids[1..], PersonKey(was.id));
    forall i | 0 <= i < |relations| && LastOfItsId(relations, i)
      ensures HoldsClue(Lookup(cards.log, CardKey(relations[i].id)), was.id, relations[i],
                        EvidenceOf(Lookup(log, CardKey(relations[i].id))), clues.evidence)
    {
      CardsShow(log, next, was.id, clues, relations, drawn.now, drawn.ids[1..], i);
    }
  }

  lemma PersonLearned(log: seq<Event>, patch: Patch, drawn: Drawn, was: Record)
    requires drawn.ids != [] && FreshIds(log, drawn.ids) && was.Participant?
    requires patch.ParticipantPatch? && patch.id == was.id && patch.kind.Given? && patch.kind.value.Some? && patch.displayName.Given?
    requires patch.status == Given(Some(Candidate)) && patch.aliases.Given? && patch.evidence.Given?
    requires Update(log, patch, drawn.now, drawn.ids[0]).Ok?
    ensures var person := Lookup(After(log, patch, drawn.now, drawn.ids[0]), PersonKey(was.id));
            && person.Some? && !person.value.conflicted && person.value.record.Participant? && person.value.record.status == Candidate
            && Some(person.value.record.kind) == patch.kind.value && person.value.record.displayName == patch.displayName.value
            && ShownAs(person.value.record.aliases, Fifty(Unique(patch.aliases.value)), Seen(person.value.record))
            && ShownAs(person.value.record.evidence, Fifty(patch.evidence.value), Seen(person.value.record))
  {
    hide Lookup, Update, After, ShownAs;
    ParticipantUpdateShows(log, patch, drawn.now, drawn.ids[0]);
  }
}
