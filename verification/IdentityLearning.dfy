/**
 * Changing the identity log: deliberate updates, and what the gateway learns on its own.
 *
 * A deliberate update may confirm or correct.  Learning only ever appends candidates, and no run of it changes who is
 * confirmed.  A patch holds the fields as parsed; account ids stand for the text their digest is taken of.
 */
module IdentityLearning {
  import opened Common
  import opened IdentityEvents
  import opened Ordering

  const MAX_HABITS := 24

  // ---- Patches ----

  /** A field of a patch: its key is not there, its parser throws, or it has a value. */
  datatype Field<+T> = Missing | Bad | Given(value: T)

  datatype Patch =
    | EndpointPatch(platform: Option<string>, namespace: Option<string>, sender: Option<string>,
                    displayName: Field<Option<string>>, isSelf: Field<Option<bool>>, links: Field<seq<Link>>)
    | ParticipantPatch(id: string, kind: Field<Option<ParticipantKind>>, displayName: Field<Option<string>>,
                       aliases: Field<seq<string>>, habits: Field<seq<string>>, status: Field<Option<Status>>,
                       evidence: Field<seq<Evidence>>)
    | CardPatch(id: string, subject: Field<Option<string>>, targetKind: Field<Option<TargetKind>>,
                targetId: Field<Option<string>>, relationship: Field<Option<string>>, status: Field<Option<Status>>,
                scope: Field<Scope>, evidence: Field<seq<Evidence>>)

  datatype UpdateError =
    | TextRequired | BadField | ConflictNeedsFields | DuplicateLinks | SeveralAuthoritativeLinks
    | NoParticipant | ConflictedParticipant | RetiredParticipant | UnconfirmedParticipant
    | NotLearnable | NoSingleCandidate | EvidenceRequired

  datatype Result<+T> = Ok(value: T) | Err(error: UpdateError)

  predicate Authoritative(status: Status) {
    status == Confirmed || status == Corrected
  }

  predicate ActiveIdentity(status: Status) {
    status != Retired
  }

  predicate ActiveCard(status: Status) {
    status == Candidate || status == Confirmed
  }

  function AccountId(platform: string, namespace: string, sender: string): string {
    "identity-account-" + platform + "\0" + namespace + "\0" + sender
  }

  function ObservedParticipantId(platform: string, namespace: string, sender: string): string {
    OBSERVED_PREFIX + platform + "\0" + namespace + "\0" + sender
  }

  function AccountKey(id: string): RecordKey { RecordKey(EndpointKind, id) }

  function PersonKey(id: string): RecordKey { RecordKey(PersonKind, id) }

  function CardKey(id: string): RecordKey { RecordKey(CardKind, id) }

  // ---- Checks ----

  predicate ResolvesConflict(patch: Patch) {
    match patch
    case EndpointPatch(_, _, _, _, _, links) => !links.Missing?
    case ParticipantPatch(_, kind, name, aliases, _, status, evidence) =>
      !kind.Missing? && !name.Missing? && !aliases.Missing? && !status.Missing? && !evidence.Missing?
    case CardPatch(_, subject, targetKind, targetId, relationship, status, scope, evidence) =>
      !subject.Missing? && !targetKind.Missing? && !targetId.Missing? && !relationship.Missing? && !status.Missing?
      && !scope.Missing? && !evidence.Missing?
  }

  predicate ConflictUnresolved(existing: Option<Collapsed>, patch: Patch) {
    existing.Some? && existing.value.conflicted && !ResolvesConflict(patch)
  }

  /** Whether a record may name this participant. */
  function CurrentParticipant(log: seq<Event>, id: string, authoritative: bool): Option<UpdateError> {
    var found := Lookup(log, PersonKey(id));
    if found.None? || !found.value.record.Participant? then Some(NoParticipant)
    else if found.value.conflicted then Some(ConflictedParticipant)
    else if !ActiveIdentity(found.value.record.status) then Some(RetiredParticipant)
    else if authoritative && !Authoritative(found.value.record.status) then Some(UnconfirmedParticipant)
    else None
  }

  function AuthoritativeLinks(links: seq<Link>): seq<Link> {
    if links == [] then []
    else (if Authoritative(links[0].status) then [links[0]] else []) + AuthoritativeLinks(links[1..])
  }

  function CandidateLinks(links: seq<Link>): seq<Link> {
    if links == [] then []
    else (if links[0].status == Candidate then [links[0]] else []) + CandidateLinks(links[1..])
  }

  function CheckEachLink(log: seq<Event>, links: seq<Link>): Option<UpdateError> {
    if links == [] then None
    else
      var error :=
        if !ActiveIdentity(links[0].status) then None
        else CurrentParticipant(log, links[0].participantId, Authoritative(links[0].status));
      if error.Some? then error else CheckEachLink(log, links[1..])
  }

  function CheckLinks(log: seq<Event>, links: seq<Link>): Option<UpdateError> {
    if |AuthoritativeLinks(links)| > 1 then Some(SeveralAuthoritativeLinks) else CheckEachLink(log, links)
  }

  predicate OneLinkEach(links: seq<Link>) {
    forall i, j :: 0 <= i < j < |links| ==> links[i].participantId != links[j].participantId
  }

  // ---- One update ----

  function Or<T>(field: Field<T>, otherwise: T): T {
    if field.Given? then field.value else otherwise
  }

  function OrElse<T>(field: Field<Option<T>>, otherwise: Option<T>): Option<T> {
    if field.Given? && field.value.Some? then field.value else otherwise
  }

  function NextEndpoint(log: seq<Event>, patch: Patch, now: int): Result<Record>
    requires patch.EndpointPatch?
  {
    if patch.platform.None? || patch.namespace.None? || patch.sender.None? then Err(TextRequired)
    else
      var id := AccountId(patch.platform.value, patch.namespace.value, patch.sender.value);
      var existing := Lookup(log, AccountKey(id));
      if ConflictUnresolved(existing, patch) then Err(ConflictNeedsFields)
      else if patch.links.Bad? then Err(BadField)
      else
        var was := if existing.Some? && existing.value.record.Endpoint? then Some(existing.value.record) else None;
        var links := if patch.links.Given? then FirstN(patch.links.value, MAX_LIST) else if was.Some? then was.value.links else [];
        if patch.links.Given? && !OneLinkEach(links) then Err(DuplicateLinks)
        else if CheckLinks(log, links).Some? then Err(CheckLinks(log, links).value)
        else
          Ok(Endpoint(id, patch.platform.value, patch.namespace.value, patch.sender.value,
                      Or(patch.displayName, if was.Some? then was.value.displayName else None),
                      Or(patch.isSelf, if was.Some? then was.value.isSelf else None), links, now))
  }

  function NextParticipant(log: seq<Event>, patch: Patch, now: int): Result<Record>
    requires patch.ParticipantPatch?
  {
    var existing := Lookup(log, PersonKey(patch.id));
    if ConflictUnresolved(existing, patch) then Err(ConflictNeedsFields)
    else if patch.kind.Bad? || patch.habits.Bad? || patch.status.Bad? || patch.aliases.Bad? || patch.evidence.Bad? then Err(BadField)
    else
      var was :=
        if existing.Some? && existing.value.record.Participant? then existing.value.record
        else Participant(patch.id, UnknownKind, None, [], [], Candidate, [], now);
      Ok(Participant(patch.id, OrElse(patch.kind, Some(was.kind)).value, Or(patch.displayName, was.displayName),
                     if patch.aliases.Given? then FirstN(Unique(patch.aliases.value), MAX_LIST) else was.aliases,
                     if patch.habits.Given? then FirstN(patch.habits.value, MAX_HABITS) else was.habits,
                     OrElse(patch.status, Some(was.status)).value,
                     if patch.evidence.Given? then FirstN(patch.evidence.value, MAX_LIST) else was.evidence, now))
  }

  function NextCard(log: seq<Event>, patch: Patch, now: int): Result<Record>
    requires patch.CardPatch?
  {
    var existing := Lookup(log, CardKey(patch.id));
    var was := if existing.Some? && existing.value.record.Card? then Some(existing.value.record) else None;
    var subject := Or(patch.subject, if was.Some? then Some(was.value.subject) else None);
    var targetKind := Or(patch.targetKind, if was.Some? then Some(was.value.targetKind) else None);
    var targetId := Or(patch.targetId, if was.Some? then Some(was.value.targetId) else None);
    var relationship := Or(patch.relationship, if was.Some? then Some(was.value.relationship) else None);
    if ConflictUnresolved(existing, patch) then Err(ConflictNeedsFields)
    else if subject.None? || targetKind.None? || targetId.None? || relationship.None? then Err(TextRequired)
    else if patch.targetKind.Bad? || patch.status.Bad? || patch.scope.Bad? || patch.evidence.Bad? then Err(BadField)
    else
      var status := OrElse(patch.status, Some(if was.Some? then was.value.status else Candidate)).value;
      var badSubject := if ActiveCard(status) then CurrentParticipant(log, subject.value, false) else None;
      var badTarget :=
        if ActiveCard(status) && targetKind.value == ParticipantTarget then CurrentParticipant(log, targetId.value, false) else None;
      if badSubject.Some? then Err(badSubject.value)
      else if badTarget.Some? then Err(badTarget.value)
      else
        Ok(Card(patch.id, subject.value, targetKind.value, targetId.value, relationship.value, status,
                Or(patch.scope, if was.Some? then was.value.scope else Scope([], [])),
                if patch.evidence.Given? then FirstN(patch.evidence.value, MAX_LIST)
                else if was.Some? then was.value.evidence else [], now))
  }

  function NextRecord(log: seq<Event>, patch: Patch, now: int): Result<Record> {
    match patch
    case EndpointPatch(_, _, _, _, _, _) => NextEndpoint(log, patch, now)
    case ParticipantPatch(_, _, _, _, _, _, _) => NextParticipant(log, patch, now)
    case CardPatch(_, _, _, _, _, _, _, _) => NextCard(log, patch, now)
  }

  function WithoutTime(r: Record): Record {
    match r
    case Endpoint(id, platform, namespace, sender, name, isSelf, links, _) =>
      Endpoint(id, platform, namespace, sender, name, isSelf, links, 0)
    case Participant(id, kind, name, aliases, habits, status, evidence, _) =>
      Participant(id, kind, name, aliases, habits, status, evidence, 0)
    case Card(id, subject, targetKind, targetId, relationship, status, scope, evidence, _) =>
      Card(id, subject, targetKind, targetId, relationship, status, scope, evidence, 0)
  }

  /** The JSON texts are compared, so a record that shows a lent name, and has it last, differs from one with its own. */
  predicate SameAs(existing: Option<Collapsed>, record: Record) {
    existing.Some? && !existing.value.conflicted && !existing.value.nameLent
    && WithoutTime(existing.value.record) == WithoutTime(record)
  }

  datatype Updated = Updated(record: Record, appended: bool)

  function EventFor(log: seq<Event>, record: Record, id: EventId): Event {
    Event(id, record, Some(IdsOf(Heads(GroupOf(log, KeyOf(record))))))
  }

  function Update(log: seq<Event>, patch: Patch, now: int, id: EventId): Result<Updated> {
    var next := NextRecord(log, patch, now);
    if next.Err? then Err(next.error)
    else
      var existing := Lookup(log, KeyOf(next.value));
      if SameAs(existing, next.value) then Ok(Updated(existing.value.record, false)) else Ok(Updated(next.value, true))
  }

  /** The log after an update. */
  function After(log: seq<Event>, patch: Patch, now: int, id: EventId): seq<Event> {
    var result := Update(log, patch, now, id);
    if result.Ok? && result.value.appended then log + [EventFor(log, result.value.record, id)] else log
  }

  /** A fresh id for each event of a run. */
  ghost predicate FreshIds(log: seq<Event>, ids: seq<EventId>) {
    && (forall i :: 0 <= i < |ids| ==> Fresh(log, ids[i]))
    && (forall i, j :: 0 <= i < j < |ids| ==> ids[i] != ids[j])
  }

  lemma HeadIdsAreInLog(log: seq<Event>, key: RecordKey)
    ensures forall id :: id in IdsOf(Heads(GroupOf(log, key))) ==> exists e :: e in log && e.id == id
  {
    hide Heads, GroupOf;
    HeadsAreInGroup(GroupOf(log, key));
    GroupOfIs(log, key);
  }

  /** Using up the first id leaves the others fresh. */
  lemma RestStaysFresh(log: seq<Event>, ids: seq<EventId>, patch: Patch, now: int)
    requires ids != [] && FreshIds(log, ids)
    ensures FreshIds(After(log, patch, now, ids[0]), ids[1..])
  {
    hide Update, Heads, GroupOf;
    var result := Update(log, patch, now, ids[0]);
    if result.Ok? && result.value.appended {
      HeadIdsAreInLog(log, KeyOf(result.value.record));
    }
  }

  /**
   * An update that appends leaves its record with the appended event as its only head, without conflict, whatever
   * the history; an update that does not append found exactly this record; other records never change.
   */
  lemma UpdateConverges(log: seq<Event>, patch: Patch, now: int, id: EventId)
    requires Fresh(log, id) && Update(log, patch, now, id).Ok?
    ensures var record := Update(log, patch, now, id).value.record;
            var found := Lookup(After(log, patch, now, id), KeyOf(record));
            && found.Some? && !found.value.conflicted && found.value.candidates == []
            && (Update(log, patch, now, id).value.appended ==> found.value.record == Shown(record) && !found.value.nameLent)
            && (!Update(log, patch, now, id).value.appended ==> found.value.record == record)
  {
    hide NextRecord, Lookup, Heads, GroupOf, Shown;
    var next := NextRecord(log, patch, now).value;
    if SameAs(Lookup(log, KeyOf(next)), next) {
      LookupIsKeyed(log, KeyOf(next));
      CandidatesOnlyOnConflict(log, KeyOf(next));
    } else {
      UpdateResolves(log, EventFor(log, next, id));
    }
  }

  lemma {:induction false} CandidatesOnlyOnConflict(log: seq<Event>, key: RecordKey)
    ensures Lookup(log, key).Some? && !Lookup(log, key).value.conflicted ==> Lookup(log, key).value.candidates == []
  {
    hide Heads, GroupOf, Differ, MergedRecord;
  }

  /** What lookups return is filed under the key it was looked up by. */
  lemma LookupIsKeyed(log: seq<Event>, key: RecordKey)
    ensures Lookup(log, key).Some? ==> KeyOf(Lookup(log, key).value.record) == key
  {
    hide Heads, GroupOf, Sort, Differ;
    var group := GroupOf(log, key);
    if group != [] {
      var heads := Heads(group);
      GroupOfIs(log, key);
      HeadsAreInGroup(group);
      HeadsExist(group);
      var sorted := Sort(ByIdLe, heads);
      var byTime := Sort(ByTimeLe, sorted);
      SameElements(sorted, heads);
      SameElements(byTime, sorted);
      assert byTime[|byTime| - 1] in byTime;
    }
  }

  lemma UpdateKeepsOthers(log: seq<Event>, patch: Patch, now: int, id: EventId, key: RecordKey)
    requires Update(log, patch, now, id).Ok? ==> KeyOf(Update(log, patch, now, id).value.record) != key
    ensures Lookup(After(log, patch, now, id), key) == Lookup(log, key)
  {
    hide Update, Lookup, GroupOf, Heads;
    var result := Update(log, patch, now, id);
    if result.Ok? && result.value.appended {
      OthersUnchanged(log, EventFor(log, result.value.record, id), key);
    }
  }

  // ---- A single writer never conflicts ----

  datatype Write = Write(patch: Patch, now: int, id: EventId)

  function IdsOfWrites(writes: seq<Write>): seq<EventId> {
    seq(|writes|, i requires 0 <= i < |writes| => writes[i].id)
  }

  function Written(log: seq<Event>, writes: seq<Write>): seq<Event>
    decreases |writes|
  {
    if writes == [] then log else Written(After(log, writes[0].patch, writes[0].now, writes[0].id), writes[1..])
  }

  ghost predicate Unconflicted(log: seq<Event>) {
    forall key :: Lookup(log, key).Some? ==> !Lookup(log, key).value.conflicted
  }

  lemma UpdateKeepsUnconflicted(log: seq<Event>, patch: Patch, now: int, id: EventId)
    requires Fresh(log, id) && Unconflicted(log)
    ensures Unconflicted(After(log, patch, now, id))
  {
    hide Update, Lookup, After;
    forall key
      ensures Lookup(After(log, patch, now, id), key).Some? ==> !Lookup(After(log, patch, now, id), key).value.conflicted
    {
      var result := Update(log, patch, now, id);
      if result.Ok? && KeyOf(result.value.record) == key {
        UpdateConverges(log, patch, now, id);
      } else {
        UpdateKeepsOthers(log, patch, now, id, key);
      }
    }
  }

  /** From a log without conflicts, in particular an empty one, no run of updates ever leads to a conflict. */
  lemma {:induction false} SingleWriterNeverConflicts(log: seq<Event>, writes: seq<Write>)
    requires Unconflicted(log) && FreshIds(log, IdsOfWrites(writes))
    ensures Unconflicted(Written(log, writes))
    ensures Unconflicted([])
    decreases |writes|
  {
    hide Unconflicted, After;
    assert Unconflicted([]) by {
      EmptyLogUnconflicted();
    }
    if writes != [] {
      var ids := IdsOfWrites(writes);
      assert ids[0] == writes[0].id && ids[1..] == IdsOfWrites(writes[1..]);
      UpdateKeepsUnconflicted(log, writes[0].patch, writes[0].now, writes[0].id);
      RestStaysFresh(log, ids, writes[0].patch, writes[0].now);
      SingleWriterNeverConflicts(After(log, writes[0].patch, writes[0].now, writes[0].id), writes[1..]);
    }
  }

  lemma EmptyLogUnconflicted()
    ensures Unconflicted([])
  {
  }

  // ---- Authority ----

  /** A record that nobody confirmed, corrected or retired, and that is not the persona's own account. */
  predicate CandidateLevel(r: Record) {
    match r
    case Endpoint(_, _, _, _, _, isSelf, links, _) => isSelf != Some(true) && AuthoritativeLinks(links) == []
    case Participant(_, _, _, _, _, status, _, _) => status == Candidate
    case Card(_, _, _, _, _, status, _, _, _) => status == Candidate
  }

  /** Nothing is known of the record, or only as an undisputed candidate. */
  predicate Learnable(found: Option<Collapsed>) {
    found.Some? ==> !found.value.conflicted && CandidateLevel(found.value.record)
  }

  /** Everything that is not learnable is as it was, and what was learnable is still learnable. */
  ghost predicate AuthorityKept(before: seq<Event>, after: seq<Event>) {
    forall key :: Lookup(after, key) == Lookup(before, key) || (Learnable(Lookup(before, key)) && Learnable(Lookup(after, key)))
  }

  lemma AuthorityKeptChains(a: seq<Event>, b: seq<Event>, c: seq<Event>)
    requires AuthorityKept(a, b) && AuthorityKept(b, c)
    ensures AuthorityKept(a, c)
  {
    hide Lookup, Learnable;
  }

  /** An update that turns a learnable record into a candidate keeps every authority. */
  lemma CandidateUpdateKeepsAuthority(log: seq<Event>, patch: Patch, now: int, id: EventId)
    requires Fresh(log, id)
    requires var result := Update(log, patch, now, id);
             result.Ok? && result.value.appended ==>
               CandidateLevel(result.value.record) && Learnable(Lookup(log, KeyOf(result.value.record)))
    ensures AuthorityKept(log, After(log, patch, now, id))
  {
    hide Update, Lookup, GroupOf, Heads;
    var result := Update(log, patch, now, id);
    forall key
      ensures var later := After(log, patch, now, id);
              Lookup(later, key) == Lookup(log, key) || (Learnable(Lookup(log, key)) && Learnable(Lookup(later, key)))
    {
      if result.Ok? && result.value.appended {
        if KeyOf(result.value.record) == key {
          UpdateConverges(log, patch, now, id);
        } else {
          UpdateKeepsOthers(log, patch, now, id, key);
        }
      }
    }
  }

  // ---- Observing an account ----

  datatype Account = Account(platform: Option<string>, namespace: Option<string>, sender: Option<string>, name: Option<string>)

  /** What the system draws for one observation: times, event ids and the id of a new participant. */
  datatype Drawn = Drawn(now: int, ids: seq<EventId>, participant: string)

  datatype Learned = Learned(log: seq<Event>, error: Option<UpdateError>)

  function FirstSeen(platform: string, namespace: string, sender: string): seq<Evidence> {
    [Evidence(None, "first seen: " + platform + "/" + namespace + "/" + sender)]
  }

  function UniqueEvidence(evidence: seq<Evidence>): seq<Evidence> {
    LastN(Unique(evidence), MAX_LIST)
  }

  function AccountOf(log: seq<Event>, id: string): Option<Collapsed> {
    Lookup(log, AccountKey(id))
  }

  function LinksOf(account: Option<Collapsed>): seq<Link> {
    if account.Some? && account.value.record.Endpoint? then account.value.record.links else []
  }

  predicate IsSelf(account: Option<Collapsed>) {
    account.Some? && account.value.record.Endpoint? && account.value.record.isSelf == Some(true)
  }

  /** The participant an observation is about: the one candidate of the account, or a new one; None if there are several. */
  function ObservedParticipant(log: seq<Event>, links: seq<Link>, deterministic: string, generated: string): Option<string> {
    var candidates := CandidateLinks(links);
    if |candidates| == 1 then Some(candidates[0].participantId)
    else if |candidates| == 0 then Some(if Lookup(log, PersonKey(deterministic)).Some? then generated else deterministic)
    else None
  }

  function ParticipantObservation(log: seq<Event>, id: string, name: Option<string>, seen: seq<Evidence>): Patch {
    var found := Lookup(log, PersonKey(id));
    var was :=
      if found.Some? && found.value.record.Participant? then found.value.record
      else Participant(id, UnknownKind, None, [], [], Candidate, [], 0);
    ParticipantPatch(id, Given(Some(was.kind)), Given(if was.displayName.Some? then was.displayName else name),
                     Given(FirstN(Unique(was.aliases + if name.Some? then [name.value] else []), MAX_LIST)), Missing,
                     Given(Some(Candidate)), Given(UniqueEvidence(was.evidence + seen)))
  }

  predicate Links(links: seq<Link>, participant: string) {
    exists i :: 0 <= i < |links| && links[i].participantId == participant
  }

  function AccountObservation(account: Account, found: Option<Collapsed>, participant: string, seen: seq<Evidence>): Patch {
    var links := LinksOf(found);
    var was := if found.Some? && found.value.record.Endpoint? then Some(found.value.record) else None;
    EndpointPatch(account.platform, account.namespace, account.sender,
                  Given(if account.name.Some? then account.name else if was.Some? then was.value.displayName else None),
                  Given(if was.Some? then was.value.isSelf else None),
                  Given(if Links(CandidateLinks(links), participant) then links
                        else links + [Link(participant, Candidate, Some(0.1), seen)]))
  }

  /** Two updates, the second only when the first did not fail. */
  function ObserveEndpoint(log: seq<Event>, account: Account, drawn: Drawn): Learned
    requires |drawn.ids| == 2
  {
    if account.platform.None? || account.namespace.None? || account.sender.None? then Learned(log, None)
    else
      var platform, namespace, sender := account.platform.value, account.namespace.value, account.sender.value;
      var found := AccountOf(log, AccountId(platform, namespace, sender));
      var links := LinksOf(found);
      if (found.Some? && found.value.conflicted) || IsSelf(found) || AuthoritativeLinks(links) != [] then Learned(log, None)
      else
        var participant := ObservedParticipant(log, links, ObservedParticipantId(platform, namespace, sender), drawn.participant);
        if participant.None? then Learned(log, None)
        else
          var seen := FirstSeen(platform, namespace, sender);
          var middle := ObserveParticipant(log, participant.value, account.name, seen, drawn);
          if middle.error.Some? then middle
          else
            var patch := AccountObservation(account, found, participant.value, seen);
            var result := Update(middle.log, patch, drawn.now, drawn.ids[1]);
            Learned(After(middle.log, patch, drawn.now, drawn.ids[1]), if result.Err? then Some(result.error) else None)
  }

  function ObserveParticipant(log: seq<Event>, id: string, name: Option<string>, seen: seq<Evidence>, drawn: Drawn): Learned
    requires |drawn.ids| >= 1
  {
    if !Learnable(Lookup(log, PersonKey(id))) then Learned(log, None)
    else
      var patch := ParticipantObservation(log, id, name, seen);
      var result := Update(log, patch, drawn.now, drawn.ids[0]);
      Learned(After(log, patch, drawn.now, drawn.ids[0]), if result.Err? then Some(result.error) else None)
  }

  lemma NoMoreAuthoritative(links: seq<Link>, link: Link)
    requires !Authoritative(link.status)
    ensures AuthoritativeLinks(links + [link]) == AuthoritativeLinks(links)
    decreases |links|
  {
    if links == [] {
      assert links + [link] == [link];
    } else {
      assert (links + [link])[0] == links[0] && (links + [link])[1..] == links[1..] + [link];
      NoMoreAuthoritative(links[1..], link);
    }
  }

  lemma {:induction false} NoAuthoritativeInPart(links: seq<Link>, n: nat)
    requires AuthoritativeLinks(links) == [] && n <= |links|
    ensures AuthoritativeLinks(links[..n]) == []
  {
    if n > 0 {
      assert links[..n][0] == links[0] && links[..n][1..] == links[1..][..n - 1];
      NoAuthoritativeInPart(links[1..], n - 1);
    }
  }

  lemma ParticipantObservationIsCandidate(log: seq<Event>, id: string, name: Option<string>, seen: seq<Evidence>, drawn: Drawn)
    requires |drawn.ids| >= 1 && FreshIds(log, drawn.ids)
    ensures AuthorityKept(log, ObserveParticipant(log, id, name, seen, drawn).log)
    ensures FreshIds(ObserveParticipant(log, id, name, seen, drawn).log, drawn.ids[1..])
  {
    hide Lookup, After, AuthorityKept;
    if Learnable(Lookup(log, PersonKey(id))) {
      var patch := ParticipantObservation(log, id, name, seen);
      RestStaysFresh(log, drawn.ids, patch, drawn.now);
      CandidateUpdateKeepsAuthority(log, patch, drawn.now, drawn.ids[0]);
    } else {
      SameKeepsAuthority(log);
    }
  }

  lemma SameKeepsAuthority(log: seq<Event>)
    ensures AuthorityKept(log, log)
  {
  }

  /** Observing an account never confirms anyone, and changes nothing that is not an undisputed candidate. */
  lemma ObservationKeepsAuthority(log: seq<Event>, account: Account, drawn: Drawn)
    requires |drawn.ids| == 2 && FreshIds(log, drawn.ids)
    ensures AuthorityKept(log, ObserveEndpoint(log, account, drawn).log)
  {
    hide Lookup, After, AuthorityKept, ObserveParticipant, FreshIds, AuthoritativeLinks, ObservedParticipant;
    SameKeepsAuthority(log);
    if account.platform.Some? && account.namespace.Some? && account.sender.Some? {
      var platform, namespace, sender := account.platform.value, account.namespace.value, account.sender.value;
      var found := AccountOf(log, AccountId(platform, namespace, sender));
      var links := LinksOf(found);
      if !(found.Some? && found.value.conflicted) && !IsSelf(found) && AuthoritativeLinks(links) == [] {
        var participant := ObservedParticipant(log, links, ObservedParticipantId(platform, namespace, sender), drawn.participant);
        if participant.Some? {
          var seen := FirstSeen(platform, namespace, sender);
          var middle := ObserveParticipant(log, participant.value, account.name, seen, drawn);
          ParticipantObservationIsCandidate(log, participant.value, account.name, seen, drawn);
          if middle.error.None? {
            AccountObservationIsCandidate(log, middle.log, account, participant.value, seen, drawn);
            AuthorityKeptChains(log, middle.log, ObserveEndpoint(log, account, drawn).log);
          }
        }
      }
    }
  }

  lemma AccountObservationIsCandidate(before: seq<Event>, log: seq<Event>, account: Account, participant: string,
                                      seen: seq<Evidence>, drawn: Drawn)
    requires account.platform.Some? && account.namespace.Some? && account.sender.Some?
    requires |drawn.ids| == 2 && FreshIds(log, drawn.ids[1..]) && AuthorityKept(before, log)
    requires var found := AccountOf(before, AccountId(account.platform.value, account.namespace.value, account.sender.value));
             !(found.Some? && found.value.conflicted) && !IsSelf(found) && AuthoritativeLinks(LinksOf(found)) == []
    ensures var found := AccountOf(before, AccountId(account.platform.value, account.namespace.value, account.sender.value));
            AuthorityKept(log, After(log, AccountObservation(account, found, participant, seen), drawn.now, drawn.ids[1]))
  {
    hide Lookup, After, AuthoritativeLinks;
    var id := AccountId(account.platform.value, account.namespace.value, account.sender.value);
    var found := AccountOf(before, id);
    var links := LinksOf(found);
    var patch := AccountObservation(account, found, participant, seen);
    assert Learnable(found) by {
      LookupIsKeyed(before, AccountKey(id));
    }
    assert Learnable(AccountOf(log, id));
    NoMoreAuthoritative(links, Link(participant, Candidate, Some(0.1), seen));
    assert AuthoritativeLinks(patch.links.value) == [];
    NoAuthoritativeInPart(patch.links.value, if |patch.links.value| <= MAX_LIST then |patch.links.value| else MAX_LIST);
    assert AuthoritativeLinks(FirstN(patch.links.value, MAX_LIST)) == [] by {
      assert patch.links.value[..|patch.links.value|] == patch.links.value;
    }
    assert drawn.ids[1..][0] == drawn.ids[1];
    CandidateUpdateKeepsAuthority(log, patch, drawn.now, drawn.ids[1]);
  }

  // ---- A first observation ----

  /** What a first observation writes about the new participant. */
  function NewCandidate(id: string, name: Option<string>, seen: seq<Evidence>, now: int): Record {
    Participant(id, UnknownKind, name, if name.Some? then [name.value] else [], [], Candidate, seen, now)
  }

  lemma NewCandidateShown(id: string, name: Option<string>, seen: Evidence, now: int)
    ensures Shown(NewCandidate(id, name, [seen], now)) == NewCandidate(id, name, [seen], now)
    ensures Unique([seen]) == [seen] && Unique([seen, seen]) == [seen]
    ensures name.Some? ==> Unique([name.value]) == [name.value] && Unique([name.value, name.value]) == [name.value]
  {
    UniqueTwice(seen);
    if name.Some? {
      UniqueTwice(name.value);
    }
    assert Unique<string>([]) == [];
  }

  lemma UniqueTwice<T>(x: T)
    ensures Unique([x]) == [x] && Unique([x, x]) == [x]
  {
    assert [x][..0] == [] && [x, x][..1] == [x];
    assert Unique<T>([]) == [];
  }

  /** Observing an unknown participant writes it as a candidate; observing it again writes nothing. */
  lemma FirstParticipantObservation(log: seq<Event>, id: string, name: Option<string>, seen: Evidence, now: int, event: EventId)
    requires Lookup(log, PersonKey(id)) == None && Fresh(log, event)
    ensures var patch := ParticipantObservation(log, id, name, [seen]);
            && Update(log, patch, now, event) == Ok(Updated(NewCandidate(id, name, [seen], now), true))
            && Lookup(After(log, patch, now, event), PersonKey(id)).Some?
            && Lookup(After(log, patch, now, event), PersonKey(id)).value == Collapsed(NewCandidate(id, name, [seen], now), false, [], false)
  {
    hide Lookup, Shown, Unique, After;
    var patch := ParticipantObservation(log, id, name, [seen]);
    NewCandidateShown(id, name, seen, now);
    NamesUnique(name);
    assert [] + [seen] == [seen];
    UpdateConverges(log, patch, now, event);
  }

  lemma NamesUnique(name: Option<string>)
    ensures var names: seq<string> := if name.Some? then [name.value] else [];
            Unique(names) == names && Unique([] + names) == names && Unique(names + names) == names
  {
    assert Unique<string>([]) == [];
    if name.Some? {
      UniqueTwice(name.value);
      assert [] + [name.value] == [name.value] && [name.value] + [name.value] == [name.value, name.value];
    } else {
      var names: seq<string> := [];
      assert names + names == names && [] + names == names;
    }
  }

  lemma RepeatedParticipantObservation(log: seq<Event>, id: string, name: Option<string>, seen: Evidence, was: int, now: int, event: EventId)
    requires Lookup(log, PersonKey(id)) == Some(Collapsed(NewCandidate(id, name, [seen], was), false, [], false))
    ensures var patch := ParticipantObservation(log, id, name, [seen]);
            Update(log, patch, now, event) == Ok(Updated(NewCandidate(id, name, [seen], was), false))
  {
    hide Lookup, Unique;
    var patch := ParticipantObservation(log, id, name, [seen]);
    NewCandidateShown(id, name, seen, was);
    NamesUnique(name);
    assert [seen] + [seen] == [seen, seen];
  }

  function NewLink(participant: string, seen: Evidence): Link {
    Link(participant, Candidate, Some(0.1), [seen])
  }

  lemma OneCandidateLink(log: seq<Event>, participant: string, seen: Evidence)
    ensures var links := [NewLink(participant, seen)];
            && AuthoritativeLinks(links) == [] && CandidateLinks(links) == links && OneLinkEach(links)
            && var found := Lookup(log, PersonKey(participant));
               (found.Some? && Learnable(found) && found.value.record.Participant? ==> CheckLinks(log, links) == None)
  {
    hide Lookup;
    var links := [NewLink(participant, seen)];
    assert links[1..] == [];
    assert CheckEachLink(log, []) == None && AuthoritativeLinks([]) == [] && CandidateLinks([]) == [];
  }

  /** The account record of a first observation. */
  function NewAccount(platform: string, namespace: string, sender: string, name: Option<string>, link: Link, now: int): Record {
    Endpoint(AccountId(platform, namespace, sender), platform, namespace, sender, name, None, [link], now)
  }

  lemma FirstAccountObservation(log: seq<Event>, account: Account, participant: string, seen: Evidence, now: int, event: EventId)
    requires account.platform.Some? && account.namespace.Some? && account.sender.Some?
    requires AccountOf(log, AccountId(account.platform.value, account.namespace.value, account.sender.value)) == None
    requires Lookup(log, PersonKey(participant)).Some? && Learnable(Lookup(log, PersonKey(participant)))
    requires Lookup(log, PersonKey(participant)).value.record.Participant? && Fresh(log, event)
    ensures var patch := AccountObservation(account, None, participant, [seen]);
            var record := NewAccount(account.platform.value, account.namespace.value, account.sender.value, account.name,
                                     NewLink(participant, seen), now);
            && Update(log, patch, now, event) == Ok(Updated(record, true))
            && Lookup(After(log, patch, now, event), AccountKey(record.id)) == Some(Collapsed(record, false, [], false))
            && Lookup(After(log, patch, now, event), PersonKey(participant)) == Lookup(log, PersonKey(participant))
  {
    hide Lookup, CheckLinks, OneLinkEach, CandidateLinks, After;
    var patch := AccountObservation(account, None, participant, [seen]);
    assert CandidateLinks([]) == [] by {
      NoCandidates();
    }
    OneCandidateLink(log, participant, seen);
    assert patch.links.value == [NewLink(participant, seen)];
    UpdateConverges(log, patch, now, event);
    UpdateKeepsOthers(log, patch, now, event, PersonKey(participant));
  }

  lemma NoCandidates()
    ensures CandidateLinks([]) == []
  {
  }

  lemma RepeatedAccountObservation(log: seq<Event>, account: Account, participant: string, seen: Evidence, was: int, now: int, event: EventId)
    requires account.platform.Some? && account.namespace.Some? && account.sender.Some?
    requires Lookup(log, PersonKey(participant)).Some? && Learnable(Lookup(log, PersonKey(participant)))
    requires Lookup(log, PersonKey(participant)).value.record.Participant?
    requires var record := NewAccount(account.platform.value, account.namespace.value, account.sender.value, account.name,
                                      NewLink(participant, seen), was);
             AccountOf(log, record.id) == Some(Collapsed(record, false, [], false))
    ensures var found := AccountOf(log, AccountId(account.platform.value, account.namespace.value, account.sender.value));
            var patch := AccountObservation(account, found, participant, [seen]);
            Update(log, patch, now, event).Ok? && !Update(log, patch, now, event).value.appended
  {
    hide Lookup, CheckLinks, OneLinkEach, CandidateLinks;
    OneCandidateLink(log, participant, seen);
    var links := [NewLink(participant, seen)];
    assert links[0].participantId == participant;
    assert Links(links, participant);
  }

  /**
   * The first sight of an account leaves it undisputed, linked to one new candidate, named after the account unless that id
   * is taken, and confirmed for nobody; seeing it again, as often as one likes, writes nothing.
   */
  lemma FirstObservation(log: seq<Event>, account: Account, drawn: Drawn, again: Drawn)
    requires account.platform.Some? && account.namespace.Some? && account.sender.Some?
    requires |drawn.ids| == 2 && FreshIds(log, drawn.ids) && |again.ids| == 2
    requires AccountOf(log, AccountId(account.platform.value, account.namespace.value, account.sender.value)) == None
    requires Lookup(log, PersonKey(ObservedParticipantId(account.platform.value, account.namespace.value, account.sender.value))) == None
             || Lookup(log, PersonKey(drawn.participant)) == None
    ensures var platform, namespace, sender := account.platform.value, account.namespace.value, account.sender.value;
            var own := ObservedParticipantId(platform, namespace, sender);
            var id := if Lookup(log, PersonKey(own)) == None then own else drawn.participant;
            var seen := FirstSeen(platform, namespace, sender)[0];
            var first := ObserveEndpoint(log, account, drawn);
            var record := NewAccount(platform, namespace, sender, account.name, NewLink(id, seen), drawn.now);
            && first.error == None
            && AccountOf(first.log, record.id) == Some(Collapsed(record, false, [], false))
            && Lookup(first.log, PersonKey(id)) == Some(Collapsed(NewCandidate(id, account.name, [seen], drawn.now), false, [], false))
            && ObserveEndpoint(first.log, account, again) == first
  {
    hide Lookup, Update, After, FreshIds, AccountObservation, ParticipantObservation, CandidateLinks, AuthoritativeLinks;
    var platform, namespace, sender := account.platform.value, account.namespace.value, account.sender.value;
    var own := ObservedParticipantId(platform, namespace, sender);
    var id := if Lookup(log, PersonKey(own)) == None then own else drawn.participant;
    var seen := FirstSeen(platform, namespace, sender)[0];
    var first := ObserveEndpoint(log, account, drawn);
    assert FirstSeen(platform, namespace, sender) == [seen];
    NoLinks();
    FirstWrites(log, account, id, seen, drawn);
    SecondWrites(first.log, account, id, seen, drawn.now, again);
  }

  lemma NoLinks()
    ensures CandidateLinks([]) == [] && AuthoritativeLinks([]) == []
  {
  }

  lemma FirstWrites(log: seq<Event>, account: Account, id: string, seen: Evidence, drawn: Drawn)
    requires account.platform.Some? && account.namespace.Some? && account.sender.Some?
    requires |drawn.ids| == 2 && FreshIds(log, drawn.ids)
    requires AccountOf(log, AccountId(account.platform.value, account.namespace.value, account.sender.value)) == None
    requires Lookup(log, PersonKey(id)) == None
    ensures var middle := ObserveParticipant(log, id, account.name, [seen], drawn);
            var patch := AccountObservation(account, None, id, [seen]);
            var later := After(middle.log, patch, drawn.now, drawn.ids[1]);
            var record := NewAccount(account.platform.value, account.namespace.value, account.sender.value, account.name,
                                     NewLink(id, seen), drawn.now);
            && middle.error == None && Update(middle.log, patch, drawn.now, drawn.ids[1]).Ok?
            && AccountOf(later, record.id) == Some(Collapsed(record, false, [], false))
            && Lookup(later, PersonKey(id)) == Some(Collapsed(NewCandidate(id, account.name, [seen], drawn.now), false, [], false))
  {
    hide Lookup, Update, After, AccountObservation, ParticipantObservation;
    var patch := ParticipantObservation(log, id, account.name, [seen]);
    var middle := ObserveParticipant(log, id, account.name, [seen], drawn);
    FirstParticipantObservation(log, id, account.name, seen, drawn.now, drawn.ids[0]);
    RestStaysFresh(log, drawn.ids, patch, drawn.now);
    assert drawn.ids[1..][0] == drawn.ids[1];
    UpdateKeepsOthers(log, patch, drawn.now, drawn.ids[0],
                      AccountKey(AccountId(account.platform.value, account.namespace.value, account.sender.value)));
    FirstAccountObservation(middle.log, account, id, seen, drawn.now, drawn.ids[1]);
  }

  lemma SecondWrites(log: seq<Event>, account: Account, id: string, seen: Evidence, was: int, again: Drawn)
    requires account.platform.Some? && account.namespace.Some? && account.sender.Some? && |again.ids| == 2
    requires seen == FirstSeen(account.platform.value, account.namespace.value, account.sender.value)[0]
    requires Lookup(log, PersonKey(id)) == Some(Collapsed(NewCandidate(id, account.name, [seen], was), false, [], false))
    requires var record := NewAccount(account.platform.value, account.namespace.value, account.sender.value, account.name,
                                      NewLink(id, seen), was);
             AccountOf(log, record.id) == Some(Collapsed(record, false, [], false))
    ensures ObserveEndpoint(log, account, again) == Learned(log, None)
  {
    hide Lookup, Update, AccountObservation, ParticipantObservation, CandidateLinks, AuthoritativeLinks, CheckLinks, FirstSeen;
    var found := AccountOf(log, AccountId(account.platform.value, account.namespace.value, account.sender.value));
    assert FirstSeen(account.platform.value, account.namespace.value, account.sender.value) == [seen] by {
      OneSighting(account.platform.value, account.namespace.value, account.sender.value);
    }
    OneCandidateLink(log, id, seen);
    RepeatedParticipantObservation(log, id, account.name, seen, was, again.now, again.ids[0]);
    RepeatedAccountObservation(log, account, id, seen, was, again.now, again.ids[1]);
  }

  lemma OneSighting(platform: string, namespace: string, sender: string)
    ensures |FirstSeen(platform, namespace, sender)| == 1
  {
  }

  // ---- Recording clues about a candidate ----

  /** A relation to record; its id is the digest of its fields. */
  datatype RelationClue =
    RelationClue(id: string, targetKind: TargetKind, targetId: string, relationship: string, scope: Scope, evidence: seq<Evidence>)

  datatype Clues = Clues(participant: Option<string>, kind: Option<ParticipantKind>, name: Option<string>, aliases: seq<string>,
                         evidence: seq<Evidence>, relations: seq<RelationClue>)

  /** The candidate link the clues are about. */
  function ChosenLink(links: seq<Link>, requested: Option<string>): Option<Link> {
    var candidates := CandidateLinks(links);
    if requested.None? then if |candidates| == 1 then Some(candidates[0]) else None
    else FindLink(candidates, requested.value)
  }

  function FindLink(links: seq<Link>, participant: string): Option<Link> {
    if links == [] then None
    else if links[0].participantId == participant then Some(links[0])
    else FindLink(links[1..], participant)
  }

  predicate HasMessage(evidence: seq<Evidence>) {
    exists i :: 0 <= i < |evidence| && evidence[i].messageId.Some?
  }

  predicate AllLearnable(log: seq<Event>, relations: seq<RelationClue>) {
    forall i :: 0 <= i < |relations| ==> Learnable(Lookup(log, CardKey(relations[i].id)))
  }

  function ParticipantClues(was: Record, clues: Clues): Patch
    requires was.Participant?
  {
    var name := if clues.name.Some? then clues.name else was.displayName;
    ParticipantPatch(was.id, Given(Some(if clues.kind.Some? then clues.kind.value else was.kind)), Given(name),
                     Given(FirstN(Unique(was.aliases + clues.aliases + if name.Some? then [name.value] else []), MAX_LIST)), Missing,
                     Given(Some(Candidate)), Given(UniqueEvidence(was.evidence + FirstN(clues.evidence, MAX_LIST))))
  }

  /** The card of a clue, given the evidence the card had before any of the clues was recorded. */
  function CardClue(subject: string, clue: RelationClue, known: seq<Evidence>, evidence: seq<Evidence>): Patch {
    CardPatch(clue.id, Given(Some(subject)), Given(Some(clue.targetKind)), Given(Some(clue.targetId)),
              Given(Some(clue.relationship)), Given(Some(Candidate)), Given(clue.scope),
              Given(UniqueEvidence(known + FirstN(clue.evidence, MAX_LIST) + FirstN(evidence, MAX_LIST))))
  }

  function KnownEvidence(log: seq<Event>, id: string): seq<Evidence> {
    var found := Lookup(log, CardKey(id));
    if found.Some? && found.value.record.Card? then found.value.record.evidence else []
  }

  /** The cards in order, until one fails; `first` is the log in which the clues were prepared. */
  function RecordCards(first: seq<Event>, log: seq<Event>, subject: string, clues: Clues, relations: seq<RelationClue>,
                       now: int, ids: seq<EventId>): Learned
    requires |ids| == |relations|
    decreases |relations|
  {
    if relations == [] then Learned(log, None)
    else
      var patch := CardClue(subject, relations[0], KnownEvidence(first, relations[0].id), clues.evidence);
      var result := Update(log, patch, now, ids[0]);
      if result.Err? then Learned(log, Some(result.error))
      else RecordCards(first, After(log, patch, now, ids[0]), subject, clues, relations[1..], now, ids[1..])
  }

  /** The participant clues may be recorded about, unless one of the checks before any change fails. */
  function CluesAccepted(log: seq<Event>, account: Account, clues: Clues): (accepted: Result<Record>)
    ensures accepted.Ok? ==>
              && accepted.value.Participant? && Lookup(log, PersonKey(accepted.value.id)).Some?
              && Learnable(Lookup(log, PersonKey(accepted.value.id)))
              && AllLearnable(log, FirstN(clues.relations, MAX_LIST))
  {
    hide Lookup, Learnable, AllLearnable;
    if account.platform.None? || account.namespace.None? || account.sender.None? then Err(TextRequired)
    else
      var found := AccountOf(log, AccountId(account.platform.value, account.namespace.value, account.sender.value));
      if found.None? || found.value.conflicted || IsSelf(found) || AuthoritativeLinks(LinksOf(found)) != [] then Err(NotLearnable)
      else
        var link := ChosenLink(LinksOf(found), clues.participant);
        if link.None? then Err(NoSingleCandidate)
        else
          LookupIsKeyed(log, PersonKey(link.value.participantId));
          var participant := Lookup(log, PersonKey(link.value.participantId));
          if participant.None? || !participant.value.record.Participant? || !Learnable(participant) then Err(NotLearnable)
          else if !HasMessage(FirstN(clues.evidence, MAX_LIST)) then Err(EvidenceRequired)
          else if !AllLearnable(log, FirstN(clues.relations, MAX_LIST)) then Err(NotLearnable)
          else Ok(participant.value.record)
  }

  /** The ids drawn: one for the participant and one for each card. */
  predicate EnoughIds(clues: Clues, drawn: Drawn) {
    |drawn.ids| == 1 + |FirstN(clues.relations, MAX_LIST)|
  }

  function RecordClues(log: seq<Event>, account: Account, clues: Clues, drawn: Drawn): Learned
    requires EnoughIds(clues, drawn)
  {
    var accepted := CluesAccepted(log, account, clues);
    if accepted.Err? then Learned(log, Some(accepted.error))
    else if !accepted.value.Participant? then Learned(log, Some(NotLearnable))
    else
      var patch := ParticipantClues(accepted.value, clues);
      var result := Update(log, patch, drawn.now, drawn.ids[0]);
      if result.Err? then Learned(log, Some(result.error))
      else
        RecordCards(log, After(log, patch, drawn.now, drawn.ids[0]), accepted.value.id, clues,
                    FirstN(clues.relations, MAX_LIST), drawn.now, drawn.ids[1..])
  }

  lemma StaysLearnable(before: seq<Event>, after: seq<Event>, key: RecordKey)
    requires AuthorityKept(before, after) && Learnable(Lookup(before, key))
    ensures Learnable(Lookup(after, key))
  {
    hide Lookup, Learnable;
  }

  lemma {:induction false} CardsKeepAuthority(first: seq<Event>, log: seq<Event>, subject: string, clues: Clues,
                                              relations: seq<RelationClue>, now: int, ids: seq<EventId>)
    requires |ids| == |relations| && FreshIds(log, ids) && AllLearnable(log, relations)
    ensures AuthorityKept(log, RecordCards(first, log, subject, clues, relations, now, ids).log)
    decreases |relations|
  {
    hide Lookup, After, AuthorityKept, Learnable;
    SameKeepsAuthority(log);
    if relations != [] {
      var patch := CardClue(subject, relations[0], KnownEvidence(first, relations[0].id), clues.evidence);
      var next := After(log, patch, now, ids[0]);
      LearningPatchIsCandidate(log, patch, now, ids[0]);
      RestStaysFresh(log, ids, patch, now);
      if Update(log, patch, now, ids[0]).Ok? {
        forall i | 0 <= i < |relations[1..]|
          ensures Learnable(Lookup(next, CardKey(relations[1..][i].id)))
        {
          StaysLearnable(log, next, CardKey(relations[1..][i].id));
        }
        CardsKeepAuthority(first, next, subject, clues, relations[1..], now, ids[1..]);
        AuthorityKeptChains(log, next, RecordCards(first, log, subject, clues, relations, now, ids).log);
      }
    }
  }

  /** A patch that makes a learnable participant or card a candidate. */
  predicate LearningPatch(log: seq<Event>, patch: Patch) {
    match patch
    case EndpointPatch(_, _, _, _, _, _) => false
    case ParticipantPatch(id, _, _, _, _, status, _) => status == Given(Some(Candidate)) && Learnable(Lookup(log, PersonKey(id)))
    case CardPatch(id, _, _, _, _, status, _, _) => status == Given(Some(Candidate)) && Learnable(Lookup(log, CardKey(id)))
  }

  lemma LearningPatchIsCandidate(log: seq<Event>, patch: Patch, now: int, id: EventId)
    requires LearningPatch(log, patch) && Fresh(log, id)
    ensures AuthorityKept(log, After(log, patch, now, id))
  {
    hide Lookup, After, AuthorityKept;
    CandidateUpdateKeepsAuthority(log, patch, now, id);
  }

  /** Recording clues keeps every authority, even when it fails half-way. */
  lemma CluesKeepAuthority(log: seq<Event>, account: Account, clues: Clues, drawn: Drawn)
    requires EnoughIds(clues, drawn) && FreshIds(log, drawn.ids)
    ensures AuthorityKept(log, RecordClues(log, account, clues, drawn).log)
  {
    hide Lookup, After, Update, AuthorityKept, CluesAccepted, Learnable, FirstN;
    SameKeepsAuthority(log);
    var accepted := CluesAccepted(log, account, clues);
    if accepted.Ok? {
      var was := accepted.value;
      var patch := ParticipantClues(was, clues);
      var relations := FirstN(clues.relations, MAX_LIST);
      var next := After(log, patch, drawn.now, drawn.ids[0]);
      LearningPatchIsCandidate(log, patch, drawn.now, drawn.ids[0]);
      RestStaysFresh(log, drawn.ids, patch, drawn.now);
      if Update(log, patch, drawn.now, drawn.ids[0]).Ok? {
        forall i | 0 <= i < |relations|
          ensures Learnable(Lookup(next, CardKey(relations[i].id)))
        {
          StaysLearnable(log, next, CardKey(relations[i].id));
        }
        CardsKeepAuthority(log, next, was.id, clues, relations, drawn.now, drawn.ids[1..]);
        AuthorityKeptChains(log, next, RecordClues(log, account, clues, drawn).log);
      } else {
        NoChange(log, patch, drawn.now, drawn.ids[0]);
      }
    }
  }

  lemma NoChange(log: seq<Event>, patch: Patch, now: int, id: EventId)
    requires Update(log, patch, now, id).Err?
    ensures After(log, patch, now, id) == log
  {
    hide Update;
  }

  // ---- Runs of learning ----

  datatype Lesson = Observed(account: Account, drawn: Drawn) | Clued(account: Account, clues: Clues, drawn: Drawn)

  function Learn(log: seq<Event>, lesson: Lesson): seq<Event>
    requires ProperDraw(lesson)
  {
    match lesson
    case Observed(account, drawn) => ObserveEndpoint(log, account, drawn).log
    case Clued(account, clues, drawn) => RecordClues(log, account, clues, drawn).log
  }

  predicate ProperDraw(lesson: Lesson) {
    if lesson.Observed? then |lesson.drawn.ids| == 2 else EnoughIds(lesson.clues, lesson.drawn)
  }

  function LearnAll(log: seq<Event>, lessons: seq<Lesson>): seq<Event>
    requires forall i :: 0 <= i < |lessons| ==> ProperDraw(lessons[i])
    decreases |lessons|
  {
    if lessons == [] then log else Learn(LearnAll(log, lessons[..|lessons| - 1]), lessons[|lessons| - 1])
  }

  /** Every lesson draws event ids nobody used. */
  ghost predicate FreshRun(log: seq<Event>, lessons: seq<Lesson>)
    requires forall i :: 0 <= i < |lessons| ==> ProperDraw(lessons[i])
  {
    forall i :: 0 <= i < |lessons| ==> FreshIds(LearnAll(log, lessons[..i]), lessons[i].drawn.ids)
  }

  /** No run of learning changes anything but undisputed candidates, and those stay undisputed candidates. */
  lemma {:induction false} LearningKeepsAuthority(log: seq<Event>, lessons: seq<Lesson>)
    requires forall i :: 0 <= i < |lessons| ==> ProperDraw(lessons[i])
    requires FreshRun(log, lessons)
    ensures AuthorityKept(log, LearnAll(log, lessons))
    decreases |lessons|
  {
    hide AuthorityKept, FreshIds, ObserveEndpoint, RecordClues;
    SameKeepsAuthority(log);
    if lessons != [] {
      var n := |lessons| - 1;
      var front, last := lessons[..n], lessons[n];
      forall i | 0 <= i < n
        ensures FreshIds(LearnAll(log, front[..i]), front[i].drawn.ids)
      {
        assert front[..i] == lessons[..i];
      }
      LearningKeepsAuthority(log, front);
      var middle := LearnAll(log, front);
      match last {
        case Observed(account, drawn) => ObservationKeepsAuthority(middle, account, drawn);
        case Clued(account, clues, drawn) => CluesKeepAuthority(middle, account, clues, drawn);
      }
      AuthorityKeptChains(log, middle, LearnAll(log, lessons));
    }
  }

  // ---- What is confirmed ----

  /** A participant that is confirmed or corrected, with its conflict if there is one. */
  function ConfirmedPerson(log: seq<Event>, id: string): Option<Collapsed> {
    var found := Lookup(log, PersonKey(id));
    if found.Some? && found.value.record.Participant? && Authoritative(found.value.record.status) then found else None
  }

  function AccountLinks(log: seq<Event>, id: string): seq<Link> {
    AuthoritativeLinks(LinksOf(AccountOf(log, id)))
  }

  function DecidedCard(log: seq<Event>, id: string): Option<Collapsed> {
    var found := Lookup(log, CardKey(id));
    if found.Some? && found.value.record.Card? && found.value.record.status != Candidate then found else None
  }

  /** The participants of links that are known without conflict and not retired. */
  function UsableParticipants(log: seq<Event>, links: seq<Link>): seq<Record> {
    if links == [] then []
    else
      var found := Lookup(log, PersonKey(links[0].participantId));
      var usable := found.Some? && found.value.record.Participant? && !found.value.conflicted && ActiveIdentity(found.value.record.status);
      (if usable then [found.value.record] else []) + UsableParticipants(log, links[1..])
  }

  function AuthoritativeOnes(people: seq<Record>): seq<Record> {
    if people == [] then []
    else
      (if people[0].Participant? && Authoritative(people[0].status) then [people[0]] else []) + AuthoritativeOnes(people[1..])
  }

  /** The participant a lookup of the account reports as confirmed. */
  function ConfirmedParticipant(log: seq<Event>, id: string): Option<Record> {
    var account := AccountOf(log, id);
    var links := if account.Some? && !account.value.conflicted then AuthoritativeLinks(LinksOf(account)) else [];
    var matches := AuthoritativeOnes(UsableParticipants(log, links));
    if |matches| == 1 && |links| == 1 then Some(matches[0]) else None
  }

  lemma OnePersonLinked(log: seq<Event>, link: Link)
    ensures var confirmed := ConfirmedPerson(log, link.participantId);
            AuthoritativeOnes(UsableParticipants(log, [link]))
              == if confirmed.Some? && !confirmed.value.conflicted then [confirmed.value.record] else []
  {
    hide Lookup;
    assert [link][1..] == [];
    assert UsableParticipants(log, []) == [];
    var people := UsableParticipants(log, [link]);
    if people != [] {
      assert people[1..] == [];
    }
  }

  /** A lookup names a participant exactly when the undisputed account has one authoritative link, to an undisputed confirmed one. */
  lemma ConfirmedParticipantIff(log: seq<Event>, id: string, person: Record)
    ensures ConfirmedParticipant(log, id) == Some(person) <==>
            var account := AccountOf(log, id);
            && account.Some? && !account.value.conflicted && |AccountLinks(log, id)| == 1
            && var confirmed := ConfirmedPerson(log, AccountLinks(log, id)[0].participantId);
               confirmed.Some? && !confirmed.value.conflicted && confirmed.value.record == person
  {
    hide Lookup, AuthoritativeLinks, LinksOf;
    var links := AccountLinks(log, id);
    if |links| == 1 {
      OnePersonLinked(log, links[0]);
      assert links == [links[0]];
    }
  }

  lemma UnchangedPerson(before: seq<Event>, after: seq<Event>, id: string)
    requires AuthorityKept(before, after)
    ensures ConfirmedPerson(after, id) == ConfirmedPerson(before, id)
  {
    hide Lookup;
    LookupIsKeyed(before, PersonKey(id));
    LookupIsKeyed(after, PersonKey(id));
  }

  lemma UnchangedCard(before: seq<Event>, after: seq<Event>, id: string)
    requires AuthorityKept(before, after)
    ensures DecidedCard(after, id) == DecidedCard(before, id)
  {
    hide Lookup;
    LookupIsKeyed(before, CardKey(id));
    LookupIsKeyed(after, CardKey(id));
  }

  lemma UnchangedLinks(before: seq<Event>, after: seq<Event>, id: string)
    requires AuthorityKept(before, after)
    ensures AccountLinks(after, id) == AccountLinks(before, id)
    ensures AccountLinks(before, id) != [] ==> AccountOf(after, id) == AccountOf(before, id)
  {
    hide Lookup;
    LookupIsKeyed(before, AccountKey(id));
    LookupIsKeyed(after, AccountKey(id));
  }

  lemma UnchangedLookup(before: seq<Event>, after: seq<Event>, id: string)
    requires AuthorityKept(before, after)
    ensures ConfirmedParticipant(after, id) == ConfirmedParticipant(before, id)
  {
    hide ConfirmedParticipant, AccountLinks, ConfirmedPerson, AccountOf, AuthorityKept;
    UnchangedLinks(before, after, id);
    var one, other := ConfirmedParticipant(before, id), ConfirmedParticipant(after, id);
    if |AccountLinks(before, id)| == 1 {
      UnchangedPerson(before, after, AccountLinks(before, id)[0].participantId);
    }
    if one.Some? {
      ConfirmedParticipantIff(before, id, one.value);
      ConfirmedParticipantIff(after, id, one.value);
    } else if other.Some? {
      ConfirmedParticipantIff(before, id, other.value);
      ConfirmedParticipantIff(after, id, other.value);
    }
  }

  /**
   * Learning never grants authority: over every run, confirmed and corrected participants, authoritative links, decided
   * relation cards and the confirmed participant of every account lookup stay the same.
   */
  lemma LearningGrantsNothing(log: seq<Event>, lessons: seq<Lesson>, id: string)
    requires forall i :: 0 <= i < |lessons| ==> ProperDraw(lessons[i])
    requires FreshRun(log, lessons)
    ensures var after := LearnAll(log, lessons);
            && ConfirmedPerson(after, id) == ConfirmedPerson(log, id)
            && AccountLinks(after, id) == AccountLinks(log, id)
            && DecidedCard(after, id) == DecidedCard(log, id)
            && ConfirmedParticipant(after, id) == ConfirmedParticipant(log, id)
  {
    hide LearnAll, ConfirmedPerson, AccountLinks, DecidedCard, ConfirmedParticipant, AuthorityKept;
    var after := LearnAll(log, lessons);
    LearningKeepsAuthority(log, lessons);
    UnchangedPerson(log, after, id);
    UnchangedLinks(log, after, id);
    UnchangedCard(log, after, id);
    UnchangedLookup(log, after, id);
  }

  // ---- The log in memory ----

  class IdentityLog {
    var events: seq<Event>

    constructor ()
      ensures events == []
    {
      events := [];
    }

    method UpdateRelation(patch: Patch, now: int, id: EventId) returns (r: Result<Updated>)
      modifies this
      ensures r == Update(old(events), patch, now, id)
      ensures events == After(old(events), patch, now, id)
    {
      hide NextRecord, Lookup;
      var next := NextRecord(events, patch, now);
      if next.Err? {
        return Err(next.error);
      }
      var record := next.value;
      var state := ComputeState(events);
      var key := KeyOf(record);
      assert Lookup(events, key) == if key in state then Some(state[key]) else None;
      if key in state && !state[key].conflicted && !state[key].nameLent && WithoutTime(state[key].record) == WithoutTime(record) {
        return Ok(Updated(state[key].record, false));
      }
      var heads := ComputeHeads(GroupOf(events, key));
      events := events + [Event(id, record, Some(IdsOf(heads)))];
      r := Ok(Updated(record, true));
    }

    method Observe(account: Account, drawn: Drawn) returns (error: Option<UpdateError>)
      requires |drawn.ids| == 2
      modifies this
      ensures Learned(events, error) == ObserveEndpoint(old(events), account, drawn)
    {
      hide Lookup, Update, After, LinksOf, IsSelf, AuthoritativeLinks, ObservedParticipant, ParticipantObservation, AccountObservation;
      error := None;
      if account.platform.None? || account.namespace.None? || account.sender.None? {
        return;
      }
      var platform, namespace, sender := account.platform.value, account.namespace.value, account.sender.value;
      var before := events;
      var found := AccountOf(before, AccountId(platform, namespace, sender));
      if (found.Some? && found.value.conflicted) || IsSelf(found) || AuthoritativeLinks(LinksOf(found)) != [] {
        return;
      }
      var participant := ObservedParticipant(before, LinksOf(found), ObservedParticipantId(platform, namespace, sender), drawn.participant);
      if participant.None? {
        return;
      }
      var seen := FirstSeen(platform, namespace, sender);
      if Learnable(Lookup(before, PersonKey(participant.value))) {
        var patch := ParticipantObservation(before, participant.value, account.name, seen);
        var result := UpdateRelation(patch, drawn.now, drawn.ids[0]);
        if result.Err? {
          return Some(result.error);
        }
      }
      var result := UpdateRelation(AccountObservation(account, found, participant.value, seen), drawn.now, drawn.ids[1]);
      if result.Err? {
        error := Some(result.error);
      }
    }

    method Record(account: Account, clues: Clues, drawn: Drawn) returns (error: Option<UpdateError>)
      requires EnoughIds(clues, drawn)
      modifies this
      ensures Learned(events, error) == RecordClues(old(events), account, clues, drawn)
    {
      hide Lookup, Update, After, CluesAccepted, ParticipantClues, FirstN;
      var before := events;
      var accepted := CluesAccepted(before, account, clues);
      if accepted.Err? {
        return Some(accepted.error);
      }
      if !accepted.value.Participant? {
        return Some(NotLearnable);
      }
      var result := UpdateRelation(ParticipantClues(accepted.value, clues), drawn.now, drawn.ids[0]);
      if result.Err? {
        NoChange(before, ParticipantClues(accepted.value, clues), drawn.now, drawn.ids[0]);
        return Some(result.error);
      }
      error := RecordCardsInOrder(before, accepted.value.id, clues, FirstN(clues.relations, MAX_LIST), drawn.now, drawn.ids[1..]);
    }

    method RecordCardsInOrder(first: seq<Event>, subject: string, clues: Clues, relations: seq<RelationClue>, now: int,
                              ids: seq<EventId>) returns (error: Option<UpdateError>)
      requires |ids| == |relations|
      modifies this
      ensures Learned(events, error) == RecordCards(first, old(events), subject, clues, relations, now, ids)
    {
      hide Lookup, Update, After, CardClue;
      var i := 0;
      while i < |relations|
        invariant 0 <= i <= |relations|
        invariant RecordCards(first, events, subject, clues, relations[i..], now, ids[i..])
          == RecordCards(first, old(events), subject, clues, relations, now, ids)
      {
        var patch := CardClue(subject, relations[i], KnownEvidence(first, relations[i].id), clues.evidence);
        ghost var was := events;
        var result := UpdateRelation(patch, now, ids[i]);
        if result.Err? {
          NoChange(was, patch, now, ids[i]);
          return Some(result.error);
        }
        assert relations[i..][1..] == relations[i + 1..] && ids[i..][1..] == ids[i + 1..];
        i := i + 1;
      }
      error := None;
    }
  }
}
