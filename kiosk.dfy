/**
 * The current check-in back end: DOB-first record linkage over the people
 * projection, and the save path that either updates the matched identity
 * and its participant record or creates both afresh.
 */
module Kiosk {
  import opened Wrappers
  import opened Strings
  import opened Records
  import opened Normalize
  import opened Contacts
  import opened FlatFile
  import Matching

  /** The check-in state the front end hands to `submit_checkin` (missing keys read as `""`). */
  datatype CheckIn = CheckIn(
    firstName: string,
    lastName: string,
    dob: string,
    email: string,
    phone: string,
    newsletterEmail: string,
    newsletterPhone: string,
    studyCode: string,
    consentContact: string,
    enteredBy: string)

  datatype Action = CreatedNew | MatchedExisting {
    function Name(): string {
      match this
      case CreatedNew => "created_new"
      case MatchedExisting => "matched_existing"
    }
  }

  // ---------------------------------------------------------------------
  // Matching (`_email_matches`, `_phone_matches`, `find_person`)
  // ---------------------------------------------------------------------

  /** A normalized incoming value matches a record's primary (when set) or any of its secondaries. */
  predicate ContactMatch(k: ContactKind, primary: string, secondaries: seq<string>, valueN: string) {
    && valueN != ""
    && ((k.Normal(primary) != "" && k.Normal(primary) == valueN) || Listed(k, secondaries, valueN))
  }

  /** The loop of `_email_matches` and `_phone_matches`: does some listed value normalize to `valueN`? */
  method IsListed(k: ContactKind, xs: seq<string>, valueN: string) returns (b: bool)
    ensures b == Listed(k, xs, valueN)
  {
    b := AnyNormalizesTo(k.Normal, xs, valueN);
  }

  /** The loop itself, for any normalizer `f`. */
  method AnyNormalizesTo(f: string -> string, xs: seq<string>, v: string) returns (b: bool)
    ensures b <==> exists i :: 0 <= i < |xs| && f(xs[i]) == v
  {
    for i := 0 to |xs|
      invariant forall j :: 0 <= j < i ==> f(xs[j]) != v
    {
      if f(xs[i]) == v {
        return true;
      }
    }
    return false;
  }

  /** `_email_matches`. */
  method EmailMatches(p: Person, emailN: string) returns (b: bool)
    ensures b == ContactMatch(SecondaryEmail, p.primaryEmail, p.history.secondaryEmails, emailN)
    ensures emailN == "" ==> !b
  {
    if emailN == "" {
      return false;
    }
    var primary := NormalizeEmail(p.primaryEmail);
    if primary != "" && primary == emailN {
      return true;
    }
    b := IsListed(SecondaryEmail, p.history.secondaryEmails, emailN);
  }

  /** `_phone_matches`. */
  method PhoneMatches(p: Person, phoneN: string) returns (b: bool)
    ensures b == ContactMatch(SecondaryPhone, p.primaryPhone, p.history.secondaryPhones, phoneN)
    ensures phoneN == "" ==> !b
  {
    if phoneN == "" {
      return false;
    }
    var primary := NormalizePhone(p.primaryPhone);
    if primary != "" && primary == phoneN {
      return true;
    }
    b := IsListed(SecondaryPhone, p.history.secondaryPhones, phoneN);
  }

  /** The confirmation score: +2 for first and last name, +1 for email, +1 for phone. */
  function Score(p: Person, s: CheckIn): (r: int)
    ensures 0 <= r <= 4
    ensures r >= Matching.AcceptScore <==>
      NamesMatch(p.firstName, p.lastName, s.firstName, s.lastName)
      || (ContactMatch(SecondaryEmail, p.primaryEmail, p.history.secondaryEmails, NormalizeEmail(s.email))
          && ContactMatch(SecondaryPhone, p.primaryPhone, p.history.secondaryPhones, NormalizePhone(s.phone)))
  {
    (if NamesMatch(p.firstName, p.lastName, s.firstName, s.lastName) then 2 else 0)
    + (if ContactMatch(SecondaryEmail, p.primaryEmail, p.history.secondaryEmails, NormalizeEmail(s.email)) then 1 else 0)
    + (if ContactMatch(SecondaryPhone, p.primaryPhone, p.history.secondaryPhones, NormalizePhone(s.phone)) then 1 else 0)
  }

  /** The candidates: people whose stored date of birth equals the submitted one. */
  function Eligible(people: seq<Person>, dob: string): (r: seq<bool>)
    ensures |r| == |people| && forall i :: 0 <= i < |people| ==> (r[i] <==> people[i].dob == dob)
  {
    seq(|people|, i requires 0 <= i < |people| => people[i].dob == dob)
  }

  function Scores(people: seq<Person>, s: CheckIn): (r: seq<int>)
    ensures |r| == |people| && forall i :: 0 <= i < |people| ==> r[i] == Score(people[i], s)
  {
    seq(|people|, i requires 0 <= i < |people| => Score(people[i], s))
  }

  /** The person a check-in links to. */
  function Match(people: seq<Person>, s: CheckIn): (r: Option<nat>)
    ensures r.Some? ==> r.value < |people|
  {
    Matching.Select(Eligible(people, s.dob), Scores(people, s))
  }

  /**
   * `find_person`: the candidate filter and the scoring loop, fused into one
   * pass over the people in order.
   */
  method FindPerson(people: seq<Person>, s: CheckIn) returns (r: Option<nat>)
    ensures r == Match(people, s)
    ensures Matching.Chooses(Eligible(people, s.dob), Scores(people, s), r)
  {
    var emailN := NormalizeEmail(s.email);
    var phoneN := NormalizePhone(s.phone);
    ghost var eligible := Eligible(people, s.dob);
    ghost var scores := Scores(people, s);
    var best: Option<nat> := None;
    var bestScore := -1;
    for i := 0 to |people|
      invariant best == Matching.BestIn(eligible, scores, i)
      invariant bestScore == if best.Some? then scores[best.value] else -1
    {
      var p := people[i];
      Matching.BestInStep(eligible, scores, i);
      if p.dob == s.dob {
        var score := ScoreCandidate(p, s, emailN, phoneN);
        if score > bestScore {
          bestScore := score;
          best := Some(i);
        }
      }
    }
    r := if bestScore >= Matching.AcceptScore then best else None;
  }

  /** The body of the scoring loop: one candidate's confirmation score. */
  method ScoreCandidate(p: Person, s: CheckIn, emailN: string, phoneN: string) returns (score: int)
    requires emailN == NormalizeEmail(s.email) && phoneN == NormalizePhone(s.phone)
    ensures score == Score(p, s)
  {
    score := 0;
    if NamesMatch(p.firstName, p.lastName, s.firstName, s.lastName) {
      score := score + 2;
    }
    var emailHit := EmailMatches(p, emailN);
    if emailHit {
      score := score + 1;
    }
    var phoneHit := PhoneMatches(p, phoneN);
    if phoneHit {
      score := score + 1;
    }
  }

  /** A candidate whose first and last names match is always enough for a match. */
  lemma NameMatchSuffices(people: seq<Person>, s: CheckIn, i: nat)
    requires i < |people| && people[i].dob == s.dob
    requires NamesMatch(people[i].firstName, people[i].lastName, s.firstName, s.lastName)
    ensures Match(people, s).Some?
    ensures people[Match(people, s).value].dob == s.dob
  {
    Matching.HighScoreMatches(Eligible(people, s.dob), Scores(people, s), i);
  }

  /** Without a name match, one of email or phone alone never links to a person. */
  lemma OneContactNeverSuffices(people: seq<Person>, s: CheckIn)
    requires forall i :: 0 <= i < |people| && people[i].dob == s.dob ==>
      && !NamesMatch(people[i].firstName, people[i].lastName, s.firstName, s.lastName)
      && !(ContactMatch(SecondaryEmail, people[i].primaryEmail, people[i].history.secondaryEmails, NormalizeEmail(s.email))
           && ContactMatch(SecondaryPhone, people[i].primaryPhone, people[i].history.secondaryPhones, NormalizePhone(s.phone)))
    ensures Match(people, s) == None
  {
    var eligible := Eligible(people, s.dob);
    var scores := Scores(people, s);
    assert Matching.Chooses(eligible, scores, None);
    Matching.ChoiceUnique(eligible, scores, Match(people, s), None);
  }

  // ---------------------------------------------------------------------
  // `find_participant_by_guid`
  // ---------------------------------------------------------------------

  /** The first participant carrying `guid`. */
  function ParticipantIndex(ps: seq<Participant>, guid: string): (r: Option<nat>)
    ensures r.Some? ==> r.value < |ps| && ps[r.value].guid == guid && forall j :: 0 <= j < r.value ==> ps[j].guid != guid
    ensures r.None? ==> forall j :: 0 <= j < |ps| ==> ps[j].guid != guid
    decreases |ps|
  {
    if ps == [] then None
    else if ps[0].guid == guid then Some(0)
    else
      match ParticipantIndex(ps[1..], guid)
      case Some(i) => Some(i + 1)
      case None => None
  }

  method FindParticipantByGuid(ps: seq<Participant>, guid: string) returns (r: Option<nat>)
    ensures r == ParticipantIndex(ps, guid)
  {
    for i := 0 to |ps|
      invariant forall j :: 0 <= j < i ==> ps[j].guid != guid
    {
      if ps[i].guid == guid {
        ParticipantIndexUnique(ps, guid, Some(i));
        return Some(i);
      }
    }
    ParticipantIndexUnique(ps, guid, None);
    return None;
  }

  /** The contract of `ParticipantIndex` pins its result down. */
  lemma ParticipantIndexUnique(ps: seq<Participant>, guid: string, r: Option<nat>)
    requires r.Some? ==> r.value < |ps| && ps[r.value].guid == guid && forall j :: 0 <= j < r.value ==> ps[j].guid != guid
    requires r.None? ==> forall j :: 0 <= j < |ps| ==> ps[j].guid != guid
    ensures r == ParticipantIndex(ps, guid)
  {
  }

  // ---------------------------------------------------------------------
  // Record updates of `submit_checkin`
  // ---------------------------------------------------------------------

  /**
   * The `if email:` / `if phone:` block for one record: with a non-empty
   * entry, an empty primary is filled (without a log row), and a value that
   * differs from a set primary goes to the secondary list.
   */
  function MergeContact(k: ContactKind, primary: string, h: ContactHistory, raw: string, n: int, dt: string, now: string): (r: (string, ContactHistory))
    requires k == SecondaryEmail || k == SecondaryPhone
    ensures raw == "" ==> r == (primary, h)
    ensures raw != "" && primary == "" ==> r == (k.Normal(raw), h)
    ensures primary != "" ==> r.0 == primary
    ensures r.1 == h || r.1 == AddContact(h, k, raw, n, dt, now).1
    ensures r.1 != h <==> raw != "" && primary != "" && k.Normal(raw) != k.Normal(primary) && AddContact(h, k, raw, n, dt, now).0
    ensures r.1.newsletterEmails == h.newsletterEmails && r.1.newsletterPhones == h.newsletterPhones
  {
    if raw == "" then (primary, h)
    else if primary == "" then (k.Normal(raw), h)
    else if k.Normal(raw) != k.Normal(primary) then
      var added := AddContact(h, k, raw, n, dt, now);
      assert added.0 ==> |ListOf(added.1, k)| == |ListOf(h, k)| + 1;
      (primary, added.1)
    else (primary, h)
  }

  lemma MergeContactKeepsHistoryOk(k: ContactKind, primary: string, h: ContactHistory, raw: string, n: int, dt: string, now: string)
    requires k == SecondaryEmail || k == SecondaryPhone
    ensures HistoryOk(h) ==> HistoryOk(MergeContact(k, primary, h, raw, n, dt, now).1)
  {
    AddContactKeepsHistoryOk(h, k, raw, n, dt, now);
  }

  /** The `visit` record a check-in at `now` builds before linking: numbered 1 until the matched path renumbers it. */
  function CheckInVisit(s: CheckIn, now: string): Visit {
    Visit(Int(1), now, DatePart(now), TimePart(now), s.studyCode, s.consentContact, s.enteredBy)
  }

  /** `if newsletter_email: add_newsletter_email(...)` and the same for the phone. */
  function AddNewsletter(h: ContactHistory, s: CheckIn, n: int, now: string): (r: ContactHistory)
    ensures HistoryOk(h) ==> HistoryOk(r)
    ensures r.secondaryEmails == h.secondaryEmails && r.secondaryPhones == h.secondaryPhones
  {
    var h1 := if s.newsletterEmail != "" then AddContact(h, NewsletterEmail, s.newsletterEmail, n, now, now).1 else h;
    var h2 := if s.newsletterPhone != "" then AddContact(h1, NewsletterPhone, s.newsletterPhone, n, now, now).1 else h1;
    AddContactKeepsHistoryOk(h, NewsletterEmail, s.newsletterEmail, n, now, now);
    AddContactKeepsHistoryOk(h1, NewsletterPhone, s.newsletterPhone, n, now, now);
    h2
  }

  /** The matched person after the check-in: seen now, contacts merged, identity untouched. */
  function MatchedPerson(p: Person, s: CheckIn, n: int, now: string): (r: Person)
    ensures r.guid == p.guid && r.firstName == p.firstName && r.lastName == p.lastName && r.dob == p.dob
    ensures r.createdAt == p.createdAt && r.lastSeenAt == now
    ensures p.primaryEmail != "" ==> r.primaryEmail == p.primaryEmail
    ensures p.primaryPhone != "" ==> r.primaryPhone == p.primaryPhone
    ensures r.history.newsletterEmails == p.history.newsletterEmails && r.history.newsletterPhones == p.history.newsletterPhones
    ensures HistoryOk(p.history) ==> HistoryOk(r.history)
  {
    var (email, h1) := MergeContact(SecondaryEmail, p.primaryEmail, p.history, s.email, n, now, now);
    var (phone, h2) := MergeContact(SecondaryPhone, p.primaryPhone, h1, s.phone, n, now, now);
    MergeContactKeepsHistoryOk(SecondaryEmail, p.primaryEmail, p.history, s.email, n, now, now);
    MergeContactKeepsHistoryOk(SecondaryPhone, p.primaryPhone, h1, s.phone, n, now, now);
    p.(lastSeenAt := now, primaryEmail := email, primaryPhone := phone, history := h2)
  }

  /**
   * The matched person's participant record after the check-in: contacts
   * merged, newsletter contacts added, the visit appended as number `n`.
   */
  function MatchedParticipant(q: Participant, s: CheckIn, visit: Visit, n: int, now: string): (r: Participant)
    ensures r.guid == q.guid && r.firstName == q.firstName && r.lastName == q.lastName && r.dob == q.dob
    ensures r.createdAt == q.createdAt && r.consentContact == q.consentContact
    ensures r.visits == q.visits + [visit.(visitNumber := Int(n))]
    ensures q.email != "" ==> r.email == q.email
    ensures q.phone != "" ==> r.phone == q.phone
    ensures HistoryOk(q.history) ==> HistoryOk(r.history)
  {
    var (email, h1) := MergeContact(SecondaryEmail, q.email, q.history, s.email, n, now, now);
    var (phone, h2) := MergeContact(SecondaryPhone, q.phone, h1, s.phone, n, now, now);
    MergeContactKeepsHistoryOk(SecondaryEmail, q.email, q.history, s.email, n, now, now);
    MergeContactKeepsHistoryOk(SecondaryPhone, q.phone, h1, s.phone, n, now, now);
    q.(email := email, phone := phone, history := AddNewsletter(h2, s, n, now), visits := q.visits + [visit.(visitNumber := Int(n))])
  }

  /** The contact history of a fresh record: only the newsletter contacts, logged as visit 1. */
  function FreshHistory(s: CheckIn, now: string): (r: ContactHistory)
    ensures r.secondaryEmails == [] && r.secondaryPhones == []
  {
    AddNewsletter(EmptyHistory, s, 1, now)
  }

  lemma FreshHistoryOk(s: CheckIn, now: string)
    ensures HistoryOk(FreshHistory(s, now))
  {
    EmptyHistoryOk();
  }

  /** A participant's first visit is numbered 1. */
  lemma FirstVisitNumbered(visit: Visit)
    ensures VisitsNumbered([visit.(visitNumber := Int(1))])
  {
  }

  /** A fresh person record: names stripped, contacts normalized, newsletter contacts logged as visit 1. */
  function NewPerson(guid: string, s: CheckIn, now: string): (r: Person)
    ensures r.guid == guid && r.dob == s.dob
    ensures r.firstName == Trim(Python, s.firstName) && r.lastName == Trim(Python, s.lastName)
    ensures r.primaryEmail == NormalizeEmail(s.email) && r.primaryPhone == NormalizePhone(s.phone)
    ensures r.history.secondaryEmails == [] && r.history.secondaryPhones == []
    ensures r.createdAt == now && r.lastSeenAt == now
    ensures HistoryOk(r.history)
  {
    FreshHistoryOk(s, now);
    Person(guid, Trim(Python, s.firstName), Trim(Python, s.lastName), s.dob, NormalizeEmail(s.email),
           NormalizePhone(s.phone), FreshHistory(s, now), now, now)
  }

  /** A fresh participant record holding this one visit, numbered 1. */
  function NewParticipant(guid: string, s: CheckIn, visit: Visit, now: string): (r: Participant)
    ensures r.guid == guid && r.dob == s.dob
    ensures r.firstName == Trim(Python, s.firstName) && r.lastName == Trim(Python, s.lastName)
    ensures r.email == NormalizeEmail(s.email) && r.phone == NormalizePhone(s.phone)
    ensures r.visits == [visit.(visitNumber := Int(1))] && VisitsNumbered(r.visits)
    ensures r.history.secondaryEmails == [] && r.history.secondaryPhones == []
    ensures r.consentContact == s.consentContact && r.createdAt == now
    ensures HistoryOk(r.history)
  {
    FreshHistoryOk(s, now);
    FirstVisitNumbered(visit);
    Participant(guid, Trim(Python, s.firstName), Trim(Python, s.lastName), s.dob, NormalizeEmail(s.email),
                NormalizePhone(s.phone), FreshHistory(s, now), s.consentContact, now,
                [visit.(visitNumber := Int(1))])
  }

  // ---------------------------------------------------------------------
  // `submit_checkin`
  // ---------------------------------------------------------------------

  /** The two projections after a check-in, with the GUID and action returned. */
  datatype Outcome = Outcome(people: seq<Person>, participants: seq<Participant>, guid: string, action: Action)

  /** The visit number the matched path uses: one past the participant's visits, or 1 without a participant. */
  function NextVisitNumber(participants: seq<Participant>, guid: string): int {
    match ParticipantIndex(participants, guid)
    case Some(j) => |participants[j].visits| + 1
    case None => 1
  }

  /**
   * `submit_checkin` with the participant block of the matched path at the
   * level of the `if email:` block; the code as written nests it in
   * `if phone:` (see `SubmittedAsWritten`).
   */
  function Submitted(people: seq<Person>, participants: seq<Participant>, s: CheckIn, now: string, freshGuid: string): Outcome {
    match Match(people, s)
    case Some(i) =>
      var p := people[i];
      var n := NextVisitNumber(participants, p.guid);
      var participants' :=
        match ParticipantIndex(participants, p.guid)
        case Some(j) => participants[j := MatchedParticipant(participants[j], s, CheckInVisit(s, now), n, now)]
        case None => participants + [NewParticipant(p.guid, s, CheckInVisit(s, now), now)];
      Outcome(people[i := MatchedPerson(p, s, n, now)], participants', p.guid, MatchedExisting)
    case None =>
      Outcome(people + [NewPerson(freshGuid, s, now)], participants + [NewParticipant(freshGuid, s, CheckInVisit(s, now), now)], freshGuid, CreatedNew)
  }

  /** What a call of the code as written ends in: a return, or the `UnboundLocalError` on `action`. */
  datatype Ending = Returned(guid: string, action: Action) | Raised

  /**
   * `submit_checkin` as written: the matched path assigns `action` inside
   * `if phone:`, so with an empty phone only the person is updated, the
   * files are exported, and the `return` raises.
   */
  function SubmittedAsWritten(people: seq<Person>, participants: seq<Participant>, s: CheckIn, now: string, freshGuid: string): (seq<Person>, seq<Participant>, Ending) {
    var o := Submitted(people, participants, s, now, freshGuid);
    match Match(people, s)
    case Some(i) =>
      if s.phone == "" then
        (people[i := MatchedPerson(people[i], s, NextVisitNumber(participants, people[i].guid), now)], participants, Raised)
      else (o.people, o.participants, Returned(o.guid, o.action))
    case None => (o.people, o.participants, Returned(o.guid, o.action))
  }

  /** The discrepancy: a returning participant checked in without a phone gets no visit and the call raises. */
  lemma MatchedWithoutPhoneRaises(people: seq<Person>, participants: seq<Participant>, s: CheckIn, now: string, freshGuid: string)
    requires Match(people, s).Some? && s.phone == ""
    ensures var (_, participants', ending) := SubmittedAsWritten(people, participants, s, now, freshGuid);
      ending == Raised && participants' == participants
    ensures var o := Submitted(people, participants, s, now, freshGuid);
      o.action == MatchedExisting && o.guid == people[Match(people, s).value].guid
      && (ParticipantIndex(participants, o.guid).Some? ==>
            && |o.participants| == |participants|
            && o.participants[ParticipantIndex(participants, o.guid).value].visits
               == participants[ParticipantIndex(participants, o.guid).value].visits + [CheckInVisit(s, now).(visitNumber := Int(NextVisitNumber(participants, o.guid)))])
  {
  }

  /** With a phone the code as written and the corrected one agree. */
  lemma AsWrittenAgreesWithPhone(people: seq<Person>, participants: seq<Participant>, s: CheckIn, now: string, freshGuid: string)
    requires s.phone != "" || Match(people, s).None?
    ensures var o := Submitted(people, participants, s, now, freshGuid);
      SubmittedAsWritten(people, participants, s, now, freshGuid) == (o.people, o.participants, Returned(o.guid, o.action))
  {
  }

  // ---------------------------------------------------------------------
  // The invariant of the two projections
  // ---------------------------------------------------------------------

  /**
   * GUIDs are unique in each projection, every participant has its person,
   * contact histories are as the appenders keep them, and visits are
   * numbered 1, 2, ... in order.
   */
  predicate StoreOk(people: seq<Person>, participants: seq<Participant>) {
    && Distinct(PersonGuids(people))
    && Distinct(ParticipantGuids(participants))
    && (forall j :: 0 <= j < |participants| ==> participants[j].guid in PersonGuids(people))
    && (forall i :: 0 <= i < |people| ==> HistoryOk(people[i].history))
    && (forall j :: 0 <= j < |participants| ==> HistoryOk(participants[j].history) && VisitsNumbered(participants[j].visits))
  }

  predicate FreshGuid(people: seq<Person>, participants: seq<Participant>, guid: string) {
    guid !in PersonGuids(people) && guid !in ParticipantGuids(participants)
  }

  lemma CreatingKeepsStoreOk(people: seq<Person>, participants: seq<Participant>, p: Person, q: Participant)
    requires StoreOk(people, participants) && FreshGuid(people, participants, p.guid)
    requires q.guid == p.guid && HistoryOk(p.history) && HistoryOk(q.history) && VisitsNumbered(q.visits)
    ensures StoreOk(people + [p], participants + [q])
  {
    assert PersonGuids(people + [p]) == PersonGuids(people) + [p.guid];
    assert ParticipantGuids(participants + [q]) == ParticipantGuids(participants) + [q.guid];
  }

  lemma UpdatingKeepsStoreOk(people: seq<Person>, participants: seq<Participant>, i: nat, p: Person, j: nat, q: Participant)
    requires StoreOk(people, participants) && i < |people| && j < |participants|
    requires p.guid == people[i].guid && HistoryOk(p.history)
    requires q.guid == participants[j].guid && HistoryOk(q.history) && VisitsNumbered(q.visits)
    ensures StoreOk(people[i := p], participants[j := q])
  {
    assert PersonGuids(people[i := p]) == PersonGuids(people);
    assert ParticipantGuids(participants[j := q]) == ParticipantGuids(participants);
  }

  lemma UpdatingAndAddingKeepsStoreOk(people: seq<Person>, participants: seq<Participant>, i: nat, p: Person, q: Participant)
    requires StoreOk(people, participants) && i < |people|
    requires p.guid == people[i].guid && HistoryOk(p.history)
    requires q.guid == p.guid && q.guid !in ParticipantGuids(participants) && HistoryOk(q.history) && VisitsNumbered(q.visits)
    ensures StoreOk(people[i := p], participants + [q])
  {
    assert PersonGuids(people[i := p]) == PersonGuids(people);
    assert ParticipantGuids(participants + [q]) == ParticipantGuids(participants) + [q.guid];
    assert q.guid == PersonGuids(people)[i];
  }

  /** Appending visit number `|visits| + 1` keeps the numbering. */
  lemma NextVisitKeepsNumbering(visits: seq<Visit>, v: Visit)
    requires VisitsNumbered(visits) && v.visitNumber == Int(|visits| + 1)
    ensures VisitsNumbered(visits + [v])
  {
  }

  /** A check-in keeps the store well formed. */
  lemma SubmittedKeepsStoreOk(people: seq<Person>, participants: seq<Participant>, s: CheckIn, now: string, freshGuid: string)
    requires StoreOk(people, participants) && FreshGuid(people, participants, freshGuid)
    ensures var o := Submitted(people, participants, s, now, freshGuid); StoreOk(o.people, o.participants)
  {
    match Match(people, s) {
      case Some(i) =>
        var p := people[i];
        var n := NextVisitNumber(participants, p.guid);
        var p' := MatchedPerson(p, s, n, now);
        match ParticipantIndex(participants, p.guid) {
          case Some(j) =>
            var v := CheckInVisit(s, now).(visitNumber := Int(n));
            var q' := MatchedParticipant(participants[j], s, CheckInVisit(s, now), n, now);
            NextVisitKeepsNumbering(participants[j].visits, v);
            UpdatingKeepsStoreOk(people, participants, i, p', j, q');
          case None =>
            UpdatingAndAddingKeepsStoreOk(people, participants, i, p', NewParticipant(p.guid, s, CheckInVisit(s, now), now));
        }
      case None =>
        CreatingKeepsStoreOk(people, participants, NewPerson(freshGuid, s, now), NewParticipant(freshGuid, s, CheckInVisit(s, now), now));
    }
  }

  /** Updating one person's contacts and last visit, and nothing else, keeps the invariant. */
  lemma UpdatingPersonKeepsStoreOk(people: seq<Person>, participants: seq<Participant>, i: nat, p: Person)
    requires StoreOk(people, participants) && i < |people|
    requires p.guid == people[i].guid && HistoryOk(p.history)
    ensures StoreOk(people[i := p], participants)
  {
    assert PersonGuids(people[i := p]) == PersonGuids(people);
  }

  /** The check-in as written keeps the store well formed too, on both of its endings. */
  lemma SubmittedAsWrittenKeepsStoreOk(people: seq<Person>, participants: seq<Participant>, s: CheckIn, now: string, freshGuid: string)
    requires StoreOk(people, participants) && FreshGuid(people, participants, freshGuid)
    ensures var (people', participants', _) := SubmittedAsWritten(people, participants, s, now, freshGuid);
      StoreOk(people', participants')
  {
    if Match(people, s).Some? && s.phone == "" {
      var i := Match(people, s).value;
      UpdatingPersonKeepsStoreOk(people, participants, i, MatchedPerson(people[i], s, NextVisitNumber(participants, people[i].guid), now));
    } else {
      SubmittedKeepsStoreOk(people, participants, s, now, freshGuid);
      AsWrittenAgreesWithPhone(people, participants, s, now, freshGuid);
    }
  }

  /** Every projection of a well-formed store is written out, the de-identified export being derived from the participants. */
  function Exports(people: seq<Person>, participants: seq<Participant>): Files {
    Files(Present(PeopleRows(people)), Present(PersonUpdateRows(people)), Present(ParticipantRows(participants)),
          Present(VisitRows(participants)), Present(ParticipantUpdateRows(participants)),
          Present(DeidentifiedRows(participants)))
  }

  /** No contact value holds the list separator, so the pipe-joined columns read back. */
  predicate PipeFree(people: seq<Person>, participants: seq<Participant>) {
    && (forall i :: 0 <= i < |people| ==> HistoryListable(people[i].history))
    && (forall j :: 0 <= j < |participants| ==> HistoryListable(participants[j].history))
  }

  /** The files written after a check-in load back as the same store. */
  lemma ExportsLoadBack(people: seq<Person>, participants: seq<Participant>)
    requires StoreOk(people, participants) && PipeFree(people, participants)
    ensures var f := Exports(people, participants);
      && PeopleOf(ReadCsv(f.guidPeople), ReadCsv(f.guidContactUpdates)) == people
      && ParticipantsOf(ReadCsv(f.participants), ReadCsv(f.participantVisits), ReadCsv(f.participantContactUpdates)) == participants
  {
    StoreStorable(people, participants);
    ExportedFilesRead(people, participants);
    LoadExportedPeople(people);
    LoadExportedParticipants(participants);
  }

  lemma StoreStorable(people: seq<Person>, participants: seq<Participant>)
    requires StoreOk(people, participants) && PipeFree(people, participants)
    ensures PeopleStorable(people) && ParticipantsStorable(participants)
  {
  }

  lemma ExportedFilesRead(people: seq<Person>, participants: seq<Participant>)
    ensures var f := Exports(people, participants);
      && ReadCsv(f.guidPeople) == PeopleRows(people) && ReadCsv(f.guidContactUpdates) == PersonUpdateRows(people)
      && ReadCsv(f.participants) == ParticipantRows(participants) && ReadCsv(f.participantVisits) == VisitRows(participants)
      && ReadCsv(f.participantContactUpdates) == ParticipantUpdateRows(participants)
  {
  }

  /** The store of the current back end: the people and participants projections held in memory. */
  class Store {
    var people: seq<Person>
    var participants: seq<Participant>

    ghost predicate Valid()
      reads this
    {
      StoreOk(people, participants)
    }

    /** `load_guid_db` and `load_participants_db` over the files on disk. */
    constructor Load(files: Files)
      ensures people == PeopleOf(ReadCsv(files.guidPeople), ReadCsv(files.guidContactUpdates))
      ensures participants == ParticipantsOf(ReadCsv(files.participants), ReadCsv(files.participantVisits), ReadCsv(files.participantContactUpdates))
    {
      var ps := LoadGuidDb(ReadCsv(files.guidPeople), ReadCsv(files.guidContactUpdates));
      var qs := LoadParticipantsDb(ReadCsv(files.participants), ReadCsv(files.participantVisits), ReadCsv(files.participantContactUpdates));
      people := ps;
      participants := qs;
    }

    /**
     * `submit_checkin` on loaded projections, as written: link or create,
     * update the records in place, and export every file.  A linked
     * check-in without a phone updates only the person, and the call then
     * raises after the exports.  `now` stands for the clock and `freshGuid`
     * for `uuid4()`.
     */
    method Submit(s: CheckIn, now: string, freshGuid: string) returns (ending: Ending, written: Files)
      requires FreshGuid(people, participants, freshGuid)
      modifies this
      ensures (people, participants, ending) == SubmittedAsWritten(old(people), old(participants), s, now, freshGuid)
      ensures written == Exports(people, participants)
      ensures old(Valid()) ==> Valid()
    {
      if Valid() {
        SubmittedAsWrittenKeepsStoreOk(people, participants, s, now, freshGuid);
      }
      ending := Record(s, now, freshGuid);
      written := Export();
    }

    /** The linking and record updates of `submit_checkin`, before the exports. */
    method Record(s: CheckIn, now: string, freshGuid: string) returns (ending: Ending)
      modifies this
      ensures (people, participants, ending) == SubmittedAsWritten(old(people), old(participants), s, now, freshGuid)
    {
      var visit := CheckInVisit(s, now);
      var existing := FindPerson(people, s);
      if existing.Some? {
        var i := existing.value;
        var p := people[i];
        var guid := p.guid;
        var j := FindParticipantByGuid(participants, guid);
        var n := if j.Some? then |participants[j.value].visits| + 1 else 1;
        people := people[i := MatchedPerson(p, s, n, now)];
        if s.phone == "" {
          ending := Raised;
        } else {
          if j.Some? {
            participants := participants[j.value := MatchedParticipant(participants[j.value], s, visit, n, now)];
          } else {
            participants := participants + [NewParticipant(guid, s, visit, now)];
          }
          ending := Returned(guid, MatchedExisting);
        }
      } else {
        people := people + [NewPerson(freshGuid, s, now)];
        participants := participants + [NewParticipant(freshGuid, s, visit, now)];
        ending := Returned(freshGuid, CreatedNew);
      }
    }

    /** `export_guid_csv`, `export_participants_csv` and `export_deidentified_visits`: every file, from the projections in memory. */
    method Export() returns (written: Files)
      ensures written == Exports(people, participants)
    {
      var peopleRows, personUpdateRows := ExportGuid(people);
      var participantRows, visitRows, participantUpdateRows := ExportParticipants(participants);
      var deidentifiedRows := ExportDeidentified(participants);
      written := Files(Present(peopleRows), Present(personUpdateRows), Present(participantRows),
                       Present(visitRows), Present(participantUpdateRows), Present(deidentifiedRows));
    }
  }

  // ---------------------------------------------------------------------
  // What a check-in does, across calls
  // ---------------------------------------------------------------------

  /** A check-in that matches nobody adds exactly one person and one participant, under the fresh GUID. */
  lemma CreatedNewAddsOne(people: seq<Person>, participants: seq<Participant>, s: CheckIn, now: string, freshGuid: string)
    requires Match(people, s).None?
    ensures var o := Submitted(people, participants, s, now, freshGuid);
      && o.action == CreatedNew && o.guid == freshGuid
      && o.people[..|people|] == people && |o.people| == |people| + 1 && o.people[|people|].guid == freshGuid
      && o.participants[..|participants|] == participants && |o.participants| == |participants| + 1
      && o.participants[|participants|].visits == [CheckInVisit(s, now)]
  {
    var o := Submitted(people, participants, s, now, freshGuid);
    assert o.people == people + [NewPerson(freshGuid, s, now)];
  }

  lemma CreatedNewOutcome(people: seq<Person>, participants: seq<Participant>, s: CheckIn, now: string, freshGuid: string)
    requires Match(people, s).None?
    ensures Submitted(people, participants, s, now, freshGuid)
      == Outcome(people + [NewPerson(freshGuid, s, now)], participants + [NewParticipant(freshGuid, s, CheckInVisit(s, now), now)], freshGuid, CreatedNew)
  {
  }

  /** A matching check-in keeps the person count, changes only the matched person, and returns that person's GUID. */
  lemma MatchedChangesOnlyThatPerson(people: seq<Person>, participants: seq<Participant>, s: CheckIn, now: string, freshGuid: string)
    requires Match(people, s).Some?
    ensures var i := Match(people, s).value; var o := Submitted(people, participants, s, now, freshGuid);
      && o.action == MatchedExisting && o.guid == people[i].guid
      && |o.people| == |people|
      && (forall k :: 0 <= k < |people| && k != i ==> o.people[k] == people[k])
      && o.people[i].guid == people[i].guid && o.people[i].lastSeenAt == now
  {
  }

  /** A check-in matching a person who already has a participant record appends one visit, numbered next, to that record. */
  lemma MatchedAppendsVisit(people: seq<Person>, participants: seq<Participant>, s: CheckIn, now: string, freshGuid: string, i: nat, j: nat)
    requires Match(people, s) == Some(i) && ParticipantIndex(participants, people[i].guid) == Some(j)
    ensures var o := Submitted(people, participants, s, now, freshGuid);
      && o.action == MatchedExisting && o.guid == people[i].guid
      && |o.people| == |people| && |o.participants| == |participants|
      && o.participants[j].visits == participants[j].visits + [CheckInVisit(s, now).(visitNumber := Int(|participants[j].visits| + 1))]
  {
  }

  /** A participant appended under a new GUID is the one found by that GUID. */
  lemma AppendedParticipantFound(participants: seq<Participant>, q: Participant)
    requires q.guid !in ParticipantGuids(participants)
    ensures ParticipantIndex(participants + [q], q.guid) == Some(|participants|)
  {
    var qs := participants + [q];
    forall k | 0 <= k < |participants|
      ensures qs[k].guid != q.guid
    {
      assert ParticipantGuids(participants)[k] == participants[k].guid;
    }
    ParticipantIndexUnique(qs, q.guid, Some(|participants|));
  }

  /** The same person as a check-in: same date of birth, email and phone, and names equal once normalized. */
  predicate SameQuery(s: CheckIn, s2: CheckIn) {
    && s2.dob == s.dob && s2.email == s.email && s2.phone == s.phone
    && NormalizeName(s2.firstName) == NormalizeName(s.firstName) && NormalizeName(s2.lastName) == NormalizeName(s.lastName)
  }

  /** Matching sees only normalized names, so two such check-ins score every person alike. */
  lemma SameQuerySameScores(people: seq<Person>, s: CheckIn, s2: CheckIn)
    requires SameQuery(s, s2)
    ensures Eligible(people, s2.dob) == Eligible(people, s.dob) && Scores(people, s2) == Scores(people, s)
  {
    forall k | 0 <= k < |people|
      ensures Scores(people, s2)[k] == Scores(people, s)[k]
    {
      assert NamesMatch(people[k].firstName, people[k].lastName, s2.firstName, s2.lastName)
        == NamesMatch(people[k].firstName, people[k].lastName, s.firstName, s.lastName);
    }
  }

  /** A person added after a check-in that matched nobody is the one the same person's next check-in links to. */
  lemma AddedPersonMatchesAgain(people: seq<Person>, s: CheckIn, s2: CheckIn, p: Person)
    requires Match(people, s).None? && SameQuery(s, s2)
    requires p.dob == s.dob && NamesMatch(p.firstName, p.lastName, s2.firstName, s2.lastName)
    ensures Match(people + [p], s2) == Some(|people|)
  {
    var ps := people + [p];
    var i := |people|;
    var eligible := Eligible(ps, s2.dob);
    var scores := Scores(ps, s2);
    SameQuerySameScores(people, s, s2);
    assert scores[i] >= Matching.AcceptScore;
    forall j | 0 <= j < |ps| && j != i && eligible[j]
      ensures scores[j] < scores[i]
    {
      assert ps[j] == people[j];
      assert Scores(people, s2)[j] == scores[j];
      assert Eligible(people, s2.dob)[j];
    }
    Matching.UniqueBestChosen(eligible, scores, i);
  }

  /** The person created for a check-in carries that check-in's names and date of birth. */
  lemma NewPersonMatchesItsQuery(g: string, s: CheckIn, s2: CheckIn, now: string)
    requires SameQuery(s, s2)
    ensures var p := NewPerson(g, s, now);
      p.dob == s.dob && NamesMatch(p.firstName, p.lastName, s2.firstName, s2.lastName)
  {
    NormalizeNameOfTrim(s.firstName);
    NormalizeNameOfTrim(s.lastName);
  }

  /** The corrected check-in, twice for the same person: the second links to the first's GUID and records visit 2. */
  lemma ReturningParticipantRecordsVisit(people: seq<Person>, participants: seq<Participant>, s: CheckIn, s2: CheckIn, now: string, now2: string, g: string, g2: string)
    requires FreshGuid(people, participants, g)
    requires Match(people, s).None? && SameQuery(s, s2)
    ensures var o1 := Submitted(people, participants, s, now, g);
      var o2 := Submitted(o1.people, o1.participants, s2, now2, g2);
      && o2.action == MatchedExisting && o2.guid == g
      && |o2.people| == |people| + 1 && |o2.participants| == |participants| + 1
      && |o2.participants[|participants|].visits| == 2
      && o2.participants[|participants|].visits[1].visitNumber == Int(2)
  {
    var q := NewParticipant(g, s, CheckInVisit(s, now), now);
    var p := NewPerson(g, s, now);
    CreatedNewOutcome(people, participants, s, now, g);
    NewPersonMatchesItsQuery(g, s, s2, now);
    AddedPersonMatchesAgain(people, s, s2, p);
    AppendedParticipantFound(participants, q);
    MatchedAppendsVisit(people + [p], participants + [q], s2, now2, g2, |people|, |participants|);
  }

  /**
   * Checking the same person in twice, as written, creates one record: the
   * second check-in links to the GUID created by the first.  With a phone
   * it records a second visit; without one it records none and the call
   * raises.
   */
  lemma ReturningParticipantMatches(people: seq<Person>, participants: seq<Participant>, s: CheckIn, s2: CheckIn, now: string, now2: string, g: string, g2: string)
    requires FreshGuid(people, participants, g)
    requires Match(people, s).None? && SameQuery(s, s2)
    ensures var (people1, participants1, ending1) := SubmittedAsWritten(people, participants, s, now, g);
      var (people2, participants2, ending2) := SubmittedAsWritten(people1, participants1, s2, now2, g2);
      && ending1 == Returned(g, CreatedNew)
      && |people2| == |people| + 1 && |participants2| == |participants| + 1
      && (s2.phone != "" ==>
            && ending2 == Returned(g, MatchedExisting)
            && |participants2[|participants|].visits| == 2
            && participants2[|participants|].visits[1].visitNumber == Int(2))
      && (s2.phone == "" ==> ending2 == Raised && |participants2[|participants|].visits| == 1)
  {
    var p := NewPerson(g, s, now);
    var q := NewParticipant(g, s, CheckInVisit(s, now), now);
    var people1, participants1 := people + [p], participants + [q];
    CreatedNewOutcome(people, participants, s, now, g);
    AsWrittenAgreesWithPhone(people, participants, s, now, g);
    assert SubmittedAsWritten(people, participants, s, now, g) == (people1, participants1, Returned(g, CreatedNew));
    ReturningParticipantRecordsVisit(people, participants, s, s2, now, now2, g, g2);
    if s2.phone != "" {
      AsWrittenAgreesWithPhone(people1, participants1, s2, now2, g2);
    } else {
      NewPersonMatchesItsQuery(g, s, s2, now);
      AddedPersonMatchesAgain(people, s, s2, p);
      MatchedWithoutPhoneRaises(people1, participants1, s2, now2, g2);
    }
  }
}
