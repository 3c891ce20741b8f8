/**
 * The one-time migration of the current back end: when neither CSV store
 * exists yet, the legacy profiles document is turned into the people and
 * participants projections, one person and one participant per profile.
 */
module Migration {
  import opened Wrappers
  import opened Strings
  import opened Normalize
  import opened Records
  import opened Contacts
  import opened FlatFile
  import Legacy
  import Kiosk
  import opened Seqs

  /** The visit numbered `n` (counting from 1) of a migrated profile; a missing timestamp becomes `now`. */
  function MigratedVisit(n: int, v: Legacy.LegacyVisit, now: string): Visit {
    var dt := if v.visitDatetime != "" then v.visitDatetime else now;
    Visit(Int(n), dt, DatePart(dt), TimePart(dt), v.studyCode, v.consentContact, v.enteredBy)
  }

  /** The migrated visits as a value: each legacy visit renumbered by its position. */
  function MigratedVisits(vs: seq<Legacy.LegacyVisit>, now: string): (r: seq<Visit>)
    ensures |r| == |vs|
  {
    MapIndexed(vs, (k: nat, v: Legacy.LegacyVisit) => MigratedVisit(k + 1, v, now))
  }

  /** Entry `k` of the migrated visits is legacy visit `k`, numbered `k + 1`. */
  lemma MigratedVisitAt(vs: seq<Legacy.LegacyVisit>, now: string, k: nat)
    requires k < |vs|
    ensures MigratedVisits(vs, now)[k] == MigratedVisit(k + 1, vs[k], now)
  {
    MapIndexedAt(vs, (k: nat, v: Legacy.LegacyVisit) => MigratedVisit(k + 1, v, now), k);
  }

  /** The `enumerate(..., start=1)` loop over a profile's visits. */
  method MigrateVisits(vs: seq<Legacy.LegacyVisit>, now: string) returns (visits: seq<Visit>)
    ensures visits == MigratedVisits(vs, now)
  {
    ghost var f := (k: nat, v: Legacy.LegacyVisit) => MigratedVisit(k + 1, v, now);
    visits := [];
    for k := 0 to |vs|
      invariant visits == MapIndexed(vs[..k], f)
    {
      MapIndexedSnoc(vs, f, k);
      visits := visits + [MigratedVisit(k + 1, vs[k], now)];
    }
    assert vs[..|vs|] == vs;
  }

  /** Migrated visits keep the legacy order and are numbered 1..n. */
  lemma MigratedVisitsNumbered(vs: seq<Legacy.LegacyVisit>, now: string)
    ensures VisitsNumbered(MigratedVisits(vs, now))
  {
    var r := MigratedVisits(vs, now);
    forall k | 0 <= k < |r|
      ensures r[k].visitNumber == Int(k + 1)
    {
      MigratedVisitAt(vs, now, k);
    }
  }

  /** A migrated visit splits its timestamp on the first `T`, and has no time part when there is none. */
  lemma MigratedVisitParts(n: int, v: Legacy.LegacyVisit, now: string)
    ensures var w := MigratedVisit(n, v, now);
      && w.visitDatetime == (if v.visitDatetime != "" then v.visitDatetime else now)
      && ('T' !in w.visitDatetime ==> w.visitDate == w.visitDatetime && w.visitTime == "")
      && ('T' in w.visitDatetime ==> w.visitDate + "T" <= w.visitDatetime)
  {
    DateTimeParts(MigratedVisit(n, v, now).visitDatetime);
  }

  /** The GUID of profile `i`: its own, or the `i`-th freshly generated one when it has none. */
  function MigratedGuid(p: Legacy.Profile, newGuid: string): string {
    if p.guid != "" then p.guid else newGuid
  }

  function MigratedCreatedAt(p: Legacy.Profile, now: string): string {
    if p.createdAt != "" then p.createdAt else now
  }

  /** The person a profile becomes. */
  function MigratedPerson(p: Legacy.Profile, newGuid: string, now: string): Person {
    Person(MigratedGuid(p, newGuid), p.firstName, p.lastName, p.dob, NormalizeEmail(p.email), NormalizePhone(p.phone),
           EmptyHistory, MigratedCreatedAt(p, now), p.createdAt)
  }

  /** The participant a profile becomes, holding the given visits. */
  function MigratedParticipant(p: Legacy.Profile, newGuid: string, visits: seq<Visit>, now: string): Participant {
    Participant(MigratedGuid(p, newGuid), p.firstName, p.lastName, p.dob, NormalizeEmail(p.email), NormalizePhone(p.phone),
                EmptyHistory, p.consentContact, MigratedCreatedAt(p, now), visits)
  }

  /** The participant profile `p` becomes, its own visits migrated. */
  function ProfileParticipant(p: Legacy.Profile, newGuid: string, now: string): Participant {
    MigratedParticipant(p, newGuid, MigratedVisits(p.visits, now), now)
  }

  /** The whole transformation as a value: one person per profile, in order. */
  function MigratedPeople(profiles: seq<Legacy.Profile>, newGuid: nat -> string, now: string): (r: seq<Person>)
    ensures |r| == |profiles|
  {
    MapIndexed(profiles, (i: nat, p: Legacy.Profile) => MigratedPerson(p, newGuid(i), now))
  }

  /** One participant per profile, in order. */
  function MigratedParticipants(profiles: seq<Legacy.Profile>, newGuid: nat -> string, now: string): (r: seq<Participant>)
    ensures |r| == |profiles|
  {
    MapIndexed(profiles, (i: nat, p: Legacy.Profile) => ProfileParticipant(p, newGuid(i), now))
  }

  /** Entry `i` of the migrated stores comes from profile `i`. */
  lemma MigratedAt(profiles: seq<Legacy.Profile>, newGuid: nat -> string, now: string, i: nat)
    requires i < |profiles|
    ensures MigratedPeople(profiles, newGuid, now)[i] == MigratedPerson(profiles[i], newGuid(i), now)
    ensures MigratedParticipants(profiles, newGuid, now)[i] == ProfileParticipant(profiles[i], newGuid(i), now)
  {
    MapIndexedAt(profiles, (i: nat, p: Legacy.Profile) => MigratedPerson(p, newGuid(i), now), i);
    MapIndexedAt(profiles, (i: nat, p: Legacy.Profile) => ProfileParticipant(p, newGuid(i), now), i);
  }

  /**
   * Whether the migration runs, and on what: only when neither CSV store is
   * present and the legacy document exists and parses.
   */
  function MigrationInput(peopleCsvExists: bool, participantsCsvExists: bool, legacy: Legacy.LegacyFile): (r: Option<seq<Legacy.Profile>>)
    ensures r.Some? <==> !peopleCsvExists && !participantsCsvExists && legacy.Parsed?
    ensures r.Some? ==> r.value == legacy.profiles
  {
    if peopleCsvExists || participantsCsvExists then None
    else match legacy
      case Absent => None
      case Unparsable => None
      case Parsed(profiles) => Some(profiles)
  }

  /**
   * `maybe_migrate_legacy_to_csv`: the stores to write, or `None` when the
   * migration does nothing.  `newGuid(i)` is the GUID generated for profile
   * `i` should it have none; `now` is the clock.
   */
  method MaybeMigrate(peopleCsvExists: bool, participantsCsvExists: bool, legacy: Legacy.LegacyFile, newGuid: nat -> string, now: string)
    returns (r: Option<(seq<Person>, seq<Participant>)>)
    ensures r.Some? <==> MigrationInput(peopleCsvExists, participantsCsvExists, legacy).Some?
    ensures r.Some? ==> r.value == (MigratedPeople(legacy.profiles, newGuid, now), MigratedParticipants(legacy.profiles, newGuid, now))
  {
    var input := MigrationInput(peopleCsvExists, participantsCsvExists, legacy);
    if input.None? {
      return None;
    }
    var people, participants := MigrateProfiles(input.value, newGuid, now);
    r := Some((people, participants));
  }

  /** The loop over the legacy profiles. */
  method MigrateProfiles(profiles: seq<Legacy.Profile>, newGuid: nat -> string, now: string)
    returns (people: seq<Person>, participants: seq<Participant>)
    ensures people == MigratedPeople(profiles, newGuid, now)
    ensures participants == MigratedParticipants(profiles, newGuid, now)
  {
    ghost var toPerson := (i: nat, p: Legacy.Profile) => MigratedPerson(p, newGuid(i), now);
    ghost var toParticipant := (i: nat, p: Legacy.Profile) => ProfileParticipant(p, newGuid(i), now);
    people := [];
    participants := [];
    for i := 0 to |profiles|
      invariant people == MapIndexed(profiles[..i], toPerson)
      invariant participants == MapIndexed(profiles[..i], toParticipant)
    {
      var p := profiles[i];
      var visits := MigrateVisits(p.visits, now);
      MapIndexedSnoc(profiles, toPerson, i);
      MapIndexedSnoc(profiles, toParticipant, i);
      people := people + [MigratedPerson(p, newGuid(i), now)];
      participants := participants + [MigratedParticipant(p, newGuid(i), visits, now)];
    }
    assert profiles[..|profiles|] == profiles;
  }

  /** The files after the migration: the five CSVs of the two stores written, the visits export left as it was. */
  function MigrationFiles(people: seq<Person>, participants: seq<Participant>, deidentified: CsvFile): Files {
    Files(Present(PeopleRows(people)), Present(PersonUpdateRows(people)), Present(ParticipantRows(participants)),
          Present(VisitRows(participants)), Present(ParticipantUpdateRows(participants)), deidentified)
  }

  /**
   * What profile `i` becomes: a person and a participant sharing its GUID (or
   * the generated one), its names and date of birth as stored, its contacts
   * normalized, no secondary or newsletter contacts and no contact log, a
   * creation time defaulting to the clock, a last-seen time equal to the raw
   * creation time, and its visits numbered 1..n in their legacy order.
   */
  lemma MigratedRecords(profiles: seq<Legacy.Profile>, newGuid: nat -> string, now: string, i: nat)
    requires i < |profiles|
    ensures var p := profiles[i];
      var person := MigratedPeople(profiles, newGuid, now)[i];
      var q := MigratedParticipants(profiles, newGuid, now)[i];
      && person.guid == q.guid == (if p.guid != "" then p.guid else newGuid(i))
      && person.firstName == q.firstName == p.firstName && person.lastName == q.lastName == p.lastName
      && person.dob == q.dob == p.dob
      && person.primaryEmail == q.email == NormalizeEmail(p.email) && IsNormalEmail(q.email)
      && person.primaryPhone == q.phone == NormalizePhone(p.phone) && IsNormalPhone(q.phone)
      && person.history == q.history == EmptyHistory
      && person.createdAt == q.createdAt == (if p.createdAt != "" then p.createdAt else now)
      && person.lastSeenAt == p.createdAt && q.consentContact == p.consentContact
      && |q.visits| == |p.visits| && VisitsNumbered(q.visits)
  {
    var p := profiles[i];
    MigratedAt(profiles, newGuid, now, i);
    NormalizeEmailIdempotent(p.email);
    NormalizePhoneIdempotent(p.phone);
    MigratedVisitsNumbered(p.visits, now);
  }

  /** Person and participant `i` share the GUID of profile `i`. */
  lemma MigratedGuidsAgree(profiles: seq<Legacy.Profile>, newGuid: nat -> string, now: string)
    ensures PersonGuids(MigratedPeople(profiles, newGuid, now)) == ParticipantGuids(MigratedParticipants(profiles, newGuid, now))
    ensures forall i :: 0 <= i < |profiles| ==> PersonGuids(MigratedPeople(profiles, newGuid, now))[i] == MigratedGuid(profiles[i], newGuid(i))
  {
    var people := MigratedPeople(profiles, newGuid, now);
    var participants := MigratedParticipants(profiles, newGuid, now);
    forall i | 0 <= i < |profiles|
      ensures PersonGuids(people)[i] == ParticipantGuids(participants)[i] == MigratedGuid(profiles[i], newGuid(i))
    {
      MigratedAt(profiles, newGuid, now, i);
      assert PersonGuids(people)[i] == people[i].guid;
      assert ParticipantGuids(participants)[i] == participants[i].guid;
    }
  }

  /** With distinct GUIDs, the migrated projections form a well-formed store for the current back end. */
  lemma MigrationStoreOk(profiles: seq<Legacy.Profile>, newGuid: nat -> string, now: string)
    requires Distinct(PersonGuids(MigratedPeople(profiles, newGuid, now)))
    ensures Kiosk.StoreOk(MigratedPeople(profiles, newGuid, now), MigratedParticipants(profiles, newGuid, now))
  {
    var people := MigratedPeople(profiles, newGuid, now);
    var participants := MigratedParticipants(profiles, newGuid, now);
    MigratedGuidsAgree(profiles, newGuid, now);
    EmptyHistoryOk();
    forall i | 0 <= i < |people|
      ensures HistoryOk(people[i].history)
    {
      MigratedAt(profiles, newGuid, now, i);
    }
    forall j | 0 <= j < |participants|
      ensures participants[j].guid in PersonGuids(people)
      ensures HistoryOk(participants[j].history) && VisitsNumbered(participants[j].visits)
    {
      assert ParticipantGuids(participants)[j] == participants[j].guid;
      MigratedAt(profiles, newGuid, now, j);
      MigratedVisitsNumbered(profiles[j].visits, now);
    }
  }

  /** When the GUIDs are distinct, loading the files the migration writes gives back the migrated stores. */
  lemma MigrationLoadsBack(profiles: seq<Legacy.Profile>, newGuid: nat -> string, now: string, deidentified: CsvFile)
    requires Distinct(PersonGuids(MigratedPeople(profiles, newGuid, now)))
    ensures var people := MigratedPeople(profiles, newGuid, now);
      var participants := MigratedParticipants(profiles, newGuid, now);
      var f := MigrationFiles(people, participants, deidentified);
      && PeopleOf(ReadCsv(f.guidPeople), ReadCsv(f.guidContactUpdates)) == people
      && ParticipantsOf(ReadCsv(f.participants), ReadCsv(f.participantVisits), ReadCsv(f.participantContactUpdates)) == participants
  {
    var people := MigratedPeople(profiles, newGuid, now);
    var participants := MigratedParticipants(profiles, newGuid, now);
    MigratedStorable(profiles, newGuid, now);
    MigrationFilesRead(people, participants, deidentified);
    LoadExportedPeople(people);
    LoadExportedParticipants(participants);
  }

  lemma MigratedStorable(profiles: seq<Legacy.Profile>, newGuid: nat -> string, now: string)
    requires Distinct(PersonGuids(MigratedPeople(profiles, newGuid, now)))
    ensures PeopleStorable(MigratedPeople(profiles, newGuid, now))
    ensures ParticipantsStorable(MigratedParticipants(profiles, newGuid, now))
  {
    var people := MigratedPeople(profiles, newGuid, now);
    var participants := MigratedParticipants(profiles, newGuid, now);
    MigratedGuidsAgree(profiles, newGuid, now);
    EmptyHistoryListable();
    forall i | 0 <= i < |profiles|
      ensures HistoryListable(people[i].history) && HistoryListable(participants[i].history)
    {
      MigratedAt(profiles, newGuid, now, i);
    }
  }

  lemma MigrationFilesRead(people: seq<Person>, participants: seq<Participant>, deidentified: CsvFile)
    ensures var f := MigrationFiles(people, participants, deidentified);
      && ReadCsv(f.guidPeople) == PeopleRows(people) && ReadCsv(f.guidContactUpdates) == PersonUpdateRows(people)
      && ReadCsv(f.participants) == ParticipantRows(participants) && ReadCsv(f.participantVisits) == VisitRows(participants)
      && ReadCsv(f.participantContactUpdates) == ParticipantUpdateRows(participants)
  {
  }

  lemma EmptyHistoryListable()
    ensures HistoryListable(EmptyHistory)
  {
  }
}
