/**
 * The import-payload builder that runs after the kiosk: it reads the
 * kiosk's CSV exports and turns each into the rows of one import file,
 * every row keyed by `sub_id`, the record id the mapping file gives the
 * GUID (or the GUID itself when the mapping has none).
 */
module Payloads {
  import opened Wrappers
  import opened Strings
  import opened Records
  import opened FlatFile

  /** Python's `a or b` on two strings: `a` unless it is empty. */
  function OrElse(a: string, b: string): string {
    if a != "" then a else b
  }

  // ---------------------------------------------------------------------
  // Record ids
  // ---------------------------------------------------------------------

  /** A row of the mapping file that defines a record id: both columns non-empty. */
  predicate DefinesRecordId(row: Row) {
    Get(row, "guid") != "" && Get(row, "record_id") != ""
  }

  /** The mapping the rows define, read top to bottom: a later row for a GUID replaces an earlier one. */
  function RecordIdMap(rows: seq<Row>): (m: map<string, string>)
    ensures forall g :: g in m ==> g != "" && m[g] != ""
    decreases |rows|
  {
    if rows == [] then map[]
    else
      var row := rows[|rows| - 1];
      var m := RecordIdMap(rows[..|rows| - 1]);
      if DefinesRecordId(row) then m[Get(row, "guid") := Get(row, "record_id")] else m
  }

  /**
   * `load_record_id_map`: `None` stands for no path given or no such file,
   * which gives the empty mapping.
   */
  method LoadRecordIdMap(source: Option<seq<Row>>) returns (mapping: map<string, string>)
    ensures source.None? ==> mapping == map[]
    ensures source.Some? ==> mapping == RecordIdMap(source.value)
  {
    mapping := map[];
    if source.None? {
      return;
    }
    var rows := source.value;
    var i := 0;
    while i < |rows|
      invariant i <= |rows|
      invariant mapping == RecordIdMap(rows[..i])
    {
      assert rows[..i + 1][..i] == rows[..i];
      var guid := Get(rows[i], "guid");
      var recordId := Get(rows[i], "record_id");
      if guid != "" && recordId != "" {
        mapping := mapping[guid := recordId];
      }
      i := i + 1;
    }
    assert rows[..|rows|] == rows;
  }

  /** A GUID is mapped exactly when some row defines a record id for it. */
  lemma {:induction false} RecordIdMapKeys(rows: seq<Row>, g: string)
    ensures g in RecordIdMap(rows) <==>
      exists i :: 0 <= i < |rows| && DefinesRecordId(rows[i]) && Get(rows[i], "guid") == g
    decreases |rows|
  {
    if rows != [] {
      var n := |rows| - 1;
      var init, last := rows[..n], rows[n];
      assert RecordIdMap(rows) == if DefinesRecordId(last) then RecordIdMap(init)[Get(last, "guid") := Get(last, "record_id")]
        else RecordIdMap(init);
      RecordIdMapKeys(init, g);
      if g in RecordIdMap(init) {
        var i :| 0 <= i < n && DefinesRecordId(init[i]) && Get(init[i], "guid") == g;
        assert rows[i] == init[i];
      }
      if exists i :: 0 <= i < |rows| && DefinesRecordId(rows[i]) && Get(rows[i], "guid") == g {
        var i :| 0 <= i < |rows| && DefinesRecordId(rows[i]) && Get(rows[i], "guid") == g;
        if i < n {
          assert init[i] == rows[i];
        }
      }
    }
  }

  /** The record id of a GUID is the one on the last row that defines one for it. */
  lemma {:induction false} RecordIdMapLastWins(rows: seq<Row>, i: nat)
    requires i < |rows| && DefinesRecordId(rows[i])
    requires forall j :: i < j < |rows| && DefinesRecordId(rows[j]) ==> Get(rows[j], "guid") != Get(rows[i], "guid")
    ensures Get(rows[i], "guid") in RecordIdMap(rows)
    ensures RecordIdMap(rows)[Get(rows[i], "guid")] == Get(rows[i], "record_id")
    decreases |rows|
  {
    var n := |rows| - 1;
    if i < n {
      forall j | i < j < n && DefinesRecordId(rows[..n][j])
        ensures Get(rows[..n][j], "guid") != Get(rows[..n][i], "guid")
      {
        assert rows[..n][j] == rows[j];
      }
      assert rows[..n][i] == rows[i];
      RecordIdMapLastWins(rows[..n], i);
    }
  }

  /** `record_id_for_guid`: the mapped record id, or the GUID itself. */
  function RecordIdForGuid(guid: string, mapping: map<string, string>): string {
    if guid in mapping then mapping[guid] else guid
  }

  /**
   * With a loaded mapping, a non-empty GUID never gets an empty record id,
   * and a GUID that no row maps stands for itself.
   */
  lemma RecordIdOfLoaded(rows: seq<Row>, g: string)
    ensures g != "" ==> RecordIdForGuid(g, RecordIdMap(rows)) != ""
    ensures (forall i :: 0 <= i < |rows| && DefinesRecordId(rows[i]) ==> Get(rows[i], "guid") != g) ==>
      RecordIdForGuid(g, RecordIdMap(rows)) == g
  {
    RecordIdMapKeys(rows, g);
  }

  // ---------------------------------------------------------------------
  // Pipe-joined columns
  // ---------------------------------------------------------------------

  /** `first_pipe_value`: the text before the first pipe, the whole value when it has none. */
  function FirstPipeValue(value: string): (r: string)
    ensures '|' !in r && r <= value
    ensures '|' !in value ==> r == value
    ensures '|' in value ==> r == value[..IndexOf(value, '|')]
  {
    if value == "" then ""
    else
      SplitFirst(value, '|');
      Split(value, '|')[0]
  }

  /** On a column the kiosk wrote, `first_pipe_value` gives the first listed value, or nothing. */
  lemma FirstPipeValueOfList(xs: seq<string>)
    requires Listable(xs)
    ensures FirstPipeValue(JoinList(xs)) == if xs == [] then "" else xs[0]
  {
    if xs != [] {
      SplitJoin(xs, '|');
      SplitFirst(JoinList(xs), '|');
    }
  }

  // ---------------------------------------------------------------------
  // Participants
  // ---------------------------------------------------------------------

  /** `last_seen_by_guid`: each GUID's `last_seen_at`, a later row replacing an earlier one. */
  function LastSeenByGuid(rows: seq<Row>): map<string, string>
    decreases |rows|
  {
    if rows == [] then map[]
    else
      var n := |rows| - 1;
      LastSeenByGuid(rows[..n])[Get(rows[n], "guid") := Get(rows[n], "last_seen_at")]
  }

  /** Row `i` is the last that carries GUID `g`. */
  predicate LastRowOf(rows: seq<Row>, i: int, g: string) {
    0 <= i < |rows| && Get(rows[i], "guid") == g && forall j :: i < j < |rows| ==> Get(rows[j], "guid") != g
  }

  /** A GUID is looked up exactly when some row carries it. */
  lemma {:induction false} LastSeenKeys(rows: seq<Row>, g: string)
    ensures g in LastSeenByGuid(rows) <==> exists i :: 0 <= i < |rows| && Get(rows[i], "guid") == g
    decreases |rows|
  {
    if rows != [] {
      var n := |rows| - 1;
      LastSeenKeys(rows[..n], g);
      if g in LastSeenByGuid(rows[..n]) {
        var i :| 0 <= i < n && Get(rows[..n][i], "guid") == g;
        assert rows[i] == rows[..n][i];
      }
      if exists i :: 0 <= i < |rows| && Get(rows[i], "guid") == g {
        var i :| 0 <= i < |rows| && Get(rows[i], "guid") == g;
        if i < n {
          assert rows[..n][i] == rows[i];
        }
      }
    }
  }

  /** A GUID is looked up at the last row that carries it. */
  lemma {:induction false} LastSeenLastWins(rows: seq<Row>, i: nat, g: string)
    requires LastRowOf(rows, i, g)
    ensures g in LastSeenByGuid(rows) && LastSeenByGuid(rows)[g] == Get(rows[i], "last_seen_at")
    decreases |rows|
  {
    var n := |rows| - 1;
    if i < n {
      assert Get(rows[n], "guid") != g;
      assert LastRowOf(rows[..n], i, g) by {
        forall j | i <= j < n
          ensures rows[..n][j] == rows[j]
        {
        }
      }
      LastSeenLastWins(rows[..n], i, g);
    }
  }

  const ParticipantImportFields: seq<string> :=
    ["sub_id", "guid", "first_name", "last_name", "dob", "primary_email", "primary_phone",
     "newsletter_email", "newsletter_phone", "newsletter_pref", "consent_participant",
     "created_at", "last_seen_at"]

  /** One row of the participant import, from one row of the participants file. */
  function ParticipantImportRow(p: Row, lastSeen: map<string, string>, ids: map<string, string>): Row {
    var guid := Get(p, "guid");
    map["sub_id" := RecordIdForGuid(guid, ids), "guid" := guid,
        "first_name" := Get(p, "first_name"), "last_name" := Get(p, "last_name"), "dob" := Get(p, "dob"),
        "primary_email" := Get(p, "email"), "primary_phone" := Get(p, "phone"),
        "newsletter_email" := OrElse(FirstPipeValue(Get(p, "newsletter_emails")), Get(p, "email")),
        "newsletter_phone" := OrElse(FirstPipeValue(Get(p, "newsletter_phones")), Get(p, "phone")),
        "newsletter_pref" := OrElse(Get(p, "newsletter_pref"), "participant_only"),
        "consent_participant" := Get(p, "consent_contact"), "created_at" := Get(p, "created_at"),
        "last_seen_at" := if guid in lastSeen then lastSeen[guid] else ""]
  }

  /** Every participant import row has exactly the header's columns. */
  lemma ParticipantImportColumns(p: Row, lastSeen: map<string, string>, ids: map<string, string>)
    ensures forall c :: c in ParticipantImportRow(p, lastSeen, ids) <==> c in ParticipantImportFields
  {
  }

  /** `build_participant_import`, on the participants file and the people file as read. */
  method BuildParticipantImport(participants: seq<Row>, guidPeople: seq<Row>, ids: map<string, string>)
    returns (fieldnames: seq<string>, rows: seq<Row>)
    ensures fieldnames == ParticipantImportFields
    ensures |rows| == |participants|
    ensures forall i :: 0 <= i < |rows| ==> rows[i] == ParticipantImportRow(participants[i], LastSeenByGuid(guidPeople), ids)
  {
    var lastSeen := LastSeenByGuid(guidPeople);
    rows := [];
    var i := 0;
    while i < |participants|
      invariant i <= |participants| && |rows| == i
      invariant forall k :: 0 <= k < i ==> rows[k] == ParticipantImportRow(participants[k], lastSeen, ids)
    {
      rows := rows + [ParticipantImportRow(participants[i], lastSeen, ids)];
      i := i + 1;
    }
    fieldnames := ParticipantImportFields;
  }

  /** The key columns the participant import copies from its row. */
  lemma ParticipantImportKeys(p: Row, lastSeen: map<string, string>, ids: map<string, string>)
    ensures var r := ParticipantImportRow(p, lastSeen, ids);
      r["sub_id"] == RecordIdForGuid(Get(p, "guid"), ids) && r["guid"] == Get(p, "guid")
  {
  }

  /** The name and birth-date columns the participant import copies from its row. */
  lemma ParticipantImportCopies(p: Row, lastSeen: map<string, string>, ids: map<string, string>)
    ensures var r := ParticipantImportRow(p, lastSeen, ids);
      r["first_name"] == Get(p, "first_name") && r["last_name"] == Get(p, "last_name") && r["dob"] == Get(p, "dob")
  {
  }

  /** The contact and consent columns the participant import copies from its row. */
  lemma ParticipantImportCopiesContact(p: Row, lastSeen: map<string, string>, ids: map<string, string>)
    ensures var r := ParticipantImportRow(p, lastSeen, ids);
      && r["primary_email"] == Get(p, "email") && r["primary_phone"] == Get(p, "phone")
      && r["consent_participant"] == Get(p, "consent_contact") && r["created_at"] == Get(p, "created_at")
  {
  }

  /** The columns the participant import fills in with a default. */
  lemma ParticipantImportDefaults(p: Row, lastSeen: map<string, string>, ids: map<string, string>)
    ensures var r := ParticipantImportRow(p, lastSeen, ids);
      && r["newsletter_email"] == OrElse(FirstPipeValue(Get(p, "newsletter_emails")), Get(p, "email"))
      && r["newsletter_phone"] == OrElse(FirstPipeValue(Get(p, "newsletter_phones")), Get(p, "phone"))
      && r["newsletter_pref"] == OrElse(Get(p, "newsletter_pref"), "participant_only")
      && r["last_seen_at"] == if Get(p, "guid") in lastSeen then lastSeen[Get(p, "guid")] else ""
  {
  }

  /** On a participant the kiosk exported, the import copies the participant's own fields. */
  lemma ParticipantImportOfExport(q: Participant, lastSeen: map<string, string>, ids: map<string, string>)
    ensures var r := ParticipantImportRow(ParticipantRow(q), lastSeen, ids);
      && r["sub_id"] == RecordIdForGuid(q.guid, ids) && r["guid"] == q.guid
      && r["first_name"] == q.firstName && r["last_name"] == q.lastName && r["dob"] == q.dob
      && r["primary_email"] == q.email && r["primary_phone"] == q.phone
      && r["consent_participant"] == q.consentContact && r["created_at"] == q.createdAt
  {
    ParticipantRowFields(q);
    ParticipantImportKeys(ParticipantRow(q), lastSeen, ids);
    ParticipantImportCopies(ParticipantRow(q), lastSeen, ids);
    ParticipantImportCopiesContact(ParticipantRow(q), lastSeen, ids);
  }

  /** The kiosk's participants file has no newsletter preference column. */
  lemma ParticipantRowHasNoPref(q: Participant)
    ensures Get(ParticipantRow(q), "newsletter_pref") == ""
  {
  }

  /**
   * On a participant the kiosk exported: the newsletter contact is the first
   * listed one, or the participant's own when none is listed, and the
   * preference is always the default.
   */
  lemma ParticipantNewsletterOfExport(q: Participant, lastSeen: map<string, string>, ids: map<string, string>)
    requires HistoryListable(q.history)
    ensures var r := ParticipantImportRow(ParticipantRow(q), lastSeen, ids);
      && r["newsletter_email"] == (if q.history.newsletterEmails == [] then q.email else q.history.newsletterEmails[0])
      && r["newsletter_phone"] == (if q.history.newsletterPhones == [] then q.phone else q.history.newsletterPhones[0])
      && r["newsletter_pref"] == "participant_only"
  {
    ParticipantRowLists(q);
    ParticipantRowFields(q);
    ParticipantRowHasNoPref(q);
    FirstPipeValueOfList(q.history.newsletterEmails);
    FirstPipeValueOfList(q.history.newsletterPhones);
    ParticipantImportDefaults(ParticipantRow(q), lastSeen, ids);
  }

  /** The last-seen time the import gives an exported participant is that of the person with its GUID. */
  lemma LastSeenOfExportedPeople(people: seq<Person>, j: nat)
    requires j < |people| && Distinct(PersonGuids(people))
    ensures var m := LastSeenByGuid(PeopleRows(people));
      people[j].guid in m && m[people[j].guid] == people[j].lastSeenAt
  {
    var rows := PeopleRows(people);
    var g := people[j].guid;
    PersonRowFields(people[j]);
    forall k | j < k < |rows|
      ensures Get(rows[k], "guid") != g
    {
      PersonRowFields(people[k]);
      assert PersonGuids(people)[j] != PersonGuids(people)[k];
    }
    LastSeenLastWins(rows, j, g);
  }

  // ---------------------------------------------------------------------
  // Visits
  // ---------------------------------------------------------------------

  const VisitImportFields: seq<string> :=
    ["sub_id", "redcap_repeat_instrument", "redcap_repeat_instance", "visit_number", "visit_datetime",
     "visit_date", "visit_time", "tubric_study_code", "consent_contact_visit", "entered_by"]

  /** One row of the visit import: a `visits` instance numbered by the visit number. */
  function VisitImportRow(v: Row, ids: map<string, string>): Row {
    var visitNumber := Get(v, "visit_number");
    map["sub_id" := RecordIdForGuid(Get(v, "guid"), ids), "redcap_repeat_instrument" := "visits",
        "redcap_repeat_instance" := visitNumber, "visit_number" := visitNumber,
        "visit_datetime" := Get(v, "visit_datetime"), "visit_date" := Get(v, "visit_date"),
        "visit_time" := Get(v, "visit_time"), "tubric_study_code" := Get(v, "tubric_study_code"),
        "consent_contact_visit" := Get(v, "consent_contact"), "entered_by" := Get(v, "entered_by")]
  }

  lemma VisitImportColumns(v: Row, ids: map<string, string>)
    ensures forall c :: c in VisitImportRow(v, ids) <==> c in VisitImportFields
  {
  }

  /** `build_visit_import`, on the participant visits file as read. */
  method BuildVisitImport(visits: seq<Row>, ids: map<string, string>) returns (fieldnames: seq<string>, rows: seq<Row>)
    ensures fieldnames == VisitImportFields
    ensures |rows| == |visits|
    ensures forall i :: 0 <= i < |rows| ==> rows[i] == VisitImportRow(visits[i], ids)
  {
    rows := [];
    var i := 0;
    while i < |visits|
      invariant i <= |visits| && |rows| == i
      invariant forall k :: 0 <= k < i ==> rows[k] == VisitImportRow(visits[k], ids)
    {
      rows := rows + [VisitImportRow(visits[i], ids)];
      i := i + 1;
    }
    fieldnames := VisitImportFields;
  }

  /**
   * On the rows the kiosk exported for one participant whose visits are
   * numbered 1, 2, ...: the repeat instances are "1", "2", ... in order, all
   * under the participant's record id.
   */
  lemma VisitImportOfExport(q: Participant, ids: map<string, string>, k: nat)
    requires VisitsNumbered(q.visits) && k < |q.visits|
    ensures var r := VisitImportRow(RowsFor(q.guid, q.visits, VisitRow)[k], ids);
      && r["sub_id"] == RecordIdForGuid(q.guid, ids)
      && r["redcap_repeat_instrument"] == "visits"
      && r["redcap_repeat_instance"] == NatToString(k + 1) && r["visit_number"] == NatToString(k + 1)
      && r["visit_datetime"] == q.visits[k].visitDatetime && r["tubric_study_code"] == q.visits[k].studyCode
      && r["consent_contact_visit"] == q.visits[k].consentContact && r["entered_by"] == q.visits[k].enteredBy
  {
    var row := VisitRow(q.guid, q.visits[k]);
    assert Get(row, "visit_number") == IntToString(k + 1);
    assert Get(row, "guid") == q.guid;
  }

  // ---------------------------------------------------------------------
  // Contact updates
  // ---------------------------------------------------------------------

  /** How many of the rows carry GUID `g`. */
  function CountGuid(rows: seq<Row>, g: string): nat
    decreases |rows|
  {
    if rows == [] then 0
    else CountGuid(rows[..|rows| - 1], g) + (if Get(rows[|rows| - 1], "guid") == g then 1 else 0)
  }

  lemma CountGuidSnoc(rows: seq<Row>, i: nat, g: string)
    requires i < |rows|
    ensures CountGuid(rows[..i + 1], g) == CountGuid(rows[..i], g) + (if Get(rows[i], "guid") == g then 1 else 0)
  {
    assert rows[..i + 1][..i] == rows[..i];
  }

  /** The repeat instance of contact row `i`: its position, from 1, among the rows with its GUID. */
  function ContactInstance(contacts: seq<Row>, i: nat): (n: nat)
    requires i < |contacts|
    ensures n >= 1
  {
    CountGuidSnoc(contacts, i, Get(contacts[i], "guid"));
    CountGuid(contacts[..i + 1], Get(contacts[i], "guid"))
  }

  const ContactImportFields: seq<string> :=
    ["sub_id", "redcap_repeat_instrument", "redcap_repeat_instance", "contact_type", "contact_value",
     "added_at", "contact_visit_number", "contact_visit_datetime"]

  /** One row of the contact-update import, as instance `instance` of its record. */
  function ContactImportRow(c: Row, instance: nat, ids: map<string, string>): Row {
    map["sub_id" := RecordIdForGuid(Get(c, "guid"), ids), "redcap_repeat_instrument" := "contact_updates",
        "redcap_repeat_instance" := NatToString(instance),
        "contact_type" := Get(c, "type"), "contact_value" := Get(c, "value"), "added_at" := Get(c, "added_at"),
        "contact_visit_number" := Get(c, "visit_number"), "contact_visit_datetime" := Get(c, "visit_datetime")]
  }

  lemma ContactImportColumns(c: Row, instance: nat, ids: map<string, string>)
    ensures forall k :: k in ContactImportRow(c, instance, ids) <==> k in ContactImportFields
  {
  }

  /** The counter `instance_by_guid` after the rows: how many rows each GUID has had. */
  ghost predicate CountsSeen(counter: map<string, nat>, rows: seq<Row>) {
    forall g :: CountGuid(rows, g) == (if g in counter then counter[g] else 0)
  }

  lemma CountsSeenStep(counter: map<string, nat>, rows: seq<Row>, i: nat)
    requires i < |rows| && CountsSeen(counter, rows[..i])
    ensures var g := Get(rows[i], "guid");
      var n := if g in counter then counter[g] else 0;
      CountsSeen(counter[g := n + 1], rows[..i + 1]) && CountGuid(rows[..i + 1], g) == n + 1
  {
    var g := Get(rows[i], "guid");
    var n := if g in counter then counter[g] else 0;
    var after := counter[g := n + 1];
    var seen := rows[..i + 1];
    forall h ensures CountGuid(seen, h) == (if h in after then after[h] else 0) {
      CountGuidSnoc(rows, i, h);
    }
  }

  /** `build_contact_update_import`, on the participant contact-updates file as read. */
  method BuildContactUpdateImport(contacts: seq<Row>, ids: map<string, string>) returns (fieldnames: seq<string>, rows: seq<Row>)
    ensures fieldnames == ContactImportFields
    ensures |rows| == |contacts|
    ensures forall i :: 0 <= i < |rows| ==> rows[i] == ContactImportRow(contacts[i], ContactInstance(contacts, i), ids)
  {
    var instanceByGuid: map<string, nat> := map[];
    rows := [];
    var i := 0;
    while i < |contacts|
      invariant i <= |contacts| && |rows| == i
      invariant CountsSeen(instanceByGuid, contacts[..i])
      invariant forall k :: 0 <= k < i ==> rows[k] == ContactImportRow(contacts[k], ContactInstance(contacts, k), ids)
    {
      var row;
      instanceByGuid, row := ContactImportStep(contacts, i, instanceByGuid, ids);
      rows := rows + [row];
      i := i + 1;
    }
    fieldnames := ContactImportFields;
  }

  /** One pass of the loop: `instance_by_guid[guid] += 1`, then the row with that instance. */
  method ContactImportStep(contacts: seq<Row>, i: nat, instanceByGuid: map<string, nat>, ids: map<string, string>)
    returns (counter: map<string, nat>, row: Row)
    requires i < |contacts| && CountsSeen(instanceByGuid, contacts[..i])
    ensures CountsSeen(counter, contacts[..i + 1])
    ensures row == ContactImportRow(contacts[i], ContactInstance(contacts, i), ids)
  {
    var guid := Get(contacts[i], "guid");
    var n := if guid in instanceByGuid then instanceByGuid[guid] else 0;
    CountsSeenStep(instanceByGuid, contacts, i);
    counter := instanceByGuid[guid := n + 1];
    row := ContactImportRow(contacts[i], counter[guid], ids);
  }

  /** Counting over a longer prefix never gives less. */
  lemma {:induction false} CountGuidGrows(rows: seq<Row>, a: nat, b: nat, g: string)
    requires a <= b <= |rows|
    ensures CountGuid(rows[..a], g) <= CountGuid(rows[..b], g)
    decreases b - a
  {
    if a < b {
      CountGuidSnoc(rows, b - 1, g);
      CountGuidGrows(rows, a, b - 1, g);
    }
  }

  /** Each count up to the total is reached at some row with that GUID. */
  lemma {:induction false} CountGuidReached(rows: seq<Row>, m: nat, g: string, k: nat)
    requires m <= |rows| && 1 <= k <= CountGuid(rows[..m], g)
    ensures exists i :: 0 <= i < m && Get(rows[i], "guid") == g && CountGuid(rows[..i + 1], g) == k
    decreases m
  {
    CountGuidSnoc(rows, m - 1, g);
    if Get(rows[m - 1], "guid") == g && k == CountGuid(rows[..m], g) {
      assert Get(rows[m - 1], "guid") == g && CountGuid(rows[..m - 1 + 1], g) == k;
    } else {
      CountGuidReached(rows, m - 1, g, k);
    }
  }

  /** Later rows of the same GUID get larger instances, so no two of them share one. */
  lemma ContactInstancesIncrease(contacts: seq<Row>, i: nat, j: nat)
    requires i < j < |contacts| && Get(contacts[i], "guid") == Get(contacts[j], "guid")
    ensures ContactInstance(contacts, i) < ContactInstance(contacts, j)
  {
    var g := Get(contacts[j], "guid");
    CountGuidGrows(contacts, i + 1, j, g);
    CountGuidSnoc(contacts, j, g);
  }

  /** The instances of a GUID leave no gap: every number from 1 to a row's instance belongs to a row up to it. */
  lemma ContactInstancesDense(contacts: seq<Row>, j: nat, k: nat)
    requires j < |contacts| && 1 <= k <= ContactInstance(contacts, j)
    ensures exists i :: 0 <= i <= j && Get(contacts[i], "guid") == Get(contacts[j], "guid") && ContactInstance(contacts, i) == k
  {
    var g := Get(contacts[j], "guid");
    CountGuidReached(contacts, j + 1, g, k);
    var i :| 0 <= i < j + 1 && Get(contacts[i], "guid") == g && CountGuid(contacts[..i + 1], g) == k;
    assert ContactInstance(contacts, i) == k;
  }

  // ---------------------------------------------------------------------
  // De-identified visits
  // ---------------------------------------------------------------------

  const DeidentifiedImportFields: seq<string> :=
    ["sub_id", "redcap_repeat_instrument", "redcap_repeat_instance", "guid", "visit_number",
     "visit_datetime", "visit_date", "visit_time", "tubric_study_code"]

  /** One row of the de-identified visit import: the GUID kept, no name, contact or consent column. */
  function DeidentifiedImportRow(v: Row, ids: map<string, string>): Row {
    var guid := Get(v, "guid");
    var visitNumber := Get(v, "visit_number");
    map["sub_id" := RecordIdForGuid(guid, ids), "redcap_repeat_instrument" := "deidentified_visits",
        "redcap_repeat_instance" := visitNumber, "guid" := guid, "visit_number" := visitNumber,
        "visit_datetime" := Get(v, "visit_datetime"), "visit_date" := Get(v, "visit_date"),
        "visit_time" := Get(v, "visit_time"), "tubric_study_code" := Get(v, "tubric_study_code")]
  }

  /** The de-identified import has exactly the header's columns. */
  lemma DeidentifiedImportColumns(v: Row, ids: map<string, string>)
    ensures forall c :: c in DeidentifiedImportRow(v, ids) <==> c in DeidentifiedImportFields
  {
  }

  /** None of the de-identified import's columns identifies a person. */
  lemma DeidentifiedImportFieldsAnonymous()
    ensures forall k :: 0 <= k < |DeidentifiedImportFields| ==> DeidentifiedImportFields[k] !in IdentifyingColumns
  {
  }

  /** `build_deidentified_visit_import`, on the de-identified visits file as read. */
  method BuildDeidentifiedVisitImport(visits: seq<Row>, ids: map<string, string>) returns (fieldnames: seq<string>, rows: seq<Row>)
    ensures fieldnames == DeidentifiedImportFields
    ensures |rows| == |visits|
    ensures forall i :: 0 <= i < |rows| ==> rows[i] == DeidentifiedImportRow(visits[i], ids)
  {
    rows := [];
    var i := 0;
    while i < |visits|
      invariant i <= |visits| && |rows| == i
      invariant forall k :: 0 <= k < i ==> rows[k] == DeidentifiedImportRow(visits[k], ids)
    {
      rows := rows + [DeidentifiedImportRow(visits[i], ids)];
      i := i + 1;
    }
    fieldnames := DeidentifiedImportFields;
  }

  /** On a row the kiosk exported, the de-identified import keeps the visit's number as its instance. */
  lemma DeidentifiedImportOfExport(guid: string, v: Visit, ids: map<string, string>)
    ensures var r := DeidentifiedImportRow(DeidentifiedRow(guid, v), ids);
      && r["sub_id"] == RecordIdForGuid(guid, ids) && r["guid"] == guid
      && r["redcap_repeat_instance"] == IntOrBlankText(v.visitNumber) && r["visit_number"] == IntOrBlankText(v.visitNumber)
      && r["visit_datetime"] == v.visitDatetime && r["visit_date"] == v.visitDate
      && r["visit_time"] == v.visitTime && r["tubric_study_code"] == v.studyCode
  {
    var row := DeidentifiedRow(guid, v);
    assert Get(row, "guid") == guid && Get(row, "visit_number") == IntOrBlankText(v.visitNumber);
    assert Get(row, "visit_datetime") == v.visitDatetime && Get(row, "visit_date") == v.visitDate;
    assert Get(row, "visit_time") == v.visitTime && Get(row, "tubric_study_code") == v.studyCode;
  }

  // ---------------------------------------------------------------------
  // Provenance
  // ---------------------------------------------------------------------

  /** No import header has a `source_code` column. */
  lemma HeadersHaveNoSourceCode()
    ensures "source_code" !in ParticipantImportFields && "source_code" !in VisitImportFields
    ensures "source_code" !in ContactImportFields && "source_code" !in DeidentifiedImportFields
  {
  }

  /** No builder writes a `source_code` column: no import row has one, whatever the input. */
  lemma ImportsHaveNoSourceCode(p: Row, v: Row, c: Row, instance: nat, lastSeen: map<string, string>, ids: map<string, string>)
    ensures "source_code" !in ParticipantImportRow(p, lastSeen, ids) && "source_code" !in VisitImportRow(v, ids)
    ensures "source_code" !in ContactImportRow(c, instance, ids) && "source_code" !in DeidentifiedImportRow(v, ids)
  {
    HeadersHaveNoSourceCode();
    ParticipantImportColumns(p, lastSeen, ids);
    VisitImportColumns(v, ids);
    ContactImportColumns(c, instance, ids);
    DeidentifiedImportColumns(v, ids);
  }
}
