/**
 * The CSV projections of the current back end, at the level of rows.  A row
 * is the dictionary `csv.DictReader` yields and `csv.DictWriter` consumes:
 * column name to text.  Lists are stored pipe-joined in one column, contact
 * updates and visits in their own files keyed by GUID.
 */
module FlatFile {
  import opened Wrappers
  import opened Strings
  import opened Records
  import opened Seqs

  type Row = map<string, string>

  /** `row.get(key, "")`. */
  function Get(row: Row, key: string): string {
    if key in row then row[key] else ""
  }

  // ---------------------------------------------------------------------
  // Column encodings
  // ---------------------------------------------------------------------

  /** `_split_list`: the non-empty pieces between pipes. */
  function SplitList(value: string): (r: seq<string>)
    ensures forall k :: 0 <= k < |r| ==> r[k] != "" && '|' !in r[k]
  {
    if value == "" then [] else NonEmpty(Split(value, '|'))
  }

  /** `"|".join(xs)`. */
  function JoinList(xs: seq<string>): string {
    Join(xs, '|')
  }

  /** A list that survives the pipe-joined column: no element empty or holding a pipe. */
  predicate Listable(xs: seq<string>) {
    forall k :: 0 <= k < |xs| ==> xs[k] != "" && '|' !in xs[k]
  }

  lemma SplitListJoinList(xs: seq<string>)
    requires Listable(xs)
    ensures SplitList(JoinList(xs)) == xs
  {
    if xs != [] {
      SplitJoin(xs, '|');
      assert JoinList(xs) != "" by {
        if |xs| > 1 {
          assert JoinList(xs) == xs[0] + ['|'] + Join(xs[1..], '|');
        }
      }
    }
  }

  /** Without `Listable` the column is lossy: an element holding a pipe comes back as two. */
  lemma SplitListSplitsPipes()
    ensures SplitList(JoinList(["a|b"])) == ["a", "b"]
  {
    var s := "a|b";
    assert JoinList([s]) == s;
    assert IndexOf(s, '|') == 1;
    assert s[..1] == "a" && s[2..] == "b";
    assert Split(s, '|') == ["a"] + Split("b", '|');
    assert Split(s, '|') == ["a", "b"];
  }

  /** `_int_or_blank`: `int(value)`, or blank where that raises. */
  function IntOrBlankOf(value: string): IntOrBlank {
    match ParseInt(value)
    case Some(n) => Int(n)
    case None => Blank
  }

  /** What `csv.DictWriter` writes for a visit number: `str(n)`, or the empty field. */
  function IntOrBlankText(v: IntOrBlank): string {
    match v
    case Int(n) => IntToString(n)
    case Blank => ""
  }

  lemma IntOrBlankRoundTrip(v: IntOrBlank)
    ensures IntOrBlankOf(IntOrBlankText(v)) == v
  {
    match v
    case Int(n) => ParseIntOfIntToString(n);
    case Blank => ParseIntEmpty();
  }

  // ---------------------------------------------------------------------
  // Rows of each file, and the records read back from them
  // ---------------------------------------------------------------------

  const UpdateColumns: seq<string> := ["guid", "type", "value", "added_at", "visit_number", "visit_datetime"]
  const VisitColumns: seq<string> :=
    ["guid", "visit_number", "visit_datetime", "visit_date", "visit_time", "tubric_study_code", "consent_contact", "entered_by"]
  const DeidentifiedColumns: seq<string> :=
    ["guid", "visit_number", "visit_datetime", "visit_date", "visit_time", "tubric_study_code"]

  /** The columns that identify a person; none of them may reach the de-identified export. */
  const IdentifyingColumns: set<string> :=
    {"first_name", "last_name", "dob", "email", "phone", "primary_email", "primary_phone",
     "secondary_emails", "secondary_phones", "newsletter_emails", "newsletter_phones"}

  /** One row of a contact-updates file. */
  function UpdateRow(guid: string, u: ContactUpdate): Row {
    map["guid" := guid, "type" := u.kind, "value" := u.value, "added_at" := u.addedAt,
        "visit_number" := IntOrBlankText(u.visitNumber), "visit_datetime" := u.visitDatetime]
  }

  function UpdateOf(row: Row): ContactUpdate {
    ContactUpdate(Get(row, "type"), Get(row, "value"), Get(row, "added_at"),
                  IntOrBlankOf(Get(row, "visit_number")), Get(row, "visit_datetime"))
  }

  lemma UpdateRowReadsBack(guid: string, u: ContactUpdate)
    ensures UpdateOf(UpdateRow(guid, u)) == u
    ensures Get(UpdateRow(guid, u), "guid") == guid
  {
    var row := UpdateRow(guid, u);
    assert Get(row, "visit_number") == IntOrBlankText(u.visitNumber);
    IntOrBlankRoundTrip(u.visitNumber);
    assert Get(row, "type") == u.kind && Get(row, "value") == u.value;
    assert Get(row, "added_at") == u.addedAt && Get(row, "visit_datetime") == u.visitDatetime;
  }

  /** One row of the participant visits file. */
  function VisitRow(guid: string, v: Visit): Row {
    map["guid" := guid, "visit_number" := IntOrBlankText(v.visitNumber), "visit_datetime" := v.visitDatetime,
        "visit_date" := v.visitDate, "visit_time" := v.visitTime, "tubric_study_code" := v.studyCode,
        "consent_contact" := v.consentContact, "entered_by" := v.enteredBy]
  }

  function VisitOf(row: Row): Visit {
    Visit(IntOrBlankOf(Get(row, "visit_number")), Get(row, "visit_datetime"), Get(row, "visit_date"),
          Get(row, "visit_time"), Get(row, "tubric_study_code"), Get(row, "consent_contact"), Get(row, "entered_by"))
  }

  lemma VisitRowReadsBack(guid: string, v: Visit)
    ensures VisitOf(VisitRow(guid, v)) == v
    ensures Get(VisitRow(guid, v), "guid") == guid
  {
    var row := VisitRow(guid, v);
    assert Get(row, "visit_number") == IntOrBlankText(v.visitNumber);
    IntOrBlankRoundTrip(v.visitNumber);
    assert Get(row, "visit_datetime") == v.visitDatetime && Get(row, "visit_date") == v.visitDate;
    assert Get(row, "visit_time") == v.visitTime && Get(row, "tubric_study_code") == v.studyCode;
    assert Get(row, "consent_contact") == v.consentContact && Get(row, "entered_by") == v.enteredBy;
  }

  /** One row of the de-identified visits export. */
  function DeidentifiedRow(guid: string, v: Visit): Row {
    map["guid" := guid, "visit_number" := IntOrBlankText(v.visitNumber), "visit_datetime" := v.visitDatetime,
        "visit_date" := v.visitDate, "visit_time" := v.visitTime, "tubric_study_code" := v.studyCode]
  }

  /** The de-identified row is the visit row with consent and role dropped, and has no identifying column. */
  lemma DeidentifiedRowShape(guid: string, v: Visit)
    ensures forall c :: c in DeidentifiedRow(guid, v) <==> c in DeidentifiedColumns
    ensures forall c :: c in DeidentifiedRow(guid, v) ==> c !in IdentifyingColumns && DeidentifiedRow(guid, v)[c] == VisitRow(guid, v)[c]
  {
  }

  /** One row of the people file. */
  function PersonRow(p: Person): Row {
    map["guid" := p.guid, "first_name" := p.firstName, "last_name" := p.lastName, "dob" := p.dob,
        "primary_email" := p.primaryEmail, "primary_phone" := p.primaryPhone,
        "secondary_emails" := JoinList(p.history.secondaryEmails),
        "secondary_phones" := JoinList(p.history.secondaryPhones),
        "newsletter_emails" := JoinList(p.history.newsletterEmails),
        "newsletter_phones" := JoinList(p.history.newsletterPhones),
        "created_at" := p.createdAt, "last_seen_at" := p.lastSeenAt]
  }

  /** The lists of a row, as `load_guid_db` and `load_participants_db` read them. */
  function HistoryOf(row: Row, updates: seq<ContactUpdate>): ContactHistory {
    ContactHistory(SplitList(Get(row, "secondary_emails")), SplitList(Get(row, "secondary_phones")),
                   SplitList(Get(row, "newsletter_emails")), SplitList(Get(row, "newsletter_phones")), updates)
  }

  function PersonOf(row: Row, updates: seq<ContactUpdate>): Person {
    Person(Get(row, "guid"), Get(row, "first_name"), Get(row, "last_name"), Get(row, "dob"),
           Get(row, "primary_email"), Get(row, "primary_phone"), HistoryOf(row, updates),
           Get(row, "created_at"), Get(row, "last_seen_at"))
  }

  /** Every list of a history survives its pipe-joined column. */
  predicate HistoryListable(h: ContactHistory) {
    Listable(h.secondaryEmails) && Listable(h.secondaryPhones) && Listable(h.newsletterEmails) && Listable(h.newsletterPhones)
  }

  /** The four pipe-joined columns of a row read back as the lists they were written from. */
  lemma HistoryReadsBack(row: Row, h: ContactHistory)
    requires HistoryListable(h)
    requires Get(row, "secondary_emails") == JoinList(h.secondaryEmails)
    requires Get(row, "secondary_phones") == JoinList(h.secondaryPhones)
    requires Get(row, "newsletter_emails") == JoinList(h.newsletterEmails)
    requires Get(row, "newsletter_phones") == JoinList(h.newsletterPhones)
    ensures HistoryOf(row, h.updates) == h
  {
    SplitListJoinList(h.secondaryEmails);
    SplitListJoinList(h.secondaryPhones);
    SplitListJoinList(h.newsletterEmails);
    SplitListJoinList(h.newsletterPhones);
  }

  lemma PersonRowReadsBack(p: Person)
    requires HistoryListable(p.history)
    ensures PersonOf(PersonRow(p), p.history.updates) == p
  {
    var row := PersonRow(p);
    PersonRowLists(p);
    HistoryReadsBack(row, p.history);
    PersonRowFields(p);
  }

  lemma PersonRowLists(p: Person)
    ensures var row := PersonRow(p);
      && Get(row, "secondary_emails") == JoinList(p.history.secondaryEmails)
      && Get(row, "secondary_phones") == JoinList(p.history.secondaryPhones)
      && Get(row, "newsletter_emails") == JoinList(p.history.newsletterEmails)
      && Get(row, "newsletter_phones") == JoinList(p.history.newsletterPhones)
  {
  }

  lemma PersonRowFields(p: Person)
    ensures var row := PersonRow(p);
      && Get(row, "guid") == p.guid && Get(row, "first_name") == p.firstName && Get(row, "last_name") == p.lastName
      && Get(row, "dob") == p.dob && Get(row, "primary_email") == p.primaryEmail && Get(row, "primary_phone") == p.primaryPhone
      && Get(row, "created_at") == p.createdAt && Get(row, "last_seen_at") == p.lastSeenAt
  {
  }

  /** One row of the participants file. */
  function ParticipantRow(p: Participant): Row {
    map["guid" := p.guid, "first_name" := p.firstName, "last_name" := p.lastName, "dob" := p.dob,
        "email" := p.email, "phone" := p.phone,
        "secondary_emails" := JoinList(p.history.secondaryEmails),
        "secondary_phones" := JoinList(p.history.secondaryPhones),
        "newsletter_emails" := JoinList(p.history.newsletterEmails),
        "newsletter_phones" := JoinList(p.history.newsletterPhones),
        "consent_contact" := p.consentContact, "created_at" := p.createdAt]
  }

  function ParticipantOf(row: Row, visits: seq<Visit>, updates: seq<ContactUpdate>): Participant {
    Participant(Get(row, "guid"), Get(row, "first_name"), Get(row, "last_name"), Get(row, "dob"),
                Get(row, "email"), Get(row, "phone"), HistoryOf(row, updates),
                Get(row, "consent_contact"), Get(row, "created_at"), visits)
  }

  lemma ParticipantRowReadsBack(p: Participant)
    requires HistoryListable(p.history)
    ensures ParticipantOf(ParticipantRow(p), p.visits, p.history.updates) == p
  {
    var row := ParticipantRow(p);
    ParticipantRowLists(p);
    HistoryReadsBack(row, p.history);
    ParticipantRowFields(p);
  }

  lemma ParticipantRowLists(p: Participant)
    ensures var row := ParticipantRow(p);
      && Get(row, "secondary_emails") == JoinList(p.history.secondaryEmails)
      && Get(row, "secondary_phones") == JoinList(p.history.secondaryPhones)
      && Get(row, "newsletter_emails") == JoinList(p.history.newsletterEmails)
      && Get(row, "newsletter_phones") == JoinList(p.history.newsletterPhones)
  {
  }

  lemma ParticipantRowFields(p: Participant)
    ensures var row := ParticipantRow(p);
      && Get(row, "guid") == p.guid && Get(row, "first_name") == p.firstName && Get(row, "last_name") == p.lastName
      && Get(row, "dob") == p.dob && Get(row, "email") == p.email && Get(row, "phone") == p.phone
      && Get(row, "consent_contact") == p.consentContact && Get(row, "created_at") == p.createdAt
  {
  }

  // ---------------------------------------------------------------------
  // Grouping rows by GUID (`by_guid.setdefault(guid, []).append(...)`)
  // ---------------------------------------------------------------------

  /** The parsed rows whose `guid` column is `g`, in file order. */
  function Grouped<T>(rows: seq<Row>, g: string, parse: Row -> T): seq<T>
    decreases |rows|
  {
    if rows == [] then []
    else
      var last := rows[|rows| - 1];
      Grouped(rows[..|rows| - 1], g, parse) + (if Get(last, "guid") == g then [parse(last)] else [])
  }

  /** `by_guid.get(g, [])`. */
  function Lookup<T>(m: map<string, seq<T>>, g: string): seq<T> {
    if g in m then m[g] else []
  }

  /** The grouping loop of `load_guid_db` and `load_participants_db`. */
  method GroupByGuid<T>(rows: seq<Row>, parse: Row -> T) returns (m: map<string, seq<T>>)
    ensures forall g :: Lookup(m, g) == Grouped(rows, g, parse)
  {
    m := map[];
    for i := 0 to |rows|
      invariant forall g :: Lookup(m, g) == Grouped(rows[..i], g, parse)
    {
      var g := Get(rows[i], "guid");
      assert rows[..i + 1][..i] == rows[..i];
      m := m[g := Lookup(m, g) + [parse(rows[i])]];
    }
    assert rows[..|rows|] == rows;
  }

  lemma {:induction false} GroupedConcat<T>(a: seq<Row>, b: seq<Row>, g: string, parse: Row -> T)
    ensures Grouped(a + b, g, parse) == Grouped(a, g, parse) + Grouped(b, g, parse)
    decreases |b|
  {
    if b != [] {
      var b0 := b[..|b| - 1];
      assert (a + b)[..|a + b| - 1] == a + b0;
      assert (a + b)[|a + b| - 1] == b[|b| - 1];
      GroupedConcat(a, b0, g, parse);
      var tail := if Get(b[|b| - 1], "guid") == g then [parse(b[|b| - 1])] else [];
      assert Grouped(a + b, g, parse) == Grouped(a + b0, g, parse) + tail;
      assert Grouped(b, g, parse) == Grouped(b0, g, parse) + tail;
    } else {
      assert a + b == a;
    }
  }

  /** The rows of one group: `for x in items: rows.append(to_row(guid, x))`. */
  function RowsFor<T>(guid: string, items: seq<T>, toRow: (string, T) -> Row): (r: seq<Row>)
    ensures |r| == |items| && forall k :: 0 <= k < |items| ==> r[k] == toRow(guid, items[k])
  {
    seq(|items|, k requires 0 <= k < |items| => toRow(guid, items[k]))
  }

  /** The rows of every group in order: the nested export loops. */
  function FlatRows<T>(guids: seq<string>, items: seq<seq<T>>, toRow: (string, T) -> Row): seq<Row>
    requires |guids| == |items|
    decreases |guids|
  {
    if guids == [] then []
    else
      var n := |guids| - 1;
      FlatRows(guids[..n], items[..n], toRow) + RowsFor(guids[n], items[n], toRow)
  }

  /** A row builder that the matching parser undoes. */
  ghost predicate ReadsBack<T(!new)>(toRow: (string, T) -> Row, parse: Row -> T) {
    forall guid: string, x: T :: Get(toRow(guid, x), "guid") == guid && parse(toRow(guid, x)) == x
  }

  lemma {:induction false} GroupedRowsFor<T(!new)>(guid: string, items: seq<T>, toRow: (string, T) -> Row, parse: Row -> T, g: string)
    requires ReadsBack(toRow, parse)
    ensures Grouped(RowsFor(guid, items, toRow), g, parse) == if guid == g then items else []
    decreases |items|
  {
    if items != [] {
      var n := |items| - 1;
      var rows := RowsFor(guid, items, toRow);
      assert rows[..n] == RowsFor(guid, items[..n], toRow);
      GroupedRowsFor(guid, items[..n], toRow, parse, g);
      assert items == items[..n] + [items[n]];
    }
  }

  predicate Distinct(xs: seq<string>) {
    forall i, j :: 0 <= i < j < |xs| ==> xs[i] != xs[j]
  }

  /** Grouping the flattened rows gives each GUID its own items back, when GUIDs are distinct. */
  lemma {:induction false} GroupedFlatRows<T(!new)>(guids: seq<string>, items: seq<seq<T>>, toRow: (string, T) -> Row, parse: Row -> T, g: string)
    requires |guids| == |items| && Distinct(guids) && ReadsBack(toRow, parse)
    ensures forall i :: 0 <= i < |guids| && guids[i] == g ==> Grouped(FlatRows(guids, items, toRow), g, parse) == items[i]
    ensures g !in guids ==> Grouped(FlatRows(guids, items, toRow), g, parse) == []
    decreases |guids|
  {
    if guids != [] {
      var n := |guids| - 1;
      var front := FlatRows(guids[..n], items[..n], toRow);
      var last := RowsFor(guids[n], items[n], toRow);
      assert FlatRows(guids, items, toRow) == front + last;
      assert Distinct(guids[..n]);
      GroupedFlatRows(guids[..n], items[..n], toRow, parse, g);
      GroupedConcat(front, last, g, parse);
      GroupedRowsFor(guids[n], items[n], toRow, parse, g);
      if g == guids[n] {
        assert g !in guids[..n];
        assert Grouped(front, g, parse) == [];
        forall i | 0 <= i < |guids| && guids[i] == g
          ensures i == n
        {
        }
      } else {
        assert Grouped(last, g, parse) == [];
        forall i | 0 <= i < |guids| && guids[i] == g
          ensures Grouped(front, g, parse) == items[i]
        {
          assert guids[..n][i] == g && items[..n][i] == items[i];
        }
        if g !in guids {
          assert g !in guids[..n];
        }
      }
    }
  }

  lemma FlatRowsSnoc<T>(guids: seq<string>, items: seq<seq<T>>, g: string, x: seq<T>, toRow: (string, T) -> Row)
    requires |guids| == |items|
    ensures FlatRows(guids + [g], items + [x], toRow) == FlatRows(guids, items, toRow) + RowsFor(g, x, toRow)
  {
    assert (guids + [g])[..|guids|] == guids;
    assert (items + [x])[..|items|] == items;
  }

  lemma RowsForSnoc<T>(guid: string, items: seq<T>, x: T, toRow: (string, T) -> Row)
    ensures RowsFor(guid, items + [x], toRow) == RowsFor(guid, items, toRow) + [toRow(guid, x)]
  {
  }

  lemma UpdateRowsReadBack()
    ensures ReadsBack(UpdateRow, UpdateOf)
  {
    forall guid: string, u: ContactUpdate
      ensures Get(UpdateRow(guid, u), "guid") == guid && UpdateOf(UpdateRow(guid, u)) == u
    {
      UpdateRowReadsBack(guid, u);
    }
  }

  lemma VisitRowsReadBack()
    ensures ReadsBack(VisitRow, VisitOf)
  {
    forall guid: string, v: Visit
      ensures Get(VisitRow(guid, v), "guid") == guid && VisitOf(VisitRow(guid, v)) == v
    {
      VisitRowReadsBack(guid, v);
    }
  }

  // ---------------------------------------------------------------------
  // The files
  // ---------------------------------------------------------------------

  /** A CSV file as `read_csv` sees it. */
  datatype CsvFile = Missing | Unreadable | Present(rows: seq<Row>)

  /** `read_csv`: the rows, or none when the file is missing or cannot be read. */
  function ReadCsv(f: CsvFile): seq<Row> {
    match f
    case Present(rows) => rows
    case _ => []
  }

  /** The six CSV files of the data directory. */
  datatype Files = Files(
    guidPeople: CsvFile,
    guidContactUpdates: CsvFile,
    participants: CsvFile,
    participantVisits: CsvFile,
    participantContactUpdates: CsvFile,
    deidentifiedVisits: CsvFile)

  // ---------------------------------------------------------------------
  // The people projection
  // ---------------------------------------------------------------------

  function PersonGuids(ps: seq<Person>): (r: seq<string>)
    ensures |r| == |ps| && forall i :: 0 <= i < |ps| ==> r[i] == ps[i].guid
  {
    Map(ps, (p: Person) => p.guid)
  }

  function PersonUpdates(ps: seq<Person>): (r: seq<seq<ContactUpdate>>)
    ensures |r| == |ps| && forall i :: 0 <= i < |ps| ==> r[i] == ps[i].history.updates
  {
    Map(ps, (p: Person) => p.history.updates)
  }

  /** The rows `export_guid_csv` writes to the people file. */
  function PeopleRows(ps: seq<Person>): (r: seq<Row>)
    ensures |r| == |ps| && forall i :: 0 <= i < |ps| ==> r[i] == PersonRow(ps[i])
  {
    Map(ps, PersonRow)
  }

  /** The rows `export_guid_csv` writes to the people's contact-updates file. */
  function PersonUpdateRows(ps: seq<Person>): seq<Row> {
    FlatRows(PersonGuids(ps), PersonUpdates(ps), UpdateRow)
  }

  /** The inner loops of the exporters: one row per item, each tagged with the record's GUID. */
  method AppendRowsFor<T>(rows: seq<Row>, guid: string, items: seq<T>, toRow: (string, T) -> Row) returns (out: seq<Row>)
    ensures out == rows + RowsFor(guid, items, toRow)
  {
    out := rows;
    for j := 0 to |items|
      invariant out == rows + RowsFor(guid, items[..j], toRow)
    {
      RowsForSnoc(guid, items[..j], items[j], toRow);
      assert items[..j + 1] == items[..j] + [items[j]];
      out := out + [toRow(guid, items[j])];
    }
    assert items[..|items|] == items;
  }

  /** One more person: one more people row, and that person's update rows after the others'. */
  lemma PeopleRowsStep(people: seq<Person>, i: nat)
    requires i < |people|
    ensures PeopleRows(people[..i + 1]) == PeopleRows(people[..i]) + [PersonRow(people[i])]
    ensures PersonUpdateRows(people[..i + 1])
      == PersonUpdateRows(people[..i]) + RowsFor(people[i].guid, people[i].history.updates, UpdateRow)
  {
    var p := people[i];
    assert people[..i + 1] == people[..i] + [p];
    assert PersonGuids(people[..i + 1]) == PersonGuids(people[..i]) + [p.guid];
    assert PersonUpdates(people[..i + 1]) == PersonUpdates(people[..i]) + [p.history.updates];
    FlatRowsSnoc(PersonGuids(people[..i]), PersonUpdates(people[..i]), p.guid, p.history.updates, UpdateRow);
  }

  /** `export_guid_csv`, the row building: one row per person, one per logged update. */
  method ExportGuid(people: seq<Person>) returns (peopleRows: seq<Row>, contactRows: seq<Row>)
    ensures peopleRows == PeopleRows(people)
    ensures contactRows == PersonUpdateRows(people)
  {
    peopleRows, contactRows := [], [];
    for i := 0 to |people|
      invariant peopleRows == PeopleRows(people[..i])
      invariant contactRows == PersonUpdateRows(people[..i])
    {
      var p := people[i];
      PeopleRowsStep(people, i);
      peopleRows := peopleRows + [PersonRow(p)];
      contactRows := AppendRowsFor(contactRows, p.guid, p.history.updates, UpdateRow);
    }
    assert people[..|people|] == people;
  }

  /** What `load_guid_db` builds from the two files' rows. */
  function PeopleOf(peopleRows: seq<Row>, contactRows: seq<Row>): (r: seq<Person>)
    ensures |r| == |peopleRows|
    ensures forall i :: 0 <= i < |peopleRows| ==>
      r[i] == PersonOf(peopleRows[i], Grouped(contactRows, Get(peopleRows[i], "guid"), UpdateOf))
  {
    seq(|peopleRows|, i requires 0 <= i < |peopleRows| =>
      PersonOf(peopleRows[i], Grouped(contactRows, Get(peopleRows[i], "guid"), UpdateOf)))
  }

  /** `load_guid_db` on the rows `read_csv` returned. */
  method LoadGuidDb(peopleRows: seq<Row>, contactRows: seq<Row>) returns (people: seq<Person>)
    ensures people == PeopleOf(peopleRows, contactRows)
  {
    var contactByGuid := GroupByGuid(contactRows, UpdateOf);
    people := [];
    for i := 0 to |peopleRows|
      invariant |people| == i
      invariant forall k :: 0 <= k < i ==> people[k] == PeopleOf(peopleRows, contactRows)[k]
    {
      var p := peopleRows[i];
      var guid := Get(p, "guid");
      people := people + [PersonOf(p, Lookup(contactByGuid, guid))];
    }
  }

  /** People whose files read back as they are: distinct GUIDs and lists without empty or piped values. */
  predicate PeopleStorable(ps: seq<Person>) {
    Distinct(PersonGuids(ps)) && forall i :: 0 <= i < |ps| ==> HistoryListable(ps[i].history)
  }

  /** Loading the exported people files gives the same people back. */
  lemma LoadExportedPeople(ps: seq<Person>)
    requires PeopleStorable(ps)
    ensures PeopleOf(PeopleRows(ps), PersonUpdateRows(ps)) == ps
  {
    UpdateRowsReadBack();
    var r := PeopleOf(PeopleRows(ps), PersonUpdateRows(ps));
    forall i | 0 <= i < |ps|
      ensures r[i] == ps[i]
    {
      GroupedFlatRows(PersonGuids(ps), PersonUpdates(ps), UpdateRow, UpdateOf, ps[i].guid);
      PersonRowReadsBack(ps[i]);
    }
  }

  // ---------------------------------------------------------------------
  // The participants projection
  // ---------------------------------------------------------------------

  function ParticipantGuids(ps: seq<Participant>): (r: seq<string>)
    ensures |r| == |ps| && forall i :: 0 <= i < |ps| ==> r[i] == ps[i].guid
  {
    Map(ps, (q: Participant) => q.guid)
  }

  function ParticipantVisits(ps: seq<Participant>): (r: seq<seq<Visit>>)
    ensures |r| == |ps| && forall i :: 0 <= i < |ps| ==> r[i] == ps[i].visits
  {
    Map(ps, (q: Participant) => q.visits)
  }

  function ParticipantUpdates(ps: seq<Participant>): (r: seq<seq<ContactUpdate>>)
    ensures |r| == |ps| && forall i :: 0 <= i < |ps| ==> r[i] == ps[i].history.updates
  {
    Map(ps, (q: Participant) => q.history.updates)
  }

  function ParticipantRows(ps: seq<Participant>): (r: seq<Row>)
    ensures |r| == |ps| && forall i :: 0 <= i < |ps| ==> r[i] == ParticipantRow(ps[i])
  {
    Map(ps, ParticipantRow)
  }

  function VisitRows(ps: seq<Participant>): seq<Row> {
    FlatRows(ParticipantGuids(ps), ParticipantVisits(ps), VisitRow)
  }

  function ParticipantUpdateRows(ps: seq<Participant>): seq<Row> {
    FlatRows(ParticipantGuids(ps), ParticipantUpdates(ps), UpdateRow)
  }

  function DeidentifiedRows(ps: seq<Participant>): seq<Row> {
    FlatRows(ParticipantGuids(ps), ParticipantVisits(ps), DeidentifiedRow)
  }

  /** One more participant: one more participant row, and its visit, update and de-identified rows after the others'. */
  lemma ParticipantRowsStep(participants: seq<Participant>, i: nat)
    requires i < |participants|
    ensures ParticipantRows(participants[..i + 1]) == ParticipantRows(participants[..i]) + [ParticipantRow(participants[i])]
    ensures VisitRows(participants[..i + 1])
      == VisitRows(participants[..i]) + RowsFor(participants[i].guid, participants[i].visits, VisitRow)
    ensures ParticipantUpdateRows(participants[..i + 1])
      == ParticipantUpdateRows(participants[..i]) + RowsFor(participants[i].guid, participants[i].history.updates, UpdateRow)
    ensures DeidentifiedRows(participants[..i + 1])
      == DeidentifiedRows(participants[..i]) + RowsFor(participants[i].guid, participants[i].visits, DeidentifiedRow)
  {
    var p := participants[i];
    var before := participants[..i];
    assert participants[..i + 1] == before + [p];
    assert ParticipantGuids(participants[..i + 1]) == ParticipantGuids(before) + [p.guid];
    assert ParticipantVisits(participants[..i + 1]) == ParticipantVisits(before) + [p.visits];
    assert ParticipantUpdates(participants[..i + 1]) == ParticipantUpdates(before) + [p.history.updates];
    FlatRowsSnoc(ParticipantGuids(before), ParticipantVisits(before), p.guid, p.visits, VisitRow);
    FlatRowsSnoc(ParticipantGuids(before), ParticipantUpdates(before), p.guid, p.history.updates, UpdateRow);
    FlatRowsSnoc(ParticipantGuids(before), ParticipantVisits(before), p.guid, p.visits, DeidentifiedRow);
  }

  /** `export_participants_csv`, the row building: one row per participant, per visit and per logged update. */
  method ExportParticipants(participants: seq<Participant>) returns (participantRows: seq<Row>, visitRows: seq<Row>, contactRows: seq<Row>)
    ensures participantRows == ParticipantRows(participants)
    ensures visitRows == VisitRows(participants)
    ensures contactRows == ParticipantUpdateRows(participants)
  {
    participantRows, visitRows, contactRows := [], [], [];
    for i := 0 to |participants|
      invariant participantRows == ParticipantRows(participants[..i])
      invariant visitRows == VisitRows(participants[..i])
      invariant contactRows == ParticipantUpdateRows(participants[..i])
    {
      var p := participants[i];
      ParticipantRowsStep(participants, i);
      participantRows := participantRows + [ParticipantRow(p)];
      visitRows := AppendRowsFor(visitRows, p.guid, p.visits, VisitRow);
      contactRows := AppendRowsFor(contactRows, p.guid, p.history.updates, UpdateRow);
    }
    assert participants[..|participants|] == participants;
  }

  /** `export_deidentified_visits`, the row building: one row per visit, without names or contacts. */
  method ExportDeidentified(participants: seq<Participant>) returns (rows: seq<Row>)
    ensures rows == DeidentifiedRows(participants)
  {
    rows := [];
    for i := 0 to |participants|
      invariant rows == DeidentifiedRows(participants[..i])
    {
      var p := participants[i];
      ParticipantRowsStep(participants, i);
      rows := AppendRowsFor(rows, p.guid, p.visits, DeidentifiedRow);
    }
    assert participants[..|participants|] == participants;
  }

  /** Each row of a group's flattened rows is built from one of its items. */
  lemma {:induction false} FlatRowsFrom<T>(guids: seq<string>, items: seq<seq<T>>, toRow: (string, T) -> Row, k: nat)
    requires |guids| == |items| && k < |FlatRows(guids, items, toRow)|
    ensures exists i, j :: 0 <= i < |guids| && 0 <= j < |items[i]| && FlatRows(guids, items, toRow)[k] == toRow(guids[i], items[i][j])
    decreases |guids|
  {
    var n := |guids| - 1;
    var front := FlatRows(guids[..n], items[..n], toRow);
    if k < |front| {
      FlatRowsFrom(guids[..n], items[..n], toRow, k);
      var i, j :| 0 <= i < n && 0 <= j < |items[..n][i]| && front[k] == toRow(guids[..n][i], items[..n][i][j]);
      assert FlatRows(guids, items, toRow)[k] == toRow(guids[i], items[i][j]);
    } else {
      var j := k - |front|;
      assert FlatRows(guids, items, toRow)[k] == toRow(guids[n], items[n][j]);
    }
  }

  /** No row of the de-identified export carries an identifying column. */
  lemma DeidentifiedRowsHaveNoIdentifiers(ps: seq<Participant>)
    ensures forall k, c :: 0 <= k < |DeidentifiedRows(ps)| && c in DeidentifiedRows(ps)[k] ==>
      c in DeidentifiedColumns && c !in IdentifyingColumns
  {
    forall k, c | 0 <= k < |DeidentifiedRows(ps)| && c in DeidentifiedRows(ps)[k]
      ensures c in DeidentifiedColumns && c !in IdentifyingColumns
    {
      FlatRowsFrom(ParticipantGuids(ps), ParticipantVisits(ps), DeidentifiedRow, k);
      var i, j :| 0 <= i < |ps| && 0 <= j < |ps[i].visits| && DeidentifiedRows(ps)[k] == DeidentifiedRow(ps[i].guid, ps[i].visits[j]);
      DeidentifiedRowShape(ps[i].guid, ps[i].visits[j]);
    }
  }

  /** What `load_participants_db` builds from the three files' rows. */
  function ParticipantsOf(participantRows: seq<Row>, visitRows: seq<Row>, contactRows: seq<Row>): (r: seq<Participant>)
    ensures |r| == |participantRows|
    ensures forall i :: 0 <= i < |participantRows| ==>
      var g := Get(participantRows[i], "guid");
      r[i] == ParticipantOf(participantRows[i], Grouped(visitRows, g, VisitOf), Grouped(contactRows, g, UpdateOf))
  {
    seq(|participantRows|, i requires 0 <= i < |participantRows| =>
      var g := Get(participantRows[i], "guid");
      ParticipantOf(participantRows[i], Grouped(visitRows, g, VisitOf), Grouped(contactRows, g, UpdateOf)))
  }

  /** `load_participants_db` on the rows `read_csv` returned. */
  method LoadParticipantsDb(participantRows: seq<Row>, visitRows: seq<Row>, contactRows: seq<Row>) returns (participants: seq<Participant>)
    ensures participants == ParticipantsOf(participantRows, visitRows, contactRows)
  {
    var visitsByGuid := GroupByGuid(visitRows, VisitOf);
    var contactsByGuid := GroupByGuid(contactRows, UpdateOf);
    participants := [];
    for i := 0 to |participantRows|
      invariant |participants| == i
      invariant forall k :: 0 <= k < i ==> participants[k] == ParticipantsOf(participantRows, visitRows, contactRows)[k]
    {
      var p := participantRows[i];
      var guid := Get(p, "guid");
      participants := participants + [ParticipantOf(p, Lookup(visitsByGuid, guid), Lookup(contactsByGuid, guid))];
    }
  }

  predicate ParticipantsStorable(ps: seq<Participant>) {
    Distinct(ParticipantGuids(ps)) && forall i :: 0 <= i < |ps| ==> HistoryListable(ps[i].history)
  }

  /** Loading the exported participant files gives the same participants back, visits included. */
  lemma LoadExportedParticipants(ps: seq<Participant>)
    requires ParticipantsStorable(ps)
    ensures ParticipantsOf(ParticipantRows(ps), VisitRows(ps), ParticipantUpdateRows(ps)) == ps
  {
    UpdateRowsReadBack();
    VisitRowsReadBack();
    var r := ParticipantsOf(ParticipantRows(ps), VisitRows(ps), ParticipantUpdateRows(ps));
    forall i | 0 <= i < |ps|
      ensures r[i] == ps[i]
    {
      GroupedFlatRows(ParticipantGuids(ps), ParticipantVisits(ps), VisitRow, VisitOf, ps[i].guid);
      GroupedFlatRows(ParticipantGuids(ps), ParticipantUpdates(ps), UpdateRow, UpdateOf, ps[i].guid);
      ParticipantRowReadsBack(ps[i]);
    }
  }
}
