/**
 * The in-memory records of the current check-in store.  Each record is a
 * dictionary in the source; here it is a datatype with one field per key.
 * Values the source stores as `None` (an unanswered consent or role) are
 * held as `""`, which is what the flat-file writer emits for them.
 */
module Records {
  import Strings

  /** A visit number as `_int_or_blank` leaves it: an integer, or blank when the field did not parse. */
  datatype IntOrBlank = Int(n: int) | Blank

  /** One row of a contact-history log. */
  datatype ContactUpdate = ContactUpdate(
    kind: string,
    value: string,
    addedAt: string,
    visitNumber: IntOrBlank,
    visitDatetime: string)

  /** One check-in of a participant. */
  datatype Visit = Visit(
    visitNumber: IntOrBlank,
    visitDatetime: string,
    visitDate: string,
    visitTime: string,
    studyCode: string,
    consentContact: string,
    enteredBy: string)

  /** The contact lists and the audit log that people and participants both carry. */
  datatype ContactHistory = ContactHistory(
    secondaryEmails: seq<string>,
    secondaryPhones: seq<string>,
    newsletterEmails: seq<string>,
    newsletterPhones: seq<string>,
    updates: seq<ContactUpdate>)

  const EmptyHistory := ContactHistory([], [], [], [], [])

  /** A row of the people projection (the deduplicated identities). */
  datatype Person = Person(
    guid: string,
    firstName: string,
    lastName: string,
    dob: string,
    primaryEmail: string,
    primaryPhone: string,
    history: ContactHistory,
    createdAt: string,
    lastSeenAt: string)

  /** A row of the participants projection: the identity with its visits. */
  datatype Participant = Participant(
    guid: string,
    firstName: string,
    lastName: string,
    dob: string,
    email: string,
    phone: string,
    history: ContactHistory,
    consentContact: string,
    createdAt: string,
    visits: seq<Visit>)

  /** Visit numbers run 1, 2, ..., n in list order. */
  predicate VisitsNumbered(visits: seq<Visit>) {
    forall k :: 0 <= k < |visits| ==> visits[k].visitNumber == Int(k + 1)
  }

  /** `visit_datetime.split("T")[0]`. */
  function DatePart(dt: string): string {
    Strings.Split(dt, 'T')[0]
  }

  /** `visit_datetime.split("T")[1] if "T" in visit_datetime else ""`. */
  function TimePart(dt: string): string {
    if 'T' in dt then (Strings.SplitSecond(dt, 'T'); Strings.Split(dt, 'T')[1]) else ""
  }

  /** The date part is what precedes the first `T`, and with one `T` the two parts rebuild the timestamp. */
  lemma DateTimeParts(dt: string)
    ensures 'T' !in dt ==> DatePart(dt) == dt && TimePart(dt) == ""
    ensures 'T' in dt ==> DatePart(dt) + "T" <= dt
    ensures 'T' in dt && 'T' !in dt[Strings.IndexOf(dt, 'T') + 1..] ==> DatePart(dt) + "T" + TimePart(dt) == dt
  {
    Strings.SplitFirst(dt, 'T');
    if 'T' in dt {
      var i := Strings.IndexOf(dt, 'T');
      assert dt == dt[..i] + "T" + dt[i + 1..];
      Strings.SplitSecond(dt, 'T');
      Strings.SplitFirst(dt[i + 1..], 'T');
    }
  }
}
