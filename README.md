# TUBRIC check-in kiosk: a verified model of its record linkage

The TUBRIC kiosk checks study participants in. A participant types a name, a
date of birth, an email and a phone number. The back end then finds the
person it already knows (date of birth first, then name, email and phone),
or mints a new GUID. It logs every new contact value with the visit it came
from and writes the whole store out as CSV files. A separate script turns
those files into REDCap import payloads.

This project models, in Dafny:

- **`Normalize`**: the normalisers shared by both back ends (email, phone,
  name, date of birth) and `names_match`. `Dates` and `Strings` hold the
  Python and JavaScript string and calendar semantics these rest on: `strip`,
  `lower`, `re.sub`, `split`/`join`, `int()`, `strptime("%m-%d-%Y")` and
  `strftime`.
- **`Records`, `Contacts`**: the person, participant, visit and
  contact-update records. `add_contact_update` and the four
  `add_secondary_*`/`add_newsletter_*` appenders become one operation on a
  record's contact history.
- **`Matching`**: the selection rule the two matchers share. The first
  eligible candidate with the strictly highest score wins, and only a
  score of at least 2 is accepted.
- **`FlatFile`**: the CSV row layer. It covers the pipe-joined lists,
  `_int_or_blank`, the row building of the three `export_*` functions, and
  the grouping loops of `load_guid_db`/`load_participants_db`. Exporting
  and loading round-trip.
- **`Kiosk`**: the current back end (`tubric_kiosk/survey.py`). It holds
  `find_person` and its helpers, and `submit_checkin` as a `Store` class
  whose `people` and `participants` fields it updates. It also states the
  invariant the store keeps:
  - GUIDs are unique;
  - every participant has its person;
  - contact lists have no duplicates and every entry is logged;
  - visits are numbered 1..n.
- **`Migration`**: the one-time transform from the legacy JSON profiles to
  the two CSV projections.
- **`Legacy`**: the older single-file back end
  (`Database/tubric_kiosk/survey.py`). It holds `load_data`, `find_profile`
  and `submit_silently`, as a `KioskData` class, and compares this matcher
  with the current one.
- **`Payloads`**: the REDCap payload builders
  (`redcap_build/build_import_payloads.py`):
  - the GUID-to-record-id map and its fallback;
  - the first pipe value;
  - the newsletter defaults;
  - the per-GUID repeat-instance counter.
- **`Renderer`**: the Electron information screen
  (`electron_app/renderer.js`). It holds:
  - the as-you-type formatters;
  - the birth-date, email and phone checks;
  - the Continue handler, as an `InfoScreen` class.
- **`TkForms`**: the Tk kiosk's copies of the two formatters, with
  Python's `str.isdigit()`. They are proved equal to the Electron ones on
  text whose digits are all ASCII.

`Seqs` and `Wrappers` are small generic utilities.

The normalisers in `Database/tubric_kiosk/survey.py:41-76` are the same
code as `tubric_kiosk/survey.py:67-102`. One `Normalize` module serves both.

## Model

| member | source | states |
|---|---|---|
| Normalize.NormalizeEmail | tubric_kiosk/survey.py:67-68 | The result has no upper-case letter, and it is empty exactly when the input is blank after stripping. |
| Normalize.NormalizeEmailUnpadded | tubric_kiosk/survey.py:67-68 | A normalized email has no whitespace at either end. |
| Normalize.NormalizeEmailIdempotent | tubric_kiosk/survey.py:67-68 | Normalizing an email twice is normalizing it once. |
| Normalize.NormalizePhone | tubric_kiosk/survey.py:71-78 | The result is the input's digit string when there are exactly ten digits, and `""` otherwise. |
| Normalize.NormalizePhoneIdempotent | tubric_kiosk/survey.py:71-78 | Normalizing a phone twice is normalizing it once. |
| Normalize.NormalizePhoneIgnoresDashes | tubric_kiosk/survey.py:71-78 | `XXX-XXX-XXXX` normalizes to its ten digits: formatting characters are ignored. |
| Normalize.NormalizeName | tubric_kiosk/survey.py:81-84 | The result is lower case, with single blanks between words and none at the ends. |
| Normalize.NormalizeNameFixed | tubric_kiosk/survey.py:81-84 | A name already in that form is left alone. |
| Normalize.NormalizeNameIdempotent | Database/tubric_kiosk/survey.py:55-58 | Normalizing a name twice is normalizing it once. |
| Normalize.NormalizeNameOfTrim | tubric_kiosk/survey.py:81-84 | Stripping a name first does not change its normal form. |
| Normalize.NamesMatchProperties | tubric_kiosk/survey.py:679-683 | A stored normalized name matches the raw entry it came from, and `names_match` is symmetric. |
| Normalize.NormalizeDob | tubric_kiosk/survey.py:87-102 | The result is `""` or the canonical `YYYY-MM-DD` text of a real date, and it is `""` for blank input. |
| Normalize.NormalizeDobPadded | tubric_kiosk/survey.py:87-102 | Every real date typed as `MM-DD-YYYY` becomes that date as `YYYY-MM-DD`. |
| Normalize.NormalizeDobUnpadded | tubric_kiosk/survey.py:98-100 | A month and day typed without leading zeros are accepted as well, because `strptime` is lenient there. |
| Normalize.NormalizeDobExample | tubric_kiosk/survey.py:87-93 | The documented example `03-14-2007` becomes `2007-03-14`. |
| Normalize.NormalizeDobUnpaddedExample | tubric_kiosk/survey.py:98-100 | `3-14-2007` also becomes `2007-03-14`. |
| Normalize.NormalizeDobRefusesMissingDay | tubric_kiosk/survey.py:98-102 | A day beyond the month's length (30 February, 31 April, 29 February of a common year) gives `""`. |
| Dates.DaysInMonth | electron_app/renderer.js:44-49 | A month has 28 to 31 days, and 29 exactly for February of a Gregorian leap year. |
| Dates.ParseMdy | tubric_kiosk/survey.py:98-99 | Whatever `strptime("%m-%d-%Y")` accepts is a real date. |
| Dates.ParseMdyPadded | tubric_kiosk/survey.py:98-99 | The two-digit form of every real date parses back to that date. |
| Dates.ParseMdyUnpadded | tubric_kiosk/survey.py:98-99 | The form without leading zeros parses back to the same date. |
| Dates.ParseMdyRefusesMissingDay | tubric_kiosk/survey.py:98-102 | A day that the month does not have is refused. |
| Dates.FormatIsoReadsBack | tubric_kiosk/survey.py:100 | `strftime("%Y-%m-%d")` of a real date is well formed, and its three fields read back as that year, month and day. |
| Strings.ParseIntOfIntToString | tubric_kiosk/survey.py:146-150 | `int(str(n)) == n` for every integer, so a visit number written out reads back. |
| Strings.ParseIntEmpty | tubric_kiosk/survey.py:146-150 | `int("")` raises, which is why an empty field becomes the blank value. |
| Records.DateTimeParts | tubric_kiosk/survey.py:544-545 | Without a `T`, the date part is the whole timestamp and the time part is empty. With one `T`, date, `T` and time put back together give the timestamp. |
| Contacts.TagsDistinct | tubric_kiosk/survey.py:762-819 | The four appenders log four different `type` tags: `email`, `phone`, `newsletter_email`, `newsletter_phone`. |
| Contacts.NormalIdempotent | tubric_kiosk/survey.py:774-819 | The normalisation each appender applies is idempotent. |
| Contacts.LogUpdate | tubric_kiosk/survey.py:762-771 | `add_contact_update` appends exactly one update with the given type, value, visit number and visit time, stamped `now`. No list changes. |
| Contacts.NormalizedList | tubric_kiosk/survey.py:777 | The list of existing values, each normalized, in order. |
| Contacts.AddContact | tubric_kiosk/survey.py:774-819 | It returns True exactly when the normalized value is non-empty and not yet listed. In that case: the value is appended once to the list of that kind, every other list is unchanged, and one update is logged with that kind's tag. Otherwise the record is unchanged. |
| Contacts.EmptyHistoryOk | tubric_kiosk/survey.py:607-611 | A fresh record's empty lists satisfy the history invariant: no duplicates, normalized entries, every entry logged. |
| Contacts.AddContactKeepsHistoryOk | tubric_kiosk/survey.py:774-819 | Every appender preserves the history invariant. |
| Contacts.AddContactTwice | tubric_kiosk/survey.py:778-781 | Adding a value that normalizes like one just added returns False and changes nothing. |
| Matching.Select | tubric_kiosk/survey.py:725-748 | It picks the first eligible candidate with the highest score, and only when that score is at least 2. |
| Matching.BestInStep | tubric_kiosk/survey.py:732-746 | One loop step: the best so far changes only on an eligible candidate with a strictly greater score, so ties keep the earlier candidate. |
| Matching.ChoiceUnique | tubric_kiosk/survey.py:725-748 | The selection rule determines at most one answer. |
| Matching.HighScoreMatches | tubric_kiosk/survey.py:746-748 | If any eligible candidate scores at least 2, some candidate is chosen, and it scores at least as high. |
| Matching.UniqueBestChosen | tubric_kiosk/survey.py:740-748 | A strictly best eligible candidate with a score of at least 2 is the one chosen. |
| Kiosk.IsListed | tubric_kiosk/survey.py:777-780 | The loop decides whether the normalized value is among the normalized list entries. |
| Kiosk.AnyNormalizesTo | tubric_kiosk/survey.py:692-695 | True exactly when some list entry normalizes to the value. |
| Kiosk.EmailMatches | tubric_kiosk/survey.py:686-696 | `_email_matches` against the primary and the secondary emails; an empty incoming email never matches. |
| Kiosk.PhoneMatches | tubric_kiosk/survey.py:698-708 | `_phone_matches` likewise; an empty incoming phone never matches. |
| Kiosk.Score | tubric_kiosk/survey.py:733-742 | The score lies between 0 and 4. It reaches 2 exactly when the names match, or when both email and phone match. |
| Kiosk.Eligible | tubric_kiosk/survey.py:725-727 | Candidate i is eligible exactly when its stored birth date equals the one given. |
| Kiosk.Scores | tubric_kiosk/survey.py:732-742 | Entry i is the score of person i. |
| Kiosk.Match | tubric_kiosk/survey.py:710-748 | The linked person, when there is one, is an index into the list. |
| Kiosk.FindPerson | tubric_kiosk/survey.py:710-748 | The loop returns the candidate that the selection rule chooses among the people whose birth date is the one given. |
| Kiosk.ScoreCandidate | tubric_kiosk/survey.py:733-742 | The loop body computes the score of one candidate. |
| Kiosk.NameMatchSuffices | tubric_kiosk/survey.py:733-748 | A person with the same birth date and a matching name is always linked to someone with that birth date. |
| Kiosk.OneContactNeverSuffices | tubric_kiosk/survey.py:733-748 | Without a name match, and without both email and phone matching, no one is linked. |
| Kiosk.ParticipantIndex | tubric_kiosk/survey.py:755-759 | The first participant with the GUID, or none when no participant has it. |
| Kiosk.FindParticipantByGuid | tubric_kiosk/survey.py:755-759 | The loop returns that first participant. |
| Kiosk.ParticipantIndexUnique | tubric_kiosk/survey.py:755-759 | "The first with the GUID, or none" pins the answer down. |
| Kiosk.MergeContact | tubric_kiosk/survey.py:568-578 | An empty input changes nothing. An empty primary is filled with the normalized value and nothing is logged. A set primary is never overwritten. The history changes only when the value differs from the primary, and then through the secondary appender. |
| Kiosk.MergeContactKeepsHistoryOk | tubric_kiosk/survey.py:568-578 | Merging a contact preserves the history invariant. |
| Kiosk.AddNewsletter | tubric_kiosk/survey.py:593-596 | The newsletter appenders keep the history invariant and leave the secondary lists alone. |
| Kiosk.MatchedPerson | tubric_kiosk/survey.py:557-578 | Identity fields and `created_at` are kept and `last_seen_at` is the visit time. A set primary is kept. Newsletter lists are untouched. |
| Kiosk.MatchedParticipant | tubric_kiosk/survey.py:580-598 | Identity, `created_at` and consent are kept. Exactly one visit is appended, numbered n. A set email or phone is kept, and the history invariant holds. |
| Kiosk.FreshHistory | tubric_kiosk/survey.py:600-621 | A new record's secondary lists start empty. |
| Kiosk.FreshHistoryOk | tubric_kiosk/survey.py:600-621 | A new record's history, with its newsletter values, satisfies the invariant. |
| Kiosk.FirstVisitNumbered | tubric_kiosk/survey.py:601 | A single visit numbered 1 is correctly numbered. |
| Kiosk.NewPerson | tubric_kiosk/survey.py:625-645 | The fresh GUID, the stripped names, the given birth date and the normalized email and phone. Secondary lists are empty, created and last seen are `now`, and the history invariant holds. |
| Kiosk.NewParticipant | tubric_kiosk/survey.py:647-668 | The same fields, plus one visit numbered 1 and the check-in's consent. |
| Kiosk.MatchedWithoutPhoneRaises | tubric_kiosk/survey.py:574-623 | As written, a linked check-in without a phone appends no visit and ends in an exception. The corrected version records the visit under MatchedExisting. |
| Kiosk.AsWrittenAgreesWithPhone | tubric_kiosk/survey.py:574-623 | With a phone, or with no match, the code as written and the corrected version agree. |
| Kiosk.CreatingKeepsStoreOk | tubric_kiosk/survey.py:624-668 | Adding a person and a participant with a fresh shared GUID keeps the store invariant. |
| Kiosk.UpdatingKeepsStoreOk | tubric_kiosk/survey.py:557-598 | Updating a linked person and participant in place keeps the store invariant. |
| Kiosk.UpdatingAndAddingKeepsStoreOk | tubric_kiosk/survey.py:599-622 | Updating the person and adding its first participant record keeps the store invariant. |
| Kiosk.NextVisitKeepsNumbering | tubric_kiosk/survey.py:561-564 | A visit numbered count+1 extends a 1..n numbering. |
| Kiosk.SubmittedKeepsStoreOk | tubric_kiosk/survey.py:516-669 | Every corrected check-in with a fresh GUID keeps the store invariant. |
| Kiosk.UpdatingPersonKeepsStoreOk | tubric_kiosk/survey.py:557-578 | Updating only the linked person, and no participant, keeps the store invariant. |
| Kiosk.SubmittedAsWrittenKeepsStoreOk | tubric_kiosk/survey.py:516-676 | Every check-in as written with a fresh GUID keeps the store invariant, on both endings: the return and the exception. |
| Kiosk.ExportsLoadBack | tubric_kiosk/survey.py:321-467 | Loading the exported files gives back the exact store, for a store that satisfies the invariant and has no pipe in a list value. |
| Kiosk.StoreStorable | tubric_kiosk/survey.py:334-337 | Such a store survives pipe-joining: no list entry is empty or holds a pipe. |
| Kiosk.ExportedFilesRead | tubric_kiosk/survey.py:671-673 | Each exported file holds the rows built from the projections. |
| Kiosk.Store.Load | tubric_kiosk/survey.py:521-524 | The store holds what the loaders build from the files on disk. |
| Kiosk.Store.Submit | tubric_kiosk/survey.py:516-676 | The new projections and the ending are those of the check-in as written: a return with the GUID and action, or, for a linked check-in without a phone, the exception after only the person is updated. Every file is written from the new projections on both endings. The store invariant is preserved. |
| Kiosk.Store.Record | tubric_kiosk/survey.py:534-669 | The linking and record updates, step by step, agree with the check-in as written, including the phone-less linked case in which no participant changes. |
| Kiosk.Store.Export | tubric_kiosk/survey.py:671-673 | The files written are the exports of the projections in memory. |
| Kiosk.CreatedNewAddsOne | tubric_kiosk/survey.py:624-669 | Without a match, exactly one person and one participant are appended, sharing the fresh GUID. The earlier records are unchanged, there is one visit numbered 1, and the action is CreatedNew. |
| Kiosk.CreatedNewOutcome | tubric_kiosk/survey.py:624-669 | Without a match, the outcome is exactly the two new records appended. |
| Kiosk.MatchedChangesOnlyThatPerson | tubric_kiosk/survey.py:557-623 | With a match, the GUID is the existing one and the action is MatchedExisting. Only that person changes, and its `last_seen_at` is the visit time. |
| Kiosk.MatchedAppendsVisit | tubric_kiosk/survey.py:559-598 | With a match and a participant record, that participant gains exactly one visit, numbered prior count + 1. |
| Kiosk.AppendedParticipantFound | tubric_kiosk/survey.py:755-759 | A participant appended with a new GUID is then found by it. |
| Kiosk.SameQuerySameScores | tubric_kiosk/survey.py:710-748 | Only the birth date, names, email and phone drive linking. |
| Kiosk.AddedPersonMatchesAgain | tubric_kiosk/survey.py:710-748 | A newly added person is the one linked when the same answers are given again. |
| Kiosk.NewPersonMatchesItsQuery | tubric_kiosk/survey.py:626-629 | A new person's stored names and birth date match the answers they came from. |
| Kiosk.ReturningParticipantMatches | tubric_kiosk/survey.py:516-676 | As written, checking in twice with the same answers adds one person and one participant, and the second check-in links to the GUID minted by the first. With a phone the second visit is recorded, numbered 2. Without one no visit is added and the call raises. |
| Kiosk.ReturningParticipantRecordsVisit | tubric_kiosk/survey.py:516-676 | With the corrected check-in, the second check-in always links to the first's GUID and records visit 2. |
| FlatFile.SplitList | tubric_kiosk/survey.py:140-143 | The pieces are non-empty and hold no pipe. |
| FlatFile.SplitListJoinList | tubric_kiosk/survey.py:140-143 | splitting the pipe-joined text gives back the list, for lists whose elements are non-empty and pipe-free; in particular `[]` round-trips through the empty field. |
| FlatFile.SplitListSplitsPipes | tubric_kiosk/survey.py:334 | An element holding a pipe does not survive: the one-element list holding `a`, a pipe and `b` reads back as two elements. |
| FlatFile.IntOrBlankRoundTrip | tubric_kiosk/survey.py:146-150 | `_int_or_blank` reads back every number or blank as written. |
| FlatFile.UpdateRowReadsBack | tubric_kiosk/survey.py:343-353 | An exported contact-update row reads back as the same update, under the record's GUID. |
| FlatFile.VisitRowReadsBack | tubric_kiosk/survey.py:403-415 | An exported visit row reads back as the same visit, under the participant's GUID. |
| FlatFile.DeidentifiedRowShape | tubric_kiosk/survey.py:468-481 | A de-identified row has exactly the six de-identified columns. None of them identifies a person, and each agrees with the full visit row. |
| FlatFile.HistoryReadsBack | tubric_kiosk/survey.py:172-189 | The four pipe-joined columns read back as the four lists. |
| FlatFile.PersonRowReadsBack | tubric_kiosk/survey.py:325-341 | A person row read back with that person's updates gives the same person. |
| FlatFile.PersonRowLists | tubric_kiosk/survey.py:334-337 | The list columns of a person row are the pipe-joined lists. |
| FlatFile.PersonRowFields | tubric_kiosk/survey.py:328-339 | The scalar columns of a person row are the person's fields. |
| FlatFile.ParticipantRowReadsBack | tubric_kiosk/survey.py:385-401 | A participant row read back with its visits and updates gives the same participant. |
| FlatFile.ParticipantRowLists | tubric_kiosk/survey.py:394-397 | The list columns of a participant row are the pipe-joined lists. |
| FlatFile.ParticipantRowFields | tubric_kiosk/survey.py:388-399 | The scalar columns of a participant row are the participant's fields. |
| FlatFile.GroupByGuid | tubric_kiosk/survey.py:158-169 | The `setdefault(...).append` loop maps each GUID to its rows, parsed, in file order. |
| FlatFile.GroupedConcat | tubric_kiosk/survey.py:158-169 | Grouping distributes over concatenation of the rows. |
| FlatFile.RowsFor | tubric_kiosk/survey.py:343-353 | One row per item, in order, each under the record's GUID. |
| FlatFile.GroupedFlatRows | tubric_kiosk/survey.py:403-427 | Grouping the flattened child rows under distinct GUIDs gives each record back its own items. |
| FlatFile.PersonGuids | tubric_kiosk/survey.py:328 | The people's GUIDs, in order. |
| FlatFile.PeopleRows | tubric_kiosk/survey.py:325-341 | One person row per person, in order. |
| FlatFile.AppendRowsFor | tubric_kiosk/survey.py:343-353 | The inner export loop appends the item rows of one record. |
| FlatFile.ExportGuid | tubric_kiosk/survey.py:321-353 | `export_guid_csv` builds the people rows and the flattened contact-update rows. |
| FlatFile.PeopleOf | tubric_kiosk/survey.py:172-190 | One person per people row, with the updates grouped under its GUID. |
| FlatFile.LoadGuidDb | tubric_kiosk/survey.py:153-190 | `load_guid_db`'s loops compute exactly that. |
| FlatFile.LoadExportedPeople | tubric_kiosk/survey.py:153-190 | Loading the people export gives back the people, given unique GUIDs and pipe-free lists. |
| FlatFile.ParticipantGuids | tubric_kiosk/survey.py:388 | The participants' GUIDs, in order. |
| FlatFile.ParticipantRows | tubric_kiosk/survey.py:385-401 | One participant row per participant, in order. |
| FlatFile.ExportParticipants | tubric_kiosk/survey.py:380-427 | `export_participants_csv` builds the participant, visit and contact-update rows. |
| FlatFile.ExportDeidentified | tubric_kiosk/survey.py:468-481 | `export_deidentified_visits` builds one de-identified row per visit, in order. |
| FlatFile.FlatRowsFrom | tubric_kiosk/survey.py:470-481 | Every flattened row comes from some record's item. |
| FlatFile.DeidentifiedRowsHaveNoIdentifiers | tubric_kiosk/survey.py:468-481 | No column of the de-identified export names, dates of birth or contacts a person. |
| FlatFile.ParticipantsOf | tubric_kiosk/survey.py:222-244 | One participant per row, with its visits and updates grouped under its GUID. |
| FlatFile.LoadParticipantsDb | tubric_kiosk/survey.py:192-245 | `load_participants_db`'s loops compute exactly that. |
| FlatFile.LoadExportedParticipants | tubric_kiosk/survey.py:192-245 | Loading the participant exports gives back the participants, given unique GUIDs and pipe-free lists. |
| Migration.MigratedVisits | tubric_kiosk/survey.py:271-285 | One migrated visit per legacy visit. |
| Migration.MigratedVisitAt | tubric_kiosk/survey.py:271-285 | Legacy visit k becomes visit number k+1. |
| Migration.MigrateVisits | tubric_kiosk/survey.py:271-285 | The `enumerate(..., start=1)` loop builds exactly those visits. |
| Migration.MigratedVisitsNumbered | tubric_kiosk/survey.py:271 | Migrated visits are numbered 1..n in legacy order. |
| Migration.MigratedVisitParts | tubric_kiosk/survey.py:272-274 | The visit time falls back to `now`. Date and time are split on `T`, and the time is `""` without a `T`. |
| Migration.MigratedPeople | tubric_kiosk/survey.py:266-300 | One person per legacy profile. |
| Migration.MigratedParticipants | tubric_kiosk/survey.py:266-316 | One participant per legacy profile. |
| Migration.MigratedAt | tubric_kiosk/survey.py:266-316 | Profile i becomes person i and participant i. |
| Migration.MigrationInput | tubric_kiosk/survey.py:252-261 | Migration runs exactly when neither CSV exists and the legacy file parses. |
| Migration.MaybeMigrate | tubric_kiosk/survey.py:247-319 | It migrates exactly then, and into exactly the migrated projections. |
| Migration.MigrateProfiles | tubric_kiosk/survey.py:263-316 | The profile loop builds those two projections. |
| Migration.MigratedRecords | tubric_kiosk/survey.py:266-316 | Person and participant share the legacy GUID, or the fresh one when it is empty. They also share the names, date of birth, normalized contacts and `created_at` (falling back to `now`). The secondary lists are empty and the visits are numbered. |
| Migration.MigratedGuidsAgree | tubric_kiosk/survey.py:267 | The two projections carry the same GUIDs, in the same order. |
| Migration.MigrationStoreOk | tubric_kiosk/survey.py:266-316 | With distinct GUIDs, the migrated projections satisfy the store invariant. |
| Migration.MigrationLoadsBack | tubric_kiosk/survey.py:318-319 | The files the migration writes load back as the migrated projections. |
| Migration.MigratedStorable | tubric_kiosk/survey.py:294-311 | The migrated records survive pipe-joining. |
| Migration.MigrationFilesRead | tubric_kiosk/survey.py:318-319 | The migration writes the people and participant files from the projections, and leaves the de-identified file alone. |
| Legacy.LoadData | Database/tubric_kiosk/survey.py:79-87 | A parsed file gives its profiles; a missing or unparsable file gives none. |
| Legacy.ProfileScore | Database/tubric_kiosk/survey.py:127-138 | The score lies between 0 and 4. It reaches 2 exactly when the names match, or when both primary email and primary phone match (each non-empty). |
| Legacy.ProfileEligible | Database/tubric_kiosk/survey.py:119-121 | Profile i is a candidate exactly when its birth date equals the one given. |
| Legacy.ProfileScores | Database/tubric_kiosk/survey.py:126-138 | Entry i is the score of profile i. |
| Legacy.ProfileMatch | Database/tubric_kiosk/survey.py:104-144 | The linked profile, when there is one, is an index into the list. |
| Legacy.FindProfile | Database/tubric_kiosk/survey.py:104-144 | The loop returns what the shared selection rule chooses. The profile it returns has the birth date given. |
| Legacy.OneContactNeverMerges | Database/tubric_kiosk/survey.py:129-144 | A birth date plus one matching email or phone never links. |
| Legacy.NameAloneMerges | Database/tubric_kiosk/survey.py:126-144 | A birth date plus a matching name always links. |
| Legacy.CurrentScoresAtLeastLegacy | Database/tubric_kiosk/survey.py:127-138 | For the same stored contacts, the current matcher's score is never below the legacy one, because it also looks at the secondary lists. |
| Legacy.MergedProfile | Database/tubric_kiosk/survey.py:863-869 | Identity, consent and `created_at` are kept. Email and phone are filled only when empty and never replaced. Exactly one visit is appended. |
| Legacy.NewProfile | Database/tubric_kiosk/survey.py:872-884 | The fresh GUID, the stripped names, the normalized contacts, the consent, and a visits list holding only this visit. |
| Legacy.KioskData.Load | Database/tubric_kiosk/survey.py:79-87 | The profiles held are those `load_data` gives. |
| Legacy.KioskData.SubmitSilently | Database/tubric_kiosk/survey.py:837-886 | The new profiles, GUID and action are those of the silent check-in function. |
| Legacy.MatchedFillsOnlyEmpty | Database/tubric_kiosk/survey.py:863-871 | With a match: the GUID is kept and the action is MatchedExisting. No other profile changes. Only empty contacts are filled and the visit is appended. |
| Legacy.UnmatchedAddsOne | Database/tubric_kiosk/survey.py:872-886 | Without a match, exactly one new profile is appended with the fresh GUID, and the action is CreatedNew. |
| Legacy.SubmitAddsOneVisit | Database/tubric_kiosk/survey.py:856-886 | Every silent check-in adds exactly one visit to the store. |
| Legacy.ReturningProfileMerges | Database/tubric_kiosk/survey.py:837-886 | The same answers given twice link the second visit to the profile created by the first. |
| Payloads.RecordIdMap | redcap_build/build_import_payloads.py:53-58 | Every key and every record id of the map is non-empty. |
| Payloads.LoadRecordIdMap | redcap_build/build_import_payloads.py:48-59 | A missing file gives the empty map. Otherwise the loop computes the map of the rows. |
| Payloads.RecordIdMapKeys | redcap_build/build_import_payloads.py:55-58 | A GUID is a key exactly when some row has that GUID and a non-empty record id. |
| Payloads.RecordIdMapLastWins | redcap_build/build_import_payloads.py:58 | The last such row for a GUID gives its record id. |
| Payloads.RecordIdOfLoaded | redcap_build/build_import_payloads.py:62-63 | A mapped GUID gets its non-empty record id; an unmapped GUID is its own record id. |
| Payloads.FirstPipeValue | redcap_build/build_import_payloads.py:66-69 | The result is a pipe-free prefix of the input: everything before the first pipe, or the whole string when there is none. |
| Payloads.FirstPipeValueOfList | redcap_build/build_import_payloads.py:66-69 | On a pipe-joined list it gives the list's first element, or `""` for the empty list. |
| Payloads.LastSeenKeys | redcap_build/build_import_payloads.py:75 | The last-seen map has a key for exactly the GUIDs of the people rows. |
| Payloads.LastSeenLastWins | redcap_build/build_import_payloads.py:75 | The last people row with a GUID gives its `last_seen_at`. |
| Payloads.ParticipantImportColumns | redcap_build/build_import_payloads.py:85-118 | Each participant import row has exactly the 13 listed fields. |
| Payloads.BuildParticipantImport | redcap_build/build_import_payloads.py:72-118 | The field list, and one import row per participant row, in order. |
| Payloads.ParticipantImportCopies | redcap_build/build_import_payloads.py:86-97 | GUID, names and date of birth are copied. `sub_id` is the record id for the GUID. |
| Payloads.ParticipantImportCopiesContact | redcap_build/build_import_payloads.py:91-99 | Primary contacts, consent and `created_at` are copied. |
| Payloads.ParticipantImportDefaults | redcap_build/build_import_payloads.py:80-99 | Newsletter email and phone fall back to the participant's own when their list is empty. `newsletter_pref` defaults to `participant_only`. `last_seen_at` comes from the people row with that GUID, or `""`. |
| Payloads.ParticipantImportOfExport | redcap_build/build_import_payloads.py:85-101 | On an exported participant, every copied field takes the participant's value. |
| Payloads.ParticipantRowHasNoPref | tubric_kiosk/survey.py:386-401 | The participants file has no `newsletter_pref` column, so the default always applies. |
| Payloads.ParticipantNewsletterOfExport | redcap_build/build_import_payloads.py:82-84 | On an exported participant, the newsletter email is the first newsletter email, or the primary email when there is none (the same for the phone), and the preference is `participant_only`. |
| Payloads.LastSeenOfExportedPeople | redcap_build/build_import_payloads.py:75 | With unique GUIDs, each person's `last_seen_at` reaches the import. |
| Payloads.VisitImportColumns | redcap_build/build_import_payloads.py:127-155 | Each visit import row has exactly the ten listed fields. |
| Payloads.BuildVisitImport | redcap_build/build_import_payloads.py:121-155 | The field list, and one visit row per input row, in order. |
| Payloads.VisitImportOfExport | redcap_build/build_import_payloads.py:125-139 | For exported visits, the repeat instance of visit k is k+1, equal to its visit number, under the constant instrument name `visits`. |
| Payloads.ContactInstance | redcap_build/build_import_payloads.py:166-167 | A contact row's repeat instance is at least 1. |
| Payloads.ContactImportColumns | redcap_build/build_import_payloads.py:169-192 | Each contact import row has exactly the eight listed fields. |
| Payloads.BuildContactUpdateImport | redcap_build/build_import_payloads.py:158-192 | Row i is the contact row with instance equal to the number of rows up to i that share its GUID. |
| Payloads.ContactImportStep | redcap_build/build_import_payloads.py:164-178 | One loop step: the counter is advanced for that GUID only, and the row is built with the new count. |
| Payloads.ContactInstancesIncrease | redcap_build/build_import_payloads.py:162-167 | A later row with the same GUID has a strictly larger instance. |
| Payloads.ContactInstancesDense | redcap_build/build_import_payloads.py:162-167 | The instances of a GUID run 1, 2, 3, ... with no gap, each taken by an earlier or equal row of that GUID. |
| Payloads.DeidentifiedImportColumns | redcap_build/build_import_payloads.py:201-227 | Each de-identified import row has exactly the nine listed fields. |
| Payloads.DeidentifiedImportFieldsAnonymous | redcap_build/build_import_payloads.py:215-227 | No de-identified import field is an identifying column. |
| Payloads.BuildDeidentifiedVisitImport | redcap_build/build_import_payloads.py:195-227 | The field list, and one row per de-identified visit, in order. |
| Payloads.DeidentifiedImportOfExport | redcap_build/build_import_payloads.py:199-213 | On an exported de-identified visit: the repeat instance is the visit number, the instrument is `deidentified_visits`, and the visit fields are copied. |
| Payloads.HeadersHaveNoSourceCode | redcap_build/build_import_payloads.py:103-227 | None of the four import headers has a `source_code` column. |
| Payloads.ImportsHaveNoSourceCode | redcap_build/build_import_payloads.py:72-227 | No import row the four builders produce has a `source_code` column, whatever the input. |
| Renderer.Take | electron_app/renderer.js:19 | `slice(0, n)`: the first min(n, length) characters. |
| Renderer.DigitGroups | electron_app/renderer.js:18-30 | The digits of the result are the first n digits typed. |
| Renderer.FormatDob | electron_app/renderer.js:18-23 | `formatDOB` keeps the first eight digits typed, in order. |
| Renderer.FormatPhone | electron_app/renderer.js:25-30 | `formatPhone` keeps the first ten digits typed, in order. |
| Renderer.FormatDobDashes | electron_app/renderer.js:18-23 | A dash comes after digit 2 exactly when there are at least 3 digits, and after digit 4 exactly when there are at least 5. Every other character is a digit, and the length follows. |
| Renderer.FormatPhoneDashes | electron_app/renderer.js:25-30 | A dash comes after digit 3 exactly when there are at least 4 digits, and after digit 6 exactly when there are at least 7. Every other character is a digit. |
| Renderer.FormatDobIdempotent | electron_app/renderer.js:124-126 | Re-formatting the field's own text on the next keystroke changes nothing. |
| Renderer.FormatPhoneIdempotent | electron_app/renderer.js:128-131 | The same for the phone field. |
| Renderer.FormattedDobShape | electron_app/renderer.js:18-23 | With eight digits typed, the field reads `dd-dd-dddd`. |
| Renderer.ValidDobIsPaddedDate | electron_app/renderer.js:38-50 | An accepted birth date is the two-digit `MM-DD-YYYY` text of a real date with a year from 1900 to 2100. |
| Renderer.PaddedDateIsValid | electron_app/renderer.js:38-50 | Conversely, every such text is accepted. |
| Renderer.JsNormalizeDob | electron_app/renderer.js:32-36 | A string that does not split into exactly three dash parts gives `""`. |
| Renderer.ValidDobNormalized | electron_app/renderer.js:32-50 | An accepted birth date is reordered to canonical ISO text. That is what the Python `normalize_dob` makes of the same entry. |
| Renderer.IsValidEmailMatches | electron_app/renderer.js:52-54 | An email is accepted exactly when it is a whitespace-free local part, `@`, and a domain with a dot that has text on both sides, with no other `@`. |
| Renderer.EmailPartsValid | electron_app/renderer.js:52-54 | Every such composition is accepted. |
| Renderer.NormalizePhoneDigits | electron_app/renderer.js:56-58 | The result is all digits. |
| Renderer.FormattedPhoneAccepted | electron_app/renderer.js:25-30 | The formatted phone passes the 10-digit check exactly when at least ten digits were typed. |
| Renderer.CheckInfoAccepts | electron_app/renderer.js:133-171 | Continue succeeds exactly when every check passes on the trimmed fields. It then hands on the trimmed fields with the birth date reordered. |
| Renderer.CheckInfoMessages | electron_app/renderer.js:143-162 | Each error message appears exactly when its check is the first in order to fail. |
| Renderer.AcceptedEntry | electron_app/renderer.js:163-168 | An accepted entry has both names, a real ISO birth date (the Python normaliser's result on the typed date), a valid email and a ten-digit phone. |
| Renderer.InfoScreen.constructor | electron_app/renderer.js:2-11 | The screen starts with empty fields and empty state. |
| Renderer.InfoScreen.OnDobInput | electron_app/renderer.js:124-126 | The birth-date field becomes its formatted text, and nothing else changes. |
| Renderer.InfoScreen.OnPhoneInput | electron_app/renderer.js:128-131 | The phone field becomes its formatted text, and nothing else changes. |
| Renderer.InfoScreen.OnContinue | electron_app/renderer.js:133-171 | On a failed check, only the error line changes, to that check's message. Otherwise the error is cleared, `state` gets the accepted entry, and the study screen shows. |
| Renderer.InfoScreen.Show | electron_app/renderer.js:163-170 | The outcome reaches the page: either the message, or the entry and the next screen. |
| TkForms.TkFormatDobAgrees | tubric_kiosk/survey.py:1227-1245 | On text in which every character `str.isdigit()` accepts is an ASCII digit, the Tk birth-date formatter gives exactly what the Electron one gives. |
| TkForms.TkFormatPhoneAgrees | tubric_kiosk/survey.py:1250-1268 | On such text, the Tk phone formatter gives exactly what the Electron one gives. |
| TkForms.TkFormatDobWideDigits | tubric_kiosk/survey.py:1228-1245 | Fullwidth digits typed into the Tk birth-date field are kept and dashed (`03-1`), where the Electron field, whose `\D` is ASCII, stays empty. |
| TkForms.TkFormatDobIdempotent | tubric_kiosk/survey.py:1227-1247 | Re-formatting on the next key release changes nothing. |
| TkForms.TkFormatPhoneIdempotent | tubric_kiosk/survey.py:1250-1270 | The same for the phone field. |
| TkForms.TkFormatDobDigits | tubric_kiosk/survey.py:1228-1233 | The field keeps the first eight characters `str.isdigit()` accepts, in order. |
| TkForms.TkFormatPhoneDigits | tubric_kiosk/survey.py:1251-1256 | The field keeps the first ten characters `str.isdigit()` accepts, in order. |

## Left out

- File I/O is not modelled: `read_csv`, `write_csv`, `os.path.exists`, `os.makedirs`, the JSON reads and `save_data`'s temp file and `os.replace`. A file is an explicit present, missing or unparsable input, and each CSV file is a sequence of rows.
- CSV quoting is not modelled: a row is a map from column to text. `csv.DictReader`'s `None` for short rows, and extra columns, are not modelled either.
- The clock and randomness (`now_iso`, `today_str`, `uuid.uuid4`) are parameters. One `now` stands for every `now_iso()` call within one check-in. The fresh GUID comes with a precondition that it is unused.
- Migration: the fresh GUIDs are a function of the profile's position, and the migration's `created_at` fallback and visit-time fallback share one `now`.
- Characters: the back end's digits and upper case are ASCII only. Python's `\D` and `str.lower()` accept more of Unicode than the model does. JavaScript's `\d` and `\D` are ASCII, as modelled.
- TkForms.IsPyDigit: `str.isdigit()` is modelled on the ASCII, superscript, Arabic-Indic, Extended Arabic-Indic, Devanagari and fullwidth digits. Python accepts the digits of the other Unicode scripts as well.
- TkForms.TkFormatDobAgrees, TkForms.TkFormatPhoneAgrees: agreement is stated only for text whose every `str.isdigit()` character is an ASCII digit. The Tk fields keep the other Unicode digits, which the Electron `\D` drops (`TkForms.TkFormatDobWideDigits`), so the two front ends can hand different text to the back end.
- `strptime` and `strftime` are modelled for `%m-%d-%Y` and `%Y-%m-%d` only. The JavaScript `Date` round-trip is modelled as the Gregorian days-in-month check.
- Legacy records: a legacy JSON file without `"profiles"` is treated as having no profiles. `None` values (consent, `entered_by`) are the empty text that `csv.DictWriter` writes.
- Pipe-joined lists: a list value holding a pipe does not survive the export. The round-trip lemmas assume no such value, and `FlatFile.SplitListSplitsPipes` shows the loss.
- The Tk user interface, the renderer's DOM code, and the finish handler and other event handlers of `electron_app/renderer.js` are left out, apart from the information screen's Continue and input handlers.
- Left out because they are plumbing: `auto_push_deidentified`, `_python_executable`, the Electron main and preload processes, the stdin JSON bridge, the REDCap network client and the CLI drivers.
- `build_import_payloads.py`'s `main` and its own `read_csv`/`write_csv` are left out; the builders take their input rows as parameters.
- `normalize_dob`'s own docstring (`tubric_kiosk/survey.py:88-93`) describes it as strict MM-DD-YYYY. The code uses `strptime`, which also accepts unpadded month and day and a day written as a blank and a digit. The model follows the code (`Normalize.NormalizeDobUnpadded`).
- `write_csv` writes files in place, with no temporary file and rename, as the code does. Only the legacy `save_data` renames.
- `source_code`: the module docstring of `redcap_build/build_import_payloads.py` (line 6) says every import row carries a `source_code` column, and `generate_data_dictionary.py` calls the field required. No builder writes it (`Payloads.ImportsHaveNoSourceCode`). The model follows the code. The source gives no value for the column, so no corrected builder is modelled. `generate_data_dictionary.py` is not part of this model.
- The Electron screen hands on the birth date already as `YYYY-MM-DD`, and `submit_checkin` stores the `"dob"` it receives without normalizing it. The link between the two is `Renderer.AcceptedEntry`.

## Findings

| source | as written | input that shows it | evidently intended | confidence | as-written member | corrected member |
|---|---|---|---|---|---|---|
| tubric_kiosk/survey.py:574-623 | In `submit_checkin`, the whole participant-side update sits under `if phone:`. That update appends the visit, updates contacts and newsletter values, and assigns `action = "matched_existing"`. | A check-in that links to an existing person and has `phone == ""`. The person is updated and the files are exported. The participant gets no visit, and `return guid, action, ...` at line 676 raises UnboundLocalError. | Only the phone merge depends on `phone`. The participant update and the action apply to every linked check-in. | medium (not executed; both front ends require a phone before they submit) | Kiosk.SubmittedAsWritten, Kiosk.MatchedWithoutPhoneRaises, Kiosk.Store.Submit | Kiosk.Submitted, Kiosk.MatchedAppendsVisit, Kiosk.ReturningParticipantRecordsVisit |

`Kiosk.Store` follows the code as written. The corrected check-in is the one the invariant and repeat-visit lemmas are first proved for (`Kiosk.SubmittedKeepsStoreOk`, `Kiosk.ReturningParticipantRecordsVisit`), and `Kiosk.AsWrittenAgreesWithPhone` carries them over to every check-in that comes with a phone.
