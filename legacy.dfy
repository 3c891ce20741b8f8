/**
 * The legacy single-file back end: every identity is one profile in a JSON
 * document, matched DOB-first on its primary email and phone only, and a
 * repeat check-in merely fills the profile's empty contact fields and
 * appends the visit.
 */
module Legacy {
  import opened Wrappers
  import opened Strings
  import opened Normalize
  import opened Records
  import opened Contacts
  import Matching
  import Kiosk

  /** One entry of a profile's `visits` list. */
  datatype LegacyVisit = LegacyVisit(
    visitDatetime: string,
    studyCode: string,
    consentContact: string,
    enteredBy: string)

  /** One entry of the document's `profiles` list (a missing key reads as `""`). */
  datatype Profile = Profile(
    guid: string,
    firstName: string,
    lastName: string,
    dob: string,
    email: string,
    phone: string,
    consentContact: string,
    createdAt: string,
    visits: seq<LegacyVisit>)

  /** The profiles file as the loader finds it. */
  datatype LegacyFile = Absent | Unparsable | Parsed(profiles: seq<Profile>)

  /** `load_data`: the stored profiles, or none at all when the file is missing or does not parse. */
  function LoadData(f: LegacyFile): (r: seq<Profile>)
    ensures f.Parsed? ==> r == f.profiles
    ensures !f.Parsed? ==> r == []
  {
    if f.Parsed? then f.profiles else []
  }

  /** The kiosk's answers as `submit_silently` reads them from its state. */
  datatype Answers = Answers(
    firstName: string,
    lastName: string,
    dob: string,
    email: string,
    phone: string,
    studyCode: string,
    consentContact: string,
    isGuardian: string)

  datatype Action = CreatedNew | MatchedExisting

  // ---------------------------------------------------------------------
  // Matching (`find_profile`)
  // ---------------------------------------------------------------------

  /** Both sides set and equal: the only way a stored contact confirms an identity here. */
  predicate PrimaryHit(incoming: string, stored: string) {
    incoming != "" && stored != "" && incoming == stored
  }

  /** The confirmation score: +2 for first and last name, +1 for the primary email, +1 for the primary phone. */
  function ProfileScore(p: Profile, first: string, last: string, email: string, phone: string): (r: int)
    ensures 0 <= r <= 4
    ensures r >= Matching.AcceptScore <==>
      NamesMatch(p.firstName, p.lastName, first, last)
      || (PrimaryHit(NormalizeEmail(email), NormalizeEmail(p.email)) && PrimaryHit(NormalizePhone(phone), NormalizePhone(p.phone)))
  {
    (if NamesMatch(p.firstName, p.lastName, first, last) then 2 else 0)
    + (if PrimaryHit(NormalizeEmail(email), NormalizeEmail(p.email)) then 1 else 0)
    + (if PrimaryHit(NormalizePhone(phone), NormalizePhone(p.phone)) then 1 else 0)
  }

  /** The candidates: profiles whose stored date of birth equals the given one. */
  function ProfileEligible(profiles: seq<Profile>, dob: string): (r: seq<bool>)
    ensures |r| == |profiles| && forall i :: 0 <= i < |profiles| ==> (r[i] <==> profiles[i].dob == dob)
  {
    seq(|profiles|, i requires 0 <= i < |profiles| => profiles[i].dob == dob)
  }

  function ProfileScores(profiles: seq<Profile>, first: string, last: string, email: string, phone: string): (r: seq<int>)
    ensures |r| == |profiles|
    ensures forall i :: 0 <= i < |profiles| ==> r[i] == ProfileScore(profiles[i], first, last, email, phone)
  {
    seq(|profiles|, i requires 0 <= i < |profiles| => ProfileScore(profiles[i], first, last, email, phone))
  }

  /** The profile a check-in links to. */
  function ProfileMatch(profiles: seq<Profile>, a: Answers): (r: Option<nat>)
    ensures r.Some? ==> r.value < |profiles|
  {
    Matching.Select(ProfileEligible(profiles, a.dob), ProfileScores(profiles, a.firstName, a.lastName, a.email, a.phone))
  }

  /**
   * `find_profile`: the candidate filter and the scoring loop, fused into one
   * pass over the profiles in order.
   */
  method FindProfile(profiles: seq<Profile>, dob: string, first: string, last: string, email: string, phone: string) returns (r: Option<nat>)
    ensures r == Matching.Select(ProfileEligible(profiles, dob), ProfileScores(profiles, first, last, email, phone))
    ensures r.Some? ==> r.value < |profiles| && profiles[r.value].dob == dob
  {
    var emailN := NormalizeEmail(email);
    var phoneN := NormalizePhone(phone);
    ghost var eligible := ProfileEligible(profiles, dob);
    ghost var scores := ProfileScores(profiles, first, last, email, phone);
    var best: Option<nat> := None;
    var bestScore := -1;
    for i := 0 to |profiles|
      invariant best == Matching.BestIn(eligible, scores, i)
      invariant bestScore == if best.Some? then scores[best.value] else -1
    {
      var p := profiles[i];
      Matching.BestInStep(eligible, scores, i);
      if p.dob == dob {
        var score := 0;
        if NamesMatch(p.firstName, p.lastName, first, last) {
          score := score + 2;
        }
        var pe := NormalizeEmail(p.email);
        if emailN != "" && pe != "" && emailN == pe {
          score := score + 1;
        }
        var pp := NormalizePhone(p.phone);
        if phoneN != "" && pp != "" && phoneN == pp {
          score := score + 1;
        }
        if score > bestScore {
          bestScore := score;
          best := Some(i);
        }
      }
    }
    r := if bestScore >= Matching.AcceptScore then best else None;
  }

  /** A date of birth and a single matching email or phone (score 1) never merge into a profile. */
  lemma OneContactNeverMerges(profiles: seq<Profile>, a: Answers)
    requires forall i :: 0 <= i < |profiles| && profiles[i].dob == a.dob ==>
      && !NamesMatch(profiles[i].firstName, profiles[i].lastName, a.firstName, a.lastName)
      && !(PrimaryHit(NormalizeEmail(a.email), NormalizeEmail(profiles[i].email))
           && PrimaryHit(NormalizePhone(a.phone), NormalizePhone(profiles[i].phone)))
    ensures ProfileMatch(profiles, a) == None
  {
    var eligible := ProfileEligible(profiles, a.dob);
    var scores := ProfileScores(profiles, a.firstName, a.lastName, a.email, a.phone);
    assert Matching.Chooses(eligible, scores, None);
    Matching.ChoiceUnique(eligible, scores, ProfileMatch(profiles, a), None);
  }

  /** A full name match on the date of birth (score 2) always merges, into some profile with that date of birth. */
  lemma NameAloneMerges(profiles: seq<Profile>, a: Answers, i: nat)
    requires i < |profiles| && profiles[i].dob == a.dob
    requires NamesMatch(profiles[i].firstName, profiles[i].lastName, a.firstName, a.lastName)
    ensures ProfileMatch(profiles, a).Some?
    ensures profiles[ProfileMatch(profiles, a).value].dob == a.dob
  {
    Matching.HighScoreMatches(ProfileEligible(profiles, a.dob), ProfileScores(profiles, a.firstName, a.lastName, a.email, a.phone), i);
  }

  /**
   * The two matchers compared: on an identity holding the same names and
   * primary contacts, the current back end scores at least as high as the
   * legacy one, since it also looks at the secondary lists.
   */
  lemma CurrentScoresAtLeastLegacy(q: Profile, p: Records.Person, s: Kiosk.CheckIn)
    requires p.firstName == q.firstName && p.lastName == q.lastName
    requires p.primaryEmail == q.email && p.primaryPhone == q.phone
    ensures ProfileScore(q, s.firstName, s.lastName, s.email, s.phone) <= Kiosk.Score(p, s)
  {
    var e := NormalizeEmail(s.email);
    var ph := NormalizePhone(s.phone);
    if PrimaryHit(e, NormalizeEmail(q.email)) {
      assert Kiosk.ContactMatch(SecondaryEmail, p.primaryEmail, p.history.secondaryEmails, e);
    }
    if PrimaryHit(ph, NormalizePhone(q.phone)) {
      assert Kiosk.ContactMatch(SecondaryPhone, p.primaryPhone, p.history.secondaryPhones, ph);
    }
  }

  // ---------------------------------------------------------------------
  // Saving a check-in (`submit_silently`)
  // ---------------------------------------------------------------------

  /** The `visit` record of a check-in at `now`. */
  function SilentVisit(a: Answers, now: string): LegacyVisit {
    LegacyVisit(now, a.studyCode, a.consentContact, a.isGuardian)
  }

  /** The matched profile after the check-in: empty contact fields filled, the visit appended. */
  function MergedProfile(p: Profile, a: Answers, now: string): (r: Profile)
    ensures r.guid == p.guid && r.firstName == p.firstName && r.lastName == p.lastName && r.dob == p.dob
    ensures r.consentContact == p.consentContact && r.createdAt == p.createdAt
    ensures p.email != "" ==> r.email == p.email
    ensures p.phone != "" ==> r.phone == p.phone
    ensures p.email == "" && a.email != "" ==> r.email == NormalizeEmail(a.email)
    ensures p.phone == "" && a.phone != "" ==> r.phone == NormalizePhone(a.phone)
    ensures a.email == "" ==> r.email == p.email
    ensures a.phone == "" ==> r.phone == p.phone
    ensures r.visits == p.visits + [SilentVisit(a, now)]
  {
    var email := if a.email != "" && p.email == "" then NormalizeEmail(a.email) else p.email;
    var phone := if a.phone != "" && p.phone == "" then NormalizePhone(a.phone) else p.phone;
    p.(email := email, phone := phone, visits := p.visits + [SilentVisit(a, now)])
  }

  /** The profile created for a check-in that matched nobody. */
  function NewProfile(guid: string, a: Answers, now: string): (r: Profile)
    ensures r.guid == guid && r.dob == a.dob
    ensures r.firstName == Trim(Python, a.firstName) && r.lastName == Trim(Python, a.lastName)
    ensures r.email == NormalizeEmail(a.email) && r.phone == NormalizePhone(a.phone)
    ensures r.consentContact == a.consentContact && r.createdAt == now
    ensures r.visits == [SilentVisit(a, now)]
  {
    Profile(guid, Trim(Python, a.firstName), Trim(Python, a.lastName), a.dob,
            NormalizeEmail(a.email), NormalizePhone(a.phone), a.consentContact, now, [SilentVisit(a, now)])
  }

  /** The profiles, GUID and action after one silent save. */
  datatype SilentOutcome = SilentOutcome(profiles: seq<Profile>, guid: string, action: Action)

  function SubmittedSilently(profiles: seq<Profile>, a: Answers, now: string, freshGuid: string): SilentOutcome {
    match ProfileMatch(profiles, a)
    case Some(i) => SilentOutcome(profiles[i := MergedProfile(profiles[i], a, now)], profiles[i].guid, MatchedExisting)
    case None => SilentOutcome(profiles + [NewProfile(freshGuid, a, now)], freshGuid, CreatedNew)
  }

  /** The legacy store: the `profiles` list of the JSON document. */
  class KioskData {
    var profiles: seq<Profile>

    /** `self.data = load_data()`. */
    constructor Load(f: LegacyFile)
      ensures profiles == LoadData(f)
    {
      profiles := LoadData(f);
    }

    /** `submit_silently`, without the save to disk and the console log. */
    method SubmitSilently(a: Answers, now: string, freshGuid: string) returns (guid: string, action: Action)
      modifies this
      ensures SilentOutcome(profiles, guid, action) == SubmittedSilently(old(profiles), a, now, freshGuid)
    {
      var existing := FindProfile(profiles, a.dob, a.firstName, a.lastName, a.email, a.phone);
      if existing.Some? {
        var i := existing.value;
        profiles := profiles[i := MergedProfile(profiles[i], a, now)];
        guid := profiles[i].guid;
        action := MatchedExisting;
      } else {
        guid := freshGuid;
        profiles := profiles + [NewProfile(freshGuid, a, now)];
        action := CreatedNew;
      }
    }
  }

  /** On a match, only that profile changes, it keeps its GUID, and no existing contact is replaced. */
  lemma MatchedFillsOnlyEmpty(profiles: seq<Profile>, a: Answers, now: string, freshGuid: string, i: nat)
    requires ProfileMatch(profiles, a) == Some(i)
    ensures var o := SubmittedSilently(profiles, a, now, freshGuid);
      && o.action == MatchedExisting && o.guid == profiles[i].guid
      && |o.profiles| == |profiles|
      && (forall k :: 0 <= k < |profiles| && k != i ==> o.profiles[k] == profiles[k])
      && o.profiles[i].dob == a.dob
      && o.profiles[i] == MergedProfile(profiles[i], a, now)
  {
  }

  /** Without a match, exactly one profile is appended, under the fresh GUID and holding only this visit. */
  lemma UnmatchedAddsOne(profiles: seq<Profile>, a: Answers, now: string, freshGuid: string)
    requires ProfileMatch(profiles, a).None?
    ensures var o := SubmittedSilently(profiles, a, now, freshGuid);
      && o.action == CreatedNew && o.guid == freshGuid
      && o.profiles == profiles + [NewProfile(freshGuid, a, now)]
  {
  }

  /** The number of visits held over all profiles. */
  function TotalVisits(profiles: seq<Profile>): nat
    decreases |profiles|
  {
    if profiles == [] then 0 else TotalVisits(profiles[..|profiles| - 1]) + |profiles[|profiles| - 1].visits|
  }

  lemma {:induction false} TotalVisitsAppend(profiles: seq<Profile>, p: Profile)
    ensures TotalVisits(profiles + [p]) == TotalVisits(profiles) + |p.visits|
  {
    assert (profiles + [p])[..|profiles|] == profiles;
  }

  lemma {:induction false} TotalVisitsUpdate(profiles: seq<Profile>, i: nat, p: Profile)
    requires i < |profiles|
    ensures TotalVisits(profiles[i := p]) == TotalVisits(profiles) - |profiles[i].visits| + |p.visits|
    decreases |profiles|
  {
    var n := |profiles|;
    var ps := profiles[i := p];
    if i == n - 1 {
      assert ps[..n - 1] == profiles[..n - 1];
    } else {
      assert ps[..n - 1] == profiles[..n - 1][i := p];
      TotalVisitsUpdate(profiles[..n - 1], i, p);
    }
  }

  /** Every silent save records exactly one visit, whichever path it takes. */
  lemma SubmitAddsOneVisit(profiles: seq<Profile>, a: Answers, now: string, freshGuid: string)
    ensures TotalVisits(SubmittedSilently(profiles, a, now, freshGuid).profiles) == TotalVisits(profiles) + 1
  {
    match ProfileMatch(profiles, a)
    case Some(i) =>
      TotalVisitsUpdate(profiles, i, MergedProfile(profiles[i], a, now));
    case None =>
      TotalVisitsAppend(profiles, NewProfile(freshGuid, a, now));
  }

  /**
   * Checking the same person in twice keeps one profile: the second
   * check-in merges into the profile the first one created.
   */
  lemma ReturningProfileMerges(profiles: seq<Profile>, a: Answers, now: string, now2: string, g: string, g2: string)
    requires ProfileMatch(profiles, a).None?
    ensures var o1 := SubmittedSilently(profiles, a, now, g);
      var o2 := SubmittedSilently(o1.profiles, a, now2, g2);
      && o2.action == MatchedExisting && o2.guid == g
      && |o2.profiles| == |profiles| + 1
      && o2.profiles[|profiles|].visits == [SilentVisit(a, now), SilentVisit(a, now2)]
  {
    var p := NewProfile(g, a, now);
    var ps := profiles + [p];
    var i := |profiles|;
    var eligible := ProfileEligible(ps, a.dob);
    var scores := ProfileScores(ps, a.firstName, a.lastName, a.email, a.phone);
    var before := ProfileScores(profiles, a.firstName, a.lastName, a.email, a.phone);
    NormalizeNameOfTrim(a.firstName);
    NormalizeNameOfTrim(a.lastName);
    assert scores[i] >= Matching.AcceptScore;
    forall j | 0 <= j < |ps| && j != i && eligible[j]
      ensures scores[j] < scores[i]
    {
      assert ps[j] == profiles[j];
      assert before[j] == scores[j];
      assert ProfileEligible(profiles, a.dob)[j];
    }
    Matching.UniqueBestChosen(eligible, scores, i);
  }
}
