/**
 * The Electron front end's information screen: the as-you-type formatting
 * of the birth-date and phone fields, the checks its Continue button runs
 * in order, and the `YYYY-MM-DD` birth date it hands on to the back end.
 */
module Renderer {
  import opened Strings
  import opened Dates
  import Normalize

  // ---------------------------------------------------------------------
  // As-you-type formatting
  // ---------------------------------------------------------------------

  /** `s.slice(0, n)`: the first `n` characters, or all of them when there are fewer. */
  function Take(s: string, n: nat): (r: string)
    ensures |r| == if |s| <= n then |s| else n
    ensures r == s[..|r|]
  {
    if |s| <= n then s else s[..n]
  }

  /** The digits with a dash after the first `a` of them and another after the first `b`, each only when more follow. */
  function Dashed(d: string, a: nat, b: nat): string
    requires 0 < a < b
  {
    if |d| > b then d[..a] + "-" + d[a..b] + "-" + d[b..]
    else if |d| > a then d[..a] + "-" + d[a..]
    else d
  }

  /** Where the dashes fall: after `a` digits and after `b` digits (one place further on), and nowhere else. */
  lemma DashedShape(d: string, a: nat, b: nat)
    requires 0 < a < b && AllDigits(d)
    ensures var r := Dashed(d, a, b);
      && |r| == |d| + (if |d| > b then 2 else if |d| > a then 1 else 0)
      && (forall i :: 0 <= i < |r| ==> (r[i] == '-' <==> (i == a && |d| > a) || (i == b + 1 && |d| > b)))
      && (forall i :: 0 <= i < |r| && r[i] != '-' ==> IsDigit(r[i]))
  {
    var r := Dashed(d, a, b);
    forall i | 0 <= i < |r|
      ensures (r[i] == '-' <==> (i == a && |d| > a) || (i == b + 1 && |d| > b))
      ensures r[i] != '-' ==> IsDigit(r[i])
    {
      if |d| > b {
        if i < a {
          assert r[i] == d[i];
        } else if a < i <= b {
          assert r[i] == d[i - 1];
        } else if i > b + 1 {
          assert r[i] == d[i - 2];
        }
      } else if |d| > a {
        if i < a {
          assert r[i] == d[i];
        } else if i > a {
          assert r[i] == d[i - 1];
        }
      }
    }
  }

  /** A dash drops out when only the digits are kept. */
  lemma KeepDigitsAroundDash(x: string, y: string)
    ensures KeepDigits(x + "-" + y) == KeepDigits(x) + KeepDigits(y)
  {
    KeepDigitsConcat(x + "-", y);
    KeepDigitsConcat(x, "-");
    assert KeepDigits("-") == "";
  }

  /** Dashes are not digits: the digits of the dashed text are the digits that went in. */
  lemma DashedDigits(d: string, a: nat, b: nat)
    requires 0 < a < b && AllDigits(d)
    ensures KeepDigits(Dashed(d, a, b)) == d
  {
    if |d| > b {
      TwoDashesDigits(d, a, b);
    } else if |d| > a {
      OneDashDigits(d, a);
    } else {
      KeepDigitsOfDigits(d);
    }
  }

  lemma OneDashDigits(d: string, a: nat)
    requires 0 < a < |d| && AllDigits(d)
    ensures KeepDigits(d[..a] + "-" + d[a..]) == d
  {
    var x, y := d[..a], d[a..];
    assert AllDigits(x) && AllDigits(y);
    assert x + y == d;
    DigitsAroundDash(x, y);
  }

  lemma DigitsAroundDash(x: string, y: string)
    requires AllDigits(x) && AllDigits(y)
    ensures KeepDigits(x + "-" + y) == x + y
  {
    KeepDigitsOfDigits(x);
    KeepDigitsOfDigits(y);
    KeepDigitsAroundDash(x, y);
  }

  lemma TwoDashesDigits(d: string, a: nat, b: nat)
    requires 0 < a < b < |d| && AllDigits(d)
    ensures KeepDigits(d[..a] + "-" + d[a..b] + "-" + d[b..]) == d
  {
    OneDashDigits(d[..b], a);
    assert d[..b][..a] == d[..a] && d[..b][a..] == d[a..b];
    KeepDigitsOfDigits(d[b..]);
    KeepDigitsAroundDash(d[..a] + "-" + d[a..b], d[b..]);
    assert d[..b] + d[b..] == d;
  }

  /** The shared shape of both formatters: at most `n` of the digits typed, dashed after `a` and `b` of them. */
  function DigitGroups(value: string, n: nat, a: nat, b: nat): (r: string)
    requires 0 < a < b
    ensures KeepDigits(r) == Take(KeepDigits(value), n)
  {
    var digits := Take(KeepDigits(value), n);
    DashedDigits(digits, a, b);
    Dashed(digits, a, b)
  }

  /** Formatting an already formatted value changes nothing. */
  lemma DigitGroupsIdempotent(value: string, n: nat, a: nat, b: nat)
    requires 0 < a < b
    ensures DigitGroups(DigitGroups(value, n, a, b), n, a, b) == DigitGroups(value, n, a, b)
  {
    var digits := Take(KeepDigits(value), n);
    assert Take(digits, n) == digits;
  }

  /** `formatDOB`: at most eight digits, as `MM-DD-YYYY` as far as they go. */
  function FormatDob(value: string): (r: string)
    ensures KeepDigits(r) == Take(KeepDigits(value), 8)
  {
    DigitGroups(value, 8, 2, 4)
  }

  /** `formatPhone`: at most ten digits, as `XXX-XXX-XXXX` as far as they go. */
  function FormatPhone(value: string): (r: string)
    ensures KeepDigits(r) == Take(KeepDigits(value), 10)
  {
    DigitGroups(value, 10, 3, 6)
  }

  /** The birth date gets a dash after the month once a third digit is typed, and after the day once a fifth is. */
  lemma FormatDobDashes(value: string)
    ensures var r, n := FormatDob(value), |Take(KeepDigits(value), 8)|;
      && |r| == n + (if n >= 5 then 2 else if n >= 3 then 1 else 0)
      && (forall i :: 0 <= i < |r| ==> (r[i] == '-' <==> (i == 2 && n >= 3) || (i == 5 && n >= 5)))
      && (forall i :: 0 <= i < |r| && r[i] != '-' ==> IsDigit(r[i]))
  {
    DashedShape(Take(KeepDigits(value), 8), 2, 4);
  }

  /** The phone number gets a dash after the area code once a fourth digit is typed, and after the exchange once a seventh is. */
  lemma FormatPhoneDashes(value: string)
    ensures var r, n := FormatPhone(value), |Take(KeepDigits(value), 10)|;
      && |r| == n + (if n >= 7 then 2 else if n >= 4 then 1 else 0)
      && (forall i :: 0 <= i < |r| ==> (r[i] == '-' <==> (i == 3 && n >= 4) || (i == 7 && n >= 7)))
      && (forall i :: 0 <= i < |r| && r[i] != '-' ==> IsDigit(r[i]))
  {
    DashedShape(Take(KeepDigits(value), 10), 3, 6);
  }

  /** The input handler re-applies `formatDOB` on every keystroke: a formatted value is left as it is. */
  lemma FormatDobIdempotent(value: string)
    ensures FormatDob(FormatDob(value)) == FormatDob(value)
  {
    DigitGroupsIdempotent(value, 8, 2, 4);
  }

  lemma FormatPhoneIdempotent(value: string)
    ensures FormatPhone(FormatPhone(value)) == FormatPhone(value)
  {
    DigitGroupsIdempotent(value, 10, 3, 6);
  }

  // ---------------------------------------------------------------------
  // Birth dates
  // ---------------------------------------------------------------------

  /** `/^\d{2}-\d{2}-\d{4}$/`. */
  predicate IsDobShape(s: string) {
    |s| == 10 && s[2] == '-' && s[5] == '-' && AllDigits(s[..2]) && AllDigits(s[3..5]) && AllDigits(s[6..])
  }

  /** Eight digits typed into the birth-date field always give the `MM-DD-YYYY` shape. */
  lemma FormattedDobShape(value: string)
    requires |KeepDigits(value)| >= 8
    ensures IsDobShape(FormatDob(value))
  {
    var r := FormatDob(value);
    FormatDobDashes(value);
    assert |r| == 10;
    assert r[2] == '-' && r[5] == '-';
    assert forall i :: 0 <= i < 10 && i != 2 && i != 5 ==> IsDigit(r[i]);
  }

  /**
   * `isValidDob`: the shape, then the month 1..12, the day 1..31, the year
   * 1900..2100, and a day the month has (where the source builds a `Date`
   * and checks that it did not roll over into the next month).
   */
  predicate IsValidDob(s: string) {
    IsDobShape(s) &&
    var mm := DigitsValue(s[..2]);
    var dd := DigitsValue(s[3..5]);
    var yyyy := DigitsValue(s[6..]);
    && 1 <= mm <= 12
    && 1 <= dd <= 31
    && 1900 <= yyyy <= 2100
    && dd <= DaysInMonth(yyyy, mm)
  }

  /** A valid birth date is exactly the zero-padded `MM-DD-YYYY` text of a real day of 1900..2100. */
  lemma ValidDobIsPaddedDate(s: string)
    requires IsValidDob(s)
    ensures var y, m, d := DigitsValue(s[6..]), DigitsValue(s[..2]), DigitsValue(s[3..5]);
      1900 <= y <= 2100 && IsRealDate(y, m, d) && s == FormatMdy(y, m, d)
  {
    var y, m, d := DigitsValue(s[6..]), DigitsValue(s[..2]), DigitsValue(s[3..5]);
    DigitsValueInjective(Pad2(m), s[..2]);
    DigitsValueInjective(Pad2(d), s[3..5]);
    DigitsValueInjective(Pad4(y), s[6..]);
    assert s == s[..2] + "-" + s[3..5] + "-" + s[6..];
  }

  lemma PaddedDateIsValid(y: int, m: int, d: int)
    requires 1900 <= y <= 2100 && IsRealDate(y, m, d)
    ensures IsValidDob(FormatMdy(y, m, d))
  {
    var s := FormatMdy(y, m, d);
    assert s[..2] == Pad2(m) && s[3..5] == Pad2(d) && s[6..] == Pad4(y);
  }

  /** `normalizeDob`: `MM-DD-YYYY` reordered to `YYYY-MM-DD`, or `""` unless there are exactly three dash parts. */
  function JsNormalizeDob(dob: string): (r: string)
    ensures |Split(dob, '-')| != 3 ==> r == ""
  {
    var parts := Split(dob, '-');
    if |parts| != 3 then "" else parts[2] + "-" + parts[0] + "-" + parts[1]
  }

  /**
   * On a valid birth date the renderer stores the ISO text of that day,
   * the same text the Python back end's `normalize_dob` gives for it.
   */
  lemma ValidDobNormalized(s: string)
    requires IsValidDob(s)
    ensures var y, m, d := DigitsValue(s[6..]), DigitsValue(s[..2]), DigitsValue(s[3..5]);
      IsRealDate(y, m, d) && JsNormalizeDob(s) == FormatIso(y, m, d)
    ensures IsIsoDate(JsNormalizeDob(s))
    ensures JsNormalizeDob(s) == Normalize.NormalizeDob(s)
  {
    var y, m, d := DigitsValue(s[6..]), DigitsValue(s[..2]), DigitsValue(s[3..5]);
    ValidDobIsPaddedDate(s);
    SplitThree(Pad2(m), Pad2(d), Pad4(y));
    FormatIsoReadsBack(y, m, d);
    Normalize.NormalizeDobPadded(y, m, d);
  }

  // ---------------------------------------------------------------------
  // Email and phone
  // ---------------------------------------------------------------------

  predicate NoJsSpace(s: string) {
    forall i :: 0 <= i < |s| ==> !IsJsSpace(s[i])
  }

  /**
   * `isValidEmail`, in words: no whitespace, one `@` with text before it,
   * and after it a domain holding a dot with text on both sides.
   */
  predicate IsValidEmail(email: string) {
    NoJsSpace(email) && '@' in email &&
    var k := IndexOf(email, '@');
    var domain := email[k + 1..];
    k > 0 && '@' !in domain && exists j :: 0 < j < |domain| - 1 && domain[j] == '.'
  }

  /** Text matching `[^\s@]+`. */
  predicate EmailAtom(s: string) {
    s != "" && NoJsSpace(s) && '@' !in s
  }

  /** `email` is `local@a.b` with each of the three parts matching `[^\s@]+`. */
  predicate EmailParts(email: string, local: string, a: string, b: string) {
    email == local + "@" + a + "." + b && EmailAtom(local) && EmailAtom(a) && EmailAtom(b)
  }

  /** The words agree with the pattern `^[^\s@]+@[^\s@]+\.[^\s@]+$`. */
  lemma IsValidEmailMatches(email: string)
    ensures IsValidEmail(email) <==> exists local, a, b :: EmailParts(email, local, a, b)
  {
    if IsValidEmail(email) {
      var k := IndexOf(email, '@');
      var domain := email[k + 1..];
      var j :| 0 < j < |domain| - 1 && domain[j] == '.';
      var local, a, b := email[..k], domain[..j], domain[j + 1..];
      assert email == local + "@" + a + "." + b;
      assert EmailParts(email, local, a, b);
    }
    if exists local, a, b :: EmailParts(email, local, a, b) {
      var local, a, b :| EmailParts(email, local, a, b);
      EmailPartsValid(email, local, a, b);
    }
  }

  lemma EmailPartsValid(email: string, local: string, a: string, b: string)
    requires EmailParts(email, local, a, b)
    ensures IsValidEmail(email)
  {
    var k := |local|;
    assert email[k] == '@' && email[..k] == local;
    assert IndexOf(email, '@') == k;
    var domain := email[k + 1..];
    assert domain == a + "." + b;
    assert domain[|a|] == '.';
    assert NoJsSpace(email) by {
      forall i | 0 <= i < |email|
        ensures !IsJsSpace(email[i])
      {
        if i < k {
          assert email[i] == local[i];
        } else if k < i < k + 1 + |a| {
          assert email[i] == a[i - k - 1];
        } else if i > k + 1 + |a| {
          assert email[i] == b[i - k - 2 - |a|];
        }
      }
    }
  }

  /** `normalizePhoneDigits`. */
  function NormalizePhoneDigits(phone: string): (r: string)
    ensures AllDigits(r)
  {
    KeepDigits(phone)
  }

  /** The ten-digit check passes on the formatted phone field exactly when ten digits or more were typed. */
  lemma FormattedPhoneAccepted(value: string)
    ensures |NormalizePhoneDigits(FormatPhone(value))| == 10 <==> |KeepDigits(value)| >= 10
  {
  }

  // ---------------------------------------------------------------------
  // The information screen
  // ---------------------------------------------------------------------

  const NameMessage := "Please enter the participant's first and last name."
  const DobMessage := "Please enter date of birth as MM-DD-YYYY."
  const EmailMessage := "Please enter a valid email address."
  const PhoneMessage := "Please enter a phone number."
  const PhoneDigitsMessage := "Please enter a valid 10-digit phone number."

  /** The five text fields of the screen, and the same five entries of the module's `state`. */
  datatype Entry = Entry(first: string, last: string, dob: string, email: string, phone: string)

  datatype InfoResult = Rejected(message: string) | Accepted(entry: Entry)

  /** Each field as the handler reads it: `.value.trim()`. */
  function Trimmed(fields: Entry): Entry {
    Entry(Trim(JavaScript, fields.first), Trim(JavaScript, fields.last), Trim(JavaScript, fields.dob),
          Trim(JavaScript, fields.email), Trim(JavaScript, fields.phone))
  }

  /** Every check of the Continue button passes on the trimmed entries. */
  predicate ChecksPass(t: Entry) {
    t.first != "" && t.last != "" && IsValidDob(t.dob) && t.email != "" && IsValidEmail(t.email)
    && t.phone != "" && |NormalizePhoneDigits(t.phone)| == 10
  }

  /** The checks of the Continue button in order; the first that fails gives the message. */
  function CheckInfo(fields: Entry): InfoResult {
    var t := Trimmed(fields);
    if t.first == "" || t.last == "" then Rejected(NameMessage)
    else if !IsValidDob(t.dob) then Rejected(DobMessage)
    else if t.email == "" || !IsValidEmail(t.email) then Rejected(EmailMessage)
    else if t.phone == "" then Rejected(PhoneMessage)
    else if |NormalizePhoneDigits(t.phone)| != 10 then Rejected(PhoneDigitsMessage)
    else Accepted(Entry(t.first, t.last, JsNormalizeDob(t.dob), t.email, t.phone))
  }

  /** The screen accepts exactly when every check passes, and then hands on the trimmed entries with the birth date reordered. */
  lemma CheckInfoAccepts(fields: Entry)
    ensures var r := CheckInfo(fields);
      && (r.Accepted? <==> ChecksPass(Trimmed(fields)))
      && (r.Accepted? ==> var t := Trimmed(fields);
            r.entry == Entry(t.first, t.last, JsNormalizeDob(t.dob), t.email, t.phone))
  {
  }

  /** Which message appears: the one of the earliest check that fails. */
  lemma CheckInfoMessages(fields: Entry)
    ensures var t, r := Trimmed(fields), CheckInfo(fields);
      && (r == Rejected(NameMessage) <==> t.first == "" || t.last == "")
      && (r == Rejected(DobMessage) <==> t.first != "" && t.last != "" && !IsValidDob(t.dob))
      && (r == Rejected(EmailMessage) <==> t.first != "" && t.last != "" && IsValidDob(t.dob) && !IsValidEmail(t.email))
      && (r == Rejected(PhoneMessage) <==>
            t.first != "" && t.last != "" && IsValidDob(t.dob) && IsValidEmail(t.email) && t.phone == "")
      && (r == Rejected(PhoneDigitsMessage) <==>
            t.first != "" && t.last != "" && IsValidDob(t.dob) && IsValidEmail(t.email) && t.phone != ""
            && |NormalizePhoneDigits(t.phone)| != 10)
  {
  }

  /** What an accepted screen hands on: names, an ISO birth date, an email and a ten-digit phone. */
  lemma AcceptedEntry(fields: Entry)
    requires CheckInfo(fields).Accepted?
    ensures var e := CheckInfo(fields).entry;
      e.first != "" && e.last != "" && IsIsoDate(e.dob) && e.dob == Normalize.NormalizeDob(Trimmed(fields).dob)
      && IsValidEmail(e.email) && |NormalizePhoneDigits(e.phone)| == 10
  {
    CheckInfoAccepts(fields);
    ValidDobNormalized(Trimmed(fields).dob);
  }

  /** The information screen: its text fields, its error line, and the `state` entries it writes. */
  class InfoScreen {
    var fields: Entry
    var error: string
    var state: Entry
    var screen: string

    constructor ()
      ensures fields == Entry("", "", "", "", "") && state == Entry("", "", "", "", "")
      ensures error == "" && screen == "screen-info"
    {
      fields := Entry("", "", "", "", "");
      state := Entry("", "", "", "", "");
      error := "";
      screen := "screen-info";
    }

    /** The birth-date field's `input` handler. */
    method OnDobInput(typed: string)
      modifies this
      ensures fields == old(fields).(dob := FormatDob(typed))
      ensures error == old(error) && state == old(state) && screen == old(screen)
    {
      fields := fields.(dob := FormatDob(typed));
    }

    /** The phone field's `input` handler. */
    method OnPhoneInput(typed: string)
      modifies this
      ensures fields == old(fields).(phone := FormatPhone(typed))
      ensures error == old(error) && state == old(state) && screen == old(screen)
    {
      fields := fields.(phone := FormatPhone(typed));
    }

    /** The Continue button: on a failed check only the error line changes; otherwise `state` is written and the study screen shown. */
    method OnContinue()
      modifies this
      ensures fields == old(fields)
      ensures match CheckInfo(old(fields))
        case Rejected(message) => error == message && state == old(state) && screen == old(screen)
        case Accepted(entry) => error == "" && state == entry && screen == "screen-study"
    {
      Show(CheckInfo(fields));
    }

    /** The outcome of the checks on the page: the error line, or the entries saved and the next screen. */
    method Show(result: InfoResult)
      modifies this
      ensures fields == old(fields)
      ensures match result
        case Rejected(message) => error == message && state == old(state) && screen == old(screen)
        case Accepted(entry) => error == "" && state == entry && screen == "screen-study"
    {
      match result
      case Rejected(message) =>
        error := message;
      case Accepted(entry) =>
        error := "";
        state := entry;
        screen := "screen-study";
    }
  }
}
