/**
 * The canonical forms the check-in back ends match on: email, phone, name and
 * date of birth.  Both the current back end and the legacy one define these
 * helpers with identical bodies.
 */
module Normalize {
  import opened Wrappers
  import opened Strings
  import opened Dates

  /** `normalize_email`: trimmed and lower-cased; `""` means "no email". */
  function NormalizeEmail(s: string): (r: string)
    ensures NoUpper(r)
    ensures Trim(Python, s) == [] <==> r == []
  {
    LowerNoUpper(Trim(Python, s));
    Lower(Trim(Python, s))
  }

  /** A normalized email has no whitespace at either end. */
  lemma NormalizeEmailUnpadded(s: string)
    ensures var r := NormalizeEmail(s);
      r == [] || (!IsPySpace(r[0]) && !IsPySpace(r[|r| - 1]))
  {
  }

  lemma NormalizeEmailIdempotent(s: string)
    ensures NormalizeEmail(NormalizeEmail(s)) == NormalizeEmail(s)
  {
    var e := NormalizeEmail(s);
    NormalizeEmailUnpadded(s);
    TrimUnpadded(Python, e);
    LowerOfNoUpper(e);
  }

  /** An email is normalized exactly when normalizing leaves it alone. */
  predicate IsNormalEmail(e: string) {
    NormalizeEmail(e) == e
  }

  /** `normalize_phone`: the digits of `s` when there are exactly ten of them, else `""`. */
  function NormalizePhone(s: string): (r: string)
    ensures r == [] || (|r| == 10 && AllDigits(r))
    ensures |KeepDigits(s)| == 10 ==> r == KeepDigits(s)
    ensures |KeepDigits(s)| != 10 ==> r == []
  {
    var digits := KeepDigits(s);
    if |digits| == 10 then digits else ""
  }

  lemma NormalizePhoneIdempotent(s: string)
    ensures NormalizePhone(NormalizePhone(s)) == NormalizePhone(s)
  {
    KeepDigitsOfDigits(NormalizePhone(s));
  }

  /** Formatting characters are ignored: the punctuated and the bare form of a number agree. */
  lemma NormalizePhoneIgnoresDashes(a: string, b: string, c: string)
    requires |a| == 3 && |b| == 3 && |c| == 4 && AllDigits(a) && AllDigits(b) && AllDigits(c)
    ensures NormalizePhone(a + "-" + b + "-" + c) == a + b + c
  {
    assert a + "-" + b + "-" + c == a + ("-" + (b + ("-" + c)));
    KeepDigitsConcat(a, "-" + (b + ("-" + c)));
    KeepDigitsConcat("-", b + ("-" + c));
    KeepDigitsConcat(b, "-" + c);
    KeepDigitsConcat("-", c);
    assert KeepDigits("-") == "";
    KeepDigitsOfDigits(a);
    KeepDigitsOfDigits(b);
    KeepDigitsOfDigits(c);
  }

  predicate IsNormalPhone(p: string) {
    NormalizePhone(p) == p
  }

  /** The shape of a normalized name: lower case, single blanks between words, no blanks at the ends. */
  predicate IsNormalName(x: string) {
    && NoUpper(x)
    && BlanksOnly(Python, x)
    && NoSpaceRun(Python, x)
    && (x == [] || (!IsPySpace(x[0]) && !IsPySpace(x[|x| - 1])))
  }

  /** `normalize_name`: trimmed, lower-cased, runs of whitespace collapsed to one blank. */
  function NormalizeName(s: string): (r: string)
    ensures IsNormalName(r)
  {
    var t := Trim(Python, s);
    var l := Lower(t);
    LowerNoUpper(t);
    CollapseSpaceShape(Python, l);
    CollapseKeepsEnds(l);
    CollapseSpace(Python, l)
  }

  lemma CollapseKeepsEnds(l: string)
    requires l == [] || (!IsPySpace(l[0]) && !IsPySpace(l[|l| - 1]))
    ensures var r := CollapseSpace(Python, l); r == [] || (!IsPySpace(r[0]) && !IsPySpace(r[|r| - 1]))
  {
    if l != [] {
      CollapseSpaceLast(Python, l);
    }
  }

  /** Only the shape matters: a name already in normal form is its own normalization. */
  lemma NormalizeNameFixed(x: string)
    requires IsNormalName(x)
    ensures NormalizeName(x) == x
  {
    TrimUnpadded(Python, x);
    LowerOfNoUpper(x);
    CollapseSpaceFixed(Python, x);
  }

  lemma NormalizeNameIdempotent(s: string)
    ensures NormalizeName(NormalizeName(s)) == NormalizeName(s)
  {
    NormalizeNameFixed(NormalizeName(s));
  }

  /** Raw names compare as their stripped form does. */
  lemma NormalizeNameOfTrim(x: string)
    ensures NormalizeName(Trim(Python, x)) == NormalizeName(x)
  {
    TrimUnpadded(Python, Trim(Python, x));
  }

  /** `names_match`: first and last names agree once normalized. */
  predicate NamesMatch(storedFirst: string, storedLast: string, first: string, last: string) {
    NormalizeName(storedFirst) == NormalizeName(first) && NormalizeName(storedLast) == NormalizeName(last)
  }

  /** A stored name matches the raw entry it was derived from, and the relation is symmetric. */
  lemma NamesMatchProperties(first: string, last: string, f2: string, l2: string)
    ensures NamesMatch(NormalizeName(first), NormalizeName(last), first, last)
    ensures NamesMatch(first, last, f2, l2) <==> NamesMatch(f2, l2, first, last)
  {
    NormalizeNameIdempotent(first);
    NormalizeNameIdempotent(last);
  }

  /** `normalize_dob`: `MM-DD-YYYY` (after trimming) to `YYYY-MM-DD`; `""` for blank or unparsable input. */
  function NormalizeDob(s: string): (r: string)
    ensures r == [] || IsIsoDate(r)
    ensures Trim(Python, s) == [] ==> r == []
  {
    var raw := Trim(Python, s);
    if raw == [] then ""
    else
      match ParseMdy(raw)
      case Some((y, m, d)) =>
        FormatIsoReadsBack(y, m, d);
        FormatIso(y, m, d)
      case None => ""
  }

  /** The entry the kiosk asks for is accepted and reordered. */
  lemma NormalizeDobPadded(y: int, m: int, d: int)
    requires IsRealDate(y, m, d)
    ensures NormalizeDob(FormatMdy(y, m, d)) == FormatIso(y, m, d)
  {
    var s := FormatMdy(y, m, d);
    assert s[0] == Pad2(m)[0] && s[|s| - 1] == Pad4(y)[3];
    TrimUnpadded(Python, s);
    ParseMdyPadded(y, m, d);
  }

  /** A month and day without leading zeros are accepted too. */
  lemma NormalizeDobUnpadded(y: int, m: int, d: int)
    requires IsRealDate(y, m, d)
    ensures NormalizeDob(NatToString(m) + "-" + NatToString(d) + "-" + Pad4(y)) == FormatIso(y, m, d)
  {
    var s := NatToString(m) + "-" + NatToString(d) + "-" + Pad4(y);
    assert s[0] == NatToString(m)[0] && s[|s| - 1] == Pad4(y)[3];
    TrimUnpadded(Python, s);
    ParseMdyUnpadded(y, m, d);
  }

  /** The digit strings of the worked example below. */
  lemma ExampleFields()
    ensures Pad2(3) == "03" && Pad2(14) == "14" && Pad4(2007) == "2007"
    ensures NatToString(3) == "3" && NatToString(14) == "14"
  {
    assert Pad2(20) == "20" && Pad2(7) == "07";
    assert NatToString(1) == "1";
  }

  /** The worked example: `03-14-2007` becomes `2007-03-14`. */
  lemma NormalizeDobExample()
    ensures NormalizeDob("03-14-2007") == "2007-03-14"
  {
    ExampleFields();
    assert FormatIso(2007, 3, 14) == "2007-03-14";
    assert FormatMdy(2007, 3, 14) == "03-14-2007";
    NormalizeDobPadded(2007, 3, 14);
  }

  /** The same date without its leading zero, `3-14-2007`, becomes `2007-03-14` as well. */
  lemma NormalizeDobUnpaddedExample()
    ensures NormalizeDob("3-14-2007") == "2007-03-14"
  {
    ExampleFields();
    assert FormatIso(2007, 3, 14) == "2007-03-14";
    assert NatToString(3) + "-" + NatToString(14) + "-" + Pad4(2007) == "3-14-2007";
    NormalizeDobUnpadded(2007, 3, 14);
  }

  /** A date that does not exist is refused. */
  lemma NormalizeDobRefusesMissingDay(y: int, m: int, d: int)
    requires 1 <= y <= 9999 && 1 <= m <= 12 && DaysInMonth(y, m) < d <= 31
    ensures NormalizeDob(Pad2(m) + "-" + Pad2(d) + "-" + Pad4(y)) == ""
  {
    var s := Pad2(m) + "-" + Pad2(d) + "-" + Pad4(y);
    assert s[0] == Pad2(m)[0] && s[|s| - 1] == Pad4(y)[3];
    TrimUnpadded(Python, s);
    ParseMdyRefusesMissingDay(y, m, d);
  }
}
