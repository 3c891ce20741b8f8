/**
 * The Tk kiosk's key-release formatters for the birth-date and phone
 * fields. They strip the dashes already typed, keep the characters Python's
 * `str.isdigit()` accepts, cut to a maximum length and put the dashes back.
 * They are written here in their own shape. On text whose digits are all
 * ASCII they agree with the Electron screen's formatters; the Electron `\D`
 * drops the other Unicode digits, which the Tk fields keep.
 */
module TkForms {
  import opened Strings
  import Renderer

  // ---------------------------------------------------------------------
  // Python's `str.isdigit()`
  // ---------------------------------------------------------------------

  /**
   * `str.isdigit()` on one character: the ASCII digits, the superscript
   * digits, and the Arabic-Indic, Extended Arabic-Indic, Devanagari and
   * fullwidth decimal digits.
   */
  predicate IsPyDigit(c: char) {
    || IsDigit(c)
    || c == '\U{00B9}' || c == '\U{00B2}' || c == '\U{00B3}' || c == '\U{2070}'
    || '\U{2074}' <= c <= '\U{2079}'
    || '\U{0660}' <= c <= '\U{0669}'
    || '\U{06F0}' <= c <= '\U{06F9}'
    || '\U{0966}' <= c <= '\U{096F}'
    || '\U{FF10}' <= c <= '\U{FF19}'
  }

  predicate AllPyDigits(s: string) {
    forall i :: 0 <= i < |s| ==> IsPyDigit(s[i])
  }

  /** Every character Python takes for a digit is an ASCII digit. */
  predicate AsciiDigitsOnly(s: string) {
    forall i :: 0 <= i < |s| && IsPyDigit(s[i]) ==> IsDigit(s[i])
  }

  /** `''.join(c for c in s if c.isdigit())`. */
  function KeepPyDigits(s: string): (r: string)
    ensures AllPyDigits(r) && |r| <= |s|
  {
    if s == [] then [] else (if IsPyDigit(s[0]) then [s[0]] else []) + KeepPyDigits(s[1..])
  }

  lemma {:induction false} KeepPyDigitsConcat(a: string, b: string)
    ensures KeepPyDigits(a + b) == KeepPyDigits(a) + KeepPyDigits(b)
  {
    if a == [] {
      assert a + b == b;
    } else {
      assert (a + b)[1..] == a[1..] + b;
      KeepPyDigitsConcat(a[1..], b);
    }
  }

  lemma {:induction false} KeepPyDigitsOfPyDigits(s: string)
    requires AllPyDigits(s)
    ensures KeepPyDigits(s) == s
  {
    if s != [] {
      KeepPyDigitsOfPyDigits(s[1..]);
    }
  }

  /** Where every digit is ASCII, Python's digits are JavaScript's. */
  lemma {:induction false} KeepPyDigitsOfAscii(s: string)
    requires AsciiDigitsOnly(s)
    ensures KeepPyDigits(s) == KeepDigits(s)
  {
    if s != [] {
      assert AsciiDigitsOnly(s[1..]) by {
        forall i | 0 <= i < |s[1..]| && IsPyDigit(s[1..][i])
          ensures IsDigit(s[1..][i])
        {
          assert s[1..][i] == s[i + 1];
        }
      }
      KeepPyDigitsOfAscii(s[1..]);
    }
  }

  /** Dropping a character that is not a digit first does not change the digits that remain. */
  lemma {:induction false} KeepPyDigitsRemoveChar(s: string, c: char)
    requires !IsPyDigit(c)
    ensures KeepPyDigits(RemoveChar(s, c)) == KeepPyDigits(s)
  {
    if s != [] {
      KeepPyDigitsRemoveChar(s[1..], c);
      var head := if s[0] == c then [] else [s[0]];
      KeepPyDigitsConcat(head, RemoveChar(s[1..], c));
    }
  }

  // ---------------------------------------------------------------------
  // The two formatters
  // ---------------------------------------------------------------------

  /** The digits a formatter keeps: dashes removed, digits kept, at most `n`. */
  function Content(text: string, n: nat): (r: string)
    ensures AllPyDigits(r) && '-' !in r
  {
    Renderer.Take(KeepPyDigits(RemoveChar(text, '-')), n)
  }

  /** `format_dob`: at most eight digits, `MM-DD-YYYY` built up as it is typed. */
  function TkFormatDob(text: string): string {
    var content := Content(text, 8);
    if |content| >= 5 then content[..2] + "-" + content[2..4] + "-" + content[4..]
    else if |content| >= 3 then content[..2] + "-" + content[2..]
    else content
  }

  /** `format_phone`: at most ten digits, `XXX-XXX-XXXX` built up as it is typed. */
  function TkFormatPhone(text: string): string {
    var content := Content(text, 10);
    if |content| >= 7 then content[..3] + "-" + content[3..6] + "-" + content[6..]
    else if |content| >= 4 then content[..3] + "-" + content[3..]
    else content
  }

  /** Removing the dashes from the birth-date field gives back the digits it was built from. */
  lemma TkFormatDobContent(text: string)
    ensures RemoveChar(TkFormatDob(text), '-') == Content(text, 8)
  {
    var d := Content(text, 8);
    if |d| >= 5 {
      RemoveDashBefore(d[..2], d[2..4]);
      RemoveDashBefore(d[..2] + "-" + d[2..4], d[4..]);
      RemoveCharAbsent(d[..2], '-');
      assert d[..2] + d[2..4] + d[4..] == d;
    } else if |d| >= 3 {
      RemoveDashBefore(d[..2], d[2..]);
      RemoveCharAbsent(d[..2], '-');
      assert d[..2] + d[2..] == d;
    } else {
      RemoveCharAbsent(d, '-');
    }
  }

  /** The same for the phone field. */
  lemma TkFormatPhoneContent(text: string)
    ensures RemoveChar(TkFormatPhone(text), '-') == Content(text, 10)
  {
    var d := Content(text, 10);
    if |d| >= 7 {
      RemoveDashBefore(d[..3], d[3..6]);
      RemoveDashBefore(d[..3] + "-" + d[3..6], d[6..]);
      RemoveCharAbsent(d[..3], '-');
      assert d[..3] + d[3..6] + d[6..] == d;
    } else if |d| >= 4 {
      RemoveDashBefore(d[..3], d[3..]);
      RemoveCharAbsent(d[..3], '-');
      assert d[..3] + d[3..] == d;
    } else {
      RemoveCharAbsent(d, '-');
    }
  }

  /** On text whose digits are all ASCII, the Tk birth-date field shows what the Electron one shows. */
  lemma TkFormatDobAgrees(text: string)
    ensures AsciiDigitsOnly(text) ==> TkFormatDob(text) == Renderer.FormatDob(text)
  {
    if AsciiDigitsOnly(text) {
      KeepPyDigitsRemoveChar(text, '-');
      KeepPyDigitsOfAscii(text);
    }
  }

  /** The same agreement for the phone field. */
  lemma TkFormatPhoneAgrees(text: string)
    ensures AsciiDigitsOnly(text) ==> TkFormatPhone(text) == Renderer.FormatPhone(text)
  {
    if AsciiDigitsOnly(text) {
      KeepPyDigitsRemoveChar(text, '-');
      KeepPyDigitsOfAscii(text);
    }
  }

  /** Text without an ASCII digit has no digits for JavaScript's `\D`. */
  lemma {:induction false} KeepDigitsOfNoAscii(s: string)
    requires forall i :: 0 <= i < |s| ==> !IsDigit(s[i])
    ensures KeepDigits(s) == ""
  {
    if s != [] {
      KeepDigitsOfNoAscii(s[1..]);
    }
  }

  /** The fullwidth digits `031`. */
  function WideDigits(): string {
    "\U{FF10}\U{FF13}\U{FF11}"
  }

  /** A fullwidth `031` starts the Tk birth-date field as `03-1`, and leaves the Electron one empty. */
  lemma TkFormatDobWideDigits()
    ensures TkFormatDob(WideDigits()) == "\U{FF10}\U{FF13}-\U{FF11}"
    ensures Renderer.FormatDob(WideDigits()) == ""
  {
    TkWideDigits();
    ElectronWideDigits();
  }

  lemma TkWideDigits()
    ensures TkFormatDob(WideDigits()) == "\U{FF10}\U{FF13}-\U{FF11}"
  {
    var w := WideDigits();
    assert IsPyDigit(w[0]) && IsPyDigit(w[1]) && IsPyDigit(w[2]);
    assert '-' !in w;
    RemoveCharAbsent(w, '-');
    KeepPyDigitsOfPyDigits(w);
    assert Content(w, 8) == w;
  }

  lemma ElectronWideDigits()
    ensures Renderer.FormatDob(WideDigits()) == ""
  {
    var w := WideDigits();
    assert !IsDigit(w[0]) && !IsDigit(w[1]) && !IsDigit(w[2]);
    KeepDigitsOfNoAscii(w);
  }

  /** Formatting the field again on the next key release leaves it as it is. */
  lemma TkFormatDobIdempotent(text: string)
    ensures TkFormatDob(TkFormatDob(text)) == TkFormatDob(text)
  {
    TkFormatDobContent(text);
    KeepPyDigitsOfPyDigits(Content(text, 8));
  }

  /** The same for the phone field. */
  lemma TkFormatPhoneIdempotent(text: string)
    ensures TkFormatPhone(TkFormatPhone(text)) == TkFormatPhone(text)
  {
    TkFormatPhoneContent(text);
    KeepPyDigitsOfPyDigits(Content(text, 10));
  }

  /** The field keeps the first eight digits typed, in order, whatever else was typed. */
  lemma TkFormatDobDigits(text: string)
    ensures KeepPyDigits(TkFormatDob(text)) == Renderer.Take(KeepPyDigits(text), 8)
  {
    TkFormatDobContent(text);
    KeepPyDigitsRemoveChar(TkFormatDob(text), '-');
    KeepPyDigitsOfPyDigits(Content(text, 8));
    KeepPyDigitsRemoveChar(text, '-');
  }

  /** The field keeps the first ten digits typed, in order. */
  lemma TkFormatPhoneDigits(text: string)
    ensures KeepPyDigits(TkFormatPhone(text)) == Renderer.Take(KeepPyDigits(text), 10)
  {
    TkFormatPhoneContent(text);
    KeepPyDigitsRemoveChar(TkFormatPhone(text), '-');
    KeepPyDigitsOfPyDigits(Content(text, 10));
    KeepPyDigitsRemoveChar(text, '-');
  }
}
