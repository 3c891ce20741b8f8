/**
 * String helpers shared by the Python back ends and the JavaScript front end:
 * whitespace classes, trimming, ASCII lower-casing, digit filtering,
 * splitting and joining on a one-character separator, and decimal integers.
 */
module Strings {
  import opened Wrappers

  // ---------------------------------------------------------------------
  // Character classes
  // ---------------------------------------------------------------------

  /** The characters for which Python's `str.isspace()` holds; `re`'s `\s` and `str.strip()` use the same set. */
  predicate IsPySpace(c: char) {
    ('\t' <= c <= '\r') || ('\U{1C}' <= c <= '\U{1F}') || c == ' ' || c == '\U{85}' || c == '\U{A0}'
    || c == '\U{1680}' || ('\U{2000}' <= c <= '\U{200A}') || c == '\U{2028}' || c == '\U{2029}'
    || c == '\U{202F}' || c == '\U{205F}' || c == '\U{3000}'
  }

  /** JavaScript's WhiteSpace and LineTerminator characters: the `\s` class and what `trim()` removes. */
  predicate IsJsSpace(c: char) {
    ('\t' <= c <= '\r') || c == ' ' || c == '\U{A0}' || c == '\U{1680}' || ('\U{2000}' <= c <= '\U{200A}')
    || c == '\U{2028}' || c == '\U{2029}' || c == '\U{202F}' || c == '\U{205F}' || c == '\U{3000}'
    || c == '\U{FEFF}'
  }

  /** Which language's notion of whitespace is meant. */
  datatype Dialect = Python | JavaScript

  predicate IsSpace(d: Dialect, c: char) {
    match d
    case Python => IsPySpace(c)
    case JavaScript => IsJsSpace(c)
  }

  /** An ASCII decimal digit: JavaScript's `\d`, and the digits the model admits on the Python side. */
  predicate IsDigit(c: char) {
    '0' <= c <= '9'
  }

  predicate IsUpper(c: char) {
    'A' <= c <= 'Z'
  }

  function DigitValue(c: char): nat
    requires IsDigit(c)
  {
    (c as int) - ('0' as int)
  }

  function DigitChar(n: nat): (c: char)
    requires n < 10
    ensures IsDigit(c) && DigitValue(c) == n
  {
    (('0' as int) + n) as char
  }

  predicate AllSpace(d: Dialect, s: string) {
    forall i :: 0 <= i < |s| ==> IsSpace(d, s[i])
  }

  predicate AllDigits(s: string) {
    forall i :: 0 <= i < |s| ==> IsDigit(s[i])
  }

  predicate NoUpper(s: string) {
    forall i :: 0 <= i < |s| ==> !IsUpper(s[i])
  }

  // ---------------------------------------------------------------------
  // Trimming (Python `str.strip()`, JavaScript `String.prototype.trim()`)
  // ---------------------------------------------------------------------

  /** How many whitespace characters `s` starts with. */
  function LeadingSpace(d: Dialect, s: string): (n: nat)
    ensures n <= |s|
    ensures forall i :: 0 <= i < n ==> IsSpace(d, s[i])
    ensures n < |s| ==> !IsSpace(d, s[n])
    decreases |s|
  {
    if s == [] || !IsSpace(d, s[0]) then 0 else 1 + LeadingSpace(d, s[1..])
  }

  /** How many whitespace characters `s` ends with. */
  function TrailingSpace(d: Dialect, s: string): (n: nat)
    ensures n <= |s|
    ensures forall i :: |s| - n <= i < |s| ==> IsSpace(d, s[i])
    ensures n < |s| ==> !IsSpace(d, s[|s| - n - 1])
    decreases |s|
  {
    if s == [] || !IsSpace(d, s[|s| - 1]) then 0 else 1 + TrailingSpace(d, s[..|s| - 1])
  }

  function TrimStart(d: Dialect, s: string): string {
    s[LeadingSpace(d, s)..]
  }

  function TrimEnd(d: Dialect, s: string): string {
    s[..|s| - TrailingSpace(d, s)]
  }

  /** Both ends stripped of whitespace. */
  function Trim(d: Dialect, s: string): (r: string)
    ensures r == [] || (!IsSpace(d, r[0]) && !IsSpace(d, r[|r| - 1]))
  {
    TrimEnd(d, TrimStart(d, s))
  }

  /** A string with no whitespace at either end is its own trim. */
  lemma TrimUnpadded(d: Dialect, s: string)
    requires s == [] || (!IsSpace(d, s[0]) && !IsSpace(d, s[|s| - 1]))
    ensures Trim(d, s) == s
  {
  }

  // ---------------------------------------------------------------------
  // Case
  // ---------------------------------------------------------------------

  function LowerChar(c: char): char {
    if IsUpper(c) then ((c as int) + 32) as char else c
  }

  /** `str.lower()` on the ASCII range. */
  function Lower(s: string): (r: string)
    ensures |r| == |s|
    ensures forall i :: 0 <= i < |s| ==> r[i] == LowerChar(s[i])
  {
    seq(|s|, i requires 0 <= i < |s| => LowerChar(s[i]))
  }

  lemma LowerNoUpper(s: string)
    ensures NoUpper(Lower(s))
  {
  }

  lemma LowerOfNoUpper(s: string)
    requires NoUpper(s)
    ensures Lower(s) == s
  {
  }

  // ---------------------------------------------------------------------
  // Digits
  // ---------------------------------------------------------------------

  /** The digits of `s` in order: `re.sub(r"\D+", "", s)` and JavaScript's `s.replace(/\D/g, "")`. */
  function KeepDigits(s: string): (r: string)
    ensures AllDigits(r) && |r| <= |s|
  {
    if s == [] then [] else (if IsDigit(s[0]) then [s[0]] else []) + KeepDigits(s[1..])
  }

  lemma {:induction false} KeepDigitsConcat(a: string, b: string)
    ensures KeepDigits(a + b) == KeepDigits(a) + KeepDigits(b)
  {
    if a == [] {
      assert a + b == b;
    } else {
      assert (a + b)[1..] == a[1..] + b;
      KeepDigitsConcat(a[1..], b);
    }
  }

  lemma {:induction false} KeepDigitsOfDigits(s: string)
    requires AllDigits(s)
    ensures KeepDigits(s) == s
  {
    if s != [] {
      KeepDigitsOfDigits(s[1..]);
    }
  }

  /** Removing every occurrence of one character. */
  function RemoveChar(s: string, c: char): (r: string)
    ensures c !in r
  {
    if s == [] then [] else (if s[0] == c then [] else [s[0]]) + RemoveChar(s[1..], c)
  }

  /** Dropping a non-digit character first does not change the digits that remain. */
  lemma {:induction false} KeepDigitsRemoveChar(s: string, c: char)
    requires !IsDigit(c)
    ensures KeepDigits(RemoveChar(s, c)) == KeepDigits(s)
  {
    if s != [] {
      KeepDigitsRemoveChar(s[1..], c);
      var head := if s[0] == c then [] else [s[0]];
      KeepDigitsConcat(head, RemoveChar(s[1..], c));
    }
  }

  lemma {:induction false} RemoveCharConcat(a: string, b: string, c: char)
    ensures RemoveChar(a + b, c) == RemoveChar(a, c) + RemoveChar(b, c)
  {
    if a == [] {
      assert a + b == b;
    } else {
      assert (a + b)[1..] == a[1..] + b;
      RemoveCharConcat(a[1..], b, c);
    }
  }

  lemma {:induction false} RemoveCharAbsent(s: string, c: char)
    requires c !in s
    ensures RemoveChar(s, c) == s
  {
    if s != [] {
      RemoveCharAbsent(s[1..], c);
    }
  }

  /** A dash between two texts drops out, the text after it holding none. */
  lemma RemoveDashBefore(u: string, z: string)
    requires '-' !in z
    ensures RemoveChar(u + "-" + z, '-') == RemoveChar(u, '-') + z
  {
    var dash := "-";
    var a := u + dash;
    assert RemoveChar(a, '-') == RemoveChar(u, '-') by {
      assert RemoveChar(dash, '-') == [] by {
        assert dash[0] == '-' && dash[1..] == [];
      }
      RemoveCharConcat(u, dash, '-');
    }
    RemoveCharConcat(a, z, '-');
    RemoveCharAbsent(z, '-');
  }

  // ---------------------------------------------------------------------
  // Whitespace runs (Python `re.sub(r"\s+", " ", s)`)
  // ---------------------------------------------------------------------

  /** Every whitespace character is a plain blank. */
  predicate BlanksOnly(d: Dialect, s: string) {
    forall i :: 0 <= i < |s| ==> IsSpace(d, s[i]) ==> s[i] == ' '
  }

  /** No two whitespace characters are adjacent. */
  predicate NoSpaceRun(d: Dialect, s: string) {
    forall i :: 0 <= i < |s| - 1 ==> !(IsSpace(d, s[i]) && IsSpace(d, s[i + 1]))
  }

  /** Each maximal run of whitespace replaced by one blank. */
  function CollapseSpace(d: Dialect, s: string): (r: string)
    ensures forall i :: 0 <= i < |r| ==> r[i] == ' ' || r[i] in s
    ensures s != [] && !IsSpace(d, s[0]) ==> r != [] && r[0] == s[0]
    ensures s != [] && IsSpace(d, s[0]) ==> r != [] && r[0] == ' '
    decreases |s|
  {
    if s == [] then []
    else if IsSpace(d, s[0]) then
      var t := TrimStart(d, s);
      var r := CollapseSpace(d, t);
      assert forall i :: 0 <= i < |r| ==> r[i] == ' ' || r[i] in s by {
        forall i | 0 <= i < |r| && r[i] in t ensures r[i] in s {
          var k :| 0 <= k < |t| && t[k] == r[i];
          assert s[|s| - |t| + k] == t[k];
        }
      }
      " " + r
    else
      [s[0]] + CollapseSpace(d, s[1..])
  }

  lemma {:induction false} CollapseSpaceShape(d: Dialect, s: string)
    requires d == Python
    ensures BlanksOnly(d, CollapseSpace(d, s)) && NoSpaceRun(d, CollapseSpace(d, s))
    decreases |s|
  {
    if s == [] {
    } else if IsSpace(d, s[0]) {
      var t := TrimStart(d, s);
      CollapseSpaceShape(d, t);
      var r := CollapseSpace(d, t);
      assert r != [] ==> !IsSpace(d, r[0]);
    } else {
      CollapseSpaceShape(d, s[1..]);
      var r := CollapseSpace(d, s[1..]);
      assert CollapseSpace(d, s) == [s[0]] + r;
    }
  }

  /** A string whose whitespace is already single blanks is left alone. */
  lemma {:induction false} CollapseSpaceFixed(d: Dialect, s: string)
    requires d == Python
    requires BlanksOnly(d, s) && NoSpaceRun(d, s)
    ensures CollapseSpace(d, s) == s
    decreases |s|
  {
    if s == [] {
    } else if IsSpace(d, s[0]) {
      assert s[0] == ' ';
      assert s[1..] == [] || !IsSpace(d, s[1]);
      var t := TrimStart(d, s);
      assert t == TrimStart(d, s[1..]);
      assert t == s[1..];
      CollapseSpaceFixed(d, s[1..]);
      assert s == " " + s[1..];
    } else {
      CollapseSpaceFixed(d, s[1..]);
      assert s == [s[0]] + s[1..];
    }
  }

  /** The last character survives when it is not whitespace. */
  lemma {:induction false} CollapseSpaceLast(d: Dialect, s: string)
    requires s != [] && !IsSpace(d, s[|s| - 1])
    ensures CollapseSpace(d, s) != [] && CollapseSpace(d, s)[|CollapseSpace(d, s)| - 1] == s[|s| - 1]
    decreases |s|
  {
    if IsSpace(d, s[0]) {
      var t := TrimStart(d, s);
      assert t != [] && t[|t| - 1] == s[|s| - 1];
      CollapseSpaceLast(d, t);
    } else if |s| > 1 {
      CollapseSpaceLast(d, s[1..]);
    }
  }

  // ---------------------------------------------------------------------
  // Splitting and joining on one character (Python `split`/`join`, JavaScript `split`)
  // ---------------------------------------------------------------------

  function IndexOf(s: string, c: char): (i: nat)
    requires c in s
    ensures i < |s| && s[i] == c && c !in s[..i]
  {
    if s[0] == c then 0 else 1 + IndexOf(s[1..], c)
  }

  /** `s.split(sep)`: the pieces between separators, empty ones included; never an empty list. */
  function Split(s: string, sep: char): (r: seq<string>)
    ensures |r| >= 1
    ensures forall k :: 0 <= k < |r| ==> sep !in r[k]
    decreases |s|
  {
    if sep !in s then [s]
    else
      var i := IndexOf(s, sep);
      [s[..i]] + Split(s[i + 1..], sep)
  }

  /** `sep.join(xs)`. */
  function Join(xs: seq<string>, sep: char): string {
    if |xs| == 0 then ""
    else if |xs| == 1 then xs[0]
    else xs[0] + [sep] + Join(xs[1..], sep)
  }

  /** Joining the pieces of a split gives back the string. */
  lemma {:induction false} JoinSplit(s: string, sep: char)
    ensures Join(Split(s, sep), sep) == s
    decreases |s|
  {
    if sep in s {
      var i := IndexOf(s, sep);
      var rest := Split(s[i + 1..], sep);
      JoinSplit(s[i + 1..], sep);
      assert Split(s, sep) == [s[..i]] + rest;
      assert s == s[..i] + [sep] + s[i + 1..];
    }
  }

  /** Splitting a join gives back the list, when no element holds the separator. */
  lemma {:induction false} SplitJoin(xs: seq<string>, sep: char)
    requires |xs| >= 1
    requires forall k :: 0 <= k < |xs| ==> sep !in xs[k]
    ensures Split(Join(xs, sep), sep) == xs
  {
    if |xs| > 1 {
      var s := Join(xs, sep);
      var tail := Join(xs[1..], sep);
      assert s == xs[0] + [sep] + tail;
      SeparatorAfter(xs[0], sep, tail);
      assert Split(s, sep) == [xs[0]] + Split(tail, sep);
      SplitJoin(xs[1..], sep);
      assert xs == [xs[0]] + xs[1..];
    }
  }

  /** In `a + [sep] + b` with no separator in `a`, the first separator is the one after `a`. */
  lemma SeparatorAfter(a: string, sep: char, b: string)
    requires sep !in a
    ensures var s := a + [sep] + b;
      sep in s && IndexOf(s, sep) == |a| && s[..|a|] == a && s[|a| + 1..] == b
  {
    var s := a + [sep] + b;
    assert s[|a|] == sep;
    assert s[..|a|] == a;
    assert forall k :: 0 <= k < |a| ==> s[k] == a[k];
  }

  /** The first piece of a split is everything before the first separator. */
  lemma SplitFirst(s: string, sep: char)
    ensures sep in s ==> Split(s, sep)[0] == s[..IndexOf(s, sep)]
    ensures sep !in s ==> Split(s, sep) == [s]
  {
  }

  /** The second piece of a split is everything between the first and second separators. */
  lemma SplitSecond(s: string, sep: char)
    requires sep in s
    ensures |Split(s, sep)| >= 2
    ensures Split(s, sep)[1] == Split(s[IndexOf(s, sep) + 1..], sep)[0]
  {
  }

  /** The non-empty elements of a list, in order. */
  function NonEmpty(xs: seq<string>): (r: seq<string>)
    ensures forall k :: 0 <= k < |r| ==> r[k] != "" && r[k] in xs
    ensures (forall k :: 0 <= k < |xs| ==> xs[k] != "") ==> r == xs
  {
    if xs == [] then [] else (if xs[0] == "" then [] else [xs[0]]) + NonEmpty(xs[1..])
  }

  // ---------------------------------------------------------------------
  // Decimal integers (Python `str(n)` and `int(s)`)
  // ---------------------------------------------------------------------

  function NatToString(n: nat): (r: string)
    ensures |r| >= 1 && AllDigits(r)
    decreases n
  {
    if n < 10 then [DigitChar(n)] else NatToString(n / 10) + [DigitChar(n % 10)]
  }

  /** `str(n)` for an integer. */
  function IntToString(n: int): string {
    if n < 0 then "-" + NatToString(-n) else NatToString(n)
  }

  function DigitsValue(s: string): nat
    requires AllDigits(s)
    decreases |s|
  {
    if s == [] then 0 else DigitsValue(s[..|s| - 1]) * 10 + DigitValue(s[|s| - 1])
  }

  /** Two digit strings of one length with the same value are the same string. */
  lemma {:induction false} DigitsValueInjective(s: string, t: string)
    requires AllDigits(s) && AllDigits(t) && |s| == |t| && DigitsValue(s) == DigitsValue(t)
    ensures s == t
    decreases |s|
  {
    if s != [] {
      var n := |s| - 1;
      assert DigitValue(s[n]) == DigitValue(t[n]);
      DigitsValueInjective(s[..n], t[..n]);
      assert s == s[..n] + [s[n]] && t == t[..n] + [t[n]];
    }
  }

  lemma {:induction false} DigitsValueOfNatToString(n: nat)
    ensures DigitsValue(NatToString(n)) == n
    decreases n
  {
    if n >= 10 {
      var s := NatToString(n);
      DigitsValueOfNatToString(n / 10);
      assert s[..|s| - 1] == NatToString(n / 10);
    }
  }

  /** The digit string Python's `int()` accepts in base 10: digits, single underscores between them. */
  predicate IsDigitGroups(s: string) {
    && |s| >= 1 && IsDigit(s[0]) && IsDigit(s[|s| - 1])
    && (forall i :: 0 <= i < |s| ==> IsDigit(s[i]) || s[i] == '_')
    && (forall i :: 0 <= i < |s| - 1 ==> !(s[i] == '_' && s[i + 1] == '_'))
  }

  function RemoveUnderscores(s: string): (r: string)
    requires forall i :: 0 <= i < |s| ==> IsDigit(s[i]) || s[i] == '_'
    ensures AllDigits(r)
    ensures AllDigits(s) ==> r == s
  {
    if s == [] then [] else (if s[0] == '_' then [] else [s[0]]) + RemoveUnderscores(s[1..])
  }

  /** Python's `int(s)` on a string: `None` where it raises `ValueError`. */
  function ParseInt(s: string): Option<int> {
    ParseStripped(Trim(Python, s))
  }

  /** `int()` once the surrounding whitespace is gone: an optional sign, then digit groups. */
  function ParseStripped(t: string): Option<int> {
    if t != [] && (t[0] == '+' || t[0] == '-') then
      var body := t[1..];
      if IsDigitGroups(body) then
        var v: int := DigitsValue(RemoveUnderscores(body));
        var n: int := if t[0] == '-' then -v else v;
        Some(n)
      else None
    else if IsDigitGroups(t) then Some(DigitsValue(RemoveUnderscores(t)))
    else None
  }

  lemma NatToStringIsDigitGroups(m: nat)
    ensures IsDigitGroups(NatToString(m))
    ensures RemoveUnderscores(NatToString(m)) == NatToString(m)
    ensures DigitsValue(NatToString(m)) == m
  {
    DigitsValueOfNatToString(m);
  }

  lemma ParseIntOfNatToString(m: nat)
    ensures ParseInt(NatToString(m)) == Some(m)
  {
    var s := NatToString(m);
    NatToStringIsDigitGroups(m);
    TrimUnpadded(Python, s);
    ParseIntOfUnsigned(s);
  }

  /** Without a sign, `int()` reads the digit groups. */
  lemma ParseIntOfUnsigned(t: string)
    requires Trim(Python, t) == t && IsDigitGroups(t)
    ensures ParseInt(t) == Some(DigitsValue(RemoveUnderscores(t)))
  {
  }

  /** `int()` of a minus sign and digit groups of value `k`, with no whitespace to strip. */
  lemma {:induction false} ParseIntOfMinus(t: string, digits: string, k: nat)
    requires IsDigitGroups(digits) && DigitsValue(RemoveUnderscores(digits)) == k && t == "-" + digits
    ensures ParseInt(t) == Some(-(k as int))
  {
    // The boxed values are equated first: the solver is slow to derive it from `k`'s equation inside the call's result.
    var value: Option<int> := Some(-(DigitsValue(RemoveUnderscores(digits)) as int));
    assert value == Some(-(k as int));
    ParseIntOfMinusSign(t, digits);
  }

  /** The same, with the value left as `DigitsValue` computes it. */
  lemma ParseIntOfMinusSign(t: string, digits: string)
    requires IsDigitGroups(digits) && t == "-" + digits
    ensures ParseInt(t) == Some(-(DigitsValue(RemoveUnderscores(digits)) as int))
  {
    assert t[0] == '-' && t[|t| - 1] == digits[|digits| - 1];
    TrimUnpadded(Python, t);
    StrippedMinus(t, digits);
  }

  /** A minus sign before digit groups: `int()` negates their value. */
  lemma StrippedMinus(t: string, digits: string)
    requires IsDigitGroups(digits) && t == "-" + digits
    ensures ParseStripped(t) == Some(-(DigitsValue(RemoveUnderscores(digits)) as int))
  {
    assert t[1..] == digits;
  }

  /** `int(str(n)) == n`. */
  lemma ParseIntOfIntToString(n: int)
    ensures ParseInt(IntToString(n)) == Some(n)
  {
    var text := IntToString(n);
    if n < 0 {
      var digits := NatToString(-n);
      assert text == "-" + digits;
      NatToStringIsDigitGroups(-n);
      var negated: nat := -n;
      assert Some(-(negated as int)) == Some(n);
      ParseIntOfMinus(text, digits, negated);
    } else {
      assert text == NatToString(n);
      ParseIntOfNatToString(n);
    }
  }

  /** The empty field is not a number. */
  lemma ParseIntEmpty()
    ensures ParseInt("") == None
  {
    assert Trim(Python, "") == "";
  }
}
