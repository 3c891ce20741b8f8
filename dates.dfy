/**
 * Calendar dates: the Gregorian leap-year rule, days per month, and the
 * month-day-year text form that Python's `datetime.strptime(raw, "%m-%d-%Y")`
 * accepts, together with the `"%Y-%m-%d"` form that `strftime` writes back.
 */
module Dates {
  import opened Wrappers
  import opened Strings

  predicate IsLeapYear(y: int) {
    y % 4 == 0 && (y % 100 != 0 || y % 400 == 0)
  }

  function DaysInMonth(y: int, m: int): (n: int)
    requires 1 <= m <= 12
    ensures 28 <= n <= 31
    ensures n == 29 <==> m == 2 && IsLeapYear(y)
  {
    if m == 2 then (if IsLeapYear(y) then 29 else 28)
    else if m == 4 || m == 6 || m == 9 || m == 11 then 30
    else 31
  }

  /** A day that Python's `datetime.date` can hold: years MINYEAR (1) to MAXYEAR (9999). */
  predicate IsRealDate(y: int, m: int, d: int) {
    1 <= y <= 9999 && 1 <= m <= 12 && 1 <= d <= DaysInMonth(y, m)
  }

  /** Two digits, zero padded (`%m`, `%d` of strftime). */
  function Pad2(n: nat): (r: string)
    requires n < 100
    ensures |r| == 2 && AllDigits(r) && DigitsValue(r) == n
  {
    var r := [DigitChar(n / 10), DigitChar(n % 10)];
    assert r[..1] == [DigitChar(n / 10)];
    assert r[..1][..0] == [];
    assert DigitsValue(r[..1]) == n / 10;
    r
  }

  /** Four digits, zero padded (`%Y`). */
  function Pad4(n: nat): (r: string)
    requires n < 10000
    ensures |r| == 4 && AllDigits(r) && DigitsValue(r) == n
  {
    var r := Pad2(n / 100) + Pad2(n % 100);
    var hi := Pad2(n / 100);
    assert r[..3] == hi + [r[2]];
    assert r[..2] == hi;
    r
  }

  function Pow10(k: nat): nat {
    if k == 0 then 1 else 10 * Pow10(k - 1)
  }

  lemma {:induction false} DigitsValueBelow(s: string)
    requires AllDigits(s)
    ensures DigitsValue(s) < Pow10(|s|)
  {
    if s != [] {
      DigitsValueBelow(s[..|s| - 1]);
    }
  }

  /** The `%m` directive: `1[0-2]|0[1-9]|[1-9]`. */
  function MonthField(f: string): (r: Option<int>)
    ensures r.Some? ==> 1 <= r.value <= 12
  {
    if |f| == 1 && '1' <= f[0] <= '9' then Some(DigitValue(f[0]))
    else if |f| == 2 && f[0] == '0' && '1' <= f[1] <= '9' then Some(DigitValue(f[1]))
    else if |f| == 2 && f[0] == '1' && '0' <= f[1] <= '2' then Some(10 + DigitValue(f[1]))
    else None
  }

  /** The `%d` directive: `3[01]|[12]\d|0[1-9]|[1-9]| [1-9]`; note the last alternative, a blank then a digit. */
  function DayField(f: string): (r: Option<int>)
    ensures r.Some? ==> 1 <= r.value <= 31
  {
    if |f| == 1 && '1' <= f[0] <= '9' then Some(DigitValue(f[0]))
    else if |f| == 2 && (f[0] == '0' || f[0] == ' ') && '1' <= f[1] <= '9' then Some(DigitValue(f[1]))
    else if |f| == 2 && (f[0] == '1' || f[0] == '2') && IsDigit(f[1]) then Some(10 * DigitValue(f[0]) + DigitValue(f[1]))
    else if |f| == 2 && f[0] == '3' && (f[1] == '0' || f[1] == '1') then Some(30 + DigitValue(f[1]))
    else None
  }

  /** The `%Y` directive: exactly four digits. */
  function YearField(f: string): (r: Option<int>)
    ensures r.Some? ==> 0 <= r.value <= 9999
  {
    if |f| == 4 && AllDigits(f) then
      DigitsValueBelow(f);
      Some(DigitsValue(f))
    else None
  }

  /** `datetime.strptime(raw, "%m-%d-%Y")` as (year, month, day); `None` where it raises `ValueError`. */
  function ParseMdy(raw: string): (r: Option<(int, int, int)>)
    ensures r.Some? ==> IsRealDate(r.value.0, r.value.1, r.value.2)
  {
    var parts := Split(raw, '-');
    if |parts| != 3 then None
    else
      match (MonthField(parts[0]), DayField(parts[1]), YearField(parts[2]))
      case (Some(m), Some(d), Some(y)) => if IsRealDate(y, m, d) then Some((y, m, d)) else None
      case _ => None
  }

  /** `strftime("%Y-%m-%d")`. */
  function FormatIso(y: int, m: int, d: int): string
    requires IsRealDate(y, m, d)
  {
    Pad4(y) + "-" + Pad2(m) + "-" + Pad2(d)
  }

  /** The two-digit `MM-DD-YYYY` form the kiosk asks its users for. */
  function FormatMdy(y: int, m: int, d: int): string
    requires IsRealDate(y, m, d)
  {
    Pad2(m) + "-" + Pad2(d) + "-" + Pad4(y)
  }

  /** Canonical `YYYY-MM-DD` text of a real date. */
  predicate IsIsoDate(s: string) {
    && |s| == 10 && s[4] == '-' && s[7] == '-'
    && AllDigits(s[..4]) && AllDigits(s[5..7]) && AllDigits(s[8..])
    && IsRealDate(DigitsValue(s[..4]), DigitsValue(s[5..7]), DigitsValue(s[8..]))
  }

  /** The ISO text of a real date is well formed and reads back as the same date. */
  lemma FormatIsoReadsBack(y: int, m: int, d: int)
    requires IsRealDate(y, m, d)
    ensures var s := FormatIso(y, m, d);
      IsIsoDate(s) && DigitsValue(s[..4]) == y && DigitsValue(s[5..7]) == m && DigitsValue(s[8..]) == d
  {
    var s := FormatIso(y, m, d);
    assert s[..4] == Pad4(y);
    assert s[5..7] == Pad2(m);
    assert s[8..] == Pad2(d);
  }

  lemma MonthFieldPadded(m: int)
    requires 1 <= m <= 12
    ensures MonthField(Pad2(m)) == Some(m)
    ensures MonthField(NatToString(m)) == Some(m)
  {
  }

  lemma DayFieldPadded(d: int)
    requires 1 <= d <= 31
    ensures DayField(Pad2(d)) == Some(d)
    ensures DayField(NatToString(d)) == Some(d)
  {
    DayFieldTwoDigits(d / 10, d % 10);
    if d < 10 {
      assert NatToString(d) == [DigitChar(d)];
      DayFieldOneDigit(d);
    } else {
      assert NatToString(d) == Pad2(d) by {
        assert NatToString(d / 10) == [DigitChar(d / 10)];
      }
    }
  }

  lemma DayFieldOneDigit(u: nat)
    requires 1 <= u <= 9
    ensures DayField([DigitChar(u)]) == Some(u)
  {
    assert '1' <= DigitChar(u) <= '9';
  }

  lemma DayFieldTwoDigits(t: nat, u: nat)
    requires t < 10 && u < 10 && 1 <= 10 * t + u <= 31
    ensures DayField([DigitChar(t), DigitChar(u)]) == Some(10 * t + u)
  {
    var f := [DigitChar(t), DigitChar(u)];
    if t == 0 {
      assert f[0] == '0' && '1' <= f[1] <= '9';
    } else if t < 3 {
      assert f[0] == '1' || f[0] == '2';
    } else {
      assert f[0] == '3' && (f[1] == '0' || f[1] == '1');
    }
  }

  lemma YearFieldPadded(y: int)
    requires 0 <= y <= 9999
    ensures YearField(Pad4(y)) == Some(y)
  {
  }

  lemma SplitThree(a: string, b: string, c: string)
    requires '-' !in a && '-' !in b && '-' !in c
    ensures Split(a + "-" + b + "-" + c, '-') == [a, b, c]
  {
    SplitJoin([a, b, c], '-');
    assert Join([a, b, c], '-') == a + "-" + b + "-" + c by {
      assert Join([b, c], '-') == b + "-" + c;
      assert [a, b, c][1..] == [b, c];
    }
  }

  /** The padded form of every real date parses back to that date. */
  lemma {:induction false} ParseMdyPadded(y: int, m: int, d: int)
    requires IsRealDate(y, m, d)
    ensures ParseMdy(FormatMdy(y, m, d)) == Some((y, m, d))
  {
    MonthFieldPadded(m);
    DayFieldPadded(d);
    YearFieldPadded(y);
    SplitThree(Pad2(m), Pad2(d), Pad4(y));
  }

  /** Month and day written without their leading zeros parse as well: strptime is lenient there. */
  lemma {:induction false} ParseMdyUnpadded(y: int, m: int, d: int)
    requires IsRealDate(y, m, d)
    ensures ParseMdy(NatToString(m) + "-" + NatToString(d) + "-" + Pad4(y)) == Some((y, m, d))
  {
    MonthFieldPadded(m);
    DayFieldPadded(d);
    YearFieldPadded(y);
    assert '-' !in NatToString(m) && '-' !in NatToString(d);
    SplitThree(NatToString(m), NatToString(d), Pad4(y));
  }

  /** The 30th of February, the 31st of a 30-day month and a non-leap 29th of February are refused. */
  lemma {:induction false} ParseMdyRefusesMissingDay(y: int, m: int, d: int)
    requires 1 <= y <= 9999 && 1 <= m <= 12 && DaysInMonth(y, m) < d <= 31
    ensures ParseMdy(Pad2(m) + "-" + Pad2(d) + "-" + Pad4(y)) == None
  {
    MonthFieldPadded(m);
    DayFieldPadded(d);
    YearFieldPadded(y);
    SplitThree(Pad2(m), Pad2(d), Pad4(y));
  }
}
