/** Calendar dates as `datetime.date` holds them, the ISO spelling the
    service sends (`"%Y-%m-%d"`), and `datetime.strptime(s, "%Y-%m-%d")`. */
module Dates {
  import opened Wrappers
  import opened Text

  datatype Date = Date(year: nat, month: nat, day: nat)

  predicate IsLeapYear(y: nat)
  {
    y % 4 == 0 && (y % 100 != 0 || y % 400 == 0)
  }

  function DaysInMonth(y: nat, m: nat): nat
    requires 1 <= m <= 12
  {
    if m == 2 then (if IsLeapYear(y) then 29 else 28)
    else if m == 4 || m == 6 || m == 9 || m == 11 then 30
    else 31
  }

  /** The dates `datetime.date` accepts: years 1 to 9999, real days of the month. */
  predicate IsValid(d: Date)
  {
    1 <= d.year <= 9999 && 1 <= d.month <= 12 && 1 <= d.day <= DaysInMonth(d.year, d.month)
  }

  type CalendarDate = d: Date | IsValid(d) witness Date(1, 1, 1)

  /** `a < b` on `datetime.date`: chronological order. */
  predicate Before(a: Date, b: Date)
  {
    a.year < b.year || (a.year == b.year && (a.month < b.month || (a.month == b.month && a.day < b.day)))
  }

  /** Chronological order is a strict total order on dates. */
  lemma BeforeIsStrictOrder(a: Date, b: Date, c: Date)
    ensures !Before(a, a)
    ensures Before(a, b) && Before(b, c) ==> Before(a, c)
    ensures !Before(a, b) && !Before(b, c) ==> !Before(a, c)
    ensures a == b || Before(a, b) || Before(b, a)
  {
  }

  /** `d.isoformat()`, the same text as `d.strftime("%Y-%m-%d")`. */
  function Iso(d: CalendarDate): (s: string)
    ensures |s| == 10 && s[4] == '-' && s[7] == '-'
  {
    Padded(d.year, 4) + ("-" + (Padded(d.month, 2) + ("-" + Padded(d.day, 2))))
  }

  /** A shared '-' in front leaves the comparison to what follows. */
  lemma DashLess(x: string, y: string)
    ensures LexLess("-" + x, "-" + y) <==> LexLess(x, y)
  {
    LexLessAppend("-", x, "-", y);
    LexLessIrreflexive("-");
  }

  /** The ISO spelling is one-to-one. */
  lemma IsoInjective(a: CalendarDate, b: CalendarDate)
    ensures Iso(a) == Iso(b) <==> a == b
  {
    if Iso(a) == Iso(b) {
      assert Pow10(2) == 100 && Pow10(4) == 10000;
      assert Iso(a)[..4] == Padded(a.year, 4) && Iso(b)[..4] == Padded(b.year, 4);
      assert Iso(a)[5..7] == Padded(a.month, 2) && Iso(b)[5..7] == Padded(b.month, 2);
      assert Iso(a)[8..] == Padded(a.day, 2) && Iso(b)[8..] == Padded(b.day, 2);
      PaddedInjective(a.year, b.year, 4);
      PaddedInjective(a.month, b.month, 2);
      PaddedInjective(a.day, b.day, 2);
    }
  }

  /** Comparing two dates' ISO strings with Python's `str` order is the same as
      comparing the dates, and the spelling is one-to-one. */
  lemma IsoOrder(a: CalendarDate, b: CalendarDate)
    ensures LexLess(Iso(a), Iso(b)) <==> Before(a, b)
    ensures Iso(a) == Iso(b) <==> a == b
  {
    IsoInjective(a, b);
    assert Pow10(2) == 100 && Pow10(4) == 10000;
    var ya, yb := Padded(a.year, 4), Padded(b.year, 4);
    var ma, mb := Padded(a.month, 2), Padded(b.month, 2);
    var da, db := Padded(a.day, 2), Padded(b.day, 2);
    PaddedOrder(a.year, b.year, 4);
    PaddedOrder(a.month, b.month, 2);
    PaddedOrder(a.day, b.day, 2);
    var ta, tb := ma + ("-" + da), mb + ("-" + db);
    DashLess(da, db);
    LexLessAppend(ma, "-" + da, mb, "-" + db);
    assert LexLess(ta, tb) <==> a.month < b.month || (a.month == b.month && a.day < b.day);
    DashLess(ta, tb);
    LexLessAppend(ya, "-" + ta, yb, "-" + tb);
  }

  // ---------------------------------------------------------------- parsing

  /** The text `%m` matches: `1[0-2]|0[1-9]|[1-9]`. */
  predicate IsMonthField(t: string)
  {
    || (|t| == 1 && '1' <= t[0] <= '9')
    || (|t| == 2 && ((t[0] == '1' && '0' <= t[1] <= '2') || (t[0] == '0' && '1' <= t[1] <= '9')))
  }

  /** The text `%d` matches: `3[01]|[12]\d|0[1-9]|[1-9]| [1-9]`. */
  predicate IsDayField(t: string)
  {
    || (|t| == 1 && '1' <= t[0] <= '9')
    || (|t| == 2 && (|| (t[0] == '3' && '0' <= t[1] <= '1')
                    || ('1' <= t[0] <= '2' && IsDigit(t[1]))
                    || (t[0] == '0' && '1' <= t[1] <= '9')
                    || (t[0] == ' ' && '1' <= t[1] <= '9')))
  }

  /** `int(t)` for a month or day field (a leading blank is skipped). */
  function FieldValue(t: string): nat
    requires IsMonthField(t) || IsDayField(t)
  {
    if t[0] == ' ' then DigitValue(t[1]) else DigitsValue(t)
  }

  /** The fields once matched: `datetime.date` refuses an impossible day and year 0. */
  function MakeDate(year: nat, m: string, d: string): Option<CalendarDate>
  {
    if !IsMonthField(m) || !IsDayField(d) then None
    else
      var date := Date(year, FieldValue(m), FieldValue(d));
      if IsValid(date) then Some(date) else None
  }

  /** `datetime.strptime(s, "%Y-%m-%d").date()`; `None` where it raises
      `ValueError`. The year is four digits; month and day may drop their
      leading zero, and the day may have a leading blank instead. */
  function ParseDate(s: string): (r: Option<CalendarDate>)
    ensures r.Some? ==> 8 <= |s| <= 10 && AllDigits(s[..4]) && r.value.year == DigitsValue(s[..4])
    ensures r.Some? ==> exists m, d :: IsMonthField(m) && IsDayField(d) && s == s[..4] + "-" + m + "-" + d
                                       && r.value == Date(DigitsValue(s[..4]), FieldValue(m), FieldValue(d))
  {
    if |s| < 8 || !AllDigits(s[..4]) || s[4] != '-' then None
    else
      var rest := s[5..];
      var k := if rest[1] == '-' then 1 else 2;
      if rest[k] != '-' then None
      else
        var m, d := rest[..k], rest[k + 1..];
        assert s == s[..4] + "-" + m + "-" + d;
        MakeDate(DigitsValue(s[..4]), m, d)
  }

  /** Every spelling `%Y-%m-%d` matches is read field by field: a four-digit
      year, a month and a day field, each separated by a hyphen, give that
      date, or nothing when the calendar has no such day. */
  lemma ParseDateFields(y: string, m: string, d: string)
    requires |y| == 4 && AllDigits(y) && IsMonthField(m) && IsDayField(d)
    ensures var date := Date(DigitsValue(y), FieldValue(m), FieldValue(d));
            ParseDate(y + "-" + m + "-" + d) == if IsValid(date) then Some(date) else None
  {
    var s := y + "-" + m + "-" + d;
    assert s[..4] == y && s[4] == '-';
    var rest := s[5..];
    assert rest == m + "-" + d;
    if |m| == 1 {
      assert rest[1] == '-' && rest[..1] == m && rest[2..] == d;
    } else {
      assert rest[1] != '-' && rest[2] == '-' && rest[..2] == m && rest[3..] == d;
    }
  }

  /** A two-digit zero-padded month or day is a field `%m` or `%d` accepts,
      and it reads back as itself. */
  lemma PaddedField(x: nat)
    requires 1 <= x <= 31
    ensures x <= 12 ==> IsMonthField(Padded(x, 2))
    ensures IsDayField(Padded(x, 2))
    ensures FieldValue(Padded(x, 2)) == x
  {
    var t := Padded(x, 2);
    assert t == [DigitChar(x / 10), DigitChar(x % 10)] by {
      assert Padded(x / 10, 1) == [DigitChar(x / 10)] by {
        assert Padded(x / 10 / 10, 0) == "";
      }
    }
    assert t[..1] == [t[0]];
    assert DigitsValue(t[..1]) == DigitValue(t[0]) by {
      assert t[..1][..0] == [];
    }
  }

  /** Parsing the ISO spelling gives the date back. */
  lemma ParseIso(d: CalendarDate)
    ensures ParseDate(Iso(d)) == Some(d)
  {
    var s := Iso(d);
    var y, m, dd := Padded(d.year, 4), Padded(d.month, 2), Padded(d.day, 2);
    assert s[..4] == y;
    var rest := s[5..];
    assert rest == m + ("-" + dd);
    assert rest[..2] == m && rest[3..] == dd && rest[2] == '-';
    assert rest[1] != '-' by { assert IsDigit(m[1]); }
    assert Pow10(4) == 10000;
    PaddedValue(d.year, 4);
    PaddedField(d.month);
    PaddedField(d.day);
  }
}
