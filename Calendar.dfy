/** Calendar dates and times of day, the text forms the app stores them in
    (`str(date)` gives `YYYY-MM-DD`, `strftime('%H:%M:%S')` gives `HH:MM:SS`),
    and the parse the app applies to a stored date (`strptime(.., '%Y-%m-%d')`). */
module Calendar {
  import opened Wrappers
  import opened TextOrder

  datatype Date = Date(year: nat, month: nat, day: nat)
  datatype Time = Time(hour: nat, minute: nat, second: nat)

  predicate IsLeapYear(y: nat) {
    y % 4 == 0 && (y % 100 != 0 || y % 400 == 0)
  }

  function DaysInMonth(y: nat, m: nat): nat
    requires 1 <= m <= 12
  {
    if m == 2 then (if IsLeapYear(y) then 29 else 28)
    else if m == 4 || m == 6 || m == 9 || m == 11 then 30
    else 31
  }

  /** The dates Python's `datetime.date` can hold (years 1 to 9999). */
  predicate ValidDate(d: Date) {
    1 <= d.year <= 9999 && 1 <= d.month <= 12 && 1 <= d.day <= DaysInMonth(d.year, d.month)
  }

  predicate ValidTime(t: Time) {
    t.hour < 24 && t.minute < 60 && t.second < 60
  }

  /** Python's `<` on `datetime.date`. */
  predicate DateLess(a: Date, b: Date) {
    a.year < b.year
    || (a.year == b.year && (a.month < b.month || (a.month == b.month && a.day < b.day)))
  }

  /** Python's `<` on `datetime.time`. */
  predicate TimeLess(a: Time, b: Time) {
    a.hour < b.hour
    || (a.hour == b.hour && (a.minute < b.minute || (a.minute == b.minute && a.second < b.second)))
  }

  /** `str(d)` for a `datetime.date`: `YYYY-MM-DD`. */
  function FormatDate(d: Date): (s: string)
    requires ValidDate(d)
    ensures |s| == 10 && s[4] == '-' && s[7] == '-'
    ensures AllDigits(s[..4]) && AllDigits(s[5..7]) && AllDigits(s[8..])
  {
    assert Pow10(2) == 100 && Pow10(4) == 10000;
    Digits(d.year, 4) + ("-" + (Digits(d.month, 2) + ("-" + Digits(d.day, 2))))
  }

  /** `t.strftime('%H:%M:%S')`: `HH:MM:SS`. */
  function FormatTime(t: Time): (s: string)
    requires ValidTime(t)
    ensures |s| == 8 && s[2] == ':' && s[5] == ':'
    ensures AllDigits(s[..2]) && AllDigits(s[3..5]) && AllDigits(s[6..])
  {
    assert Pow10(2) == 100;
    Digits(t.hour, 2) + (":" + (Digits(t.minute, 2) + (":" + Digits(t.second, 2))))
  }

  /** `strptime(s, '%Y-%m-%d').date()`, `None` where Python raises
      `ValueError`. Only the zero-padded ten-character form is accepted. */
  function ParseDate(s: string): (r: Option<Date>)
    ensures r.Some? ==> ValidDate(r.value)
  {
    if |s| == 10 && s[4] == '-' && s[7] == '-'
       && AllDigits(s[..4]) && AllDigits(s[5..7]) && AllDigits(s[8..])
    then
      var d := Date(Value(s[..4]), Value(s[5..7]), Value(s[8..]));
      if ValidDate(d) then Some(d) else None
    else None
  }

  /** Parsing what `str(date)` wrote gives the date back. */
  lemma ParseFormatDate(d: Date)
    requires ValidDate(d)
    ensures ParseDate(FormatDate(d)) == Some(d)
  {
    assert Pow10(2) == 100 && Pow10(4) == 10000;
    var y, m, dd := Digits(d.year, 4), Digits(d.month, 2), Digits(d.day, 2);
    var s := FormatDate(d);
    assert s == y + ("-" + (m + ("-" + dd)));
    assert |s| == 10 && s[4] == '-' && s[7] == '-';
    assert s[..4] == y && s[5..7] == m && s[8..] == dd;
    ValueOfDigits(d.year, 4);
    ValueOfDigits(d.month, 2);
    ValueOfDigits(d.day, 2);
    assert Date(Value(s[..4]), Value(s[5..7]), Value(s[8..])) == d;
  }

  /** A string that parses as a date is exactly that date's `str` form. */
  lemma ParseDateCanonical(s: string)
    requires ParseDate(s).Some?
    ensures s == FormatDate(ParseDate(s).value)
  {
    DigitsOfValue(s[..4]);
    DigitsOfValue(s[5..7]);
    DigitsOfValue(s[8..]);
    assert s == s[..4] + ("-" + (s[5..7] + ("-" + s[8..])));
  }

  /** Three fields of fixed widths, joined by separators, compare as strings
      in the lexicographic order of the fields. */
  lemma FieldsLess(a1: string, a2: string, a3: string, b1: string, b2: string, b3: string, sep: string)
    requires |a1| == |b1| && |a2| == |b2|
    ensures StrLess(a1 + (sep + (a2 + (sep + a3))), b1 + (sep + (b2 + (sep + b3))))
        <==> StrLess(a1, b1) || (a1 == b1 && (StrLess(a2, b2) || (a2 == b2 && StrLess(a3, b3))))
  {
    StrLessIrreflexive(sep);
    StrLessConcat(a1, sep + (a2 + (sep + a3)), b1, sep + (b2 + (sep + b3)));
    StrLessConcat(sep, a2 + (sep + a3), sep, b2 + (sep + b3));
    StrLessConcat(a2, sep + a3, b2, sep + b3);
    StrLessConcat(sep, a3, sep, b3);
  }

  lemma ConcatCancel(x1: string, x2: string, y1: string, y2: string)
    requires |x1| == |y1| && x1 + x2 == y1 + y2
    ensures x1 == y1 && x2 == y2
  {
    assert x1 == (x1 + x2)[..|x1|] && y1 == (y1 + y2)[..|y1|];
    assert x2 == (x1 + x2)[|x1|..] && y2 == (y1 + y2)[|y1|..];
  }

  /** Three fields of fixed widths, joined by separators, are read back
      unchanged. */
  lemma FieldsEqual(a1: string, a2: string, a3: string, b1: string, b2: string, b3: string, sep: string)
    requires |a1| == |b1| && |a2| == |b2|
    requires a1 + (sep + (a2 + (sep + a3))) == b1 + (sep + (b2 + (sep + b3)))
    ensures a1 == b1 && a2 == b2 && a3 == b3
  {
    ConcatCancel(a1, sep + (a2 + (sep + a3)), b1, sep + (b2 + (sep + b3)));
    ConcatCancel(sep, a2 + (sep + a3), sep, b2 + (sep + b3));
    ConcatCancel(a2, sep + a3, b2, sep + b3);
    ConcatCancel(sep, a3, sep, b3);
  }

  /** The string order the app sorts by is the calendar order on dates. */
  lemma FormatDateOrder(a: Date, b: Date)
    requires ValidDate(a) && ValidDate(b)
    ensures StrLess(FormatDate(a), FormatDate(b)) <==> DateLess(a, b)
  {
    assert Pow10(2) == 100 && Pow10(4) == 10000;
    FieldsLess(Digits(a.year, 4), Digits(a.month, 2), Digits(a.day, 2),
               Digits(b.year, 4), Digits(b.month, 2), Digits(b.day, 2), "-");
    DigitsLess(a.year, b.year, 4);
    DigitsLess(a.month, b.month, 2);
    DigitsLess(a.day, b.day, 2);
    DigitsInjective(a.year, b.year, 4);
    DigitsInjective(a.month, b.month, 2);
  }

  /** Distinct dates are written as distinct strings. */
  lemma FormatDateInjective(a: Date, b: Date)
    requires ValidDate(a) && ValidDate(b)
    ensures FormatDate(a) == FormatDate(b) <==> a == b
  {
    assert Pow10(2) == 100 && Pow10(4) == 10000;
    if FormatDate(a) == FormatDate(b) {
      FieldsEqual(Digits(a.year, 4), Digits(a.month, 2), Digits(a.day, 2),
                  Digits(b.year, 4), Digits(b.month, 2), Digits(b.day, 2), "-");
      DigitsInjective(a.year, b.year, 4);
      DigitsInjective(a.month, b.month, 2);
      DigitsInjective(a.day, b.day, 2);
    }
  }

  /** The string order the app sorts by is the clock order on times. */
  lemma FormatTimeOrder(a: Time, b: Time)
    requires ValidTime(a) && ValidTime(b)
    ensures StrLess(FormatTime(a), FormatTime(b)) <==> TimeLess(a, b)
  {
    assert Pow10(2) == 100;
    FieldsLess(Digits(a.hour, 2), Digits(a.minute, 2), Digits(a.second, 2),
               Digits(b.hour, 2), Digits(b.minute, 2), Digits(b.second, 2), ":");
    DigitsLess(a.hour, b.hour, 2);
    DigitsLess(a.minute, b.minute, 2);
    DigitsLess(a.second, b.second, 2);
    DigitsInjective(a.hour, b.hour, 2);
    DigitsInjective(a.minute, b.minute, 2);
  }

  /** Distinct times are written as distinct strings. */
  lemma FormatTimeInjective(a: Time, b: Time)
    requires ValidTime(a) && ValidTime(b)
    ensures FormatTime(a) == FormatTime(b) <==> a == b
  {
    assert Pow10(2) == 100;
    if FormatTime(a) == FormatTime(b) {
      FieldsEqual(Digits(a.hour, 2), Digits(a.minute, 2), Digits(a.second, 2),
                  Digits(b.hour, 2), Digits(b.minute, 2), Digits(b.second, 2), ":");
      DigitsInjective(a.hour, b.hour, 2);
      DigitsInjective(a.minute, b.minute, 2);
      DigitsInjective(a.second, b.second, 2);
    }
  }
}
