/**
 * Python's naive `datetime` at minute resolution, as the reminder scan uses it:
 * `datetime.strptime(s, "%Y-%m-%d %H:%M")`, the proleptic Gregorian ordinal
 * of `date.toordinal()`, and the range `datetime.min .. datetime.max`.
 *
 * A moment is an integer count of minutes since 0001-01-01 00:00.
 */
module DateTime {
  import opened Options
  import opened PyText

  /** `date(9999, 12, 31).toordinal()`. */
  const MaxOrdinal: int := 3652059
  const MinutesPerDay: int := 1440
  /** The minute of `datetime.max` (9999-12-31 23:59). */
  const MaxMinute: int := MaxOrdinal * MinutesPerDay - 1

  predicate IsLeap(y: int) {
    y % 4 == 0 && (y % 100 != 0 || y % 400 == 0)
  }

  function DaysInMonth(y: int, m: int): int
    requires 1 <= m <= 12
  {
    if m == 2 then (if IsLeap(y) then 29 else 28)
    else if m == 4 || m == 6 || m == 9 || m == 11 then 30
    else 31
  }

  function DaysInYear(y: int): int {
    if IsLeap(y) then 366 else 365
  }

  /** The dates `datetime` accepts: years 1 to 9999 and a day that exists in its month. */
  predicate ValidDate(y: int, m: int, d: int) {
    1 <= y <= 9999 && 1 <= m <= 12 && 1 <= d <= DaysInMonth(y, m)
  }

  /** Days in the years before `y`, counted from year 1. */
  function DaysBeforeYear(y: int): int
    requires y >= 1
  {
    var z := y - 1;
    z * 365 + z / 4 - z / 100 + z / 400
  }

  /** Days in the months of year `y` before month `m`. */
  function DaysBeforeMonth(y: int, m: int): int
    requires 1 <= m <= 12
  {
    [0, 31, 59, 90, 120, 151, 181, 212, 243, 273, 304, 334][m - 1]
      + (if m > 2 && IsLeap(y) then 1 else 0)
  }

  /** `date(y, m, d).toordinal()`: 0001-01-01 is day 1. */
  function Ordinal(y: int, m: int, d: int): int
    requires ValidDate(y, m, d)
  {
    DaysBeforeYear(y) + DaysBeforeMonth(y, m) + d
  }

  /** The moment of `datetime(y, m, d, hh, mm)`. */
  function MinuteOf(y: int, m: int, d: int, hh: int, mm: int): int
    requires ValidDate(y, m, d) && 0 <= hh < 24 && 0 <= mm < 60
  {
    ((Ordinal(y, m, d) - 1) * 24 + hh) * 60 + mm
  }

  // ---------------------------------------------------------------------
  // The calendar

  lemma DaysBeforeYearStep(y: int)
    requires y >= 1
    ensures DaysBeforeYear(y + 1) == DaysBeforeYear(y) + DaysInYear(y)
  {
    DivSucc4(y - 1);
    DivSucc100(y - 1);
    DivSucc400(y - 1);
  }

  lemma DivSucc4(z: int)
    ensures (z + 1) / 4 == z / 4 + (if (z + 1) % 4 == 0 then 1 else 0)
  {
  }

  lemma DivSucc100(z: int)
    ensures (z + 1) / 100 == z / 100 + (if (z + 1) % 100 == 0 then 1 else 0)
  {
  }

  lemma DivSucc400(z: int)
    ensures (z + 1) / 400 == z / 400 + (if (z + 1) % 400 == 0 then 1 else 0)
  {
  }

  lemma {:induction false} DaysBeforeYearGrows(a: int, b: int)
    requires 1 <= a <= b
    ensures DaysBeforeYear(a) + 365 * (b - a) <= DaysBeforeYear(b)
    decreases b - a
  {
    if a < b {
      DaysBeforeYearGrows(a, b - 1);
      DaysBeforeYearStep(b - 1);
    }
  }

  lemma MonthStep(y: int, m: int)
    requires 1 <= m < 12
    ensures DaysBeforeMonth(y, m + 1) == DaysBeforeMonth(y, m) + DaysInMonth(y, m)
  {
  }

  lemma YearIsItsMonths(y: int)
    ensures DaysBeforeMonth(y, 12) + DaysInMonth(y, 12) == DaysInYear(y)
  {
  }

  lemma DaysBeforeMonthBound(y: int, m: int)
    requires 1 <= m <= 12
    ensures DaysBeforeMonth(y, m) + DaysInMonth(y, m) <= DaysInYear(y)
  {
  }

  /** Every valid date has an ordinal in `1 .. MaxOrdinal`. */
  lemma OrdinalBounds(y: int, m: int, d: int)
    requires ValidDate(y, m, d)
    ensures 1 <= Ordinal(y, m, d) <= MaxOrdinal
  {
    DaysBeforeMonthBound(y, m);
    DaysBeforeYearStep(y);
    DaysBeforeYearGrows(y + 1, 10000);
    DaysBeforeYearGrows(1, y);
  }

  /** Every valid date and clock time has a moment in `0 .. MaxMinute`. */
  lemma MinuteOfBounds(y: int, m: int, d: int, hh: int, mm: int)
    requires ValidDate(y, m, d) && 0 <= hh < 24 && 0 <= mm < 60
    ensures 0 <= MinuteOf(y, m, d, hh, mm) <= MaxMinute
  {
    OrdinalBounds(y, m, d);
  }

  /** The calendar date after `(y, m, d)`. */
  function NextDay(y: int, m: int, d: int): (int, int, int)
    requires ValidDate(y, m, d)
  {
    if d < DaysInMonth(y, m) then (y, m, d + 1)
    else if m < 12 then (y, m + 1, 1)
    else (y + 1, 1, 1)
  }

  /** Consecutive calendar dates have consecutive ordinals. */
  lemma OrdinalNextDay(y: int, m: int, d: int)
    requires ValidDate(y, m, d) && (y, m, d) != (9999, 12, 31)
    ensures var (y', m', d') := NextDay(y, m, d);
      ValidDate(y', m', d') && Ordinal(y', m', d') == Ordinal(y, m, d) + 1
  {
    if d == DaysInMonth(y, m) {
      if m < 12 {
        MonthStep(y, m);
      } else {
        DaysBeforeYearStep(y);
        YearIsItsMonths(y);
      }
    }
  }

  // ---------------------------------------------------------------------
  // strptime(s, "%Y-%m-%d %H:%M")

  /** The end of the run of ASCII digits that starts at `i`. */
  function DigitRunEnd(s: string, i: nat): (j: nat)
    requires i <= |s|
    ensures i <= j <= |s|
    ensures j < |s| ==> !IsDigit(s[j])
    decreases |s| - i
  {
    if i < |s| && IsDigit(s[i]) then DigitRunEnd(s, i + 1) else i
  }

  lemma {:induction false} DigitRunIsDigits(s: string, i: nat)
    requires i <= |s|
    ensures forall k :: i <= k < DigitRunEnd(s, i) ==> IsDigit(s[k])
    decreases |s| - i
  {
    if i < |s| && IsDigit(s[i]) {
      DigitRunIsDigits(s, i + 1);
    }
  }

  /** The end of the run of whitespace that starts at `i`. */
  function SpaceRunEnd(s: string, i: nat): (j: nat)
    requires i <= |s|
    ensures i <= j <= |s|
    ensures j < |s| ==> !IsSpace(s[j])
    decreases |s| - i
  {
    if i < |s| && IsSpace(s[i]) then SpaceRunEnd(s, i + 1) else i
  }

  lemma {:induction false} SpaceRunIsSpaces(s: string, i: nat)
    requires i <= |s|
    ensures forall k :: i <= k < SpaceRunEnd(s, i) ==> IsSpace(s[k])
    decreases |s| - i
  {
    if i < |s| && IsSpace(s[i]) {
      SpaceRunIsSpaces(s, i + 1);
    }
  }

  predicate IsDigits(t: string) {
    forall k :: 0 <= k < |t| ==> IsDigit(t[k])
  }

  /** The value of one or two digits. */
  function SmallValue(t: string): int
    requires 1 <= |t| <= 2 && IsDigits(t)
  {
    if |t| == 1 then DigitValue(t[0]) else 10 * DigitValue(t[0]) + DigitValue(t[1])
  }

  /** The text `%m` matches: `1[0-2]|0[1-9]|[1-9]`. */
  predicate IsMonthField(t: string) {
    || (|t| == 1 && '1' <= t[0] <= '9')
    || (|t| == 2 && ((t[0] == '1' && '0' <= t[1] <= '2') || (t[0] == '0' && '1' <= t[1] <= '9')))
  }

  /** The digit forms `%d` matches: `3[01]|[12]\d|0[1-9]|[1-9]`. */
  predicate IsDayDigits(t: string) {
    || (|t| == 1 && '1' <= t[0] <= '9')
    || (|t| == 2 && (|| (t[0] == '3' && '0' <= t[1] <= '1')
                     || ('1' <= t[0] <= '2' && IsDigit(t[1]))
                     || (t[0] == '0' && '1' <= t[1] <= '9')))
  }

  /** The text `%H` matches: `2[0-3]|[01]\d|\d`. */
  predicate IsHourField(t: string) {
    || (|t| == 1 && IsDigit(t[0]))
    || (|t| == 2 && ((t[0] == '2' && '0' <= t[1] <= '3') || ('0' <= t[0] <= '1' && IsDigit(t[1]))))
  }

  /** The text `%M` matches: `[0-5]\d|\d`. */
  predicate IsMinuteField(t: string) {
    || (|t| == 1 && IsDigit(t[0]))
    || (|t| == 2 && '0' <= t[0] <= '5' && IsDigit(t[1]))
  }

  function MonthValue(t: string): (r: Option<int>)
    ensures r.Some? ==> 1 <= r.value <= 12
  {
    if IsMonthField(t) then Some(SmallValue(t)) else None
  }

  /** `%d`: the digit forms, or a space and one digit; `int()` ignores the space. */
  function DayValue(t: string): (r: Option<int>)
    ensures r.Some? ==> 1 <= r.value <= 31
  {
    if |t| == 2 && t[0] == ' ' && '1' <= t[1] <= '9' then Some(DigitValue(t[1]))
    else if IsDayDigits(t) then Some(SmallValue(t))
    else None
  }

  function HourValue(t: string): (r: Option<int>)
    ensures r.Some? ==> 0 <= r.value < 24
  {
    if IsHourField(t) then Some(SmallValue(t)) else None
  }

  function MinuteValue(t: string): (r: Option<int>)
    ensures r.Some? ==> 0 <= r.value < 60
  {
    if IsMinuteField(t) then Some(SmallValue(t)) else None
  }

  /** The fields read from a timestamp, before the calendar check. */
  datatype Stamp = Stamp(year: int, month: int, day: int, hour: int, minute: int)

  predicate InRange(st: Stamp) {
    && 0 <= st.year <= 9999 && 1 <= st.month <= 12 && 1 <= st.day <= 31
    && 0 <= st.hour < 24 && 0 <= st.minute < 60
  }

  /** Where the `%d` field that starts at `p` ends. */
  function DayEnd(s: string, p: nat): (q: nat)
    requires p <= |s|
    ensures p <= q <= |s|
  {
    if p < |s| && s[p] == ' ' then (if p + 2 <= |s| then p + 2 else |s|) else DigitRunEnd(s, p)
  }

  /**
   * The match of the whole of `s` against the regular expression `strptime`
   * builds for "%Y-%m-%d %H:%M": `%Y` is four digits, the space of the format
   * stands for one or more whitespace characters, and each other field ends
   * where a non-digit must follow, so it is the whole run of digits there.
   */
  function MatchStamp(s: string): (r: Option<Stamp>)
    ensures r.Some? ==> InRange(r.value)
  {
    if |s| <= 4 || DigitRunEnd(s, 0) != 4 || s[4] != '-' then None
    else
      var j := DigitRunEnd(s, 5);
      if j == |s| || s[j] != '-' then None
      else
        var q := DayEnd(s, j + 1);
        var w := SpaceRunEnd(s, q);
        var h := DigitRunEnd(s, w);
        if w == q || h == |s| || s[h] != ':' then None
        else
          match (MonthValue(s[5..j]), DayValue(s[j + 1..q]), HourValue(s[w..h]), MinuteValue(s[h + 1..]))
          case (Some(month), Some(day), Some(hour), Some(minute)) =>
            DigitRunIsDigits(s, 0);
            var year := 1000 * DigitValue(s[0]) + 100 * DigitValue(s[1]) + 10 * DigitValue(s[2]) + DigitValue(s[3]);
            Some(Stamp(year, month, day, hour, minute))
          case _ => None
  }

  /**
   * `datetime.strptime(f"{fecha} {hora}", "%Y-%m-%d %H:%M")` as a moment;
   * `None` where it raises `ValueError` (no match, year 0, or a day the
   * month does not have).
   */
  function ParseMoment(fecha: string, hora: string): (r: Option<int>)
    ensures r.Some? ==> 0 <= r.value <= MaxMinute
  {
    match MatchStamp(fecha + " " + hora)
    case None => None
    case Some(st) =>
      if ValidDate(st.year, st.month, st.day) then
        MinuteOfBounds(st.year, st.month, st.day, st.hour, st.minute);
        Some(MinuteOf(st.year, st.month, st.day, st.hour, st.minute))
      else None
  }

  // ---------------------------------------------------------------------
  // The canonical rendering reads back

  function Pad2(n: nat): (t: string)
    requires n < 100
    ensures |t| == 2 && IsDigits(t) && SmallValue(t) == n
  {
    [DigitChar(n / 10), DigitChar(n % 10)]
  }

  function Pad4(n: nat): (t: string)
    requires n < 10000
    ensures |t| == 4 && IsDigits(t)
  {
    var hi, lo := n / 100, n % 100;
    [DigitChar(hi / 10), DigitChar(hi % 10), DigitChar(lo / 10), DigitChar(lo % 10)]
  }

  /** `date.isoformat()`: YYYY-MM-DD. */
  function DateText(y: int, m: int, d: int): string
    requires ValidDate(y, m, d)
  {
    Pad4(y) + "-" + Pad2(m) + "-" + Pad2(d)
  }

  /** HH:MM. */
  function ClockText(hh: int, mm: int): string
    requires 0 <= hh < 24 && 0 <= mm < 60
  {
    Pad2(hh) + ":" + Pad2(mm)
  }

  /** The run of digits that starts at `i` ends at the first non-digit. */
  lemma {:induction false} DigitRunEndAt(s: string, i: nat, j: nat)
    requires i <= j <= |s|
    requires forall k :: i <= k < j ==> IsDigit(s[k])
    requires j < |s| ==> !IsDigit(s[j])
    ensures DigitRunEnd(s, i) == j
    decreases j - i
  {
    if i < j {
      DigitRunEndAt(s, i + 1, j);
    }
  }

  lemma FieldsOfPad(m: nat, d: nat, hh: nat, mm: nat)
    requires 1 <= m <= 12 && 1 <= d <= 31 && hh < 24 && mm < 60
    ensures IsMonthField(Pad2(m)) && IsDayDigits(Pad2(d))
    ensures IsHourField(Pad2(hh)) && IsMinuteField(Pad2(mm))
  {
  }

  /** The value `%Y` reads from four digits. */
  function YearValue(t: string): int
    requires |t| >= 4 && IsDigit(t[0]) && IsDigit(t[1]) && IsDigit(t[2]) && IsDigit(t[3])
  {
    1000 * DigitValue(t[0]) + 100 * DigitValue(t[1]) + 10 * DigitValue(t[2]) + DigitValue(t[3])
  }

  lemma YearOfPad4(y: nat)
    requires y < 10000
    ensures YearValue(Pad4(y)) == y
  {
    var hi, lo := y / 100, y % 100;
    var t := Pad4(y);
    assert t[0] == DigitChar(hi / 10) && t[1] == DigitChar(hi % 10);
    assert t[2] == DigitChar(lo / 10) && t[3] == DigitChar(lo % 10);
    assert YearValue(t) == 100 * (10 * (hi / 10) + hi % 10) + (10 * (lo / 10) + lo % 10);
  }

  /** `%d` written as two digits reads as their value. */
  lemma DayOfDigits(t: string)
    requires |t| == 2 && IsDigits(t) && IsDayDigits(t)
    ensures DayValue(t) == Some(SmallValue(t))
  {
    assert IsDigit(t[0]);
  }

  /** Where the fields of YYYY-MM-DD HH:MM end. */
  lemma LayoutCuts(s: string)
    requires |s| == 16 && s[4] == '-' && s[7] == '-' && s[10] == ' ' && s[13] == ':'
    requires forall k :: 0 <= k < 4 ==> IsDigit(s[k])
    requires IsDigit(s[5]) && IsDigit(s[6]) && IsDigit(s[8]) && IsDigit(s[9]) && IsDigit(s[11]) && IsDigit(s[12])
    ensures DigitRunEnd(s, 0) == 4 && DigitRunEnd(s, 5) == 7 && DayEnd(s, 8) == 10
    ensures SpaceRunEnd(s, 10) == 11 && DigitRunEnd(s, 11) == 13
  {
    DigitRunEndAt(s, 0, 4);
    DigitRunEndAt(s, 5, 7);
    DigitRunEndAt(s, 8, 10);
    DigitRunEndAt(s, 11, 13);
    assert IsSpace(s[10]) && !IsSpace(s[11]);
  }

  /** The layout YYYY-MM-DD HH:MM with its fields in range matches field by field. */
  lemma MatchLayout(s: string)
    requires |s| == 16 && IsDigits(s[0..4]) && s[4] == '-' && s[7] == '-' && s[10] == ' ' && s[13] == ':'
    requires IsDigits(s[5..7]) && IsDigits(s[8..10]) && IsDigits(s[11..13]) && IsDigits(s[14..])
    requires IsMonthField(s[5..7]) && IsDayDigits(s[8..10]) && IsHourField(s[11..13]) && IsMinuteField(s[14..])
    ensures MatchStamp(s) == Some(Stamp(YearValue(s), SmallValue(s[5..7]), SmallValue(s[8..10]),
                                        SmallValue(s[11..13]), SmallValue(s[14..])))
  {
    assert forall k :: 0 <= k < 4 ==> s[k] == s[0..4][k];
    assert s[5] == s[5..7][0] && s[6] == s[5..7][1] && s[8] == s[8..10][0] && s[9] == s[8..10][1];
    assert s[11] == s[11..13][0] && s[12] == s[11..13][1];
    LayoutCuts(s);
    DayOfDigits(s[8..10]);
    var fields := (MonthValue(s[5..7]), DayValue(s[8..10]), HourValue(s[11..13]), MinuteValue(s[14..]));
    assert fields == (Some(SmallValue(s[5..7])), Some(SmallValue(s[8..10])), Some(SmallValue(s[11..13])), Some(SmallValue(s[14..])));
  }

  /** Where the pieces of a YYYY-MM-DD HH:MM text sit. */
  lemma LayoutOfPieces(ys: string, ms: string, ds: string, hs: string, mins: string)
    requires |ys| == 4 && |ms| == 2 && |ds| == 2 && |hs| == 2 && |mins| == 2
    ensures var s := ys + "-" + ms + "-" + ds + " " + hs + ":" + mins;
      && |s| == 16 && s[4] == '-' && s[7] == '-' && s[10] == ' ' && s[13] == ':'
      && s[0..4] == ys && s[5..7] == ms && s[8..10] == ds && s[11..13] == hs && s[14..] == mins
  {
  }

  /** Zero-padded text of a valid date and time parses back to its own moment. */
  lemma ParseMomentCanonical(y: int, m: int, d: int, hh: int, mm: int)
    requires ValidDate(y, m, d) && 0 <= hh < 24 && 0 <= mm < 60
    ensures ParseMoment(DateText(y, m, d), ClockText(hh, mm)) == Some(MinuteOf(y, m, d, hh, mm))
  {
    var (ys, ms, ds, hs, mins) := (Pad4(y), Pad2(m), Pad2(d), Pad2(hh), Pad2(mm));
    var s := ys + "-" + ms + "-" + ds + " " + hs + ":" + mins;
    assert DateText(y, m, d) + " " + ClockText(hh, mm) == s;
    LayoutOfPieces(ys, ms, ds, hs, mins);
    FieldsOfPad(m, d, hh, mm);
    MatchLayout(s);
    YearOfPad4(y);
    assert YearValue(s) == YearValue(ys);
  }
}
