/** The calendar and the stored text in plain numbers: the Gregorian rule in closed form, the months'
    lengths, and what stands at each place of the text of an instant (RFC 3339, section 5.6). */
module TimeTexts {
  import opened Text
  import opened Times

  // ------------------------------------------------------------------ calendar

  lemma QuadStep(y: nat)
    ensures (y + 4) / 4 == (y + 3) / 4 + if y % 4 == 0 then 1 else 0
  {
  }

  lemma CenturyStep(y: nat)
    ensures (y + 100) / 100 == (y + 99) / 100 + if y % 100 == 0 then 1 else 0
    ensures y % 100 == 0 ==> y % 4 == 0
  {
    assert y == 100 * (y / 100) + y % 100;
    if y % 100 == 0 {
      assert y == 4 * (25 * (y / 100));
    }
  }

  lemma FourCenturyStep(y: nat)
    ensures (y + 400) / 400 == (y + 399) / 400 + if y % 400 == 0 then 1 else 0
    ensures y % 400 == 0 ==> y % 100 == 0
  {
    assert y == 400 * (y / 400) + y % 400;
    if y % 400 == 0 {
      assert y == 100 * (4 * (y / 400));
    }
  }

  /** A leap day every four years, except in the centuries that 400 does not divide. */
  lemma {:induction false} DaysBeforeIs(y: nat)
    ensures DaysBefore(y) == 365 * y + (y + 3) / 4 - (y + 99) / 100 + (y + 399) / 400
  {
    if y > 0 {
      DaysBeforeIs(y - 1);
      assert DaysBefore(y) == DaysBefore(y - 1) + 365 + if IsLeap(y - 1) then 1 else 0;
      QuadStep(y - 1);
      CenturyStep(y - 1);
      FourCenturyStep(y - 1);
    }
  }

  const LENGTHS: seq<nat> := [31, 28, 31, 30, 31, 30, 31, 31, 30, 31, 30, 31]
  const STARTS: seq<nat> := [0, 31, 59, 90, 120, 151, 181, 212, 243, 273, 304, 334]

  /** The months of a year; the leap day is the last of February. */
  lemma MonthsAre(year: nat, month: nat)
    requires 1 <= month <= 12
    ensures var leap := DaysBefore(year + 1) - DaysBefore(year) - 365;
            && MonthDays(year, month) == LENGTHS[month - 1] + (if month == 2 then leap else 0)
            && MonthStart(year, month) == STARTS[month - 1] + (if month > 2 then leap else 0)
  {
    assert MonthStart(year, 2) == 31;
    assert MonthStart(year, 3) == 31 + MonthDays(year, 2);
    assert MonthStart(year, 5) == MonthStart(year, 3) + 61;
    assert MonthStart(year, 7) == MonthStart(year, 5) + 61;
    assert MonthStart(year, 9) == MonthStart(year, 7) + 62;
    assert MonthStart(year, 11) == MonthStart(year, 9) + 61;
  }

  /** The nanoseconds from the start of year 0 to a calendar time. */
  lemma InstantIs(c: Civil)
    requires ValidCivil(c)
    ensures
      var leap := DaysBefore(c.year + 1) - DaysBefore(c.year) - 365;
      var day := 365 * c.year + (c.year + 3) / 4 - (c.year + 99) / 100 + (c.year + 399) / 400
                 + STARTS[c.month - 1] + (if c.month > 2 then leap else 0) + c.day - 1;
      Instant(c) == (((day * 24 + c.hour) * 60 + c.minute) * 60 + c.second) * 1_000_000_000 + c.nano
  {
    DaysBeforeIs(c.year);
    MonthsAre(c.year, c.month);
  }

  // ---------------------------------------------------------------------- text

  /** The text at a place of the layout: the digits of one number and the character behind it. */
  predicate Stands(s: string, start: nat, width: nat, n: nat, behind: char) {
    && start + width < |s|
    && AllDigits(s[start..start + width]) && Value(s[start..start + width]) == n
    && s[start + width] == behind
  }

  lemma Sliced(s: string, start: nat, d: string, behind: char, rest: string)
    requires start <= |s| && s[start..] == d + ([behind] + rest)
    ensures start + |d| < |s| && s[start..start + |d|] == d && s[start + |d|] == behind
    ensures s[start + |d| + 1..] == rest
  {
    var t := s[start..];
    assert |t| == |d| + 1 + |rest|;
    assert t[..|d|] == d && t[|d|] == behind && t[|d| + 1..] == rest;
    assert t[|d| + 1..] == s[start + |d| + 1..];
  }

  lemma DigitsStand(s: string, start: nat, n: nat, w: nat, behind: char, rest: string)
    requires start <= |s| && n < Pow10(w) && s[start..] == Digits(n, w) + ([behind] + rest)
    ensures Stands(s, start, w, n, behind) && s[start + w + 1..] == rest
  {
    DigitsValue(n, w);
    Sliced(s, start, Digits(n, w), behind, rest);
  }

  lemma FieldStands(s: string, start: nat, v: seq<nat>, i: nat, w: nat, behind: char)
    requires Times.Fits(v) && i < 7 && start <= |s| && s[start..] == FormatFields(v, i)
    requires w == WIDTHS[i] && behind == SEPARATORS[i]
    ensures Stands(s, start, w, v[i], behind)
    ensures s[start + w + 1..] == FormatFields(v, i + 1)
  {
    FieldShape(v, i);
    var n, rest := v[i], FormatFields(v, i + 1);
    DigitsStand(s, start, n, w, behind, rest);
  }

  lemma MonthStands(s: string, v: seq<nat>)
    requires Times.Fits(v) && s == FormatFields(v, 0)
    ensures Stands(s, 0, 4, v[0], '-') && Stands(s, 5, 2, v[1], '-')
    ensures |s| > 7 && s[8..] == FormatFields(v, 2)
  {
    FieldStands(s, 0, v, 0, 4, '-');
    FieldStands(s, 5, v, 1, 2, '-');
  }

  lemma HourStands(s: string, v: seq<nat>)
    requires Times.Fits(v) && |s| > 7 && s[8..] == FormatFields(v, 2)
    ensures Stands(s, 8, 2, v[2], 'T') && Stands(s, 11, 2, v[3], ':')
    ensures |s| > 13 && s[14..] == FormatFields(v, 4)
  {
    FieldStands(s, 8, v, 2, 2, 'T');
    FieldStands(s, 11, v, 3, 2, ':');
  }

  lemma SecondStands(s: string, v: seq<nat>)
    requires Times.Fits(v) && |s| > 13 && s[14..] == FormatFields(v, 4)
    ensures Stands(s, 14, 2, v[4], ':') && Stands(s, 17, 2, v[5], '.')
    ensures |s| > 19 && s[20..] == FormatFields(v, 6)
  {
    FieldStands(s, 14, v, 4, 2, ':');
    FieldStands(s, 17, v, 5, 2, '.');
  }

  lemma NanoStands(s: string, v: seq<nat>)
    requires Times.Fits(v) && |s| > 19 && s[20..] == FormatFields(v, 6)
    ensures Stands(s, 20, 9, v[6], 'Z') && |s| == 30
  {
    FieldStands(s, 20, v, 6, 9, 'Z');
    assert s[30..] == "";
  }

  /** The stored text of an instant of the years 0000 to 9999, place by place. */
  lemma FormatIs(t: nat)
    requires CivilOf(t).year <= 9_999
    ensures
      var c, s := CivilOf(t), FormatTime(t);
      && |s| == 30
      && Stands(s, 0, 4, c.year, '-') && Stands(s, 5, 2, c.month, '-') && Stands(s, 8, 2, c.day, 'T')
      && Stands(s, 11, 2, c.hour, ':') && Stands(s, 14, 2, c.minute, ':') && Stands(s, 17, 2, c.second, '.')
      && Stands(s, 20, 9, c.nano, 'Z')
  {
    CivilOfIs(t);
    CivilFits(CivilOf(t));
    var s, v := FormatTime(t), Fields(CivilOf(t));
    MonthStands(s, v);
    HourStands(s, v);
    SecondStands(s, v);
    NanoStands(s, v);
  }
}
