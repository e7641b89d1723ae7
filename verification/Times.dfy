/** Stored times: the fixed-width UTC text of an instant (RFC 3339, section 5.6) is compared as text
    by SQL, so its order must be the order of the instants (section 5.1).  An instant is a number of
    nanoseconds since the start of year 0. */
module Times {
  import opened Results
  import opened Text

  datatype Civil = Civil(year: nat, month: nat, day: nat, hour: nat, minute: nat, second: nat, nano: nat)

  const NANOS_PER_SECOND := 1_000_000_000
  const NANOS_PER_DAY := 86_400 * NANOS_PER_SECOND

  // ---------------------------------------------------------------- calendar

  predicate IsLeap(year: nat) {
    year % 4 == 0 && (year % 100 != 0 || year % 400 == 0)
  }

  function YearDays(year: nat): nat {
    if IsLeap(year) then 366 else 365
  }

  function MonthDays(year: nat, month: nat): nat {
    if month == 2 then if IsLeap(year) then 29 else 28
    else if month == 4 || month == 6 || month == 9 || month == 11 then 30
    else 31
  }

  function DaysBefore(year: nat): nat {
    if year == 0 then 0 else DaysBefore(year - 1) + YearDays(year - 1)
  }

  /** Days of the year before the first of the month. */
  function MonthStart(year: nat, month: nat): nat {
    if month <= 1 then 0 else MonthStart(year, month - 1) + MonthDays(year, month - 1)
  }

  predicate ValidCivil(c: Civil) {
    && 1 <= c.month <= 12 && 1 <= c.day <= MonthDays(c.year, c.month)
    && c.hour < 24 && c.minute < 60 && c.second < 60 && c.nano < NANOS_PER_SECOND
  }

  function DayNumber(c: Civil): int {
    DaysBefore(c.year) + MonthStart(c.year, c.month) + c.day - 1
  }

  function NanoOfDay(c: Civil): nat {
    ((c.hour * 60 + c.minute) * 60 + c.second) * NANOS_PER_SECOND + c.nano
  }

  function Instant(c: Civil): int {
    DayNumber(c) * NANOS_PER_DAY + NanoOfDay(c)
  }

  // ----------------------------------------------------- from instant to civil

  lemma {:induction false} YearsGrow(m: nat, n: nat)
    requires m <= n
    ensures DaysBefore(m) + 365 * (n - m) <= DaysBefore(n)
  {
    if m < n {
      YearsGrow(m, n - 1);
    }
  }

  lemma {:induction false} MonthsGrow(year: nat, m: nat, n: nat)
    requires 1 <= m < n
    ensures MonthStart(year, m) + MonthDays(year, m) <= MonthStart(year, n)
  {
    if m < n - 1 {
      MonthsGrow(year, m, n - 1);
    }
  }

  lemma TwelveMonths(year: nat)
    ensures MonthStart(year, 13) == YearDays(year)
  {
    assert MonthStart(year, 2) == 31;
    assert MonthStart(year, 5) == MonthStart(year, 3) + 61;
    assert MonthStart(year, 7) == MonthStart(year, 5) + 61;
    assert MonthStart(year, 9) == MonthStart(year, 7) + 62;
    assert MonthStart(year, 11) == MonthStart(year, 9) + 61;
    assert MonthStart(year, 13) == MonthStart(year, 11) + 61;
  }

  function YearOf(day: nat, y: nat): (year: nat)
    requires DaysBefore(y) <= day
    ensures DaysBefore(year) <= day < DaysBefore(year + 1)
    decreases day - DaysBefore(y)
  {
    if day < DaysBefore(y + 1) then y else YearOf(day, y + 1)
  }

  function MonthOf(year: nat, rest: nat, m: nat): (month: nat)
    requires 1 <= m <= 12 && MonthStart(year, m) <= rest < MonthStart(year, 13)
    ensures 1 <= month <= 12 && MonthStart(year, month) <= rest < MonthStart(year, month + 1)
    decreases 12 - m
  {
    if rest < MonthStart(year, m + 1) then m else MonthOf(year, rest, m + 1)
  }

  /** The UTC calendar time of an instant. */
  function CivilOf(t: nat): Civil {
    var day, nano := t / NANOS_PER_DAY, t % NANOS_PER_DAY;
    var year := YearOf(day, 0);
    TwelveMonths(year);
    var rest := day - DaysBefore(year);
    var month := MonthOf(year, rest, 1);
    var second := nano / NANOS_PER_SECOND;
    Civil(year, month, rest - MonthStart(year, month) + 1,
          second / 3600, second / 60 % 60, second % 60, nano % NANOS_PER_SECOND)
  }

  lemma CivilOfIs(t: nat)
    ensures ValidCivil(CivilOf(t)) && Instant(CivilOf(t)) == t
  {
    var c := CivilOf(t);
    var day, nano := t / NANOS_PER_DAY, t % NANOS_PER_DAY;
    TwelveMonths(c.year);
    assert DayNumber(c) == day;
    var second := nano / NANOS_PER_SECOND;
    assert second < 86_400;
    ClockIs(second);
    assert NanoOfDay(c) == nano;
    assert c.day <= MonthDays(c.year, c.month);
  }

  lemma ClockIs(second: nat)
    requires second < 86_400
    ensures second / 3600 < 24 && (second / 3600 * 60 + second / 60 % 60) * 60 + second % 60 == second
  {
    var minute := second / 60;
    assert minute == second / 3600 * 60 + minute % 60;
  }

  // ------------------------------------------------------------------- text

  const WIDTHS: seq<nat> := [4, 2, 2, 2, 2, 2, 9]
  const SEPARATORS := "--T::.Z"

  function Fields(c: Civil): seq<nat> {
    [c.year, c.month, c.day, c.hour, c.minute, c.second, c.nano]
  }

  function FormatFields(v: seq<nat>, i: nat): string
    requires |v| == 7 && i <= 7
    decreases 7 - i
  {
    if i == 7 then "" else Padded(v[i], WIDTHS[i]) + [SEPARATORS[i]] + FormatFields(v, i + 1)
  }

  /** 2006-01-02T15:04:05.000000000Z */
  function Format(c: Civil): string {
    FormatFields(Fields(c), 0)
  }

  function FormatTime(t: nat): string {
    Format(CivilOf(t))
  }

  predicate AllDigits(s: string) {
    forall i | 0 <= i < |s| :: '0' <= s[i] <= '9'
  }

  function ParseFields(s: string, i: nat): Option<seq<nat>>
    requires i <= 7
    decreases 7 - i
  {
    if i == 7 then if s == "" then Some([]) else None
    else
      var w := WIDTHS[i];
      if |s| <= w || !AllDigits(s[..w]) || s[w] != SEPARATORS[i] || Value(s[..w]) < 0 then None
      else
        match ParseFields(s[w + 1..], i + 1)
        case None => None
        case Some(rest) => Some([Value(s[..w]) as nat] + rest)
  }

  function ParseTime(s: string): Option<int> {
    match ParseFields(s, 0)
    case None => None
    case Some(v) =>
      if |v| != 7 then None
      else
        var c := Civil(v[0], v[1], v[2], v[3], v[4], v[5], v[6]);
        if ValidCivil(c) then Some(Instant(c)) else None
  }

  // ----------------------------------------------------- fixed width numbers

  function Pow10(w: nat): nat {
    if w == 0 then 1 else 10 * Pow10(w - 1)
  }

  /** The last w digits of n. */
  function Digits(n: nat, w: nat): (s: string)
    ensures |s| == w && AllDigits(s)
  {
    if w == 0 then "" else Digits(n / 10, w - 1) + [Digit(n % 10)]
  }

  lemma {:induction false} DigitsValue(n: nat, w: nat)
    requires n < Pow10(w)
    ensures Value(Digits(n, w)) == n
  {
    if w > 0 {
      DigitsValue(n / 10, w - 1);
      assert Digits(n, w)[..w - 1] == Digits(n / 10, w - 1);
    }
  }

  lemma {:induction false} ZeroDigits(w: nat)
    ensures Digits(0, w) == Zeros(w)
  {
    if w > 0 {
      ZeroDigits(w - 1);
    }
  }

  lemma {:induction false} DecDigits(n: nat, w: nat)
    requires n < Pow10(w) && w > 0
    ensures |Dec(n)| <= w && Zeros(w - |Dec(n)|) + Dec(n) == Digits(n, w)
  {
    if n < 10 {
      ZeroDigits(w - 1);
    } else {
      DecDigits(n / 10, w - 1);
      assert Zeros(w - |Dec(n)|) + (Dec(n / 10) + [Digit(n % 10)]) == Zeros(w - |Dec(n)|) + Dec(n / 10) + [Digit(n % 10)];
    }
  }

  lemma PaddedIsDigits(n: nat, w: nat)
    requires n < Pow10(w) && w > 0
    ensures Padded(n, w) == Digits(n, w)
  {
    DecDigits(n, w);
    if |Dec(n)| == w {
      assert Zeros(0) + Dec(n) == Dec(n);
    }
  }

  lemma StrLeCons(c: char, x: string, d: char, y: string)
    ensures StrLe([c] + x, [d] + y) <==> c < d || (c == d && StrLe(x, y))
  {
    assert ([c] + x)[1..] == x && ([d] + y)[1..] == y;
  }

  /** Numbers of one width come first as text exactly when they are smaller. */
  lemma {:induction false} DigitsOrder(m: nat, n: nat, w: nat, x: string, y: string)
    requires m < Pow10(w) && n < Pow10(w)
    ensures StrLe(Digits(m, w) + x, Digits(n, w) + y) <==> m < n || (m == n && StrLe(x, y))
  {
    if w == 0 {
      assert "" + x == x && "" + y == y;
    } else {
      var c, d := Digit(m % 10), Digit(n % 10);
      assert Digits(m, w) + x == Digits(m / 10, w - 1) + ([c] + x);
      assert Digits(n, w) + y == Digits(n / 10, w - 1) + ([d] + y);
      DigitsOrder(m / 10, n / 10, w - 1, [c] + x, [d] + y);
      StrLeCons(c, x, d, y);
    }
  }

  // ------------------------------------------------------------ order of fields

  predicate Fits(v: seq<nat>) {
    |v| == 7 && forall i | 0 <= i < 7 :: v[i] < Pow10(WIDTHS[i])
  }

  predicate LexLe(u: seq<nat>, v: seq<nat>, i: nat)
    requires |u| == 7 && |v| == 7 && i <= 7
    decreases 7 - i
  {
    i == 7 || u[i] < v[i] || (u[i] == v[i] && LexLe(u, v, i + 1))
  }

  lemma FieldShape(v: seq<nat>, i: nat)
    requires Fits(v) && i < 7
    ensures FormatFields(v, i) == Digits(v[i], WIDTHS[i]) + ([SEPARATORS[i]] + FormatFields(v, i + 1))
  {
    PaddedIsDigits(v[i], WIDTHS[i]);
  }

  lemma FieldOrder(m: nat, n: nat, w: nat, sep: char, x: string, y: string)
    requires m < Pow10(w) && n < Pow10(w)
    ensures StrLe(Digits(m, w) + ([sep] + x), Digits(n, w) + ([sep] + y)) <==> m < n || (m == n && StrLe(x, y))
  {
    DigitsOrder(m, n, w, [sep] + x, [sep] + y);
    StrLeCons(sep, x, sep, y);
  }

  lemma {:induction false} FieldsOrder(u: seq<nat>, v: seq<nat>, i: nat)
    requires Fits(u) && Fits(v) && i <= 7
    ensures StrLe(FormatFields(u, i), FormatFields(v, i)) <==> LexLe(u, v, i)
    decreases 7 - i
  {
    if i < 7 {
      FieldsOrder(u, v, i + 1);
      FieldShape(u, i);
      FieldShape(v, i);
      FieldOrder(u[i], v[i], WIDTHS[i], SEPARATORS[i], FormatFields(u, i + 1), FormatFields(v, i + 1));
    }
  }

  lemma FieldParses(n: nat, w: nat, sep: char, rest: string)
    requires n < Pow10(w)
    ensures
      var s := Digits(n, w) + ([sep] + rest);
      |s| > w && AllDigits(s[..w]) && Value(s[..w]) == n && s[w] == sep && s[w + 1..] == rest
  {
    DigitsValue(n, w);
    var s := Digits(n, w) + ([sep] + rest);
    assert s[..w] == Digits(n, w);
  }

  lemma {:induction false} FieldsParse(v: seq<nat>, i: nat)
    requires Fits(v) && i <= 7
    ensures ParseFields(FormatFields(v, i), i) == Some(v[i..])
    decreases 7 - i
  {
    if i < 7 {
      FieldsParse(v, i + 1);
      FieldShape(v, i);
      FieldParses(v[i], WIDTHS[i], SEPARATORS[i], FormatFields(v, i + 1));
      assert v[i..] == [v[i]] + v[i + 1..];
    }
  }

  // --------------------------------------------------------- order of instants

  lemma CivilFits(c: Civil)
    requires ValidCivil(c) && c.year < 10_000
    ensures Fits(Fields(c))
  {
    assert Pow10(2) == 100 && Pow10(4) == 100 * Pow10(2);
    assert Pow10(6) == 100 * Pow10(4) && Pow10(8) == 100 * Pow10(6) && Pow10(9) == 10 * Pow10(8);
    assert MonthDays(c.year, c.month) <= 31;
  }

  lemma DayOrder(a: Civil, b: Civil)
    requires ValidCivil(a) && ValidCivil(b)
    requires EarlierDay(a, b)
    ensures DayNumber(a) < DayNumber(b)
  {
    if a.year < b.year {
      TwelveMonths(a.year);
      MonthsGrow(a.year, a.month, 13);
      YearsGrow(a.year + 1, b.year);
    } else if a.month < b.month {
      MonthsGrow(a.year, a.month, b.month);
    }
  }

  lemma NanoOfDayBound(c: Civil)
    requires ValidCivil(c)
    ensures NanoOfDay(c) < NANOS_PER_DAY
  {
  }

  predicate ClockLe(a: Civil, b: Civil) {
    a.hour < b.hour || (a.hour == b.hour && (a.minute < b.minute || (a.minute == b.minute &&
      (a.second < b.second || (a.second == b.second && a.nano <= b.nano)))))
  }

  predicate EarlierDay(a: Civil, b: Civil) {
    a.year < b.year || (a.year == b.year && (a.month < b.month || (a.month == b.month && a.day < b.day)))
  }

  lemma ClockOrder(a: Civil, b: Civil)
    requires ValidCivil(a) && ValidCivil(b)
    ensures ClockLe(a, b) <==> NanoOfDay(a) <= NanoOfDay(b)
  {
    var s, t := (a.hour * 60 + a.minute) * 60 + a.second, (b.hour * 60 + b.minute) * 60 + b.second;
    assert s < t || (s == t && a.nano <= b.nano) <==> NanoOfDay(a) <= NanoOfDay(b);
  }

  lemma FieldsCompare(a: Civil, b: Civil)
    ensures LexLe(Fields(a), Fields(b), 0) <==>
            EarlierDay(a, b) || (a.year == b.year && a.month == b.month && a.day == b.day && ClockLe(a, b))
  {
    var u, v := Fields(a), Fields(b);
    assert LexLe(u, v, 5) <==> a.second < b.second || (a.second == b.second && a.nano <= b.nano);
    assert LexLe(u, v, 3) <==> ClockLe(a, b);
  }

  lemma InstantOrder(d: int, m: nat, e: int, n: nat)
    requires m < NANOS_PER_DAY && n < NANOS_PER_DAY
    ensures d * NANOS_PER_DAY + m <= e * NANOS_PER_DAY + n <==> d < e || (d == e && m <= n)
  {
  }

  /** Calendar times are ordered field by field as their instants are. */
  lemma CivilOrder(a: Civil, b: Civil)
    requires ValidCivil(a) && ValidCivil(b)
    ensures LexLe(Fields(a), Fields(b), 0) <==> Instant(a) <= Instant(b)
  {
    NanoOfDayBound(a);
    NanoOfDayBound(b);
    FieldsCompare(a, b);
    ClockOrder(a, b);
    InstantOrder(DayNumber(a), NanoOfDay(a), DayNumber(b), NanoOfDay(b));
    if EarlierDay(a, b) {
      DayOrder(a, b);
    } else if EarlierDay(b, a) {
      DayOrder(b, a);
    }
  }

  /** In years 0000 to 9999 stored times are ordered as text exactly as the instants are. */
  lemma TextOrderIsTimeOrder(s: nat, t: nat)
    requires CivilOf(s).year <= 9_999 && CivilOf(t).year <= 9_999
    ensures StrLe(FormatTime(s), FormatTime(t)) <==> s <= t
  {
    var a, b := CivilOf(s), CivilOf(t);
    CivilOfIs(s);
    CivilOfIs(t);
    CivilFits(a);
    CivilFits(b);
    FieldsOrder(Fields(a), Fields(b), 0);
    CivilOrder(a, b);
  }

  /** Reading a stored time gives back the instant. */
  lemma ParseUndoesFormat(t: nat)
    requires CivilOf(t).year <= 9_999
    ensures ParseTime(FormatTime(t)) == Some(t)
  {
    var c := CivilOf(t);
    CivilOfIs(t);
    CivilFits(c);
    FieldsParse(Fields(c), 0);
    assert Fields(c)[0..] == Fields(c);
  }

  /** Every instant of year 10000 is later than those of year 9999 but comes before them as text. */
  lemma YearTenThousandMisplaced(a: Civil, b: Civil)
    requires ValidCivil(a) && ValidCivil(b) && a.year == 9_999 && b.year == 10_000
    ensures Instant(a) < Instant(b) && StrLe(Format(b), Format(a)) && !StrLe(Format(a), Format(b))
  {
    NanoOfDayBound(a);
    NanoOfDayBound(b);
    DayOrder(a, b);
    InstantOrder(DayNumber(b), NanoOfDay(b), DayNumber(a), NanoOfDay(a));
    SomeYears();
    assert Format(a)[0] == '9' && Format(b)[0] == '1';
  }

  lemma SomeYears()
    ensures Padded(9_999, 4)[0] == '9' && Padded(10_000, 4)[0] == '1'
  {
    assert Dec(9) == "9" && Dec(99) == Dec(9) + "9" && Dec(999) == Dec(99) + "9" && Dec(9_999) == Dec(999) + "9";
    assert Dec(1) == "1" && Dec(10) == Dec(1) + "0" && Dec(100) == Dec(10) + "0";
    assert Dec(1_000) == Dec(100) + "0" && Dec(10_000) == Dec(1_000) + "0";
  }
}
