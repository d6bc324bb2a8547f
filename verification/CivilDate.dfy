/** UTC date text computed from a Unix millisecond time, against a plain
    year-by-year and month-by-month Gregorian count. */
module CivilDate {
  import Arithmetic

  const MAX_MS: nat := 0xFFFF_FFFF_FFFF_FFFF

  // ------------------------------------------------- the plain calendar

  datatype Date = Date(year: nat, month: nat, day: nat)

  predicate IsLeap(year: nat) {
    year % 4 == 0 && (year % 100 != 0 || year % 400 == 0)
  }

  /** Appendix C of RFC 3339. */
  function DaysInYear(year: nat): nat {
    if IsLeap(year) then 366 else 365
  }

  /** Section 5.7 of RFC 3339. */
  function DaysInMonth(year: nat, month: nat): nat {
    if month == 2 then (if IsLeap(year) then 29 else 28)
    else if month == 4 || month == 6 || month == 9 || month == 11 then 30
    else 31
  }

  predicate IsDate(d: Date) {
    && d.year >= 1970
    && 1 <= d.month <= 12
    && 1 <= d.day <= DaysInMonth(d.year, d.month)
  }

  /** Days from 1970-01-01 to the first day of `year`, one year at a time. */
  function DaysBeforeYear(year: nat): nat {
    if year <= 1970 then 0 else DaysBeforeYear(year - 1) + DaysInYear(year - 1)
  }

  /** Days from the first day of `year` to the first day of `month`, one month at a time. */
  function DaysBeforeMonth(year: nat, month: nat): nat {
    if month <= 1 then 0 else DaysBeforeMonth(year, month - 1) + DaysInMonth(year, month - 1)
  }

  function DayNumber(d: Date): nat
    requires IsDate(d)
  {
    DaysBeforeYear(d.year) + DaysBeforeMonth(d.year, d.month) + (d.day - 1)
  }

  // ------------------------------------------------- the closed form

  function YearOfEra(dayOfEra: nat): (y: int)
    requires dayOfEra < 146097
  {
    (dayOfEra - dayOfEra / 1460 + dayOfEra / 36524 - dayOfEra / 146096) / 365
  }

  /** Days before year `y` of an era whose years start on 1 March. */
  function EraDays(y: nat): int {
    365 * y + y / 4 - y / 100
  }

  /** The date `days` days after 1970-01-01. Every subtraction of the source
      stays at or above zero: its intermediate values are typed `nat`. */
  function CivilFromDays(days: nat): (d: Date)
  {
    var z := days + 719468;
    var era := z / 146097;
    var dayOfEra := z % 146097;
    YearOfEraBounds(dayOfEra);
    var yearOfEra: nat := YearOfEra(dayOfEra);
    var dayOfYear: nat := dayOfEra - EraDays(yearOfEra);
    DateFromMarch(era, yearOfEra, dayOfYear)
  }

  /** Day `dayOfYear` of a year counted from 1 March. */
  function DateFromMarch(era: nat, yearOfEra: nat, dayOfYear: nat): (d: Date)
    requires dayOfYear <= 365
  {
    var shiftedMonth := (5 * dayOfYear + 2) / 153;
    var day: nat := dayOfYear - (153 * shiftedMonth + 2) / 5 + 1;
    var month: nat := if shiftedMonth < 10 then shiftedMonth + 3 else shiftedMonth - 9;
    var year := yearOfEra + era * 400 + (if month <= 2 then 1 else 0);
    Date(year, month, day)
  }

  /** Year `100 c + 4 q + k` of an era starts `36524 c + 1461 q + 365 k` days in. */
  lemma EraDaysOf(c: nat, q: nat, k: nat)
    requires q < 25 && k < 4
    ensures EraDays(100 * c + 4 * q + k) == 36524 * c + 1461 * q + 365 * k
  {
    assert (100 * c + 4 * q + k) / 4 == 25 * c + q;
    assert (100 * c + 4 * q + k) / 100 == c;
  }

  /** Centuries, four-year groups, years and days left, counted from 1 March. */
  lemma Split(doe: nat) returns (c: nat, q: nat, k: nat, r: nat)
    requires doe < 146097
    ensures c < 4 && q < 25 && k < 4 && r <= 365
    ensures doe == 36524 * c + 1461 * q + 365 * k + r
    ensures r == 365 ==> k == 3 && (q < 24 || c == 3)
  {
    c := if doe / 36524 == 4 then 3 else doe / 36524;
    var inCentury: nat := doe - 36524 * c;
    q := inCentury / 1461;
    var inGroup: nat := inCentury - 1461 * q;
    k := if inGroup / 365 == 4 then 3 else inGroup / 365;
    r := inGroup - 365 * k;
  }

  lemma YearOfEraIs(c: nat, q: nat, k: nat, r: nat)
    requires c < 4 && q < 25 && k < 4 && r <= 365
    requires r == 365 ==> k == 3 && (q < 24 || c == 3)
    ensures 36524 * c + 1461 * q + 365 * k + r < 146097
    ensures YearOfEra(36524 * c + 1461 * q + 365 * k + r) == 100 * c + 4 * q + k
  {
    var doe := 36524 * c + 1461 * q + 365 * k + r;
    var spill := 24 * c + q + 365 * k + r;
    var e := if spill < 1460 then 0 else 1;
    assert doe == 1460 * (25 * c + q) + spill;
    assert doe / 1460 == 25 * c + q + e;
    var lastDay := if doe == 146096 then 1 else 0;
    assert doe / 36524 == c + lastDay;
    assert doe / 146096 == lastDay;
    assert doe - doe / 1460 + doe / 36524 - doe / 146096 == 365 * (100 * c + 4 * q + k) + (r - e);
    assert 0 <= r - e < 365;
  }

  lemma YearOfEraBounds(doe: nat)
    requires doe < 146097
    ensures 0 <= YearOfEra(doe) <= 399
    ensures 0 <= doe - EraDays(YearOfEra(doe)) <= 365
  {
    var c, q, k, r := SplitYear(doe);
  }

  // ------------------------------------------------- agreement

  function LeapsThrough(year: nat): int {
    year / 4 - year / 100 + year / 400
  }

  lemma LeapStep(year: nat)
    ensures LeapsThrough(year + 1) - LeapsThrough(year) == (if IsLeap(year + 1) then 1 else 0)
  {
    QuotientStep(year, 4);
    QuotientStep(year, 100);
    QuotientStep(year, 400);
    CenturiesAreMultiplesOfFour(year + 1);
  }

  lemma CenturiesAreMultiplesOfFour(n: nat)
    ensures n % 400 == 0 ==> n % 100 == 0
    ensures n % 100 == 0 ==> n % 4 == 0
  {
    if n % 400 == 0 {
      assert n == 100 * (4 * (n / 400));
    }
    if n % 100 == 0 {
      assert n == 4 * (25 * (n / 100));
    }
  }

  lemma QuotientStep(n: nat, m: nat)
    requires m > 0
    ensures (n + 1) / m == n / m + (if (n + 1) % m == 0 then 1 else 0)
  {
    var q, r := n / m, n % m;
    assert n == q * m + r;
    if r + 1 == m {
      assert n + 1 == (q + 1) * m;
      Arithmetic.ModUnique(n + 1, m, q + 1, 0);
    } else {
      Arithmetic.ModUnique(n + 1, m, q, r + 1);
    }
  }

  lemma {:induction false} DaysBeforeYearClosed(year: nat)
    requires year >= 1970
    ensures DaysBeforeYear(year) == 365 * (year - 1970) + LeapsThrough(year - 1) - 477
    decreases year
  {
    if year > 1970 {
      DaysBeforeYearClosed(year - 1);
      LeapStep(year - 2);
    }
  }

  /** 1 March of year `400 era + y`, counted by the plain calendar, is where the
      closed form puts it. */
  lemma MarchFirst(era: nat, y: nat)
    requires y < 400 && 400 * era + y >= 1969
    ensures DaysBeforeYear(400 * era + y + 1) - 306 == 146097 * era + EraDays(y) - 719468
  {
    var year := 400 * era + y;
    DaysBeforeYearClosed(year + 1);
    assert year / 4 == 100 * era + y / 4;
    assert year / 100 == 4 * era + y / 100;
    assert year / 400 == era;
  }

  lemma MarchFirstInYear(year: nat)
    requires year >= 1970
    ensures DaysBeforeYear(year) + DaysBeforeMonth(year, 3) == DaysBeforeYear(year + 1) - 306
  {
    assert DaysBeforeMonth(year, 2) == 31;
    assert DaysBeforeYear(year + 1) == DaysBeforeYear(year) + DaysInYear(year);
  }

  /** Days from 1 March to the first day of the `m`-th month after it. */
  function MarchOffset(m: nat): nat {
    (153 * m + 2) / 5
  }

  lemma MonthsAfterMarch(year: nat, m: nat)
    requires m < 10
    ensures DaysBeforeMonth(year, m + 3) == DaysBeforeMonth(year, 3) + MarchOffset(m)
    ensures MarchOffset(m + 1) - MarchOffset(m) == DaysInMonth(year, m + 3)
  {
    var march := DaysBeforeMonth(year, 3);
    assert DaysBeforeMonth(year, 4) == march + 31;
    assert DaysBeforeMonth(year, 5) == march + 61;
    assert DaysBeforeMonth(year, 6) == march + 92;
    assert DaysBeforeMonth(year, 7) == march + 122;
    assert DaysBeforeMonth(year, 8) == march + 153;
    assert DaysBeforeMonth(year, 9) == march + 184;
    assert DaysBeforeMonth(year, 10) == march + 214;
    assert DaysBeforeMonth(year, 11) == march + 245;
    assert DaysBeforeMonth(year, 12) == march + 275;
  }

  /** The month that holds day `dayOfYear` of a March-based year. */
  lemma ShiftedMonth(dayOfYear: nat)
    requires dayOfYear <= 365
    ensures var m := (5 * dayOfYear + 2) / 153;
            m <= 11 && MarchOffset(m) <= dayOfYear < MarchOffset(m + 1)
  {
  }

  lemma MarchToDecember(year: nat, r: nat, m: nat)
    requires year >= 1970 && m < 10 && MarchOffset(m) <= r < MarchOffset(m + 1)
    ensures IsDate(Date(year, m + 3, r - MarchOffset(m) + 1))
    ensures DayNumber(Date(year, m + 3, r - MarchOffset(m) + 1)) == DaysBeforeYear(year + 1) - 306 + r
  {
    MarchFirstInYear(year);
    MonthsAfterMarch(year, m);
  }

  lemma JanuaryFebruary(year: nat, r: nat, m: nat)
    requires year >= 1970 && 10 <= m <= 11 && r <= 365 && MarchOffset(m) <= r < MarchOffset(m + 1)
    requires r == 365 ==> IsLeap(year)
    ensures IsDate(Date(year, m - 9, r - MarchOffset(m) + 1))
    ensures DayNumber(Date(year, m - 9, r - MarchOffset(m) + 1)) == DaysBeforeYear(year) - 306 + r
  {
    assert MarchOffset(10) == 306 && MarchOffset(11) == 337;
    assert DaysBeforeMonth(year, 1) == 0 && DaysBeforeMonth(year, 2) == 31;
  }

  lemma LeapAfter(era: nat, c: nat, q: nat)
    requires c < 4 && q < 25 && (q < 24 || c == 3)
    ensures IsLeap(400 * era + 100 * c + 4 * q + 4)
  {
    var year := 400 * era + 100 * c + 4 * q + 4;
    Arithmetic.ModUnique(year, 4, 100 * era + 25 * c + q + 1, 0);
    if q < 24 {
      Arithmetic.ModUnique(year, 100, 4 * era + c, 4 * q + 4);
    } else {
      Arithmetic.ModUnique(year, 400, era + 1, 0);
    }
  }

  /** The date of day `r` in March-based year `100 c + 4 q + k` of an era. */
  lemma DateInEra(era: nat, c: nat, q: nat, k: nat, r: nat)
    requires c < 4 && q < 25 && k < 4 && r <= 365
    requires r == 365 ==> k == 3 && (q < 24 || c == 3)
    requires 146097 * era + 36524 * c + 1461 * q + 365 * k + r >= 719468
    ensures var d := DateFromMarch(era, 100 * c + 4 * q + k, r);
            && IsDate(d)
            && DayNumber(d) == 146097 * era + 36524 * c + 1461 * q + 365 * k + r - 719468
  {
    var y := 100 * c + 4 * q + k;
    var year := 400 * era + y;
    var m := (5 * r + 2) / 153;
    EraStart(era, c, q, k, r);
    EraDaysOf(c, q, k);
    MarchFirst(era, y);
    ShiftedMonth(r);
    if m < 10 {
      assert m < 10 ==> r < 306 by { assert MarchOffset(10) == 306; MarchOffsetGrows(m + 1, 10); }
      MarchToDecember(year, r, m);
    } else {
      if r == 365 {
        LeapAfter(era, c, q);
      }
      JanuaryFebruary(year + 1, r, m);
    }
  }

  lemma MarchOffsetGrows(a: nat, b: nat)
    requires a <= b
    ensures MarchOffset(a) <= MarchOffset(b)
  {
  }

  /** A day at or after 1970-01-01 lies in March-based year 1969 or later, and
      in January or later within 1969. */
  lemma EraStart(era: nat, c: nat, q: nat, k: nat, r: nat)
    requires c < 4 && q < 25 && k < 4 && r <= 365
    requires 146097 * era + 36524 * c + 1461 * q + 365 * k + r >= 719468
    ensures 400 * era + 100 * c + 4 * q + k >= 1969
    ensures 400 * era + 100 * c + 4 * q + k == 1969 ==> r >= 306
  {
  }

  lemma CivilSplit(days: nat) returns (era: nat, c: nat, q: nat, k: nat, r: nat)
    ensures c < 4 && q < 25 && k < 4 && r <= 365
    ensures r == 365 ==> k == 3 && (q < 24 || c == 3)
    ensures days + 719468 == 146097 * era + 36524 * c + 1461 * q + 365 * k + r
    ensures CivilFromDays(days) == DateFromMarch(era, 100 * c + 4 * q + k, r)
  {
    var z := days + 719468;
    era := z / 146097;
    c, q, k, r := SplitYear(z % 146097);
    assert z == 146097 * era + z % 146097;
  }

  lemma SplitYear(doe: nat) returns (c: nat, q: nat, k: nat, r: nat)
    requires doe < 146097
    ensures c < 4 && q < 25 && k < 4 && r <= 365
    ensures r == 365 ==> k == 3 && (q < 24 || c == 3)
    ensures doe == 36524 * c + 1461 * q + 365 * k + r
    ensures YearOfEra(doe) == 100 * c + 4 * q + k
    ensures doe - EraDays(YearOfEra(doe)) == r
  {
    c, q, k, r := Split(doe);
    YearOfEraIs(c, q, k, r);
    EraDaysOf(c, q, k);
  }

  /** For every day count the closed form yields a valid Gregorian date, and
      counting years, months and days up to it gives the day count back. */
  lemma CivilFromDaysInvertsTheCount(days: nat)
    ensures IsDate(CivilFromDays(days))
    ensures DayNumber(CivilFromDays(days)) == days
  {
    var era, c, q, k, r := CivilSplit(days);
    DateInEra(era, c, q, k, r);
  }

  lemma {:induction false} MonthsGrow(year: nat, a: nat, b: nat)
    requires 1 <= a < b
    ensures DaysBeforeMonth(year, a) + DaysInMonth(year, a) <= DaysBeforeMonth(year, b)
    decreases b
  {
    if a < b - 1 {
      MonthsGrow(year, a, b - 1);
    }
  }

  lemma {:induction false} YearsGrow(a: nat, b: nat)
    requires 1970 <= a < b
    ensures DaysBeforeYear(a) + DaysInYear(a) <= DaysBeforeYear(b)
    decreases b
  {
    if a < b - 1 {
      YearsGrow(a, b - 1);
    }
  }

  lemma DayOfYearFits(d: Date)
    requires IsDate(d)
    ensures DaysBeforeMonth(d.year, d.month) + d.day <= DaysInYear(d.year)
  {
    MonthsGrow(d.year, d.month, 13);
    MarchFirstInYear(d.year);
    MonthsAfterMarch(d.year, 9);
    assert DaysBeforeMonth(d.year, 13) == DaysBeforeMonth(d.year, 12) + 31;
  }

  predicate Earlier(a: Date, b: Date) {
    || a.year < b.year
    || (a.year == b.year && a.month < b.month)
    || (a.year == b.year && a.month == b.month && a.day < b.day)
  }

  /** Counting days preserves and reflects the calendar order of dates, so a
      day count names at most one date. */
  lemma DayNumberIsOrder(a: Date, b: Date)
    requires IsDate(a) && IsDate(b)
    ensures Earlier(a, b) <==> DayNumber(a) < DayNumber(b)
    ensures a == b <==> DayNumber(a) == DayNumber(b)
  {
    if Earlier(a, b) {
      EarlierIsSmaller(a, b);
    } else if Earlier(b, a) {
      EarlierIsSmaller(b, a);
    }
  }

  lemma EarlierIsSmaller(a: Date, b: Date)
    requires IsDate(a) && IsDate(b) && Earlier(a, b)
    ensures DayNumber(a) < DayNumber(b)
  {
    DayOfYearFits(a);
    if a.year < b.year {
      YearsGrow(a.year, b.year);
    } else if a.month < b.month {
      MonthsGrow(a.year, a.month, b.month);
    }
  }

  // ------------------------------------------------- the text

  function Digit(n: nat): char
    requires n < 10
  {
    '0' + n as char
  }

  /** Decimal digits of `n`, zero-padded on the left to at least `width`. */
  function Padded(n: nat, width: nat): string
    decreases width, n
  {
    if width == 0 then (if n == 0 then "" else Padded(n / 10, 0) + [Digit(n % 10)])
    else Padded(n / 10, width - 1) + [Digit(n % 10)]
  }

  /** A time split into its date and its clock, in whole seconds. */
  datatype Stamp = Stamp(date: Date, hour: nat, minute: nat, second: nat)

  function StampOf(unixMs: nat): Stamp {
    var secs := unixMs / 1000;
    var days, time := secs / 86400, secs % 86400;
    Stamp(CivilFromDays(days), time / 3600, time % 3600 / 60, time % 60)
  }

  function DateText(d: Date): string {
    Padded(d.year, 4) + "-" + Padded(d.month, 2) + "-" + Padded(d.day, 2) + "T"
  }

  function TimeText(s: Stamp): string {
    Padded(s.hour, 2) + ":" + Padded(s.minute, 2) + ":" + Padded(s.second, 2) + "Z"
  }

  function Render(s: Stamp): string {
    DateText(s.date) + TimeText(s)
  }

  function Rfc3339UtcSeconds(unixMs: nat): string
    requires unixMs <= MAX_MS
  {
    Render(StampOf(unixMs))
  }

  /** Sections 5.6 and 5.7 of RFC 3339, without leap seconds. */
  predicate IsStamp(s: Stamp) {
    IsDate(s.date) && s.hour < 24 && s.minute < 60 && s.second < 60
  }

  function SecondsOf(s: Stamp): nat
    requires IsStamp(s)
  {
    DayNumber(s.date) * 86400 + s.hour * 3600 + s.minute * 60 + s.second
  }

  /** Whole seconds survive the split into date and clock. */
  lemma StampKeepsSeconds(unixMs: nat)
    ensures IsStamp(StampOf(unixMs))
    ensures SecondsOf(StampOf(unixMs)) == unixMs / 1000
  {
    var secs := unixMs / 1000;
    CivilFromDaysInvertsTheCount(secs / 86400);
    ClockKeepsSeconds(secs % 86400);
  }

  lemma ClockKeepsSeconds(time: nat)
    requires time < 86400
    ensures time / 3600 < 24 && time % 3600 / 60 < 60
    ensures time / 3600 * 3600 + time % 3600 / 60 * 60 + time % 60 == time
  {
  }

  function Pow10(w: nat): nat {
    if w == 0 then 1 else 10 * Pow10(w - 1)
  }

  lemma {:induction false} PaddedLength(n: nat, w: nat)
    ensures |Padded(n, w)| >= w
    ensures |Padded(n, w)| == w <==> n < Pow10(w)
    decreases w, n
  {
    if w > 0 {
      PaddedLength(n / 10, w - 1);
    } else if n > 0 {
      PaddedLength(n / 10, 0);
    }
  }

  /** The number a digit string stands for; anything else has no value. */
  function Value(text: string): int {
    if text == "" then 0
    else
      var c := text[|text| - 1];
      var front := Value(text[..|text| - 1]);
      if '0' <= c <= '9' && front >= 0 then 10 * front + (c as int - '0' as int) else -1
  }

  lemma {:induction false} ValueOfPadded(n: nat, w: nat)
    ensures Value(Padded(n, w)) == n
    decreases w, n
  {
    if w > 0 || n > 0 {
      var front := Padded(n / 10, if w == 0 then 0 else w - 1);
      ValueOfPadded(n / 10, if w == 0 then 0 else w - 1);
      assert Padded(n, w) == front + [Digit(n % 10)];
      assert Padded(n, w)[..|front|] == front;
    }
  }

  function Field(text: string, i: nat, j: nat): nat
    requires i <= j <= |text|
  {
    if Value(text[i..j]) < 0 then 0 else Value(text[i..j])
  }

  /** Reading the 20-character form back: field values at fixed places of the
      date part and the time part. */
  function Parse(text: string): Stamp
    requires |text| == 20
  {
    var (d, t) := (text[..11], text[11..]);
    Stamp(Date(Field(d, 0, 4), Field(d, 5, 7), Field(d, 8, 10)), Field(t, 0, 2), Field(t, 3, 5), Field(t, 6, 8))
  }

  predicate IsNumber(text: string) {
    Value(text) >= 0
  }

  predicate HasRfc3339Shape(text: string) {
    && |text| == 20
    && var (d, t) := (text[..11], text[11..]);
    && d[4] == '-' && d[7] == '-' && d[10] == 'T'
    && IsNumber(d[0..4]) && IsNumber(d[5..7]) && IsNumber(d[8..10])
    && t[2] == ':' && t[5] == ':' && t[8] == 'Z'
    && IsNumber(t[0..2]) && IsNumber(t[3..5]) && IsNumber(t[6..8])
  }

  predicate FourDigitYear(s: Stamp) {
    IsStamp(s) && s.date.year < 10000
  }

  lemma FieldWidths(s: Stamp)
    requires IsStamp(s)
    ensures |Padded(s.date.month, 2)| == |Padded(s.date.day, 2)| == 2
    ensures |Padded(s.hour, 2)| == |Padded(s.minute, 2)| == |Padded(s.second, 2)| == 2
    ensures |Padded(s.date.year, 4)| >= 4
    ensures |Padded(s.date.year, 4)| == 4 <==> s.date.year < 10000
    ensures |Render(s)| == 16 + |Padded(s.date.year, 4)|
  {
    assert Pow10(1) == 10 && Pow10(2) == 100 && Pow10(3) == 1000 && Pow10(4) == 10000;
    PaddedLength(s.date.year, 4);
    PaddedLength(s.date.month, 2);
    PaddedLength(s.date.day, 2);
    PaddedLength(s.hour, 2);
    PaddedLength(s.minute, 2);
    PaddedLength(s.second, 2);
  }

  /** The fields of three joined by a separator and closed by an end. */
  lemma JoinedFields(a: string, sep: string, b: string, c: string, end: string)
    requires |sep| == |end| == 1
    ensures var t := a + sep + b + sep + c + end;
            && |t| == |a| + |b| + |c| + 3
            && t[..|a|] == a && t[|a|] == sep[0]
            && t[|a| + 1..|a| + 1 + |b|] == b && t[|a| + 1 + |b|] == sep[0]
            && t[|a| + |b| + 2..|a| + |b| + 2 + |c|] == c && t[|a| + |b| + 2 + |c|] == end[0]
  {
  }

  lemma DateFields(s: Stamp)
    requires FourDigitYear(s)
    ensures |DateText(s.date)| == 11
    ensures var t := DateText(s.date);
            && t[0..4] == Padded(s.date.year, 4) && t[5..7] == Padded(s.date.month, 2) && t[8..10] == Padded(s.date.day, 2)
            && t[4] == '-' && t[7] == '-' && t[10] == 'T'
  {
    FieldWidths(s);
    JoinedFields(Padded(s.date.year, 4), "-", Padded(s.date.month, 2), Padded(s.date.day, 2), "T");
  }

  lemma TimeFields(s: Stamp)
    requires FourDigitYear(s)
    ensures |TimeText(s)| == 9
    ensures var t := TimeText(s);
            && t[0..2] == Padded(s.hour, 2) && t[3..5] == Padded(s.minute, 2) && t[6..8] == Padded(s.second, 2)
            && t[2] == ':' && t[5] == ':' && t[8] == 'Z'
  {
    FieldWidths(s);
    JoinedFields(Padded(s.hour, 2), ":", Padded(s.minute, 2), Padded(s.second, 2), "Z");
  }

  lemma ParseRender(s: Stamp)
    requires FourDigitYear(s)
    ensures HasRfc3339Shape(Render(s)) && Parse(Render(s)) == s
  {
    DateFields(s);
    TimeFields(s);
    assert Render(s)[..11] == DateText(s.date) && Render(s)[11..] == TimeText(s);
    ValueOfPadded(s.date.year, 4);
    ValueOfPadded(s.date.month, 2);
    ValueOfPadded(s.date.day, 2);
    ValueOfPadded(s.hour, 2);
    ValueOfPadded(s.minute, 2);
    ValueOfPadded(s.second, 2);
  }

  /** The year of a day count, bounded without counting up to it. */
  lemma YearBefore(days: nat, year: nat)
    requires year >= 1970
    ensures CivilFromDays(days).year < year <==> days < 365 * (year - 1970) + LeapsThrough(year - 1) - 477
  {
    DaysBeforeYearClosed(year);
    CivilFromDaysInvertsTheCount(days);
    var first := Date(year, 1, 1);
    assert DayNumber(first) == DaysBeforeYear(year);
    DayNumberIsOrder(CivilFromDays(days), first);
  }

  /** 10000-01-01T00:00:00Z in Unix milliseconds. */
  const YEAR_10000_MS: nat := 253_402_300_800_000

  lemma YearOfStamp(unixMs: nat)
    ensures StampOf(unixMs).date.year < 10000 <==> unixMs < YEAR_10000_MS
  {
    var days := unixMs / 1000 / 86400;
    assert LeapsThrough(9999) == 2424;
    YearBefore(days, 10000);
    assert days < 2932897 <==> unixMs < YEAR_10000_MS;
  }

  /** The text has the 20-character form of section 5.6 of RFC 3339 exactly up
      to the end of year 9999, and then it reads back to the second. */
  lemma TextRoundTrip(unixMs: nat)
    requires unixMs <= MAX_MS
    ensures |Rfc3339UtcSeconds(unixMs)| == 20 <==> unixMs < YEAR_10000_MS
    ensures unixMs < YEAR_10000_MS ==>
              var text := Rfc3339UtcSeconds(unixMs);
              && HasRfc3339Shape(text)
              && IsStamp(Parse(text))
              && SecondsOf(Parse(text)) == unixMs / 1000
  {
    var s := StampOf(unixMs);
    StampKeepsSeconds(unixMs);
    FieldWidths(s);
    YearOfStamp(unixMs);
    if unixMs < YEAR_10000_MS {
      ParseRender(s);
    }
  }

  // ------------------------------------------------- text order

  /** Byte order of texts (all characters are ASCII). */
  predicate TextLess(a: string, b: string) {
    if b == "" then false
    else if a == "" then true
    else a[0] < b[0] || (a[0] == b[0] && TextLess(a[1..], b[1..]))
  }

  lemma {:induction false} TextLessConcat(a: string, b: string, c: string, d: string)
    requires |a| == |b|
    ensures TextLess(a + c, b + d) <==> TextLess(a, b) || (a == b && TextLess(c, d))
  {
    if a == "" {
      assert a + c == c && b + d == d;
    } else {
      assert (a + c)[1..] == a[1..] + c && (b + d)[1..] == b[1..] + d;
      TextLessConcat(a[1..], b[1..], c, d);
      assert a == [a[0]] + a[1..] && b == [b[0]] + b[1..];
    }
  }

  lemma {:induction false} PaddedOrder(n: nat, m: nat, w: nat)
    requires n < Pow10(w) && m < Pow10(w)
    ensures |Padded(n, w)| == |Padded(m, w)|
    ensures TextLess(Padded(n, w), Padded(m, w)) <==> n < m
    ensures Padded(n, w) == Padded(m, w) <==> n == m
    decreases w
  {
    PaddedLength(n, w);
    PaddedLength(m, w);
    if w > 0 {
      PaddedOrder(n / 10, m / 10, w - 1);
      TextLessConcat(Padded(n / 10, w - 1), Padded(m / 10, w - 1), [Digit(n % 10)], [Digit(m % 10)]);
      ValueOfPadded(n, w);
      ValueOfPadded(m, w);
    }
  }

  predicate StampLess(a: Stamp, b: Stamp) {
    || Earlier(a.date, b.date)
    || (a.date == b.date && ClockLess(a, b))
  }

  predicate ClockLess(a: Stamp, b: Stamp) {
    || a.hour < b.hour
    || (a.hour == b.hour && a.minute < b.minute)
    || (a.hour == b.hour && a.minute == b.minute && a.second < b.second)
  }

  lemma StampOrderIsTimeOrder(a: Stamp, b: Stamp)
    requires IsStamp(a) && IsStamp(b)
    ensures StampLess(a, b) <==> SecondsOf(a) < SecondsOf(b)
  {
    DayNumberIsOrder(a.date, b.date);
    DayNumberIsOrder(b.date, a.date);
  }

  /** One fixed-width field and its separator decide the order unless equal. */
  lemma FieldOrder(n: nat, m: nat, w: nat, sep: char, c: string, d: string)
    requires n < Pow10(w) && m < Pow10(w)
    ensures TextLess(Padded(n, w) + ([sep] + c), Padded(m, w) + ([sep] + d)) <==> n < m || (n == m && TextLess(c, d))
  {
    PaddedOrder(n, m, w);
    TextLessConcat(Padded(n, w), Padded(m, w), [sep] + c, [sep] + d);
    TextLessConcat([sep], [sep], c, d);
    assert !TextLess([sep], [sep]);
  }

  function ClockText(s: Stamp): string {
    Padded(s.hour, 2) + ([':'] + (Padded(s.minute, 2) + ([':'] + (Padded(s.second, 2) + (['Z'] + "")))))
  }

  function NestedText(s: Stamp): string {
    Padded(s.date.year, 4) + (['-'] + (Padded(s.date.month, 2) + (['-'] + (Padded(s.date.day, 2) + (['T'] + ClockText(s))))))
  }

  lemma RenderIsNested(s: Stamp)
    ensures Render(s) == NestedText(s)
  {
  }

  lemma ClockTextOrder(a: Stamp, b: Stamp)
    requires IsStamp(a) && IsStamp(b)
    ensures TextLess(ClockText(a), ClockText(b)) <==> ClockLess(a, b)
  {
    assert Pow10(1) == 10 && Pow10(2) == 100;
    FieldOrder(a.second, b.second, 2, 'Z', "", "");
    FieldOrder(a.minute, b.minute, 2, ':', Padded(a.second, 2) + (['Z'] + ""), Padded(b.second, 2) + (['Z'] + ""));
    FieldOrder(a.hour, b.hour, 2, ':',
               Padded(a.minute, 2) + ([':'] + (Padded(a.second, 2) + (['Z'] + ""))),
               Padded(b.minute, 2) + ([':'] + (Padded(b.second, 2) + (['Z'] + ""))));
  }

  lemma NestedTextOrder(a: Stamp, b: Stamp)
    requires FourDigitYear(a) && FourDigitYear(b)
    ensures TextLess(NestedText(a), NestedText(b)) <==> StampLess(a, b)
  {
    assert Pow10(1) == 10 && Pow10(2) == 100 && Pow10(3) == 1000 && Pow10(4) == 10000;
    ClockTextOrder(a, b);
    var da, db := Padded(a.date.day, 2) + (['T'] + ClockText(a)), Padded(b.date.day, 2) + (['T'] + ClockText(b));
    FieldOrder(a.date.day, b.date.day, 2, 'T', ClockText(a), ClockText(b));
    var ma, mb := Padded(a.date.month, 2) + (['-'] + da), Padded(b.date.month, 2) + (['-'] + db);
    FieldOrder(a.date.month, b.date.month, 2, '-', da, db);
    FieldOrder(a.date.year, b.date.year, 4, '-', ma, mb);
  }

  /** Section 5.1 of RFC 3339: up to year 9999, byte order of the texts is the
      order of the times in whole seconds. */
  lemma TextOrderIsTimeOrder(a: nat, b: nat)
    requires a < YEAR_10000_MS && b < YEAR_10000_MS
    ensures TextLess(Rfc3339UtcSeconds(a), Rfc3339UtcSeconds(b)) <==> a / 1000 < b / 1000
  {
    StampKeepsSeconds(a);
    StampKeepsSeconds(b);
    YearOfStamp(a);
    YearOfStamp(b);
    RenderIsNested(StampOf(a));
    RenderIsNested(StampOf(b));
    NestedTextOrder(StampOf(a), StampOf(b));
    StampOrderIsTimeOrder(StampOf(a), StampOf(b));
  }
}
