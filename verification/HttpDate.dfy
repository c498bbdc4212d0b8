/** The closed-form calendar behind the WebDAV `Last-Modified` header, proved equal to a
    Gregorian calendar that is stepped one day at a time from Thursday 1 January 1970. */
module HttpDate {

  datatype Date = Date(year: int, month: int, day: int)

  // ---------------------------------------------------------------- reference calendar

  predicate IsLeap(y: int) {
    y % 4 == 0 && (y % 100 != 0 || y % 400 == 0)
  }

  function DaysInMonth(y: int, m: int): int {
    if m == 2 then (if IsLeap(y) then 29 else 28)
    else if m == 4 || m == 6 || m == 9 || m == 11 then 30
    else 31
  }

  predicate ValidDate(t: Date) {
    t.year >= 1970 && 1 <= t.month <= 12 && 1 <= t.day <= DaysInMonth(t.year, t.month)
  }

  function NextDay(t: Date): Date {
    if t.day < DaysInMonth(t.year, t.month) then t.(day := t.day + 1)
    else if t.month < 12 then Date(t.year, t.month + 1, 1)
    else Date(t.year + 1, 1, 1)
  }

  function NextWeekday(w: string): string {
    if w == "Mon" then "Tue" else if w == "Tue" then "Wed" else if w == "Wed" then "Thu"
    else if w == "Thu" then "Fri" else if w == "Fri" then "Sat" else if w == "Sat" then "Sun"
    else "Mon"
  }

  /** The date reached by stepping `n` days from the epoch. */
  function DateAfter(n: nat): (t: Date)
    ensures ValidDate(t)
  {
    if n == 0 then Date(1970, 1, 1) else NextDay(DateAfter(n - 1))
  }

  /** The weekday reached by stepping `n` days from the epoch. */
  function WeekdayAfter(n: nat): string {
    if n == 0 then "Thu" else NextWeekday(WeekdayAfter(n - 1))
  }

  // ---------------------------------------------------------------- the closed form

  /** Year of the 400-year era, counted from 1 March. */
  function YearOfEra(doe: int): int {
    (doe - doe / 1460 + doe / 36524 - doe / 146096) / 365
  }

  /** Days of the era that precede its `k`-th March-based year. */
  function YearStart(k: int): int {
    365 * k + k / 4 - k / 100
  }

  /** The first day behind the `k`-th year; the era ends with a leap day of its own. */
  function YearEnd(k: int): int {
    if k == 399 then 146097 else YearStart(k + 1)
  }

  function MonthStart(mp: int): int {
    (153 * mp + 2) / 5
  }

  /** The source's chain of `let`s from day number to year, month and day. */
  function CivilDate(days: nat): Date {
    var z := days + 719468;
    var era := z / 146097;
    var doe := z - era * 146097;
    var yoe := YearOfEra(doe);
    var doy := doe - YearStart(yoe);
    var mp := (5 * doy + 2) / 153;
    var d := doy - MonthStart(mp) + 1;
    var m := if mp < 10 then mp + 3 else mp - 9;
    var y := yoe + era * 400;
    Date(if m <= 2 then y + 1 else y, m, d)
  }

  function Weekday(days: nat): string {
    ["Thu", "Fri", "Sat", "Sun", "Mon", "Tue", "Wed"][days % 7]
  }

  // ---------------------------------------------------------------- year of the era

  lemma YearStartIncreases(j: int, k: int)
    requires 0 <= j < k
    ensures YearStart(j) + 365 * (k - j) <= YearStart(k)
  {
    assert k / 4 - j / 4 >= k / 100 - j / 100 by {
      var a, b := j / 4, k / 4;
      assert j / 100 == a / 25 && k / 100 == b / 25;
      assert a <= b;
    }
  }

  /** The division by 365 lands in the year that contains the day. */
  lemma YearOfEraBrackets(doe: int)
    requires 0 <= doe < 146097
    ensures 0 <= YearOfEra(doe) < 400
    ensures YearStart(YearOfEra(doe)) <= doe < YearEnd(YearOfEra(doe))
  {
    // century, then four-year cycle inside it
    var c := if doe == 146096 then 3 else doe / 36524;
    var r := doe - 36524 * c;
    var q := r / 1461;
    var s := r - 1461 * q;
    assert 0 <= c <= 3 && 0 <= q <= 24;
    YearOfEraInCycle(doe, c, q, s);
  }

  lemma YearOfEraInCycle(doe: int, c: int, q: int, s: int)
    requires 0 <= c <= 3 && 0 <= q <= 24 && 0 <= s <= 1460
    requires doe == 36524 * c + 1461 * q + s
    requires 1461 * q + s < 36524 || (c == 3 && 1461 * q + s == 36524)
    ensures var yoe := YearOfEra(doe);
            && 0 <= yoe < 400
            && YearStart(yoe) <= doe
            && (doe < YearStart(yoe + 1) || doe == 146096)
  {
    hide YearOfEra, YearStart;
    var e := if s == 1460 then 3 else s / 365;
    var k := 100 * c + 4 * q + e;
    YearStartInCycle(c, q, e);
    YearOfEraIs(doe, c, q, s, e);
    assert 365 * e <= s;
    if doe != 146096 {
      if e < 3 {
        YearStartInCycle(c, q, e + 1);
      } else if q < 24 {
        YearStartInCycle(c, q + 1, 0);
      } else {
        YearStartOfCentury(c + 1);
      }
    }
  }

  lemma YearStartInCycle(c: int, q: int, e: int)
    requires 0 <= c && 0 <= q <= 24 && 0 <= e <= 3
    ensures YearStart(100 * c + 4 * q + e) == 36524 * c + 1461 * q + 365 * e
  {
  }

  lemma YearStartOfCentury(c: int)
    requires 0 <= c
    ensures YearStart(100 * c) == 36524 * c
  {
  }

  lemma YearOfEraIs(doe: int, c: int, q: int, s: int, e: int)
    requires 0 <= c <= 3 && 0 <= q <= 24 && 0 <= s <= 1460
    requires e == if s == 1460 then 3 else s / 365
    requires doe == 36524 * c + 1461 * q + s
    requires 1461 * q + s < 36524 || (c == 3 && 1461 * q + s == 36524)
    ensures YearOfEra(doe) == 100 * c + 4 * q + e
  {
    var x := doe - doe / 1460 + doe / 36524 - doe / 146096;
    CenturyTerm(doe, c);
    DivisionBy1460(25 * c + q, 24 * c + q + s);
    assert doe == 1460 * (25 * c + q) + (24 * c + q + s);
    CycleRemainder(c, q, s, e, x, doe);
    DivisionBy365(x, 100 * c + 4 * q + e);
  }

  lemma CenturyTerm(doe: int, c: int)
    requires 0 <= c <= 3 && 36524 * c <= doe
    requires doe < 36524 * (c + 1) || (c == 3 && doe == 146096)
    ensures doe / 36524 - doe / 146096 == c
  {
  }

  lemma DivisionBy1460(t: int, r: int)
    requires 0 <= r
    ensures (1460 * t + r) / 1460 == t + r / 1460
  {
  }

  lemma DivisionBy365(x: int, k: int)
    requires 365 * k <= x < 365 * k + 365
    ensures x / 365 == k
  {
  }

  lemma CycleRemainder(c: int, q: int, s: int, e: int, x: int, doe: int)
    requires 0 <= c <= 3 && 0 <= q <= 24 && 0 <= s <= 1460
    requires e == if s == 1460 then 3 else s / 365
    requires doe == 36524 * c + 1461 * q + s
    requires 1461 * q + s < 36524 || (c == 3 && 1461 * q + s == 36524)
    requires x == doe - (25 * c + q + (24 * c + q + s) / 1460) + c
    ensures 0 <= x - 365 * (100 * c + 4 * q + e) < 365
  {
  }

  /** The bracket determines the year: this is what makes stepping a day predictable. */
  lemma YearOfEraUnique(doe: int, k: int)
    requires 0 <= doe < 146097 && 0 <= k < 400
    requires YearStart(k) <= doe < YearEnd(k)
    ensures YearOfEra(doe) == k
  {
    var y := YearOfEra(doe);
    YearOfEraBrackets(doe);
    if y < k {
      YearStartIncreases(y, k);
      if y + 1 < k { YearStartIncreases(y + 1, k); }
      assert false;
    } else if k < y {
      YearStartIncreases(k, y);
      if k + 1 < y { YearStartIncreases(k + 1, y); }
      assert false;
    }
  }

  // ---------------------------------------------------------------- month of the year

  /** Date of day `doy` of the March-based year `y` (so January and February belong to `y + 1`). */
  function DayOfYear(y: int, doy: int): Date {
    var mp := (5 * doy + 2) / 153;
    var m := if mp < 10 then mp + 3 else mp - 9;
    Date(if m <= 2 then y + 1 else y, m, doy - MonthStart(mp) + 1)
  }

  function LastDay(y: int): int {
    if IsLeap(y + 1) then 365 else 364
  }

  lemma DayOfYearSteps(y: int, doy: int)
    requires 0 <= doy <= LastDay(y)
    ensures NextDay(DayOfYear(y, doy)) == if doy == LastDay(y) then Date(y + 1, 3, 1) else DayOfYear(y, doy + 1)
  {
    var mp := (5 * doy + 2) / 153;
    assert 0 <= mp <= 11;
    assert MonthStart(0) == 0 && MonthStart(1) == 31 && MonthStart(2) == 61 && MonthStart(3) == 92;
    assert MonthStart(4) == 122 && MonthStart(5) == 153 && MonthStart(6) == 184 && MonthStart(7) == 214;
    assert MonthStart(8) == 245 && MonthStart(9) == 275 && MonthStart(10) == 306 && MonthStart(11) == 337;
    assert MonthStart(mp) <= doy;
  }

  lemma YearLength(k: int)
    requires 0 <= k < 399
    ensures YearStart(k + 1) - YearStart(k) == if IsLeap(k + 1) then 366 else 365
  {
    assert (k + 1) / 4 - k / 4 == if (k + 1) % 4 == 0 then 1 else 0;
    assert (k + 1) / 100 - k / 100 == if (k + 1) % 100 == 0 then 1 else 0;
    assert (k + 1) % 100 == 0 ==> (k + 1) % 4 == 0;
    assert (k + 1) % 400 != 0;
  }

  // ---------------------------------------------------------------- main results

  lemma LeapRepeatsEveryEra(k: int, era: int)
    ensures IsLeap(k + 400 * era) == IsLeap(k)
  {
    Remainders(k, era);
  }

  lemma Remainders(k: int, era: int)
    ensures (k + 400 * era) % 4 == k % 4
    ensures (k + 400 * era) % 100 == k % 100
    ensures (k + 400 * era) % 400 == k % 400
  {
    Remainder4(k, 100 * era);
    Remainder100(k, 4 * era);
    Remainder400(k, era);
  }

  lemma Remainder4(k: int, a: int)
    ensures (k + 4 * a) % 4 == k % 4
  {
  }

  lemma Remainder100(k: int, a: int)
    ensures (k + 100 * a) % 100 == k % 100
  {
  }

  lemma Remainder400(k: int, a: int)
    ensures (k + 400 * a) % 400 == k % 400
  {
  }

  /** The date of day `doe` of a 400-year era. */
  function DateInEra(era: int, doe: int): Date {
    DayOfYear(YearOfEra(doe) + era * 400, doe - YearStart(YearOfEra(doe)))
  }

  lemma DateInEraSteps(era: int, doe: int)
    requires 0 <= doe < 146097
    ensures NextDay(DateInEra(era, doe)) ==
            if doe == 146096 then DateInEra(era + 1, 0) else DateInEra(era, doe + 1)
  {
    hide YearOfEra, DayOfYear, NextDay, YearStart, YearEnd, LastDay;
    var k := YearOfEra(doe);
    var y := k + era * 400;
    YearOfEraBrackets(doe);
    YearOfEraEnds(era, k);
    DayOfYearSteps(y, doe - YearStart(k));
    MarchFirst(y + 1);
    if doe + 1 < YearEnd(k) {
      YearOfEraUnique(doe + 1, k);
    } else if k == 399 {
      YearOfEraEnds(era + 1, 0);
      YearOfEraUnique(0, 0);
      assert y + 1 == (era + 1) * 400;
    } else {
      YearOfEraEnds(era, k + 1);
      YearOfEraUnique(doe + 1, k + 1);
    }
  }

  /** Where the years of an era begin and end. */
  lemma YearOfEraEnds(era: int, k: int)
    requires 0 <= k < 400
    ensures YearEnd(k) == YearStart(k) + LastDay(k + era * 400) + 1 && YearStart(k) < YearEnd(k)
    ensures k < 399 ==> YearStart(k + 1) == YearEnd(k)
    ensures YearEnd(399) == 146097 && YearStart(0) == 0 && YearEnd(k) <= 146097
  {
    hide IsLeap;
    LeapRepeatsEveryEra(k + 1, era);
    assert IsLeap(400) by { Year400IsLeap(); }
    if k < 399 { YearLength(k); }
  }

  lemma MarchFirst(y: int)
    ensures DayOfYear(y, 0) == Date(y, 3, 1)
  {
  }

  lemma Year400IsLeap() ensures IsLeap(400) {}

  /** One day forward in the closed form is one day forward in the reference calendar. */
  lemma CivilDateSteps(days: nat)
    ensures CivilDate(days + 1) == NextDay(CivilDate(days))
  {
    hide *;
    var z := days + 719468;
    var era := z / 146097;
    DateInEraSteps(era, z - era * 146097);
    CivilDateInEra(days);
    CivilDateInEra(days + 1);
  }

  lemma CivilDateInEra(days: nat)
    ensures var z := days + 719468;
            CivilDate(days) == DateInEra(z / 146097, z % 146097)
  {
  }

  lemma EpochIsFirstOfJanuary()
    ensures CivilDate(0) == Date(1970, 1, 1)
  {
    assert 719468 / 146097 == 4;
    assert 719468 - 4 * 146097 == 135080;
    assert YearOfEra(135080) == 369;
    assert YearStart(369) == 134774;
    assert (5 * 306 + 2) / 153 == 10;
  }

  /** For every day number the closed form gives the stepped date. */
  lemma {:induction false} CivilDateIsStepped(days: nat)
    ensures CivilDate(days) == DateAfter(days)
  {
    hide CivilDate, NextDay;
    if days == 0 {
      EpochIsFirstOfJanuary();
    } else {
      CivilDateIsStepped(days - 1);
      CivilDateSteps(days - 1);
    }
  }

  lemma {:induction false} WeekdayIsStepped(days: nat)
    ensures Weekday(days) == WeekdayAfter(days)
  {
    hide NextWeekday;
    if days > 0 {
      WeekdayIsStepped(days - 1);
      WeekdaySteps(days - 1, (days - 1) % 7);
    }
  }

  lemma WeekdaySteps(days: nat, r: nat)
    requires r == days % 7
    ensures NextWeekday(Weekday(days)) == Weekday(days + 1)
  {
  }

  // ---------------------------------------------------------------- the header text

  function Digit(n: int): char
    requires 0 <= n < 10
  {
    "0123456789"[n]
  }

  function Decimal(n: nat): string {
    if n < 10 then [Digit(n)] else Decimal(n / 10) + [Digit(n % 10)]
  }

  /** `{:02}` */
  function Padded(n: nat): string {
    if n < 10 then "0" + Decimal(n) else Decimal(n)
  }

  function MonthName(m: int): string {
    if 1 <= m <= 12 then
      ["Jan", "Feb", "Mar", "Apr", "May", "Jun", "Jul", "Aug", "Sep", "Oct", "Nov", "Dec"][m - 1]
    else ""
  }

  function Render(weekday: string, date: Date, second: nat): string
    requires date.year >= 0 && date.day >= 0 && second < 86400
  {
    weekday + ", " + Padded(date.day) + " " + MonthName(date.month) + " " + Decimal(date.year) + " " +
    Padded(second / 3600) + ":" + Padded(second % 3600 / 60) + ":" + Padded(second % 60) + " GMT"
  }

  /** `format_http_date`; the closed form never leaves the ranges its array lookups need. */
  function FormatHttpDate(ts: nat): (text: string)
    ensures text == Render(WeekdayAfter(ts / 86400), DateAfter(ts / 86400), ts % 86400)
  {
    CivilDateIsStepped(ts / 86400);
    WeekdayIsStepped(ts / 86400);
    Render(Weekday(ts / 86400), CivilDate(ts / 86400), ts % 86400)
  }

  lemma {:induction false} YearsNeverFall(m: nat, n: nat)
    requires m <= n
    ensures DateAfter(m).year <= DateAfter(n).year
  {
    if m < n { YearsNeverFall(m, n - 1); }
  }

  lemma FourDigitYears(days: nat)
    ensures DateAfter(days).year <= 9999 <==> days < 2932897
  {
    hide DateAfter;
    assert CivilDate(2932896) == Date(9999, 12, 31) by { LastFourDigitDay(); }
    CivilDateIsStepped(2932896);
    CivilDateIsStepped(2932897);
    CivilDateSteps(2932896);
    if days < 2932897 { YearsNeverFall(days, 2932896); } else { YearsNeverFall(2932897, days); }
  }

  lemma LastFourDigitDay()
    ensures CivilDate(2932896) == Date(9999, 12, 31)
  {
    assert 3652364 / 146097 == 24;
    assert 3652364 - 24 * 146097 == 146036;
    assert YearOfEra(146036) == 399;
    assert YearStart(399) == 145731;
    assert (5 * 305 + 2) / 153 == 9;
  }

  lemma DecimalLength(n: nat)
    ensures n < 10 ==> |Decimal(n)| == 1
    ensures 10 <= n < 100 ==> |Decimal(n)| == 2
    ensures 1000 <= n < 10000 ==> |Decimal(n)| == 4
    ensures n >= 10000 ==> |Decimal(n)| >= 5
  {
    if n >= 10 { DecimalLength(n / 10); if n >= 100 { DecimalLength(n / 100); } }
  }

  /** The text has the 29 characters of IMF-fixdate (section 5.6.7 of RFC 9110) exactly for
      timestamps before the year 10000: the year is printed unpadded and unbounded. */
  lemma FormatHasImfFixdateLength(ts: nat)
    ensures |FormatHttpDate(ts)| == 29 <==> ts < 253402300800
  {
    var n := ts / 86400;
    var t := DateAfter(n);
    WeekdayLength(n);
    FieldLengths(WeekdayAfter(n), t, ts % 86400);
    FourDigitYears(n);
    DecimalLength(t.year);
  }

  lemma PaddedLength(n: nat)
    requires n < 100
    ensures |Padded(n)| == 2
  {
    DecimalLength(n);
  }

  lemma WeekdayLength(n: nat)
    ensures |WeekdayAfter(n)| == 3
  {
  }

  lemma FieldLengths(weekday: string, t: Date, second: nat)
    requires |weekday| == 3 && ValidDate(t) && second < 86400
    ensures |Render(weekday, t, second)| == 25 + |Decimal(t.year)|
  {
    PaddedLength(t.day);
    PaddedLength(second / 3600);
    PaddedLength(second % 3600 / 60);
    PaddedLength(second % 60);
    assert |MonthName(t.month)| == 3;
    hide Padded, MonthName, Decimal;
  }

  // ---------------------------------------------------------------- reading the text back

  predicate IsDigit(c: char) {
    '0' <= c <= '9'
  }

  predicate AllDigits(text: string) {
    forall i :: 0 <= i < |text| ==> IsDigit(text[i])
  }

  /** A decimal number, most significant digit first. */
  function ReadNumber(text: string): int {
    if text == [] then 0 else 10 * ReadNumber(text[..|text| - 1]) + (text[|text| - 1] as int - '0' as int)
  }

  /** The month of an IMF-fixdate; 0 if it is none. */
  function MonthNumber(name: string): int {
    match name
    case "Jan" => 1
    case "Feb" => 2
    case "Mar" => 3
    case "Apr" => 4
    case "May" => 5
    case "Jun" => 6
    case "Jul" => 7
    case "Aug" => 8
    case "Sep" => 9
    case "Oct" => 10
    case "Nov" => 11
    case "Dec" => 12
    case _ => 0
  }

  lemma DigitReads(n: int)
    requires 0 <= n < 10
    ensures IsDigit(Digit(n)) && Digit(n) as int - '0' as int == n
  {
  }

  lemma ReadMore(text: string, c: char)
    ensures ReadNumber(text + [c]) == 10 * ReadNumber(text) + (c as int - '0' as int)
    ensures AllDigits(text) && IsDigit(c) ==> AllDigits(text + [c])
  {
    assert (text + [c])[..|text|] == text;
  }

  lemma {:induction false} DecimalReads(n: nat)
    ensures AllDigits(Decimal(n)) && ReadNumber(Decimal(n)) == n
  {
    DigitReads(n % 10);
    hide Digit, IsDigit, ReadNumber, AllDigits;
    NothingRead();
    if n < 10 {
      ReadMore([], Digit(n));
      assert [] + [Digit(n)] == [Digit(n)];
    } else {
      DecimalReads(n / 10);
      ReadMore(Decimal(n / 10), Digit(n % 10));
    }
  }

  lemma NothingRead()
    ensures ReadNumber([]) == 0 && AllDigits([])
  {
  }

  lemma PaddedReads(n: nat)
    requires n < 100
    ensures |Padded(n)| == 2 && AllDigits(Padded(n)) && ReadNumber(Padded(n)) == n
  {
    PaddedLength(n);
    DecimalReads(n);
    if n < 10 {
      var text := "0" + Decimal(n);
      DecimalLength(n);
      assert text[..1] == "0" && "0"[..0] == [];
      assert text[1] == Decimal(n)[0] && Decimal(n)[..0] == [];
    }
  }

  /** The parts of a date and of a time, at their positions. */
  lemma DateSlices(w: string, day: string, month: string, year: string)
    requires |w| == 3 && |day| == 2 && |month| == 3 && |year| == 4
    ensures var text := w + ", " + day + " " + month + " " + year + " ";
            && |text| == 17 && text[..3] == w && text[3..5] == ", " && text[5..7] == day && text[7] == ' '
            && text[8..11] == month && text[11] == ' ' && text[12..16] == year && text[16] == ' '
  {
  }

  lemma TimeSlices(h: string, m: string, s: string)
    requires |h| == 2 && |m| == 2 && |s| == 2
    ensures var text := h + ":" + m + ":" + s + " GMT";
            && |text| == 12 && text[..2] == h && text[2] == ':' && text[3..5] == m && text[5] == ':' && text[6..8] == s
            && text[8..] == " GMT"
  {
  }

  lemma TimeOfDay(second: nat)
    requires second < 86400
    ensures second / 3600 < 24 && second % 3600 / 60 < 60 && second % 60 < 60
    ensures 3600 * (second / 3600) + 60 * (second % 3600 / 60) + second % 60 == second
  {
    assert second % 3600 % 60 == second % 60;
  }

  /** What a text of 29 characters says, read by position. */
  datatype Reading = Reading(weekday: string, day: int, month: int, year: int, hour: int, minute: int, second: int)

  /** The layout of section 5.6.7 of RFC 9110. */
  predicate IsImfFixdate(text: string) {
    && |text| == 29 && text[3..5] == ", " && text[7] == ' ' && text[11] == ' ' && text[16] == ' '
    && text[19] == ':' && text[22] == ':' && text[25..] == " GMT"
    && AllDigits(text[5..7]) && AllDigits(text[12..16])
    && AllDigits(text[17..19]) && AllDigits(text[20..22]) && AllDigits(text[23..25])
  }

  function ReadDate(text: string): Reading
    requires |text| == 29
  {
    Reading(text[..3], ReadNumber(text[5..7]), MonthNumber(text[8..11]), ReadNumber(text[12..16]),
            ReadNumber(text[17..19]), ReadNumber(text[20..22]), ReadNumber(text[23..25]))
  }

  lemma RenderedReads(weekday: string, t: Date, second: nat)
    requires |weekday| == 3 && ValidDate(t) && 1000 <= t.year <= 9999 && second < 86400
    ensures var text := Render(weekday, t, second);
            && IsImfFixdate(text)
            && ReadDate(text) ==
               Reading(weekday, t.day, t.month, t.year, second / 3600, second % 3600 / 60, second % 60)
  {
    hide Padded, Decimal, MonthName, ReadNumber, AllDigits, MonthNumber;
    TimeOfDay(second);
    PaddedReads(t.day);
    PaddedReads(second / 3600);
    PaddedReads(second % 3600 / 60);
    PaddedReads(second % 60);
    DecimalLength(t.year);
    DecimalReads(t.year);
    MonthReads(t.month);
    var day, month, year := Padded(t.day), MonthName(t.month), Decimal(t.year);
    var h, m, s := Padded(second / 3600), Padded(second % 3600 / 60), Padded(second % 60);
    DateSlices(weekday, day, month, year);
    TimeSlices(h, m, s);
    var date, time := weekday + ", " + day + " " + month + " " + year + " ", h + ":" + m + ":" + s + " GMT";
    Halves(weekday, day, month, year, h, m, s);
    assert Render(weekday, t, second) ==
           weekday + ", " + day + " " + month + " " + year + " " + h + ":" + m + ":" + s + " GMT";
    Joined(date, time);
  }

  lemma Halves(w: string, day: string, month: string, year: string, h: string, m: string, s: string)
    ensures w + ", " + day + " " + month + " " + year + " " + h + ":" + m + ":" + s + " GMT" ==
            (w + ", " + day + " " + month + " " + year + " ") + (h + ":" + m + ":" + s + " GMT")
  {
    var date := w + ", " + day + " " + month + " " + year + " ";
    assert date + h + ":" == date + (h + ":");
    assert date + (h + ":") + m + ":" == date + (h + ":" + m + ":");
    assert date + (h + ":" + m + ":") + s + " GMT" == date + (h + ":" + m + ":" + s + " GMT");
  }

  lemma Joined(date: string, time: string)
    requires |date| == 17 && |time| == 12
    ensures var text := date + time;
            && |text| == 29 && text[..3] == date[..3] && text[3..5] == date[3..5] && text[5..7] == date[5..7]
            && text[7] == date[7] && text[8..11] == date[8..11] && text[11] == date[11] && text[12..16] == date[12..16]
            && text[16] == date[16] && text[17..19] == time[..2] && text[19] == time[2] && text[20..22] == time[3..5]
            && text[22] == time[5] && text[23..25] == time[6..8] && text[25..] == time[8..]
  {
  }

  /** Before the year 10000 the text is an IMF-fixdate, and read back by position it gives the stepped weekday
      and date and the time of day. */
  lemma FormatReadsBack(ts: nat)
    requires ts < 253402300800
    ensures |FormatHttpDate(ts)| == 29 && IsImfFixdate(FormatHttpDate(ts))
    ensures var r, t := ReadDate(FormatHttpDate(ts)), DateAfter(ts / 86400);
            && r.weekday == WeekdayAfter(ts / 86400) && r.day == t.day && r.month == t.month && r.year == t.year
            && 0 <= r.hour < 24 && 0 <= r.minute < 60 && 0 <= r.second < 60
            && 3600 * r.hour + 60 * r.minute + r.second == ts % 86400
  {
    hide DateAfter, WeekdayAfter, Render, ReadDate;
    var n, second := ts / 86400, ts % 86400;
    WeekdayLength(n);
    FourDigitYears(n);
    YearsNeverFall(0, n);
    FirstDay();
    TimeOfDay(second);
    RenderedReads(WeekdayAfter(n), DateAfter(n), second);
  }

  lemma FirstDay()
    ensures DateAfter(0).year == 1970
  {
  }

  lemma MonthReads(m: int)
    requires 1 <= m <= 12
    ensures MonthNumber(MonthName(m)) == m && |MonthName(m)| == 3
  {
  }
}
