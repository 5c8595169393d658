// UTC timestamps (src/time.rs): the civil date of a day count, its fixed-width text, and why comparing texts
// compares times.
module Time {
  import opened Prelude
  import Decimal

  // ---- The code ----

  datatype Date = Date(year: nat, month: nat, day: nat)

  // Howard Hinnant's days-to-civil formula, for days since 1970-01-01. Days since the epoch are never negative here,
  // so every division is of non-negative numbers.
  function YearOfEra(doe: nat): int { (doe - doe / 1460 + doe / 36524 - doe / 146096) / 365 }

  function DateInEra(era: nat, doe: nat): Date
    requires doe < 146097
  {
    YearOfEraBounds(doe);
    var yoe := YearOfEra(doe);
    var y := yoe + era * 400;
    var doy := doe - (365 * yoe + yoe / 4 - yoe / 100);
    var mp := (5 * doy + 2) / 153;
    var d := doy - (153 * mp + 2) / 5 + 1;
    var m := if mp < 10 then mp + 3 else mp - 9;
    Date(if m <= 2 then y + 1 else y, m, d)
  }

  function Civil(days: nat): Date {
    var z := days + 719468;
    var era := z / 146097;
    DateInEra(era, z - era * 146097)
  }

  // One number of the text, filled to w digits, and the character after it.
  function Field(n: nat, w: nat, after: char, rest: string): string { Decimal.Pad(n, w) + [after] + rest }

  // Hours, minutes and seconds.
  function Clock(h: nat, m: nat, s: nat): string { Field(h, 2, ':', Field(m, 2, ':', Field(s, 2, 'Z', ""))) }

  // The clock at a second of the day.
  function ClockAt(rem: nat): string { Clock(rem / 3600, rem % 3600 / 60, rem % 60) }

  // A date and a second of the day.
  function IsoText(date: Date, rem: nat): string {
    Field(date.year, 4, '-', Field(date.month, 2, '-', Field(date.day, 2, 'T', ClockAt(rem))))
  }

  function IsoFromUnix(secs: nat): string { IsoText(Civil(secs / 86400), secs % 86400) }

  // `saturating_sub` from the current time.
  function IsoSecsAgo(now: nat, secs: nat): string {
    IsoFromUnix(if secs <= now then now - secs else 0)
  }

  // ---- The Gregorian calendar, counted from first principles ----

  predicate IsLeap(y: nat) { y % 4 == 0 && (y % 100 != 0 || y % 400 == 0) }

  function DaysInMonth(y: nat, m: nat): nat {
    if m == 2 then (if IsLeap(y) then 29 else 28)
    else if m in {4, 6, 9, 11} then 30
    else 31
  }

  function DaysInYear(y: nat): nat { if IsLeap(y) then 366 else 365 }

  predicate Valid(date: Date) {
    1 <= date.month <= 12 && 1 <= date.day <= DaysInMonth(date.year, date.month)
  }

  // Days from 1 January of year 0 to 1 January of year y.
  function DaysBeforeYear(y: nat): nat {
    if y == 0 then 0 else DaysBeforeYear(y - 1) + DaysInYear(y - 1)
  }

  function DaysBeforeMonth(y: nat, m: nat): nat {
    if m <= 1 then 0 else DaysBeforeMonth(y, m - 1) + DaysInMonth(y, m - 1)
  }

  function DaysFromZero(date: Date): int {
    DaysBeforeYear(date.year) + DaysBeforeMonth(date.year, date.month) + date.day - 1
  }

  // 1970-01-01, counted from year 0 (EpochDay).
  const EPOCH := 719528

  // Days from 1970-01-01 to the date.
  function DayNumber(date: Date): int { DaysFromZero(date) - EPOCH }

  // ---- The formula is right ----

  // Days of a 400-year era before its year k, years running from March.
  function YearStart(k: int): int { 365 * k + k / 4 - k / 100 }

  // The day of the era with the leap days before it taken out.
  function LeaplessDay(doe: nat): int { doe - doe / 1460 + doe / 36524 - doe / 146096 }

  lemma Century(k: nat, doe: nat)
    requires k < 400 && YearStart(k) <= doe < YearStart(k + 1) + (if k == 399 then 1 else 0)
    ensures doe / 146096 == if doe == 146096 then 1 else 0
    ensures doe / 36524 == k / 100 || doe == 146096
  {}

  lemma NotBefore(k: nat, doe: nat)
    requires k < 400 && YearStart(k) <= doe < YearStart(k + 1) + (if k == 399 then 1 else 0)
    requires doe / 146096 == if doe == 146096 then 1 else 0
    requires doe / 36524 == k / 100 || doe == 146096
    ensures 365 * k <= LeaplessDay(doe)
  {}

  lemma NotAfter(k: nat, doe: nat)
    requires k < 400 && YearStart(k) <= doe < YearStart(k + 1) + (if k == 399 then 1 else 0)
    requires doe / 146096 == if doe == 146096 then 1 else 0
    requires doe / 36524 == k / 100 || doe == 146096
    ensures LeaplessDay(doe) < 365 * (k + 1)
  {
    var c, j := k / 100, doe + k / 100 - 365 * (k + 1);
    if j >= 0 && doe != 146096 {
      assert c <= (k + 1) / 100;
      assert j + 1 <= (k + 1) / 4;
      assert doe >= 1460 * (j + 1);
      DivModIs(doe, 1460, doe / 1460, doe % 1460);
      assert doe / 1460 >= j + 1;
    }
  }

  lemma YearOfEraIs(k: nat, doe: nat)
    requires k < 400 && YearStart(k) <= doe < YearStart(k + 1) + (if k == 399 then 1 else 0)
    ensures YearOfEra(doe) == k
  {
    Century(k, doe);
    NotBefore(k, doe);
    NotAfter(k, doe);
    var days := LeaplessDay(doe);
    DivModIs(days, 365, k, days - 365 * k);
  }

  lemma {:induction false} SomeYear(doe: nat, k: nat) returns (r: nat)
    requires k <= 400 && doe < (if k == 400 then 146097 else YearStart(k))
    ensures r < 400 && YearStart(r) <= doe < YearStart(r + 1) + (if r == 399 then 1 else 0)
  {
    if YearStart(k - 1) <= doe {
      r := k - 1;
    } else {
      r := SomeYear(doe, k - 1);
    }
  }

  lemma YearOfEraBounds(doe: nat)
    requires doe < 146097
    ensures var k := YearOfEra(doe);
      0 <= k < 400 && YearStart(k) <= doe < YearStart(k + 1) + (if k == 399 then 1 else 0)
  {
    var k := SomeYear(doe, 400);
    YearOfEraIs(k, doe);
  }

  function Leaps(y: nat): int { y / 4 - y / 100 + y / 400 }

  lemma {:induction false} DaysBeforeYearIs(y: nat)
    requires y >= 1
    ensures DaysBeforeYear(y) == 365 * y + Leaps(y - 1) + 1
  {
    if y > 1 {
      DaysBeforeYearIs(y - 1);
      LeapStep(y - 1);
    } else {
      assert DaysBeforeYear(0) == 0;
    }
  }

  lemma LeapStep(y: nat)
    requires y > 0
    ensures Leaps(y) == Leaps(y - 1) + if IsLeap(y) then 1 else 0
  {
    assert y / 4 == (y - 1) / 4 + if y % 4 == 0 then 1 else 0;
    assert y / 100 == (y - 1) / 100 + if y % 100 == 0 then 1 else 0;
    assert y / 400 == (y - 1) / 400 + if y % 400 == 0 then 1 else 0;
  }

  // Days from 1 March to the first of month number mp, months running from March.
  function MonthStart(mp: nat): nat { (153 * mp + 2) / 5 }

  lemma MonthTable(y: nat)
    ensures forall m | 3 <= m <= 12 :: DaysBeforeMonth(y, m) == 59 + (if IsLeap(y) then 1 else 0) + MonthStart(m - 3)
    ensures DaysBeforeMonth(y, 1) == 0 && DaysBeforeMonth(y, 2) == 31
  {
    var feb := if IsLeap(y) then 29 else 28;
    assert DaysBeforeMonth(y, 1) == 0;
    assert DaysBeforeMonth(y, 2) == 31;
    assert DaysBeforeMonth(y, 3) == 31 + feb;
    assert DaysBeforeMonth(y, 4) == 62 + feb && DaysBeforeMonth(y, 5) == 92 + feb;
    assert DaysBeforeMonth(y, 6) == 123 + feb && DaysBeforeMonth(y, 7) == 153 + feb;
    assert DaysBeforeMonth(y, 8) == 184 + feb && DaysBeforeMonth(y, 9) == 215 + feb;
    assert DaysBeforeMonth(y, 10) == 245 + feb && DaysBeforeMonth(y, 11) == 276 + feb;
    assert DaysBeforeMonth(y, 12) == 306 + feb;
  }

  // 1 March of a year, as days from year 0.
  lemma MarchFirst(era: nat, yoe: nat)
    requires yoe < 400 && yoe + era * 400 >= 1
    ensures var y := yoe + era * 400;
      DaysBeforeYear(y) + 59 + (if IsLeap(y) then 1 else 0) == era * 146097 + YearStart(yoe) + 60
  {
    var y := yoe + era * 400;
    DaysBeforeYearIs(y);
    LeapStep(y);
    assert y / 4 == yoe / 4 + era * 100;
    assert y / 100 == yoe / 100 + era * 4;
    assert y / 400 == era;
  }

  lemma Shift(a: nat, era: nat)
    ensures (a + era * 400) % 4 == a % 4 && (a + era * 400) % 100 == a % 100 && (a + era * 400) % 400 == a % 400
  {
    DivModIs(a + era * 400, 4, a / 4 + era * 100, a % 4);
    DivModIs(a + era * 400, 100, a / 100 + era * 4, a % 100);
    DivModIs(a + era * 400, 400, a / 400 + era, a % 400);
  }

  lemma YearLength(era: nat, yoe: nat)
    requires yoe < 400
    ensures YearStart(yoe + 1) + (if yoe == 399 then 1 else 0) - YearStart(yoe) == DaysInYear(yoe + 1 + era * 400)
  {
    Shift(yoe + 1, era);
    assert (yoe + 1) / 4 - yoe / 4 == if (yoe + 1) % 4 == 0 then 1 else 0;
    assert (yoe + 1) / 100 - yoe / 100 == if (yoe + 1) % 100 == 0 then 1 else 0;
    assert (yoe + 1) % 400 == 0 <==> yoe == 399;
  }

  // The month of a day of a March-year.
  lemma MonthOf(doy: nat)
    requires doy <= 365
    ensures var mp := (5 * doy + 2) / 153;
      mp <= 11 && MonthStart(mp) <= doy && (mp < 11 ==> doy < MonthStart(mp + 1))
  {}

  lemma MonthLengths(y: nat)
    ensures forall mp | 0 <= mp < 11 ::
      MonthStart(mp + 1) - MonthStart(mp) == DaysInMonth(y, if mp < 10 then mp + 3 else mp - 9)
  {}

  // The date of day doy of the year that begins on 1 March of year y.
  function FromMarch(y: nat, doy: nat): Date
    requires doy <= 365
  {
    MonthOf(doy);
    var mp := (5 * doy + 2) / 153;
    Date(if mp < 10 then y else y + 1, if mp < 10 then mp + 3 else mp - 9, doy - MonthStart(mp) + 1)
  }

  lemma FromMarchValid(y: nat, doy: nat)
    requires doy < DaysInYear(y + 1)
    ensures Valid(FromMarch(y, doy))
  {
    MonthOf(doy);
    MonthLengths(FromMarch(y, doy).year);
  }

  // January and February, counted from 1 March before.
  lemma NextYearMonths(y: nat)
    ensures DaysBeforeYear(y + 1) == DaysBeforeYear(y) + 306 + 59 + if IsLeap(y) then 1 else 0
    ensures DaysBeforeMonth(y + 1, 1) == MonthStart(10) - 306 && DaysBeforeMonth(y + 1, 2) == MonthStart(11) - 306
  {
    MonthTable(y + 1);
    assert DaysBeforeYear(y + 1) == DaysBeforeYear(y) + DaysInYear(y);
  }

  lemma FromMarchCounts(y: nat, doy: nat)
    requires doy <= 365
    ensures DaysFromZero(FromMarch(y, doy)) == DaysBeforeYear(y) + 59 + (if IsLeap(y) then 1 else 0) + doy
  {
    MonthOf(doy);
    var mp := (5 * doy + 2) / 153;
    if mp < 10 {
      MonthTable(y);
      assert DaysBeforeMonth(y, mp + 3) == 59 + (if IsLeap(y) then 1 else 0) + MonthStart(mp);
    } else {
      NextYearMonths(y);
      assert mp == 10 || mp == 11;
    }
  }

  lemma DateInEraIs(era: nat, doe: nat)
    requires doe < 146097 && (era > 0 || YearOfEra(doe) > 0)
    ensures Valid(DateInEra(era, doe)) && DaysFromZero(DateInEra(era, doe)) == era * 146097 + doe + 60
  {
    YearOfEraBounds(doe);
    var yoe: nat := YearOfEra(doe);
    var doy: nat := doe - YearStart(yoe);
    YearLength(era, yoe);
    MonthOf(doy);
    assert DateInEra(era, doe) == FromMarch(yoe + era * 400, doy);
    FromMarchValid(yoe + era * 400, doy);
    FromMarchCounts(yoe + era * 400, doy);
    MarchFirst(era, yoe);
  }

  // The formula gives a date of the Gregorian calendar, and the calendar gives the day count back.
  lemma CivilIsRight(days: nat)
    ensures Valid(Civil(days)) && DayNumber(Civil(days)) == days
  {
    var z := days + 719468;
    var era := z / 146097;
    var doe := z - era * 146097;
    FirstEra(era, doe);
    DateInEraIs(era, doe);
  }

  // The first era of the formula is never entered before its year 1.
  lemma FirstEra(era: nat, doe: nat)
    requires era * 146097 + doe >= 719468 && doe < 146097
    ensures era > 0
  {}

  lemma EpochDay()
    ensures DaysFromZero(Date(1970, 1, 1)) == EPOCH
  {
    DaysBeforeYearIs(1970);
    assert DaysBeforeMonth(1970, 1) == 0;
  }

  // ---- Order ----

  ghost predicate DateBefore(a: Date, b: Date) {
    || a.year < b.year
    || (a.year == b.year && (a.month < b.month || (a.month == b.month && a.day < b.day)))
  }

  lemma {:induction false} YearsGrow(y: nat, z: nat)
    requires y <= z
    ensures DaysBeforeYear(y) <= DaysBeforeYear(z)
  {
    if y < z { YearsGrow(y, z - 1); }
  }

  lemma {:induction false} MonthsGrow(y: nat, m: nat, n: nat)
    requires m <= n
    ensures DaysBeforeMonth(y, m) <= DaysBeforeMonth(y, n)
  {
    if m < n { MonthsGrow(y, m, n - 1); }
  }

  lemma WithinYear(a: Date)
    requires Valid(a)
    ensures DaysBeforeYear(a.year) <= DaysFromZero(a) < DaysBeforeYear(a.year + 1)
  {
    MonthsGrow(a.year, a.month + 1, 13);
    MonthTable(a.year);
    assert DaysBeforeMonth(a.year, 13) == DaysBeforeMonth(a.year, 12) + 31;
    assert DaysBeforeMonth(a.year, a.month + 1) == DaysBeforeMonth(a.year, a.month) + DaysInMonth(a.year, a.month);
  }

  // Earlier dates have smaller day numbers.
  lemma DatesInOrder(a: Date, b: Date)
    requires Valid(a) && Valid(b) && DateBefore(a, b)
    ensures DayNumber(a) < DayNumber(b)
  {
    if a.year < b.year {
      WithinYear(a);
      WithinYear(b);
      YearsGrow(a.year + 1, b.year);
    } else if a.month < b.month {
      MonthsGrow(a.year, a.month + 1, b.month);
      assert DaysBeforeMonth(a.year, a.month + 1) == DaysBeforeMonth(a.year, a.month) + DaysInMonth(a.year, a.month);
    }
  }

  lemma CivilInOrder(d: nat, e: nat)
    ensures d < e <==> DateBefore(Civil(d), Civil(e))
  {
    CivilIsRight(d);
    CivilIsRight(e);
    var a, b := Civil(d), Civil(e);
    if DateBefore(a, b) { DatesInOrder(a, b); }
    if DateBefore(b, a) { DatesInOrder(b, a); }
  }

  // The byte order SQLite compares texts by.
  predicate Before(s: string, t: string) {
    t != [] && (s == [] || s[0] < t[0] || (s[0] == t[0] && Before(s[1..], t[1..])))
  }

  lemma {:induction false} BeforeConcat(s: string, t: string, u: string, v: string)
    requires |s| == |t|
    ensures Before(s + u, t + v) <==> Before(s, t) || (s == t && Before(u, v))
  {
    if s == [] {
      assert s + u == u && t + v == v;
    } else {
      BeforeConcat(s[1..], t[1..], u, v);
      assert (s + u)[1..] == s[1..] + u && (t + v)[1..] == t[1..] + v;
      assert s == [s[0]] + s[1..] && t == [t[0]] + t[1..];
    }
  }

  lemma {:induction false} PadBefore(x: nat, y: nat, w: nat)
    requires x < Decimal.Pow10(w) && y < Decimal.Pow10(w)
    ensures |Decimal.Pad(x, w)| == |Decimal.Pad(y, w)| == w
    ensures Before(Decimal.Pad(x, w), Decimal.Pad(y, w)) <==> x < y
    ensures Decimal.Pad(x, w) == Decimal.Pad(y, w) <==> x == y
  {
    if w > 0 {
      PadBefore(x / 10, y / 10, w - 1);
      var c, d := [Decimal.Digit(x % 10)], [Decimal.Digit(y % 10)];
      BeforeConcat(Decimal.Pad(x / 10, w - 1), Decimal.Pad(y / 10, w - 1), c, d);
      assert Before(c, d) <==> x % 10 < y % 10;
      assert Decimal.Pad(x, w)[..w - 1] == Decimal.Pad(x / 10, w - 1) && Decimal.Pad(x, w)[w - 1] == c[0];
      assert Decimal.Pad(y, w)[..w - 1] == Decimal.Pad(y / 10, w - 1) && Decimal.Pad(y, w)[w - 1] == d[0];
    }
  }

  lemma FieldBefore(x: nat, y: nat, w: nat, after: char, s: string, t: string)
    requires x < Decimal.Pow10(w) && y < Decimal.Pow10(w)
    ensures Before(Field(x, w, after, s), Field(y, w, after, t)) <==> x < y || (x == y && Before(s, t))
  {
    PadBefore(x, y, w);
    BeforeConcat(Decimal.Pad(x, w) + [after], Decimal.Pad(y, w) + [after], s, t);
    BeforeConcat(Decimal.Pad(x, w), Decimal.Pad(y, w), [after], [after]);
    assert !Before([after], [after]);
    assert x != y ==> (Decimal.Pad(x, w) + [after])[..w] != (Decimal.Pad(y, w) + [after])[..w];
  }

  // The first second of the year 10000.
  const YEAR_10000 := 253402300800

  lemma BeforeYear10000(secs: nat)
    ensures secs < YEAR_10000 <==> Civil(secs / 86400).year < 10000
  {
    var days := secs / 86400;
    CivilIsRight(days);
    var date := Civil(days);
    WithinYear(date);
    DaysBeforeYearIs(10000);
    if date.year < 10000 { YearsGrow(date.year + 1, 10000); } else { YearsGrow(10000, date.year); }
    assert days < 2932897 <==> date.year < 10000;
  }

  lemma ClockFieldsBefore(h: nat, m: nat, s: nat, h': nat, m': nat, s': nat)
    requires h < 24 && m < 60 && s < 60 && h' < 24 && m' < 60 && s' < 60
    ensures Before(Clock(h, m, s), Clock(h', m', s')) <==> 3600 * h + 60 * m + s < 3600 * h' + 60 * m' + s'
  {
    assert Decimal.Pow10(2) == 100;
    FieldBefore(s, s', 2, 'Z', "", "");
    var u, v := Field(s, 2, 'Z', ""), Field(s', 2, 'Z', "");
    FieldBefore(m, m', 2, ':', u, v);
    FieldBefore(h, h', 2, ':', Field(m, 2, ':', u), Field(m', 2, ':', v));
  }

  lemma ClockParts(r: nat)
    requires r < 86400
    ensures r / 3600 < 24 && r % 3600 / 60 < 60 && r % 60 < 60
    ensures 3600 * (r / 3600) + 60 * (r % 3600 / 60) + r % 60 == r
  {
    assert r % 3600 % 60 == r % 60;
  }

  lemma DateFieldsBefore(a: Date, b: Date, s: string, t: string)
    requires Valid(a) && Valid(b) && a.year < 10000 && b.year < 10000
    ensures Before(Field(a.year, 4, '-', Field(a.month, 2, '-', Field(a.day, 2, 'T', s))),
                   Field(b.year, 4, '-', Field(b.month, 2, '-', Field(b.day, 2, 'T', t))))
        <==> DateBefore(a, b) || (a == b && Before(s, t))
  {
    assert Decimal.Pow10(2) == 100 && Decimal.Pow10(4) == 10000;
    FieldBefore(a.day, b.day, 2, 'T', s, t);
    var u, v := Field(a.day, 2, 'T', s), Field(b.day, 2, 'T', t);
    FieldBefore(a.month, b.month, 2, '-', u, v);
    FieldBefore(a.year, b.year, 4, '-', Field(a.month, 2, '-', u), Field(b.month, 2, '-', v));
  }

  // Comparing two timestamps as texts compares the times, for every second before the year 10000.
  lemma TextOrderIsTimeOrder(a: nat, b: nat)
    requires a < YEAR_10000 && b < YEAR_10000
    ensures Before(IsoFromUnix(a), IsoFromUnix(b)) <==> a < b
  {
    BeforeYear10000(a);
    BeforeYear10000(b);
    CivilIsRight(a / 86400);
    CivilIsRight(b / 86400);
    CivilInOrder(a / 86400, b / 86400);
    CivilInOrder(b / 86400, a / 86400);
    var r, q := a % 86400, b % 86400;
    ClockParts(r);
    ClockParts(q);
    ClockFieldsBefore(r / 3600, r % 3600 / 60, r % 60, q / 3600, q % 3600 / 60, q % 60);
    DateFieldsBefore(Civil(a / 86400), Civil(b / 86400),
      Clock(r / 3600, r % 3600 / 60, r % 60), Clock(q / 3600, q % 3600 / 60, q % 60));
    assert a / 86400 == b / 86400 ==> Civil(a / 86400) == Civil(b / 86400);
    assert Civil(a / 86400) == Civil(b / 86400) ==> a / 86400 == b / 86400;
  }

  // Exactly those timestamps have the fixed width of 20 characters.
  lemma TwentyCharacters(secs: nat)
    ensures |IsoFromUnix(secs)| == 20 <==> secs < YEAR_10000
    ensures |IsoFromUnix(secs)| >= 20
  {
    BeforeYear10000(secs);
    CivilIsRight(secs / 86400);
    var date, rem := Civil(secs / 86400), secs % 86400;
    assert Decimal.Pow10(2) == 100 && Decimal.Pow10(4) == 10000;
    Decimal.PadLength(date.year, 4);
    Decimal.PadLength(date.month, 2);
    Decimal.PadLength(date.day, 2);
    Decimal.PadLength(rem / 3600, 2);
    Decimal.PadLength(rem % 3600 / 60, 2);
    Decimal.PadLength(rem % 60, 2);
  }

  // Beyond that the two orders part: the last second of 9999 and the one after it.
  lemma OrderEndsAt10000()
    ensures !Before(IsoFromUnix(YEAR_10000 - 1), IsoFromUnix(YEAR_10000))
  {
    EdgeDates();
    EdgeDigits();
    assert (YEAR_10000 - 1) / 86400 == 2932896 && YEAR_10000 / 86400 == 2932897;
    assert IsoFromUnix(YEAR_10000 - 1)[0] == Decimal.Pad(9999, 4)[0];
    assert IsoFromUnix(YEAR_10000)[0] == Decimal.Pad(10000, 4)[0];
  }

  // ---- Reading a timestamp back ----

  // A number of w digits and the character after it, and what follows.
  function TakeField(s: string, w: nat, after: char): Option<(nat, string)> {
    if w < |s| && s[w] == after then
      match Decimal.Read(s[..w])
      case Some(n) => Some((n, s[w + 1..]))
      case None => None
    else None
  }

  // The clock of section 5.6 of RFC 3339, without fractions and in UTC, as seconds of the day.
  function ReadClock(s: string): Option<nat> {
    match TakeField(s, 2, ':')
    case None => None
    case Some((h, s1)) =>
      match TakeField(s1, 2, ':')
      case None => None
      case Some((m, s2)) =>
        match TakeField(s2, 2, 'Z')
        case None => None
        case Some((sec, end)) =>
          if h < 24 && m < 60 && sec < 60 && end == "" then Some(3600 * h + 60 * m + sec) else None
  }

  // The date and the separators, and what follows.
  function ReadDate(s: string): Option<(Date, string)> {
    match TakeField(s, 4, '-')
    case None => None
    case Some((y, s1)) =>
      match TakeField(s1, 2, '-')
      case None => None
      case Some((m, s2)) =>
        match TakeField(s2, 2, 'T')
        case None => None
        case Some((d, s3)) => Some((Date(y, m, d), s3))
  }

  // The whole form: a date of the Gregorian calendar and the clock, as seconds since 1970.
  function ReadIso(s: string): Option<int> {
    match ReadDate(s)
    case None => None
    case Some((date, rest)) =>
      match ReadClock(rest)
      case None => None
      case Some(clock) => if Valid(date) then Some(DayNumber(date) * 86400 + clock) else None
  }

  lemma TakesField(n: nat, w: nat, after: char, rest: string)
    requires w > 0 && n < Decimal.Pow10(w)
    ensures TakeField(Field(n, w, after, rest), w, after) == Some((n, rest))
  {
    Decimal.ReadPad(n, w);
    Decimal.PadLength(n, w);
    var s := Field(n, w, after, rest);
    assert s[..w] == Decimal.Pad(n, w) && s[w] == after && s[w + 1..] == rest;
  }

  // A number too long for its field does not end where its field does.
  lemma MissesField(n: nat, w: nat, after: char, rest: string)
    requires n >= Decimal.Pow10(w) && !('0' <= after <= '9')
    ensures TakeField(Field(n, w, after, rest), w, after).None?
  {
    Decimal.PadLength(n, w);
    Decimal.PadIsDigits(n, w);
    assert Field(n, w, after, rest)[w] == Decimal.Pad(n, w)[w] && Decimal.Pad(n, w)[w] in Decimal.Pad(n, w);
  }

  lemma ReadsClock(h: nat, m: nat, s: nat)
    requires h < 24 && m < 60 && s < 60
    ensures ReadClock(Clock(h, m, s)) == Some(3600 * h + 60 * m + s)
  {
    assert Decimal.Pow10(2) == 100;
    TakesField(s, 2, 'Z', "");
    TakesField(m, 2, ':', Field(s, 2, 'Z', ""));
    TakesField(h, 2, ':', Field(m, 2, ':', Field(s, 2, 'Z', "")));
  }

  lemma ReadsDate(date: Date, rest: string)
    requires Valid(date)
    ensures var text := Field(date.year, 4, '-', Field(date.month, 2, '-', Field(date.day, 2, 'T', rest)));
      ReadDate(text) == if date.year < 10000 then Some((date, rest)) else None
  {
    assert Decimal.Pow10(2) == 100 && Decimal.Pow10(4) == 10000;
    var fromDay := Field(date.day, 2, 'T', rest);
    var fromMonth := Field(date.month, 2, '-', fromDay);
    TakesField(date.day, 2, 'T', rest);
    TakesField(date.month, 2, '-', fromDay);
    if date.year < 10000 {
      TakesField(date.year, 4, '-', fromMonth);
    } else {
      MissesField(date.year, 4, '-', fromMonth);
    }
  }

  lemma ReadsParts(text: string, date: Date, rest: string, clock: nat)
    requires ReadDate(text) == Some((date, rest)) && ReadClock(rest) == Some(clock) && Valid(date)
    ensures ReadIso(text) == Some(DayNumber(date) * 86400 + clock)
  {}

  lemma ReadsNothing(text: string)
    requires ReadDate(text) == None
    ensures ReadIso(text) == None
  {}

  lemma ReadsClockAt(rem: nat)
    requires rem < 86400
    ensures ReadClock(ClockAt(rem)) == Some(rem)
  {
    ClockParts(rem);
    ReadsClock(rem / 3600, rem % 3600 / 60, rem % 60);
  }

  lemma ReadsBack(date: Date, days: nat, rem: nat)
    requires Valid(date) && rem < 86400 && DayNumber(date) == days
    ensures ReadIso(IsoText(date, rem)) == if date.year < 10000 then Some(days * 86400 + rem) else None
  {
    ReadsClockAt(rem);
    ReadsDate(date, ClockAt(rem));
    if date.year < 10000 {
      ReadsParts(IsoText(date, rem), date, ClockAt(rem), rem);
    } else {
      ReadsNothing(IsoText(date, rem));
    }
  }

  lemma DateOf(secs: nat) returns (date: Date)
    ensures IsoFromUnix(secs) == IsoText(date, secs % 86400)
    ensures Valid(date) && DayNumber(date) == secs / 86400 && (date.year < 10000 <==> secs < YEAR_10000)
  {
    date := Civil(secs / 86400);
    BeforeYear10000(secs);
    CivilIsRight(secs / 86400);
  }

  // Every timestamp before the year 10000 has the form and reads back to the second; no later one has it.
  lemma IsoReadsBack(secs: nat)
    ensures ReadIso(IsoFromUnix(secs)) == if secs < YEAR_10000 then Some(secs) else None
  {
    var date := DateOf(secs);
    ReadsText(IsoFromUnix(secs), date, secs);
  }

  lemma ReadsText(text: string, date: Date, secs: nat)
    requires text == IsoText(date, secs % 86400) && Valid(date) && DayNumber(date) == secs / 86400
    ensures ReadIso(text) == if date.year < 10000 then Some(secs) else None
  {
    ReadsBack(date, secs / 86400, secs % 86400);
    DivMod86400(secs);
  }

  lemma DivMod86400(secs: nat)
    ensures secs / 86400 * 86400 + secs % 86400 == secs
  {}

  // ---- The end of the promise ----

  // Text order is time order below n seconds.
  ghost predicate OrderedBelow(n: nat) {
    forall a: nat, b: nat | a < n && b < n :: Before(IsoFromUnix(a), IsoFromUnix(b)) <==> a < b
  }

  // So the year 10000 is exactly where the promise ends.
  lemma OrderedExactlyBefore10000(n: nat)
    ensures OrderedBelow(n) <==> n <= YEAR_10000
  {
    if n <= YEAR_10000 {
      forall a: nat, b: nat | a < n && b < n { TextOrderIsTimeOrder(a, b); }
    } else {
      OrderEndsAt10000();
    }
  }

  lemma EdgeDates()
    ensures Civil(2932896).year == 9999 && Civil(2932897).year == 10000
  {
    DaysBeforeYearIs(9999);
    DaysBeforeYearIs(10000);
    DaysBeforeYearIs(10001);
    YearIs(2932896, 9999);
    YearIs(2932897, 10000);
  }

  lemma YearIs(days: nat, y: nat)
    requires DaysBeforeYear(y) <= days + EPOCH < DaysBeforeYear(y + 1)
    ensures Civil(days).year == y
  {
    CivilIsRight(days);
    var date := Civil(days);
    WithinYear(date);
    if date.year < y { YearsGrow(date.year + 1, y); }
    if y < date.year { YearsGrow(y + 1, date.year); }
  }

  lemma EdgeDigits()
    ensures Decimal.Pad(9999, 4)[0] == '9' && Decimal.Pad(10000, 4)[0] == '1'
  {
    assert Decimal.Pad(9, 1) == "9";
    assert Decimal.Pad(99, 2)[0] == '9';
    assert Decimal.Pad(999, 3)[0] == '9';
    assert Decimal.Show(1) == "1";
    assert Decimal.Show(10) == "10";
    assert Decimal.Pad(10, 1) == "10";
    assert Decimal.Pad(100, 2)[0] == '1';
    assert Decimal.Pad(1000, 3)[0] == '1';
  }
}
