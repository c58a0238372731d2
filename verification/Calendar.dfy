/**
 The proleptic Gregorian calendar in UTC, as prunes read dates and imports spell
 instants: days since 1970-01-01 from a date and back, and the texts of both.
 */
module Calendar {
  import opened Wrappers
  import opened Tasks

  const SECONDS_PER_DAY := 86_400

  datatype Date = Date(year: int, month: int, day: int)

  predicate Leap(year: int) {
    (year % 4 == 0 && year % 100 != 0) || year % 400 == 0
  }

  function DaysInMonth(year: int, month: int): int {
    if month in {1, 3, 5, 7, 8, 10, 12} then 31
    else if month in {4, 6, 9, 11} then 30
    else if month == 2 then (if Leap(year) then 29 else 28)
    else 0
  }

  predicate Valid(date: Date) {
    1 <= date.month <= 12 && 1 <= date.day <= DaysInMonth(date.year, date.month)
  }

  /** The calendar's own account of a day: the one after it. */
  function NextDay(date: Date): Date {
    if date.day < DaysInMonth(date.year, date.month) then date.(day := date.day + 1)
    else if date.month < 12 then Date(date.year, date.month + 1, 1)
    else Date(date.year + 1, 1, 1)
  }

  // ----- the day arithmetic

  /** Days since 1970-01-01 of a date. */
  function DaysFromCivil(date: Date): int {
    var year := if date.month <= 2 then date.year - 1 else date.year;
    var era := year / 400;
    var yearOfEra := year - era * 400;
    var monthFromMarch := (date.month + 9) % 12;
    var dayOfYear := (153 * monthFromMarch + 2) / 5 + date.day - 1;
    var dayOfEra := yearOfEra * 365 + yearOfEra / 4 - yearOfEra / 100 + dayOfYear;
    era * 146_097 + dayOfEra - 719_468
  }

  /** The year of an era a day of it is in. */
  function YearOfEra(ofEra: int): int {
    (ofEra - ofEra / 1460 + ofEra / 36_524 - ofEra / 146_096) / 365
  }

  /** The date `days` after 1970-01-01. */
  function Civil(days: int): Date {
    var shifted := days + 719_468;
    var era := shifted / 146_097;
    var ofEra := shifted % 146_097;
    var yearOfEra := YearOfEra(ofEra);
    var ofYear := ofEra - (365 * yearOfEra + yearOfEra / 4 - yearOfEra / 100);
    var shiftedMonth := (5 * ofYear + 2) / 153;
    var day := ofYear - (153 * shiftedMonth + 2) / 5 + 1;
    var month := if shiftedMonth < 10 then shiftedMonth + 3 else shiftedMonth - 9;
    var year := yearOfEra + era * 400 + if month <= 2 then 1 else 0;
    Date(year, month, day)
  }

  // ----- division

  /** What lies `r` past the `q`th multiple of `n` divides into them. */
  lemma Divides(n: int, q: int, r: int)
    requires 0 <= r < n
    ensures (n * q + r) / n == q && (n * q + r) % n == r
  {
    var x := n * q + r;
    var d := x / n - q;
    assert n * d == n * (x / n) - n * q;
    assert x == n * (x / n) + x % n;
  }

  // ----- years of an era, from March

  /** Days of an era before the March that begins its year `y`. */
  function YearStart(y: int): int {
    365 * y + y / 4 - y / 100
  }

  /** How long the year from March of `y` is: as long as the February that ends it makes it. */
  function YearLength(y: int): int {
    if Leap(y + 1) then 366 else 365
  }

  /** A year of an era as its century, the four years of it, and the year of those. */
  predicate Split(y: int, c: int, b: int, a: int) {
    0 <= c <= 3 && 0 <= b <= 24 && 0 <= a <= 3 && y == 100 * c + 4 * b + a
  }

  lemma SplitYear(y: int) returns (c: int, b: int, a: int)
    requires 0 <= y < 400
    ensures Split(y, c, b, a)
  {
    c := y / 100;
    b := y % 100 / 4;
    a := y % 100 % 4;
  }

  lemma SplitStart(y: int, c: int, b: int, a: int)
    requires Split(y, c, b, a)
    ensures YearStart(y) == 36_524 * c + 1461 * b + 365 * a
  {
    Divides(4, 25 * c + b, a);
    Divides(100, c, 4 * b + a);
  }

  lemma SplitLeap(y: int, c: int, b: int, a: int)
    requires Split(y, c, b, a)
    ensures YearLength(y) == if a == 3 && (b < 24 || c == 3) then 366 else 365
  {
    if a < 3 {
      Divides(4, 25 * c + b, a + 1);
      Divides(400, 0, y + 1);
    } else if b < 24 {
      Divides(4, 25 * c + b + 1, 0);
      Divides(100, c, 4 * b + 4);
    } else if c < 3 {
      Divides(100, c + 1, 0);
      Divides(400, 0, y + 1);
    }
  }

  lemma FoursOfDay(c: int, b: int, a: int, r: int) returns (over: int)
    requires 0 <= c <= 3 && 0 <= b <= 24 && 0 <= a <= 3 && 0 <= r <= 365 && (r == 365 ==> a == 3)
    ensures (36_524 * c + 1461 * b + 365 * a + r) / 1460 == 25 * c + b + over
    ensures 0 <= over <= 1 && 0 <= r - over < 365
  {
    var rest := 24 * c + b + 365 * a + r;
    over := if rest < 1460 then 0 else 1;
    Divides(1460, 25 * c + b + over, rest - 1460 * over);
  }

  lemma CenturyOfDay(c: int, b: int, a: int, r: int)
    requires 0 <= c <= 3 && 0 <= b <= 24 && 0 <= a <= 3 && 0 <= r <= 365 && (r == 365 ==> a == 3 && (b < 24 || c == 3))
    ensures var e := 36_524 * c + 1461 * b + 365 * a + r; e / 36_524 - e / 146_096 == c
  {
    if c == 3 && b == 24 && a == 3 && r == 365 {
    } else {
      Divides(36_524, c, 1461 * b + 365 * a + r);
      Divides(146_096, 0, 36_524 * c + 1461 * b + 365 * a + r);
    }
  }

  /** The year of an era is found from any of its days. */
  lemma YearOfEraIs(y: int, c: int, b: int, a: int, r: int)
    requires Split(y, c, b, a) && 0 <= r < YearLength(y)
    ensures YearOfEra(YearStart(y) + r) == y
  {
    hide YearStart, YearLength;
    SplitStart(y, c, b, a);
    SplitLeap(y, c, b, a);
    var over := FoursOfDay(c, b, a, r);
    CenturyOfDay(c, b, a, r);
    var e := YearStart(y) + r;
    assert e - e / 1460 + e / 36_524 - e / 146_096 == 365 * y + (r - over);
    Divides(365, y, r - over);
  }

  /** Every day of an era is one day of one of its years. */
  lemma YearOfEraHolds(e: int) returns (y: int)
    requires 0 <= e < 146_097
    ensures 0 <= y < 400 && YearOfEra(e) == y && 0 <= e - YearStart(y) < YearLength(y)
  {
    var c := if e / 36_524 < 4 then e / 36_524 else 3;
    var f := e - 36_524 * c;
    var b := f / 1461;
    var g := f - 1461 * b;
    var a := if g / 365 < 4 then g / 365 else 3;
    y := 100 * c + 4 * b + a;
    SplitStart(y, c, b, a);
    SplitLeap(y, c, b, a);
    hide YearStart, YearLength, YearOfEra;
    YearOfEraIs(y, c, b, a, g - 365 * a);
  }

  /** The years of an era follow one another, and fill it. */
  lemma YearEnds(y: int)
    requires 0 <= y < 400
    ensures YearStart(y) + YearLength(y) == if y < 399 then YearStart(y + 1) else 146_097
    ensures 0 <= YearStart(y) && YearStart(y) + 365 <= YearStart(y) + YearLength(y) <= 146_097
  {
    var c, b, a := SplitYear(y);
    SplitStart(y, c, b, a);
    SplitLeap(y, c, b, a);
    if a < 3 {
      SplitStart(y + 1, c, b, a + 1);
    } else if b < 24 {
      SplitStart(y + 1, c, b + 1, 0);
    } else if c < 3 {
      SplitStart(y + 1, c + 1, 0, 0);
    }
    hide YearStart, YearLength;
  }

  /** The calendar repeats every era. */
  lemma ErasAlike(era: int, y: int)
    ensures Leap(400 * era + y) <==> Leap(y)
  {
    assert 400 * era + y == 4 * (100 * era) + y && 400 * era + y == 100 * (4 * era) + y;
    SameRest(4, 100 * era, y);
    SameRest(100, 4 * era, y);
    SameRest(400, era, y);
  }

  lemma SameRest(n: int, q: int, x: int)
    requires n > 0
    ensures (n * q + x) % n == x % n
  {
    assert n * q + x == n * (q + x / n) + x % n;
    Divides(n, q + x / n, x % n);
  }

  // ----- months of a year, from March

  function MonthStart(m: int): int {
    (153 * m + 2) / 5
  }

  function MonthOf(m: int): int {
    if m < 10 then m + 3 else m - 9
  }

  /** How long the `m`th month from March is, the last being February of `year`. */
  function MonthLength(m: int, year: int): int {
    DaysInMonth(year, MonthOf(m))
  }

  lemma MonthEnds(m: int, year: int)
    requires 0 <= m <= 11
    ensures MonthStart(m) + MonthLength(m, year) ==
            if m < 11 then MonthStart(m + 1) else if Leap(year) then 366 else 365
    ensures 0 <= MonthStart(m) <= 337 && 1 <= MonthLength(m, year)
    ensures (MonthOf(m) + 9) % 12 == m && (MonthOf(m) <= 2 <==> m >= 10) && 1 <= MonthOf(m) <= 12
  {
    hide Leap;
  }

  /** A day of a year is of the month whose start the arithmetic finds. */
  lemma MonthOfDay(m: int, year: int, day: int)
    requires 0 <= m <= 11 && 0 <= day < MonthLength(m, year)
    ensures (5 * (MonthStart(m) + day) + 2) / 153 == m
  {
    hide Leap;
  }

  lemma DayInMonth(ofYear: int, year: int)
    requires 0 <= ofYear < if Leap(year) then 366 else 365
    ensures var m := (5 * ofYear + 2) / 153;
            0 <= m <= 11 && 0 <= ofYear - MonthStart(m) < MonthLength(m, year)
  {
    var m := (5 * ofYear + 2) / 153;
    MonthEnds(m, year);
    hide MonthLength, Leap;
  }

  // ----- both ways

  /** A day by its era, its year and month from March, and its day of the month, from 1. */
  datatype Parts = Parts(era: int, y: int, m: int, day: int)

  predicate ValidParts(p: Parts) {
    0 <= p.y < 400 && 0 <= p.m <= 11 && 1 <= p.day <= MonthLength(p.m, p.y + 1)
  }

  function DateOf(p: Parts): Date {
    Date(400 * p.era + p.y + if p.m >= 10 then 1 else 0, MonthOf(p.m), p.day)
  }

  function PartsOf(date: Date): Parts {
    var shifted := date.year - if date.month <= 2 then 1 else 0;
    Parts(shifted / 400, shifted % 400, (date.month + 9) % 12, date.day)
  }

  function DaysOf(p: Parts): int {
    146_097 * p.era + YearStart(p.y) + MonthStart(p.m) + p.day - 1 - 719_468
  }

  /** A month's length is its date's year's, however eras are counted. */
  lemma PartsMonth(p: Parts)
    requires 0 <= p.y < 400 && 0 <= p.m <= 11
    ensures DaysInMonth(DateOf(p).year, MonthOf(p.m)) == MonthLength(p.m, p.y + 1)
  {
    ErasAlike(p.era, p.y + 1);
    assert p.m == 11 ==> DateOf(p).year == 400 * p.era + (p.y + 1);
    hide Leap;
  }

  /** Dates and their parts name the same days. */
  lemma DateParts(date: Date)
    requires 1 <= date.month <= 12
    ensures DateOf(PartsOf(date)) == date
    ensures DaysFromCivil(date) == DaysOf(PartsOf(date))
    ensures Valid(date) <==> ValidParts(PartsOf(date))
  {
    var p := PartsOf(date);
    assert MonthOf(p.m) == date.month && (p.m >= 10 <==> date.month <= 2);
    assert DateOf(p) == date;
    PartsMonth(p);
    hide Leap, DaysInMonth, MonthLength;
  }

  lemma PartsDate(p: Parts)
    requires 0 <= p.y < 400 && 0 <= p.m <= 11
    ensures 1 <= DateOf(p).month <= 12 && PartsOf(DateOf(p)) == p
  {
    Divides(400, p.era, p.y);
    assert DateOf(p).year - (if p.m >= 10 then 1 else 0) == 400 * p.era + p.y;
    assert (MonthOf(p.m) + 9) % 12 == p.m && (MonthOf(p.m) <= 2 <==> p.m >= 10);
  }

  lemma StartsAre(y: int, m: int)
    ensures YearStart(y) == 365 * y + y / 4 - y / 100 && MonthStart(m) == (153 * m + 2) / 5
    ensures 0 <= m <= 11 ==> (MonthOf(m) == if m < 10 then m + 3 else m - 9) && (MonthOf(m) <= 2 <==> m >= 10)
  {
  }

  /** The day arithmetic finds the parts again. */
  lemma CivilOfParts(p: Parts)
    requires ValidParts(p)
    ensures Civil(DaysOf(p)) == DateOf(p)
  {
    hide YearOfEra, YearStart, YearLength, MonthLength, MonthStart, MonthOf, DaysInMonth, Leap, Split;
    var c, b, a := SplitYear(p.y);
    MonthEnds(p.m, p.y + 1);
    YearEnds(p.y);
    var ofYear := MonthStart(p.m) + p.day - 1;
    YearHoldsMonths(p);
    YearOfEraIs(p.y, c, b, a, ofYear);
    MonthOfDay(p.m, p.y + 1, p.day - 1);
    Divides(146_097, p.era, YearStart(p.y) + ofYear);
    StartsAre(p.y, p.m);
    assert DaysOf(p) + 719_468 == 146_097 * p.era + (YearStart(p.y) + ofYear);
  }

  lemma YearHoldsMonths(p: Parts)
    requires ValidParts(p)
    ensures MonthStart(p.m) + p.day - 1 < YearLength(p.y)
  {
    MonthEnds(p.m, p.y + 1);
    if p.m < 11 {
      MonthEnds(p.m + 1, p.y + 1);
    }
    hide MonthStart, MonthLength, Leap;
  }

  /** Every day has its parts. */
  lemma PartsOfDays(days: int) returns (p: Parts)
    ensures ValidParts(p) && DaysOf(p) == days
  {
    var shifted := days + 719_468;
    var (era, ofEra) := (shifted / 146_097, shifted % 146_097);
    var y := YearOfEraHolds(ofEra);
    var ofYear := ofEra - YearStart(y);
    DayInMonth(ofYear, y + 1);
    var m := (5 * ofYear + 2) / 153;
    p := Parts(era, y, m, ofYear - MonthStart(m) + 1);
    hide YearOfEra, YearStart, YearLength, MonthStart, MonthLength;
  }

  /** A date's days lead back to it. */
  lemma CivilOfDays(date: Date)
    requires Valid(date)
    ensures Civil(DaysFromCivil(date)) == date
  {
    hide Civil, DaysFromCivil, DaysOf, DateOf, PartsOf, ValidParts;
    DateParts(date);
    CivilOfParts(PartsOf(date));
  }

  /** Every day is a valid date's, and that date's alone. */
  lemma DaysOfCivil(days: int)
    ensures Valid(Civil(days)) && DaysFromCivil(Civil(days)) == days
  {
    hide Civil, DaysFromCivil, DaysOf, Valid;
    var p := PartsOfDays(days);
    CivilOfParts(p);
    PartsDate(p);
    DateParts(DateOf(p));
  }

  /** The parts of the day after. */
  function NextParts(p: Parts): Parts {
    if p.day < MonthLength(p.m, p.y + 1) then p.(day := p.day + 1)
    else if p.m < 11 then p.(m := p.m + 1, day := 1)
    else if p.y < 399 then Parts(p.era, p.y + 1, 0, 1)
    else Parts(p.era + 1, 0, 0, 1)
  }

  lemma NextYearFollows(p: Parts)
    requires ValidParts(p) && p.m == 11 && p.day == MonthLength(11, p.y + 1)
    ensures var next := NextParts(p);
            YearStart(p.y) + MonthStart(11) + MonthLength(11, p.y + 1) + 146_097 * p.era ==
            YearStart(next.y) + MonthStart(0) + 146_097 * next.era
  {
    hide YearStart, MonthStart, MonthLength, Leap, YearLength;
    MonthEnds(11, p.y + 1);
    YearEnds(p.y);
    StartsAre(0, 0);
    LengthIs(p.y);
  }

  lemma LengthIs(y: int)
    ensures YearLength(y) == if Leap(y + 1) then 366 else 365
  {
  }

  lemma NextPartsFollow(p: Parts)
    requires ValidParts(p)
    ensures ValidParts(NextParts(p)) && DaysOf(NextParts(p)) == DaysOf(p) + 1
  {
    hide YearStart, MonthStart, MonthLength, Leap, YearLength;
    var next := NextParts(p);
    MonthEnds(p.m, p.y + 1);
    MonthEnds(next.m, next.y + 1);
    if p.m == 11 && p.day == MonthLength(11, p.y + 1) {
      NextYearFollows(p);
    }
  }

  lemma NextDayParts(p: Parts)
    requires ValidParts(p)
    ensures DateOf(NextParts(p)) == NextDay(DateOf(p))
  {
    PartsMonth(p);
    hide Leap, DaysInMonth, MonthLength;
  }

  /** The day after a date is one day on, from 1970-01-01. */
  lemma DaysAreConsecutive(date: Date)
    requires Valid(date)
    ensures Valid(NextDay(date)) && DaysFromCivil(NextDay(date)) == DaysFromCivil(date) + 1
    ensures DaysFromCivil(Date(1970, 1, 1)) == 0
  {
    hide DaysFromCivil, DaysOf, NextParts, NextDay, PartsOf, DateOf, ValidParts;
    var p := PartsOf(date);
    DateParts(date);
    NextPartsFollow(p);
    NextDayParts(p);
    assert NextParts(p).y < 400 && 0 <= NextParts(p).y && 0 <= NextParts(p).m <= 11 by { NextInRange(p); }
    PartsDate(NextParts(p));
    DateParts(NextDay(date));
    Epoch();
  }

  lemma NextInRange(p: Parts)
    requires ValidParts(NextParts(p))
    ensures 0 <= NextParts(p).y < 400 && 0 <= NextParts(p).m <= 11
  {
  }

  lemma Epoch()
    ensures DaysFromCivil(Date(1970, 1, 1)) == 0
  {
  }

  // ----- digits

  predicate Digit(c: char) {
    '0' <= c <= '9'
  }

  predicate Digits(s: string) {
    forall i :: 0 <= i < |s| ==> Digit(s[i])
  }

  function Value(s: string): nat
    requires Digits(s)
  {
    if s == "" then 0 else 10 * Value(s[..|s| - 1]) + (s[|s| - 1] - '0') as nat
  }

  /** The decimal digits of `n`, zeros before them to a width of `width`. */
  function Padded(n: nat, width: nat): string
    decreases n + width
  {
    if n == 0 && width == 0 then ""
    else Padded(n / 10, if width == 0 then 0 else width - 1) + ['0' + (n % 10) as char]
  }

  /** The same of a number with a sign, which takes one of the width. */
  function Spelled(n: int, width: nat): string {
    if n < 0 then "-" + Padded(-n, if width == 0 then 0 else width - 1) else Padded(n, width)
  }

  lemma {:induction false} DigitsPadded(s: string)
    requires Digits(s)
    ensures Padded(Value(s), |s|) == s
  {
    if s != "" {
      var last := |s| - 1;
      DigitsPadded(s[..last]);
      Divides(10, Value(s[..last]), (s[last] - '0') as nat);
      assert s == s[..last] + [s[last]];
    }
  }

  function Ten(n: nat): nat {
    if n == 0 then 1 else 10 * Ten(n - 1)
  }

  lemma {:induction false} PaddedValue(n: nat, width: nat)
    requires n < Ten(width)
    ensures |Padded(n, width)| == width && Digits(Padded(n, width)) && Value(Padded(n, width)) == n
  {
    if width > 0 {
      PaddedValue(n / 10, width - 1);
      var text, before := Padded(n, width), Padded(n / 10, width - 1);
      assert text[..|text| - 1] == before;
      assert 0 <= n % 10 < 10;
      assert text[|text| - 1] == '0' + (n % 10) as char;
    }
  }

  // ----- the texts

  function Number(part: string): Option<int> {
    if Digits(part) then Some(Value(part)) else None
  }

  /** A date, `YYYY-MM-DD`, at midnight UTC. */
  function ReadDate(text: string): Option<Timestamp> {
    if |text| != 10 || text[4] != '-' || text[7] != '-' then None else
    var (year, month, day) := (Number(text[0..4]), Number(text[5..7]), Number(text[8..10]));
    if year.None? || month.None? || day.None? then None
    else if DaysInMonth(year.value, month.value) == 0 then None
    else if !(1 <= day.value <= DaysInMonth(year.value, month.value)) then None
    else Some(Timestamp(DaysFromCivil(Date(year.value, month.value, day.value)) * SECONDS_PER_DAY, 0))
  }

  function WithoutZeros(s: string): string {
    if s != "" && s[|s| - 1] == '0' then WithoutZeros(s[..|s| - 1]) else s
  }

  function DateText(date: Date): string {
    Spelled(date.year, 4) + "-" + Padded(NatOf(date.month), 2) + "-" + Padded(NatOf(date.day), 2)
  }

  /** A month or a day, which no date spelled has negative. */
  function NatOf(n: int): nat {
    if n < 0 then 0 else n
  }

  function ClockText(second: nat): string {
    Padded(second / 3600, 2) + ":" + Padded(second % 3600 / 60, 2) + ":" + Padded(second % 60, 2)
  }

  function FractionText(nanos: int): string {
    if nanos == 0 then "" else "." + WithoutZeros(Spelled(nanos, 9))
  }

  /** How an instant is spelled: RFC 3339 at `Z`, with only as many fraction digits as it needs, up to nine. */
  function Rfc3339Nano(at: Timestamp): string {
    DateText(Civil(at.seconds / SECONDS_PER_DAY)) + "T" + ClockText(at.seconds % SECONDS_PER_DAY) +
    FractionText(at.nanos) + "Z"
  }

  /** A text read as a date is that date's spelling. */
  lemma ReadDateSpelled(text: string) returns (date: Date)
    requires ReadDate(text).Some?
    ensures Valid(date) && 0 <= date.year < 10_000 && text == DateText(date)
    ensures ReadDate(text) == Some(Timestamp(DaysFromCivil(date) * SECONDS_PER_DAY, 0))
  {
    hide DaysFromCivil, Leap;
    var (y, m, d) := (text[0..4], text[5..7], text[8..10]);
    date := Date(Value(y), Value(m), Value(d));
    DigitsPadded(y);
    DigitsPadded(m);
    DigitsPadded(d);
    ValueBound(y);
    assert text == y + [text[4]] + m + [text[7]] + d;
    assert [text[4]] == "-" && [text[7]] == "-";
  }

  lemma {:induction false} ValueBound(s: string)
    requires Digits(s)
    ensures Value(s) < Ten(|s|)
  {
    if s != "" {
      ValueBound(s[..|s| - 1]);
    }
  }

  /** Every text read as a date is spelled back, at midnight. */
  lemma DateSpelledBack(text: string)
    requires ReadDate(text).Some?
    ensures Rfc3339Nano(ReadDate(text).value) == text + "T00:00:00Z"
  {
    hide Civil, DaysFromCivil, DateText, ReadDate, Valid, Padded;
    var date := ReadDateSpelled(text);
    var days := DaysFromCivil(date);
    Divides(SECONDS_PER_DAY, days, 0);
    CivilOfDays(date);
    Midnight();
  }

  lemma Midnight()
    ensures ClockText(0) == "00:00:00" && FractionText(0) == ""
  {
    assert Padded(0, 2) == Padded(0, 1) + "0";
    assert Padded(0, 1) == Padded(0, 0) + "0";
    assert Padded(0, 2) == "00";
  }

  lemma DateTextParts(date: Date)
    requires Valid(date) && 0 <= date.year < 10_000
    ensures var text := DateText(date);
            && |text| == 10 && text[4] == '-' && text[7] == '-'
            && Number(text[0..4]) == Some(date.year) && Number(text[5..7]) == Some(date.month)
            && Number(text[8..10]) == Some(date.day)
  {
    hide Leap, Padded, Digits, Value;
    PaddedValue(date.year, 4);
    PaddedValue(date.month, 2);
    PaddedValue(date.day, 2);
    var text := DateText(date);
    assert text[0..4] == Padded(date.year, 4);
    assert text[5..7] == Padded(date.month, 2);
    assert text[8..10] == Padded(date.day, 2);
  }

  /** Exactly the spellings of the valid dates of four-digit years are read as dates, each as its own. */
  lemma ReadDateReadsSpelling(date: Date)
    requires Valid(date) && 0 <= date.year < 10_000
    ensures ReadDate(DateText(date)) == Some(Timestamp(DaysFromCivil(date) * SECONDS_PER_DAY, 0))
  {
    hide Leap, DaysFromCivil, DateText, Number;
    DateTextParts(date);
  }

  /** An instant's spelling begins with the date its midnight is read from. */
  lemma SpellingBeginsWithItsDay(at: Timestamp)
    requires 0 <= Civil(at.seconds / SECONDS_PER_DAY).year < 10_000
    ensures var text := Rfc3339Nano(at);
            |text| > 10 && ReadDate(text[..10]) == Some(Timestamp(at.seconds - at.seconds % SECONDS_PER_DAY, 0))
  {
    hide Civil, DaysFromCivil, DateText, ReadDate, Valid, Padded, Number, ClockText, FractionText;
    var days := at.seconds / SECONDS_PER_DAY;
    DaysOfCivil(days);
    DateTextParts(Civil(days));
    ReadDateReadsSpelling(Civil(days));
    assert Rfc3339Nano(at)[..10] == DateText(Civil(days));
  }

  // ----- no two instants alike

  lemma {:induction false} WithoutZerosTells(a: string, b: string)
    requires |a| == |b| && WithoutZeros(a) == WithoutZeros(b)
    ensures a == b
  {
    if a != "" {
      var last := |a| - 1;
      ZerosOnly(a);
      ZerosOnly(b);
      var kept := |WithoutZeros(a)|;
      assert forall i :: 0 <= i < |a| ==> a[i] == b[i] by {
        forall i | 0 <= i < |a| ensures a[i] == b[i] {
          if i < kept {
            assert a[i] == WithoutZeros(a)[i] && b[i] == WithoutZeros(b)[i];
          }
        }
      }
    }
  }

  lemma {:induction false} ZerosOnly(s: string)
    ensures WithoutZeros(s) <= s && forall i :: |WithoutZeros(s)| <= i < |s| ==> s[i] == '0'
  {
    if s != "" && s[|s| - 1] == '0' {
      ZerosOnly(s[..|s| - 1]);
    }
  }

  lemma ClockReads(second: nat)
    requires second < SECONDS_PER_DAY
    ensures var text := ClockText(second);
            && |text| == 8 && Number(text[0..2]) == Some(second / 3600)
            && Number(text[3..5]) == Some(second % 3600 / 60) && Number(text[6..8]) == Some(second % 60)
  {
    hide Padded, Digits, Value;
    PaddedValue(second / 3600, 2);
    PaddedValue(second % 3600 / 60, 2);
    PaddedValue(second % 60, 2);
    var text := ClockText(second);
    assert text[0..2] == Padded(second / 3600, 2);
    assert text[3..5] == Padded(second % 3600 / 60, 2);
    assert text[6..8] == Padded(second % 60, 2);
  }

  lemma ClockTextTells(a: nat, b: nat)
    requires a < SECONDS_PER_DAY && b < SECONDS_PER_DAY && ClockText(a) == ClockText(b)
    ensures a == b
  {
    hide ClockText, Number;
    ClockReads(a);
    ClockReads(b);
    ClockSplits(a);
    ClockSplits(b);
  }

  lemma ClockSplits(second: nat)
    ensures second == 3600 * (second / 3600) + 60 * (second % 3600 / 60) + second % 60
  {
    SameRest(60, 60 * (second / 3600), second % 3600);
  }

  lemma FractionTextTells(a: int, b: int)
    requires 0 <= a < 1_000_000_000 && 0 <= b < 1_000_000_000 && FractionText(a) == FractionText(b)
    ensures a == b
  {
    hide Padded, Digits, Value, WithoutZeros;
    PaddedValue(a, 9);
    PaddedValue(b, 9);
    if a != 0 && b != 0 {
      assert FractionText(a)[1..] == WithoutZeros(Padded(a, 9)) && FractionText(b)[1..] == WithoutZeros(Padded(b, 9));
      WithoutZerosTells(Padded(a, 9), Padded(b, 9));
    }
  }

  /** A fraction's digits with the zeros at their end dropped stand for the same number of parts. */
  lemma {:induction false} ZerosWeighNothing(s: string)
    requires Digits(s)
    ensures var kept := WithoutZeros(s);
            && kept <= s && Digits(kept) && Value(kept) * Ten(|s| - |kept|) == Value(s)
            && (kept != "" ==> kept[|kept| - 1] != '0')
  {
    hide Ten;
    if s != "" && s[|s| - 1] == '0' {
      var before := s[..|s| - 1];
      ZerosWeighNothing(before);
      TenTimes(Value(WithoutZeros(before)), |before| - |WithoutZeros(before)|);
    } else {
      NoPlaces(Value(s));
    }
  }

  lemma TenTimes(value: nat, n: nat)
    ensures value * Ten(n + 1) == 10 * (value * Ten(n))
  {
  }

  lemma NoPlaces(value: nat)
    ensures value * Ten(0) == value
  {
  }

  /**
   What an instant's spelling says of its time of day: hours, minutes and seconds by their
   places, and the fraction of a second in as few digits as tell it, none when there is none.
   */
  lemma SpellingSaysTime(at: Timestamp)
    requires 0 <= at.nanos < 1_000_000_000 && 0 <= Civil(at.seconds / SECONDS_PER_DAY).year < 10_000
    ensures var (text, second) := (Rfc3339Nano(at), at.seconds % SECONDS_PER_DAY);
            && |text| >= 20 && text[10] == 'T' && text[13] == text[16] == ':' && text[|text| - 1] == 'Z'
            && Number(text[11..13]) == Some(second / 3600)
            && Number(text[14..16]) == Some(second % 3600 / 60)
            && Number(text[17..19]) == Some(second % 60)
            && var fraction := text[19..|text| - 1];
               if at.nanos == 0 then fraction == ""
               else
                 && 1 < |fraction| <= 10 && fraction[0] == '.' && fraction[|fraction| - 1] != '0'
                 && Digits(fraction[1..]) && Value(fraction[1..]) * Ten(10 - |fraction|) == at.nanos
  {
    hide Civil, DateText, ClockText, FractionText, Valid, Number, Padded, Digits, Value, WithoutZeros, Ten;
    var (text, clock) := (Rfc3339Nano(at), ClockText(at.seconds % SECONDS_PER_DAY));
    SpellingParts(at);
    ClockReads(at.seconds % SECONDS_PER_DAY);
    ClockColons(at.seconds % SECONDS_PER_DAY);
    DaysOfCivil(at.seconds / SECONDS_PER_DAY);
    DateTextParts(Civil(at.seconds / SECONDS_PER_DAY));
    assert text[11..13] == clock[0..2] && text[14..16] == clock[3..5] && text[17..19] == clock[6..8];
    assert text[13] == clock[2] && text[16] == clock[5];
    FractionSays(at.nanos);
  }

  lemma ClockColons(second: nat)
    requires second < SECONDS_PER_DAY
    ensures |ClockText(second)| == 8 && ClockText(second)[2] == ClockText(second)[5] == ':'
  {
    hide Padded, Digits, Value;
    PaddedValue(second / 3600, 2);
    PaddedValue(second % 3600 / 60, 2);
    PaddedValue(second % 60, 2);
  }

  lemma FractionSays(nanos: int)
    requires 0 <= nanos < 1_000_000_000
    ensures var fraction := FractionText(nanos);
            if nanos == 0 then fraction == ""
            else
              && 1 < |fraction| <= 10 && fraction[0] == '.' && fraction[|fraction| - 1] != '0'
              && Digits(fraction[1..]) && Value(fraction[1..]) * Ten(10 - |fraction|) == nanos
  {
    hide Padded, Digits, Value, WithoutZeros, Ten;
    NinePlaces();
    PaddedValue(nanos, 9);
    ZerosWeighNothing(Padded(nanos, 9));
    var kept := WithoutZeros(Padded(nanos, 9));
    if nanos != 0 {
      NothingIsZero();
      assert FractionText(nanos)[1..] == kept;
    }
  }

  lemma NinePlaces()
    ensures Ten(9) == 1_000_000_000
  {
    assert Ten(3) == 1000 && Ten(6) == 1_000_000;
  }

  lemma NothingIsZero()
    ensures Digits("") && Value("") == 0
  {
  }

  /** No two instants of four-digit years are spelled alike. */
  lemma SpellingTells(a: Timestamp, b: Timestamp)
    requires 0 <= a.nanos < 1_000_000_000 && 0 <= b.nanos < 1_000_000_000
    requires 0 <= Civil(a.seconds / SECONDS_PER_DAY).year < 10_000
    requires 0 <= Civil(b.seconds / SECONDS_PER_DAY).year < 10_000
    requires Rfc3339Nano(a) == Rfc3339Nano(b)
    ensures a == b
  {
    hide Civil, DateText, ClockText, FractionText, ReadDate, Valid, Number;
    SpellingParts(a);
    SpellingParts(b);
    SpellingBeginsWithItsDay(a);
    SpellingBeginsWithItsDay(b);
    ClockTextTells(a.seconds % SECONDS_PER_DAY, b.seconds % SECONDS_PER_DAY);
    FractionTextTells(a.nanos, b.nanos);
  }

  lemma SpellingParts(at: Timestamp)
    requires 0 <= Civil(at.seconds / SECONDS_PER_DAY).year < 10_000
    ensures var text := Rfc3339Nano(at);
            && |text| >= 20 && text[11..19] == ClockText(at.seconds % SECONDS_PER_DAY)
            && text[19..|text| - 1] == FractionText(at.nanos)
  {
    hide Civil, DateText, ClockText, FractionText, Valid, Number;
    DaysOfCivil(at.seconds / SECONDS_PER_DAY);
    DateTextParts(Civil(at.seconds / SECONDS_PER_DAY));
    ClockReads(at.seconds % SECONDS_PER_DAY);
  }
}
