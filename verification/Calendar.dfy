/** Days of the Gregorian calendar, numbered and written, and moments within them. */
module Calendar {
  import opened Text
  import opened Adf
  import opened Decimals

  datatype Civil = Civil(year: int, month: int, day: int)

  predicate Leap(year: int) {
    year % 4 == 0 && (year % 100 != 0 || year % 400 == 0)
  }

  function YearLength(year: int): nat {
    if Leap(year) then 366 else 365
  }

  function MonthLength(year: int, month: int): (days: nat)
    ensures 28 <= days <= 31
  {
    if month == 2 then (if Leap(year) then 29 else 28)
    else if month == 4 || month == 6 || month == 9 || month == 11 then 30
    else 31
  }

  predicate Valid(c: Civil) {
    1 <= c.month <= 12 && 1 <= c.day <= MonthLength(c.year, c.month)
  }

  // ---- days counted from the first of the year 0 ----

  const CYCLE := 146097

  /** The days before a year of the first four hundred. */
  function YearStart(year: nat): nat {
    if year == 0 then 0 else YearStart(year - 1) + YearLength(year - 1)
  }

  /** The days of a year before a month. */
  function MonthStart(year: int, month: int): nat
    requires 1 <= month <= 13
  {
    if month == 1 then 0 else MonthStart(year, month - 1) + MonthLength(year, month - 1)
  }

  function DaysOf(c: Civil): int
    requires Valid(c)
  {
    (c.year / 400) * CYCLE + YearStart(c.year % 400) + MonthStart(c.year, c.month) + c.day - 1
  }

  /** The year a number of days lies in, from some year on, and the days left in it. */
  function YearFrom(days: nat, year: nat): (r: (nat, nat))
    ensures r.0 >= year && r.1 < YearLength(r.0) && YearStart(r.0) + r.1 == YearStart(year) + days
    decreases days
  {
    if days < YearLength(year) then (year, days) else YearFrom(days - YearLength(year), year + 1)
  }

  function MonthFrom(year: int, days: nat, month: int): (r: (int, nat))
    requires 1 <= month <= 13 && MonthStart(year, month) + days < MonthStart(year, 13)
    ensures 1 <= r.0 <= 12 && r.1 < MonthLength(year, r.0) && MonthStart(year, r.0) + r.1 == MonthStart(year, month) + days
    decreases days
  {
    if days < MonthLength(year, month) then
      (month, days)
    else
      MonthFrom(year, days - MonthLength(year, month), month + 1)
  }

  lemma YearIsMonths(year: int)
    ensures MonthStart(year, 13) == YearLength(year)
  {
    assert MonthStart(year, 2) == 31;
    assert MonthStart(year, 3) == 31 + MonthLength(year, 2);
    assert MonthStart(year, 5) == MonthStart(year, 3) + 61;
    assert MonthStart(year, 7) == MonthStart(year, 5) + 61;
    assert MonthStart(year, 9) == MonthStart(year, 7) + 62;
    assert MonthStart(year, 11) == MonthStart(year, 9) + 61;
    assert MonthStart(year, 13) == MonthStart(year, 11) + 61;
  }

  lemma StepBy4(n: nat)
    ensures (n + 4) / 4 - (n + 3) / 4 == if n % 4 == 0 then 1 else 0
  {
  }

  lemma StepBy100(n: nat)
    ensures (n + 100) / 100 - (n + 99) / 100 == if n % 100 == 0 then 1 else 0
  {
  }

  lemma StepBy400(n: nat)
    ensures (n + 400) / 400 - (n + 399) / 400 == if n % 400 == 0 then 1 else 0
  {
  }

  lemma Multiples(n: int)
    ensures n % 400 == 0 ==> n % 100 == 0
    ensures n % 100 == 0 ==> n % 4 == 0
  {
    if n % 400 == 0 { Mod100(4 * (n / 400), 0); }
    if n % 100 == 0 { Mod4(25 * (n / 100), 0); }
  }

  lemma {:induction false} YearStartIs(year: nat)
    ensures YearStart(year) == 365 * year + (year + 3) / 4 - (year + 99) / 100 + (year + 399) / 400
  {
    if year > 0 {
      YearStartIs(year - 1);
      StepBy4(year - 1);
      StepBy100(year - 1);
      StepBy400(year - 1);
      Multiples(year - 1);
      assert YearStart(year) == YearStart(year - 1) + YearLength(year - 1);
      hide YearStart;
    }
  }

  lemma Mod4(k: int, n: int)
    ensures (4 * k + n) % 4 == n % 4
  {
  }

  lemma Mod100(k: int, n: int)
    ensures (100 * k + n) % 100 == n % 100
  {
  }

  lemma Mod400(k: int, n: int)
    ensures (400 * k + n) % 400 == n % 400 && (400 * k + n) / 400 == k + n / 400
  {
  }

  lemma LeapCycles(year: int, cycles: int)
    ensures Leap(cycles * 400 + year) == Leap(year)
  {
    Mod4(100 * cycles, year);
    Mod100(4 * cycles, year);
    Mod400(cycles, year);
  }

  /** The day of a number: its cycle of four hundred years, its year, its month. */
  function CivilOf(days: int): (c: Civil)
    ensures Valid(c)
  {
    var (year, rest) := YearFrom(days % CYCLE, 0);
    YearIsMonths(year);
    var (month, day) := MonthFrom(year, rest, 1);
    LeapCycles(year, days / CYCLE);
    Civil(days / CYCLE * 400 + year, month, day + 1)
  }

  lemma {:induction false} MonthStartCycles(year: int, cycles: int, month: int)
    requires 1 <= month <= 13
    ensures MonthStart(cycles * 400 + year, month) == MonthStart(year, month)
    decreases month
  {
    hide Leap;
    LeapCycles(year, cycles);
    if month > 1 { MonthStartCycles(year, cycles, month - 1); }
  }

  lemma YearWithinCycle(days: nat)
    requires days < CYCLE
    ensures YearFrom(days, 0).0 < 400
  {
    var year := YearFrom(days, 0).0;
    YearStartIs(year);
  }

  /** Numbering a day gives back the number it was found by. */
  lemma DaysOfCivil(days: int)
    ensures DaysOf(CivilOf(days)) == days
  {
    hide YearLength, MonthLength, YearStart, MonthStart, Leap;
    var cycles, rest := days / CYCLE, days % CYCLE;
    var (year, left) := YearFrom(rest, 0);
    YearIsMonths(year);
    FirstStarts(year);
    var (month, day) := MonthFrom(year, left, 1);
    YearWithinCycle(rest);
    MonthStartCycles(year, cycles, month);
    Mod400(cycles, year);
  }

  lemma FirstStarts(year: int)
    ensures YearStart(0) == 0 && MonthStart(year, 1) == 0
  {
  }

  lemma {:induction false} YearFromIs(start: nat, year: nat, rest: nat)
    requires start <= year && rest < YearLength(year)
    ensures YearStart(start) <= YearStart(year)
    ensures YearFrom(YearStart(year) - YearStart(start) + rest, start) == (year, rest)
    decreases year - start
  {
    if start < year {
      YearFromIs(start + 1, year, rest);
      assert YearStart(start + 1) == YearStart(start) + YearLength(start);
      hide YearStart, YearLength;
    }
  }

  lemma {:induction false} MonthFromIs(year: int, start: int, month: int, rest: nat)
    requires 1 <= start <= month <= 12 && rest < MonthLength(year, month)
    ensures MonthStart(year, start) <= MonthStart(year, month) && MonthStart(year, month) + rest < MonthStart(year, 13)
    ensures MonthFrom(year, MonthStart(year, month) - MonthStart(year, start) + rest, start) == (month, rest)
    decreases month - start
  {
    MonthsRise(year, month + 1, 13);
    assert MonthStart(year, month + 1) == MonthStart(year, month) + MonthLength(year, month);
    if start < month {
      MonthFromIs(year, start + 1, month, rest);
      assert MonthStart(year, start + 1) == MonthStart(year, start) + MonthLength(year, start);
      hide MonthStart, MonthLength;
    }
  }

  lemma {:induction false} MonthsRise(year: int, month: int, later: int)
    requires 1 <= month <= later <= 13
    ensures MonthStart(year, month) <= MonthStart(year, later)
    decreases later
  {
    if month < later { MonthsRise(year, month, later - 1); }
  }

  /** The days of a date's year up to it, counted in the same year of the first cycle. */
  lemma WithinYear(c: Civil, year: nat) returns (rest: nat)
    requires Valid(c) && year == c.year % 400
    ensures rest == MonthStart(c.year, c.month) + c.day - 1 && rest < YearLength(year)
    ensures MonthStart(year, 1) + rest < MonthStart(year, 13) && MonthFrom(year, rest, 1) == (c.month, c.day - 1)
  {
    var cycles := c.year / 400;
    assert c.year == cycles * 400 + year;
    MonthStartCycles(year, cycles, c.month);
    LeapCycles(year, cycles);
    assert MonthLength(year, c.month) == MonthLength(c.year, c.month);
    FirstStarts(year);
    MonthFromIs(year, 1, c.month, c.day - 1);
    YearIsMonths(year);
    rest := MonthStart(year, c.month) + c.day - 1;
  }

  /** And finding a day by its number gives back the day. */
  lemma CivilOfDays(c: Civil)
    requires Valid(c)
    ensures CivilOf(DaysOf(c)) == c
  {
    var cycles, year := c.year / 400, c.year % 400;
    var rest := WithinYear(c, year);
    YearFromIs(0, year, rest);
    CycleHolds(year);
    FirstStarts(year);
    hide YearLength, MonthLength, YearStart, MonthStart, Leap, MonthFrom, YearFrom;
    assert DaysOf(c) == cycles * CYCLE + (YearStart(year) + rest);
    Cycles(cycles, YearStart(year) + rest);
  }

  lemma Cycles(cycles: int, days: nat)
    requires days < CYCLE
    ensures (cycles * CYCLE + days) / CYCLE == cycles && (cycles * CYCLE + days) % CYCLE == days
  {
  }

  lemma CycleHolds(year: nat)
    requires year < 400
    ensures YearStart(year) + YearLength(year) <= CYCLE
  {
    assert YearStart(year + 1) == YearStart(year) + YearLength(year);
    hide YearStart, YearLength;
    YearStartIs(year + 1);
    FormulaHolds(year + 1);
  }

  lemma FormulaHolds(year: nat)
    requires year <= 400
    ensures 365 * year + (year + 3) / 4 - (year + 99) / 100 + (year + 399) / 400 <= CYCLE
  {
    if year < 400 {
      assert (year + 3) / 4 <= 100 && (year + 399) / 400 <= 1 && 0 <= (year + 99) / 100;
    }
  }

  // ---- writing a day and reading it ----

  function YearText(year: int): (text: string)
    ensures forall c :: c in text ==> IsDigit(c) || c == '-'
  {
    if year < 0 then "-" + Padded(-year, 4) else Padded(year, 4)
  }

  function CivilText(c: Civil): (text: string)
    requires Valid(c)
    ensures forall d :: d in text ==> IsDigit(d) || d == '-'
  {
    YearText(c.year) + "-" + Padded(c.month, 2) + "-" + Padded(c.day, 2)
  }

  predicate DayForm(text: string) {
    |text| == 10 && forall i :: 0 <= i < 10 ==> if i == 4 || i == 7 then text[i] == '-' else IsDigit(text[i])
  }

  function ParseDay(text: string): (c: Option<Civil>)
    ensures c.Some? ==> Valid(c.value) && 0 <= c.value.year <= 9999
  {
    if !DayForm(text) then None
    else
      FourDigits(text[..4]);
      var c := Civil(DecimalValue(text[..4]), DecimalValue(text[5..7]), DecimalValue(text[8..]));
      if Valid(c) then Some(c) else None
  }

  lemma OneMoreDigit(text: string)
    requires Digits(text)
    ensures text[..|text| - 1] == "" || Digits(text[..|text| - 1])
    ensures DecimalValue(text) <= 10 * DecimalValue(text[..|text| - 1]) + 9
  {
    assert IsDigit(text[|text| - 1]);
  }

  lemma FourDigits(text: string)
    requires |text| == 4 && Digits(text)
    ensures DecimalValue(text) <= 9999
  {
    assert text[..3][..2] == text[..2] && text[..2][..1] == text[..1] && text[..1][..0] == "";
    OneMoreDigit(text);
    OneMoreDigit(text[..3]);
    OneMoreDigit(text[..2]);
    OneMoreDigit(text[..1]);
    assert DecimalValue("") == 0;
  }

  /** A year that is written with four digits. */
  predicate FourDigitYear(year: int) {
    0 <= year <= 9999
  }

  /** A day is read back as itself exactly when its year is written with four digits. */
  lemma ParseCivilText(c: Civil)
    requires Valid(c)
    ensures ParseDay(CivilText(c)) == if FourDigitYear(c.year) then Some(c) else None
  {
    hide DecimalValue, Padded, MonthLength;
    PaddedWidth(if c.year < 0 then -c.year else c.year);
    PaddedWidth(c.month);
    PaddedWidth(c.day);
    var year, month, day, text := YearText(c.year), Padded(c.month, 2), Padded(c.day, 2), CivilText(c);
    if FourDigitYear(c.year) {
      ValueOfPadded(c.year, 4);
      ValueOfPadded(c.month, 2);
      ValueOfPadded(c.day, 2);
      assert text[..4] == year && text[5..7] == month && text[8..] == day;
      assert text[4] == '-' && text[7] == '-';
      assert forall i :: 0 <= i < 4 ==> text[i] == year[i];
      assert forall i :: 0 <= i < 2 ==> text[5 + i] == month[i] && text[8 + i] == day[i];
    } else {
      assert |text| > 10;
    }
  }

  /** A day that is read is written as it was. */
  lemma TextOfParsed(text: string)
    requires ParseDay(text).Some?
    ensures CivilText(ParseDay(text).value) == text
  {
    var year, month, day := text[..4], text[5..7], text[8..];
    assert Digits(year) && Digits(month) && Digits(day) && text[4] == '-' && text[7] == '-';
    hide DecimalValue, Padded;
    PaddedOfValue(year);
    PaddedOfValue(month);
    PaddedOfValue(day);
    assert text == year + "-" + month + "-" + day;
  }

  // ---- moments, in milliseconds from the first of 1970 ----

  const DAY := 86_400_000
  const EPOCH := 719528

  /** The first of 1970 in days from the first of the year 0. */
  lemma EpochIs()
    ensures DaysOf(Civil(1970, 1, 1)) == EPOCH
  {
    YearStartIs(370);
    FirstStarts(1970);
    assert 1970 / 400 == 4 && 1970 % 400 == 370;
  }

  /** A number cut to a whole one, toward zero. */
  function Truncated(n: real): int {
    if n >= 0.0 then n.Floor else -((-n).Floor)
  }

  /** The moment of a date: a decimal string or a number; anything else is none. */
  function Moment(attrs: Attrs): Option<int> {
    if "timestamp" !in attrs then None
    else
      match attrs["timestamp"]
      case Str(s) => (match Atoi(s) case Number(n) => Some(n) case Malformed => None)
      case Num(n) => Some(Truncated(n))
      case OtherValue => None
  }

  /** The day a moment lies in, in universal time. */
  function DayAt(moment: int): (c: Civil)
    ensures Valid(c)
  {
    CivilOf(EPOCH + moment / DAY)
  }

  /** The moment a day begins with. */
  function Midnight(c: Civil): int
    requires Valid(c)
  {
    (DaysOf(c) - EPOCH) * DAY
  }

  /** A moment read from its day is that day's beginning. */
  lemma MidnightOf(moment: int)
    ensures Midnight(DayAt(moment)) == moment - moment % DAY
  {
    DaysOfCivil(EPOCH + moment / DAY);
  }

  /** The beginning of a day lies in that day. */
  lemma DayOfMidnight(c: Civil)
    requires Valid(c)
    ensures DayAt(Midnight(c)) == c
  {
    hide DaysOf, CivilOf;
    CivilOfDays(c);
    assert (DaysOf(c) - EPOCH) * DAY / DAY == DaysOf(c) - EPOCH;
  }

  /** The beginning of a day whose year has four digits is written in 64 bits. */
  lemma MidnightFits(c: Civil)
    requires Valid(c) && FourDigitYear(c.year)
    ensures -MAX_INT <= Midnight(c) <= MAX_INT
  {
    hide YearStart, MonthStart;
    YearIsMonths(c.year);
    MonthsRise(c.year, c.month, 13);
    CycleHolds(c.year % 400);
    assert 0 <= c.year / 400 <= 24;
    assert 0 <= DaysOf(c) <= 25 * CYCLE + 397;
  }
}
