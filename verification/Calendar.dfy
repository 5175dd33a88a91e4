/** Stored timestamps in plain numbers (server/local/sqlitestore.go): which texts are read, and the
    instant each stands for, counted by the Gregorian calendar. */
module Calendar {
  import opened Options
  import opened Timestamps

  /** The shape of a stored text: a digit wherever this has one, and everything else as here. */
  const LAYOUT: string := "0000-00-00T00:00:00.000000000Z"

  ghost predicate IsLayout(s: string) {
    |s| == |LAYOUT| && forall i :: 0 <= i < |s| ==> if '0' == LAYOUT[i] then '0' <= s[i] <= '9' else s[i] == LAYOUT[i]
  }

  /** The digit at a place. */
  function D(s: string, i: nat): (n: int)
    requires i < |s|
  {
    s[i] as int - '0' as int
  }

  function Two(s: string, i: nat): (n: int)
    requires i + 1 < |s|
  {
    10 * D(s, i) + D(s, i + 1)
  }

  function Year(s: string): (n: int)
    requires |s| >= 4
  {
    100 * Two(s, 0) + Two(s, 2)
  }

  function Fraction(s: string): (n: int)
    requires |s| == 30
  {
    10_000_000 * Two(s, 20) + 100_000 * Two(s, 22) + 1_000 * Two(s, 24) + 10 * Two(s, 26) + D(s, 28)
  }

  // ---------- days ----------

  ghost predicate IsLeap(y: int) {
    y % 4 == 0 && (y % 100 != 0 || y % 400 == 0)
  }

  ghost predicate IsDate(y: int, m: int, d: int) {
    && 1 <= m <= 12 && 1 <= d <= 31
    && (m == 4 || m == 6 || m == 9 || m == 11 ==> d <= 30)
    && (m == 2 ==> d <= 29) && (m == 2 && d == 29 ==> IsLeap(y))
  }

  /** Days from the start of year 0 to the start of year y: a day more for every fourth year, but not
      for every hundredth unless it is a four-hundredth. */
  function YearStart(y: nat): (n: int) {
    365 * y + (y + 3) / 4 - (y + 99) / 100 + (y + 399) / 400
  }

  /** Days from the start of a year to that of its m-th month. */
  function MonthStart(m: nat): (n: nat)
    requires 1 <= m <= 12
  {
    [0, 31, 59, 90, 120, 151, 181, 212, 243, 273, 304, 334][m - 1]
  }

  ghost function DayNumber(y: nat, m: nat, d: nat): (n: int)
    requires 1 <= m <= 12
  {
    YearStart(y) + MonthStart(m) + (if m > 2 && IsLeap(y) then 1 else 0) + d - 1
  }

  /** How many multiples of the period lie before y, from 0 on. */
  function Multiples(y: nat, period: nat): (n: int)
    requires period > 0
  {
    (y + period - 1) / period
  }

  lemma NextMultiple(y: nat, period: nat)
    requires period > 0
    ensures Multiples(y + 1, period) == Multiples(y, period) + if y % period == 0 then 1 else 0
  {
    var q, r := y / period, y % period;
    assert y == q * period + r;
    if r == 0 {
      Quotient(y + period, period, q + 1, 0);
      Quotient(y + period - 1, period, q, period - 1);
    } else {
      Quotient(y + period, period, q + 1, r);
      Quotient(y + period - 1, period, q + 1, r - 1);
    }
  }

  lemma Quotient(n: nat, d: nat, q: nat, r: nat)
    requires r < d && n == q * d + r
    ensures n / d == q
  {
    var k := n / d;
    assert n == k * d + n % d;
    if k < q {
      TimesMore(k, q, d);
    } else if k > q {
      TimesMore(q, k, d);
    }
  }

  lemma {:induction false} TimesMore(a: nat, b: nat, d: nat)
    requires a < b
    ensures a * d + d <= b * d
    decreases b
  {
    assert (b - 1) * d + d == b * d;
    if a < b - 1 {
      TimesMore(a, b - 1, d);
    }
  }

  lemma ByMultiples(y: nat)
    ensures YearStart(y) == 365 * y + Multiples(y, 4) - Multiples(y, 100) + Multiples(y, 400)
  {
  }

  lemma LeapIsMultiple(y: nat)
    ensures IsLeap(y) <==> Leap(y)
    ensures y % 400 == 0 ==> y % 100 == 0
    ensures y % 100 == 0 ==> y % 4 == 0
  {
    if y % 400 == 0 {
      PartOf(y, 100, 4);
    }
    if y % 100 == 0 {
      PartOf(y, 4, 25);
    }
  }

  lemma PartOf(y: nat, a: nat, b: nat)
    requires a > 0 && b > 0 && y % (a * b) == 0
    ensures y % a == 0
  {
    var k := y / (a * b);
    assert y == k * (a * b);
    Regrouped(k, a, b);
    Quotient(y, a, k * b, 0);
  }

  lemma Regrouped(k: nat, a: nat, b: nat)
    ensures k * (a * b) == (k * b) * a
  {
  }

  lemma NextYear(y: nat)
    ensures YearStart(y + 1) == YearStart(y) + if Leap(y) then 366 else 365
  {
    hide Multiples, YearStart;
    ByMultiples(y);
    ByMultiples(y + 1);
    NextMultiple(y, 4);
    NextMultiple(y, 100);
    NextMultiple(y, 400);
    LeapIsMultiple(y);
  }

  lemma {:induction false} YearStartIsCount(y: nat)
    ensures Before(y, YearSize()) == YearStart(y)
  {
    hide YearStart, Leap;
    if y > 0 {
      YearStartIsCount(y - 1);
      NextYear(y - 1);
    } else {
      ByMultiples(0);
      NothingBefore(YearSize());
    }
  }

  lemma NextMonth(m: nat, leap: bool)
    requires 1 <= m < 12
    ensures MonthSize(leap)(m - 1) == MonthStart(m + 1) - MonthStart(m) + if m == 2 && leap then 1 else 0
  {
  }

  lemma {:induction false} MonthStartIsCount(m: nat, leap: bool)
    requires 1 <= m <= 12
    ensures Before(m - 1, MonthSize(leap)) == MonthStart(m) + if m > 2 && leap then 1 else 0
    decreases m
  {
    hide MonthStart, MonthSize;
    if m > 1 {
      MonthStartIsCount(m - 1, leap);
      NextMonth(m - 1, leap);
    } else {
      FirstMonth();
      NothingBefore(MonthSize(leap));
    }
  }

  lemma FirstMonth()
    ensures MonthStart(1) == 0
  {
  }

  /** The calendar goes round in 400 years of 146097 days. Of the centuries in it only the first has a
      day for its own hundredth year. Four years in a row have 1461 days, a day less when they begin
      with a hundredth year that is no four-hundredth. */
  lemma CalendarCycle(y: nat)
    ensures YearStart(y + 400) == YearStart(y) + 146_097
    ensures y % 400 == 0 ==> YearStart(y + 100) == YearStart(y) + 36_525 && YearStart(y + 200) == YearStart(y + 100) + 36_524
    ensures y % 400 == 0 ==> YearStart(y + 300) == YearStart(y + 200) + 36_524 && YearStart(y + 400) == YearStart(y + 300) + 36_524
    ensures y % 4 == 0 ==> YearStart(y + 4) == YearStart(y) + if y % 100 == 0 && y % 400 != 0 then 1_460 else 1_461
  {
    FourHundred(y);
    if y % 400 == 0 {
      Centuries(y / 400);
    }
    if y % 4 == 0 {
      FourYears(y);
    }
  }

  lemma FourHundred(y: nat)
    ensures YearStart(y + 400) == YearStart(y) + 146_097
  {
    assert (y + 400 + 3) / 4 == (y + 3) / 4 + 100;
    assert (y + 400 + 99) / 100 == (y + 99) / 100 + 4;
    assert (y + 400 + 399) / 400 == (y + 399) / 400 + 1;
  }

  lemma CenturyStart(k: nat, i: nat)
    requires i <= 4
    ensures YearStart(400 * k + 100 * i) == 146_097 * k + 36_524 * i + if i > 0 then 1 else 0
  {
    var y := 400 * k + 100 * i;
    Quotient(y + 3, 4, 100 * k + 25 * i, 3);
    Quotient(y + 99, 100, 4 * k + i, 99);
    if i == 0 {
      Quotient(y + 399, 400, k, 399);
    } else {
      Quotient(y + 399, 400, k + 1, 100 * i - 1);
    }
  }

  lemma Centuries(k: nat)
    ensures var y := 400 * k;
      && YearStart(y + 100) == YearStart(y) + 36_525 && YearStart(y + 200) == YearStart(y + 100) + 36_524
      && YearStart(y + 300) == YearStart(y + 200) + 36_524 && YearStart(y + 400) == YearStart(y + 300) + 36_524
  {
    hide YearStart;
    CenturyStart(k, 0);
    CenturyStart(k, 1);
    CenturyStart(k, 2);
    CenturyStart(k, 3);
    CenturyStart(k, 4);
  }

  lemma FourYears(y: nat)
    requires y % 4 == 0
    ensures YearStart(y + 4) == YearStart(y) + if y % 100 == 0 && y % 400 != 0 then 1_460 else 1_461
  {
    hide YearStart;
    NextYear(y);
    NextYear(y + 1);
    NextYear(y + 2);
    NextYear(y + 3);
  }

  // ---------- texts ----------

  /** The number in the first n characters. */
  lemma ValuePrefix(s: string, n: nat)
    requires n < |s| && AllDigits(s)
    ensures Value(s[..n + 1]) == 10 * Value(s[..n]) + D(s, n) && Value(s[..0]) == 0
  {
    assert s[..n + 1][..n] == s[..n];
  }

  lemma TwoDigits(s: string)
    requires |s| == 2 && AllDigits(s)
    ensures Value(s) == Two(s, 0)
  {
    hide Value;
    ValuePrefix(s, 0);
    ValuePrefix(s, 1);
    assert s[..2] == s;
  }

  lemma FourDigits(s: string)
    requires |s| == 4 && AllDigits(s)
    ensures Value(s) == 100 * Two(s, 0) + Two(s, 2)
  {
    hide Value;
    ValuePrefix(s, 0);
    ValuePrefix(s, 1);
    ValuePrefix(s, 2);
    ValuePrefix(s, 3);
    assert s[..4] == s;
  }

  lemma NineDigits(s: string)
    requires |s| == 9 && AllDigits(s)
    ensures Value(s) == 10_000_000 * Two(s, 0) + 100_000 * Two(s, 2) + 1_000 * Two(s, 4) + 10 * Two(s, 6) + D(s, 8)
  {
    hide Value, D, AllDigits;
    ValuePrefix(s, 0);
    ValuePrefix(s, 1);
    ValuePrefix(s, 2);
    ValuePrefix(s, 3);
    ValuePrefix(s, 4);
    ValuePrefix(s, 5);
    ValuePrefix(s, 6);
    ValuePrefix(s, 7);
    ValuePrefix(s, 8);
    assert s[..9] == s;
  }

  /** Where the k-th field starts. */
  function From(k: nat): (i: nat)
    requires k <= 7
  {
    [0, 5, 8, 11, 14, 17, 20, 30][k]
  }

  lemma LayoutAt(k: nat)
    requires k < 7
    ensures From(k) + Width(k) + 1 == From(k + 1) <= 30 == |LAYOUT| && LAYOUT[From(k) + Width(k)] == Mark(k)
    ensures forall i :: From(k) <= i < From(k) + Width(k) ==> LAYOUT[i] == '0'
  {
  }

  /** The k-th field of a text of the layout and the mark after it. */
  lemma LayoutField(s: string, k: nat)
    requires IsLayout(s) && k < 7
    ensures |s| == 30 && From(k) + Width(k) < 30 && From(k + 1) == From(k) + Width(k) + 1
    ensures AllDigits(s[From(k)..From(k) + Width(k)]) && s[From(k) + Width(k)] == Mark(k)
  {
    hide From, Width, Mark;
    LayoutAt(k);
    MarkIsNoDigit(k);
  }

  lemma ScanLayout(s: string, k: nat)
    requires IsLayout(s) && k < 7 && From(k + 1) <= |s| && Scan(s[From(k + 1)..], k + 1).Some?
    ensures From(k) + Width(k) <= |s| && AllDigits(s[From(k)..From(k) + Width(k)])
    ensures Scan(s[From(k)..], k) == Some([Value(s[From(k)..From(k) + Width(k)])] + Scan(s[From(k + 1)..], k + 1).value)
  {
    hide *;
    LayoutField(s, k);
    var i, j := From(k), From(k) + Width(k);
    assert |s[i..j]| == Width(k);
    ScanField(s[i..j], s[j + 1..], k);
    assert s[i..] == s[i..j] + ([s[j]] + s[j + 1..]);
  }

  lemma MarkIsNoDigit(k: nat)
    requires k < 7
    ensures Mark(k) != '0'
  {
  }

  ghost function Fields(s: string): (f: seq<int>)
    requires |s| == 30
  {
    [Year(s), Two(s, 5), Two(s, 8), Two(s, 11), Two(s, 14), Two(s, 17), Fraction(s)]
  }

  lemma Widths()
    ensures Width(0) == 4 && Width(1) == 2 && Width(2) == 2 && Width(3) == 2 && Width(4) == 2 && Width(5) == 2 && Width(6) == 9
    ensures From(0) == 0 && From(1) == 5 && From(2) == 8 && From(3) == 11 && From(4) == 14 && From(5) == 17 && From(6) == 20 && From(7) == 30
  {
  }

  lemma LayoutDigits(s: string)
    requires IsLayout(s)
    ensures |s| == 30 && AllDigits(s[0..4]) && AllDigits(s[5..7]) && AllDigits(s[8..10]) && AllDigits(s[11..13])
    ensures AllDigits(s[14..16]) && AllDigits(s[17..19]) && AllDigits(s[20..29])
  {
    hide IsLayout, From, Width, AllDigits, Mark;
    Widths();
    LayoutField(s, 0);
    LayoutField(s, 1);
    LayoutField(s, 2);
    LayoutField(s, 3);
    LayoutField(s, 4);
    LayoutField(s, 5);
    LayoutField(s, 6);
  }

  lemma ScanValues(s: string)
    requires IsLayout(s)
    ensures |s| == 30 && AllDigits(s[0..4]) && AllDigits(s[5..7]) && AllDigits(s[8..10]) && AllDigits(s[11..13])
    ensures AllDigits(s[14..16]) && AllDigits(s[17..19]) && AllDigits(s[20..29])
    ensures Scan(s, 0).Some? && Scan(s, 0).value ==
      [Value(s[0..4]), Value(s[5..7]), Value(s[8..10]), Value(s[11..13]), Value(s[14..16]), Value(s[17..19]), Value(s[20..29])]
  {
    hide *;
    LayoutDigits(s);
    Widths();
    assert s[30..] == "" && s[0..] == s;
    ScanNothing();
    ScanLayout(s, 6);
    ScanLayout(s, 5);
    ScanLayout(s, 4);
    ScanLayout(s, 3);
    ScanLayout(s, 2);
    ScanLayout(s, 1);
    ScanLayout(s, 0);
    assert Scan(s[20..], 6).value == [Value(s[20..29])];
    assert Scan(s[17..], 5).value == [Value(s[17..19]), Value(s[20..29])];
    assert Scan(s[14..], 4).value == [Value(s[14..16]), Value(s[17..19]), Value(s[20..29])];
    assert Scan(s[11..], 3).value == [Value(s[11..13]), Value(s[14..16]), Value(s[17..19]), Value(s[20..29])];
    assert Scan(s[8..], 2).value == [Value(s[8..10]), Value(s[11..13]), Value(s[14..16]), Value(s[17..19]), Value(s[20..29])];
    assert Scan(s[5..], 1).value == [Value(s[5..7]), Value(s[8..10]), Value(s[11..13]), Value(s[14..16]), Value(s[17..19]), Value(s[20..29])];
  }

  lemma Shift(s: string, i: nat, j: nat, k: nat)
    requires i <= j <= |s| && k + 1 < j - i
    ensures Two(s[i..j], k) == Two(s, i + k)
  {
  }

  /** A text of the layout is read field by field. */
  lemma ScanFields(s: string)
    requires IsLayout(s)
    ensures |s| == 30 && Scan(s, 0).Some? && Scan(s, 0).value == Fields(s)
  {
    hide Scan, Value, AllDigits, IsLayout, Two, D;
    ScanValues(s);
    FourDigits(s[0..4]);
    TwoDigits(s[5..7]);
    TwoDigits(s[8..10]);
    TwoDigits(s[11..13]);
    TwoDigits(s[14..16]);
    TwoDigits(s[17..19]);
    NineDigits(s[20..29]);
    Shift(s, 0, 4, 0);
    Shift(s, 0, 4, 2);
    Shift(s, 5, 7, 0);
    Shift(s, 8, 10, 0);
    Shift(s, 11, 13, 0);
    Shift(s, 14, 16, 0);
    Shift(s, 17, 19, 0);
    Shift(s, 20, 29, 0);
    Shift(s, 20, 29, 2);
    Shift(s, 20, 29, 4);
    Shift(s, 20, 29, 6);
    LastDigit(s);
  }

  lemma LastDigit(s: string)
    requires |s| == 30
    ensures D(s[20..29], 8) == D(s, 28)
  {
  }

  lemma ScanNothing()
    ensures Scan("", 7) == Some([])
  {
  }

  lemma DateIsValid(y: nat, m: nat, d: nat)
    ensures IsDate(y, m, d) <==> m >= 1 && d >= 1 && ValidDate(Date(y, m - 1, d - 1))
  {
  }

  lemma DayIsCounted(y: nat, m: nat, d: nat)
    requires IsDate(y, m, d)
    ensures DaysTo(Date(y, m - 1, d - 1)) == DayNumber(y, m, d)
  {
    hide Before, YearStart, MonthStart;
    YearStartIsCount(y);
    MonthStartIsCount(m, Leap(y));
  }

  /** The nanoseconds from the start of year 0 to the moment of the text. */
  ghost function Moment(s: string): (t: int)
    requires |s| == 30 && 1 <= Two(s, 5) <= 12 && Year(s) >= 0 && Two(s, 8) >= 0
  {
    (DayNumber(Year(s), Two(s, 5), Two(s, 8)) * 86_400 + Two(s, 11) * 3_600 + Two(s, 14) * 60 + Two(s, 17)) * 1_000_000_000 + Fraction(s)
  }

  ghost predicate IsMoment(s: string)
    requires |s| == 30
  {
    IsDate(Year(s), Two(s, 5), Two(s, 8)) && Two(s, 11) < 24 && Two(s, 14) < 60 && Two(s, 17) < 60
  }

  lemma DigitIsDigit(s: string, i: nat)
    requires |s| == 30 && i < 30 && '0' <= s[i] <= '9'
    ensures 0 <= D(s, i) < 10
  {
  }

  lemma TwoIsNumber(s: string, k: nat, i: nat)
    requires IsLayout(s) && k < 7 && From(k) <= i && i + 1 < From(k) + Width(k)
    ensures |s| == 30 && i + 1 < 30 && 0 <= Two(s, i) < 100
  {
    LayoutAt(k);
    hide From, Width, D;
    DigitIsDigit(s, i);
    DigitIsDigit(s, i + 1);
  }

  lemma DigitsNotNegative(s: string)
    requires IsLayout(s)
    ensures |s| == 30 && Year(s) >= 0 && Two(s, 5) >= 0 && Two(s, 8) >= 0 && Two(s, 11) >= 0 && Two(s, 14) >= 0 && Two(s, 17) >= 0
    ensures 0 <= Fraction(s) < 1_000_000_000
  {
    Widths();
    DigitIsDigit(s, 28);
    hide IsLayout, Two, From, Width, D;
    TwoIsNumber(s, 0, 0);
    TwoIsNumber(s, 0, 2);
    TwoIsNumber(s, 1, 5);
    TwoIsNumber(s, 2, 8);
    TwoIsNumber(s, 3, 11);
    TwoIsNumber(s, 4, 14);
    TwoIsNumber(s, 5, 17);
    TwoIsNumber(s, 6, 20);
    TwoIsNumber(s, 6, 22);
    TwoIsNumber(s, 6, 24);
    TwoIsNumber(s, 6, 26);
  }

  lemma RangeIsMoment(s: string, f: seq<nat>)
    requires |s| == 30 && f == Fields(s) && Fraction(s) < 1_000_000_000
    ensures InRange(f) <==> IsMoment(s)
  {
    hide IsDate, ValidDate, Year, Two, Fraction;
    assert f[0] == Year(s) && f[1] == Two(s, 5) && f[2] == Two(s, 8);
    DateIsValid(f[0], f[1], f[2]);
    RangeIsValid(f);
  }

  lemma RangeIsValid(f: seq<nat>)
    requires |f| == 7
    ensures InRange(f) <==>
      f[1] > 0 && f[2] > 0 && ValidDate(Date(f[0], f[1] - 1, f[2] - 1)) && f[3] < 24 && f[4] < 60 && f[5] < 60 && f[6] < SECOND
  {
  }

  /** Of the texts of the layout exactly those that name a day of the calendar and a time of day are
      read, each as its moment. */
  lemma ReadsCalendar(s: string)
    requires IsLayout(s)
    ensures |s| == 30 && Year(s) >= 0 && Two(s, 8) >= 0 && (Parse(s).Some? <==> IsMoment(s))
    ensures IsMoment(s) ==> Parse(s).value == Moment(s)
  {
    hide Scan, IsDate, ValidDate, DaysTo, DayNumber, Year, Two, Fraction, IsLayout, InRange, Moment, IsMoment, Fields;
    ScanFields(s);
    DigitsNotNegative(s);
    RangeIsMoment(s, Scan(s, 0).value);
    if IsMoment(s) {
      MomentIs(s);
    }
  }

  lemma MomentIs(s: string)
    requires |s| == 30 && Scan(s, 0).Some? && Scan(s, 0).value == Fields(s) && InRange(Scan(s, 0).value)
    requires IsMoment(s) && Year(s) >= 0 && Two(s, 8) >= 0
    ensures Parse(s).Some? && Parse(s).value == Moment(s)
  {
    hide Scan, DaysTo, DayNumber, Year, Two, Fraction, InRange, StampFrom;
    DayIsCounted(Year(s), Two(s, 5), Two(s, 8));
    StampOfFields(Scan(s, 0).value);
  }

  lemma StampOfFields(f: seq<nat>)
    requires InRange(f)
    ensures InstantOf(StampFrom(f)) ==
      (DaysTo(Date(f[0], f[1] - 1, f[2] - 1)) * 86_400 + f[3] * 3_600 + f[4] * 60 + f[5]) * 1_000_000_000 + f[6]
  {
    hide DaysTo;
  }

  /** Whatever the form of a text that is read, it begins with a day of the calendar. */
  lemma ReadsDay(text: string)
    requires Parse(text).Some?
    ensures |text| > 10 && (forall i :: 0 <= i <= 10 ==> if '0' == LAYOUT[i] then '0' <= text[i] <= '9' else text[i] == LAYOUT[i])
    ensures IsDate(Year(text), Two(text, 5), Two(text, 8))
  {
    hide Scan, InRange, IsDate, Year, Two, StampFrom;
    var f := Scan(text, 0).value;
    DateFields(text);
    RangeIsValid(f);
    DateIsValid(f[0], f[1], f[2]);
  }

  lemma DateFields(text: string)
    requires Scan(text, 0).Some?
    ensures |text| > 10 && (forall i :: 0 <= i <= 10 ==> if '0' == LAYOUT[i] then '0' <= text[i] <= '9' else text[i] == LAYOUT[i])
    ensures var f := Scan(text, 0).value; f[0] == Year(text) && f[1] == Two(text, 5) && f[2] == Two(text, 8)
  {
    hide *;
    Widths();
    DateMarks();
    DateField(text, 0);
    DateField(text[5..], 1);
    DateField(text[8..], 2);
    assert text[5..][3..] == text[8..];
    DateLayout(text);
    assert text[5..][..2] == text[5..7] && text[8..][..2] == text[8..10];
    TwoDigits(text[5..7]);
    TwoDigits(text[8..10]);
    FourDigits(text[..4]);
    assert text[..4] == text[0..4];
    Shift(text, 0, 4, 0);
    Shift(text, 0, 4, 2);
    Shift(text, 5, 7, 0);
    Shift(text, 8, 10, 0);
    YearIs(text);
  }

  lemma TakeDate(s: string, k: nat)
    requires k < 3 && Take(s, k).Some?
    ensures Width(k) <= |s| && AllDigits(s[..Width(k)]) && Take(s, k).value == (Value(s[..Width(k)]), Width(k))
  {
  }

  lemma DateField(s: string, k: nat)
    requires k < 3 && Scan(s, k).Some?
    ensures var w := Width(k);
      && |s| > w && AllDigits(s[..w]) && s[w] == Mark(k) && Scan(s[w + 1..], k + 1).Some?
      && Scan(s, k).value == [Value(s[..w])] + Scan(s[w + 1..], k + 1).value
  {
    hide Scan, Value, AllDigits, Take, Mark, Width;
    ScanStep(s, k);
    TakeDate(s, k);
  }

  lemma DateMarks()
    ensures Mark(0) == '-' && Mark(1) == '-' && Mark(2) == 'T'
  {
  }

  lemma DateLayout(text: string)
    requires |text| > 10 && AllDigits(text[..4]) && AllDigits(text[5..][..2]) && AllDigits(text[8..][..2])
    requires text[4] == '-' && text[5..][2] == '-' && text[8..][2] == 'T'
    ensures forall i :: 0 <= i <= 10 ==> if '0' == LAYOUT[i] then '0' <= text[i] <= '9' else text[i] == LAYOUT[i]
  {
    forall i | 0 <= i <= 10 && i != 4 && i != 7 && i != 10 ensures '0' <= text[i] <= '9' && LAYOUT[i] == '0' {
      if i < 4 {
        assert IsDigit(text[..4][i]);
      } else if i < 7 {
        assert IsDigit(text[5..][..2][i - 5]);
      } else {
        assert IsDigit(text[8..][..2][i - 8]);
      }
    }
  }

  lemma YearIs(text: string)
    requires |text| >= 4
    ensures Year(text) == 100 * Two(text, 0) + Two(text, 2)
  {
  }

  // ---------- and what is stored ----------

  /** The text has the shape of the layout from the k-th field on. */
  ghost predicate HasShape(s: string, k: nat)
    requires k <= 7
  {
    From(k) + |s| == 30 && forall i :: 0 <= i < |s| ==> if '0' == LAYOUT[From(k) + i] then '0' <= s[i] <= '9' else s[i] == LAYOUT[From(k) + i]
  }

  lemma ShapeStep(field: string, rest: string, k: nat)
    requires k < 7 && |field| == Width(k) && AllDigits(field) && HasShape(rest, k + 1)
    ensures HasShape(field + ([Mark(k)] + rest), k)
  {
    hide From, Width, Mark;
    LayoutAt(k);
    MarkIsNoDigit(k);
  }

  lemma {:induction false} WrittenShape(f: seq<nat>, k: nat)
    requires |f| + k == 7 && Timestamps.Fits(f, k)
    ensures HasShape(Written(f, k), k)
    decreases |f|
  {
    hide HasShape, Pad, Width, Mark, Power;
    if f == [] {
      NoShape();
    } else {
      FitsFirst(f, k);
      WrittenShape(f[1..], k + 1);
      PadLength(f[0], Width(k));
      PadValue(f[0], Width(k));
      ShapeStep(Pad(f[0], Width(k)), Written(f[1..], k + 1), k);
    }
  }

  lemma NoShape()
    ensures HasShape("", 7)
  {
  }

  lemma ShapeIsLayout(s: string)
    ensures HasShape(s, 0) <==> IsLayout(s)
  {
  }

  /** Every instant before the year 10000 is stored in the layout, as the text of its moment. */
  lemma StoresCalendar(t: nat)
    requires t < YearStart(10_000) * 86_400 * 1_000_000_000
    ensures IsLayout(Ts(t)) && IsMoment(Ts(t)) && Year(Ts(t)) >= 0 && Two(Ts(t), 8) >= 0 && Moment(Ts(t)) == t
  {
    hide StampOf, IsLayout, HasShape, Written, Timestamps.Fits, IsMoment, Moment, Year, Two, YearStart;
    YearIsBefore(t);
    StampIsRight(t);
    StampFits(StampOf(t));
    WrittenShape(FieldsOf(StampOf(t)), 0);
    ShapeIsLayout(Ts(t));
    ParsesBack(t);
    ReadsCalendar(Ts(t));
  }

  lemma YearIsBefore(t: nat)
    ensures YearOf(t) < 10_000 <==> t < YearStart(10_000) * 86_400 * 1_000_000_000
  {
    hide DateOf, YearStart, Before;
    var days := t / DAY;
    DateIsRight(days);
    DayOfYear(DateOf(days));
    var d := DateOf(days);
    YearStartIsCount(10_000);
    BucketOrder(d.year, Before(d.month, MonthSize(Leap(d.year))) + d.day, 10_000, 0, YearSize());
    InDays(t, YearStart(10_000));
  }

  lemma InDays(t: nat, n: int)
    ensures t / DAY < n <==> t < n * 86_400 * 1_000_000_000
  {
  }

  /** The year 1970 starts 719528 days after the year 0. */
  lemma Epoch()
    ensures Ts(719_528 * 86_400 * 1_000_000_000) == "1970-01-01T" + "00:00:00." + "000000000Z"
  {
    hide *;
    var day, time, fraction := "1970-01-01T", "00:00:00.", "000000000Z";
    var s := day + time + fraction;
    EpochShape(day, time, fraction);
    EpochMoment(s);
    ReadsCalendar(s);
    StoredAsRead(s, 719_528 * 86_400 * 1_000_000_000);
  }

  /** A text of the layout that is read is what is stored of its instant. */
  lemma StoredAsRead(s: string, t: nat)
    requires IsLayout(s) && Parse(s) == Some(t)
    ensures Ts(t) == s
  {
    hide Parse, Ts;
    ParsedIsStoredExactly(s, t);
  }

  ghost predicate StartsEpoch(s: string)
    requires |s| == 30
  {
    && s[0] == '1' && s[1] == '9' && s[2] == '7' && s[3] == '0' && s[5] == '0' && s[6] == '1' && s[8] == '0' && s[9] == '1'
    && forall i :: 11 <= i < 30 && LAYOUT[i] == '0' ==> s[i] == '0'
  }

  ghost predicate FitsLayout(part: string, from: nat) {
    from + |part| <= 30 && forall i :: 0 <= i < |part| ==> if LAYOUT[from + i] == '0' then '0' <= part[i] <= '9' else part[i] == LAYOUT[from + i]
  }

  lemma EpochDayShape(day: string)
    requires day == "1970-01-01T"
    ensures |day| == 11 && FitsLayout(day, 0)
    ensures day[0] == '1' && day[1] == '9' && day[2] == '7' && day[3] == '0' && day[5] == '0' && day[6] == '1' && day[8] == '0' && day[9] == '1'
  {
  }

  lemma EpochTimeShape(time: string, fraction: string)
    requires time == "00:00:00." && fraction == "000000000Z"
    ensures |time| == 9 && FitsLayout(time, 11) && forall i :: 0 <= i < 9 && LAYOUT[11 + i] == '0' ==> time[i] == '0'
    ensures |fraction| == 10 && FitsLayout(fraction, 20) && forall i :: 0 <= i < 10 && LAYOUT[20 + i] == '0' ==> fraction[i] == '0'
  {
  }

  lemma ThreeParts(day: string, time: string, fraction: string)
    requires |day| == 11 && |time| == 9 && |fraction| == 10
    requires FitsLayout(day, 0) && FitsLayout(time, 11) && FitsLayout(fraction, 20)
    ensures IsLayout(day + time + fraction)
  {
    var s := day + time + fraction;
    forall i | 0 <= i < 30 ensures if LAYOUT[i] == '0' then '0' <= s[i] <= '9' else s[i] == LAYOUT[i] {
      if i < 11 {
        assert s[i] == day[i] && LAYOUT[0 + i] == LAYOUT[i];
      } else if i < 20 {
        assert s[i] == time[i - 11] && LAYOUT[11 + (i - 11)] == LAYOUT[i];
      } else {
        assert s[i] == fraction[i - 20] && LAYOUT[20 + (i - 20)] == LAYOUT[i];
      }
    }
  }

  lemma ThreeEpochParts(day: string, time: string, fraction: string)
    requires |day| == 11 && |time| == 9 && |fraction| == 10
    requires day[0] == '1' && day[1] == '9' && day[2] == '7' && day[3] == '0' && day[5] == '0' && day[6] == '1' && day[8] == '0' && day[9] == '1'
    requires forall i :: 0 <= i < 9 && LAYOUT[11 + i] == '0' ==> time[i] == '0'
    requires forall i :: 0 <= i < 10 && LAYOUT[20 + i] == '0' ==> fraction[i] == '0'
    ensures StartsEpoch(day + time + fraction)
  {
    var s := day + time + fraction;
    forall i | 11 <= i < 30 && LAYOUT[i] == '0' ensures s[i] == '0' {
      if i < 20 {
        assert s[i] == time[i - 11] && LAYOUT[11 + (i - 11)] == LAYOUT[i];
      } else {
        assert s[i] == fraction[i - 20] && LAYOUT[20 + (i - 20)] == LAYOUT[i];
      }
    }
  }

  lemma EpochShape(day: string, time: string, fraction: string)
    requires day == "1970-01-01T" && time == "00:00:00." && fraction == "000000000Z"
    ensures |day + time + fraction| == 30 && IsLayout(day + time + fraction) && StartsEpoch(day + time + fraction)
  {
    hide *;
    EpochDayShape(day);
    EpochTimeShape(time, fraction);
    ThreeParts(day, time, fraction);
    ThreeEpochParts(day, time, fraction);
  }

  lemma EpochFields(s: string)
    requires IsLayout(s) && StartsEpoch(s)
    ensures Year(s) == 1970 && Two(s, 5) == 1 && Two(s, 8) == 1 && Two(s, 11) == Two(s, 14) == Two(s, 17) == 0 && Fraction(s) == 0
  {
  }

  lemma EpochDay()
    ensures DayNumber(1970, 1, 1) == 719_528 && IsDate(1970, 1, 1)
  {
  }

  lemma EpochMoment(s: string)
    requires IsLayout(s) && StartsEpoch(s)
    ensures IsMoment(s) && Moment(s) == 719_528 * 86_400 * 1_000_000_000
  {
    hide IsDate, DayNumber, Year, Two, Fraction, IsLayout, StartsEpoch;
    DigitsNotNegative(s);
    EpochFields(s);
    EpochDay();
  }
}
