/** Timestamps as text: a fixed-width form whose textual order is the order of time
    (server/local/sqlitestore.go). Time is counted in nanoseconds from the start of year 0. */
module Timestamps {
  import opened Numbers
  import opened Options

  // ---------- buckets of varying size, for years and for months ----------

  ghost predicate Positive(size: nat -> nat) {
    forall k :: size(k) > 0
  }

  /** How much comes before bucket k. */
  function Before(k: nat, size: nat -> nat): (n: nat) {
    if k == 0 then 0 else Before(k - 1, size) + size(k - 1)
  }

  /** Which bucket, from k on, the n-th place falls into, and where in it. */
  function Bucket(n: nat, k: nat, size: nat -> nat): (r: (nat, nat))
    requires Positive(size)
    decreases n
  {
    if n < size(k) then (k, n) else Bucket(n - size(k), k + 1, size)
  }

  lemma {:induction false} BucketIsRight(n: nat, k: nat, size: nat -> nat)
    requires Positive(size)
    ensures var (b, r) := Bucket(n, k, size); b >= k && r < size(b) && Before(b, size) + r == Before(k, size) + n
    decreases n
  {
    if n >= size(k) {
      BucketIsRight(n - size(k), k + 1, size);
    }
  }

  lemma {:induction false} BeforeGrows(k: nat, m: nat, size: nat -> nat)
    requires k < m
    ensures Before(k, size) + size(k) <= Before(m, size)
  {
    if k < m - 1 {
      BeforeGrows(k, m - 1, size);
    }
  }

  /** Places are ordered by bucket, then within it. */
  lemma BucketOrder(b: nat, r: nat, c: nat, q: nat, size: nat -> nat)
    requires r < size(b) && q < size(c)
    ensures Before(b, size) + r < Before(c, size) + q <==> b < c || (b == c && r < q)
  {
    if b < c {
      BeforeGrows(b, c, size);
    } else if c < b {
      BeforeGrows(c, b, size);
    }
  }

  // ---------- the calendar ----------

  predicate Leap(year: nat) {
    year % 4 == 0 && (year % 100 != 0 || year % 400 == 0)
  }

  function YearSize(): (size: nat -> nat)
    ensures Positive(size)
  {
    year => if Leap(year) then 366 else 365
  }

  /** Days of a month, months counted from 0; after December the count goes on with months of 31. */
  function MonthDays(month: nat, leap: bool): (n: nat) {
    if month == 1 then (if leap then 29 else 28)
    else if month == 3 || month == 5 || month == 8 || month == 10 then 30
    else 31
  }

  function MonthSize(leap: bool): (size: nat -> nat)
    ensures Positive(size)
  {
    month => MonthDays(month, leap)
  }

  lemma TwelveMonths(leap: bool)
    ensures Before(12, MonthSize(leap)) == if leap then 366 else 365
  {
    var size := MonthSize(leap);
    assert Before(3, size) == if leap then 91 else 90 by {
      assert Before(1, size) == size(0) && Before(2, size) == Before(1, size) + size(1);
    }
    assert Before(6, size) == Before(3, size) + 91 by {
      assert Before(4, size) == Before(3, size) + size(3) && Before(5, size) == Before(4, size) + size(4);
    }
    assert Before(9, size) == Before(6, size) + 92 by {
      assert Before(7, size) == Before(6, size) + size(6) && Before(8, size) == Before(7, size) + size(7);
    }
    assert Before(10, size) == Before(9, size) + size(9) && Before(11, size) == Before(10, size) + size(10);
  }

  /** Year, month and day counted from 0. */
  datatype Date = Date(year: nat, month: nat, day: nat)

  function DateOf(days: nat): (d: Date) {
    var (year, rest) := Bucket(days, 0, YearSize());
    var (month, day) := Bucket(rest, 0, MonthSize(Leap(year)));
    Date(year, month, day)
  }

  predicate ValidDate(d: Date) {
    d.month < 12 && d.day < MonthDays(d.month, Leap(d.year))
  }

  function DaysTo(d: Date): (days: nat) {
    Before(d.year, YearSize()) + (Before(d.month, MonthSize(Leap(d.year))) + d.day)
  }

  lemma DayOfYear(d: Date)
    requires ValidDate(d)
    ensures Before(d.month, MonthSize(Leap(d.year))) + d.day < YearSize()(d.year)
  {
    TwelveMonths(Leap(d.year));
    hide Before;
    BeforeGrows(d.month, 12, MonthSize(Leap(d.year)));
  }

  lemma NothingBefore(size: nat -> nat)
    ensures Before(0, size) == 0
  {
  }

  lemma MonthInYear(leap: bool, month: nat, day: nat)
    requires Before(month, MonthSize(leap)) + day < if leap then 366 else 365
    ensures month < 12
  {
    TwelveMonths(leap);
    hide *;
    if month > 12 {
      BeforeGrows(12, month, MonthSize(leap));
    }
  }

  lemma DateIsRight(days: nat)
    ensures ValidDate(DateOf(days)) && DaysTo(DateOf(days)) == days
  {
    hide Before, Bucket, MonthDays;
    BucketIsRight(days, 0, YearSize());
    var (year, rest) := Bucket(days, 0, YearSize());
    var size := MonthSize(Leap(year));
    BucketIsRight(rest, 0, size);
    var (month, day) := Bucket(rest, 0, size);
    NothingBefore(size);
    NothingBefore(YearSize());
    MonthInYear(Leap(year), month, day);
  }

  predicate DateLess(d: Date, e: Date) {
    d.year < e.year || (d.year == e.year && (d.month < e.month || (d.month == e.month && d.day < e.day)))
  }

  lemma DateOrder(d: Date, e: Date)
    requires ValidDate(d) && ValidDate(e)
    ensures DaysTo(d) < DaysTo(e) <==> DateLess(d, e)
  {
    DayOfYear(d);
    DayOfYear(e);
    hide Before;
    var r, q := Before(d.month, MonthSize(Leap(d.year))) + d.day, Before(e.month, MonthSize(Leap(e.year))) + e.day;
    BucketOrder(d.year, r, e.year, q, YearSize());
    if d.year == e.year {
      BucketOrder(d.month, d.day, e.month, e.day, MonthSize(Leap(d.year)));
    }
  }

  // ---------- the fields of an instant ----------

  const SECOND: nat := 1_000_000_000
  const DAY: nat := 86_400 * SECOND

  datatype Clock = Clock(hour: nat, minute: nat, second: nat, nanos: nat)

  datatype Stamp = Stamp(date: Date, clock: Clock)

  function ClockOf(n: nat): (c: Clock) {
    var seconds := n / SECOND;
    Clock(seconds / 3600, seconds / 60 % 60, seconds % 60, n % SECOND)
  }

  function StampOf(t: nat): (s: Stamp) {
    Stamp(DateOf(t / DAY), ClockOf(t % DAY))
  }

  predicate ValidClock(c: Clock) {
    c.hour < 24 && c.minute < 60 && c.second < 60 && c.nanos < SECOND
  }

  function SecondsInto(c: Clock): (n: nat) {
    c.hour * 3600 + c.minute * 60 + c.second
  }

  function NanosInto(c: Clock): (n: nat) {
    SecondsInto(c) * SECOND + c.nanos
  }

  function InstantOf(s: Stamp): (t: nat) {
    DaysTo(s.date) * DAY + NanosInto(s.clock)
  }

  predicate ValidStamp(s: Stamp) {
    ValidDate(s.date) && ValidClock(s.clock)
  }

  /** A number is its quotient and its remainder, and comparing numbers compares those. */
  lemma Parts(n: nat, d: nat)
    requires d > 0
    ensures n == n / d * d + n % d
  {
  }

  lemma PartsOrder(a: nat, x: nat, b: nat, y: nat, d: nat)
    requires x < d && y < d
    ensures a * d + x < b * d + y <==> a < b || (a == b && x < y)
  {
    if a < b {
      assert (a + 1) * d <= b * d;
    } else if b < a {
      assert (b + 1) * d <= a * d;
    }
  }

  lemma ClockIsRight(n: nat)
    requires n < DAY
    ensures ValidClock(ClockOf(n)) && NanosInto(ClockOf(n)) == n
  {
  }

  lemma StampIsRight(t: nat)
    ensures ValidStamp(StampOf(t)) && InstantOf(StampOf(t)) == t
  {
    DateIsRight(t / DAY);
    ClockIsRight(t % DAY);
    Parts(t, DAY);
    hide DateOf, DaysTo, ValidDate, ClockOf, ValidClock, NanosInto;
  }

  predicate ClockLess(c: Clock, d: Clock) {
    c.hour < d.hour || (c.hour == d.hour && (c.minute < d.minute || (c.minute == d.minute &&
      (c.second < d.second || (c.second == d.second && c.nanos < d.nanos)))))
  }

  lemma ClockOrder(c: Clock, d: Clock)
    requires ValidClock(c) && ValidClock(d)
    ensures NanosInto(c) < NanosInto(d) <==> ClockLess(c, d)
  {
  }

  lemma ClockInDay(c: Clock)
    requires ValidClock(c)
    ensures NanosInto(c) < DAY
  {
  }

  lemma DaysAreDates(d: Date, e: Date)
    requires ValidDate(d) && ValidDate(e)
    ensures DaysTo(d) == DaysTo(e) <==> d == e
  {
    DateOrder(d, e);
    DateOrder(e, d);
    hide DaysTo, ValidDate;
  }

  /** Instants are ordered as what is written of them. */
  lemma StampOrder(s: Stamp, z: Stamp)
    requires ValidStamp(s) && ValidStamp(z)
    ensures InstantOf(s) < InstantOf(z) <==> DateLess(s.date, z.date) || (s.date == z.date && ClockLess(s.clock, z.clock))
  {
    DateOrder(s.date, z.date);
    DaysAreDates(s.date, z.date);
    ClockOrder(s.clock, z.clock);
    ClockInDay(s.clock);
    ClockInDay(z.clock);
    hide DaysTo, ValidDate, ValidClock, NanosInto, DateLess, ClockLess;
    PartsOrder(DaysTo(s.date), NanosInto(s.clock), DaysTo(z.date), NanosInto(z.clock), DAY);
  }

  // ---------- text ----------

  /** Strings in dictionary order, as a database compares text. */
  predicate TextLess(s: string, t: string) {
    t != "" && (s == "" || s[0] < t[0] || (s[0] == t[0] && TextLess(s[1..], t[1..])))
  }

  lemma {:induction false} ConcatOrder(a: string, x: string, b: string, y: string)
    requires |a| == |b|
    ensures TextLess(a + x, b + y) <==> TextLess(a, b) || (a == b && TextLess(x, y))
  {
    if a == "" {
      assert a + x == x && b + y == y;
    } else {
      assert (a + x)[0] == a[0] && (b + y)[0] == b[0];
      assert (a + x)[1..] == a[1..] + x && (b + y)[1..] == b[1..] + y;
      ConcatOrder(a[1..], x, b[1..], y);
      assert a == [a[0]] + a[1..] && b == [b[0]] + b[1..];
    }
  }

  predicate IsDigit(c: char) {
    '0' <= c <= '9'
  }

  function DigitValue(c: char): (n: nat)
    requires IsDigit(c)
    ensures n < 10 && Digit(n) == c
  {
    (c - '0') as nat
  }

  /** The number in decimal, with zeros in front up to the width, and longer if it does not fit. */
  function Pad(n: nat, width: nat): (s: string)
    decreases n + width
  {
    if n == 0 && width == 0 then ""
    else Pad(n / 10, if width > 0 then width - 1 else 0) + [Digit(n % 10)]
  }

  function Power(width: nat): (p: nat)
    ensures p > 0
  {
    if width == 0 then 1 else 10 * Power(width - 1)
  }

  lemma TenthFits(n: nat, width: nat)
    requires width > 0 && n < Power(width)
    ensures n / 10 < Power(width - 1)
  {
  }

  lemma {:induction false} PadLength(n: nat, width: nat)
    requires n < Power(width)
    ensures |Pad(n, width)| == width
  {
    if width > 0 {
      TenthFits(n, width);
      PadLength(n / 10, width - 1);
    }
  }

  lemma LastDigitOrder(a: string, n: nat, b: string, m: nat)
    requires |a| == |b| && n < 10 && m < 10
    ensures TextLess(a + [Digit(n)], b + [Digit(m)]) <==> TextLess(a, b) || (a == b && n < m)
  {
    ConcatOrder(a, [Digit(n)], b, [Digit(m)]);
    assert TextLess([Digit(n)], [Digit(m)]) <==> Digit(n) < Digit(m) by {
      assert [Digit(n)][1..] == "" && [Digit(m)][1..] == "";
    }
  }

  /** Padded numbers of one width are ordered, and equal, as the numbers are. */
  lemma {:induction false} PadOrder(n: nat, m: nat, width: nat)
    requires n < Power(width) && m < Power(width)
    ensures (TextLess(Pad(n, width), Pad(m, width)) <==> n < m) && (Pad(n, width) == Pad(m, width) <==> n == m)
  {
    if width > 0 {
      TenthFits(n, width);
      TenthFits(m, width);
      PadOrder(n / 10, m / 10, width - 1);
      PadLength(n / 10, width - 1);
      PadLength(m / 10, width - 1);
      var a, b := Pad(n / 10, width - 1), Pad(m / 10, width - 1);
      LastDigitOrder(a, n % 10, b, m % 10);
      assert Pad(n, width) == a + [Digit(n % 10)] && Pad(m, width) == b + [Digit(m % 10)];
      hide TextLess, Pad, Power;
      if a + [Digit(n % 10)] == b + [Digit(m % 10)] {
        assert (a + [Digit(n % 10)])[|a|] == (b + [Digit(m % 10)])[|b|];
        assert (a + [Digit(n % 10)])[..|a|] == (b + [Digit(m % 10)])[..|b|];
      }
    }
  }

  // ---------- the layout ----------

  function Width(k: nat): (w: nat)
    requires k < 7
    ensures w > 0
  {
    if k == 0 then 4 else if k == 6 then 9 else 2
  }

  function Mark(k: nat): (c: char)
    requires k < 7
  {
    "--T::.Z"[k]
  }

  /** The fields from the k-th on, each in its width with its mark after it. */
  function Written(f: seq<nat>, k: nat): (s: string)
    requires |f| + k == 7
    decreases |f|
  {
    if f == [] then "" else Pad(f[0], Width(k)) + ([Mark(k)] + Written(f[1..], k + 1))
  }

  /** What is written of a stamp: months and days from 1. */
  function FieldsOf(s: Stamp): (f: seq<nat>)
    ensures |f| == 7
  {
    [s.date.year, s.date.month + 1, s.date.day + 1, s.clock.hour, s.clock.minute, s.clock.second, s.clock.nanos]
  }

  /** ts(): the stored text of an instant. */
  function Ts(t: nat): (s: string) {
    Written(FieldsOf(StampOf(t)), 0)
  }

  /** Every field from the k-th on fits its width. */
  ghost predicate Fits(f: seq<nat>, k: nat)
    requires |f| + k == 7
    decreases |f|
  {
    f != [] ==> f[0] < Power(Width(k)) && Fits(f[1..], k + 1)
  }

  /** Lists in dictionary order. */
  predicate Less(f: seq<nat>, g: seq<nat>) {
    f != [] && g != [] && (f[0] < g[0] || (f[0] == g[0] && Less(f[1..], g[1..])))
  }

  lemma {:induction false} WrittenOrder(f: seq<nat>, g: seq<nat>, k: nat)
    requires |f| == |g| && |f| + k == 7 && Fits(f, k) && Fits(g, k)
    ensures TextLess(Written(f, k), Written(g, k)) <==> Less(f, g)
    decreases |f|
  {
    if f != [] {
      WrittenOrder(f[1..], g[1..], k + 1);
      PadLength(f[0], Width(k));
      PadLength(g[0], Width(k));
      PadOrder(f[0], g[0], Width(k));
      var x, y := Written(f[1..], k + 1), Written(g[1..], k + 1);
      hide Pad, TextLess;
      ConcatOrder(Pad(f[0], Width(k)), [Mark(k)] + x, Pad(g[0], Width(k)), [Mark(k)] + y);
      ConcatOrder([Mark(k)], x, [Mark(k)], y);
      NotLessItself([Mark(k)]);
    }
  }

  lemma {:induction false} NotLessItself(s: string)
    ensures !TextLess(s, s)
  {
    if s != "" {
      NotLessItself(s[1..]);
    }
  }

  lemma Powers()
    ensures Power(2) == 100 && Power(4) == 10_000 && Power(9) == SECOND
  {
  }

  lemma StampFits(s: Stamp)
    requires ValidStamp(s) && s.date.year < 10_000
    ensures Fits(FieldsOf(s), 0)
  {
    Powers();
    hide Power;
    assert MonthDays(s.date.month, Leap(s.date.year)) <= 31;
    var f := FieldsOf(s);
    hide FieldsOf;
    assert f[1..][1..] == f[2..] && f[2..][1..] == f[3..] && f[3..][1..] == f[4..] && f[4..][1..] == f[5..] && f[5..][1..] == f[6..]
      && f[6..][1..] == [];
    assert Fits(f[6..], 6);
    assert Fits(f[4..], 4);
    assert Fits(f[2..], 2);
  }

  lemma FieldsLess(s: Stamp, z: Stamp)
    ensures Less(FieldsOf(s), FieldsOf(z)) <==> DateLess(s.date, z.date) || (s.date == z.date && ClockLess(s.clock, z.clock))
  {
    var f, g := FieldsOf(s), FieldsOf(z);
    forall k | 0 <= k < 7
      ensures Less(f[k..], g[k..]) <==> f[k] < g[k] || (f[k] == g[k] && Less(f[k + 1..], g[k + 1..]))
    {
      assert f[k..][1..] == f[k + 1..] && g[k..][1..] == g[k + 1..];
    }
    assert f[0..] == f && g[0..] == g && !Less(f[7..], g[7..]);
    hide Less;
    assert Less(f[3..], g[3..]) <==> ClockLess(s.clock, z.clock) by {
      assert Less(f[5..], g[5..]) <==> f[5] < g[5] || (f[5] == g[5] && f[6] < g[6]);
    }
    assert Less(f[1..], g[1..]) <==> f[1] < g[1] || (f[1] == g[1] && (f[2] < g[2] || (f[2] == g[2] && Less(f[3..], g[3..]))));
  }

  function YearOf(t: nat): (year: nat) {
    StampOf(t).date.year
  }

  /** For any two instants of the years 0 to 9999, the stored texts compare as the instants do. */
  lemma TextOrder(t: nat, u: nat)
    requires YearOf(t) < 10_000 && YearOf(u) < 10_000
    ensures TextLess(Ts(t), Ts(u)) <==> t < u
  {
    StampIsRight(t);
    StampIsRight(u);
    var s, z := StampOf(t), StampOf(u);
    hide StampOf, InstantOf, ValidStamp, Written, FieldsOf, TextLess, Fits, Less;
    StampOrder(s, z);
    StampFits(s);
    StampFits(z);
    WrittenOrder(FieldsOf(s), FieldsOf(z), 0);
    FieldsLess(s, z);
  }

  // ---------- and back ----------

  predicate AllDigits(s: string) {
    forall i :: 0 <= i < |s| ==> IsDigit(s[i])
  }

  function Value(s: string): (n: nat)
    requires AllDigits(s)
  {
    if s == "" then 0 else Value(s[..|s| - 1]) * 10 + DigitValue(s[|s| - 1])
  }

  /** The k-th field at the start of a text: its value and how long it is. All have their width but
      the hour, of which one digit will do, and the fraction, where a sign may stand for the first
      digit as long as the value is not negative. */
  function Take(s: string, k: nat): (r: Option<(nat, nat)>)
    requires k < 7
    ensures r.Some? ==> 0 < r.value.1 <= |s| && (r.value.1 == Width(k) || (k == 3 && r.value.1 == 1))
  {
    if k == 3 && (|s| < 2 || !IsDigit(s[1])) then
      (if |s| > 0 && IsDigit(s[0]) then Some((DigitValue(s[0]), 1)) else None)
    else if k == 6 && |s| >= 9 && (s[0] == '+' || s[0] == '-') then
      (if AllDigits(s[1..9]) && (s[0] == '+' || Value(s[1..9]) == 0) then Some((Value(s[1..9]), 9)) else None)
    else if |s| >= Width(k) && AllDigits(s[..Width(k)]) then Some((Value(s[..Width(k)]), Width(k)))
    else None
  }

  /** The k-th mark, or a comma for the period before the fraction. */
  predicate Marked(c: char, k: nat)
    requires k < 7
  {
    c == Mark(k) || (k == 5 && c == ',')
  }

  /** The fields of a text that time.Parse reads in the layout. */
  function Scan(s: string, k: nat): (r: Option<seq<nat>>)
    requires k <= 7
    ensures r.Some? ==> |r.value| == 7 - k
    decreases 7 - k
  {
    if k == 7 then (if s == "" then Some([]) else None)
    else
      var field := Take(s, k);
      if field.None? || |s| <= field.value.1 || !Marked(s[field.value.1], k) then None
      else
        var rest := Scan(s[field.value.1 + 1..], k + 1);
        if rest.None? then None else Some([field.value.0] + rest.value)
  }

  predicate InRange(f: seq<nat>) {
    && |f| == 7 && 0 < f[1] <= 12 && 0 < f[2] <= MonthDays(f[1] - 1, Leap(f[0]))
    && f[3] < 24 && f[4] < 60 && f[5] < 60 && f[6] < SECOND
  }

  function StampFrom(f: seq<nat>): (s: Stamp)
    requires InRange(f)
    ensures ValidStamp(s) && FieldsOf(s) == f
  {
    Stamp(Date(f[0], f[1] - 1, f[2] - 1), Clock(f[3], f[4], f[5], f[6]))
  }

  /** parseTS() of a text in the layout. */
  function Parse(s: string): (t: Option<nat>) {
    var f := Scan(s, 0);
    if f.Some? && InRange(f.value) then Some(InstantOf(StampFrom(f.value))) else None
  }

  lemma {:induction false} PadValue(n: nat, width: nat)
    requires n < Power(width)
    ensures AllDigits(Pad(n, width)) && Value(Pad(n, width)) == n
  {
    if width > 0 {
      TenthFits(n, width);
      PadValue(n / 10, width - 1);
      var a := Pad(n / 10, width - 1);
      var s := Pad(n, width);
      assert s == a + [Digit(n % 10)] && s[..|s| - 1] == a;
    }
  }

  lemma {:induction false} ValuePad(s: string)
    requires AllDigits(s)
    ensures Value(s) < Power(|s|) && Pad(Value(s), |s|) == s
  {
    if s != "" {
      var a, c := s[..|s| - 1], s[|s| - 1];
      ValuePad(a);
      assert s == a + [c];
      assert Value(s) / 10 == Value(a) && Value(s) % 10 == DigitValue(c);
    }
  }

  lemma ScanNext(field: string, mark: char, rest: string, k: nat, n: nat)
    requires k < 7 && Marked(mark, k) && Scan(rest, k + 1).Some?
    requires Take(field + ([mark] + rest), k) == Some((n, |field|))
    ensures Scan(field + ([mark] + rest), k) == Some([n] + Scan(rest, k + 1).value)
  {
    hide Take, Marked;
    var s := field + ([mark] + rest);
    assert s[|field|] == mark && s[|field| + 1..] == rest;
  }

  lemma TakeFull(field: string, rest: string, k: nat)
    requires k < 7 && |field| == Width(k) && AllDigits(field)
    ensures Take(field + rest, k) == Some((Value(field), |field|))
  {
    var s := field + rest;
    assert s[..|field|] == field && s[0] == field[0] && (k == 3 ==> s[1] == field[1]);
  }

  lemma ScanField(field: string, rest: string, k: nat)
    requires k < 7 && |field| == Width(k) && AllDigits(field) && Scan(rest, k + 1).Some?
    ensures Scan(field + ([Mark(k)] + rest), k) == Some([Value(field)] + Scan(rest, k + 1).value)
  {
    hide Take, Scan, Value, AllDigits;
    TakeFull(field, [Mark(k)] + rest, k);
    ScanNext(field, Mark(k), rest, k, Value(field));
  }

  lemma {:induction false} ScanWritten(f: seq<nat>, k: nat)
    requires |f| + k == 7 && Fits(f, k)
    ensures Scan(Written(f, k), k) == Some(f)
    decreases |f|
  {
    hide Pad, Value, AllDigits, Power, Mark, Width;
    if f != [] {
      ScanWritten(f[1..], k + 1);
      PadLength(f[0], Width(k));
      PadValue(f[0], Width(k));
      ScanField(Pad(f[0], Width(k)), Written(f[1..], k + 1), k);
      assert f == [f[0]] + f[1..];
    }
  }

  lemma ScanStep(s: string, k: nat)
    requires k < 7 && Scan(s, k).Some?
    ensures Take(s, k).Some?
    ensures var (v, n) := Take(s, k).value;
      && |s| > n && Marked(s[n], k) && Scan(s[n + 1..], k + 1).Some?
      && Scan(s, k).value == [v] + Scan(s[n + 1..], k + 1).value
  {
  }

  /** How long the text is from the k-th field on, when it is written. */
  function LengthFrom(k: nat): (n: nat)
    requires k <= 7
    decreases 7 - k
  {
    if k == 7 then 0 else Width(k) + 1 + LengthFrom(k + 1)
  }

  /** The form that is stored: every field in its width, a period, and a digit after it. */
  predicate StoredForm(s: string, k: nat)
    requires k <= 7
  {
    && |s| == LengthFrom(k)
    && (k <= 5 ==> |s| >= 11 && s[|s| - 11] == '.')
    && (k <= 6 ==> |s| >= 10 && IsDigit(s[|s| - 10]))
  }

  lemma Lengths()
    ensures LengthFrom(6) == 10 && LengthFrom(5) == 13 && LengthFrom(4) == 16 && LengthFrom(3) == 19
    ensures LengthFrom(2) == 22 && LengthFrom(1) == 25 && LengthFrom(0) == 30
  {
    assert LengthFrom(7) == 0;
  }

  /** What is read of a text is as long as what is written, but for an hour of one digit. */
  lemma {:induction false} ScanLength(s: string, k: nat)
    requires k <= 7 && Scan(s, k).Some?
    ensures |s| == LengthFrom(k) || (k <= 3 && |s| == LengthFrom(k) - 1)
    decreases 7 - k
  {
    hide Take, Marked, Scan, LengthFrom;
    ScanEnd(s);
    if k < 7 {
      ScanStep(s, k);
      TakeLength(s, k);
      ScanLength(s[Take(s, k).value.1 + 1..], k + 1);
    }
  }

  lemma TakeLength(s: string, k: nat)
    requires k < 7 && Take(s, k).Some?
    ensures LengthFrom(k) == LengthFrom(k + 1) + Width(k) + 1
    ensures var n := Take(s, k).value.1; n <= |s| && (n == Width(k) || (k == 3 && n == 1))
  {
  }

  lemma ScanEnd(s: string)
    ensures Scan(s, 7).Some? ==> s == ""
    ensures LengthFrom(7) == 0
  {
  }

  lemma SingleDigit(c: char)
    requires IsDigit(c)
    ensures DigitValue(c) < Power(2)
  {
    assert Power(1) == 10 * Power(0) && Power(2) == 10 * Power(1);
  }

  /** A field is read as it would be written exactly when it has its width and no sign. */
  lemma TakeIsPadded(s: string, k: nat)
    requires k < 7 && Take(s, k).Some?
    ensures var (v, n) := Take(s, k).value;
      v < Power(Width(k)) && (Pad(v, Width(k)) == s[..n] <==> n == Width(k) && (k == 6 ==> IsDigit(s[0])))
  {
    var (v, n) := Take(s, k).value;
    if n < Width(k) {
      SingleDigit(s[0]);
      PadLength(v, 2);
    } else if k == 6 && !IsDigit(s[0]) {
      SignedFraction(s);
    } else {
      ValuePad(s[..n]);
    }
  }

  lemma SignedFraction(s: string)
    requires Take(s, 6).Some? && !IsDigit(s[0])
    ensures var v := Take(s, 6).value.0; v < Power(9) && Pad(v, 9) != s[..9]
  {
    ValuePad(s[1..9]);
    var v := Value(s[1..9]);
    assert v < Power(8) <= Power(9);
    PadLength(v, 9);
    PadValue(v, 9);
    assert IsDigit(Pad(v, 9)[0]);
    assert s[..9][0] == s[0];
  }

  lemma WrittenStep(n: nat, rest: seq<nat>, k: nat)
    requires |rest| + k == 6
    ensures Written([n] + rest, k) == Pad(n, Width(k)) + ([Mark(k)] + Written(rest, k + 1))
  {
    assert ([n] + rest)[1..] == rest;
  }

  lemma SameParts(a: string, x: char, b: string, c: string, y: char, d: string)
    requires |a| == |c|
    ensures a + ([x] + b) == c + ([y] + d) <==> a == c && x == y && b == d
  {
    var s, t := a + ([x] + b), c + ([y] + d);
    if s == t {
      assert s[..|a|] == a && t[..|a|] == c && s[|a|] == x && t[|a|] == y && s[|a| + 1..] == b && t[|a| + 1..] == d;
    }
  }

  /** The stored form of the rest of a text, put together from its next field. */
  lemma StoredStep(s: string, k: nat)
    requires k < 7 && Scan(s, k).Some?
    ensures var (v, n) := Take(s, k).value;
      n < |s| && (StoredForm(s, k) <==>
        n == Width(k) && (k == 6 ==> IsDigit(s[0])) && s[n] == Mark(k) && StoredForm(s[n + 1..], k + 1))
  {
    hide Take, Scan, LengthFrom;
    ScanStep(s, k);
    TakeLength(s, k);
    var n := Take(s, k).value.1;
    var rest := s[n + 1..];
    ScanLength(rest, k + 1);
    Lengths();
    assert |rest| >= 11 ==> rest[|rest| - 11] == s[|s| - 11];
    assert |rest| >= 10 ==> rest[|rest| - 10] == s[|s| - 10];
  }

  lemma WrittenLength(f: seq<nat>, k: nat)
    requires |f| + k == 7 && Fits(f, k)
    ensures |Written(f, k)| == LengthFrom(k)
    decreases |f|
  {
    if f != [] {
      WrittenLength(f[1..], k + 1);
      PadLength(f[0], Width(k));
    }
  }

  lemma FitsNext(v: nat, rest: seq<nat>, k: nat)
    requires |rest| + k == 6 && v < Power(Width(k)) && Fits(rest, k + 1)
    ensures Fits([v] + rest, k)
  {
    assert ([v] + rest)[1..] == rest;
  }

  /** A text that is read is what would be written of its fields exactly when it has the stored form. */
  lemma {:induction false} WrittenIffStored(s: string, k: nat)
    requires k <= 7 && Scan(s, k).Some?
    ensures Fits(Scan(s, k).value, k)
    ensures Written(Scan(s, k).value, k) == s <==> StoredForm(s, k)
    decreases 7 - k
  {
    if k == 7 {
      assert LengthFrom(7) == 0;
    } else {
      WrittenIffStoredStep(s, k);
    }
  }

  lemma {:induction false} WrittenIffStoredStep(s: string, k: nat)
    requires k < 7 && Scan(s, k).Some?
    ensures Fits(Scan(s, k).value, k)
    ensures Written(Scan(s, k).value, k) == s <==> StoredForm(s, k)
    decreases 7 - k, 0
  {
    hide Scan, Take, Written, Fits, StoredForm, Pad, Power, LengthFrom, Marked, Width, Mark;
    ScanStep(s, k);
    StoredStep(s, k);
    var (v, n) := Take(s, k).value;
    var rest := s[n + 1..];
    var f := Scan(rest, k + 1).value;
    WrittenIffStored(rest, k + 1);
    TakeIsPadded(s, k);
    WrittenStep(v, f, k);
    FitsNext(v, f, k);
    PadLength(v, Width(k));
    assert s == s[..n] + ([s[n]] + rest);
    if n == Width(k) {
      SameParts(Pad(v, Width(k)), Mark(k), Written(f, k + 1), s[..n], s[n], rest);
    } else {
      ShorterField(s, k);
    }
  }

  lemma ShorterField(s: string, k: nat)
    requires k < 7 && Scan(s, k).Some? && Take(s, k).value.1 != Width(k) && Fits(Scan(s, k).value, k)
    ensures Written(Scan(s, k).value, k) != s
  {
    hide Scan, Take, Written, Fits, LengthFrom, Marked;
    WrittenLength(Scan(s, k).value, k);
    ScanStep(s, k);
    TakeLength(s, k);
    ScanLength(s[2..], 4);
    Lengths();
  }

  /** Distinct valid stamps are distinct instants. */
  lemma StampIsUnique(s: Stamp)
    requires ValidStamp(s)
    ensures StampOf(InstantOf(s)) == s
  {
    StampIsRight(InstantOf(s));
    var z := StampOf(InstantOf(s));
    hide StampOf, InstantOf;
    StampOrder(s, z);
    StampOrder(z, s);
  }

  /** What was stored parses back to the same instant, for the years 0 to 9999. */
  lemma ParsesBack(t: nat)
    requires YearOf(t) < 10_000
    ensures Parse(Ts(t)) == Some(t)
  {
    StampIsRight(t);
    var s := StampOf(t);
    hide StampOf, InstantOf, Written, Scan, Fits;
    StampFits(s);
    ScanWritten(FieldsOf(s), 0);
    assert InRange(FieldsOf(s)) && StampFrom(FieldsOf(s)) == s;
  }

  /** The fields of a text that parses. */
  lemma ParsedFields(text: string, t: nat)
    requires Parse(text) == Some(t)
    ensures Scan(text, 0).Some? && FieldsOf(StampOf(t)) == Scan(text, 0).value
  {
    StampIsUnique(StampFrom(Scan(text, 0).value));
    hide StampOf, InstantOf, Scan;
  }

  /** A text that parses is the stored text of its instant exactly when it is 30 characters long, has
      a period before its fraction and a digit after the period. */
  lemma ParsedIsStoredExactly(text: string, t: nat)
    requires Parse(text) == Some(t)
    ensures Ts(t) == text <==> |text| == 30 && text[19] == '.' && IsDigit(text[20])
  {
    hide StampOf, Written, Scan, Fits, IsDigit, Parse, FieldsOf, LengthFrom;
    ParsedFields(text, t);
    WrittenIffStored(text, 0);
    Lengths();
  }

  /** Three other ways to write one instant that are read as it: a comma for the period, an hour
      below ten in one digit, a plus for the fraction's first zero. */
  datatype Variant = Comma | ShortHour | Plus

  function VariesAt(v: Variant): (k: nat) {
    if v == Comma then 5 else if v == ShortHour then 3 else 6
  }

  function Varied(f: seq<nat>, k: nat, v: Variant): (s: string)
    requires |f| + k == 7 && k <= VariesAt(v)
    requires v == ShortHour ==> f[3 - k] < 10
    decreases |f|
  {
    if k < VariesAt(v) then Pad(f[0], Width(k)) + ([Mark(k)] + Varied(f[1..], k + 1, v))
    else
      match v
      case Comma => Pad(f[0], 2) + ([','] + Written(f[1..], 6))
      case ShortHour => [Digit(f[0])] + ([':'] + Written(f[1..], 4))
      case Plus => ("+" + Pad(f[0], 8)) + (['Z'] + Written(f[1..], 7))
  }

  lemma TakeShort(n: nat, rest: string)
    requires n < 10 && rest != "" && !IsDigit(rest[0])
    ensures Take([Digit(n)] + rest, 3) == Some((n, 1))
  {
  }

  lemma TakePlus(n: nat, rest: string)
    requires n < Power(8)
    ensures Take(("+" + Pad(n, 8)) + rest, 6) == Some((n, 9))
  {
    PadLength(n, 8);
    PadValue(n, 8);
    var s := ("+" + Pad(n, 8)) + rest;
    assert s[0] == '+' && s[1..9] == Pad(n, 8);
  }

  lemma CommaReads(n: nat, rest: string)
    requires n < Power(2) && Scan(rest, 6).Some?
    ensures Scan(Pad(n, 2) + ([','] + rest), 5) == Some([n] + Scan(rest, 6).value)
  {
    PadLength(n, 2);
    PadValue(n, 2);
    hide Pad, Scan, Take, Value, Power;
    TakeFull(Pad(n, 2), [','] + rest, 5);
    ScanNext(Pad(n, 2), ',', rest, 5, n);
  }

  lemma ShortHourReads(n: nat, rest: string)
    requires n < 10 && Scan(rest, 4).Some?
    ensures Scan([Digit(n)] + ([':'] + rest), 3) == Some([n] + Scan(rest, 4).value)
  {
    TakeShort(n, [':'] + rest);
    hide Scan, Take;
    ScanNext([Digit(n)], ':', rest, 3, n);
  }

  lemma PlusReads(n: nat, rest: string)
    requires n < Power(8) && Scan(rest, 7).Some?
    ensures Scan(("+" + Pad(n, 8)) + (['Z'] + rest), 6) == Some([n] + Scan(rest, 7).value)
  {
    PadLength(n, 8);
    hide Pad, Scan, Take, Power;
    TakePlus(n, ['Z'] + rest);
    ScanNext("+" + Pad(n, 8), 'Z', rest, 6, n);
  }

  lemma VariantReads(f: seq<nat>, k: nat, v: Variant)
    requires |f| + k == 7 && k == VariesAt(v) && Fits(f, k)
    requires v == ShortHour ==> f[0] < 10
    requires v == Plus ==> f[0] < Power(8)
    ensures Scan(Varied(f, k, v), k) == Some(f)
  {
    FitsFirst(f, k);
    hide Written, Scan, Pad, Fits, Power;
    var rest := Written(f[1..], k + 1);
    ScanWritten(f[1..], k + 1);
    assert f == [f[0]] + f[1..];
    match v
    case Comma => CommaReads(f[0], rest);
    case ShortHour => ShortHourReads(f[0], rest);
    case Plus => PlusReads(f[0], rest);
  }

  lemma FitsFirst(f: seq<nat>, k: nat)
    requires |f| + k == 7 && f != [] && Fits(f, k)
    ensures f[0] < Power(Width(k)) && Fits(f[1..], k + 1)
  {
  }

  lemma {:induction false} VariedReads(f: seq<nat>, k: nat, v: Variant)
    requires |f| + k == 7 && k <= VariesAt(v) && Fits(f, k)
    requires v == ShortHour ==> f[3 - k] < 10
    requires v == Plus ==> f[6 - k] < Power(8)
    ensures Scan(Varied(f, k, v), k) == Some(f)
    decreases |f|
  {
    hide Written, Scan, Pad, Take, Value, AllDigits, Power;
    if k == VariesAt(v) {
      VariantReads(f, k, v);
    } else {
      VariedReads(f[1..], k + 1, v);
      PadLength(f[0], Width(k));
      PadValue(f[0], Width(k));
      ScanField(Pad(f[0], Width(k)), Varied(f[1..], k + 1, v), k);
      assert f == [f[0]] + f[1..];
    }
  }

  lemma {:induction false} VariedDiffers(f: seq<nat>, k: nat, v: Variant)
    requires |f| + k == 7 && k <= VariesAt(v) && Fits(f, k)
    requires v == ShortHour ==> f[3 - k] < 10
    requires v == Plus ==> f[6 - k] < Power(8)
    ensures Varied(f, k, v) != Written(f, k)
    decreases |f|
  {
    hide Scan, Pad, Power, Take, Value;
    PadLength(f[0], Width(k));
    var rest := Written(f[1..], k + 1);
    if k < VariesAt(v) {
      VariedDiffers(f[1..], k + 1, v);
      SameParts(Pad(f[0], Width(k)), Mark(k), Varied(f[1..], k + 1, v), Pad(f[0], Width(k)), Mark(k), rest);
    } else if v == Comma {
      SameParts(Pad(f[0], 2), ',', rest, Pad(f[0], 2), '.', rest);
    } else if v == ShortHour {
      assert |Varied(f, k, v)| + 1 == |Written(f, k)|;
    } else {
      PadValue(f[0], 9);
      assert IsDigit(Pad(f[0], 9)[0]);
      assert Varied(f, k, v)[0] == '+' && Written(f, k)[0] == Pad(f[0], 9)[0];
    }
  }

  /** Whether the instant can be written so. */
  predicate CanVary(t: nat, v: Variant) {
    var c := StampOf(t).clock;
    (v == ShortHour ==> c.hour < 10) && (v == Plus ==> c.nanos < Power(8))
  }

  function VariedTs(t: nat, v: Variant): (s: string)
    requires CanVary(t, v)
  {
    Varied(FieldsOf(StampOf(t)), 0, v)
  }

  /** Such texts parse to the instant without being what is stored for it: with a comma for every
      instant, with a short hour for every one before ten o'clock, with a plus for every one in the
      first tenth of its second. */
  lemma OtherTextsParse(t: nat, v: Variant)
    requires YearOf(t) < 10_000 && CanVary(t, v)
    ensures Parse(VariedTs(t, v)) == Some(t) && VariedTs(t, v) != Ts(t)
  {
    hide StampOf, InstantOf, Written, Scan, Fits, Varied, Power;
    StampIsRight(t);
    var s := StampOf(t);
    StampFits(s);
    var f := FieldsOf(s);
    VariedReads(f, 0, v);
    VariedDiffers(f, 0, v);
    assert InRange(f) && StampFrom(f) == s;
  }

  // ---------- beyond the year 9999 ----------

  /** The first stamp of a year. */
  function FirstOf(year: nat): (s: Stamp)
    ensures ValidStamp(s)
  {
    Stamp(Date(year, 0, 0), Clock(0, 0, 0, 0))
  }

  lemma BeforeYear(t: nat, start: nat, year: nat)
    requires StampOf(start) == FirstOf(year)
    ensures t < start <==> YearOf(t) < year
  {
    StampIsRight(start);
    StampIsRight(t);
    hide StampOf, InstantOf;
    StampOrder(StampOf(t), FirstOf(year));
  }

  lemma TextOfYear(t: nat, year: nat)
    requires StampOf(t) == FirstOf(year)
    ensures exists rest :: Ts(t) == Pad(year, 4) + rest
  {
    hide StampOf, InstantOf, Pad;
    var f := FieldsOf(StampOf(t));
    assert Ts(t) == Pad(year, 4) + ([Mark(0)] + Written(f[1..], 1));
  }

  lemma FirstChars()
    ensures |Pad(9999, 4)| > 0 && Pad(9999, 4)[0] == '9' && |Pad(10_000, 4)| > 0 && Pad(10_000, 4)[0] == '1'
  {
    assert Pad(9, 1) == "" + [Digit(9)];
    assert Pad(99, 2) == Pad(9, 1) + [Digit(9)];
    assert Pad(999, 3) == Pad(99, 2) + [Digit(9)];
    assert Pad(9999, 4) == Pad(999, 3) + [Digit(9)];
    assert Pad(1, 0) == "" + [Digit(1)];
    assert Pad(10, 1) == Pad(1, 0) + [Digit(0)];
    assert Pad(100, 2) == Pad(10, 1) + [Digit(0)];
    assert Pad(1000, 3) == Pad(100, 2) + [Digit(0)];
    assert Pad(10_000, 4) == Pad(1000, 3) + [Digit(0)];
  }

  lemma FirstDecides(s: string, t: string)
    requires s != "" && t != "" && s[0] > t[0]
    ensures !TextLess(s, t)
  {
  }

  /** The year 10000 is stored as a text before that of 9999. */
  lemma TenThousandComesFirst(t: nat, u: nat)
    requires StampOf(t) == FirstOf(9999) && StampOf(u) == FirstOf(10_000)
    ensures t < u && !TextLess(Ts(t), Ts(u))
  {
    BeforeYear(t, u, 10_000);
    FirstChars();
    TextOfYear(t, 9999);
    TextOfYear(u, 10_000);
    hide Pad, Ts, StampOf, FirstOf, TextLess;
    var x :| Ts(t) == Pad(9999, 4) + x;
    var y :| Ts(u) == Pad(10_000, 4) + y;
    assert Ts(t)[0] == '9' && Ts(u)[0] == '1';
    FirstDecides(Ts(t), Ts(u));
  }

  ghost predicate OrderedBelow(limit: nat) {
    forall t: nat, u: nat :: t < limit && u < limit ==> (TextLess(Ts(t), Ts(u)) <==> t < u)
  }

  lemma OrderedBefore(start: nat)
    requires StampOf(start) == FirstOf(10_000)
    ensures OrderedBelow(start)
  {
    forall t: nat, u: nat | t < start && u < start ensures TextLess(Ts(t), Ts(u)) <==> t < u {
      BeforeYear(t, start, 10_000);
      BeforeYear(u, start, 10_000);
      hide StampOf, FirstOf, Ts, TextLess;
      TextOrder(t, u);
    }
  }

  lemma FirstInstant(year: nat) returns (t: nat)
    ensures StampOf(t) == FirstOf(year)
  {
    t := InstantOf(FirstOf(year));
    hide StampOf, InstantOf;
    StampIsUnique(FirstOf(year));
  }

  lemma NotOrderedPast(limit: nat, start: nat)
    requires StampOf(start) == FirstOf(10_000) && start < limit
    ensures !OrderedBelow(limit)
  {
    hide Ts, TextLess, StampOf, FirstOf;
    var t := FirstInstant(9999);
    TenThousandComesFirst(t, start);
  }

  /** Text order is time order on exactly the instants before the year 10000: on all times below a
      limit, if and only if the limit is no later than that year's start. */
  lemma OrderedExactly(limit: nat, start: nat)
    requires StampOf(start) == FirstOf(10_000)
    ensures OrderedBelow(limit) <==> limit <= start
  {
    hide Ts, TextLess, StampOf, FirstOf;
    OrderedBefore(start);
    if start < limit {
      NotOrderedPast(limit, start);
    }
  }
}
