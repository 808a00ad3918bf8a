/**
 The fixed-width timestamps of the database columns. Instants are nanoseconds since 0000-01-01T00:00:00Z in the
 proleptic Gregorian calendar; the columns hold them truncated to milliseconds.
 */
module StorageTime {
  import opened Basics
  import opened Ordering

  const NANOS_PER_MILLI := 1_000_000
  const MILLIS_PER_DAY := 86_400_000

  function Millis(t: nat): nat { t / NANOS_PER_MILLI }

  // The calendar.

  predicate IsLeap(y: nat) { y % 4 == 0 && (y % 100 != 0 || y % 400 == 0) }

  function DaysInYear(y: nat): nat { if IsLeap(y) then 366 else 365 }

  function DaysInMonth(y: nat, m: nat): (n: nat)
    ensures 28 <= n <= 31
  {
    if m == 2 then (if IsLeap(y) then 29 else 28)
    else if m == 4 || m == 6 || m == 9 || m == 11 then 30
    else 31
  }

  /** The year holding day d counted from the first day of year y, and the day within it. */
  function YearFrom(y: nat, d: nat): (r: (nat, nat))
    ensures r.0 >= y && r.1 < DaysInYear(r.0)
    decreases d
  {
    if d < DaysInYear(y) then (y, d) else YearFrom(y + 1, d - DaysInYear(y))
  }

  /** The month, from m on, holding day d counted from the first day of month m, and the day of that month from 1. */
  function MonthFrom(y: nat, m: nat, d: nat): (r: (nat, nat))
    requires 1 <= m <= 12
    ensures m <= r.0 <= 12 && r.1 >= 1
    decreases d
  {
    if m == 12 || d < DaysInMonth(y, m) then (m, d + 1) else MonthFrom(y, m + 1, d - DaysInMonth(y, m))
  }

  datatype Civil = Civil(year: nat, month: nat, day: nat, hour: nat, minute: nat, second: nat, milli: nat)

  function CivilOf(ms: nat): Civil {
    var (y, doy) := YearFrom(0, ms / MILLIS_PER_DAY);
    var (m, d) := MonthFrom(y, 1, doy);
    var r := ms % MILLIS_PER_DAY;
    Civil(y, m, d, r / 3_600_000, r / 60_000 % 60, r / 1000 % 60, r % 1000)
  }

  /** One number of a timestamp: how wide it is written and what follows it. */
  datatype Field = Field(width: nat, value: nat, mark: string)

  function Fields(c: Civil): seq<Field> {
    [Field(4, c.year, "-"), Field(2, c.month, "-"), Field(2, c.day, "T"), Field(2, c.hour, ":"),
     Field(2, c.minute, ":"), Field(2, c.second, "."), Field(3, c.milli, "Z")]
  }

  function Spell(fs: seq<Field>): string {
    if fs == [] then "" else Padded(fs[0].width, fs[0].value) + (fs[0].mark + Spell(fs[1..]))
  }

  /** 2006-01-02T15:04:05.000Z */
  function Format(c: Civil): string { Spell(Fields(c)) }

  /** timefmt.Storage */
  function Storage(t: nat): string { Format(CivilOf(Millis(t))) }

  // Order on calendar dates.

  predicate Before(a: Civil, b: Civil) {
    || a.year < b.year
    || (a.year == b.year && a.month < b.month)
    || (a.year == b.year && a.month == b.month && a.day < b.day)
    || (a.year == b.year && a.month == b.month && a.day == b.day && BeforeOnDay(a, b))
  }

  predicate BeforeOnDay(a: Civil, b: Civil) {
    || a.hour < b.hour
    || (a.hour == b.hour && a.minute < b.minute)
    || (a.hour == b.hour && a.minute == b.minute && a.second < b.second)
    || (a.hour == b.hour && a.minute == b.minute && a.second == b.second && a.milli < b.milli)
  }

  lemma {:induction false} YearMonotone(y: nat, d: nat, e: nat)
    requires d < e
    ensures var (p, q) := (YearFrom(y, d), YearFrom(y, e));
            p.0 < q.0 || (p.0 == q.0 && p.1 < q.1)
    decreases d
  {
    if d >= DaysInYear(y) { YearMonotone(y + 1, d - DaysInYear(y), e - DaysInYear(y)); }
  }

  lemma {:induction false} MonthMonotone(y: nat, m: nat, d: nat, e: nat)
    requires 1 <= m <= 12 && d < e
    ensures var (p, q) := (MonthFrom(y, m, d), MonthFrom(y, m, e));
            p.0 < q.0 || (p.0 == q.0 && p.1 < q.1)
    decreases 12 - m
  {
    if m < 12 && d >= DaysInMonth(y, m) {
      MonthMonotone(y, m + 1, d - DaysInMonth(y, m), e - DaysInMonth(y, m));
    }
  }

  lemma TimeOfDay(r: nat)
    requires r < MILLIS_PER_DAY
    ensures var (h, mi, s, ms) := (r / 3_600_000, r / 60_000 % 60, r / 1000 % 60, r % 1000);
            r == h * 3_600_000 + mi * 60_000 + s * 1000 + ms && h < 24
  {
    assert r / 60_000 == r / 1000 / 60;
    assert r / 3_600_000 == r / 60_000 / 60;
  }

  lemma CivilMonotone(a: nat, b: nat)
    requires a < b
    ensures Before(CivilOf(a), CivilOf(b))
  {
    var (d, e) := (a / MILLIS_PER_DAY, b / MILLIS_PER_DAY);
    if d < e {
      YearMonotone(0, d, e);
      var (p, q) := (YearFrom(0, d), YearFrom(0, e));
      if p.0 == q.0 { MonthMonotone(p.0, 1, p.1, q.1); }
    } else {
      TimeOfDay(a % MILLIS_PER_DAY);
      TimeOfDay(b % MILLIS_PER_DAY);
    }
  }

  // The range in which the width is fixed.

  /** Days before the first of January of year y. */
  function DaysBefore(y: nat): nat { if y == 0 then 0 else DaysBefore(y - 1) + DaysInYear(y - 1) }

  lemma LeapDays(y: nat)
    ensures (y + 4) / 4 - (y + 100) / 100 + (y + 400) / 400
            == (y + 3) / 4 - (y + 99) / 100 + (y + 399) / 400 + if IsLeap(y) then 1 else 0
  {
    assert (y + 4) / 4 - (y + 3) / 4 == if y % 4 == 0 then 1 else 0;
    assert (y + 100) / 100 - (y + 99) / 100 == if y % 100 == 0 then 1 else 0;
    assert (y + 400) / 400 - (y + 399) / 400 == if y % 400 == 0 then 1 else 0;
    assert y % 400 == 0 ==> y % 100 == 0;
    assert y % 100 == 0 ==> y % 4 == 0;
  }

  /** Each leap year passed adds a day. */
  lemma {:induction false} DaysBeforeClosed(y: nat)
    ensures DaysBefore(y) == 365 * y + (y + 3) / 4 - (y + 99) / 100 + (y + 399) / 400
  {
    if y > 0 {
      DaysBeforeClosed(y - 1);
      LeapDays(y - 1);
    }
  }

  lemma {:induction false} YearStarts(y: nat, d: nat)
    ensures YearFrom(0, DaysBefore(y) + d) == YearFrom(y, d)
    decreases y
  {
    if y > 0 {
      YearStarts(y - 1, DaysInYear(y - 1) + d);
    }
  }

  /** The first millisecond of year 10000. */
  const YEAR_10000 := 3_652_425 * MILLIS_PER_DAY

  /** first is the day on which year y begins. */
  predicate FirstDay(y: nat, first: nat) { first == 365 * y + (y + 3) / 4 - (y + 99) / 100 + (y + 399) / 400 }

  lemma YearOfDay(y: nat, first: nat, d: nat)
    requires FirstDay(y, first)
    ensures YearFrom(0, d).0 < y <==> d < first
    ensures first <= d < first + DaysInYear(y) ==> YearFrom(0, d).0 == y
  {
    DaysBeforeClosed(y);
    YearStarts(y, 0);
    if d < first { YearMonotone(0, d, first); }
    if d > first { YearMonotone(0, first, d); }
    if d >= first { YearStarts(y, d - first); }
  }

  lemma YearRange(ms: nat)
    ensures ms < YEAR_10000 <==> CivilOf(ms).year <= 9999
  {
    YearOfDay(10000, 3_652_425, ms / MILLIS_PER_DAY);
  }

  lemma {:induction false} DayRange(y: nat, m: nat, d: nat)
    requires 1 <= m <= 12 && d < DaysLeft(y, m)
    ensures MonthFrom(y, m, d).1 <= 31
    decreases 12 - m
  {
    if m < 12 && d >= DaysInMonth(y, m) { DayRange(y, m + 1, d - DaysInMonth(y, m)); }
  }

  function DaysLeft(y: nat, m: nat): nat
    requires 1 <= m <= 12
    decreases 12 - m
  {
    DaysInMonth(y, m) + if m == 12 then 0 else DaysLeft(y, m + 1)
  }

  lemma YearAsMonths(y: nat)
    ensures DaysLeft(y, 1) == DaysInYear(y)
  {
    assert DaysLeft(y, 12) == 31;
    assert DaysLeft(y, 10) == 31 + 30 + DaysLeft(y, 12);
    assert DaysLeft(y, 8) == 31 + 30 + DaysLeft(y, 10);
    assert DaysLeft(y, 6) == 30 + 31 + DaysLeft(y, 8);
    assert DaysLeft(y, 4) == 30 + 31 + DaysLeft(y, 6);
    assert DaysLeft(y, 2) == DaysInMonth(y, 2) + 31 + DaysLeft(y, 4);
  }

  predicate FixedWidth(c: Civil) {
    c.year < 10000 && c.month < 100 && c.day < 100 && c.hour < 100 && c.minute < 100 && c.second < 100 && c.milli < 1000
  }

  lemma CivilFixedWidth(ms: nat)
    requires ms < YEAR_10000
    ensures FixedWidth(CivilOf(ms))
  {
    YearRange(ms);
    var (y, doy) := YearFrom(0, ms / MILLIS_PER_DAY);
    YearAsMonths(y);
    DayRange(y, 1, doy);
    TimeOfDay(ms % MILLIS_PER_DAY);
  }

  // Order on the strings.

  lemma FieldOrder(width: nat, m: nat, n: nat, sep: string, a: string, b: string)
    requires width > 0 && m < Pow10(width) && n < Pow10(width)
    ensures Less(Padded(width, m) + (sep + a), Padded(width, n) + (sep + b)) <==> m < n || (m == n && Less(a, b))
  {
    LessPadded(width, m, n);
    PaddedExact(width, m);
    PaddedExact(width, n);
    LessFields(Padded(width, m), sep + a, Padded(width, n), sep + b);
    LessIrreflexive(sep);
    LessFields(sep, a, sep, b);
  }

  lemma Widths()
    ensures Pow10(2) == 100 && Pow10(3) == 1000 && Pow10(4) == 10000
  {
    assert Pow10(1) == 10 * Pow10(0);
    assert Pow10(2) == 10 * Pow10(1);
    assert Pow10(3) == 10 * Pow10(2);
  }

  /** Field by field the same widths, wide enough, and the same marks. */
  predicate Alike(fs: seq<Field>, gs: seq<Field>) {
    |fs| == |gs| && forall i :: 0 <= i < |fs| ==>
      && fs[i].width == gs[i].width > 0 && fs[i].mark == gs[i].mark
      && fs[i].value < Pow10(fs[i].width) && gs[i].value < Pow10(gs[i].width)
  }

  /** The first field that differs is smaller. */
  predicate DiffersAt(fs: seq<Field>, gs: seq<Field>, k: nat) {
    && k < |fs| == |gs| && fs[k].value < gs[k].value
    && forall i :: 0 <= i < k ==> fs[i].value == gs[i].value
  }

  ghost predicate FieldsBefore(fs: seq<Field>, gs: seq<Field>) { exists k: nat :: DiffersAt(fs, gs, k) }

  lemma DiffersLater(fs: seq<Field>, gs: seq<Field>)
    requires Alike(fs, gs) && fs != []
    ensures FieldsBefore(fs, gs) <==>
            fs[0].value < gs[0].value || (fs[0].value == gs[0].value && FieldsBefore(fs[1..], gs[1..]))
  {
    if FieldsBefore(fs, gs) {
      var k: nat :| DiffersAt(fs, gs, k);
      assert k > 0 ==> DiffersAt(fs[1..], gs[1..], k - 1);
    }
    if fs[0].value < gs[0].value { assert DiffersAt(fs, gs, 0); }
    if fs[0].value == gs[0].value && FieldsBefore(fs[1..], gs[1..]) {
      var k: nat :| DiffersAt(fs[1..], gs[1..], k);
      assert DiffersAt(fs, gs, k + 1);
    }
  }

  /** Spelled-out fields compare as the fields do. */
  lemma {:induction false} SpellOrder(fs: seq<Field>, gs: seq<Field>)
    requires Alike(fs, gs)
    ensures Less(Spell(fs), Spell(gs)) <==> FieldsBefore(fs, gs)
  {
    if fs != [] {
      var f, g := fs[0], gs[0];
      SpellOrder(fs[1..], gs[1..]);
      DiffersLater(fs, gs);
      FieldOrder(f.width, f.value, g.value, f.mark, Spell(fs[1..]), Spell(gs[1..]));
    }
  }

  lemma FieldsOfDates(a: Civil, b: Civil)
    requires FixedWidth(a) && FixedWidth(b)
    ensures Alike(Fields(a), Fields(b))
    ensures FieldsBefore(Fields(a), Fields(b)) <==> Before(a, b)
  {
    Widths();
    var fs, gs := Fields(a), Fields(b);
    if Before(a, b) {
      assert || DiffersAt(fs, gs, 0) || DiffersAt(fs, gs, 1) || DiffersAt(fs, gs, 2) || DiffersAt(fs, gs, 3)
             || DiffersAt(fs, gs, 4) || DiffersAt(fs, gs, 5) || DiffersAt(fs, gs, 6);
    }
    if FieldsBefore(fs, gs) {
      var k: nat :| DiffersAt(fs, gs, k);
      assert k == 0 || fs[0].value == gs[0].value;
      assert k <= 1 || fs[1].value == gs[1].value;
      assert k <= 2 || fs[2].value == gs[2].value;
      assert k <= 3 || fs[3].value == gs[3].value;
      assert k <= 4 || fs[4].value == gs[4].value;
      assert k <= 5 || fs[5].value == gs[5].value;
    }
  }

  lemma FormatOrder(a: Civil, b: Civil)
    requires FixedWidth(a) && FixedWidth(b)
    ensures Less(Format(a), Format(b)) <==> Before(a, b)
  {
    FieldsOfDates(a, b);
    SpellOrder(Fields(a), Fields(b));
  }

  /** In years 0000 to 9999 the stored strings compare as the instants truncated to milliseconds. */
  lemma StorageOrder(s: nat, t: nat)
    requires Millis(s) < YEAR_10000 && Millis(t) < YEAR_10000
    ensures Less(Storage(s), Storage(t)) <==> Millis(s) < Millis(t)
  {
    var (a, b) := (Millis(s), Millis(t));
    CivilFixedWidth(a);
    CivilFixedWidth(b);
    if a < b { CivilMonotone(a, b); }
    if b < a { CivilMonotone(b, a); }
    OrderOfDates(a, b, CivilOf(a), CivilOf(b));
  }

  lemma OrderOfDates(a: nat, b: nat, c: Civil, d: Civil)
    requires FixedWidth(c) && FixedWidth(d)
    requires (a < b ==> Before(c, d)) && (b < a ==> Before(d, c)) && (a == b ==> c == d)
    ensures Less(Format(c), Format(d)) <==> a < b
  {
    FormatOrder(c, d);
  }

  /** Every pair of instants before the given millisecond compares as its strings do. */
  ghost predicate OrderedBefore(limit: nat) {
    forall s: nat, t: nat :: Millis(s) < limit && Millis(t) < limit ==>
      (Less(Storage(s), Storage(t)) <==> Millis(s) < Millis(t))
  }

  lemma LeadingDigits()
    ensures Padded(4, 9999)[0] == '9' && Padded(4, 10000)[0] == '1'
  {
    assert Decimal(9)[0] == '9' && Decimal(99)[0] == '9' && Decimal(999)[0] == '9' && Decimal(9999)[0] == '9';
    assert Decimal(1)[0] == '1' && Decimal(10)[0] == '1' && Decimal(100)[0] == '1' && Decimal(1000)[0] == '1';
    assert |Decimal(99)| == 2 && |Decimal(999)| == 3 && |Decimal(9999)| == 4;
    assert |Decimal(10)| == 2 && |Decimal(100)| == 3 && |Decimal(1000)| == 4;
  }

  lemma YearLeads(c: Civil)
    ensures Format(c) != "" && Format(c)[0] == Padded(4, c.year)[0]
  {
  }

  lemma YearOfMillis(ms: nat, y: nat, first: nat)
    requires FirstDay(y, first) && first <= ms / MILLIS_PER_DAY < first + 365
    ensures CivilOf(ms).year == y
  {
    YearOfDay(y, first, ms / MILLIS_PER_DAY);
  }

  /** The order is relied on exactly as far as it holds: up to the end of year 9999 and not one millisecond further. */
  lemma OrderedExactlyBeforeYear10000(limit: nat)
    ensures OrderedBefore(limit) <==> limit <= YEAR_10000
  {
    if limit <= YEAR_10000 {
      forall s: nat, t: nat | Millis(s) < limit && Millis(t) < limit
        ensures Less(Storage(s), Storage(t)) <==> Millis(s) < Millis(t)
      {
        StorageOrder(s, t);
      }
    } else {
      var s, t := (YEAR_10000 - 1) * NANOS_PER_MILLI, YEAR_10000 * NANOS_PER_MILLI;
      YearOfMillis(YEAR_10000 - 1, 9999, 3_652_060);
      YearOfMillis(YEAR_10000, 10000, 3_652_425);
      LeadingDigits();
      YearLeads(CivilOf(YEAR_10000 - 1));
      YearLeads(CivilOf(YEAR_10000));
      assert Millis(s) == YEAR_10000 - 1 && Millis(t) == YEAR_10000;
      assert !Less(Storage(s), Storage(t));
    }
  }

  // What the strings say.

  /**
   The number of a date in the proleptic Gregorian calendar, counted from the first of January of year 0, by the usual
   formula over years that begin in March: no table of months, no leap-year test.
   */
  function DayNumber(y: int, m: int, d: int): int {
    var c := if m <= 2 then y + 399 else y + 400;
    365 * c + c / 4 - c / 100 + c / 400 + (153 * ((m + 9) % 12) + 2) / 5 + d - 1 - 146037
  }

  lemma NewYear(y: nat)
    ensures DayNumber(y, 1, 1) == DaysBefore(y)
  {
    DaysBeforeClosed(y);
    assert (y + 399) / 4 == (y + 3) / 4 + 99;
    assert (y + 399) / 100 == (y + 99) / 100 + 3;
  }

  /** The months are as long as the formula says. */
  lemma MonthLength(y: nat, m: nat)
    requires 1 <= m < 12
    ensures DayNumber(y, m + 1, 1) == DayNumber(y, m, 1) + DaysInMonth(y, m)
  {
    if m == 2 { FebruaryLength(y); }
  }

  lemma Quarters(y: nat)
    ensures (y + 400) / 4 == (y + 4) / 4 + 99 && (y + 399) / 4 == (y + 3) / 4 + 99
  {
  }

  lemma Centuries(y: nat)
    ensures (y + 400) / 100 == (y + 100) / 100 + 3 && (y + 399) / 100 == (y + 99) / 100 + 3
  {
  }

  lemma FebruaryLength(y: nat)
    ensures DayNumber(y, 3, 1) == DayNumber(y, 2, 1) + DaysInMonth(y, 2)
  {
    LeapDays(y);
    Quarters(y);
    Centuries(y);
  }

  lemma {:induction false} YearCounts(y: nat, d: nat)
    ensures var r := YearFrom(y, d); DaysBefore(r.0) + r.1 == DaysBefore(y) + d
    decreases d
  {
    if d >= DaysInYear(y) { YearCounts(y + 1, d - DaysInYear(y)); }
  }

  lemma {:induction false} MonthCounts(y: nat, m: nat, d: nat)
    requires 1 <= m <= 12 && d < DaysLeft(y, m)
    ensures var r := MonthFrom(y, m, d);
      && 1 <= r.0 <= 12 && 1 <= r.1 <= DaysInMonth(y, r.0)
      && DayNumber(y, r.0, r.1) == DayNumber(y, m, 1) + d
    decreases 12 - m
  {
    if m < 12 && d >= DaysInMonth(y, m) {
      MonthLength(y, m);
      MonthCounts(y, m + 1, d - DaysInMonth(y, m));
    }
  }

  lemma DateIsCalendar(day: nat)
    ensures var (y, doy) := YearFrom(0, day);
      var (m, d) := MonthFrom(y, 1, doy);
      && 1 <= m <= 12 && 1 <= d && DayNumber(y, m, d) == day
      && d <= 31 && (m < 12 ==> day < DayNumber(y, m + 1, 1))
  {
    var (y, doy) := YearFrom(0, day);
    YearCounts(0, day);
    YearAsMonths(y);
    MonthCounts(y, 1, doy);
    NewYear(y);
    var (m, _) := MonthFrom(y, 1, doy);
    if m < 12 { MonthLength(y, m); }
  }

  /**
   The date and time of a millisecond: the date whose number in the calendar its day is, never past the end of the
   month, and the time of that day.
   */
  lemma CivilIsCalendar(ms: nat)
    ensures IsTimeOf(CivilOf(ms), ms)
  {
    DateIsCalendar(ms / MILLIS_PER_DAY);
    TimeOfDay(ms % MILLIS_PER_DAY);
  }

  /** s consists of these numbers, each in so many digits and followed by its mark. */
  predicate Spelled(s: string, fs: seq<Field>)
    decreases |fs|
  {
    if fs == [] then s == ""
    else
      var (w, rest) := (fs[0].width, fs[1..]);
      && w < |s| && AllDigits(s[..w]) && Numeral(s[..w]) == fs[0].value
      && [s[w]] == fs[0].mark && Spelled(s[w + 1..], rest)
  }

  predicate FieldFits(f: Field) { f.width > 0 && f.value < Pow10(f.width) && |f.mark| == 1 }

  lemma FieldFirst(s: string, f: Field, rest: string)
    requires FieldFits(f) && s == Padded(f.width, f.value) + (f.mark + rest)
    ensures var w := f.width;
      w < |s| && AllDigits(s[..w]) && Numeral(s[..w]) == f.value && [s[w]] == f.mark && s[w + 1..] == rest
  {
    PaddedExact(f.width, f.value);
    PaddedNumeral(f.width, f.value);
    assert s[..f.width] == Padded(f.width, f.value);
  }

  lemma {:induction false} SpellIsSpelled(fs: seq<Field>)
    requires forall i :: 0 <= i < |fs| ==> FieldFits(fs[i])
    ensures Spelled(Spell(fs), fs)
  {
    if fs != [] {
      FieldFirst(Spell(fs), fs[0], Spell(fs[1..]));
      SpellIsSpelled(fs[1..]);
    }
  }

  lemma FieldsFit(c: Civil)
    requires FixedWidth(c)
    ensures forall i :: 0 <= i < |Fields(c)| ==> FieldFits(Fields(c)[i])
  {
    Widths();
  }

  /** c is the date and time of the millisecond. */
  predicate IsTimeOf(c: Civil, ms: nat) {
    var day := DayNumber(c.year, c.month, c.day);
    && 1 <= c.month <= 12 && 1 <= c.day <= 31 && (c.month < 12 ==> day < DayNumber(c.year, c.month + 1, 1))
    && c.hour < 24 && c.minute < 60 && c.second < 60 && c.milli < 1000
    && ms == day * 86_400_000 + c.hour * 3_600_000 + c.minute * 60_000 + c.second * 1000 + c.milli
  }

  /** 2006-01-02T15:04:05.000Z */
  predicate SpelledOut(s: string, c: Civil) {
    Spelled(s, [Field(4, c.year, "-"), Field(2, c.month, "-"), Field(2, c.day, "T"), Field(2, c.hour, ":"),
                Field(2, c.minute, ":"), Field(2, c.second, "."), Field(3, c.milli, "Z")])
  }

  /**
   Up to the end of year 9999 a stored string is the calendar date and time of day of its instant, in UTC: four digits
   of the year, two each of month, day, hour, minute and second, and three of the milliseconds.
   */
  lemma StorageSpells(t: nat)
    requires Millis(t) < YEAR_10000
    ensures exists c: Civil :: IsTimeOf(c, Millis(t)) && SpelledOut(Storage(t), c)
  {
    var c := CivilOf(Millis(t));
    CivilFixedWidth(Millis(t));
    CivilIsCalendar(Millis(t));
    FieldsFit(c);
    SpellIsSpelled(Fields(c));
  }
}
