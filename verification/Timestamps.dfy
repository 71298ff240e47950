/**
 The text layouts stored timestamps use: internal/sweepstore's fixed-width
 "2006-01-02T15:04:05.000000000Z" and internal/dao/sqlite's whole-second
 "2006-01-02T15:04:05Z", both in UTC, against time order.
 */
module Timestamps {
  import opened Arithmetic
  import opened Outcomes
  import opened Text

  /** A moment in UTC, in years 0000 to 9999. */
  datatype DateTime = DateTime(year: nat, month: nat, day: nat, hour: nat, minute: nat, second: nat, nano: nat)

  predicate Leap(y: nat) {
    y % 4 == 0 && (y % 100 != 0 || y % 400 == 0)
  }

  function DaysIn(y: nat, m: nat): nat {
    if m == 2 then (if Leap(y) then 29 else 28)
    else if m == 4 || m == 6 || m == 9 || m == 11 then 30
    else 31
  }

  predicate Valid(t: DateTime) {
    && t.year <= 9999
    && 1 <= t.month <= 12
    && 1 <= t.day <= DaysIn(t.year, t.month)
    && t.hour < 24 && t.minute < 60 && t.second < 60 && t.nano < 1_000_000_000
  }

  // ------------------------------------------------------------ time itself

  function DaysBeforeYear(y: nat): nat {
    if y == 0 then 0 else DaysBeforeYear(y - 1) + if Leap(y - 1) then 366 else 365
  }

  function DaysBeforeMonth(y: nat, m: nat): nat {
    if m <= 1 then 0 else DaysBeforeMonth(y, m - 1) + DaysIn(y, m - 1)
  }

  function DayNumber(t: DateTime): int {
    DaysBeforeYear(t.year) + DaysBeforeMonth(t.year, t.month) + t.day - 1
  }

  /** Whole seconds since the start of year 0000. */
  function Seconds(t: DateTime): int {
    ((DayNumber(t) * 24 + t.hour) * 60 + t.minute) * 60 + t.second
  }

  /** Nanoseconds since the start of year 0000. */
  function Instant(t: DateTime): int {
    Seconds(t) * 1_000_000_000 + t.nano
  }

  lemma {:induction false} MonthsAdd(y: nat, m: nat, n: nat)
    requires 1 <= m < n
    ensures DaysBeforeMonth(y, m) + DaysIn(y, m) <= DaysBeforeMonth(y, n)
    decreases n
  {
    if m + 1 < n {
      MonthsAdd(y, m, n - 1);
    }
  }

  lemma YearLength(y: nat)
    ensures DaysBeforeMonth(y, 12) + 31 == if Leap(y) then 366 else 365
  {
    var leap := if Leap(y) then 1 else 0;
    assert DaysBeforeMonth(y, 2) == 31;
    assert DaysBeforeMonth(y, 3) == 59 + leap;
    assert DaysBeforeMonth(y, 5) == 120 + leap;
    assert DaysBeforeMonth(y, 7) == 181 + leap;
    assert DaysBeforeMonth(y, 9) == 243 + leap;
    assert DaysBeforeMonth(y, 11) == 304 + leap;
  }

  lemma {:induction false} YearsAdd(y: nat, z: nat)
    requires y < z
    ensures DaysBeforeYear(y) + (if Leap(y) then 366 else 365) <= DaysBeforeYear(z)
    decreases z
  {
    if y + 1 < z {
      YearsAdd(y, z - 1);
    }
  }

  /** Calendar dates count up with their day number. */
  lemma DayOrder(a: DateTime, b: DateTime)
    requires Valid(a) && Valid(b)
    ensures a.year < b.year ==> DayNumber(a) < DayNumber(b)
    ensures a.year == b.year && a.month < b.month ==> DayNumber(a) < DayNumber(b)
  {
    if a.year < b.year {
      YearsAdd(a.year, b.year);
      YearLength(a.year);
      if a.month < 12 {
        MonthsAdd(a.year, a.month, 12);
      }
    } else if a.year == b.year && a.month < b.month {
      MonthsAdd(a.year, a.month, b.month);
    }
  }

  // ----------------------------------------------------------------- layout

  function SecondField(t: DateTime, tail: string): string {
    ":" + (Padded(t.second, 2) + tail)
  }

  function MinuteField(t: DateTime, tail: string): string {
    ":" + (Padded(t.minute, 2) + SecondField(t, tail))
  }

  function HourField(t: DateTime, tail: string): string {
    "T" + (Padded(t.hour, 2) + MinuteField(t, tail))
  }

  function DayField(t: DateTime, tail: string): string {
    "-" + (Padded(t.day, 2) + HourField(t, tail))
  }

  function MonthField(t: DateTime, tail: string): string {
    "-" + (Padded(t.month, 2) + DayField(t, tail))
  }

  function Written(t: DateTime, tail: string): string {
    Padded(t.year, 4) + MonthField(t, tail)
  }

  /** Nine places and the zone. */
  function Fraction(t: DateTime, zone: string): string {
    "." + (Padded(t.nano, 9) + zone)
  }

  function Nanos(t: DateTime): string {
    Fraction(t, "Z")
  }

  /** sweepstore's encodeTime on SQLite. */
  function Encode(t: DateTime): string {
    Written(t, Nanos(t))
  }

  /** The SQLite repository's RFC 3339 layout: whole seconds. */
  function EncodeSecond(t: DateTime): string {
    Written(t, "Z")
  }

  // ------------------------------------------------------------------ order

  /** A field of equal width before the rest of two texts. */
  lemma FieldOrder(c: char, a: nat, b: nat, w: nat, ra: string, rb: string)
    requires a < Pow10(w) && b < Pow10(w)
    ensures Before([c] + (Padded(a, w) + ra), [c] + (Padded(b, w) + rb)) <==> a < b || (a == b && Before(ra, rb))
  {
    BeforeConcat([c], Padded(a, w) + ra, [c], Padded(b, w) + rb);
    BeforeConcat(Padded(a, w), ra, Padded(b, w), rb);
    PaddedOrder(a, b, w);
    BeforeIrreflexive([c]);
  }

  /** Time order within one day, then day by day: all fields but the tail. */
  predicate EarlierSecond(a: DateTime, b: DateTime) {
    || a.year < b.year
    || (a.year == b.year
        && (|| a.month < b.month
            || (a.month == b.month
                && (|| a.day < b.day
                    || (a.day == b.day
                        && (|| a.hour < b.hour
                            || (a.hour == b.hour
                                && (|| a.minute < b.minute
                                    || (a.minute == b.minute && a.second < b.second)))))))))
  }

  predicate SameSecond(a: DateTime, b: DateTime) {
    a.(nano := 0) == b.(nano := 0)
  }

  /** A moment of the years 0000 to 9999, as the stores' texts can write it. */
  ghost predicate Dated(moment: int) {
    exists t :: Valid(t) && Instant(t) == moment
  }

  lemma SecondDated(t: DateTime)
    requires Valid(t)
    ensures Dated(Seconds(t) * NANOS)
  {
    var whole := t.(nano := 0);
    assert Valid(whole) && Instant(whole) == Seconds(t) * NANOS;
  }

  lemma EarlierIsLess(a: DateTime, b: DateTime)
    requires Valid(a) && Valid(b)
    ensures EarlierSecond(a, b) <==> Seconds(a) < Seconds(b)
    ensures SameSecond(a, b) <==> Seconds(a) == Seconds(b)
  {
    DayOrder(a, b);
    DayOrder(b, a);
  }

  // ------------------------------------------------------------ the civil clock

  /** The Gregorian calendar's month lengths. */
  function MonthLength(y: nat, m: nat): nat
    requires 1 <= m <= 12
  {
    var february := if y % 400 == 0 || (y % 4 == 0 && y % 100 != 0) then 29 else 28;
    [31, february, 31, 30, 31, 30, 31, 31, 30, 31, 30, 31][m - 1]
  }

  /** The same time of the next day: the carry into month and year. */
  function NextDay(t: DateTime): DateTime
    requires 1 <= t.month <= 12
  {
    if t.day < MonthLength(t.year, t.month) then t.(day := t.day + 1)
    else if t.month < 12 then t.(month := t.month + 1, day := 1)
    else t.(year := t.year + 1, month := 1, day := 1)
  }

  /** What a clock shows one second later. */
  function NextSecond(t: DateTime): DateTime
    requires 1 <= t.month <= 12
  {
    if t.second < 59 then t.(second := t.second + 1)
    else if t.minute < 59 then t.(minute := t.minute + 1, second := 0)
    else if t.hour < 23 then t.(hour := t.hour + 1, minute := 0, second := 0)
    else NextDay(t.(hour := 0, minute := 0, second := 0))
  }

  predicate LastDay(t: DateTime) {
    t.year == 9999 && t.month == 12 && t.day == 31
  }

  predicate LastSecond(t: DateTime) {
    LastDay(t) && t.hour == 23 && t.minute == 59 && t.second == 59
  }

  /** A civil day later is a day's nanoseconds later, at every month's end and in every leap year. */
  lemma NextDayIsADay(t: DateTime)
    requires Valid(t) && !LastDay(t)
    ensures Valid(NextDay(t)) && Instant(NextDay(t)) == Instant(t) + 24 * 60 * 60 * 1_000_000_000
  {
    assert DaysIn(t.year, t.month) == MonthLength(t.year, t.month);
    YearLength(t.year);
    assert DayNumber(NextDay(t)) == DayNumber(t) + 1;
  }

  function DaysLater(t: DateTime, k: nat): DateTime
    requires Valid(t)
    ensures Valid(DaysLater(t, k))
  {
    if k == 0 then t
    else
      var before := DaysLater(t, k - 1);
      if LastDay(before) then before
      else
        NextDayIsADay(before);
        NextDay(before)
  }

  /** The calendar of years 0000 to 9999 goes on for k days more. */
  predicate DaysFit(t: DateTime, k: nat)
    requires Valid(t)
  {
    k == 0 || (DaysFit(t, k - 1) && !LastDay(DaysLater(t, k - 1)))
  }

  lemma {:induction false} DaysLaterIs(t: DateTime, k: nat)
    requires Valid(t) && DaysFit(t, k)
    ensures Instant(DaysLater(t, k)) == Instant(t) + k * 86_400_000_000_000
  {
    if k > 0 {
      DaysLaterIs(t, k - 1);
      NextDayIsADay(DaysLater(t, k - 1));
    }
  }

  /** A civil second later is a thousand million nanoseconds later. */
  lemma NextSecondIsASecond(t: DateTime)
    requires Valid(t) && !LastSecond(t)
    ensures Valid(NextSecond(t)) && Instant(NextSecond(t)) == Instant(t) + 1_000_000_000
    ensures Seconds(NextSecond(t)) == Seconds(t) + 1 && NextSecond(t).nano == t.nano
  {
    if t.second == 59 && t.minute == 59 && t.hour == 23 {
      NextDayIsADay(t.(hour := 0, minute := 0, second := 0));
    }
  }

  const ORIGIN := DateTime(0, 1, 1, 0, 0, 0, 0)

  /** A clock's reading n seconds after ORIGIN, unless it stopped earlier at the end of the year 9999. */
  predicate Reads(t: DateTime, n: int) {
    Valid(t) && t.nano == 0 && (Seconds(t) == n || (LastSecond(t) && Seconds(t) <= n))
  }

  function Tick(t: DateTime): DateTime
    requires Valid(t)
  {
    if LastSecond(t) then t else NextSecond(t)
  }

  lemma TickReads(t: DateTime, n: int)
    requires Reads(t, n)
    ensures Reads(Tick(t), n + 1)
  {
    if !LastSecond(t) {
      NextSecondIsASecond(t);
    }
  }

  lemma OriginReads()
    ensures Reads(ORIGIN, 0) && Instant(DateTime(0, 1, 1, 0, 0, 0, 0)) == 0
  {
    assert DaysBeforeMonth(0, 1) == 0 && DaysBeforeYear(0) == 0;
  }

  /** A clock started at 0000-01-01T00:00:00, after n seconds. */
  function Ticked(n: nat): (t: DateTime)
    ensures Reads(t, n)
  {
    if n == 0 then
      OriginReads();
      ORIGIN
    else
      var t := Ticked(n - 1);
      TickReads(t, n - 1);
      Tick(t)
  }

  lemma NoneAfterLast(last: DateTime, t: DateTime)
    requires Valid(last) && LastSecond(last) && Valid(t)
    ensures Seconds(t) <= Seconds(last)
  {
    EarlierIsLess(last, t);
  }

  lemma SecondsTell(a: DateTime, b: DateTime)
    requires Valid(a) && Valid(b) && Seconds(a) == Seconds(b)
    ensures a.(nano := 0) == b.(nano := 0)
  {
    EarlierIsLess(a, b);
  }

  /** A moment is told by counting: it is the clock's reading after that many seconds, and no other reading is. */
  lemma InstantCounts(t: DateTime)
    requires Valid(t)
    ensures Instant(t) >= 0
    ensures Ticked(Instant(t) / 1_000_000_000) == t.(nano := 0) && Instant(t) % 1_000_000_000 == t.nano
  {
    var n := Seconds(t);
    DivModUnique(Instant(t), 1_000_000_000, n, t.nano);
    if LastSecond(Ticked(n)) {
      NoneAfterLast(Ticked(n), t);
    }
    SecondsTell(Ticked(n), t);
  }

  /** How many multiples of d there are below z + 1, against below z. */
  lemma OneMoreMultiple(z: nat, d: nat)
    requires d > 0
    ensures (z + d) / d == (z + d - 1) / d + if z % d == 0 then 1 else 0
  {
    var q, r := z / d, z % d;
    DivModUnique(z + d, d, q + 1, r);
    if r == 0 {
      DivModUnique(z + d - 1, d, q, d - 1);
    } else {
      DivModUnique(z + d - 1, d, q + 1, r - 1);
    }
  }

  lemma CenturiesAreFourths(z: nat)
    ensures z % 100 == 0 ==> z % 4 == 0
    ensures z % 400 == 0 ==> z % 100 == 0
  {
    if z % 100 == 0 {
      DivModUnique(z, 4, z / 100 * 25, 0);
    }
    if z % 400 == 0 {
      DivModUnique(z, 100, z / 400 * 4, 0);
    }
  }

  lemma LeapYears(z: nat)
    ensures (z + 4) / 4 - (z + 100) / 100 + (z + 400) / 400
         == (z + 3) / 4 - (z + 99) / 100 + (z + 399) / 400 + if Leap(z) then 1 else 0
  {
    OneMoreMultiple(z, 4);
    OneMoreMultiple(z, 100);
    OneMoreMultiple(z, 400);
    CenturiesAreFourths(z);
  }

  /** The days before a year in closed form: 365 each, and one for each leap year from the year 0 on. */
  lemma {:induction false} DaysBeforeYearExact(y: nat)
    ensures DaysBeforeYear(y) == 365 * y + (y + 3) / 4 - (y + 99) / 100 + (y + 399) / 400
  {
    if y > 0 {
      DaysBeforeYearExact(y - 1);
      LeapYears(y - 1);
    }
  }

  // ------------------------------------------------------- order of the texts

  lemma WrittenOrder(a: DateTime, b: DateTime, ta: string, tb: string)
    requires Valid(a) && Valid(b)
    ensures Before(Written(a, ta), Written(b, tb)) <==> EarlierSecond(a, b) || (SameSecond(a, b) && Before(ta, tb))
  {
    assert Pow10(2) == 100 && Pow10(4) == 10_000;
    FieldOrder(':', a.second, b.second, 2, ta, tb);
    FieldOrder(':', a.minute, b.minute, 2, SecondField(a, ta), SecondField(b, tb));
    FieldOrder('T', a.hour, b.hour, 2, MinuteField(a, ta), MinuteField(b, tb));
    FieldOrder('-', a.day, b.day, 2, HourField(a, ta), HourField(b, tb));
    FieldOrder('-', a.month, b.month, 2, DayField(a, ta), DayField(b, tb));
    BeforeConcat(Padded(a.year, 4), MonthField(a, ta), Padded(b.year, 4), MonthField(b, tb));
    PaddedOrder(a.year, b.year, 4);
  }

  lemma Pow10Of9()
    ensures Pow10(9) == 1_000_000_000
  {
    assert Pow10(4) == 10_000;
    assert Pow10(7) == 10_000_000;
  }

  /** Text order of the fixed-width layout is time order. */
  lemma EncodeOrder(a: DateTime, b: DateTime)
    requires Valid(a) && Valid(b)
    ensures Before(Encode(a), Encode(b)) <==> Instant(a) < Instant(b)
  {
    WrittenOrder(a, b, Nanos(a), Nanos(b));
    EarlierIsLess(a, b);
    Pow10Of9();
    FieldOrder('.', a.nano, b.nano, 9, "Z", "Z");
    BeforeIrreflexive("Z");
  }

  /** Text order of the whole-second layout is the order of whole seconds. */
  lemma EncodeSecondOrder(a: DateTime, b: DateTime)
    requires Valid(a) && Valid(b)
    ensures Before(EncodeSecond(a), EncodeSecond(b)) <==> Seconds(a) < Seconds(b)
  {
    WrittenOrder(a, b, "Z", "Z");
    EarlierIsLess(a, b);
    BeforeIrreflexive("Z");
  }

  /** Dropping fractions of a second never makes a time look older than a cutoff it has not passed. */
  lemma TruncationNeverEarly(stored: DateTime, cutoff: DateTime)
    requires Valid(stored) && Valid(cutoff)
    ensures Before(EncodeSecond(stored), EncodeSecond(cutoff)) ==> Instant(stored) < Instant(cutoff)
    ensures Before(EncodeSecond(stored), EncodeSecond(cutoff))
       <==> Instant(stored) < Instant(cutoff) && Seconds(stored) != Seconds(cutoff)
  {
    EncodeSecondOrder(stored, cutoff);
  }

  // ---------------------------------------------------------------- parsing

  /**
   time.Parse reads more than these layouts write: an hour of one digit, a comma for
   the period, a sign among the nine digits of a fraction, a fraction the layout does
   not mention, and zone offsets.
   */
  function TakeNumber(s: string, w: nat): Option<(nat, string)> {
    if w <= |s| && AllDigits(s[..w]) then Some((Value(s[..w]), s[w..])) else None
  }

  function TakeField(s: string, c: char, w: nat): Option<(nat, string)> {
    if s != [] && s[0] == c then TakeNumber(s[1..], w) else None
  }

  /** The hour may have one digit. */
  function TakeHour(s: string): Option<(nat, string)> {
    if s == [] || s[0] != 'T' then None
    else if TakeNumber(s[1..], 2).Some? then TakeNumber(s[1..], 2)
    else TakeNumber(s[1..], 1)
  }

  /** Reads everything but the tail, and hands the tail back. */
  function ReadSecond(s: string): Option<(DateTime, string)> {
    match TakeNumber(s, 4)
    case None => None
    case Some((year, s1)) =>
      match TakeField(s1, '-', 2)
      case None => None
      case Some((month, s2)) =>
        match TakeField(s2, '-', 2)
        case None => None
        case Some((day, s3)) =>
          match TakeHour(s3)
          case None => None
          case Some((hour, s4)) =>
            match TakeField(s4, ':', 2)
            case None => None
            case Some((minute, s5)) =>
              match TakeField(s5, ':', 2)
              case None => None
              case Some((second, s6)) => Some((DateTime(year, month, day, hour, minute, second, 0), s6))
  }

  predicate Point(c: char) {
    c == '.' || c == ','
  }

  /** A number with an optional sign, as long as it is not below zero. */
  function Unsigned(s: string): Option<nat> {
    if s != [] && (s[0] == '+' || s[0] == '-') then
      if AllDigits(s[1..]) && (s[0] == '+' || Value(s[1..]) == 0) then Some(Value(s[1..])) else None
    else if AllDigits(s) then Some(Value(s))
    else None
  }

  /** The fraction of the fixed-width layout: nine places. */
  function TakeNanos(s: string): Option<(nat, string)> {
    if |s| < 10 || !Point(s[0]) then None
    else
      match Unsigned(s[1..10])
      case None => None
      case Some(n) => Some((n, s[10..]))
  }

  function LeadingDigits(s: string): (n: nat)
    ensures n <= |s| && AllDigits(s[..n])
  {
    if s == [] || !IsDigit(s[0]) then 0
    else
      var n := 1 + LeadingDigits(s[1..]);
      assert s[..n] == [s[0]] + s[1..][..n - 1];
      n
  }

  /** A fraction where the layout has none: any digits, of which nine count. */
  function SkipFraction(s: string): (nat, string) {
    if |s| >= 2 && Point(s[0]) && IsDigit(s[1]) then
      var n := LeadingDigits(s[1..]);
      var kept := if n <= 9 then n else 9;
      assert s[1..][..kept] == s[1..][..n][..kept];
      (Value(s[1..][..kept]) * Pow10(9 - kept), s[1..][n..])
    else (0, s)
  }

  /** The zone's distance from UTC in seconds. */
  function ReadZone(z: string): Option<int> {
    if z == "Z" then Some(0)
    else if |z| == 6 && (z[0] == '+' || z[0] == '-') && AllDigits(z[1..3]) && z[3] == ':' && AllDigits(z[4..6])
            && Value(z[1..3]) <= 24 && Value(z[4..6]) <= 60 then
      var offset := (Value(z[1..3]) * 60 + Value(z[4..6])) * 60;
      Some(if z[0] == '+' then offset else -offset)
    else None
  }

  const NANOS := 1_000_000_000

  /** The moment a local reading in a zone stands for. */
  function Moment(t: DateTime, zone: Option<int>): Option<int> {
    if zone.None? || !Valid(t) then None else Some(Instant(t) - zone.value * NANOS)
  }

  /** time.Parse of the fixed-width layout. */
  function Parse(s: string): Option<int> {
    match ReadSecond(s)
    case None => None
    case Some((t, tail)) =>
      match TakeNanos(tail)
      case None => None
      case Some((nano, z)) => Moment(t.(nano := nano), ReadZone(z))
  }

  /** time.Parse of RFC 3339. */
  function ParseSecond(s: string): Option<int> {
    match ReadSecond(s)
    case None => None
    case Some((t, tail)) =>
      var (nano, z) := SkipFraction(tail);
      Moment(t.(nano := nano), ReadZone(z))
  }

  lemma TakePadded(n: nat, w: nat, rest: string)
    requires n < Pow10(w)
    ensures TakeNumber(Padded(n, w) + rest, w) == Some((n, rest))
  {
    PaddedValue(n, w);
    assert (Padded(n, w) + rest)[..w] == Padded(n, w) && (Padded(n, w) + rest)[w..] == rest;
  }

  lemma TakePaddedField(c: char, n: nat, w: nat, rest: string)
    requires n < Pow10(w)
    ensures TakeField([c] + (Padded(n, w) + rest), c, w) == Some((n, rest))
  {
    TakePadded(n, w, rest);
    assert ([c] + (Padded(n, w) + rest))[1..] == Padded(n, w) + rest;
  }

  lemma TakePaddedHour(n: nat, rest: string)
    requires n < 100
    ensures TakeHour("T" + (Padded(n, 2) + rest)) == Some((n, rest))
  {
    assert Pow10(2) == 100;
    TakePadded(n, 2, rest);
    assert ("T" + (Padded(n, 2) + rest))[1..] == Padded(n, 2) + rest;
  }

  lemma ReadWritten(t: DateTime, tail: string)
    requires Valid(t)
    ensures ReadSecond(Written(t, tail)) == Some((t.(nano := 0), tail))
  {
    assert Pow10(2) == 100 && Pow10(4) == 10_000;
    TakePadded(t.year, 4, MonthField(t, tail));
    TakePaddedField('-', t.month, 2, DayField(t, tail));
    TakePaddedField('-', t.day, 2, HourField(t, tail));
    TakePaddedHour(t.hour, MinuteField(t, tail));
    TakePaddedField(':', t.minute, 2, SecondField(t, tail));
    TakePaddedField(':', t.second, 2, tail);
  }

  lemma DigitsUnsigned(s: string)
    requires s != [] && AllDigits(s)
    ensures Unsigned(s) == Some(Value(s))
  {
    assert IsDigit(s[0]);
  }

  lemma NanosRead(n: nat)
    requires n < NANOS
    ensures |Padded(n, 9)| == 9 && Unsigned(Padded(n, 9)) == Some(n)
  {
    Pow10Of9();
    PaddedValue(n, 9);
    DigitsUnsigned(Padded(n, 9));
  }

  lemma FractionTaken(t: DateTime, zone: string)
    requires Valid(t)
    ensures TakeNanos(Fraction(t, zone)) == Some((t.nano, zone))
  {
    NanosRead(t.nano);
    var s := Fraction(t, zone);
    assert s[1..10] == Padded(t.nano, 9) && s[10..] == zone;
  }

  lemma ParseParts(s: string, t: DateTime, tail: string, nano: nat, z: string)
    requires ReadSecond(s) == Some((t, tail)) && TakeNanos(tail) == Some((nano, z))
    ensures Parse(s) == Moment(t.(nano := nano), ReadZone(z))
  {
  }

  /** A local time written in any zone reads as the moment it stands for, so texts nobody here wrote are read too. */
  lemma ZonesAreRead(t: DateTime, zone: string)
    requires Valid(t)
    ensures Parse(Written(t, Fraction(t, zone))) == Moment(t, ReadZone(zone))
  {
    var tail := Fraction(t, zone);
    ReadWritten(t, tail);
    FractionTaken(t, zone);
    ParseParts(Written(t, tail), t.(nano := 0), tail, t.nano, zone);
    assert t.(nano := 0).(nano := t.nano) == t;
  }

  lemma UtcMoment(t: DateTime)
    requires Valid(t)
    ensures Moment(t, ReadZone("Z")) == Some(Instant(t))
  {
  }

  /** Reading a stored time back gives the moment that was written, to the nanosecond. */
  lemma ParseEncode(t: DateTime)
    requires Valid(t)
    ensures Parse(Encode(t)) == Some(Instant(t))
  {
    ZonesAreRead(t, "Z");
    UtcMoment(t);
  }

  lemma ParseEncodeSecond(t: DateTime)
    requires Valid(t)
    ensures ParseSecond(EncodeSecond(t)) == Some(Seconds(t) * NANOS)
  {
    ReadWritten(t, "Z");
  }

  lemma ZoneFields(sign: char, hours: string, minutes: string)
    requires |hours| == |minutes| == 2 && AllDigits(hours) && AllDigits(minutes)
    requires (sign == '+' || sign == '-') && Value(hours) <= 24 && Value(minutes) <= 60
    ensures var offset := (Value(hours) * 60 + Value(minutes)) * 60;
            ReadZone([sign] + (hours + (":" + minutes))) == Some(if sign == '+' then offset else -offset)
  {
    var zone := [sign] + (hours + (":" + minutes));
    assert zone[0] == sign && zone[3] == ':' && zone[1..3] == hours && zone[4..6] == minutes;
  }

  lemma TwoDigits(n: nat)
    requires n < 100
    ensures |Padded(n, 2)| == 2 && AllDigits(Padded(n, 2)) && Value(Padded(n, 2)) == n
  {
    assert Pow10(2) == 100;
    PaddedValue(n, 2);
  }

  /** Every offset a zone may give, east and west. */
  lemma ZoneRead(east: bool, hours: nat, minutes: nat)
    requires hours <= 24 && minutes <= 60
    ensures var offset := (hours * 60 + minutes) * 60;
            ReadZone([if east then '+' else '-'] + (Padded(hours, 2) + (":" + Padded(minutes, 2))))
            == Some(if east then offset else -offset)
  {
    TwoDigits(hours);
    TwoDigits(minutes);
    ZoneFields(if east then '+' else '-', Padded(hours, 2), Padded(minutes, 2));
  }
}
