/** UTC calendar arithmetic as JavaScript's Date performs it for the handler:
    `Date.UTC` with out-of-range hour and minute fields carried into the
    following or preceding days, and `Date.prototype.toISOString`. */
module Calendar {
  import opened Wrappers
  import opened Numerals

  /** A proleptic-Gregorian calendar date with astronomical year numbering
      (year 0 is 1 BC) and months numbered 1..12. JavaScript numbers months
      0..11, but the handler passes `getUTCMonth()` straight back into
      `Date.UTC`, so the numbering never shows in its output. */
  datatype Date = Date(year: int, month: int, day: int)

  predicate IsLeapYear(y: int)
  {
    y % 4 == 0 && (y % 100 != 0 || y % 400 == 0)
  }

  function DaysInMonth(y: int, m: int): int
    requires 1 <= m <= 12
  {
    if m == 2 then (if IsLeapYear(y) then 29 else 28)
    else if m == 4 || m == 6 || m == 9 || m == 11 then 30
    else 31
  }

  predicate ValidDate(d: Date)
  {
    1 <= d.month <= 12 && 1 <= d.day <= DaysInMonth(d.year, d.month)
  }

  /** Chronological order of dates. */
  predicate Before(a: Date, b: Date)
  {
    || a.year < b.year
    || (a.year == b.year && a.month < b.month)
    || (a.year == b.year && a.month == b.month && a.day < b.day)
  }

  function NextDay(d: Date): (r: Date)
    requires ValidDate(d)
    ensures ValidDate(r) && Before(d, r)
  {
    if d.day < DaysInMonth(d.year, d.month) then d.(day := d.day + 1)
    else if d.month < 12 then Date(d.year, d.month + 1, 1)
    else Date(d.year + 1, 1, 1)
  }

  function PrevDay(d: Date): (r: Date)
    requires ValidDate(d)
    ensures ValidDate(r) && Before(r, d)
  {
    if d.day > 1 then d.(day := d.day - 1)
    else if d.month > 1 then Date(d.year, d.month - 1, DaysInMonth(d.year, d.month - 1))
    else Date(d.year - 1, 12, 31)
  }

  /** The next day is the immediate successor: no valid date lies strictly
      between a date and its next day. */
  lemma NextDayIsSuccessor(d: Date, e: Date)
    requires ValidDate(d) && ValidDate(e) && Before(d, e)
    ensures e == NextDay(d) || Before(NextDay(d), e)
  {
  }

  /** Stepping one day forward and one day back, in either order, returns to
      the same date. */
  lemma PrevNextInverse(d: Date)
    requires ValidDate(d)
    ensures PrevDay(NextDay(d)) == d
    ensures NextDay(PrevDay(d)) == d
  {
  }

  /** The date `n` days after `d` (before it when `n` is negative). */
  function AddDays(d: Date, n: int): (r: Date)
    requires ValidDate(d)
    ensures ValidDate(r)
    ensures n == 0 <==> r == d
    ensures n > 0 ==> Before(d, r)
    ensures n < 0 ==> Before(r, d)
    decreases if n < 0 then -n else n
  {
    if n == 0 then d
    else if n > 0 then AddDays(NextDay(d), n - 1)
    else AddDays(PrevDay(d), n + 1)
  }

  lemma {:induction false} AddDaysAfterNext(d: Date, k: int)
    requires ValidDate(d)
    ensures AddDays(NextDay(d), k) == AddDays(d, k + 1)
  {
    if k < 0 {
      PrevNextInverse(d);
    }
  }

  lemma {:induction false} AddDaysAfterPrev(d: Date, k: int)
    requires ValidDate(d)
    ensures AddDays(PrevDay(d), k) == AddDays(d, k - 1)
  {
    if k > 0 {
      PrevNextInverse(d);
    }
  }

  /** Moving `a` days and then `b` days is moving `a + b` days. */
  lemma {:induction false} AddDaysAdd(d: Date, a: int, b: int)
    requires ValidDate(d)
    ensures AddDays(AddDays(d, a), b) == AddDays(d, a + b)
    decreases if a < 0 then -a else a
  {
    if a > 0 {
      AddDaysAdd(NextDay(d), a - 1, b);
      AddDaysAfterNext(d, a - 1 + b);
    } else if a < 0 {
      AddDaysAdd(PrevDay(d), a + 1, b);
      AddDaysAfterPrev(d, a + 1 + b);
    }
  }

  /** A UTC instant with whole minutes; its seconds and milliseconds are zero,
      as for every instant the handler schedules. */
  datatype Instant = Instant(date: Date, hour: int, minute: int)

  predicate ValidInstant(i: Instant)
  {
    ValidDate(i.date) && 0 <= i.hour < 24 && 0 <= i.minute < 60
  }

  const MinutesPerDay: int := 1440

  /** The instant `Date.UTC(year, month, day, hour, minute)` denotes, read back
      through the UTC getters: the minutes `hour * 60 + minute` counted from
      midnight of `date`, whatever their sign or size. */
  function FromUtcFields(date: Date, hour: int, minute: int): (r: Instant)
    requires ValidDate(date)
    ensures ValidInstant(r)
    ensures 0 <= hour < 24 && 0 <= minute < 60 ==> r == Instant(date, hour, minute)
  {
    var total := hour * 60 + minute;
    var inDay := total % MinutesPerDay;
    assert 0 <= hour < 24 && 0 <= minute < 60 ==> total / MinutesPerDay == 0 && inDay == total;
    Instant(AddDays(date, total / MinutesPerDay), inDay / 60, inDay % 60)
  }

  /** Fields that name the same minute denote the same instant: moving the
      date `k` days forward while moving the hour `24 * k` back changes
      nothing. This is how `Date.UTC` carries an hour of 24 or more into the
      next day and a negative hour into the previous one. */
  lemma ShiftDays(date: Date, hour: int, minute: int, k: int)
    requires ValidDate(date)
    ensures FromUtcFields(AddDays(date, k), hour - 24 * k, minute) == FromUtcFields(date, hour, minute)
  {
    var total := hour * 60 + minute;
    var total' := (hour - 24 * k) * 60 + minute;
    assert total' == total - MinutesPerDay * k;
    assert total' / MinutesPerDay == total / MinutesPerDay - k;
    assert total' % MinutesPerDay == total % MinutesPerDay;
    AddDaysAdd(date, k, total / MinutesPerDay - k);
  }

  /** Sixty minutes carry into one hour. */
  lemma CarryMinutes(date: Date, hour: int, minute: int)
    requires ValidDate(date)
    ensures FromUtcFields(date, hour, minute + 60) == FromUtcFields(date, hour + 1, minute)
  {
  }

  /** The year as `toISOString` writes it: four digits for years 0..9999,
      otherwise a sign and at least six digits. */
  function YearText(y: int): string
  {
    if 0 <= y <= 9999 then Digits(y, 4)
    else (if y < 0 then "-" else "+") + Digits(if y < 0 then -y else y, 6)
  }

  /** `toISOString()`: "YYYY-MM-DDTHH:mm:ss.sssZ". Its text reads back as the
      instant it was written from. */
  function IsoString(i: Instant): (s: string)
    requires ValidInstant(i)
    ensures |s| >= 24
    ensures ParseIso(s) == Some(i)
  {
    var y := YearText(i.date.year);
    var t := IsoTail(i.date.month, i.date.day, i.hour, i.minute);
    YearRoundTrip(i.date.year);
    TailRoundTrip(i.date.month, i.date.day, i.hour, i.minute);
    var s := y + t;
    assert s[|s| - 20..] == t;
    assert s[..|s| - 20] == y;
    s
  }

  /** Everything after the year: twenty characters. */
  function IsoTail(month: nat, day: nat, hour: nat, minute: nat): (t: string)
    requires month < 100 && day < 100 && hour < 100 && minute < 100
    ensures |t| == 20
  {
    assert Pow10(2) == 100;
    "-" + Digits(month, 2) + "-" + Digits(day, 2) + "T" + Digits(hour, 2) + ":" + Digits(minute, 2) + ":00.000Z"
  }

  /** Reads back the year field of an ISO timestamp. */
  function ParseYear(y: string): Option<int>
  {
    if |y| == 4 && AllDigits(y) && AllRadixDigits(y, 10) then Some(Value(y, 10))
    else if |y| >= 7 && (y[0] == '+' || y[0] == '-') && AllRadixDigits(y[1..], 10) then
      var v: int := Value(y[1..], 10);
      Some(if y[0] == '-' then -v else v)
    else None
  }

  /** Reads back the two-digit field at `t[k..k+2]`. */
  function Field(t: string, k: nat): Option<nat>
    requires k + 2 <= |t|
  {
    if AllRadixDigits(t[k..k + 2], 10) then Some(Value(t[k..k + 2], 10)) else None
  }

  /** Reads back an ISO timestamp whose seconds and milliseconds are zero. */
  function ParseIso(s: string): Option<Instant>
  {
    if |s| < 24 then None
    else
      var t := s[|s| - 20..];
      if t[0] != '-' || t[3] != '-' || t[6] != 'T' || t[9] != ':' || t[12..] != ":00.000Z" then None
      else
        match (ParseYear(s[..|s| - 20]), Field(t, 1), Field(t, 4), Field(t, 7), Field(t, 10))
        case (Some(y), Some(mo), Some(d), Some(h), Some(mi)) => Some(Instant(Date(y, mo, d), h, mi))
        case _ => None
  }

  lemma YearRoundTrip(y: int)
    ensures ParseYear(YearText(y)) == Some(y)
    ensures |YearText(y)| >= 4
    ensures 0 <= y <= 9999 ==> |YearText(y)| == 4 && AllDigits(YearText(y))
    ensures !(0 <= y <= 9999) ==>
      |YearText(y)| >= 7 && YearText(y)[0] == (if y < 0 then '-' else '+') && AllDigits(YearText(y)[1..])
  {
    if 0 <= y <= 9999 {
      PlainYearRoundTrip(y);
    } else {
      SignedYearRoundTrip(y);
    }
  }

  /** Years 0..9999: four digits. */
  lemma PlainYearRoundTrip(y: int)
    requires 0 <= y <= 9999
    ensures |YearText(y)| == 4 && AllDigits(YearText(y)) && ParseYear(YearText(y)) == Some(y)
  {
    assert Pow10(4) == 10000;
    var d := Digits(y, 4);
    assert YearText(y) == d;
    assert |d| == 4 && AllDigits(d) && AllRadixDigits(d, 10);
  }

  /** Other years: a sign, then at least six digits. */
  lemma SignedYearRoundTrip(y: int)
    requires !(0 <= y <= 9999)
    ensures |YearText(y)| >= 7 && ParseYear(YearText(y)) == Some(y)
    ensures YearText(y)[0] == (if y < 0 then '-' else '+') && AllDigits(YearText(y)[1..])
  {
    var m := if y < 0 then -y else y;
    var d := Digits(m, 6);
    var t := YearText(y);
    assert t == (if y < 0 then "-" else "+") + d;
    assert t[1..] == d;
    assert t[0] == '-' || t[0] == '+';
  }

  lemma FieldRoundTrip(t: string, k: nat, n: nat)
    requires n < 100 && k + 2 <= |t| && t[k..k + 2] == Digits(n, 2)
    ensures Field(t, k) == Some(n)
  {
  }

  /** Where the separators and the two-digit fields sit in the tail. */
  lemma TailLayout(a: string, b: string, c: string, e: string)
    requires |a| == 2 && |b| == 2 && |c| == 2 && |e| == 2
    ensures var t := "-" + a + "-" + b + "T" + c + ":" + e + ":00.000Z";
      && t[0] == '-' && t[3] == '-' && t[6] == 'T' && t[9] == ':' && t[12..] == ":00.000Z"
      && t[1..3] == a && t[4..6] == b && t[7..9] == c && t[10..12] == e
  {
  }

  lemma TailRoundTrip(month: nat, day: nat, hour: nat, minute: nat)
    requires month < 100 && day < 100 && hour < 100 && minute < 100
    ensures var t := IsoTail(month, day, hour, minute);
      && t[0] == '-' && t[3] == '-' && t[6] == 'T' && t[9] == ':' && t[12..] == ":00.000Z"
      && Field(t, 1) == Some(month) && Field(t, 4) == Some(day)
      && Field(t, 7) == Some(hour) && Field(t, 10) == Some(minute)
  {
    assert Pow10(2) == 100;
    var t := IsoTail(month, day, hour, minute);
    TailLayout(Digits(month, 2), Digits(day, 2), Digits(hour, 2), Digits(minute, 2));
    FieldRoundTrip(t, 1, month);
    FieldRoundTrip(t, 4, day);
    FieldRoundTrip(t, 7, hour);
    FieldRoundTrip(t, 10, minute);
  }
}
