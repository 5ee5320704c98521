/** The time resolver `formatDateTime(timeString, timeZone)` (index.js:4-15):
    the spoken time "H" or "H:MM" becomes today's UTC date at that hour and
    minute, taken as UTC wall-clock fields. The clock reading `new Date()` is
    the parameter `today`, its UTC calendar date. */
module TimeResolver {
  import opened Wrappers
  import opened Text
  import opened Numerals
  import opened JsNumber
  import opened Calendar

  /** The time split at its colons, destructured into two names: the text
      before the first colon, and the text between the first colon and the
      next one (or the end). Without a colon the second name is left
      undefined, modelled as None. */
  function HourAndMinuteText(timeString: string): (r: (string, Option<string>))
    ensures ':' !in r.0
    ensures r.1.None? <==> ':' !in timeString
    ensures r.1.None? ==> r.0 == timeString
    ensures r.1.Some? ==> ':' !in r.1.value
    ensures r.1.Some? ==>
      var n := |r.0| + 1 + |r.1.value|;
      && n <= |timeString| && timeString[..n] == r.0 + [':'] + r.1.value
      && (n == |timeString| || timeString[n] == ':')
  {
    var parts := Split(timeString, ':');
    if |parts| >= 2 then
      var rest := Join(parts[1..], ':');
      assert timeString == parts[0] + [':'] + rest;
      assert timeString[|parts[0]|] == ':';
      if |parts| >= 3 then
        assert rest == parts[1] + [':'] + Join(parts[2..], ':');
        assert timeString == parts[0] + [':'] + parts[1] + [':'] + Join(parts[2..], ':');
        (parts[0], Some(parts[1]))
      else
        assert rest == parts[1];
        (parts[0], Some(parts[1]))
    else
      (parts[0], None)
  }

  /** The instant the handler schedules, or None when the hour is NaN: then
      `Date.UTC` gives NaN and `toISOString` throws a RangeError. A missing
      or NaN minute counts as 0: parsing an undefined minute gives NaN, and
      NaN is falsy, so the fallback 0 is taken. */
  function ResolveInstant(timeString: string, today: Date): (r: Option<Instant>)
    requires ValidDate(today)
    ensures r.Some? ==> ValidInstant(r.value)
    ensures r.None? <==> ParseInt(HourAndMinuteText(timeString).0).None?
  {
    var (hours, minutes) := HourAndMinuteText(timeString);
    var minute := match minutes
      case None => 0
      case Some(m) => ParseInt(m).GetOr(0);
    match ParseInt(hours)
    case None => None
    case Some(h) => Some(FromUtcFields(today, h, minute))
  }

  /** `formatDateTime(timeString, timeZone)`: the ISO text of the resolved
      instant, or None where the source throws. `timeZone` is not consulted. */
  function FormatDateTime(timeString: string, timeZone: string, today: Date): (r: Option<string>)
    requires ValidDate(today)
    ensures r.Some? <==> ResolveInstant(timeString, today).Some?
    ensures r.Some? ==> ParseIso(r.value) == ResolveInstant(timeString, today)
  {
    match ResolveInstant(timeString, today)
    case None => None
    case Some(i) => Some(IsoString(i))
  }

  /** The time zone has no effect on the computed instant. */
  lemma TimeZoneIgnored(timeString: string, zone1: string, zone2: string, today: Date)
    requires ValidDate(today)
    ensures FormatDateTime(timeString, zone1, today) == FormatDateTime(timeString, zone2, today)
  {
  }

  lemma NoColonInDigits(d: string)
    requires AllDigits(d)
    ensures ':' !in d
  {
  }

  /** The text before and after the one colon of `hours:minutes`. */
  lemma TwoParts(hours: string, minutes: string)
    requires ':' !in hours && ':' !in minutes
    ensures HourAndMinuteText(hours + ":" + minutes) == (hours, Some(minutes))
  {
    SplitAfterSeparator(hours, minutes, ':');
    SplitNoSeparator(minutes, ':');
    assert hours + ":" + minutes == hours + [':'] + minutes;
  }

  /** Decimal numerals for hour and minute are read as their values. */
  lemma ResolveNumerals(hours: string, minutes: string, today: Date)
    requires ValidDate(today)
    requires 1 <= |hours| && AllDigits(hours) && AllRadixDigits(hours, 10)
    requires 1 <= |minutes| && AllDigits(minutes) && AllRadixDigits(minutes, 10)
    ensures ResolveInstant(hours + ":" + minutes, today)
         == Some(FromUtcFields(today, Value(hours, 10), Value(minutes, 10)))
  {
    NoColonInDigits(hours);
    NoColonInDigits(minutes);
    TwoParts(hours, minutes);
    Numeral(hours);
    Numeral(minutes);
    ResolveFields(hours + ":" + minutes, hours, minutes, Value(hours, 10), Value(minutes, 10), today);
  }

  /** Hour and minute texts that parse resolve to those UTC fields. */
  lemma ResolveFields(timeString: string, hours: string, minutes: string, h: int, m: int, today: Date)
    requires ValidDate(today)
    requires HourAndMinuteText(timeString) == (hours, Some(minutes))
    requires ParseInt(hours) == Some(h) && ParseInt(minutes) == Some(m)
    ensures ResolveInstant(timeString, today) == Some(FromUtcFields(today, h, m))
  {
  }

  /** "H:MM" with an hour in 0..23 and a minute in 0..59, with or without
      leading zeros, resolves to that hour and minute on today's date. */
  lemma ResolveHourMinute(h: nat, hourWidth: nat, m: nat, minuteWidth: nat, today: Date)
    requires ValidDate(today) && h < 24 && m < 60
    ensures ResolveInstant(Digits(h, hourWidth) + ":" + Digits(m, minuteWidth), today)
         == Some(Instant(today, h, m))
  {
    ResolveNumerals(Digits(h, hourWidth), Digits(m, minuteWidth), today);
  }

  /** "H" alone resolves to that hour, minute 0, on today's date. */
  lemma ResolveHourOnly(h: nat, width: nat, today: Date)
    requires ValidDate(today) && h < 24
    ensures ResolveInstant(Digits(h, width), today) == Some(Instant(today, h, 0))
  {
    var hs := Digits(h, width);
    NoColonInDigits(hs);
    SplitNoSeparator(hs, ':');
    assert HourAndMinuteText(hs) == (hs, None);
    Numeral(hs);
  }

  /** A minute that is not a number is the same as no minute at all. */
  lemma MinuteNotNumeric(hours: string, minutes: string, today: Date)
    requires ValidDate(today)
    requires ':' !in hours && ':' !in minutes && ParseInt(minutes) == None
    ensures ResolveInstant(hours + ":" + minutes, today) == ResolveInstant(hours, today)
  {
    SplitAfterSeparator(hours, minutes, ':');
    SplitNoSeparator(minutes, ':');
    SplitNoSeparator(hours, ':');
    assert hours + ":" + minutes == hours + [':'] + minutes;
  }

  /** Parts after the second are ignored: "10:30:15" is "10:30". */
  lemma ExtraPartsIgnored(hours: string, minutes: string, rest: string, today: Date)
    requires ValidDate(today)
    requires ':' !in hours && ':' !in minutes
    ensures ResolveInstant(hours + ":" + minutes + ":" + rest, today)
         == ResolveInstant(hours + ":" + minutes, today)
  {
    SplitAfterSeparator(hours, minutes + ":" + rest, ':');
    SplitAfterSeparator(minutes, rest, ':');
    SplitAfterSeparator(hours, minutes, ':');
    SplitNoSeparator(minutes, ':');
    assert hours + ":" + minutes + ":" + rest == hours + [':'] + (minutes + [':'] + rest);
    assert hours + ":" + minutes == hours + [':'] + minutes;
    assert minutes + ":" + rest == minutes + [':'] + rest;
  }

  /** The first part of a split is a prefix of the string. */
  lemma FirstPartIsPrefix(s: string, sep: char)
    ensures var p := Split(s, sep)[0]; |p| <= |s| && p == s[..|p|]
  {
    var parts := Split(s, sep);
    if |parts| > 1 {
      assert s == parts[0] + [sep] + Join(parts[1..], sep);
    }
  }

  /** A time without a colon whose hour `parseInt` reads, whatever its form
      (" 7", "+7", "0x12", "7 pm"), is today's date at that hour, minute 0. */
  lemma HourWithoutMinute(timeString: string, today: Date, h: int)
    requires ValidDate(today) && ':' !in timeString
    requires ParseInt(timeString) == Some(h)
    ensures ResolveInstant(timeString, today) == Some(FromUtcFields(today, h, 0))
  {
  }

  /** A time that starts with anything other than white space, a sign or a
      digit has no hour ("mediodía", ":30", ""), and nothing is scheduled. */
  lemma HourNotNumeric(timeString: string, today: Date)
    requires ValidDate(today)
    requires |timeString| == 0
          || (!IsDigit(timeString[0]) && !IsStrWhiteSpace(timeString[0])
              && timeString[0] != '+' && timeString[0] != '-')
    ensures ResolveInstant(timeString, today) == None
  {
    var hours := Split(timeString, ':')[0];
    FirstPartIsPrefix(timeString, ':');
    if |hours| > 0 {
      assert hours[0] == timeString[0];
    }
    NotANumber(hours);
  }
}
