# Reminder resolution of the Spanish reminder skill

This project models the part of the Alexa skill in `index.js` that turns one
`SetReminderIntent` into a reminder request, and it proves properties of that
model. The intent carries a text, a spoken time such as `"18:00"` or `"9"`, and
an optional recurrence phrase such as `"diario"`. The modelled pieces are:

- `formatDateTime` (index.js:4-15). The time is split on `:` and both parts are
  read with JavaScript `parseInt`. A missing or NaN minute becomes 0. The hour
  and minute are placed on today's UTC date with `Date.UTC`, including its
  carry of out-of-range fields into other days. The result is written with
  `toISOString`. The time-zone argument is never used.
- `getRecurrencePattern` and `getRecurrenceDescription` (index.js:17-53). These
  are two closed tables of twelve phrases, looked up after `toLowerCase`.
- `SetReminderIntentHandler.handle` (index.js:61-138). The steps, in the
  source's order, are:
  1. the time slot is checked, then the text slot;
  2. the time zone is looked up;
  3. the trigger is built, and a NaN hour makes `toISOString` throw;
  4. the recurrence phrase is checked;
  5. the reminder request is built and `createReminder` is called;
  6. the reply is spoken.

Modules:
- `Wrappers`: `Option`.
- `Text`: lower-casing, `split` and `join`, substring occurrence.
- `Numerals`: digit strings and their values, decimal numerals, zero padding.
- `JsNumber`: `parseInt` with one argument.
- `Calendar`: UTC dates, `Date.UTC` field normalisation, and `toISOString`
  with a reader for its output.
- `TimeResolver`: `formatDateTime`.
- `Recurrence`: the two tables, plus one reference catalog that both tables
  are checked against.
- `Reminder`: the handler.
- `Scenarios`: worked interactions, each an instance of the general contracts.

The handler's two service calls and two clock readings are parameters:
- `ZoneLookup` is what `getSystemTimeZone` returned, or that it threw.
- `reminderCreated` says whether `createReminder` succeeded.
- `today` is the UTC date of `new Date()` inside `formatDateTime`.
- `requestTime` is the ISO text of the `new Date()` at index.js:106.

A time whose hour `parseInt` cannot read makes `Date.UTC` give NaN, so
`toISOString` throws a RangeError while the trigger is built (index.js:91).
The `catch` at index.js:132 then answers with the same generic apology as a
failed service call. The model keeps this case as its own outcome, `BadHour`,
so that it can be stated. `Speech`
and `FailuresSoundAlike` show that it sounds exactly like `ServiceFailure`.
The time-zone lookup and the trigger are computed before the recurrence
phrase is examined. So a failed lookup and an unreadable hour both win over
an unknown phrase.

## Model

| member | source | states |
|---|---|---|
| Text.Lower | index.js:33 | the lower-case form has the input's length and lowers every character on its own, capitals A-Z and the Latin-1 capitals, so `Í` becomes `í` |
| Text.LowerIdempotent | index.js:52 | lower-casing twice is lower-casing once |
| Text.LowerFixed | index.js:33 | a string without capitals is its own lower-case form, which is what makes a table key match itself |
| Text.Split | index.js:5 | `split(':')` yields at least one part; joining the parts with the separator gives back the string; no part contains the separator |
| Text.SplitAfterSeparator | index.js:5 | splitting `a + sep + b` where `a` has no separator gives `a` and then the parts of `b` |
| Text.SplitNoSeparator | index.js:5 | a string without the separator splits into itself alone |
| Numerals.Decimal | index.js:14 | the decimal numeral of `n` is non-empty, all digits, without a leading zero, and denotes `n` |
| Numerals.Digits | index.js:14 | zero padding to a width keeps the value, and gives exactly that width when the number fits |
| JsNumber.ParseInt | index.js:11-12 | `parseInt` is NaN exactly when, after leading white space and at most one sign, no magnitude starts (no decimal digit, or `0x` without a hexadecimal digit); a negative result needs a leading `-` |
| JsNumber.LeadingNumeral | index.js:11-12 | `parseInt` of a run of decimal digits followed by a non-digit is the run's value, unless the run is a lone `0` before `x` or `X`: `"18"` is 18, `"09"` is 9, `"7 pm"` is 7, `"18x"` is 18 |
| JsNumber.Numeral | index.js:11-12 | a string of decimal digits parses to its value |
| JsNumber.StartsWithMinus | index.js:11-12 | a leading minus negates the magnitude read after it |
| JsNumber.StartsWithPlus | index.js:11-12 | a leading plus sign is dropped before the magnitude is read: `"+18"` is 18 |
| JsNumber.SkipsWhiteSpace | index.js:11-12 | leading ECMAScript white space and line terminators do not change the result |
| JsNumber.NotANumber | index.js:11-12 | a string that starts with anything but white space, a sign or a digit is NaN |
| JsNumber.HexNumeral | index.js:11 | without a radix, `"0x"` or `"0X"` followed by a run of hexadecimal digits and then a non-hexadecimal character or the end is read in base 16 as the run's value |
| JsNumber.BareHexPrefix | index.js:11 | `"0x"` or `"0X"` not followed by a hexadecimal digit is NaN |
| Calendar.NextDay | index.js:7-13 | the next calendar day is a valid date strictly after the given one |
| Calendar.NextDayIsSuccessor | index.js:7-13 | no valid date lies strictly between a date and its next day |
| Calendar.PrevNextInverse | index.js:7-13 | one day forward and one day back, in either order, return to the same date |
| Calendar.AddDays | index.js:7-13 | moving by `n` days gives a valid date, the same date only for `n = 0`, later for positive `n` and earlier for negative `n` |
| Calendar.AddDaysAdd | index.js:7-13 | moving `a` days and then `b` days is moving `a + b` days |
| Calendar.FromUtcFields | index.js:7-13 | `Date.UTC` fields always denote a valid instant, and in-range hour and minute are kept as given on the same date |
| Calendar.ShiftDays | index.js:7-13 | moving the date `k` days forward and the hour `24k` back denotes the same instant, so hour 24 is midnight of the next day and hour -1 is 23:00 of the day before |
| Calendar.CarryMinutes | index.js:7-13 | sixty extra minutes carry into one extra hour |
| Calendar.IsoTail | index.js:14 | everything after the year in `toISOString` is exactly twenty characters |
| Calendar.YearRoundTrip | index.js:14 | the year field reads back as the year: four digits for 0..9999, otherwise `-` for a negative year or `+`, then at least six digits |
| Calendar.TailRoundTrip | index.js:14 | the month, day, hour and minute fields and the fixed separators read back from the tail |
| Calendar.IsoString | index.js:14 | the ISO text of every valid instant has at least 24 characters and reads back as that instant |
| TimeResolver.HourAndMinuteText | index.js:5 | the hour text has no colon; the minute text is absent exactly when the time has no colon, and then the hour text is the whole time; otherwise the time starts with hour, colon, minute, followed by the end or another colon |
| TimeResolver.ResolveInstant | index.js:4-13 | nothing is scheduled exactly when `parseInt` of the hour text is NaN (`":30"`, `" x:30"`, `"-:30"`, `"0x:30"`); a resolved time is always a valid instant: a date of the calendar, an hour 0..23 and a minute 0..59, whatever the parsed fields were |
| TimeResolver.FormatDateTime | index.js:4-15 | `formatDateTime` returns text exactly when the time resolves, and that text reads back as the resolved instant |
| TimeResolver.TimeZoneIgnored | index.js:4-14 | the time-zone argument has no effect on the result |
| TimeResolver.TwoParts | index.js:5 | `hours:minutes` without other colons destructures into the two texts |
| TimeResolver.ResolveNumerals | index.js:5-13 | decimal hour and minute numerals are placed on today's date with their values, carrying out-of-range values into other days |
| TimeResolver.ResolveHourMinute | index.js:4-14 | `"H:MM"` with hour 0..23 and minute 0..59, with any zero padding, is today's date at exactly that hour and minute |
| TimeResolver.ResolveHourOnly | index.js:5-12 | `"H"` alone is today's date at that hour, minute 0 |
| TimeResolver.MinuteNotNumeric | index.js:12 | a minute that is not a number behaves exactly like no minute at all |
| TimeResolver.ExtraPartsIgnored | index.js:5 | parts after the second are ignored: `"10:30:15"` is `"10:30"` |
| TimeResolver.HourWithoutMinute | index.js:5-12 | a time without a colon whose hour `parseInt` reads, in any form (`" 7"`, `"+7"`, `"0x12"`, `"7 pm"`), is today's date at that hour, minute 0 |
| TimeResolver.HourNotNumeric | index.js:11-14 | a time that does not start with white space, a sign or a digit resolves to nothing (`"mediodía"`, `":30"`, `""`) |
| Recurrence.Pattern | index.js:17-34 | `getRecurrencePattern` gives a rule exactly for the phrases of the reference catalog, namely that phrase's rule, and null for every other phrase |
| Recurrence.Description | index.js:36-53 | `getRecurrenceDescription` gives the catalog description of a known phrase and the empty string for any other |
| Recurrence.TablesAgree | index.js:17-53 | a phrase has a rule exactly when it has a non-empty description |
| Recurrence.CaseInsensitive | index.js:33 | a phrase and its lower-case form get the same rule and the same description |
| Recurrence.GroupsShareEntries | index.js:18-27 | every daily, weekly or monthly phrase gets its group's rule and description |
| Recurrence.WeekdayPhrasesShareRule | index.js:28-29 | "lunes a viernes" and "días laborables" give the same weekday rule |
| Recurrence.WeekdayDescriptionsDiffer | index.js:47-48 | the two weekday phrases have different descriptions |
| Recurrence.CapitalsRecognised | index.js:33 | capitals are recognised, accented ones included: "DIARIO" and "CADA DÍA" are daily |
| Recurrence.LeadingSpaceNotRecognised | index.js:33 | the phrase is not trimmed: " diario" has neither a rule nor a description |
| Reminder.Validate | index.js:70-79 | the slots are accepted exactly when time and text are both present and non-empty; a rejection asks for the time or for the text |
| Reminder.ValidationOrder | index.js:70-79 | without a time the answer asks for the time whatever the text slot holds; the question for the text comes exactly when the time is there and the text is not |
| Reminder.Confirmation | index.js:121-126 | the reply opens with `He configurado tu recordatorio para "`, then the text, then `" a las "`, then the time; it contains the phrase's description when a phrase was given, and ends with a full stop |
| Reminder.Request | index.js:105-117 | the request keeps the request time and the trigger, has one spoken content in es-ES that is "Recordatorio: " followed by the text, and enables the push notification |
| Reminder.Prepare | index.js:81-117 | stopping before `createReminder` never counts as a created reminder |
| Reminder.Handle | index.js:61-138 | the outcome follows the source's order of checks: missing time, missing text, failed zone lookup, unreadable hour, unknown phrase; an unknown phrase is reported exactly when all earlier checks pass and the non-empty phrase is not in the catalog, and it names that phrase; the apology for a service failure comes exactly when both slots are filled and either the zone lookup fails or the hour is readable, any phrase is known and `createReminder` fails |
| Reminder.CreatedWhenAllChecksPass | index.js:95-119 | a reminder is created exactly when both slots are filled, the zone lookup succeeds, the hour is readable, any phrase is known, and `createReminder` succeeds |
| Reminder.CreatedRequest | index.js:89-117 | the request has an absolute trigger at the resolved instant and the zone id unchanged; it has a rule exactly when a non-empty phrase was given, and then it is the phrase's catalog rule; the spoken content is "Recordatorio: <text>" in es-ES with push notification enabled |
| Reminder.CreatedConfirmation | index.js:121-126 | the confirmation quotes the raw text and time, then ", que se repetirá <description>." for a phrase, otherwise "." |
| Reminder.ConfirmationText | index.js:121-126 | the sentence for a known phrase names the phrase's catalog description |
| Reminder.UnrecognizedNeverSubmitted | index.js:95-101 | an unknown phrase stops the handler before any request is submitted, whatever the service would do, and the reply contains the phrase verbatim |
| Reminder.ZoneIsMetadata | index.js:86-93 | two different zones give the same answer, and requests that differ only in the trigger's zone id |
| Reminder.FailuresSoundAlike | index.js:132-136 | a failed service call and an unreadable hour are answered with the same apology |
| Reminder.Speech | index.js:70-136 | the reply to an unknown phrase contains the phrase, and the reply to a created reminder is its confirmation |
| Scenarios.SixPm | index.js:4-14 | "18:00" resolves to 18:00 on today's date |
| Scenarios.IsoOfSixPm | index.js:14 | 18:00 UTC on 8 October 2026 is written "2026-10-08T18:00:00.000Z" |
| Scenarios.DailyWaterReminder | index.js:89-117 | "tomar agua" at "18:00", "diario" creates a reminder with the daily rule |
| Scenarios.DailyConfirmation | index.js:121-124 | a created reminder with the phrase "diario" is confirmed as repeating "todos los días", after the quoted text and time |
| Scenarios.DailyWaterConfirmation | index.js:121-124 | "tomar agua" at "18:00", "diario" is confirmed as `He configurado tu recordatorio para "tomar agua" a las 18:00, que se repetirá todos los días.` |
| Scenarios.DailyWaterReminderTime | index.js:89-93 | that reminder is scheduled today at 18:00 UTC |
| Scenarios.WeekdayMeeting | index.js:95-103 | "reunión" at "15:00", "lunes a viernes" creates a reminder with the weekday rule |
| Scenarios.WeekdayConfirmation | index.js:121-124 | a created reminder with the phrase "lunes a viernes" is confirmed as repeating "de lunes a viernes", after the quoted text and time |
| Scenarios.WeekdayMeetingConfirmation | index.js:121-124 | "reunión" at "15:00", "lunes a viernes" is confirmed as `He configurado tu recordatorio para "reunión" a las 15:00, que se repetirá de lunes a viernes.` |
| Scenarios.UnknownPhrase | index.js:95-101 | "pagar" at "9" with "xyz" is rejected as an unknown phrase naming "xyz" |
| Scenarios.MissingSlots | index.js:70-79 | an empty text asks for the text; an empty time asks for the time even when the text is there |

## Left out

- Alexa dispatch is not modelled. This covers the `canHandle` predicates, the skill builder, and the fixed-text Help, Yes, Launch, Cancel/Stop and error handlers (index.js:141-242). They are SDK plumbing and constant replies.
- The service calls `getSystemTimeZone` and `createReminder` are not modelled. Their results are parameters: the zone id or a failure, and a success flag.
- The two clock readings are not modelled. They are the parameters `today` and `requestTime`.
- Logging with `console.error` is not modelled. It has no effect on the reply.
- Creation of the service clients is not modelled. A failure of `getReminderManagementServiceClient` or `getUpsServiceClient` (index.js:82-83) would be caught like a failed lookup; the model has only the lookup failure.
- A TypeError from a missing `intent.slots.reminderText` or `reminderTime` object is not modelled. The model starts from slot values, where an absent value is `None`.
- TimeResolver.ResolveInstant: does not model the ECMAScript time-value limit of ±8.64e15 ms. Beyond that limit `Date.UTC` gives NaN and `toISOString` throws; 8.64e15 ms is 2.4e9 hours, so a ten-digit hour such as `"2400000000"` already reaches it, and so does a minute of about 1.44e11. The model schedules such values by day stepping instead.
- TimeResolver.ResolveInstant: does not model IEEE-754 double rounding. `parseInt` of more than about 15 significant digits loses precision; the model reads such numerals exactly.
- Date.UTC years 0..99 are not modelled separately. `Date.UTC` maps them to 1900..1999, but the year the handler passes always comes from the clock, so this never applies.
- JsNumber.ParseInt: returns 0 where JavaScript returns -0 for `"-0"`. `-0 || 0` and `Date.UTC` treat the two alike.
- Text.Lower: lowers only A-Z and the Latin-1 capitals U+00C0..U+00DE (not U+00D7). JavaScript's full Unicode `toLowerCase` is left out. That includes the special case of `İ` (U+0130), which lowers to two characters. The table keys need only `í`.
- JavaScript strings are sequences of UTF-16 code units, while the model uses Unicode scalar values. The two differ only for characters outside the Basic Multilingual Plane, and those never match a table key.
- The object-prototype lookups are not modelled. Keys such as `constructor` would be found in the JavaScript object tables; the model uses finite maps over the twelve listed phrases.
