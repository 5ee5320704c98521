/** Worked interactions of the handler, each an instance of the general
    contracts: a daily reminder, a weekday reminder, an unknown recurrence
    phrase and the two missing-slot prompts. */
module Scenarios {
  import opened Wrappers
  import opened Text
  import opened Numerals
  import opened Calendar
  import opened TimeResolver
  import opened Recurrence
  import opened Reminder

  lemma SixPmText()
    ensures Digits(18, 2) + ":" + Digits(0, 2) == "18:00"
  {
    FieldDigits();
  }

  lemma SixPm(today: Date)
    requires ValidDate(today)
    ensures ResolveInstant("18:00", today) == Some(Instant(today, 18, 0))
  {
    ResolveHourMinute(18, 2, 0, 2, today);
    SixPmText();
  }

  lemma ThreePmText()
    ensures Digits(15, 2) + ":" + Digits(0, 2) == "15:00"
  {
    FieldDigits();
  }

  lemma ThreePm(today: Date)
    requires ValidDate(today)
    ensures ResolveInstant("15:00", today) == Some(Instant(today, 15, 0))
  {
    ResolveHourMinute(15, 2, 0, 2, today);
    ThreePmText();
  }

  lemma YearDigits()
    ensures Digits(2026, 4) == "2026"
  {
    assert Decimal(20) == "20";
    assert Decimal(202) == "202";
    assert Decimal(2026) == "2026";
  }

  lemma FieldDigits()
    ensures Digits(10, 2) == "10" && Digits(8, 2) == "08"
    ensures Digits(18, 2) == "18" && Digits(0, 2) == "00"
    ensures Digits(15, 2) == "15"
  {
    assert Decimal(10) == "10";
    assert Decimal(18) == "18";
    assert Decimal(15) == "15";
    assert Zeros(1) == "0";
  }

  lemma TailOfSixPm()
    ensures IsoTail(10, 8, 18, 0) == "-10-08T18:00:00.000Z"
  {
    FieldDigits();
  }

  lemma SixPmParts()
    ensures YearText(2026) == "2026"
    ensures IsoTail(10, 8, 18, 0) == "-10-08T18:00:00.000Z"
  {
    YearDigits();
    TailOfSixPm();
  }

  /** The ISO text of 18:00 UTC on 8 October 2026. */
  lemma IsoOfSixPm()
    ensures IsoString(Instant(Date(2026, 10, 8), 18, 0)) == "2026" + "-10-08T18:00:00.000Z"
  {
    SixPmParts();
  }

  /** "tomar agua" at "18:00", "diario" creates a reminder ... */
  lemma DailyWaterCreated(slots: Slots, today: Date, requestTime: string)
    requires ValidDate(today)
    requires slots == Slots(Some("tomar agua"), Some("18:00"), Some("diario"))
    ensures Handle(slots, Zone("Europe/Madrid"), today, requestTime, true).Created?
  {
    SixPm(today);
    DailyEntry();
    assert Filled(slots.reminderText) && Filled(slots.reminderTime) && Filled(slots.recurrence);
    assert ResolveInstant(slots.reminderTime.value, today).Some?;
    assert Lookup(slots.recurrence.value).Some?;
    CreatedWhenAllChecksPass(slots, Zone("Europe/Madrid"), today, requestTime, true);
  }

  /** ... with the daily rule ... */
  lemma DailyWaterReminder(slots: Slots, today: Date, requestTime: string)
    requires ValidDate(today)
    requires slots == Slots(Some("tomar agua"), Some("18:00"), Some("diario"))
    ensures Handle(slots, Zone("Europe/Madrid"), today, requestTime, true).Created?
    ensures Handle(slots, Zone("Europe/Madrid"), today, requestTime, true).request.trigger.recurrence
         == Some("FREQ=DAILY;INTERVAL=1")
  {
    DailyWaterCreated(slots, today, requestTime);
    DailyEntry();
    CreatedRequest(slots, Zone("Europe/Madrid"), today, requestTime);
  }

  /** Any created reminder repeating "diario" confirms with "todos los días". */
  lemma DailyConfirmation(slots: Slots, zone: ZoneLookup, today: Date, requestTime: string)
    requires ValidDate(today) && slots.recurrence == Some("diario")
    requires Handle(slots, zone, today, requestTime, true).Created?
    ensures Handle(slots, zone, today, requestTime, true).confirmation
         == "He configurado tu recordatorio para \"" + slots.reminderText.value + "\" a las "
            + slots.reminderTime.value + ", que se repetirá " + "todos los días" + "."
  {
    CreatedConfirmation(slots, zone, today, requestTime);
    DailyEntry();
  }

  /** ... and it is confirmed as repeating every day. */
  lemma DailyWaterConfirmation(slots: Slots, today: Date, requestTime: string)
    requires ValidDate(today)
    requires slots == Slots(Some("tomar agua"), Some("18:00"), Some("diario"))
    ensures Handle(slots, Zone("Europe/Madrid"), today, requestTime, true).Created?
    ensures Handle(slots, Zone("Europe/Madrid"), today, requestTime, true).confirmation
         == "He configurado tu recordatorio para \"" + "tomar agua" + "\" a las "
            + "18:00" + ", que se repetirá " + "todos los días" + "."
  {
    DailyWaterCreated(slots, today, requestTime);
    DailyConfirmation(slots, Zone("Europe/Madrid"), today, requestTime);
  }

  /** ... scheduled today at 18:00 UTC. */
  lemma DailyWaterReminderTime(slots: Slots, today: Date, requestTime: string)
    requires ValidDate(today)
    requires slots == Slots(Some("tomar agua"), Some("18:00"), Some("diario"))
    ensures Handle(slots, Zone("Europe/Madrid"), today, requestTime, true).Created?
    ensures ParseIso(Handle(slots, Zone("Europe/Madrid"), today, requestTime, true).request.trigger.scheduledTime)
         == Some(Instant(today, 18, 0))
  {
    DailyWaterReminder(slots, today, requestTime);
    SixPm(today);
    CreatedRequest(slots, Zone("Europe/Madrid"), today, requestTime);
  }

  /** "reunión" at "15:00", "lunes a viernes" creates a reminder ... */
  lemma WeekdayMeetingCreated(slots: Slots, today: Date, requestTime: string)
    requires ValidDate(today)
    requires slots == Slots(Some("reuni\U{F3}n"), Some("15:00"), Some("lunes a viernes"))
    ensures Handle(slots, Zone("Europe/Madrid"), today, requestTime, true).Created?
  {
    ThreePm(today);
    MondayToFridayEntry();
    assert Filled(slots.reminderText) && Filled(slots.reminderTime) && Filled(slots.recurrence);
    assert ResolveInstant(slots.reminderTime.value, today).Some?;
    assert Lookup(slots.recurrence.value).Some?;
    CreatedWhenAllChecksPass(slots, Zone("Europe/Madrid"), today, requestTime, true);
  }

  /** ... repeating Monday to Friday. */
  lemma WeekdayMeeting(slots: Slots, today: Date, requestTime: string)
    requires ValidDate(today)
    requires slots == Slots(Some("reuni\U{F3}n"), Some("15:00"), Some("lunes a viernes"))
    ensures Handle(slots, Zone("Europe/Madrid"), today, requestTime, true).Created?
    ensures Handle(slots, Zone("Europe/Madrid"), today, requestTime, true).request.trigger.recurrence
         == Some("FREQ=WEEKLY;BYDAY=MO,TU,WE,TH,FR")
  {
    WeekdayMeetingCreated(slots, today, requestTime);
    MondayToFridayEntry();
    CreatedRequest(slots, Zone("Europe/Madrid"), today, requestTime);
  }

  /** Any created reminder repeating "lunes a viernes" confirms with
      "de lunes a viernes". */
  lemma WeekdayConfirmation(slots: Slots, zone: ZoneLookup, today: Date, requestTime: string)
    requires ValidDate(today) && slots.recurrence == Some("lunes a viernes")
    requires Handle(slots, zone, today, requestTime, true).Created?
    ensures Handle(slots, zone, today, requestTime, true).confirmation
         == "He configurado tu recordatorio para \"" + slots.reminderText.value + "\" a las "
            + slots.reminderTime.value + ", que se repetirá " + "de lunes a viernes" + "."
  {
    CreatedConfirmation(slots, zone, today, requestTime);
    MondayToFridayEntry();
  }

  /** ... and it is confirmed as repeating "de lunes a viernes". */
  lemma WeekdayMeetingConfirmation(slots: Slots, today: Date, requestTime: string)
    requires ValidDate(today)
    requires slots == Slots(Some("reuni\U{F3}n"), Some("15:00"), Some("lunes a viernes"))
    ensures Handle(slots, Zone("Europe/Madrid"), today, requestTime, true).Created?
    ensures Handle(slots, Zone("Europe/Madrid"), today, requestTime, true).confirmation
         == "He configurado tu recordatorio para \"" + "reuni\U{F3}n" + "\" a las "
            + "15:00" + ", que se repetirá " + "de lunes a viernes" + "."
  {
    WeekdayMeetingCreated(slots, today, requestTime);
    WeekdayConfirmation(slots, Zone("Europe/Madrid"), today, requestTime);
  }

  /** "pagar" at "9", "xyz": rejected, quoting "xyz". */
  lemma UnknownPhrase(slots: Slots, today: Date, requestTime: string, reminderCreated: bool)
    requires ValidDate(today)
    requires slots == Slots(Some("pagar"), Some("9"), Some("xyz"))
    ensures Handle(slots, Zone("Europe/Madrid"), today, requestTime, reminderCreated)
         == UnrecognizedRecurrence("xyz")
  {
    ResolveHourOnly(9, 1, today);
    assert Digits(9, 1) == "9";
    UnknownPhraseEntry();
    UnrecognizedNeverSubmitted(slots, Zone("Europe/Madrid"), today, requestTime, reminderCreated);
  }

  /** An empty text with a time asks for the text; an empty time asks for the
      time even though the text is there. */
  lemma MissingSlots(today: Date, requestTime: string, zone: ZoneLookup, reminderCreated: bool)
    requires ValidDate(today)
    ensures Handle(Slots(Some(""), Some("10:00"), None), zone, today, requestTime, reminderCreated) == MissingText
    ensures Handle(Slots(Some("agua"), Some(""), None), zone, today, requestTime, reminderCreated) == MissingTime
  {
  }
}
