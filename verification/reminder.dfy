/** The request-resolution core of `SetReminderIntentHandler.handle`
    (index.js:61-138): slot validation, the scheduled trigger, the
    recurrence check, the reminder request and the spoken reply.

    The two service calls are parameters: `ZoneLookup` is what
    `getSystemTimeZone` (index.js:86) returned or that it threw, and
    `reminderCreated` says whether `createReminder` (index.js:119) succeeded.
    The two clock readings are parameters too: `today` is the UTC date of
    `new Date()` inside `formatDateTime`, `requestTime` the ISO text of the
    `new Date()` at index.js:106. */
module Reminder {
  import opened Wrappers
  import opened Text
  import opened Calendar
  import opened TimeResolver
  import opened Recurrence

  /** The raw slot values of the intent; None is `undefined` (a slot without
      a value, or no recurrence slot at all). */
  datatype Slots = Slots(reminderText: Option<string>, reminderTime: Option<string>, recurrence: Option<string>)

  /** JavaScript truthiness of a slot value: present and not empty. */
  predicate Filled(v: Option<string>)
  {
    v.Some? && v.value != ""
  }

  /** What the time-zone lookup gave: a zone id, or an exception. */
  datatype ZoneLookup = Zone(id: string) | ZoneLookupFailed

  const ScheduledAbsolute := "SCHEDULED_ABSOLUTE"
  const SpokenLocale := "es-ES"
  const PushEnabled := "ENABLED"

  datatype Trigger = Trigger(kind: string, scheduledTime: string, timeZoneId: string, recurrence: Option<string>)

  datatype SpokenContent = SpokenContent(locale: string, text: string)

  /** The object handed to `createReminder`. */
  datatype ReminderRequest = ReminderRequest(
    requestTime: string,
    trigger: Trigger,
    spokenContent: seq<SpokenContent>,
    pushNotification: string)

  /** How one interaction ends. `ServiceFailure` (a service call threw) and
      `BadHour` (`toISOString` threw on a NaN hour) are both caught at
      index.js:132 and answered with the same apology. */
  datatype Outcome =
    | MissingTime
    | MissingText
    | ServiceFailure
    | BadHour
    | UnrecognizedRecurrence(phrase: string)
    | Created(request: ReminderRequest, confirmation: string)

  datatype Validated = Accepted(text: string, time: string) | Rejected(reason: Outcome)

  /** The slot checks of index.js:70-79: the time first, then the text. */
  function Validate(slots: Slots): (r: Validated)
    ensures r.Accepted? <==> Filled(slots.reminderTime) && Filled(slots.reminderText)
    ensures r.Accepted? ==> r.text == slots.reminderText.value && r.time == slots.reminderTime.value
    ensures r.Rejected? ==> r.reason == MissingTime || r.reason == MissingText
  {
    if !Filled(slots.reminderTime) then Rejected(MissingTime)
    else if !Filled(slots.reminderText) then Rejected(MissingText)
    else Accepted(slots.reminderText.value, slots.reminderTime.value)
  }

  /** The time is checked first: without a time the answer is the question
      for the time, whatever the text slot holds; the question for the text
      comes only when the time is there. */
  lemma ValidationOrder(slots: Slots, otherText: Option<string>)
    ensures !Filled(slots.reminderTime) ==> Validate(slots) == Rejected(MissingTime)
    ensures !Filled(slots.reminderTime)
            ==> Validate(slots) == Validate(slots.(reminderText := otherText))
    ensures Validate(slots) == Rejected(MissingText)
            <==> Filled(slots.reminderTime) && !Filled(slots.reminderText)
  {
  }

  const ConfirmationLead := "He configurado tu recordatorio para \""
  const TimeLead := "\" a las "

  const RepeatLead := ", que se repetirá "

  /** The reply after a successful creation (index.js:121-126): it quotes the
      text, names the time as spoken, names the description of a given phrase,
      and ends with a full stop. */
  function Confirmation(text: string, time: string, recurrence: Option<string>): (r: string)
    ensures OccursAt(r, ConfirmationLead, 0)
    ensures OccursAt(r, text, |ConfirmationLead|)
    ensures OccursAt(r, TimeLead, |ConfirmationLead| + |text|)
    ensures OccursAt(r, time, |ConfirmationLead| + |text| + |TimeLead|)
    ensures Filled(recurrence) ==> Contains(r, Description(recurrence.value))
    ensures r[|r| - 1] == '.'
  {
    Sentence(text, time, if Filled(recurrence) then Some(Description(recurrence.value)) else None)
  }

  /** The confirmation sentence with the description, if any, already looked
      up. */
  function Sentence(text: string, time: string, description: Option<string>): (r: string)
    ensures OccursAt(r, ConfirmationLead, 0)
    ensures OccursAt(r, text, |ConfirmationLead|)
    ensures OccursAt(r, TimeLead, |ConfirmationLead| + |text|)
    ensures OccursAt(r, time, |ConfirmationLead| + |text| + |TimeLead|)
    ensures description.Some? ==> Contains(r, description.value)
    ensures r[|r| - 1] == '.'
  {
    var head := ConfirmationLead + text + TimeLead + time;
    match description
    case Some(d) =>
      var clause := RepeatLead + d;
      SentenceShape(text, time, clause);
      OccursAtEnd(RepeatLead, d);
      OccursInConcat(head, clause, d, |RepeatLead|);
      OccursInConcat(head + clause, ".", d, |head| + |RepeatLead|);
      head + clause + "."
    case None =>
      SentenceShape(text, time, []);
      head + [] + "."
  }

  /** Where the fixed leads, the text and the time sit in the opening of the
      confirmation. */
  lemma HeadShape(text: string, time: string)
    ensures var head := ConfirmationLead + text + TimeLead + time;
      && OccursAt(head, ConfirmationLead, 0)
      && OccursAt(head, text, |ConfirmationLead|)
      && OccursAt(head, TimeLead, |ConfirmationLead| + |text|)
      && OccursAt(head, time, |ConfirmationLead| + |text| + |TimeLead|)
  {
    OccursInConcat(ConfirmationLead, text, ConfirmationLead, 0);
    OccursInConcat(ConfirmationLead + text, TimeLead, ConfirmationLead, 0);
    OccursInConcat(ConfirmationLead + text + TimeLead, time, ConfirmationLead, 0);
    OccursAtEnd(ConfirmationLead + text, TimeLead);
    OccursInConcat(ConfirmationLead + text + TimeLead, time, TimeLead, |ConfirmationLead| + |text|);
    OccursAtEnd(ConfirmationLead, text);
    OccursInConcat(ConfirmationLead + text, TimeLead, text, |ConfirmationLead|);
    OccursInConcat(ConfirmationLead + text + TimeLead, time, text, |ConfirmationLead|);
    OccursAtEnd(ConfirmationLead + text + TimeLead, time);
  }

  /** Appending a clause and a full stop keeps the leads, the text and the
      time where they were in the opening. */
  lemma SentenceShape(text: string, time: string, clause: string)
    ensures var r := ConfirmationLead + text + TimeLead + time + clause + ".";
      && OccursAt(r, ConfirmationLead, 0)
      && OccursAt(r, text, |ConfirmationLead|)
      && OccursAt(r, TimeLead, |ConfirmationLead| + |text|)
      && OccursAt(r, time, |ConfirmationLead| + |text| + |TimeLead|)
      && r[|r| - 1] == '.'
  {
    var head := ConfirmationLead + text + TimeLead + time;
    HeadShape(text, time);
    OccursInConcat(head, clause + ".", ConfirmationLead, 0);
    OccursInConcat(head, clause + ".", text, |ConfirmationLead|);
    OccursInConcat(head, clause + ".", TimeLead, |ConfirmationLead| + |text|);
    OccursInConcat(head, clause + ".", time, |ConfirmationLead| + |text| + |TimeLead|);
    assert head + clause + "." == head + (clause + ".");
  }

  const SpokenLabel := "Recordatorio: "

  /** The reminder request of index.js:105-117: the trigger and request time
      unchanged, one spoken content in es-ES from which the text reads back
      after the label, and push notification enabled. */
  function Request(requestTime: string, trigger: Trigger, text: string): (r: ReminderRequest)
    ensures r.requestTime == requestTime && r.trigger == trigger
    ensures |r.spokenContent| == 1 && r.spokenContent[0].locale == "es-ES"
    ensures var spoken := r.spokenContent[0].text;
      && |spoken| == |SpokenLabel| + |text|
      && spoken[..|SpokenLabel|] == SpokenLabel
      && spoken[|SpokenLabel|..] == text
    ensures r.pushNotification == "ENABLED"
  {
    var spoken := SpokenLabel + text;
    assert spoken[..|SpokenLabel|] == SpokenLabel;
    assert spoken[|SpokenLabel|..] == text;
    ReminderRequest(requestTime, trigger, [SpokenContent(SpokenLocale, spoken)], PushEnabled)
  }

  /** Where the handler stands just before `createReminder`: either it has
      already answered, or it submits a request and will confirm with the
      given sentence. */
  datatype Step = Stop(outcome: Outcome) | Submit(request: ReminderRequest, confirmation: string)

  /** Everything up to the `createReminder` call, in the source's order:
      slots, time-zone lookup, trigger (whose time resolution may throw),
      recurrence. */
  function Prepare(slots: Slots, zone: ZoneLookup, today: Date, requestTime: string): (r: Step)
    requires ValidDate(today)
    ensures r.Stop? ==> !r.outcome.Created?
  {
    match Validate(slots)
    case Rejected(reason) => Stop(reason)
    case Accepted(text, time) =>
      match zone
      case ZoneLookupFailed => Stop(ServiceFailure)
      case Zone(tz) =>
        match FormatDateTime(time, tz, today)
        case None => Stop(BadHour)
        case Some(scheduled) =>
          var trigger := Trigger(ScheduledAbsolute, scheduled, tz, None);
          if Filled(slots.recurrence) then
            match Pattern(slots.recurrence.value)
            case None => Stop(UnrecognizedRecurrence(slots.recurrence.value))
            case Some(rule) =>
              Submit(Request(requestTime, trigger.(recurrence := Some(rule)), text),
                     Confirmation(text, time, slots.recurrence))
          else
            Submit(Request(requestTime, trigger, text), Confirmation(text, time, slots.recurrence))
  }

  /** The whole interaction: `SetReminderIntentHandler.handle`. */
  function Handle(slots: Slots, zone: ZoneLookup, today: Date, requestTime: string, reminderCreated: bool): (r: Outcome)
    requires ValidDate(today)
    // the time is checked before the text
    ensures r == MissingTime <==> !Filled(slots.reminderTime)
    ensures r == MissingText <==> Filled(slots.reminderTime) && !Filled(slots.reminderText)
    // a failed time-zone lookup wins over every later check
    ensures Filled(slots.reminderTime) && Filled(slots.reminderText) && zone.ZoneLookupFailed?
            ==> r == ServiceFailure
    // a NaN hour is caught before the recurrence is looked at
    ensures r == BadHour
            <==> Filled(slots.reminderTime) && Filled(slots.reminderText) && zone.Zone?
                 && ResolveInstant(slots.reminderTime.value, today).None?
    // an unknown phrase rejects the whole request, naming the phrase
    ensures r.UnrecognizedRecurrence?
            <==> Filled(slots.reminderTime) && Filled(slots.reminderText) && zone.Zone?
                 && ResolveInstant(slots.reminderTime.value, today).Some?
                 && Filled(slots.recurrence) && Lookup(slots.recurrence.value).None?
    ensures r.UnrecognizedRecurrence? ==> r.phrase == slots.recurrence.value
    // the apology for a failed service call: the zone lookup, or
    // `createReminder` once every other check has passed
    ensures r == ServiceFailure
            <==> Filled(slots.reminderTime) && Filled(slots.reminderText)
                 && (|| zone.ZoneLookupFailed?
                     || (&& ResolveInstant(slots.reminderTime.value, today).Some?
                         && (Filled(slots.recurrence) ==> Lookup(slots.recurrence.value).Some?)
                         && !reminderCreated))
  {
    match Prepare(slots, zone, today, requestTime)
    case Stop(o) => o
    case Submit(request, confirmation) =>
      if reminderCreated then Created(request, confirmation) else ServiceFailure
  }

  /** The reminder is created exactly when every check passes and
      `createReminder` succeeds. */
  lemma CreatedWhenAllChecksPass(slots: Slots, zone: ZoneLookup, today: Date, requestTime: string, reminderCreated: bool)
    requires ValidDate(today)
    ensures Handle(slots, zone, today, requestTime, reminderCreated).Created?
            <==> reminderCreated && Filled(slots.reminderTime) && Filled(slots.reminderText) && zone.Zone?
                 && ResolveInstant(slots.reminderTime.value, today).Some?
                 && (Filled(slots.recurrence) ==> Lookup(slots.recurrence.value).Some?)
  {
  }

  /** The submitted request: an absolute trigger at the resolved instant,
      carrying the zone id unchanged and a recurrence rule exactly when a
      phrase was given; spoken content "Recordatorio: <text>" in es-ES; push
      notification enabled. */
  lemma CreatedRequest(slots: Slots, zone: ZoneLookup, today: Date, requestTime: string)
    requires ValidDate(today)
    requires Handle(slots, zone, today, requestTime, true).Created?
    ensures var r := Handle(slots, zone, today, requestTime, true);
      var text := slots.reminderText.value;
      var trigger := r.request.trigger;
      && trigger.kind == "SCHEDULED_ABSOLUTE"
      && trigger.timeZoneId == zone.id
      && ParseIso(trigger.scheduledTime) == ResolveInstant(slots.reminderTime.value, today)
      && (trigger.recurrence.Some? <==> Filled(slots.recurrence))
      && (trigger.recurrence.Some? ==> trigger.recurrence.value == Lookup(slots.recurrence.value).value.rule)
      && r.request.requestTime == requestTime
      && r.request.spokenContent == [SpokenContent("es-ES", "Recordatorio: " + text)]
      && r.request.pushNotification == "ENABLED"
  {
  }

  /** The confirmation sentence: the raw text and time, then the phrase's
      description when a recurrence was given. */
  lemma CreatedConfirmation(slots: Slots, zone: ZoneLookup, today: Date, requestTime: string)
    requires ValidDate(today)
    requires Handle(slots, zone, today, requestTime, true).Created?
    ensures var r := Handle(slots, zone, today, requestTime, true);
      var prefix := "He configurado tu recordatorio para \"" + slots.reminderText.value
                     + "\" a las " + slots.reminderTime.value;
      if Filled(slots.recurrence) then
        r.confirmation == prefix + ", que se repetirá " + Lookup(slots.recurrence.value).value.description + "."
      else
        r.confirmation == prefix + "."
  {
    ConfirmationOfCreated(slots, zone, today, requestTime);
    if Filled(slots.recurrence) {
      assert Lookup(slots.recurrence.value).Some?;
    }
    ConfirmationText(slots.reminderText.value, slots.reminderTime.value, slots.recurrence);
  }

  lemma ConfirmationOfCreated(slots: Slots, zone: ZoneLookup, today: Date, requestTime: string)
    requires ValidDate(today)
    requires Handle(slots, zone, today, requestTime, true).Created?
    ensures Handle(slots, zone, today, requestTime, true).confirmation
         == Confirmation(slots.reminderText.value, slots.reminderTime.value, slots.recurrence)
  {
    assert Validate(slots) == Accepted(slots.reminderText.value, slots.reminderTime.value);
  }

  /** The sentence for a recognised phrase names its description. */
  lemma ConfirmationText(text: string, time: string, recurrence: Option<string>)
    requires Filled(recurrence) ==> Lookup(recurrence.value).Some?
    ensures var prefix := "He configurado tu recordatorio para \"" + text + "\" a las " + time;
      if Filled(recurrence) then
        Confirmation(text, time, recurrence) == prefix + ", que se repetirá " + Lookup(recurrence.value).value.description + "."
      else
        Confirmation(text, time, recurrence) == prefix + "."
  {
    var prefix := ConfirmationLead + text + TimeLead + time;
    if Filled(recurrence) {
      var d := Description(recurrence.value);
      assert Confirmation(text, time, recurrence) == prefix + (RepeatLead + d) + ".";
      assert prefix + (RepeatLead + d) == prefix + RepeatLead + d;
    } else {
      assert Confirmation(text, time, recurrence) == prefix + [] + ".";
      assert prefix + [] == prefix;
    }
  }

  /** An unrecognised phrase stops the handler before `createReminder`:
      nothing is submitted, the outcome does not depend on the service, and
      the reply quotes the phrase verbatim. */
  lemma UnrecognizedNeverSubmitted(slots: Slots, zone: ZoneLookup, today: Date, requestTime: string, reminderCreated: bool)
    requires ValidDate(today)
    requires Filled(slots.reminderTime) && Filled(slots.reminderText) && zone.Zone?
    requires ResolveInstant(slots.reminderTime.value, today).Some?
    requires Filled(slots.recurrence) && Lookup(slots.recurrence.value).None?
    ensures Prepare(slots, zone, today, requestTime) == Stop(UnrecognizedRecurrence(slots.recurrence.value))
    ensures Handle(slots, zone, today, requestTime, reminderCreated) == UnrecognizedRecurrence(slots.recurrence.value)
    ensures Contains(Speech(Handle(slots, zone, today, requestTime, reminderCreated)), slots.recurrence.value)
  {
  }

  /** The time zone is metadata only: two lookups that return different
      zones lead to the same answer, and to requests that differ in nothing
      but the trigger's zone id. */
  lemma ZoneIsMetadata(slots: Slots, zone1: string, zone2: string, today: Date, requestTime: string)
    requires ValidDate(today)
    ensures var p1 := Prepare(slots, Zone(zone1), today, requestTime);
      var p2 := Prepare(slots, Zone(zone2), today, requestTime);
      && (p1.Stop? <==> p2.Stop?)
      && (p1.Stop? ==> p1 == p2)
      && (p1.Submit? ==>
            && p2.request == p1.request.(trigger := p1.request.trigger.(timeZoneId := zone2))
            && p2.confirmation == p1.confirmation)
  {
    match Validate(slots)
    case Rejected(_) =>
    case Accepted(text, time) =>
      TimeZoneIgnored(time, zone1, zone2, today);
      match FormatDateTime(time, zone1, today)
      case None =>
      case Some(scheduled) =>
        var p1 := Prepare(slots, Zone(zone1), today, requestTime);
        var p2 := Prepare(slots, Zone(zone2), today, requestTime);
        if Filled(slots.recurrence) {
          match Pattern(slots.recurrence.value)
          case None =>
          case Some(rule) =>
            assert p1.request.trigger == Trigger(ScheduledAbsolute, scheduled, zone1, Some(rule));
            assert p2.request.trigger == Trigger(ScheduledAbsolute, scheduled, zone2, Some(rule));
        } else {
          assert p1.request.trigger == Trigger(ScheduledAbsolute, scheduled, zone1, None);
          assert p2.request.trigger == Trigger(ScheduledAbsolute, scheduled, zone2, None);
        }
  }

  /** A failed service call and an unreadable hour are answered alike. */
  lemma FailuresSoundAlike()
    ensures Speech(ServiceFailure) == Speech(BadHour) == Apology
  {
  }

  const Apology := "Lo siento, hubo un problema al crear tu recordatorio. Por favor, inténtalo de nuevo."

  /** What the skill says at the end of the interaction. */
  function Speech(o: Outcome): (s: string)
    ensures o.UnrecognizedRecurrence? ==> Contains(s, o.phrase)
    ensures o.Created? ==> s == o.confirmation
  {
    match o
    case MissingTime => "¿A qué hora pongo el recordatorio?"
    case MissingText => "Por favor dime qué quieres que te recuerde."
    case ServiceFailure => Apology
    case BadHour => Apology
    case UnrecognizedRecurrence(phrase) =>
      var prefix := "No reconozco el patrón de recurrencia \"";
      var s := prefix + phrase + "\". Prueba con \"diario\", \"semanal\" o \"mensual\".";
      assert OccursAt(s, phrase, |prefix|);
      s
    case Created(_, confirmation) => confirmation
  }
}
