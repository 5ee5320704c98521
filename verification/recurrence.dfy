/** The recurrence catalog: `getRecurrencePattern` and
    `getRecurrenceDescription` (index.js:17-53), two closed tables keyed by the
    lower-cased spoken phrase, and the single phrase-to-entry catalog the two
    tables are projections of. */
module Recurrence {
  import opened Wrappers
  import opened Text

  const DailyRule := "FREQ=DAILY;INTERVAL=1"
  const WeeklyRule := "FREQ=WEEKLY;INTERVAL=1"
  const MonthlyRule := "FREQ=MONTHLY;INTERVAL=1"
  const WeekdaysRule := "FREQ=WEEKLY;BYDAY=MO,TU,WE,TH,FR"
  const WeekendRule := "FREQ=WEEKLY;BYDAY=SA,SU"

  /** The table of `getRecurrencePattern`. */
  const Patterns: map<string, string> := map[
    "diario" := DailyRule,
    "diariamente" := DailyRule,
    "cada día" := DailyRule,
    "semanal" := WeeklyRule,
    "semanalmente" := WeeklyRule,
    "cada semana" := WeeklyRule,
    "mensual" := MonthlyRule,
    "mensualmente" := MonthlyRule,
    "cada mes" := MonthlyRule,
    "lunes a viernes" := WeekdaysRule,
    "días laborables" := WeekdaysRule,
    "fin de semana" := WeekendRule
  ]

  /** The table of `getRecurrenceDescription`. */
  const Descriptions: map<string, string> := map[
    "diario" := "todos los días",
    "diariamente" := "todos los días",
    "cada día" := "todos los días",
    "semanal" := "cada semana",
    "semanalmente" := "cada semana",
    "cada semana" := "cada semana",
    "mensual" := "cada mes",
    "mensualmente" := "cada mes",
    "cada mes" := "cada mes",
    "lunes a viernes" := "de lunes a viernes",
    "días laborables" := "en días laborables",
    "fin de semana" := "los fines de semana"
  ]

  /** What a recognised phrase stands for: a recurrence rule and the words
      that describe it in the confirmation. */
  datatype Entry = Entry(rule: string, description: string)

  const DailyPhrases: set<string> := {"diario", "diariamente", "cada día"}
  const WeeklyPhrases: set<string> := {"semanal", "semanalmente", "cada semana"}
  const MonthlyPhrases: set<string> := {"mensual", "mensualmente", "cada mes"}

  /** The catalog by phrase group: every phrase of the daily, weekly and
      monthly groups shares one entry; the two weekday phrases share a rule
      but each has its own description. */
  function CatalogEntry(key: string): Option<Entry>
  {
    if key in DailyPhrases then Some(Entry(DailyRule, "todos los días"))
    else if key in WeeklyPhrases then Some(Entry(WeeklyRule, "cada semana"))
    else if key in MonthlyPhrases then Some(Entry(MonthlyRule, "cada mes"))
    else if key == "lunes a viernes" then Some(Entry(WeekdaysRule, "de lunes a viernes"))
    else if key == "días laborables" then Some(Entry(WeekdaysRule, "en días laborables"))
    else if key == "fin de semana" then Some(Entry(WeekendRule, "los fines de semana"))
    else None
  }

  /** The catalog entry of a spoken phrase: matched after lower-casing, with
      no trimming. */
  function Lookup(phrase: string): Option<Entry>
  {
    CatalogEntry(Lower(phrase))
  }

  /** `getRecurrencePattern(recurrence)`: the rule of the phrase's catalog
      entry, or null (None) for an unknown phrase. Every rule in the table is
      a non-empty string, so `|| null` only replaces a missing key. */
  function Pattern(phrase: string): (r: Option<string>)
    ensures r.Some? <==> Lookup(phrase).Some?
    ensures r.Some? ==> r.value == Lookup(phrase).value.rule
  {
    var key := Lower(phrase);
    if key in Patterns then Some(Patterns[key]) else None
  }

  /** `getRecurrenceDescription(recurrence)`: the description of the phrase's
      catalog entry, or the empty string for an unknown phrase. */
  function Description(phrase: string): (r: string)
    ensures Lookup(phrase).Some? ==> r == Lookup(phrase).value.description
    ensures Lookup(phrase).None? ==> r == ""
  {
    var key := Lower(phrase);
    if key in Descriptions then Descriptions[key] else ""
  }

  /** The two tables have the same keys: a phrase has a rule exactly when it
      has a non-empty description. */
  lemma TablesAgree(phrase: string)
    ensures Pattern(phrase).Some? <==> Description(phrase) != ""
  {
  }

  /** Lookup ignores case: a phrase and its lower-case form get the same rule
      and the same description. */
  lemma CaseInsensitive(phrase: string)
    ensures Pattern(phrase) == Pattern(Lower(phrase))
    ensures Description(phrase) == Description(Lower(phrase))
  {
    LowerIdempotent(phrase);
  }

  /** Every phrase of a group gets that group's rule and description. */
  lemma GroupsShareEntries(phrase: string)
    ensures Lower(phrase) in DailyPhrases
            ==> Pattern(phrase) == Some(DailyRule) && Description(phrase) == "todos los días"
    ensures Lower(phrase) in WeeklyPhrases
            ==> Pattern(phrase) == Some(WeeklyRule) && Description(phrase) == "cada semana"
    ensures Lower(phrase) in MonthlyPhrases
            ==> Pattern(phrase) == Some(MonthlyRule) && Description(phrase) == "cada mes"
  {
  }

  lemma MondayToFridayIsLowerCase()
    ensures Lower("lunes a viernes") == "lunes a viernes"
  {
    assert NoUpper("lunes") && NoUpper(" a viernes");
    NoUpperConcat("lunes", " a viernes");
    assert "lunes" + " a viernes" == "lunes a viernes";
    LowerFixed("lunes a viernes");
  }

  lemma WorkingDaysIsLowerCase()
    ensures Lower("días laborables") == "días laborables"
  {
    assert NoUpper("días") && NoUpper(" laborables");
    NoUpperConcat("días", " laborables");
    assert "días" + " laborables" == "días laborables";
    LowerFixed("días laborables");
  }

  /** "lunes a viernes" and "días laborables" give the same rule ... */
  lemma WeekdayPhrasesShareRule()
    ensures Pattern("lunes a viernes") == Pattern("días laborables") == Some(WeekdaysRule)
  {
    MondayToFridayIsLowerCase();
    WorkingDaysIsLowerCase();
  }

  /** ... but different descriptions. */
  lemma WeekdayDescriptionsDiffer()
    ensures Description("lunes a viernes") == "de lunes a viernes"
    ensures Description("días laborables") == "en días laborables"
  {
    MondayToFridayDescription();
    WorkingDaysDescription();
  }

  lemma MondayToFridayDescription()
    ensures Description("lunes a viernes") == "de lunes a viernes"
  {
    MondayToFridayIsLowerCase();
  }

  lemma WorkingDaysDescription()
    ensures Description("días laborables") == "en días laborables"
  {
    WorkingDaysIsLowerCase();
  }

  lemma AccentedCapitalLowered()
    ensures Lower("CADA DÍA") == "cada día"
  {
    assert Lower("CADA ") == "cada ";
    assert Lower("DÍA") == "día";
    LowerConcat("CADA ", "DÍA");
    assert "CADA " + "DÍA" == "CADA DÍA";
    assert "cada " + "día" == "cada día";
  }

  /** Capitals are recognised, accented ones included: "DIARIO" is "diario"
      and "CADA DÍA" is "cada día". */
  lemma CapitalsRecognised()
    ensures Pattern("DIARIO") == Some(DailyRule)
    ensures Pattern("CADA DÍA") == Some(DailyRule)
  {
    assert Lower("DIARIO") == "diario";
    AccentedCapitalLowered();
  }

  /** Surrounding spaces are not trimmed: " diario" is not recognised. */
  lemma LeadingSpaceNotRecognised()
    ensures Pattern(" diario") == None
    ensures Description(" diario") == ""
  {
    LowerFixed(" diario");
  }

  lemma DailyEntry()
    ensures Lookup("diario") == Some(Entry(DailyRule, "todos los días"))
  {
    LowerFixed("diario");
  }

  lemma MondayToFridayEntry()
    ensures Lookup("lunes a viernes") == Some(Entry(WeekdaysRule, "de lunes a viernes"))
  {
    WeekdayPhrasesShareRule();
    MondayToFridayDescription();
  }

  lemma UnknownPhraseEntry()
    ensures Lookup("xyz") == None
  {
    LowerFixed("xyz");
  }
}
