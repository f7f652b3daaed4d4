/**
 * Due-date labels (lib/date-utils.ts). The labels are stated over `dayOf`,
 * which stands for `startOfDay(new Date(text))`: it maps the trimmed text to
 * a local day number, or `None` when `new Date` gives an invalid date; "today"
 * is a local day number too, so the difference of the two midnights is a
 * whole number of days. Which day `dayOf` yields for the date field's
 * "YYYY-MM-DD" text is modelled separately at the end of the module:
 * `DueDayAsWritten` is what the code computes (UTC midnight, then its local
 * day), `DueDayIntended` the calendar day the field names.
 */
module DateUtils {
  import opened Wrappers
  import opened Text

  /** The four cases of the label. */
  datatype DueClass = Overdue | DueToday | DueTomorrow | DueIn(days: nat)

  function Classify(diffDays: int): (c: DueClass)
    ensures c == Overdue <==> diffDays < 0
    ensures c == DueToday <==> diffDays == 0
    ensures c == DueTomorrow <==> diffDays == 1
    ensures c.DueIn? <==> diffDays >= 2
    ensures c.DueIn? ==> c.days == diffDays
  {
    if diffDays < 0 then Overdue
    else if diffDays == 0 then DueToday
    else if diffDays == 1 then DueTomorrow
    else DueIn(diffDays)
  }

  predicate IsDigit(c: char) {
    '0' <= c <= '9'
  }

  function DigitChar(d: nat): (c: char)
    requires d < 10
    ensures IsDigit(c) && c as int - '0' as int == d
  {
    ('0' as int + d) as char
  }

  /** A whole number as a template literal writes it: decimal digits, no leading zeros. */
  function NatToString(n: nat): (s: string)
    ensures |s| >= 1
    ensures forall i :: 0 <= i < |s| ==> IsDigit(s[i])
  {
    if n < 10 then [DigitChar(n)] else NatToString(n / 10) + [DigitChar(n % 10)]
  }

  /** The value of a string of decimal digits. */
  function DecimalValue(s: string): nat
    requires forall i :: 0 <= i < |s| ==> IsDigit(s[i])
  {
    if s == [] then 0
    else
      assert IsDigit(s[|s| - 1]);
      DecimalValue(s[..|s| - 1]) * 10 + (s[|s| - 1] as int - '0' as int)
  }

  /** Reading the written number back gives the number. */
  lemma {:induction false} NatToStringRoundTrip(n: nat)
    ensures DecimalValue(NatToString(n)) == n
  {
    var s := NatToString(n);
    if n >= 10 {
      NatToStringRoundTrip(n / 10);
      assert s[..|s| - 1] == NatToString(n / 10);
    } else {
      assert s[..0] == [];
    }
  }

  /** The written number has no leading zero: it starts with '0' only for zero itself, written "0". */
  lemma {:induction false} NatToStringNoLeadingZero(n: nat)
    ensures NatToString(n)[0] == '0' <==> n == 0
    ensures n == 0 ==> NatToString(n) == "0"
  {
    if n >= 10 {
      NatToStringNoLeadingZero(n / 10);
      assert NatToString(n)[0] == NatToString(n / 10)[0];
    }
  }

  /** Different numbers are written differently. */
  lemma NatToStringInjective(m: nat, n: nat)
    requires NatToString(m) == NatToString(n)
    ensures m == n
  {
    NatToStringRoundTrip(m);
    NatToStringRoundTrip(n);
  }

  /** The label of each case. */
  function Label(c: DueClass): (r: string)
    ensures c == Overdue ==> r == "Vencida"
    ensures c == DueToday ==> r == "Hoy"
    ensures c == DueTomorrow ==> r == "Mañana"
    ensures c.DueIn? ==> r == "En " + NatToString(c.days) + " días"
  {
    match c
    case Overdue => "Vencida"
    case DueToday => "Hoy"
    case DueTomorrow => "Mañana"
    case DueIn(n) => "En " + NatToString(n) + " días"
  }

  /** Different cases, and different day counts, never share a label. */
  lemma LabelInjective(c1: DueClass, c2: DueClass)
    requires Label(c1) == Label(c2)
    ensures c1 == c2
  {
    if c1.DueIn? && c2.DueIn? {
      var s1, s2 := NatToString(c1.days), NatToString(c2.days);
      assert Label(c1) == "En " + s1 + " días";
      assert |s1| == |s2|;
      assert s1 == Label(c1)[3..3 + |s1|];
      assert s2 == Label(c2)[3..3 + |s2|];
      NatToStringInjective(c1.days, c2.days);
    }
  }

  /** `formatDueDate(dueDate)`: no label for blank or unparseable text, else the case's label. */
  function FormatDueDate(dueDate: string, today: int, dayOf: string -> Option<int>): (r: Option<string>)
    ensures AllSpace(dueDate) ==> r.None?
    ensures !AllSpace(dueDate) ==> (r.None? <==> dayOf(Trim(dueDate)).None?)
    ensures !AllSpace(dueDate) && dayOf(Trim(dueDate)).Some? ==>
      r == Some(Label(Classify(dayOf(Trim(dueDate)).value - today)))
  {
    var trimmed := Trim(dueDate);
    if trimmed == [] then None
    else match dayOf(trimmed)
      case None => None
      case Some(due) => Some(Label(Classify(due - today)))
  }

  /** `isOverdue(dueDate)`: false for blank or unparseable text, else whether the day is before today. */
  function IsOverdue(dueDate: string, today: int, dayOf: string -> Option<int>): (b: bool)
    ensures b <==> !AllSpace(dueDate) && dayOf(Trim(dueDate)).Some? && dayOf(Trim(dueDate)).value < today
  {
    var trimmed := Trim(dueDate);
    if trimmed == [] then false
    else match dayOf(trimmed)
      case None => false
      case Some(due) => due < today
  }

  /** The label for each day difference, spelled out. */
  lemma FormatCases(dueDate: string, today: int, dayOf: string -> Option<int>, due: int)
    requires !AllSpace(dueDate) && dayOf(Trim(dueDate)) == Some(due)
    ensures due < today ==> FormatDueDate(dueDate, today, dayOf) == Some("Vencida")
    ensures due == today ==> FormatDueDate(dueDate, today, dayOf) == Some("Hoy")
    ensures due == today + 1 ==> FormatDueDate(dueDate, today, dayOf) == Some("Mañana")
    ensures due >= today + 2 ==> FormatDueDate(dueDate, today, dayOf) == Some("En " + NatToString(due - today) + " días")
  {
    var r := FormatDueDate(dueDate, today, dayOf);
    assert r == Some(Label(Classify(due - today)));
  }

  /** A task is flagged overdue exactly when its label reads "Vencida". */
  lemma OverdueIffVencida(dueDate: string, today: int, dayOf: string -> Option<int>)
    ensures IsOverdue(dueDate, today, dayOf) <==> FormatDueDate(dueDate, today, dayOf) == Some("Vencida")
  {
    if !AllSpace(dueDate) && dayOf(Trim(dueDate)).Some? {
      var c := Classify(dayOf(Trim(dueDate)).value - today);
      if Label(c) == "Vencida" {
        assert Label(Overdue) == "Vencida";
        LabelInjective(c, Overdue);
      }
    }
  }

  /** Without a label there is no overdue flag. */
  lemma NoLabelNotOverdue(dueDate: string, today: int, dayOf: string -> Option<int>)
    requires FormatDueDate(dueDate, today, dayOf).None?
    ensures !IsOverdue(dueDate, today, dayOf)
  {
  }

  const MS_PER_MINUTE: int := 60 * 1000
  const MS_PER_DAY: int := 24 * 60 * 60 * 1000

  /**
   * `startOfDay` of the instant `ms` (milliseconds since the epoch) in a time
   * zone `offsetMinutes` ahead of UTC (negative west of Greenwich), as a day
   * number; the offset of a real zone is less than a day.
   */
  function LocalDay(ms: int, offsetMinutes: int): (d: int)
    requires -1440 < offsetMinutes < 1440
    ensures d * MS_PER_DAY <= ms + offsetMinutes * MS_PER_MINUTE < (d + 1) * MS_PER_DAY
  {
    (ms + offsetMinutes * MS_PER_MINUTE) / MS_PER_DAY
  }

  /**
   * The day the code takes a date-only "YYYY-MM-DD" text naming day `named`
   * to be: `new Date` reads such text as midnight UTC (a date-only form
   * without an offset is UTC time in ECMAScript's date time string format), and
   * `startOfDay` then takes the local day of that instant.
   */
  function DueDayAsWritten(named: int, offsetMinutes: int): (d: int)
    requires -1440 < offsetMinutes < 1440
    ensures d * MS_PER_DAY <= named * MS_PER_DAY + offsetMinutes * MS_PER_MINUTE < (d + 1) * MS_PER_DAY
  {
    LocalDay(named * MS_PER_DAY, offsetMinutes)
  }

  /** West of UTC, midnight UTC falls on the previous local day. */
  lemma AsWrittenWestIsDayEarly(named: int, offsetMinutes: int)
    requires -1440 < offsetMinutes < 0
    ensures DueDayAsWritten(named, offsetMinutes) == named - 1
  {
    var d := DueDayAsWritten(named, offsetMinutes);
    assert d * MS_PER_DAY < named * MS_PER_DAY;
    assert (named - 1) * MS_PER_DAY < (d + 1) * MS_PER_DAY;
  }

  /** At UTC and east of it the day read is the day named. */
  lemma AsWrittenEastIsExact(named: int, offsetMinutes: int)
    requires 0 <= offsetMinutes < 1440
    ensures DueDayAsWritten(named, offsetMinutes) == named
  {
    var d := DueDayAsWritten(named, offsetMinutes);
    assert d * MS_PER_DAY < (named + 1) * MS_PER_DAY;
    assert named * MS_PER_DAY < (d + 1) * MS_PER_DAY;
  }

  /**
   * As written: west of UTC, a task due today (its date field holds today's
   * local date) is labelled "Vencida" and flagged overdue.
   */
  lemma DueTodayReadsVencidaWestOfUtc(dueDate: string, today: int, offsetMinutes: int, dayOf: string -> Option<int>)
    requires -1440 < offsetMinutes < 0
    requires !AllSpace(dueDate) && dayOf(Trim(dueDate)) == Some(DueDayAsWritten(today, offsetMinutes))
    ensures FormatDueDate(dueDate, today, dayOf) == Some("Vencida")
    ensures IsOverdue(dueDate, today, dayOf)
  {
    AsWrittenWestIsDayEarly(today, offsetMinutes);
  }

  /** The day a date-only text was meant to name: the local calendar day the date field shows. */
  function DueDayIntended(named: int, offsetMinutes: int): (d: int)
    requires -1440 < offsetMinutes < 1440
    ensures d == named
    ensures offsetMinutes >= 0 ==> d == DueDayAsWritten(named, offsetMinutes)
  {
    if offsetMinutes >= 0 then AsWrittenEastIsExact(named, offsetMinutes); named else named
  }

  /**
   * Corrected: reading the field's date as that local calendar day, a task
   * due today is labelled "Hoy" and is not overdue, in every time zone; on
   * the day before it is labelled "Mañana".
   */
  lemma DueTodayReadsHoy(dueDate: string, today: int, offsetMinutes: int, dayOf: string -> Option<int>)
    requires -1440 < offsetMinutes < 1440
    requires !AllSpace(dueDate) && dayOf(Trim(dueDate)) == Some(DueDayIntended(today, offsetMinutes))
    ensures FormatDueDate(dueDate, today, dayOf) == Some("Hoy")
    ensures !IsOverdue(dueDate, today, dayOf)
    ensures FormatDueDate(dueDate, today - 1, dayOf) == Some("Mañana")
  {
  }
}
