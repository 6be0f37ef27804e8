/**
 * The epidemiological-week helpers the case-count report calls
 * (`get_epi_week`, `epiweek_str`, `get_start_of_day`, `get_start_of_next_day`
 * and the timezone they are given). Their implementation is not part of this
 * model, so they enter it as a `Calendar` value: a record of functions that
 * the report receives as a parameter and never looks inside.
 */
module EpiWeeks {

  /** A calendar date, as a day number. */
  type Day = int

  /** A timezone-aware date and time, in seconds. */
  type Instant = int

  /** The length of a day, in seconds (no daylight-saving jumps; see `Regular`). */
  const DaySeconds: int := 86400

  /** `timedelta(7)`, in seconds. */
  const WeekSeconds: int := 604800

  /** What `get_epi_week(date)` returns: (first day, last day, year, week number). */
  datatype EpiWeek = EpiWeek(first: Day, last: Day, year: int, week: int)

  /** The comparison `start_week[2:] == end_week[2:]`: same year and week number. */
  predicate SameWeekNumber(a: EpiWeek, b: EpiWeek)
  {
    a.year == b.year && a.week == b.week
  }

  /**
   * The helpers, with the report's timezone already applied:
   *  - epiWeek: `get_epi_week(date)`
   *  - weekLabel: `epiweek_str(week)` on a week tuple
   *  - instantLabel: `epiweek_str(datetime)` on a date and time
   *  - startOfDay: `get_start_of_day(date, tz)`
   *  - startOfNextDay: `get_start_of_next_day(date, tz)`
   */
  datatype Calendar = Calendar(
    epiWeek: Day -> EpiWeek,
    weekLabel: EpiWeek -> string,
    instantLabel: Instant -> string,
    startOfDay: Day -> Instant,
    startOfNextDay: Day -> Instant)

  /**
   * ASSUMPTION, not a fact about code in this model: what a well-behaved set of
   * epi-week helpers does. It is used only as a precondition of lemmas, never
   * by the report itself.
   *  (A1) week start <= d <= week end, and a week is 7 days long;
   *  (A2) every day between a week's start and end belongs to that week;
   *  (A3) days are DaySeconds long and the next day starts where the day ends;
   *  (A4) the label of the start of a day is the label of that day's week.
   */
  ghost predicate Regular(cal: Calendar)
  {
    && (forall d :: cal.epiWeek(d).first <= d <= cal.epiWeek(d).last == cal.epiWeek(d).first + 6)
    && (forall d, e :: cal.epiWeek(d).first <= e <= cal.epiWeek(d).last ==> cal.epiWeek(e) == cal.epiWeek(d))
    && (forall d :: cal.startOfDay(d) == cal.startOfDay(0) + d * DaySeconds)
    && (forall d :: cal.startOfNextDay(d) == cal.startOfDay(d + 1))
    && (forall d :: cal.instantLabel(cal.startOfDay(d)) == cal.weekLabel(cal.epiWeek(d)))
  }

  /** Under the assumption, the first day of a week is the first day of its own week. */
  lemma WeekOfFirstDay(cal: Calendar, d: Day)
    requires Regular(cal)
    ensures cal.epiWeek(cal.epiWeek(d).first) == cal.epiWeek(d)
  {
  }

  /** Under the assumption, weeks are consecutive 7-day blocks: 7k days after a week's first day another week begins. */
  lemma {:induction false} WeeksAreBlocks(cal: Calendar, d: Day, k: nat)
    requires Regular(cal)
    ensures cal.epiWeek(cal.epiWeek(d).first + 7 * k).first == cal.epiWeek(d).first + 7 * k
  {
    if k > 0 {
      WeeksAreBlocks(cal, d, k - 1);
      var s := cal.epiWeek(d).first + 7 * (k - 1);
      var f := cal.epiWeek(s + 7).first;
      assert cal.epiWeek(f) == cal.epiWeek(s + 7);
    }
  }

  /** Under the assumption, two first days of weeks less than 7 days apart are the same day. */
  lemma FirstDaysApart(cal: Calendar, a: Day, b: Day)
    requires Regular(cal)
    requires cal.epiWeek(a).first == a && cal.epiWeek(b).first == b
    requires a <= b < a + 7
    ensures a == b
  {
    assert cal.epiWeek(b) == cal.epiWeek(a);
  }
}
