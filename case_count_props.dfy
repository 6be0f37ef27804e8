/**
 * What the case-count report promises, stated over the model of
 * `CaseCountReport.parse` in module CaseCount: how notifications are
 * selected, which weeks are seeded, what the rows and totals count, and that
 * the report does not depend on the order in which the dictionary of
 * counters is walked.
 */
module CaseCountProperties {
  import opened Optional
  import opened PyStrings
  import opened Counters
  import opened Sorting
  import opened EpiWeeks
  import opened CaseCount

  // ---------------------------------------------------------------------------
  // Status filter and selection

  /**
   * The search selects notifications by notification date, between the start
   * of the first week and the start of the day after the last week, and by
   * status only when a state is chosen; the onset week plays no part.
   */
  lemma SelectionByNotificationDate(startDate: Instant, endDate: Instant, state: Option<string>, r: NotificationRecord)
    ensures Satisfies(SearchDomain(startDate, endDate, SelectStatus(state).query), r)
            <==> startDate <= r.dateNotified < endDate && (IsSet(state) ==> r.status == state)
  {
    var d := SearchDomain(startDate, endDate, SelectStatus(state).query);
    assert Holds(d[0], r) && Holds(d[1], r) ==> startDate <= r.dateNotified < endDate;
    if IsSet(state) {
      assert Holds(d[2], r) ==> r.status == state;
    }
  }

  /** Two notifications that differ only in their onset week are selected alike. */
  lemma SelectionIgnoresOnset(domain: seq<Clause>, r: NotificationRecord, onset: string)
    ensures Satisfies(domain, r) <==> Satisfies(domain, r.(epiWeekOnset := onset))
  {
    forall i | 0 <= i < |domain| ensures Holds(domain[i], r) <==> Holds(domain[i], r.(epiWeekOnset := onset)) {
    }
  }

  /** The number of status clauses in a search domain. */
  function StatusClauses(domain: seq<Clause>): nat
  {
    if domain == [] then 0 else (if domain[0].StatusIs? then 1 else 0) + StatusClauses(domain[1..])
  }

  /** With no state chosen there is no status clause and the label is 'All'. */
  lemma NoStateNoStatusClause(startDate: Instant, endDate: Instant, state: Option<string>)
    requires !IsSet(state)
    ensures SelectStatus(state).caption == "All"
    ensures StatusClauses(SearchDomain(startDate, endDate, SelectStatus(state).query)) == 0
  {
    var d := SearchDomain(startDate, endDate, SelectStatus(state).query);
    assert d[1..][1..] == [];
    assert StatusClauses(d[1..]) == 0;
  }

  /**
   * With a state chosen there is exactly one status clause, for that state,
   * and the label is the state's display name, or 'Unknown' when it has none.
   */
  lemma StateAddsOneStatusClause(startDate: Instant, endDate: Instant, state: Option<string>)
    requires IsSet(state)
    ensures var d := SearchDomain(startDate, endDate, SelectStatus(state).query);
            StatusClauses(d) == 1 && d[|d| - 1] == StatusIs(state.value)
    ensures Lookup(NotificationStates, state).None? ==> SelectStatus(state).caption == "Unknown"
    ensures Lookup(NotificationStates, state).Some? ==> SelectStatus(state).caption == Lookup(NotificationStates, state).value
  {
    var d := SearchDomain(startDate, endDate, SelectStatus(state).query);
    assert d[1..][1..] == [StatusIs(state.value)];
    assert d[1..][1..][1..] == [];
    assert StatusClauses(d[1..][1..]) == 1;
    assert StatusClauses(d[1..]) == 1;
  }

  /** The state the wizard opens on selects suspected notifications under the label "Suspected". */
  lemma DefaultStateLabel()
    ensures IsSet(DefaultState())
    ensures SelectStatus(DefaultState()) == StatusFilter(Some("suspected"), "Suspected")
  {
  }

  // ---------------------------------------------------------------------------
  // Week enumeration

  /** Step n of the `while` loop is taken and appends text: start + 7n days is before the end, and text is its label. */
  predicate IsStep(cal: Calendar, startDate: Instant, endDate: Instant, n: int, text: string)
  {
    startDate + WeekSeconds * n < endDate && text == cal.instantLabel(startDate + WeekSeconds * n)
  }

  /** The 7-day steps from k on: each is taken and labelled by its instant, and the one after the last is not taken. */
  lemma {:induction false} WeekStepsShape(cal: Calendar, startDate: Instant, endDate: Instant, k: nat)
    ensures var w := WeekSteps(cal, startDate, endDate, k);
            && (forall j :: 0 <= j < |w| ==> IsStep(cal, startDate, endDate, k + j, w[j]))
            && endDate <= startDate + WeekSeconds * (k + |w|)
    decreases endDate - startDate - WeekSeconds * k
  {
    if startDate + WeekSeconds * k < endDate {
      WeekStepsShape(cal, startDate, endDate, k + 1);
      var w := WeekSteps(cal, startDate, endDate, k);
      var w' := WeekSteps(cal, startDate, endDate, k + 1);
      assert w == [cal.instantLabel(startDate + WeekSeconds * k)] + w';
      forall j | 0 <= j < |w| ensures IsStep(cal, startDate, endDate, k + j, w[j]) {
        if j > 0 {
          assert IsStep(cal, startDate, endDate, k + 1 + (j - 1), w'[j - 1]);
        }
      }
    }
  }

  /**
   * `all_weeks` starts with the start week's label. If the start and end
   * weeks have the same year and number, that is all; otherwise it holds the
   * label of start + 7k days for each k >= 1 that is before the end (and no
   * more), then the end week's label.
   */
  lemma WeekLabelsShape(cal: Calendar, startWeek: EpiWeek, endWeek: EpiWeek)
    ensures var labels := WeekLabels(cal, startWeek, endWeek);
            var startDate := cal.startOfDay(startWeek.first);
            var endDate := cal.startOfNextDay(endWeek.last);
            && labels != []
            && labels[0] == cal.weekLabel(startWeek)
            && (SameWeekNumber(startWeek, endWeek) ==> |labels| == 1)
            && (!SameWeekNumber(startWeek, endWeek) ==>
                  && |labels| >= 2
                  && labels[|labels| - 1] == cal.weekLabel(endWeek)
                  && (forall k :: 1 <= k < |labels| - 1 ==> IsStep(cal, startDate, endDate, k, labels[k]))
                  && endDate <= startDate + WeekSeconds * (|labels| - 1))
  {
    var startDate := cal.startOfDay(startWeek.first);
    var endDate := cal.startOfNextDay(endWeek.last);
    WeekStepsShape(cal, startDate, endDate, 1);
    var w := WeekSteps(cal, startDate, endDate, 1);
    var labels := WeekLabels(cal, startWeek, endWeek);
    if !SameWeekNumber(startWeek, endWeek) {
      forall k | 1 <= k < |labels| - 1 ensures IsStep(cal, startDate, endDate, k, labels[k]) {
        assert labels[k] == w[k - 1];
        assert IsStep(cal, startDate, endDate, 1 + (k - 1), w[k - 1]);
      }
    }
  }

  /** Every seeded week starts at count 0, and the seeded keys are exactly the enumerated labels. */
  lemma SeededWeeksAreZero(cal: Calendar, startWeek: EpiWeek, endWeek: EpiWeek, w: string)
    ensures var seeded := Zeros(WeekLabels(cal, startWeek, endWeek));
            && (w in seeded <==> w in WeekLabels(cal, startWeek, endWeek))
            && (w in seeded ==> seeded[w] == 0)
  {
  }

  /** A sequence has at least as many positions as distinct elements, and more when an element repeats. */
  lemma {:induction false} DistinctElements(s: seq<string>, i: nat, j: nat)
    ensures |set x | x in s| <= |s|
    ensures i < j < |s| && s[i] == s[j] ==> |set x | x in s| < |s|
  {
    if s != [] {
      var init := s[..|s| - 1];
      var last := s[|s| - 1];
      assert s == init + [last];
      DistinctElements(init, i, j);
      var elems := set x | x in s;
      var initElems := set x | x in init;
      assert elems == initElems + {last};
      if last in init {
        assert elems == initElems;
      }
      if i < j < |s| && s[i] == s[j] && j == |s| - 1 {
        assert s[i] == init[i];
        assert elems == initElems;
      }
    }
  }

  /** When step m is the last one taken, the loop appends exactly m labels. */
  lemma {:induction false} WeekStepsCount(cal: Calendar, startDate: Instant, endDate: Instant, k: nat, m: nat)
    requires k <= m + 1
    requires startDate + WeekSeconds * m < endDate <= startDate + WeekSeconds * (m + 1)
    ensures |WeekSteps(cal, startDate, endDate, k)| == m + 1 - k
    decreases m + 1 - k
  {
    if k <= m {
      WeekStepsCount(cal, startDate, endDate, k + 1, m);
    }
  }

  /** ASSUMING a regular calendar: a later, different end week begins a whole number m >= 1 of weeks after the start week. */
  lemma EndWeekWholeWeeksLater(cal: Calendar, startDay: Day, endDay: Day) returns (m: nat)
    requires Regular(cal)
    requires startDay <= endDay
    requires !SameWeekNumber(cal.epiWeek(startDay), cal.epiWeek(endDay))
    ensures m >= 1 && cal.epiWeek(startDay).first + 7 * m == cal.epiWeek(endDay).first
  {
    var sw, ew := cal.epiWeek(startDay), cal.epiWeek(endDay);
    assert sw.first <= ew.first;
    m := (ew.first - sw.first) / 7;
    WeeksAreBlocks(cal, startDay, m);
    WeekOfFirstDay(cal, startDay);
    WeekOfFirstDay(cal, endDay);
    FirstDaysApart(cal, sw.first + 7 * m, ew.first);
    assert m != 0;
  }

  /**
   * ASSUMING a regular calendar (see EpiWeeks.Regular): when the start and
   * end weeks differ, the 7-day steps reach the first day of the end week,
   * so `all_weeks` holds the end week's label twice, as its last two entries.
   */
  lemma EndWeekListedTwice(cal: Calendar, startDay: Day, endDay: Day)
    requires Regular(cal)
    requires startDay <= endDay
    requires !SameWeekNumber(cal.epiWeek(startDay), cal.epiWeek(endDay))
    ensures var labels := WeekLabels(cal, cal.epiWeek(startDay), cal.epiWeek(endDay));
            && |labels| >= 3
            && labels[|labels| - 2] == labels[|labels| - 1] == cal.weekLabel(cal.epiWeek(endDay))
  {
    var m := EndWeekInstants(cal, startDay, endDay);
    RepeatedEndLabel(cal, cal.epiWeek(startDay), cal.epiWeek(endDay), m);
  }

  /** When the last 7-day step carries the end week's label, that label closes `all_weeks` twice. */
  lemma RepeatedEndLabel(cal: Calendar, sw: EpiWeek, ew: EpiWeek, m: nat)
    requires !SameWeekNumber(sw, ew) && m >= 1
    requires var startDate, endDate := cal.startOfDay(sw.first), cal.startOfNextDay(ew.last);
             && startDate + WeekSeconds * m < endDate <= startDate + WeekSeconds * (m + 1)
             && cal.instantLabel(startDate + WeekSeconds * m) == cal.weekLabel(ew)
    ensures var labels := WeekLabels(cal, sw, ew);
            && |labels| >= 3
            && labels[|labels| - 2] == labels[|labels| - 1] == cal.weekLabel(ew)
  {
    var startDate, endDate := cal.startOfDay(sw.first), cal.startOfNextDay(ew.last);
    LastStepLabel(cal, startDate, endDate, m);
    var w := WeekSteps(cal, startDate, endDate, 1);
    var labels := WeekLabels(cal, sw, ew);
    assert labels == [cal.weekLabel(sw)] + w + [cal.weekLabel(ew)];
    assert labels[|labels| - 2] == w[m - 1];
  }

  /** When step m is the last one before the end, the steps from 1 on are m labels, the last being step m's. */
  lemma LastStepLabel(cal: Calendar, startDate: Instant, endDate: Instant, m: nat)
    requires m >= 1
    requires startDate + WeekSeconds * m < endDate <= startDate + WeekSeconds * (m + 1)
    ensures |WeekSteps(cal, startDate, endDate, 1)| == m
    ensures WeekSteps(cal, startDate, endDate, 1)[m - 1] == cal.instantLabel(startDate + WeekSeconds * m)
  {
    WeekStepsCount(cal, startDate, endDate, 1, m);
    WeekStepsShape(cal, startDate, endDate, 1);
    var w := WeekSteps(cal, startDate, endDate, 1);
    assert IsStep(cal, startDate, endDate, 1 + (m - 1), w[m - 1]);
  }

  /**
   * ASSUMING a regular calendar: step m of the week loop is the start of the
   * end week's first day, which carries the end week's label, and step m + 1
   * is the report's end instant.
   */
  lemma EndWeekInstants(cal: Calendar, startDay: Day, endDay: Day) returns (m: nat)
    requires Regular(cal)
    requires startDay <= endDay
    requires !SameWeekNumber(cal.epiWeek(startDay), cal.epiWeek(endDay))
    ensures var sw, ew := cal.epiWeek(startDay), cal.epiWeek(endDay);
            && m >= 1
            && cal.startOfDay(sw.first) + WeekSeconds * m == cal.startOfDay(ew.first)
            && cal.startOfNextDay(ew.last) == cal.startOfDay(sw.first) + WeekSeconds * (m + 1)
            && cal.instantLabel(cal.startOfDay(ew.first)) == cal.weekLabel(ew)
  {
    var ew := cal.epiWeek(endDay);
    m := EndWeekWholeWeeksLater(cal, startDay, endDay);
    WeekOfFirstDay(cal, endDay);
    assert cal.instantLabel(cal.startOfDay(ew.first)) == cal.weekLabel(cal.epiWeek(ew.first));
  }

  /**
   * ASSUMING a regular calendar: seeding `empty_weeks` through a dict drops
   * the repeated end week, so there are fewer seeded weeks than entries in
   * `all_weeks`.
   */
  lemma SeedingDropsRepeatedEndWeek(cal: Calendar, startDay: Day, endDay: Day)
    requires Regular(cal)
    requires startDay <= endDay
    requires !SameWeekNumber(cal.epiWeek(startDay), cal.epiWeek(endDay))
    ensures var labels := WeekLabels(cal, cal.epiWeek(startDay), cal.epiWeek(endDay));
            |Zeros(labels).Keys| < |labels|
  {
    var labels := WeekLabels(cal, cal.epiWeek(startDay), cal.epiWeek(endDay));
    EndWeekListedTwice(cal, startDay, endDay);
    DistinctElements(labels, |labels| - 2, |labels| - 1);
  }

  // ---------------------------------------------------------------------------
  // Rows and totals

  /** The diagnosis name of every record, in order. */
  function DiagnosisNames(records: seq<NotificationRecord>): (names: seq<string>)
    ensures |names| == |records|
    ensures forall i :: 0 <= i < |records| ==> names[i] == records[i].diagnosisName
  {
    seq(|records|, i requires 0 <= i < |records| => records[i].diagnosisName)
  }

  /** A name has one onset per record that carries it. */
  lemma {:induction false} OnsetsCount(records: seq<NotificationRecord>, p: string)
    ensures |Onsets(records, p)| == multiset(DiagnosisNames(records))[p]
  {
    if records != [] {
      OnsetsCount(records[1..], p);
      assert DiagnosisNames(records) == [records[0].diagnosisName] + DiagnosisNames(records[1..]);
    }
  }

  /** The seeded weeks add nothing to a sum. */
  lemma SeededSumIsZero(emptyWeeks: Counter)
    requires forall k :: k in emptyWeeks ==> emptyWeeks[k] == 0
    ensures Sum(emptyWeeks) == 0
  {
    SumOverZeros(emptyWeeks, emptyWeeks.Keys);
  }

  /** The counts of a disease add up to the number of its records. */
  lemma RowCountsSum(emptyWeeks: Counter, records: seq<NotificationRecord>, p: string)
    requires forall k :: k in emptyWeeks ==> emptyWeeks[k] == 0
    ensures Sum(RowCounts(emptyWeeks, records, p)) == multiset(DiagnosisNames(records))[p]
  {
    SumUpdate(emptyWeeks, Tally(Onsets(records, p)));
    SumTally(Onsets(records, p));
    SeededSumIsZero(emptyWeeks);
    OnsetsCount(records, p);
  }

  /** The seeded weeks of the report. */
  function SeededWeeks(cal: Calendar, data: ReportData): Counter
  {
    Zeros(WeekLabels(cal, cal.epiWeek(data.startDate), cal.epiWeek(data.endDate)))
  }

  /** Every seeded week is a column of every row and of the totals, and is listed in `weeks`, even with no cases. */
  lemma SeededWeeksEverywhere(cal: Calendar, data: ReportData, fetched: seq<NotificationRecord>,
                              domain: seq<Clause>, report: Report, w: string)
    requires ReportSpec(cal, data, fetched, domain, report)
    requires w in SeededWeeks(cal, data)
    ensures w in report.weekTotals && w in report.weeks
    ensures forall i :: 0 <= i < |report.diseaseCounts| ==> w in report.diseaseCounts[i].weekCounts
  {
  }

  /**
   * Each disease has exactly one row, and its total is the number of fetched
   * notifications with that diagnosis name.
   */
  lemma RowTotalIsRecordCount(cal: Calendar, data: ReportData, fetched: seq<NotificationRecord>,
                              domain: seq<Clause>, report: Report)
    requires ReportSpec(cal, data, fetched, domain, report)
    ensures forall i :: 0 <= i < |report.diseaseCounts| ==>
              report.diseaseCounts[i].total == multiset(DiagnosisNames(fetched))[report.diseaseCounts[i].disease]
    ensures forall p :: p in DiagnosisNames(fetched) <==>
              exists i :: 0 <= i < |report.diseaseCounts| && report.diseaseCounts[i].disease == p
    ensures forall i, j :: 0 <= i < j < |report.diseaseCounts| ==>
              report.diseaseCounts[i].disease != report.diseaseCounts[j].disease
  {
    var rows := report.diseaseCounts;
    var emptyWeeks := SeededWeeks(cal, data);
    forall i | 0 <= i < |rows|
      ensures rows[i].total == multiset(DiagnosisNames(fetched))[rows[i].disease]
    {
      RowCountsSum(emptyWeeks, fetched, rows[i].disease);
    }
    forall p ensures p in DiagnosisNames(fetched) <==> p in Names(fetched) {
      if p in DiagnosisNames(fetched) {
        var i :| 0 <= i < |fetched| && DiagnosisNames(fetched)[i] == p;
        assert fetched[i] in fetched;
      }
      if p in Names(fetched) {
        var r :| r in fetched && r.diagnosisName == p;
        var i :| 0 <= i < |fetched| && fetched[i] == r;
        assert DiagnosisNames(fetched)[i] == p;
      }
    }
  }

  /** The number of cases in week w, added over the given rows. */
  function ColumnSum(rows: seq<DiseaseRow>, w: string): nat
  {
    if rows == [] then 0 else ColumnSum(rows[..|rows| - 1], w) + Get(rows[|rows| - 1].weekCounts, w)
  }

  /** The diseases of the given rows. */
  function Diseases(rows: seq<DiseaseRow>): set<string>
  {
    set i | 0 <= i < |rows| :: rows[i].disease
  }

  /** A week's entry in a disease's row is the number of that disease's onsets in that week. */
  lemma RowCountAt(emptyWeeks: Counter, records: seq<NotificationRecord>, p: string, w: string)
    requires forall k :: k in emptyWeeks ==> emptyWeeks[k] == 0
    ensures Get(RowCounts(emptyWeeks, records, p), w) == multiset(Onsets(records, p))[w]
  {
  }

  /** The diseases of rows with distinct diseases: those of all but the last row, plus the last row's, which is new. */
  lemma DiseasesSnoc(rows: seq<DiseaseRow>)
    requires rows != [] && DistinctKeys(rows, Disease)
    ensures Diseases(rows) == Diseases(rows[..|rows| - 1]) + {rows[|rows| - 1].disease}
    ensures rows[|rows| - 1].disease !in Diseases(rows[..|rows| - 1])
  {
    var init, last := rows[..|rows| - 1], rows[|rows| - 1];
    forall p | p in Diseases(rows) ensures p in Diseases(init) + {last.disease} {
      var i :| 0 <= i < |rows| && rows[i].disease == p;
      if i < |rows| - 1 {
        assert init[i].disease == p;
      }
    }
    forall i | 0 <= i < |init| ensures init[i].disease != last.disease {
      assert Disease(rows[i]) != Disease(rows[|rows| - 1]);
    }
  }

  /** Adding up a week's column over rows with distinct diseases counts the onsets of those diseases in that week. */
  lemma {:induction false} ColumnSumIsOnsets(rows: seq<DiseaseRow>, emptyWeeks: Counter,
                                             records: seq<NotificationRecord>, w: string)
    requires forall k :: k in emptyWeeks ==> emptyWeeks[k] == 0
    requires DistinctKeys(rows, Disease)
    requires forall i :: 0 <= i < |rows| ==> rows[i].weekCounts == RowCounts(emptyWeeks, records, rows[i].disease)
    ensures ColumnSum(rows, w) == multiset(OnsetsIn(records, Diseases(rows)))[w]
  {
    if rows == [] {
      OnsetsInNone(records, Diseases(rows));
    } else {
      var init, last := rows[..|rows| - 1], rows[|rows| - 1];
      assert forall i :: 0 <= i < |init| ==> init[i] == rows[i];
      ColumnSumIsOnsets(init, emptyWeeks, records, w);
      DiseasesSnoc(rows);
      RowCountAt(emptyWeeks, records, last.disease, w);
      OnsetsInSplit(records, Diseases(init), last.disease);
    }
  }

  /** `week_totals[w]` is the sum of `week_counts[w]` over all rows. */
  lemma ColumnTotals(cal: Calendar, data: ReportData, fetched: seq<NotificationRecord>,
                     domain: seq<Clause>, report: Report, w: string)
    requires ReportSpec(cal, data, fetched, domain, report)
    ensures Get(report.weekTotals, w) == ColumnSum(report.diseaseCounts, w)
  {
    var rows := report.diseaseCounts;
    var emptyWeeks := SeededWeeks(cal, data);
    ColumnSumIsOnsets(rows, emptyWeeks, fetched, w);
    ReportDiseasesAreNames(cal, data, fetched, domain, report);
    OnsetsInAll(fetched, Names(fetched));
  }

  /** The report's rows name exactly the diagnoses of the fetched notifications. */
  lemma ReportDiseasesAreNames(cal: Calendar, data: ReportData, fetched: seq<NotificationRecord>,
                               domain: seq<Clause>, report: Report)
    requires ReportSpec(cal, data, fetched, domain, report)
    ensures Diseases(report.diseaseCounts) == Names(fetched)
  {
    var rows := report.diseaseCounts;
    forall p | p in Names(fetched) ensures p in Diseases(rows) {
      var i :| 0 <= i < |rows| && rows[i].disease == p;
    }
  }

  /** The week totals add up to the number of fetched notifications. */
  lemma GrandTotal(cal: Calendar, data: ReportData, fetched: seq<NotificationRecord>,
                   domain: seq<Clause>, report: Report)
    requires ReportSpec(cal, data, fetched, domain, report)
    ensures Sum(report.weekTotals) == |fetched|
  {
    var emptyWeeks := SeededWeeks(cal, data);
    SumUpdate(emptyWeeks, Tally(AllOnsets(fetched)));
    SumTally(AllOnsets(fetched));
    SeededSumIsZero(emptyWeeks);
  }

  /** A record's onset label has a count of at least 1 in its disease's counts and in the week totals. */
  lemma OnsetCountedAt(emptyWeeks: Counter, records: seq<NotificationRecord>, k: nat)
    requires k < |records|
    ensures Get(RowCounts(emptyWeeks, records, records[k].diagnosisName), records[k].epiWeekOnset) >= 1
    ensures Get(WeekTotals(emptyWeeks, records), records[k].epiWeekOnset) >= 1
  {
    OnsetsInMember(records, {records[k].diagnosisName}, k);
    assert AllOnsets(records)[k] == records[k].epiWeekOnset;
  }

  /**
   * Every fetched notification is counted under its own onset label, in its
   * disease's row and in the totals, and that label is listed in `weeks`,
   * whether or not it is one of the seeded weeks.
   */
  lemma EveryOnsetCounted(cal: Calendar, data: ReportData, fetched: seq<NotificationRecord>,
                          domain: seq<Clause>, report: Report, k: nat)
    requires ReportSpec(cal, data, fetched, domain, report)
    requires k < |fetched|
    ensures fetched[k].epiWeekOnset in report.weeks
    ensures Get(report.weekTotals, fetched[k].epiWeekOnset) >= 1
    ensures exists i :: 0 <= i < |report.diseaseCounts| && report.diseaseCounts[i].disease == fetched[k].diagnosisName
                        && Get(report.diseaseCounts[i].weekCounts, fetched[k].epiWeekOnset) >= 1
  {
    var r := fetched[k];
    OnsetCountedAt(SeededWeeks(cal, data), fetched, k);
    assert r.diagnosisName in Names(fetched);
  }

  /** A record whose name is in the filter contributes its onset. */
  lemma {:induction false} OnsetsInMember(records: seq<NotificationRecord>, names: set<string>, k: nat)
    requires k < |records| && records[k].diagnosisName in names
    ensures records[k].epiWeekOnset in OnsetsIn(records, names)
  {
    if k > 0 {
      OnsetsInMember(records[1..], names, k - 1);
    }
  }

  // ---------------------------------------------------------------------------
  // Independence from the dict order

  /** Two lists of rows meeting the specification hold the same rows. */
  lemma RowsForSameRows(s: seq<DiseaseRow>, t: seq<DiseaseRow>, emptyWeeks: Counter, records: seq<NotificationRecord>)
    requires RowsFor(s, emptyWeeks, records) && RowsFor(t, emptyWeeks, records)
    ensures forall x :: x in s ==> x in t
  {
    forall x | x in s ensures x in t {
      var i :| 0 <= i < |s| && s[i] == x;
      var j :| 0 <= j < |t| && t[j].disease == x.disease;
      assert t[j] == x;
    }
  }

  /** Rows strictly sorted by disease are determined by which rows they hold. */
  lemma {:induction false} SortedRowsUnique(s: seq<DiseaseRow>, t: seq<DiseaseRow>)
    requires StrictlySortedBy(s, Disease) && StrictlySortedBy(t, Disease)
    requires forall x :: x in s <==> x in t
    ensures s == t
  {
    var ds := seq(|s|, i requires 0 <= i < |s| => s[i].disease);
    var dt := seq(|t|, i requires 0 <= i < |t| => t[i].disease);
    forall x ensures x in ds <==> x in dt {
      if x in ds {
        var i :| 0 <= i < |ds| && ds[i] == x;
        assert s[i] in s;
        var j :| 0 <= j < |t| && t[j] == s[i];
        assert dt[j] == x;
      }
      if x in dt {
        var j :| 0 <= j < |dt| && dt[j] == x;
        assert t[j] in t;
        var i :| 0 <= i < |s| && s[i] == t[j];
        assert ds[i] == x;
      }
    }
    StrictlySortedUnique(ds, dt);
    forall i | 0 <= i < |s| ensures s[i] == t[i] {
      assert s[i] in s;
      var j :| 0 <= j < |t| && t[j] == s[i];
      assert dt[j] == ds[i] == dt[i];
      assert Disease(t[j]) == Disease(t[i]);
    }
  }

  /**
   * `parse` gives one report whatever order it walks the counters in: any two
   * reports meeting the specification for the same inputs are equal.
   */
  lemma ReportDeterministic(cal: Calendar, data: ReportData, fetched: seq<NotificationRecord>,
                            domain1: seq<Clause>, report1: Report, domain2: seq<Clause>, report2: Report)
    requires ReportSpec(cal, data, fetched, domain1, report1)
    requires ReportSpec(cal, data, fetched, domain2, report2)
    ensures domain1 == domain2 && report1 == report2
  {
    var emptyWeeks := SeededWeeks(cal, data);
    RowsForSameRows(report1.diseaseCounts, report2.diseaseCounts, emptyWeeks, fetched);
    RowsForSameRows(report2.diseaseCounts, report1.diseaseCounts, emptyWeeks, fetched);
    SortedRowsUnique(report1.diseaseCounts, report2.diseaseCounts);
    StrictlySortedUnique(report1.weeks, report2.weeks);
  }
}
