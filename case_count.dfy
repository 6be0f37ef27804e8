/**
 * The case-count report of reports.py: the wizard that collects its
 * parameters (`CaseCountStartModel`, `CaseCountWizard.do_generate_report`)
 * and `CaseCountReport.parse`, which seeds a zero count for every epi-week of
 * the requested span, picks the status filter, groups the fetched
 * notifications by diagnosis name, counts them by onset week, and builds one
 * row per disease, sorted by disease, with per-week totals.
 */
module CaseCount {
  import opened Optional
  import opened PyStrings
  import opened Counters
  import opened Sorting
  import opened EpiWeeks

  // ---------------------------------------------------------------------------
  // Notification states (models.py)

  /** `NOTIFICATION_STATES`: (stored value, display name) pairs. */
  const NotificationStates: seq<(Option<string>, string)> := [
    (None, ""),
    (Some("suspected"), "Suspected"),
    (Some("confirmed"), "Confirmed"),
    (Some("discarded"), "Discarded (confirmed negative)")
  ]

  /** `dict(pairs).get(key)`: the value of the last pair with that key, None when no pair has it. */
  function Lookup(pairs: seq<(Option<string>, string)>, key: Option<string>): (r: Option<string>)
    ensures r.None? <==> forall i :: 0 <= i < |pairs| ==> pairs[i].0 != key
    ensures r.Some? ==> exists i :: 0 <= i < |pairs| && pairs[i] == (key, r.value)
                                    && forall j :: i < j < |pairs| ==> pairs[j].0 != key
  {
    if pairs == [] then None
    else if pairs[|pairs| - 1].0 == key then Some(pairs[|pairs| - 1].1)
    else Lookup(pairs[..|pairs| - 1], key)
  }

  // ---------------------------------------------------------------------------
  // The wizard

  /** The wizard's start form: start date, optional end date, optional state. */
  datatype CaseCountStart = CaseCountStart(onOrAfter: Day, onOrBefore: Option<Day>, state: Option<string>)

  /** `CaseCountStartModel.default_state`: the form opens on the state shown as "Suspected". */
  function DefaultState(): (s: Option<string>)
    ensures Lookup(NotificationStates, s) == Some("Suspected")
  {
    Some("suspected")
  }

  /** The `data` dict handed to the report. */
  datatype ReportData = ReportData(startDate: Day, endDate: Day, state: Option<string>)

  /** `do_generate_report`: the end date defaults to the start date and is overwritten by `on_or_before` when set. */
  method GenerateReportData(start: CaseCountStart) returns (data: ReportData)
    ensures data.startDate == start.onOrAfter && data.state == start.state
    ensures start.onOrBefore.Some? ==> data.endDate == start.onOrBefore.value
    ensures start.onOrBefore.None? ==> data.endDate == start.onOrAfter
  {
    data := ReportData(start.onOrAfter, start.onOrAfter, start.state);
    if start.onOrBefore.Some? {
      data := data.(endDate := start.onOrBefore.value);
    }
  }

  // ---------------------------------------------------------------------------
  // Status filter and search domain

  /** Python truthiness of `data['state']`: None and the empty string are false. */
  predicate IsSet(state: Option<string>)
  {
    state.Some? && state.value != ""
  }

  /** `query_status` (None standing for False) and the `selected_status` label. */
  datatype StatusFilter = StatusFilter(query: Option<string>, caption: string)

  /** The status part of `parse`: no filter and 'All', or the state and its display name ('Unknown' if it has none). */
  function SelectStatus(state: Option<string>): (f: StatusFilter)
    ensures f.query.Some? <==> IsSet(state)
    ensures f.query.Some? ==> f.query == state
    ensures !IsSet(state) ==> f.caption == "All"
    ensures IsSet(state) && Lookup(NotificationStates, state).None? ==> f.caption == "Unknown"
    ensures IsSet(state) && Lookup(NotificationStates, state).Some? ==> (state, f.caption) in NotificationStates
  {
    if IsSet(state) then
      StatusFilter(state, match Lookup(NotificationStates, state) case Some(l) => l case None => "Unknown")
    else
      StatusFilter(None, "All")
  }

  /** One clause of the search domain. */
  datatype Clause =
    | NotifiedOnOrAfter(bound: Instant)   // ('date_notified', '>=', bound)
    | NotifiedBefore(bound: Instant)      // ('date_notified', '<', bound)
    | StatusIs(value: string)             // ('status', '=', value)

  /** The `search_domain` of `parse`. */
  function SearchDomain(startDate: Instant, endDate: Instant, query: Option<string>): (domain: seq<Clause>)
    ensures |domain| == (if query.Some? then 3 else 2)
    ensures domain[0] == NotifiedOnOrAfter(startDate) && domain[1] == NotifiedBefore(endDate)
    ensures query.Some? ==> domain[2] == StatusIs(query.value)
  {
    var dates := [NotifiedOnOrAfter(startDate), NotifiedBefore(endDate)];
    if query.Some? then dates + [StatusIs(query.value)] else dates
  }

  /** A notification as `parse` reads it from the database. */
  datatype NotificationRecord = NotificationRecord(
    diagnosisName: string,
    status: Option<string>,
    dateNotified: Instant,
    epiWeekOnset: string)

  /** What one clause means for a stored notification. */
  predicate Holds(c: Clause, r: NotificationRecord)
  {
    match c
    case NotifiedOnOrAfter(t) => t <= r.dateNotified
    case NotifiedBefore(t) => r.dateNotified < t
    case StatusIs(s) => r.status == Some(s)
  }

  /** A notification matches a domain when it satisfies every clause. */
  predicate Satisfies(domain: seq<Clause>, r: NotificationRecord)
  {
    forall i :: 0 <= i < |domain| ==> Holds(domain[i], r)
  }

  // ---------------------------------------------------------------------------
  // Week enumeration

  /** The labels the `while` loop appends, for adder = k, k+1, ... while start + 7*adder days is before the end. */
  function WeekSteps(cal: Calendar, startDate: Instant, endDate: Instant, k: nat): seq<string>
    decreases endDate - startDate - WeekSeconds * k
  {
    var t := startDate + WeekSeconds * k;
    if t < endDate then [cal.instantLabel(t)] + WeekSteps(cal, startDate, endDate, k + 1) else []
  }

  /** The `all_weeks` list of `parse` for the given start and end weeks. */
  function WeekLabels(cal: Calendar, startWeek: EpiWeek, endWeek: EpiWeek): seq<string>
  {
    var startDate := cal.startOfDay(startWeek.first);
    var endDate := cal.startOfNextDay(endWeek.last);
    if SameWeekNumber(startWeek, endWeek) then [cal.weekLabel(startWeek)]
    else [cal.weekLabel(startWeek)] + WeekSteps(cal, startDate, endDate, 1) + [cal.weekLabel(endWeek)]
  }

  /** Builds `all_weeks` as `parse` does: start label, the 7-day steps before the end, then the end label. */
  method EnumerateWeeks(cal: Calendar, startWeek: EpiWeek, endWeek: EpiWeek) returns (allWeeks: seq<string>)
    ensures allWeeks == WeekLabels(cal, startWeek, endWeek)
  {
    var startDate := cal.startOfDay(startWeek.first);
    var endDate := cal.startOfNextDay(endWeek.last);
    allWeeks := [cal.weekLabel(startWeek)];
    if !SameWeekNumber(startWeek, endWeek) {
      var adder: nat := 1;
      while startDate + WeekSeconds * adder < endDate
        invariant allWeeks + WeekSteps(cal, startDate, endDate, adder)
                  == [cal.weekLabel(startWeek)] + WeekSteps(cal, startDate, endDate, 1)
        decreases endDate - startDate - WeekSeconds * adder
      {
        allWeeks := allWeeks + [cal.instantLabel(startDate + WeekSeconds * adder)];
        adder := adder + 1;
      }
      allWeeks := allWeeks + [cal.weekLabel(endWeek)];
    }
  }

  // ---------------------------------------------------------------------------
  // Grouping by diagnosis name (itertools.groupby)

  /** One group of `groupby`: a key and the consecutive records that have it. */
  datatype Group = Group(key: string, members: seq<NotificationRecord>)

  /** A group is a non-empty run of records that all carry its key. */
  predicate IsRun(g: Group)
  {
    g.members != [] && forall r :: r in g.members ==> r.diagnosisName == g.key
  }

  /** The records of the groups, in order. */
  function Flatten(groups: seq<Group>): seq<NotificationRecord>
  {
    if groups == [] then [] else groups[0].members + Flatten(groups[1..])
  }

  /** `groupby(records, key=diagnosis name)`: maximal runs of consecutive records with equal names. */
  function GroupBy(records: seq<NotificationRecord>): (groups: seq<Group>)
    ensures Flatten(groups) == records
    ensures forall i :: 0 <= i < |groups| ==> IsRun(groups[i])
    ensures forall i :: 0 < i < |groups| ==> groups[i - 1].key != groups[i].key
    ensures records != [] ==> groups != [] && groups[0].key == records[0].diagnosisName
  {
    if records == [] then []
    else
      var rest := GroupBy(records[1..]);
      var r := records[0];
      assert records == [r] + records[1..];
      if rest != [] && rest[0].key == r.diagnosisName then
        [Group(r.diagnosisName, [r] + rest[0].members)] + rest[1..]
      else
        [Group(r.diagnosisName, [r])] + rest
  }

  lemma {:induction false} FlattenSnoc(groups: seq<Group>, i: nat)
    requires i < |groups|
    ensures Flatten(groups[..i + 1]) == Flatten(groups[..i]) + groups[i].members
  {
    if i == 0 {
      assert groups[..1] == [groups[0]];
      assert Flatten([groups[0]]) == groups[0].members + Flatten([]);
    } else {
      assert groups[..i + 1][1..] == groups[1..][..i];
      assert groups[..i][1..] == groups[1..][..i - 1];
      FlattenSnoc(groups[1..], i - 1);
    }
  }

  // ---------------------------------------------------------------------------
  // What the counts are meant to be

  /** The diagnosis names that occur among the records. */
  function Names(records: seq<NotificationRecord>): set<string>
  {
    set r | r in records :: r.diagnosisName
  }

  /** `[x['epi_week_onset'] for x in records]`. */
  function AllOnsets(records: seq<NotificationRecord>): (s: seq<string>)
    ensures |s| == |records|
    ensures forall i :: 0 <= i < |records| ==> s[i] == records[i].epiWeekOnset
  {
    seq(|records|, i requires 0 <= i < |records| => records[i].epiWeekOnset)
  }

  /** The onset-week labels of the records whose diagnosis name is in names, in order. */
  function OnsetsIn(records: seq<NotificationRecord>, names: set<string>): (s: seq<string>)
    ensures |s| <= |records|
  {
    if records == [] then []
    else (if records[0].diagnosisName in names then [records[0].epiWeekOnset] else [])
         + OnsetsIn(records[1..], names)
  }

  /** The onset-week labels of the records with this diagnosis name: one per such record. */
  function Onsets(records: seq<NotificationRecord>, name: string): seq<string>
  {
    OnsetsIn(records, {name})
  }

  /** The week counts of a disease: the seeded weeks plus one count per record under its onset label. */
  function RowCounts(emptyWeeks: Counter, records: seq<NotificationRecord>, name: string): Counter
  {
    Update(emptyWeeks, Tally(Onsets(records, name)))
  }

  /** The per-week totals: the seeded weeks plus one count per record under its onset label. */
  function WeekTotals(emptyWeeks: Counter, records: seq<NotificationRecord>): Counter
  {
    Update(emptyWeeks, Tally(AllOnsets(records)))
  }

  lemma {:induction false} OnsetsInAppend(a: seq<NotificationRecord>, b: seq<NotificationRecord>, names: set<string>)
    ensures OnsetsIn(a + b, names) == OnsetsIn(a, names) + OnsetsIn(b, names)
  {
    if a != [] {
      assert (a + b)[1..] == a[1..] + b;
      OnsetsInAppend(a[1..], b, names);
    } else {
      assert a + b == b;
    }
  }

  /** Filtering by a set that holds every name keeps every record's onset. */
  lemma {:induction false} OnsetsInAll(records: seq<NotificationRecord>, names: set<string>)
    requires Names(records) <= names
    ensures OnsetsIn(records, names) == AllOnsets(records)
  {
    if records != [] {
      assert records[0] in records;
      assert Names(records[1..]) <= Names(records) by {
        forall r | r in records[1..] ensures r in records { }
      }
      OnsetsInAll(records[1..], names);
    }
  }

  /** Filtering by a set that holds none of the names keeps nothing. */
  lemma {:induction false} OnsetsInNone(records: seq<NotificationRecord>, names: set<string>)
    requires forall r :: r in records ==> r.diagnosisName !in names
    ensures OnsetsIn(records, names) == []
  {
    if records != [] {
      assert records[0] in records;
      OnsetsInNone(records[1..], names);
    }
  }

  /** Adding one more name to the filter adds exactly that name's onsets. */
  lemma {:induction false} OnsetsInSplit(records: seq<NotificationRecord>, names: set<string>, p: string)
    requires p !in names
    ensures multiset(OnsetsIn(records, names + {p}))
            == multiset(OnsetsIn(records, names)) + multiset(Onsets(records, p))
  {
    if records != [] {
      OnsetsInSplit(records[1..], names, p);
    }
  }

  /** A name that no record carries has no row counts beyond the seeded zeros. */
  lemma RowCountsOfAbsentName(emptyWeeks: Counter, records: seq<NotificationRecord>, p: string)
    requires p !in Names(records)
    ensures RowCounts(emptyWeeks, records, p) == emptyWeeks
  {
    OnsetsInNone(records, {p});
    Extensional(RowCounts(emptyWeeks, records, p), emptyWeeks);
  }

  /** Appending a run of records with key k adds their onset tally to k's row and leaves the others. */
  lemma RowCountsStep(emptyWeeks: Counter, before: seq<NotificationRecord>, g: Group, p: string)
    requires IsRun(g)
    ensures p == g.key ==> RowCounts(emptyWeeks, before + g.members, p)
                           == Update(RowCounts(emptyWeeks, before, p), Tally(AllOnsets(g.members)))
    ensures p != g.key ==> RowCounts(emptyWeeks, before + g.members, p) == RowCounts(emptyWeeks, before, p)
  {
    var a, b := Onsets(before, p), Onsets(g.members, p);
    assert Onsets(before + g.members, p) == a + b by {
      OnsetsInAppend(before, g.members, {p});
    }
    if p == g.key {
      assert b == AllOnsets(g.members) by {
        assert Names(g.members) <= {p};
        OnsetsInAll(g.members, {p});
      }
      assert Tally(a + b) == Update(Tally(a), Tally(b)) by {
        TallyAppend(a, b);
      }
      UpdateAssociative(emptyWeeks, Tally(a), Tally(b));
    } else {
      assert b == [] by {
        OnsetsInNone(g.members, {p});
      }
      assert a + b == a;
    }
  }

  // ---------------------------------------------------------------------------
  // The counting loops of parse

  /** Names of a run appended to some records: the names before plus the run's key. */
  lemma NamesAppendRun(before: seq<NotificationRecord>, g: Group)
    requires IsRun(g)
    ensures Names(before + g.members) == Names(before) + {g.key}
  {
    assert g.members[0] in g.members;
    forall r | r in before + g.members ensures r in before || r in g.members { }
  }

  /** The entry a step of the `groupby` loop writes for key p is p's row count over the records seen after the step. */
  lemma CountStepAt(counts: map<string, Counter>, emptyWeeks: Counter, before: seq<NotificationRecord>, g: Group, p: string)
    requires IsRun(g)
    requires p in counts || p == g.key
    requires counts.Keys == Names(before)
    requires p in counts ==> counts[p] == RowCounts(emptyWeeks, before, p)
    ensures p == g.key ==> Update(if p in counts then counts[p] else emptyWeeks, Tally(AllOnsets(g.members)))
                           == RowCounts(emptyWeeks, before + g.members, p)
    ensures p != g.key ==> counts[p] == RowCounts(emptyWeeks, before + g.members, p)
  {
    RowCountsStep(emptyWeeks, before, g, p);
    if p !in counts {
      RowCountsOfAbsentName(emptyWeeks, before, p);
    }
  }

  /** The counters hold one entry per diagnosis name among the records: that name's row counts. */
  ghost predicate CountsFor(counts: map<string, Counter>, emptyWeeks: Counter, records: seq<NotificationRecord>)
  {
    && counts.Keys == Names(records)
    && forall p :: p in counts ==> counts[p] == RowCounts(emptyWeeks, records, p)
  }

  /** One step of the `groupby` loop keeps every entry equal to its row count over the records seen so far. */
  lemma CountStepValues(counts: map<string, Counter>, emptyWeeks: Counter, before: seq<NotificationRecord>, g: Group,
                        next: map<string, Counter>)
    requires IsRun(g)
    requires CountsFor(counts, emptyWeeks, before)
    requires next == counts[g.key := Update(if g.key in counts then counts[g.key] else emptyWeeks, Tally(AllOnsets(g.members)))]
    ensures forall p :: p in next ==> next[p] == RowCounts(emptyWeeks, before + g.members, p)
  {
    forall p | p in next
      ensures next[p] == RowCounts(emptyWeeks, before + g.members, p)
    {
      CountStepAt(counts, emptyWeeks, before, g, p);
    }
  }

  /** One step of the `groupby` loop keeps the counters equal to the row counts of the records seen so far. */
  lemma CountStep(counts: map<string, Counter>, emptyWeeks: Counter, before: seq<NotificationRecord>, g: Group)
    requires IsRun(g)
    requires CountsFor(counts, emptyWeeks, before)
    ensures var row := if g.key in counts then counts[g.key] else emptyWeeks;
            CountsFor(counts[g.key := Update(row, Tally(AllOnsets(g.members)))], emptyWeeks, before + g.members)
  {
    var row := if g.key in counts then counts[g.key] else emptyWeeks;
    var next := counts[g.key := Update(row, Tally(AllOnsets(g.members)))];
    CountStepKeys(counts, before, g, Update(row, Tally(AllOnsets(g.members))));
    CountStepValues(counts, emptyWeeks, before, g, next);
  }

  /** Writing the run's key into counters keyed by the names seen so far gives counters keyed by the names after the run. */
  lemma CountStepKeys(counts: map<string, Counter>, before: seq<NotificationRecord>, g: Group, row: Counter)
    requires IsRun(g)
    requires counts.Keys == Names(before)
    ensures counts[g.key := row].Keys == Names(before + g.members)
  {
    NamesAppendRun(before, g);
  }

  /**
   * The `groupby` loop: for each run of equally named records,
   * `counts.setdefault(name, Counter(empty_weeks)).update(Counter(onsets))`.
   */
  method CountByDisease(records: seq<NotificationRecord>, emptyWeeks: Counter)
    returns (counts: map<string, Counter>)
    ensures CountsFor(counts, emptyWeeks, records)
  {
    var groups := GroupBy(records);
    counts := map[];
    for i := 0 to |groups|
      invariant CountsFor(counts, emptyWeeks, Flatten(groups[..i]))
    {
      var g := groups[i];
      CountStep(counts, emptyWeeks, Flatten(groups[..i]), g);
      FlattenSnoc(groups, i);
      var row := if g.key in counts then counts[g.key] else emptyWeeks;
      counts := counts[g.key := Update(row, Tally(AllOnsets(g.members)))];
    }
    assert groups[..|groups|] == groups;
  }

  /** One row of `disease_counts`. */
  datatype DiseaseRow = DiseaseRow(weekCounts: Counter, disease: string, total: nat)

  /** The sort key of `count_out.sort(key=lambda x: x['disease'])`. */
  function Disease(row: DiseaseRow): string
  {
    row.disease
  }

  /** The rows are one per diagnosis name among the records, each with that name's counts and their sum. */
  ghost predicate RowsFor(rows: seq<DiseaseRow>, emptyWeeks: Counter, records: seq<NotificationRecord>)
  {
    && DistinctKeys(rows, Disease)
    && (forall i :: 0 <= i < |rows| ==>
          && rows[i].disease in Names(records)
          && rows[i].weekCounts == RowCounts(emptyWeeks, records, rows[i].disease)
          && rows[i].total == Sum(rows[i].weekCounts))
    && (forall p :: p in Names(records) ==> exists i :: 0 <= i < |rows| && rows[i].disease == p)
  }

  /** Merging one more disease's row into the totals adds that disease's onsets. */
  lemma TotalsStep(emptyWeeks: Counter, records: seq<NotificationRecord>, done: set<string>, p: string)
    requires forall k :: k in emptyWeeks ==> emptyWeeks[k] == 0
    requires p !in done
    ensures Update(Update(emptyWeeks, Tally(OnsetsIn(records, done))), RowCounts(emptyWeeks, records, p))
            == Update(emptyWeeks, Tally(OnsetsIn(records, done + {p})))
  {
    var a, b := OnsetsIn(records, done), Onsets(records, p);
    OnsetsInSplit(records, done, p);
    TallyOfPermutation(OnsetsIn(records, done + {p}), a + b);
    TallyAppend(a, b);
    UpdateAssociative(Update(emptyWeeks, Tally(a)), emptyWeeks, Tally(b));
    UpdateWithZeros(Update(emptyWeeks, Tally(a)), emptyWeeks);
    UpdateAssociative(emptyWeeks, Tally(a), Tally(b));
  }

  /** The rows built so far: one per name in done, each holding that name's counter and its sum. */
  ghost predicate RowsOf(rows: seq<DiseaseRow>, counts: map<string, Counter>, done: set<string>)
  {
    && done <= counts.Keys
    && DistinctKeys(rows, Disease)
    && (forall i :: 0 <= i < |rows| ==>
          && rows[i].disease in done
          && rows[i].weekCounts == counts[rows[i].disease]
          && rows[i].total == Sum(rows[i].weekCounts))
    && (forall p :: p in done ==> exists i :: 0 <= i < |rows| && rows[i].disease == p)
  }

  /** Appending the row of a name not yet done keeps the rows one per done name. */
  lemma RowsOfStep(rows: seq<DiseaseRow>, counts: map<string, Counter>, done: set<string>, p: string, total: nat)
    requires RowsOf(rows, counts, done)
    requires p in counts && p !in done
    requires total == Sum(counts[p])
    ensures RowsOf(rows + [DiseaseRow(counts[p], p, total)], counts, done + {p})
  {
    var rows' := rows + [DiseaseRow(counts[p], p, total)];
    assert rows'[|rows|].disease == p;
    forall q | q in done + {p} ensures exists i :: 0 <= i < |rows'| && rows'[i].disease == q {
      if q != p {
        var i :| 0 <= i < |rows| && rows[i].disease == q;
        assert rows'[i].disease == q;
      }
    }
  }

  /** Reordering the rows keeps them one per done name. */
  lemma RowsOfPermutation(s: seq<DiseaseRow>, t: seq<DiseaseRow>, counts: map<string, Counter>, done: set<string>)
    requires multiset(s) == multiset(t)
    requires RowsOf(t, counts, done)
    ensures RowsOf(s, counts, done)
  {
    PermutationKeepsDistinctKeys(s, t, Disease);
    forall i | 0 <= i < |s| ensures s[i] in t {
      assert s[i] in multiset(s);
    }
    forall p | p in done ensures exists i :: 0 <= i < |s| && s[i].disease == p {
      var j :| 0 <= j < |t| && t[j].disease == p;
      assert t[j] in multiset(t);
      var i :| 0 <= i < |s| && s[i] == t[j];
    }
  }

  /** Once every name is done, the rows are the rows the report is meant to have. */
  lemma RowsOfAll(rows: seq<DiseaseRow>, counts: map<string, Counter>, emptyWeeks: Counter, records: seq<NotificationRecord>)
    requires RowsOf(rows, counts, counts.Keys)
    requires CountsFor(counts, emptyWeeks, records)
    ensures RowsFor(rows, emptyWeeks, records)
  {
  }

  /** Merging the row counts of the names in ks into the seeded weeks counts the onsets of those names. */
  lemma {:induction false} MergedRowCounts(counts: map<string, Counter>, emptyWeeks: Counter,
                                           records: seq<NotificationRecord>, ks: set<string>)
    requires forall k :: k in emptyWeeks ==> emptyWeeks[k] == 0
    requires ks <= counts.Keys
    requires forall p :: p in ks ==> counts[p] == RowCounts(emptyWeeks, records, p)
    ensures Update(emptyWeeks, MergeOver(counts, ks)) == Update(emptyWeeks, Tally(OnsetsIn(records, ks)))
    decreases ks
  {
    if ks == {} {
      OnsetsInNone(records, ks);
      assert Tally([]) == MergeOver(counts, ks);
    } else {
      var k :| k in ks;
      var others := ks - {k};
      MergedRowCounts(counts, emptyWeeks, records, others);
      MergeOverStep(emptyWeeks, counts, others, k);
      assert others + {k} == ks;
      TotalsStep(emptyWeeks, records, others, k);
    }
  }

  /** The week totals `parse` builds from the per-disease counters are the week totals of all the records. */
  lemma MergedCountsAreWeekTotals(counts: map<string, Counter>, emptyWeeks: Counter, records: seq<NotificationRecord>)
    requires forall k :: k in emptyWeeks ==> emptyWeeks[k] == 0
    requires CountsFor(counts, emptyWeeks, records)
    ensures Update(emptyWeeks, MergeOver(counts, counts.Keys)) == WeekTotals(emptyWeeks, records)
  {
    MergedRowCounts(counts, emptyWeeks, records, counts.Keys);
    OnsetsInAll(records, counts.Keys);
  }

  /**
   * The `counts.items()` loop: one row per disease with `sum(c.values())` as
   * its total, and `epi_weeks.update(c)` of every counter into the totals,
   * which start as the seeded weeks. Dict order is arbitrary, so the loop
   * takes any key next.
   */
  method BuildRows(counts: map<string, Counter>, emptyWeeks: Counter)
    returns (rows: seq<DiseaseRow>, totals: Counter)
    ensures RowsOf(rows, counts, counts.Keys)
    ensures totals == Update(emptyWeeks, MergeOver(counts, counts.Keys))
  {
    rows := [];
    totals := emptyWeeks;
    var rest := counts.Keys;
    ghost var done: set<string> := {};
    Extensional(totals, Update(emptyWeeks, MergeOver(counts, done)));
    while rest != {}
      invariant done + rest == counts.Keys && done !! rest
      invariant totals == Update(emptyWeeks, MergeOver(counts, done))
      invariant RowsOf(rows, counts, done)
      decreases rest
    {
      var p :| p in rest;
      var c := counts[p];
      var total := SumValues(c);
      MergeOverStep(emptyWeeks, counts, done, p);
      RowsOfStep(rows, counts, done, p, total);
      totals := Update(totals, c);
      rows := rows + [DiseaseRow(c, p, total)];
      rest := rest - {p};
      done := done + {p};
    }
    assert done == counts.Keys;
  }

  /** `count_out.sort(key=lambda x: x['disease'])`, on an array holding `count_out`. */
  method SortByDisease(rows: seq<DiseaseRow>) returns (sorted: seq<DiseaseRow>)
    ensures multiset(sorted) == multiset(rows)
    ensures SortedBy(sorted, Disease)
  {
    var a := new DiseaseRow[|rows|](i requires 0 <= i < |rows| => rows[i]);
    assert a[..] == rows;
    SortByKey(a, Disease);
    sorted := a[..];
  }

  /** `sorted(c.keys())`: the keys of c, each once, in Python's string order. */
  method SortedKeys(c: Counter) returns (keys: seq<string>)
    ensures StrictlySortedBy(keys, Identity)
    ensures forall k :: k in keys <==> k in c
  {
    var listed: seq<string> := [];
    var rest := c.Keys;
    while rest != {}
      invariant rest <= c.Keys
      invariant forall k :: k in listed <==> k in c.Keys - rest
      invariant DistinctKeys(listed, Identity)
      decreases rest
    {
      var k :| k in rest;
      assert k !in listed;
      listed := listed + [k];
      rest := rest - {k};
    }
    var a := new string[|listed|](i requires 0 <= i < |listed| => listed[i]);
    assert a[..] == listed;
    SortByKey(a, Identity);
    keys := a[..];
    PermutationKeepsDistinctKeys(keys, listed, Identity);
    SortedDistinctIsStrict(keys, Identity);
    forall k ensures k in keys <==> k in listed {
      assert k in keys <==> k in multiset(keys);
      assert k in listed <==> k in multiset(listed);
    }
  }

  // ---------------------------------------------------------------------------
  // parse

  /** What `parse` puts in the report context. */
  datatype Report = Report(
    weeks: seq<string>,
    diseaseCounts: seq<DiseaseRow>,
    weekTotals: Counter,
    startDate: Instant,
    endDate: Instant,
    status: string)

  /**
   * The report `parse` produces for a data dict and the notifications its
   * search returned: the search domain and status label come from the data;
   * the week totals and the rows count every fetched notification under its
   * onset label on top of the seeded weeks; rows are one per disease and
   * sorted by disease; weeks are the sorted keys of the totals.
   */
  ghost predicate ReportSpec(cal: Calendar, data: ReportData, fetched: seq<NotificationRecord>,
                             domain: seq<Clause>, report: Report)
  {
    var startWeek := cal.epiWeek(data.startDate);
    var endWeek := cal.epiWeek(data.endDate);
    var startDate := cal.startOfDay(startWeek.first);
    var endDate := cal.startOfNextDay(endWeek.last);
    var emptyWeeks := Zeros(WeekLabels(cal, startWeek, endWeek));
    var filter := SelectStatus(data.state);
    && domain == SearchDomain(startDate, endDate, filter.query)
    && report.startDate == startDate
    && report.endDate == endDate
    && report.status == filter.caption
    && report.weekTotals == WeekTotals(emptyWeeks, fetched)
    && StrictlySortedBy(report.weeks, Identity)
    && (forall w :: w in report.weeks <==> w in report.weekTotals)
    && StrictlySortedBy(report.diseaseCounts, Disease)
    && RowsFor(report.diseaseCounts, emptyWeeks, fetched)
  }

  /**
   * `CaseCountReport.parse`. The search itself is the database's; `fetched`
   * stands for the notifications it returned for `domain`.
   */
  method Parse(cal: Calendar, data: ReportData, fetched: seq<NotificationRecord>)
    returns (domain: seq<Clause>, report: Report)
    ensures ReportSpec(cal, data, fetched, domain, report)
  {
    var startWeek := cal.epiWeek(data.startDate);
    var startDate := cal.startOfDay(startWeek.first);
    var endWeek := cal.epiWeek(data.endDate);
    var endDate := cal.startOfNextDay(endWeek.last);
    var allWeeks := EnumerateWeeks(cal, startWeek, endWeek);
    var emptyWeeks := Zeros(allWeeks);
    var filter := SelectStatus(data.state);
    domain := SearchDomain(startDate, endDate, filter.query);
    var counts := CountByDisease(fetched, emptyWeeks);
    var countOut, epiWeeks := BuildRows(counts, emptyWeeks);
    var sortedRows := SortByDisease(countOut);
    RowsOfPermutation(sortedRows, countOut, counts, counts.Keys);
    SortedDistinctIsStrict(sortedRows, Disease);
    RowsOfAll(sortedRows, counts, emptyWeeks, fetched);
    MergedCountsAreWeekTotals(counts, emptyWeeks, fetched);
    var weeks := SortedKeys(epiWeeks);
    report := Report(weeks, sortedRows, epiWeeks, startDate, endDate, filter.caption);
  }
}
