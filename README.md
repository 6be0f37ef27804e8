# Disease notification case counts and spreadsheet import

This project models two parts of the GNU Health disease-notification module.

The first part is the **case count report** (`reports.py`). Its start form offers a date range and a
notification state, with `suspected` as the default. The wizard turns the form into a data dict. The
report's `parse` then:

- widens the dates to whole epidemiological weeks;
- lists the week labels of the range;
- searches the notifications by notification date and, optionally, by state;
- groups them by diagnosis name;
- counts the onset weeks of each disease on top of a zero-seeded counter;
- sums the rows into week totals;
- sorts the rows by disease and the weeks by label.

The model gives the fetched notifications to `Parse` as an input. It proves properties of the result:

- the search selects exactly the notifications in the date range with the chosen state;
- each row's total is that disease's number of notifications;
- every week total is the sum of its column;
- the grand total is the number of notifications;
- every notification is counted in its onset week;
- the report is fully determined by its inputs;
- the seeded weeks appear in every row.

It also proves that the week enumeration lists the end week twice when the start day is not after the
end day and the two days fall in weeks with different week numbers. This assumes a calendar whose
epidemiological weeks are regular seven-day blocks.

The second part is the **spreadsheet importer** (`tools/arbo_import.py`). A row of cells becomes
Tryton create-dicts according to a column map. The model covers:

- the cell checkers `isyes`, `isnotyes` and `isbool_true`;
- `make_altid`;
- the column-map interpreter `resolve_val`, which handles literals, 1-based columns, joined lists
  and checker tuples;
- `make_object`;
- the party name built in `make_party_patient`;
- the specimen and symptom assembly of `make_notification`.

Modules:

- `Optional` (optional.dfy): the Option type.
- `PyStrings` (pystrings.dfy): the Python string behaviour used here: ordering, `strip`, `lower`,
  substring membership and `' '.join`.
- `Counters` (counters.dfy): `collections.Counter` as a map from string to nat, with `update`, a
  tally of a list and the sum of the values.
- `Sorting` (sorting.dfy): `list.sort(key=...)` as an in-place insertion sort on an array.
- `EpiWeeks` (epiweeks.dfy): the calendar services the report takes from the hospital's utility
  module. They are a parameter.
- `CaseCount` (case_count.dfy): the start form, the wizard and `parse`.
- `CaseCountProperties` (case_count_props.dfy): the properties of the report.
- `ArboImport` (arbo_import.dfy): the importer.

## Model

| member | source | states |
|---|---|---|
| CaseCount.Lookup | reports.py:93-96 | `dict(pairs).get(key)`: None exactly when no pair has the key; otherwise the value of the last pair with that key |
| CaseCount.DefaultState | reports.py:33-35 | the default state of the start form is a state whose label in NOTIFICATION_STATES is "Suspected" |
| CaseCount.GenerateReportData | reports.py:52-66 | the start date and state are copied from the form; the end date is `on_or_before` when it is set and the start date otherwise |
| CaseCount.SelectStatus | reports.py:93-99 | a status query is made exactly when the state is truthy, and it is that state; the caption is "All" without a state, "Unknown" for a state missing from NOTIFICATION_STATES, and the state's label otherwise |
| CaseCount.EnumerateWeeks | reports.py:83-90 | the loop produces exactly the week-label list WeekLabels of the start and end weeks |
| CaseCount.GroupBy | reports.py:114-115 | `itertools.groupby` on the diagnosis name: the groups concatenate back to the input, each group is a run of one name, and neighbouring groups have different names |
| CaseCount.CountByDisease | reports.py:112-117 | after the loop, each disease's counter is the seeded weeks updated with the onset weeks of that disease's notifications, and the keys are exactly the diseases present |
| CaseCount.BuildRows | reports.py:118-122 | one row per disease with its counter and the sum of its counter, and the totals are the seeded counter updated with every disease's counter |
| CaseCount.MergedCountsAreWeekTotals | reports.py:113-120 | merging all the disease counters into the seeded counter gives the seeded weeks plus every notification's onset week |
| CaseCount.SortByDisease | reports.py:123 | the rows are sorted by disease and are a permutation of the input rows |
| CaseCount.SortedKeys | reports.py:125 | `sorted(epi_weeks.keys())`: strictly increasing and holding exactly the counter's keys |
| CaseCount.Parse | reports.py:76-132 | the domain, dates, caption, week totals, sorted weeks and sorted per-disease rows are the ones ReportSpec defines from the data and the fetched notifications |
| CaseCount.SearchDomain | reports.py:101-104 | `search_domain`: the two date clauses, `>=` start then `<` end, followed by a status clause exactly when there is a query; SelectionByNotificationDate gives what it selects |
| CaseCountProperties.SelectionByNotificationDate | reports.py:101-104 | a notification matches the search domain exactly when its notification date is in [start, end) and, when a state is set, its status equals that state |
| CaseCountProperties.SelectionIgnoresOnset | reports.py:101-104 | whether a notification is selected does not depend on its onset week |
| CaseCountProperties.NoStateNoStatusClause | reports.py:97-99 | without a state the caption is "All" and the domain has no status clause |
| CaseCountProperties.StateAddsOneStatusClause | reports.py:94-96 | with a state the domain ends with exactly one status clause for that state, and the caption is its label or "Unknown" |
| CaseCountProperties.DefaultStateLabel | reports.py:33-35 | the default state selects notifications with status "suspected" under the caption "Suspected" |
| CaseCountProperties.WeekLabelsShape | reports.py:83-90 | the first label is the start week's; within one week number there is a single label; otherwise the last label is the end week's and the middle labels are the week-steps from the start that fall before the end |
| CaseCountProperties.SeededWeeksAreZero | reports.py:92 | `empty_weeks` holds exactly the enumerated labels, all with count 0 |
| CaseCountProperties.EndWeekListedTwice | reports.py:84-90 | on a regular calendar, when the start day is not after the end day and their weeks differ, the list has at least three labels and its last two are both the end week's label |
| CaseCountProperties.SeedingDropsRepeatedEndWeek | reports.py:92 | on a regular calendar, when the start day is not after the end day and their weeks differ, `empty_weeks` has fewer keys than the list has labels |
| CaseCountProperties.SeededWeeksEverywhere | reports.py:113-125 | every seeded week is a week total, is listed in the weeks, and is a key of every disease row |
| CaseCountProperties.RowTotalIsRecordCount | reports.py:114-123 | each row's total is the number of fetched notifications of its disease; there is a row for a disease exactly when some notification has it; no disease has two rows |
| CaseCountProperties.ColumnTotals | reports.py:113-122 | the total of each week equals the sum of that week's counts over all rows |
| CaseCountProperties.GrandTotal | reports.py:113-120 | the week totals add up to the number of fetched notifications |
| CaseCountProperties.EveryOnsetCounted | reports.py:112-125 | each notification's onset week is listed and has a positive total, and the notification's disease row counts it in that week |
| CaseCountProperties.ReportDeterministic | reports.py:76-132 | two results that meet the report's specification for the same inputs are equal, rows and weeks included |
| Counters.Zeros | reports.py:92 | `dict(zip(keys, [0]*n))`: the keys are those of the list and every value is 0 |
| Counters.Tally | reports.py:117 | `Counter(list)`: a key is present iff it occurs in the list, and its count is its number of occurrences |
| Counters.Update | reports.py:116 | `Counter.update`: the keys are the union and every count is the sum |
| Counters.TallyAppend | reports.py:116-117 | tallying a concatenation equals updating one tally with the other |
| Counters.TallyOfPermutation | reports.py:117 | the tally does not depend on the order of the list |
| Counters.UpdateCommutative | reports.py:119-120 | updating the totals does not depend on the order of the rows |
| Counters.SumUpdate | reports.py:122 | the sum of the values of an update is the sum of both counters' values |
| Counters.SumTally | reports.py:122 | the sum of a tally's values is the length of the list |
| Counters.SumValues | reports.py:122 | `sum(c.values())` equals the sum of the counter |
| Sorting.SortByKey | reports.py:123 | `list.sort(key=...)`: the array becomes sorted by key and is a permutation of its old contents |
| ArboImport.IsYes | tools/arbo_import.py:22-28 | `isyes`: the flag is set exactly for None and strings; None reads as no; the answer is always a boolean, and for any other cell it is the cell's truthiness (IsYesMeaning gives the string case) |
| ArboImport.IsNotYes | tools/arbo_import.py:35-37 | the same flag as `isyes`, with the opposite truthiness |
| ArboImport.IsBoolTrue | tools/arbo_import.py:31-32 | always succeeds, and the value is truthy iff the cell is |
| ArboImport.IsYesMeaning | tools/arbo_import.py:22-28 | the flag is set iff the cell is None or a string; None means no; a string means yes iff its stripped, lower-cased text occurs somewhere in "yes true on 1"; any other cell gives its own truthiness |
| ArboImport.YesExamples | tools/arbo_import.py:26 | the empty string and "e" count as yes, because the check is substring membership |
| ArboImport.CaseAndBlanksIgnored | tools/arbo_import.py:26 | "Yes" and " ON " count as yes |
| ArboImport.NoExamples | tools/arbo_import.py:22-28 | "no" is a readable no; the number 1 gives an unset flag with a truthy value |
| ArboImport.Call | tools/arbo_import.py:179-182 | `fn(arg1, *args)`: a built-in checker called with extra arguments raises; without them `isyes`, `isnotyes` and `isbool_true` give their own answer for the cell; a database lookup gives whatever that lookup returns |
| ArboImport.Cell | tools/arbo_import.py:174-175 | `row[n - 1]`: 1-based for positive n; counted from the end for 1-len <= n <= 0; raises exactly when n > len or n <= -len |
| ArboImport.Kept | tools/arbo_import.py:177 | `filter(None, ...)` keeps exactly the truthy values |
| ArboImport.KeptAppend | tools/arbo_import.py:177 | `filter` keeps order and repeats: filtering a concatenation is the concatenation of the filtered parts |
| ArboImport.JoinTruthy | tools/arbo_import.py:177 | the join raises exactly when a kept value is not a string, and otherwise gives a string |
| ArboImport.Resolve | tools/arbo_import.py:171-187 | `resolve_val`: a string stands for itself, an int is the cell `row[n - 1]`, a list resolves to a string, a built-in checker tuple to a boolean, and anything else to None; JoinedMeaning gives the list case and ApplyMeaning the tuple case in full |
| ArboImport.ApplyMeaning | tools/arbo_import.py:178-187 | a tuple `(fn, arg, extra...)` resolves exactly when its argument resolves and `fn(arg1, *args)` returns with its flag set, and then it is the checker's value; otherwise it raises, and a built-in checker given extra arguments always raises |
| ArboImport.ResolveAll | tools/arbo_import.py:177 | the list comprehension gives one value per entry, and raises when its first entry raises |
| ArboImport.ResolveAllPointwise | tools/arbo_import.py:177 | the list comprehension succeeds iff every entry resolves, and then it holds their values in order |
| ArboImport.JoinedMeaning | tools/arbo_import.py:176-177 | a list entry resolves iff every part resolves and every truthy part is a string, and then it is the space-join of the truthy parts |
| ArboImport.YesColumnMeaning | tools/arbo_import.py:178-187 | `(isyes, col)` resolves iff the cell exists and is None or a string, and then gives `isyes`'s answer; otherwise it raises |
| ArboImport.ResolveReadsItsCells | tools/arbo_import.py:171-187 | an entry's value depends only on the cells it names |
| ArboImport.ObjectOf | tools/arbo_import.py:201-214 | a key is in the result iff it is in the initial dict or its entry resolves; resolved keys take the resolved value, and the others keep the initial value |
| ArboImport.MakeObject | tools/arbo_import.py:201-214 | the loop over the column map builds exactly ObjectOf |
| ArboImport.ObjectReadsItsCells | tools/arbo_import.py:201-214 | two rows that agree on the cells the map names give the same object |
| ArboImport.MakeAltId | tools/arbo_import.py:83-88 | succeeds iff the value is truthy, and then holds one create of type "other" with the value as code and the given type as comment |
| ArboImport.PartyNameAsWritten | tools/arbo_import.py:239-240 | as written, whenever both keys are present, the name is "{lastname}, {firstname}", even when one of them is None |
| ArboImport.PartyNameFallback | tools/arbo_import.py:239-243 | when a name key is absent, the `KeyError` path raises exactly when a truthy part is not a string; otherwise it gives the text of the one truthy name, or "" when neither name is truthy (both keys absent included) |
| ArboImport.EmptyLastNameCell | tools/arbo_import.py:238-240 | an empty last-name cell next to first name "Ann" gives the name "None, Ann" |
| ArboImport.PartyNameMeaning | tools/arbo_import.py:239-243 | corrected: with both names it is "Last, First" as before; with one name missing it is the other name; with neither it is "" |
| ArboImport.SymptomsMeaning | tools/arbo_import.py:299-310 | when assembly succeeds there is one symptom per yes-column, in column order, with that column's pathology, and a fever onset only on the fever column when its cell is truthy |
| ArboImport.SymptomsRaiseOnUninterpretable | tools/arbo_import.py:300-301 | a symptom column that is missing, or whose cell is neither None nor a string, makes the assembly raise |
| ArboImport.SymptomsRaiseOnMissingFeverOnset | tools/arbo_import.py:306-307 | when the fever column reads as yes and the row has no column 34, `resolve_val(row, 34)` raises and so does the assembly |
| ArboImport.SymptomsSucceed | tools/arbo_import.py:299-310 | conversely, the assembly succeeds when every symptom cell is None or text and column 34 exists whenever fever reads as yes |
| ArboImport.AddSymptomSucceeds | tools/arbo_import.py:301-309 | one iteration succeeds on a None or text cell, given column 34 exists when it is the fever column reading yes |
| ArboImport.AddSymptomMeaning | tools/arbo_import.py:301-309 | one column step succeeds only on a readable cell, and then appends an entry exactly when the cell says yes |
| ArboImport.AppendSymptom | tools/arbo_import.py:301-309 | one step of the loop computes AddSymptom, patching the fever onset into the last entry |
| ArboImport.BuildSymptoms | tools/arbo_import.py:299-310 | the loop over the symptom columns, each key of the map visited once, computes SymptomList |
| ArboImport.MakeNotification | tools/arbo_import.py:291-312 | the method computes NotificationOf: nothing for an empty object, and otherwise the fields, the patient, the specimen and the symptoms |
| ArboImport.SpecimenOnlyWhenTaken | tools/arbo_import.py:296-298 | with `specimen_taken` mapped to `(isbool_true, 59)`, a specimen is attached iff cell 59 is truthy, and it is the specimen object of the row |

## Left out

- The ORM calls `search` and `read` and their ordering are inputs: `Parse` receives the fetched notifications. `SelectionByNotificationDate` states which of them the domain selects.
- The call to `Report.parse` on the superclass, the template rendering and the `strftime` date strings are left out. The report's start and end instants are kept.
- The epidemiological week, time-zone and start-of-day functions come from a utility module that is not part of this model. They are a `Calendar` parameter. The properties about repeated end weeks assume its weeks are regular seven-day blocks (`Regular`).
- `CaseCountStartModel.__setup__`, which relabels the first selection entry, only changes the form's display and is left out. The `models.py` field declarations, `wizards.py`, the tests and `setup.py` are not part of this model.
- `lookup`, `selection_lookup`, `po_lookup` and `get_model` query the database. They appear only as `Foreign` checkers whose outcome is a parameter.
- `make_party_patient` searches for an existing party and patient, and fills in the alternative id, occupation, address and contact. Only its name step is modelled. `make_address` is left out.
- `process_xlfile`, the workbook reading and the command-line entry point are I/O and are left out.
- `COLMAP`, `SYMPTOM_MAP` and `SYMPTOM_IDS` are parameters. The iteration order of the symptom dict is the `columns` sequence, which lists every key once (`EachKeyOnce`).
- Cell values cover None, strings, integers, booleans and opaque objects. Dates, times and other objects are the `Object` case, which carries their text and their truth value (a midnight time or a zero interval is falsy). Float cells are left out. `lower` and `strip` are modelled for ASCII only.
- Notifications without a diagnosis or without an onset week are left out. `NotificationRecord` types `diagnosisName` and `epiWeekOnset` as strings. Both fields are optional in the notification model (models.py:44-50), so `parse` can read None for them. It then groups and counts them under a None key, which Python 2 sorts before every string in the row and week order.
- `make_notification` stores the patient, the specimens and the symptoms under dict keys. The model keeps them as separate fields of `Notification`.
- Exception types and messages collapse into `Raised`. The `print` in `make_object`'s error path is left out.
- CaseCount.SortByDisease: stability is not stated. Rows have distinct diseases, so the sorted order is unique anyway (`ReportDeterministic`).

## Findings

| source | as written | input that shows it | evidently intended | confidence | as-written member | corrected member |
|---|---|---|---|---|---|---|
| tools/arbo_import.py:239-243 | `"{lastname}, {firstname}".format(**party)` raises KeyError only when a key is absent. `make_object` stores an empty cell as None, so the key is present and the name becomes "None, Ann" | a row whose last-name cell (column 5) is empty and whose first-name cell (column 4) is "Ann" | an empty name part falls back to the space-join of the parts that are present, so the name is "Ann" | not executed | ArboImport.EmptyLastNameCell | ArboImport.PartyNameMeaning |
