# Sales and traffic dashboards: a verified model of the data pipeline

Two Streamlit dashboards read daily point-of-sale exports from an Excel workbook and
summarise them.

- **The sales dashboard** (`sales_dashboard.py`). Each sheet of the workbook is one trading
  day. The header block at the top of a sheet gives the date and the day name. A
  "Run Financial Control Report" section below it gives the financial metrics, and a
  "Time Slots" table gives sales and transactions per slot. From these the dashboard builds:
  - a daily table, ordered by date, where each day carries its Thursday-to-Wednesday sales
    week and its slot totals;
  - weekly totals, with average ticket, average daily sales, discount rate and the
    week-over-week change;
  - a drill-down into one day: its slots in time order, its totals, and its peak and slow
    slots, chosen by quantile thresholds.
- **The traffic dashboard** (`dashboard.py`). Each sheet holds a table of 15-minute slots
  with a "Total" column. For each sheet it:
  - finds the header row;
  - keeps only the rows whose time parses, which drops the summary row;
  - computes per-day statistics: slot count, total, mean, maximum, minimum, sample
    standard deviation and coefficient of variation;
  - drills down into one day, with peak and slow tables and a Peak/Slow/Normal label for
    each slot.

The model represents a workbook as a sequence of named sheets. Each sheet is a
rectangular grid of cells, and a cell is blank, text, or a number together with its text.
Dates are proleptic Gregorian day numbers, as Python's `date.toordinal()` gives them.
Money and traffic counts are `real`.

Three library services are parameters of the model:
- `num`: pandas' text-to-number conversion;
- `parseDate`: pandas' free-form date parsing;
- `sqrt`: the square root used for the standard deviation.

On top of these the model computes what the source computes, with two deliberate
departures: the sales week is the corrected one described under "## Findings", and a few
pandas failures are modelled as ordinary results or not at all. Both are listed under
"## Left out". Quantiles use numpy's linear interpolation over `real`.

The modules follow the program's structure:

| file | module | what it models |
|---|---|---|
| text.dfy | Text | `strip`, `lower`, substring tests, string order |
| cells.dfy | Cells | cells, frames, `str(cell)`, `to_numeric` |
| calendar.dfy | Calendar | Gregorian ordinals, weekday, year, month and day |
| clock.dfy | Clock | `strptime`/`strftime` for the three time formats, `parse_times`, `sort_time_slot` |
| sorting.dfy | Sorting | `sort_values` (sorted permutation) and boolean masks |
| stats.dfy | Stats | sum, mean, min, max, sample variance, linear quantile |
| sales_week.dfy | SalesWeek | `get_sales_week`: as written, and corrected |
| extractors.dfy | Extractors | `extract_date_info`, `extract_financial_metrics`, `find_table_start_row`, `extract_timeslot_table` |
| workbook.dfy | Workbook | `load_workbook` |
| weekly.dfy | Weekly | the weekly analysis and week-over-week change |
| ranking.dfy | Ranking | peak/slow thresholds and tables, shared by both dashboards |
| salesday.dfy | SalesDay | the sales dashboard's day drill-down |
| traffic.dfy | Traffic | `parse_times`, `load_day_sheet`, `load_all_days` |
| traffic_day.dfy | TrafficDay | the traffic dashboard's day drill-down and staffing labels |

The scanning loops of the source become methods with loop invariants, each proved equal
to a specification function:
- `ScanDateInfo`, `ScanFinancialMetrics`, `FindTableStartRow`, `ChooseColumns`;
- `LoadSheets`, `FindTotalHeader`, `LoadAllDays`;
- `LabelSlots`, which overwrites a label array in two passes.

Lemmas then state what the source promises about those specification functions.

## Model

| member | source | states |
|---|---|---|
| Calendar.YearOf | sales_dashboard.py:44 | `date.year`: the year whose 1 January is on or before the date and whose next 1 January is after it |
| Calendar.YearOfUnique | sales_dashboard.py:44 | that year is the only one with this property |
| Calendar.MonthDay | sales_dashboard.py:219 | the month (1..12) and day of month (1..month length) that `%b %d` prints, and they decode back to the same day number |
| Cells.KeyOf | sales_dashboard.py:69 | a blank key cell reads as the empty key |
| Cells.ToNumber | sales_dashboard.py:30-31 | `to_numeric(errors="coerce")`: blank gives no number, a numeric cell gives its own value |
| Text.Lower | sales_dashboard.py:73 | `lower()` keeps the length, leaves no capital A-Z, turns each capital into its small letter and keeps every other character |
| Text.LowerIdempotent | sales_dashboard.py:73 | lower-casing twice is lower-casing once |
| Text.LowerAppend | sales_dashboard.py:73 | lower-casing distributes over concatenation |
| Text.LexLeTotal | dashboard.py:110 | any two day names are ordered one way or the other |
| Text.LexLeTransitive | dashboard.py:110 | the string order is transitive |
| Text.LexLeAntisymmetric | dashboard.py:110 | names ordered both ways are equal |
| Clock.Parse | dashboard.py:34-36 | a parsed time is a valid time of day; the minute formats give second 0; the text ends in AM or PM |
| Clock.TotalNeverParses | dashboard.py:68-70 | the label "Total" parses in no format |
| Clock.ParseRender | dashboard.py:34-36 | parsing a time printed in a format gives that time back |
| Clock.HourMinute24 | dashboard.py:73 | `%H:%M` is five characters with a colon in the middle |
| Clock.HourMinute24Injective | dashboard.py:73 | two times print the same `%H:%M` exactly when hour and minute agree |
| Clock.ParseAllAppend | dashboard.py:34 | `pd.to_datetime` parses each label on its own: parsing two runs of labels is parsing each run |
| Clock.ParseTimes | dashboard.py:33-37 | "%I:%M:%S%p" is used when any label parses that way; otherwise every label is parsed with "%I:%M%p" |
| Clock.ParseTimesOneFormat | dashboard.py:34-36 | all parsed labels of one call were parsed in the same format |
| Clock.BeforeSeparator | sales_dashboard.py:646 | `split(" - ")[0]`: the longest prefix with no " - " in it, ending at the first separator |
| Clock.BeforeDash | sales_dashboard.py:646 | in "a - rest", the slot's start is `a` |
| Clock.SortTimeSlot | sales_dashboard.py:644-650 | the key is (999, 999) exactly when the start does not parse as "%I:%M %p"; otherwise it is a valid (hour, minute) |
| Clock.SortTimeSlotOfLabel | sales_dashboard.py:646-648 | a label "hh:mm AM - ..." gets the 24-hour (hour, minute) of its start as key |
| Clock.UnparsedSortLast | sales_dashboard.py:649-653 | a slot that does not parse sorts strictly after every slot that does |
| Sorting.SortBy | sales_dashboard.py:211 | `sort_values`: the result is sorted by the key and is a permutation of the input |
| Sorting.SortedUnique | sales_dashboard.py:211 | when the key tells distinct rows apart, any two sorted permutations of the same rows are equal, so an unstable sort gives the same table |
| Sorting.Filter | dashboard.py:154 | a boolean mask keeps exactly the rows that satisfy it |
| Sorting.FilterMultiset | dashboard.py:159-160 | a mask keeps every occurrence of a satisfying row and none of the others |
| Stats.SumAppend | dashboard.py:101 | the sum of two concatenated columns is the sum of their sums |
| Stats.Max | dashboard.py:103 | the maximum is in the column and no element exceeds it |
| Stats.Min | dashboard.py:104 | the minimum is in the column and no element is below it |
| Stats.MeanTimesCount | dashboard.py:94 | mean times count is the sum |
| Stats.MeanWithin | dashboard.py:94 | the mean lies within any bounds that hold for every element |
| Stats.MeanBounds | dashboard.py:94 | minimum <= mean <= maximum |
| Stats.SumBounds | dashboard.py:101 | count times lower bound <= sum <= count times upper bound |
| Stats.SampleVariance | dashboard.py:95 | the ddof=1 variance is never negative |
| Stats.StdDev | dashboard.py:95 | `std(ddof=1)` is undefined exactly for fewer than two values |
| Stats.ConstantDeviations | dashboard.py:95 | a constant column has no squared deviation |
| Stats.Ascending | dashboard.py:156 | the values are sorted ascending and keep their multiset |
| Stats.Position | dashboard.py:156 | the interpolation position `(n-1)q` lies within the column |
| Stats.PositionMonotone | dashboard.py:156-157 | a larger quantile has a later position |
| Stats.InterpolateBetween | dashboard.py:156 | linear interpolation lies between the two neighbouring sorted values |
| Stats.InterpolateMonotone | dashboard.py:156-157 | interpolation is monotone in the position |
| Stats.AscendingFirst | dashboard.py:156 | the first sorted value is the minimum |
| Stats.AscendingLast | dashboard.py:156 | the last sorted value is the maximum |
| Stats.QuantileWithin | dashboard.py:156-157 | a quantile lies between the first and last sorted values; q = 0 and q = 1 give them exactly |
| Stats.QuantileBounds | dashboard.py:156-157 | a quantile lies between minimum and maximum; q = 0 gives the minimum, q = 1 the maximum |
| Stats.QuantileMonotone | dashboard.py:156-157 | a larger q never gives a smaller quantile |
| Ranking.Threshold | sales_dashboard.py:655-656 | `quantile` of an empty column is missing (NaN); otherwise it lies between the column's minimum and maximum |
| Ranking.SlowBelowPeak | sales_dashboard.py:655-656 | with the slider ranges (Top 1-30 %, Bottom 1-50 %) both thresholds exist together, and the slow one is at most the peak one |
| Ranking.SumValuesPermuted | sales_dashboard.py:653-659 | reordering rows does not change a column's sum |
| Ranking.Peaks | sales_dashboard.py:718 | the peak table holds every row with value >= threshold, as often as it occurs and nothing else, in descending order |
| Ranking.Slows | sales_dashboard.py:731 | the slow table holds every row with value <= threshold, as often as it occurs and nothing else, in ascending order |
| Ranking.HighestIsPeak | dashboard.py:159 | the day's highest row is always a peak |
| Ranking.LowestIsSlow | dashboard.py:160 | the day's lowest row is always slow |
| Ranking.PeaksNonEmpty | sales_dashboard.py:718 | a day with rows has a peak |
| Ranking.SlowsNonEmpty | sales_dashboard.py:731 | a day with rows has a slow row |
| Ranking.PeakAndSlow | dashboard.py:159-160 | a row in both tables sits exactly on both thresholds, which are then equal |
| SalesWeek.DaysSinceThursday | sales_dashboard.py:40 | the days since Thursday are 0..6 |
| SalesWeek.ThursdayOnOrBefore | sales_dashboard.py:40-41 | `week_start` is a Thursday, on or at most six days before the date |
| SalesWeek.AsWrittenContainsDate | sales_dashboard.py:40-41 | as written: the week starts on a Thursday and contains the date |
| SalesWeek.AsWrittenFallbackUnreachable | sales_dashboard.py:44-54 | as written: `week_start >= first_thursday` always, so the "previous year, week 52" branch never runs and the year is `week_start.year` |
| SalesWeek.AsWrittenNumberRange | sales_dashboard.py:44-54 | as written: week numbers run 1..54, and week 1 occurs only in years that begin on a Thursday |
| SalesWeek.AsWrittenIdempotent | sales_dashboard.py:40-56 | as written: the week of `week_start` is the same week |
| SalesWeek.AsWrittenWeek54 | sales_dashboard.py:45-54 | as written: Thursday 31 December 2020 is week 54 of 2020 |
| SalesWeek.AsWrittenSecondWeekFirst | sales_dashboard.py:45-54 | as written: the first Thursday of 2025 (2 January) is numbered week 2 |
| SalesWeek.AsWrittenNoWeekOne2025 | sales_dashboard.py:45-54 | as written: no date has week 1 of 2025 |
| SalesWeek.FirstThursdayOnOrAfter | sales_dashboard.py:45-47 | the corrected anchor: the Thursday on or at most six days after 1 January |
| SalesWeek.SalesWeekContainsDate | sales_dashboard.py:40-44 | corrected: the week starts on the Thursday on or before the date, and that Thursday lies in the week's year |
| SalesWeek.SalesWeekNumberRange | sales_dashboard.py:44-54 | corrected: week numbers run 1..53, and week 1 is exactly the week whose Thursday falls in the year's first seven days |
| SalesWeek.SalesWeekIdempotent | sales_dashboard.py:40-56 | corrected: the week of `week_start` is the same week |
| SalesWeek.SameWeekIffSameStart | sales_dashboard.py:40-56 | corrected: two dates have the same (year, number, start) exactly when their weeks start on the same Thursday |
| SalesWeek.SalesWeekNext | sales_dashboard.py:40-54 | corrected: seven days later starts the next week, whose number is one higher in the same year, or week 1 of the next year (as written, week 54 of 2020 is followed by week 2 of 2021) |
| SalesWeek.AsWrittenAgreesWhenYearStartsThursday | sales_dashboard.py:45-54 | the source and the corrected version agree in years that begin on a Thursday |
| SalesWeek.AsWrittenOneAheadOtherwise | sales_dashboard.py:45-54 | in other years the source's week number is one more than the corrected one, in the same year |
| Extractors.DateScanEnd | sales_dashboard.py:80-81 | the scan reads at most all lines |
| Extractors.LastLineWithKey | sales_dashboard.py:74-77 | the line that last assigned a key: the last line with it before the end, or none if no line has it |
| Extractors.DateInfoUpToStep | sales_dashboard.py:68-81 | one more line overwrites "date" or "day_name" when its key is "date" or "day", and otherwise changes nothing |
| Extractors.ScanDateInfo | sales_dashboard.py:68-83 | the loop returns the values of the last "date" and "day" lines up to and including the first "run financial" line |
| Extractors.ExtractDateInfo | sales_dashboard.py:59-83 | fewer than two columns give an empty result; otherwise the result of the scan |
| Extractors.DateInfoIgnoresLaterLines | sales_dashboard.py:79-81 | lines after the first "run financial" line are never read |
| Extractors.DateInfoDate | sales_dashboard.py:74-75 | "date" is present exactly when a "date" line is read, and holds the stripped value of the last one |
| Extractors.DateInfoDayName | sales_dashboard.py:76-77 | "day_name" is present exactly when a "day" line is read, and holds the stripped value of the last one |
| Extractors.ControlEnd | sales_dashboard.py:107-108 | the scan stops at the first "day part summary" line (one that does not open the section), or at the end |
| Extractors.ScanFinancialMetrics | sales_dashboard.py:95-116 | the flag-driven loop returns the metrics recorded up to the first "day part summary" line |
| Extractors.ExtractFinancialMetrics | sales_dashboard.py:86-116 | fewer than two columns give no metrics; otherwise the result of the scan |
| Extractors.MetricsUpToContent | sales_dashboard.py:110-114 | a key is present exactly when some line records it, and holds the value of the last such line |
| Extractors.MetricsContent | sales_dashboard.py:103-114 | only lines after an opening "run financial control report" line and before the stop are recorded; the key is non-empty and not "name"; the value is the number of the key's last recorded line |
| Extractors.FirstHeaderFrom | sales_dashboard.py:122-125 | the first row at or after k whose mark is "time_slots" or "time slots", or none if there is none |
| Extractors.FirstHeaderUnique | sales_dashboard.py:119-125 | the first header row is the only answer with that property |
| Extractors.FindTableStartRow | sales_dashboard.py:119-125 | the loop returns the smallest row whose stripped, lower-cased first cell is a table header, or None if no row is |
| Extractors.Dedup | sales_dashboard.py:138 | the dict's keys: each header key once, and no others |
| Extractors.LastIndex | sales_dashboard.py:138 | a repeated key maps to its last column |
| Extractors.ColumnIndex | sales_dashboard.py:138 | every entry maps a normalized header name to a column with that name |
| Extractors.LastWithRoleSpec | sales_dashboard.py:144-150 | the chosen column is one whose key has the role; with none, no key has it |
| Extractors.LastWithRoleStep | sales_dashboard.py:144-150 | a later matching key overrides an earlier choice |
| Extractors.ChooseColumns | sales_dashboard.py:140-150 | the loop's `time_col`, `sales_col` and `txn_col` are the last keys with each role |
| Extractors.ChosenColumnsInHeader | sales_dashboard.py:144-150 | each chosen column is a header column whose name has that role |
| Extractors.ChosenColumnExists | sales_dashboard.py:144-153 | a role's column is found exactly when some header name has the role |
| Extractors.TimeColumnFound | sales_dashboard.py:130-146 | a header row that begins with "Time Slots" always gives a time column |
| Extractors.FirstHeaderHasTimeColumn | sales_dashboard.py:130-153 | the header row found by the search always has a time column |
| Extractors.AvgTicket | sales_dashboard.py:166 | Avg_Ticket is Sales/Transactions when Transactions > 0, else 0 |
| Extractors.SlotOf | sales_dashboard.py:156-166 | each slot's average ticket agrees with its sales and transactions |
| Extractors.KeptSlots | sales_dashboard.py:164-165 | exactly the slots whose label is not "", not "nan" and not "total" in any case are kept |
| Extractors.KeptSlotsIdempotent | sales_dashboard.py:164-165 | filtering twice is filtering once |
| Extractors.SlotRowsContent | sales_dashboard.py:156-166 | the output holds exactly the data rows' slots whose label survives, each with a consistent average ticket |
| Extractors.TableBelowContent | sales_dashboard.py:152-166 | no sales column gives an empty table; otherwise the table holds exactly the surviving rows; no output label is "", "nan" or "total" |
| Extractors.SlotsBelow | sales_dashboard.py:134-168 | choosing the columns and building the slots gives the specified table |
| Extractors.ExtractTimeslotTable | sales_dashboard.py:128-168 | no header row gives an empty table; otherwise the table below the first header row |
| Workbook.ReadOne | sales_dashboard.py:181-199 | one sheet's date info, metrics and slot table are those the three extractors specify |
| Workbook.ReadsSnoc | sales_dashboard.py:180-199 | the sheets are read in order, each on its own: one more sheet appends its read |
| Workbook.DayRecords | sales_dashboard.py:190-196 | one daily record per sheet, in sheet order |
| Workbook.RecordsSnoc | sales_dashboard.py:196-204 | reading one more sheet appends its daily record and its tagged slots |
| Workbook.ReadInto | sales_dashboard.py:184-204 | the loop body appends the sheet's record and slots to what was read before |
| Workbook.LoadSheets | sales_dashboard.py:174-204 | the sheet loop fails, naming the first sheet without columns, exactly when some sheet has none; otherwise it returns every sheet's record and tagged slots in order |
| Workbook.DatedDays | sales_dashboard.py:209-210 | `dropna` on the parsed date keeps exactly the records whose date parses |
| Workbook.DatedDaysCount | sales_dashboard.py:209-210 | as many records are kept as dates parse |
| Workbook.WeekLabelOf | sales_dashboard.py:218-220 | corrected: the label holds a week number in 1..53 and the start's month and day |
| Workbook.WeekLabelAsWritten | sales_dashboard.py:218-220 | as written: the label holds a week number in 1..54 and the start's month and day |
| Workbook.WeekLabelAsWrittenAgainstCorrected | sales_dashboard.py:214-220 | the printed label and the corrected one share month and day; their numbers agree when 1 January of the week's year is a Thursday and the printed one is one higher otherwise |
| Workbook.WeekLabelOfWeek | sales_dashboard.py:218-220 | dates in the same sales week get the same label |
| Workbook.DatedSlots | sales_dashboard.py:227-239 | exactly the slot rows whose date parses are kept, each with the sales week and label of that date |
| Workbook.SlotsOn | sales_dashboard.py:243 | the slot rows of one date, and no others |
| Workbook.Ratio | sales_dashboard.py:249 | a ratio with zero transactions is missing; otherwise ratio times transactions is sales |
| Workbook.TotalsOn | sales_dashboard.py:242-249 | a date with no slot rows gets no totals; otherwise Slot_Sales_Total and Slot_Transactions_Total are the sums over its rows, and Avg_Ticket_Day their ratio (null at zero transactions) |
| Workbook.SortedDays | sales_dashboard.py:209-211 | the kept records are sorted by parsed date |
| Workbook.DailyTableCount | sales_dashboard.py:209-210 | the daily table has one row per record whose date parses (Workbook.Tables says when there is none) |
| Workbook.NoneParsed | sales_dashboard.py:209-210 | no record is counted exactly when no record's date parses |
| Workbook.NoSlotDated | sales_dashboard.py:227-229 | no slot row survives the date filter exactly when no slot row's date parses |
| Workbook.Tables | sales_dashboard.py:206-239 | the load fails exactly when no daily date parses, or when slot rows exist and none of their dates parses; otherwise it yields the non-empty daily table and the dated slot rows |
| Workbook.DailyTableSorted | sales_dashboard.py:211 | the daily table is ordered by date |
| Workbook.DailyTableFromParsed | sales_dashboard.py:209-210 | every row of the daily table is a record whose date parses |
| Workbook.DailyTableKeepsParsed | sales_dashboard.py:209-210 | every record whose date parses has a row |
| Workbook.DailyRowContent | sales_dashboard.py:214-251 | each row carries the corrected sales week of its date (a Thursday on or before it) and its label, and the slot totals of its date |
| Workbook.SlotHasDailyRow | sales_dashboard.py:223-251 | every dated slot row has a daily row with its date, week label and totals |
| Workbook.SlotRecordSheet | sales_dashboard.py:199-204 | every slot row comes from a sheet and carries that sheet's name and date |
| Weekly.LabelsOf | sales_dashboard.py:324 | the groupby keys are the slot rows' week labels, each once |
| Weekly.InWeek | sales_dashboard.py:324 | a week's group holds exactly the slot rows with its label |
| Weekly.DatesOfBounds | sales_dashboard.py:328 | `nunique` of the dates in a non-empty group is between 1 and its size |
| Weekly.Missing | sales_dashboard.py:335-341 | the metric columns the daily frame lacks |
| Weekly.DaysInWeek | sales_dashboard.py:335 | the daily rows with the week's label |
| Weekly.FinOf | sales_dashboard.py:334-345 | no daily row with the label gives no financials (the left merge); otherwise the three sums over the week's daily rows, 0 for a missing metric |
| Weekly.DiscountRate | sales_dashboard.py:348 | the rate is missing when there are no financials or gross is 0; otherwise rate times gross is 100 times discounts |
| Weekly.PerDay | sales_dashboard.py:347 | average daily sales times days is the week's sales |
| Weekly.WeekStatsOf | sales_dashboard.py:323-348 | a week's row has its label, at least one day, and its ratio columns derived from its sums |
| Weekly.WeekAverages | sales_dashboard.py:346-347 | Avg_Ticket is missing exactly at zero transactions, and otherwise times transactions gives sales; average daily sales times days gives sales |
| Weekly.WeekDiscountRate | sales_dashboard.py:348 | Discount_Rate is missing exactly without financials or at zero gross; otherwise it is discounts over gross times 100 |
| Weekly.PctChange | sales_dashboard.py:352-353 | `pct_change`: a finite change from a non-zero previous value that recovers the current one; plus or minus infinity from 0 to non-zero; NaN from 0 to 0 |
| Weekly.WithGrowth | sales_dashboard.py:352-353 | each week keeps its statistics |
| Weekly.GrowthRecovers | sales_dashboard.py:352-353 | the first week has no change; every later week's change applied to the previous week gives its own sales and transactions |
| Weekly.Arranged | sales_dashboard.py:349 | the weeks are a permutation of the groups, sorted by start |
| Weekly.WeeklyTable | sales_dashboard.py:321-353 | a failure that lists the missing metric columns exactly when there are slot rows and a metric column is missing; otherwise the weeks with their growth |
| Weekly.WeeksLabels | sales_dashboard.py:323-349 | the weekly table has one row per week label of the slot rows, and no label twice |
| Weekly.WeeksContent | sales_dashboard.py:323-345 | each week's sales and transactions are the sums over its slot rows; its days are the distinct dates (1..rows); its start is its first row's week start; its financials are those of its daily rows |
| Weekly.WeeksSorted | sales_dashboard.py:349 | different labels are different weeks, so the table is strictly ordered by start |
| Weekly.StartDeterminesLabel | sales_dashboard.py:218-220 | two weeks with the same start have the same label |
| Weekly.WeeksFinFound | sales_dashboard.py:345 | on a loaded workbook every week finds its financial row in the merge |
| SalesDay.SlotSumsPermuted | sales_dashboard.py:653-659 | sorting the day's slots changes neither its sales nor its transaction total |
| SalesDay.DayAvgTicket | sales_dashboard.py:660 | `sales / max(txn, 1)`: the ratio from one transaction up, otherwise the sales themselves |
| SalesDay.DaySlots | sales_dashboard.py:634-653 | the chosen date's slot rows, ordered by their start-time key |
| SalesDay.FirstOn | sales_dashboard.py:641 | `.iloc[0]`: the first daily row with the date, present exactly when some row has it |
| SalesDay.DayViewOf | sales_dashboard.py:633-738 | the view is missing (warning and stop) exactly when no slot row has the date; otherwise it holds exactly the date's slot rows |
| SalesDay.DayViewContent | sales_dashboard.py:652-665 | the slots are in time order; Net Sales and Transactions are the daily table's slot totals for the date; gross and discounts are the metrics recorded on the date's first daily row, 0 where that row recorded none |
| SalesDay.DayThresholds | sales_dashboard.py:655-656 | a shown day has both thresholds (slow <= peak) and a row in each table |
| SalesDay.DayPeaks | sales_dashboard.py:718 | a peak is exactly a slot row of the date with sales >= the peak threshold |
| SalesDay.DaySlows | sales_dashboard.py:731 | a slow slot is exactly a slot row of the date with sales <= the slow threshold |
| Traffic.MentionsTotalCell | dashboard.py:54 | a row matches exactly when one of its cells is "total" once stripped and lower-cased |
| Traffic.TotalColumn | dashboard.py:49 | the first column named exactly "Total", or none if there is none |
| Traffic.ScanEnd | dashboard.py:52 | the scan covers `min(len(raw), 60)` rows |
| Traffic.FirstMention | dashboard.py:52-56 | the first of the first 60 rows that mentions "total", or none if none of them does |
| Traffic.FirstMentionAt | dashboard.py:52-56 | a mention with none before it is the first mention |
| Traffic.FindTotalHeader | dashboard.py:51-56 | the loop with `break` returns the first mention |
| Traffic.HeaderChoice | dashboard.py:46-59 | row 15 is the header when it has a "Total" column; otherwise no header is found exactly when none of the first 60 rows mentions "total"; a header found is a row of the sheet |
| Traffic.KeptFrom | dashboard.py:69-76 | every kept row comes from a data row whose time parsed and whose Total is a number |
| Traffic.KeptHas | dashboard.py:69-76 | every such data row is kept |
| Traffic.ParsedValid | dashboard.py:69 | every parsed time is a valid time of day |
| Traffic.ReadUnder | dashboard.py:61-62 | selecting a "Total" column fails (KeyError) exactly when the header row has none |
| Traffic.LoadDaySheet | dashboard.py:39-79 | the method returns the specified clean table |
| Traffic.ReadDayFailure | dashboard.py:49-62 | reading fails exactly when, with no usual header, the first row mentioning "total" has no column named exactly "Total" |
| Traffic.ReadDayRows | dashboard.py:61-79 | a row is in the clean table exactly when it is the sheet's day, the 24-hour "HH:MM" of a data row's parsed time and that row's numeric Total |
| Traffic.SummaryRowDropped | dashboard.py:68-70 | a "Total" summary row never survives |
| Traffic.Variation | dashboard.py:96 | the CV is missing exactly when the deviation is missing or the mean is 0; otherwise CV times mean is the deviation |
| Traffic.DayStatsBounds | dashboard.py:94-106 | Slots is the row count; Min <= Avg <= Max and every row lies within [Min, Max]; Std_Dev is None exactly for fewer than 2 slots; CV is None exactly then or at mean 0 |
| Traffic.DayStatsTotal | dashboard.py:94-101 | Avg_per_Slot times Slots is Total_Traffic |
| Traffic.ReadAllAppend | dashboard.py:87-88 | the sheets are read in order, each on its own: reading two runs of sheets is reading each run |
| Traffic.FailureStays | dashboard.py:87-88 | an error in one sheet ends the load |
| Traffic.SortedByDay | dashboard.py:110 | the daily rows are a permutation sorted by day name |
| Traffic.LoadAllDays | dashboard.py:82-111 | the loop gives the specified rows and daily statistics |
| Traffic.CombineContent | dashboard.py:87-109 | the combined rows are exactly the rows of the sheets; each daily statistic is that of a sheet with rows |
| Traffic.CombineCovers | dashboard.py:88-107 | every sheet with rows contributes its statistics row |
| Traffic.CombineCount | dashboard.py:88-107 | there is one statistics row per sheet with rows; sheets with an empty table contribute none |
| TrafficDay.DayData | dashboard.py:154 | the rows of the chosen day, and no others |
| TrafficDay.DrillTables | dashboard.py:156-160 | the peak table holds exactly the day's rows at or above the peak threshold, highest first; the slow table exactly those at or below the slow threshold, lowest first |
| TrafficDay.DrillThresholds | dashboard.py:156-160 | a day with rows has both thresholds (slow <= peak) and a row in each table |
| TrafficDay.LabelSlots | dashboard.py:213-216 | after "Normal", then "Peak" at or above the peak threshold, then "Slow" at or below the slow threshold, each slot is Slow if it reaches the slow threshold, else Peak if it reaches the peak one, else Normal |
| TrafficDay.LabelsMatchTables | dashboard.py:159-216 | a slot is Slow exactly when it is in the slow table, Peak exactly when it is in the peak table and not the slow one, Normal when in neither |
| TrafficDay.SlowOverridesPeak | dashboard.py:214-216 | a slot meeting both thresholds ends "Slow", and then it equals both thresholds |

## Left out

- Streamlit layout, widgets, `st.metric`, `st.dataframe`, the Plotly charts and the CSV
  export are presentation. Slider values enter as parameters limited to their ranges
  (1-30 and 1-50). `st.stop` is modelled as a missing result where it guards a computation
  (the day drill-down). The stop when no usable data is found (dashboard.py:122-124) is
  the caller's check of an empty result.
- File I/O is not modelled: `pd.ExcelFile`, `read_excel`, the `Path.exists` checks and
  `@st.cache_data`. A workbook is given as a sequence of named sheets, and each sheet as
  the grid `read_excel` returns. `read_excel` dropping blank rows is not modelled, so the
  traffic sheet's usual header is row 15 of the grid.
- The overall KPIs at sales_dashboard.py:273-313 and dashboard.py:129-133, and the
  day-of-week, daily-display and cross-day sections of sales_dashboard.py (355-626,
  670-711, 742-783): they only display sums and means of columns already modelled.
- The cross-day average by time and the heatmap (dashboard.py:189-206) are display
  aggregates.
- Floating point and NaN propagation: values are `real`. An empty pandas quantile is
  modelled as a missing threshold. A comparison with a missing threshold is false.
- `pd.to_numeric` on text, `pd.to_datetime` on date text and `sqrt` are parameters
  (`num`, `parseDate`, `sqrt`). Excel time cells are read through their text.
- Text processing is ASCII only. `strip` uses the ASCII whitespace set and `lower` maps
  A-Z only; Unicode whitespace, case folding and digits are not modelled.
- The month name `%b` of the week label: a label is modelled as (week number, month,
  day). It has no year, so weeks of different years with the same number and start day
  merge, as in the source.
- Extractors.ColumnIndex: `df.columns = header` (sales_dashboard.py:134-135) keeps
  duplicate labels. When the label chosen for a column occurs twice, `df[label]` selects
  several columns, and the source raises: TypeError in `to_num` for sales or transactions
  (lines 157 and 160), AttributeError at `.str` for the time column (line 156). The model
  reads the last column with that label instead.
- Duplicate names in the traffic sheets' header are renamed by `read_excel` ("Total.1"),
  so the first exact "Total" is the one read, as in the model. An "Unnamed: 0" time column
  (dashboard.py:61): the model takes the first column, which is where pandas places it.
- Workbook.WeekLabelOf: the tables carry the corrected sales week and label, not those of
  `get_sales_week` as written. The printed label differs: its number is one higher in every
  year whose 1 January is not a Thursday, and can be 54 (Workbook.WeekLabelAsWrittenAgainstCorrected).
- Workbook.DatedSlots: each slot row carries the corrected week and label, not the as-written
  ones (see Workbook.WeekLabelOf). When slot rows exist and none of their dates parses it
  returns no rows, where the source raises ValueError; Workbook.Tables models that failure.
- Workbook.DailyRowContent: states the corrected week and label of each row, not the
  as-written ones (see Workbook.WeekLabelOf).
- Workbook.DailyTableCount: when no daily date parses the table is empty, where the source
  raises ValueError at the Week_Label `apply` (sales_dashboard.py:218-220). Workbook.Tables
  models that failure as a result, not as an exception.
- Workbook.LoadSheets: a sheet without columns makes `find_table_start_row` raise an
  IndexError. The model reports this as a failure naming the sheet, not as an exception.
- Traffic.ReadUnder: the KeyError of a header row without an exact "Total" column is
  modelled as `Failure("Total")`.
- Sorting.SortBy: `sort_values` is unstable. The model sorts stably, and the contracts
  promise only a sorted permutation. So the order of rows with equal keys is left open,
  except where Sorting.SortedUnique shows it is forced.
- Weekly.LabelsOf: groupby returns its keys sorted. The model keeps them in order of first
  occurrence, since the table is re-sorted by week start (sales_dashboard.py:349) before it
  is used.
- SalesDay.DayViewContent: `day_fin.get(key, 0)` (sales_dashboard.py:664-665) gives 0 only
  when no sheet recorded the metric. When another sheet did, the day's value is NaN and is
  shown as such. The model shows 0 in both cases, since NaN is not modelled.
- SalesDay.DayViewOf requires the chosen date to be one of the daily table's dates, as the
  select box (sales_dashboard.py:633) guarantees.
- Dates before day 368 (the first Thursday of year 2) are excluded. There `jan_1 -
  timedelta` goes below year 1, and pandas cannot represent such dates at all.
- The commission split and the payment and tender extraction are not part of this model:
  neither appears in these two scripts.

## Findings

| source | as written | input that shows it | evidently intended | confidence | as-written member | corrected member |
|---|---|---|---|---|---|---|
| sales_dashboard.py:45-54 | `first_thursday` is the Thursday on or before 1 January. So `week_start >= first_thursday` always holds, the "previous year, week 52" branch is dead, week 1 exists only in years that begin on a Thursday, and week 54 occurs | 2020-12-31 (a Thursday; 2020 began on a Wednesday and is a leap year) gives week 54 of 2020; 2025-01-02, the first Thursday of 2025, gives week 2, and no date gives week 1 of 2025 | number the weeks from the first Thursday on or after 1 January, so that the first Thursday of a year starts week 1 and numbers stay within 1..53 | not executed | SalesWeek.AsWrittenWeek54, SalesWeek.AsWrittenNoWeekOne2025, SalesWeek.AsWrittenOneAheadOtherwise | SalesWeek.SalesWeekOf, SalesWeek.SalesWeekNumberRange |
