/**
 * `load_workbook`: every sheet of the sales workbook gives one daily record (its date,
 * day name and financial metrics) and the rows of its time-slot table; the daily
 * records whose date parses are ordered by date, get their sales week, and are joined
 * with the per-day totals of the slot table.
 */
module Workbook {
  import opened Wrappers
  import opened Cells
  import opened Calendar
  import opened SalesWeek
  import opened Extractors
  import opened Sorting
  import opened Stats

  /** A sheet of the workbook: its name and its grid read with the first row as header. */
  datatype Sheet = Sheet(name: string, frame: Frame)

  predicate WellFormed(sheets: seq<Sheet>) {
    forall i :: 0 <= i < |sheets| ==> Rectangular(sheets[i].frame)
  }

  /** No sheet is without columns; on such a sheet the table search fails with an IndexError. */
  predicate Readable(sheets: seq<Sheet>) {
    forall i :: 0 <= i < |sheets| ==> sheets[i].frame.width >= 1
  }

  /** What the three extractors read from one sheet. */
  datatype SheetRead = SheetRead(name: string, info: DateInfo, metrics: map<string, real>, table: seq<Slot>)

  function ReadSheet(s: Sheet, num: string -> Option<real>): SheetRead
    requires Rectangular(s.frame) && s.frame.width >= 1
  {
    SheetRead(s.name, DateInfoOf(s.frame), MetricsOf(s.frame, num), TimeslotTableOf(s.frame, num))
  }

  /** The extractors run on one sheet. */
  method ReadOne(s: Sheet, num: string -> Option<real>) returns (r: SheetRead)
    requires Rectangular(s.frame) && s.frame.width >= 1
    ensures r == ReadSheet(s, num)
  {
    var info := ExtractDateInfo(s.frame);
    var metrics := ExtractFinancialMetrics(s.frame, num);
    var table := ExtractTimeslotTable(s.frame, num);
    r := SheetRead(s.name, info, metrics, table);
  }

  /** Every sheet read, in sheet order: the `i`-th read is the read of the `i`-th sheet. */
  function Reads(sheets: seq<Sheet>, num: string -> Option<real>): (r: seq<SheetRead>)
    requires WellFormed(sheets) && Readable(sheets)
    ensures |r| == |sheets|
    ensures forall i :: 0 <= i < |sheets| ==> r[i] == ReadSheet(sheets[i], num)
  {
    seq(|sheets|, i requires 0 <= i < |sheets| => ReadSheet(sheets[i], num))
  }

  /** Reading one more sheet appends its read. */
  lemma ReadsSnoc(sheets: seq<Sheet>, num: string -> Option<real>, i: nat)
    requires WellFormed(sheets) && i < |sheets|
    requires forall j :: 0 <= j <= i ==> sheets[j].frame.width >= 1
    ensures WellFormed(sheets[..i + 1]) && Readable(sheets[..i + 1])
    ensures Reads(sheets[..i + 1], num) == Reads(sheets[..i], num) + [ReadSheet(sheets[i], num)]
  {
    PrefixReadable(sheets, i);
    PrefixReadable(sheets, i + 1);
    var before, after := Reads(sheets[..i], num), Reads(sheets[..i + 1], num);
    assert after == before + [ReadSheet(sheets[i], num)] by {
      forall k | 0 <= k < i
        ensures after[k] == before[k]
      {
        assert sheets[..i + 1][k] == sheets[..i][k];
      }
    }
  }

  lemma PrefixReadable(sheets: seq<Sheet>, n: nat)
    requires WellFormed(sheets) && n <= |sheets|
    requires forall j :: 0 <= j < n ==> sheets[j].frame.width >= 1
    ensures WellFormed(sheets[..n]) && Readable(sheets[..n])
  {
  }

  /** `fin_row`: the sheet, its date and day name, and its financial metrics. */
  datatype DayRecord = DayRecord(sheet: string, date: string, dayName: string, metrics: map<string, real>)

  /** A row of `slots_df`: a slot of a sheet's table, tagged with the sheet's date and day name. */
  datatype SlotRecord = SlotRecord(sheet: string, date: string, dayName: string, slot: Slot)

  /** `date_info.get("date", sheet)`: the sheet's date text, or its name when it has none. */
  function DateText(r: SheetRead): string {
    r.info.date.GetOr(r.name)
  }

  function DayRecordOf(r: SheetRead): DayRecord {
    DayRecord(r.name, DateText(r), r.info.dayName.GetOr(""), r.metrics)
  }

  /** The sheet's slot table with the sheet's name, date and day name on every row. */
  function Tagged(r: SheetRead): (t: seq<SlotRecord>)
    ensures |t| == |r.table|
    ensures forall i :: 0 <= i < |t| ==> t[i] == SlotRecord(r.name, DateText(r), r.info.dayName.GetOr(""), r.table[i])
  {
    seq(|r.table|, i requires 0 <= i < |r.table| => SlotRecord(r.name, DateText(r), r.info.dayName.GetOr(""), r.table[i]))
  }

  /** `days_data`: one record per sheet, in sheet order. */
  function DayRecords(rs: seq<SheetRead>): (r: seq<DayRecord>)
    ensures |r| == |rs|
    ensures forall i :: 0 <= i < |rs| ==> r[i] == DayRecordOf(rs[i])
  {
    if rs == [] then []
    else DayRecords(rs[..|rs| - 1]) + [DayRecordOf(rs[|rs| - 1])]
  }

  /** `pd.concat(days_slots)`: the slot tables of all sheets, one after the other. */
  function SlotRecords(rs: seq<SheetRead>): seq<SlotRecord> {
    if rs == [] then []
    else SlotRecords(rs[..|rs| - 1]) + Tagged(rs[|rs| - 1])
  }

  lemma RecordsSnoc(rs: seq<SheetRead>, x: SheetRead)
    ensures DayRecords(rs + [x]) == DayRecords(rs) + [DayRecordOf(x)]
    ensures SlotRecords(rs + [x]) == SlotRecords(rs) + Tagged(x)
  {
    assert (rs + [x])[..|rs|] == rs;
  }

  /** One more readable sheet extends the reads and both record lists by that sheet's read. */
  lemma LoadStep(sheets: seq<Sheet>, num: string -> Option<real>, i: nat, days: seq<DayRecord>, slots: seq<SlotRecord>)
    requires WellFormed(sheets) && i < |sheets|
    requires forall j :: 0 <= j <= i ==> sheets[j].frame.width >= 1
    requires WellFormed(sheets[..i]) && Readable(sheets[..i])
    requires days == DayRecords(Reads(sheets[..i], num)) && slots == SlotRecords(Reads(sheets[..i], num))
    ensures WellFormed(sheets[..i + 1]) && Readable(sheets[..i + 1])
    ensures var x := ReadSheet(sheets[i], num);
      && days + [DayRecordOf(x)] == DayRecords(Reads(sheets[..i + 1], num))
      && slots + Tagged(x) == SlotRecords(Reads(sheets[..i + 1], num))
  {
    ReadsSnoc(sheets, num, i);
    RecordsSnoc(Reads(sheets[..i], num), ReadSheet(sheets[i], num));
  }

  /** One pass of the sheet loop over a sheet with columns: its record, and its slot rows when it has any. */
  method ReadInto(sheets: seq<Sheet>, num: string -> Option<real>, i: nat, days: seq<DayRecord>, slots: seq<SlotRecord>)
    returns (days': seq<DayRecord>, slots': seq<SlotRecord>)
    requires WellFormed(sheets) && i < |sheets|
    requires forall j :: 0 <= j <= i ==> sheets[j].frame.width >= 1
    requires WellFormed(sheets[..i]) && Readable(sheets[..i])
    requires days == DayRecords(Reads(sheets[..i], num)) && slots == SlotRecords(Reads(sheets[..i], num))
    ensures WellFormed(sheets[..i + 1]) && Readable(sheets[..i + 1])
    ensures days' == DayRecords(Reads(sheets[..i + 1], num)) && slots' == SlotRecords(Reads(sheets[..i + 1], num))
  {
    var read := ReadOne(sheets[i], num);
    LoadStep(sheets, num, i, days, slots);
    days' := days + [DayRecordOf(read)];
    if read.table != [] {
      slots' := slots + Tagged(read);
    } else {
      assert Tagged(read) == [];
      assert slots + Tagged(read) == slots;
      slots' := slots;
    }
  }

  /**
   * The sheet loop of `load_workbook`. It fails, naming the sheet, at the first sheet
   * without columns; otherwise it returns the daily records and the slot rows.
   */
  method LoadSheets(sheets: seq<Sheet>, num: string -> Option<real>) returns (r: Result<(seq<DayRecord>, seq<SlotRecord>), string>)
    requires WellFormed(sheets)
    ensures r.Failure? <==> !Readable(sheets)
    ensures r.Failure? ==>
      exists i :: 0 <= i < |sheets| && sheets[i].frame.width == 0 && r.error == sheets[i].name && Readable(sheets[..i])
    ensures r.Success? ==> Readable(sheets) && r.value == (DayRecords(Reads(sheets, num)), SlotRecords(Reads(sheets, num)))
  {
    var days: seq<DayRecord> := [];
    var slots: seq<SlotRecord> := [];
    for i := 0 to |sheets|
      invariant forall j :: 0 <= j < i ==> sheets[j].frame.width >= 1
      invariant WellFormed(sheets[..i]) && Readable(sheets[..i])
      invariant days == DayRecords(Reads(sheets[..i], num)) && slots == SlotRecords(Reads(sheets[..i], num))
    {
      var s := sheets[i];
      if s.frame.width == 0 {
        assert !Readable(sheets) by {
          assert sheets[i].frame.width == 0;
        }
        return Failure(s.name);
      }
      days, slots := ReadInto(sheets, num, i, days, slots);
    }
    assert sheets[..|sheets|] == sheets;
    return Success((days, slots));
  }

  // ---------------------------------------------------------------------------
  // Dates and weeks

  /** A daily record together with its parsed date. */
  datatype DatedDay = DatedDay(record: DayRecord, parsed: Date)

  /** `dropna(subset=["Date_Parsed"])`: the records whose date parses, in their order. */
  function DatedDays(days: seq<DayRecord>, parseDate: string -> Option<Date>): (r: seq<DatedDay>)
    ensures forall x :: x in r <==> x.record in days && parseDate(x.record.date) == Some(x.parsed)
    ensures |r| <= |days|
  {
    if days == [] then []
    else
      var rest := DatedDays(days[1..], parseDate);
      assert forall x :: x in days <==> x == days[0] || x in days[1..];
      match parseDate(days[0].date)
      case None => rest
      case Some(d) => [DatedDay(days[0], d)] + rest
  }

  /** The number of records whose date parses. */
  function CountParsed(days: seq<DayRecord>, parseDate: string -> Option<Date>): nat {
    if days == [] then 0
    else (if parseDate(days[0].date).Some? then 1 else 0) + CountParsed(days[1..], parseDate)
  }

  lemma {:induction false} DatedDaysCount(days: seq<DayRecord>, parseDate: string -> Option<Date>)
    ensures |DatedDays(days, parseDate)| == CountParsed(days, parseDate)
  {
    if days != [] {
      DatedDaysCount(days[1..], parseDate);
    }
  }

  function ByDate(a: DatedDay, b: DatedDay): bool {
    a.parsed <= b.parsed
  }

  lemma ByDateTotalPreorder()
    ensures TotalPreorder(ByDate)
  {
  }

  /** `f"W{number:02d} ({start:%b %d})"`: the week number and the month and day of its Thursday. */
  datatype WeekLabel = WeekLabel(number: int, month: int, day: int)

  function WeekLabelOf(d: Date): (l: WeekLabel)
    ensures 1 <= l.number <= 53 && 1 <= l.month <= 12 && l.day >= 1
  {
    SalesWeekIdempotent(d);
    SalesWeekNumberRange(d);
    var w := SalesWeekOf(d);
    var md := MonthDay(w.start);
    WeekLabel(w.number, md.0, md.1)
  }

  /** The label `get_sales_week` as written gives: the same Thursday, numbered by the source's anchor. */
  function WeekLabelAsWritten(d: Date): (l: WeekLabel)
    ensures 1 <= l.number <= 54 && 1 <= l.month <= 12 && l.day >= 1
  {
    AsWrittenIdempotent(d);
    AsWrittenNumberRange(d);
    var w := SalesWeekAsWritten(d);
    var md := MonthDay(w.start);
    WeekLabel(w.number, md.0, md.1)
  }

  /**
   * The printed label against the one the tables carry: the same month and day always, the
   * same number in years whose 1 January is a Thursday, one higher in every other year.
   */
  lemma WeekLabelAsWrittenAgainstCorrected(d: Date)
    ensures WeekLabelAsWritten(d).month == WeekLabelOf(d).month
    ensures WeekLabelAsWritten(d).day == WeekLabelOf(d).day
    ensures Weekday(Jan1(SalesWeekOf(d).year)) == 3 ==> WeekLabelAsWritten(d) == WeekLabelOf(d)
    ensures Weekday(Jan1(SalesWeekOf(d).year)) != 3 ==> WeekLabelAsWritten(d).number == WeekLabelOf(d).number + 1
  {
    assert SalesWeekAsWritten(d).start == SalesWeekOf(d).start;
    if Weekday(Jan1(SalesWeekOf(d).year)) == 3 {
      AsWrittenAgreesWhenYearStartsThursday(d);
    } else {
      AsWrittenOneAheadOtherwise(d);
    }
  }

  /** Dates of the same sales week carry the same label; different labels mean different weeks. */
  lemma WeekLabelOfWeek(d: Date, e: Date)
    requires SalesWeekOf(d).start == SalesWeekOf(e).start
    ensures WeekLabelOf(d) == WeekLabelOf(e)
  {
    SameWeekIffSameStart(d, e);
  }

  // ---------------------------------------------------------------------------
  // Slots

  /** A slot row whose date parsed, with its sales week and week label. */
  datatype DatedSlot = DatedSlot(record: SlotRecord, parsed: Date, week: Week, weekLabel: WeekLabel)

  function DatedSlotOf(s: SlotRecord, d: Date): DatedSlot {
    DatedSlot(s, d, SalesWeekOf(d), WeekLabelOf(d))
  }

  /** `slots_df` after `dropna(subset=["Date_Parsed"])` and the week columns. */
  function DatedSlots(slots: seq<SlotRecord>, parseDate: string -> Option<Date>): (r: seq<DatedSlot>)
    ensures forall x :: x in r <==> x.record in slots && parseDate(x.record.date) == Some(x.parsed) && x == DatedSlotOf(x.record, x.parsed)
  {
    if slots == [] then []
    else
      var rest := DatedSlots(slots[1..], parseDate);
      assert forall x :: x in slots <==> x == slots[0] || x in slots[1..];
      match parseDate(slots[0].date)
      case None => rest
      case Some(d) => [DatedSlotOf(slots[0], d)] + rest
  }

  /** The slot rows of one date text, in order. */
  function SlotsOn(slots: seq<DatedSlot>, date: string): (r: seq<DatedSlot>)
    ensures forall x :: x in r <==> x in slots && x.record.date == date
  {
    if slots == [] then []
    else
      var rest := SlotsOn(slots[1..], date);
      assert forall x :: x in slots <==> x == slots[0] || x in slots[1..];
      if slots[0].record.date == date then [slots[0]] + rest else rest
  }

  function SalesOf(slots: seq<DatedSlot>): (r: seq<real>)
    ensures |r| == |slots| && forall i :: 0 <= i < |slots| ==> r[i] == slots[i].record.slot.sales
  {
    seq(|slots|, i requires 0 <= i < |slots| => slots[i].record.slot.sales)
  }

  function TransactionsOf(slots: seq<DatedSlot>): (r: seq<real>)
    ensures |r| == |slots| && forall i :: 0 <= i < |slots| ==> r[i] == slots[i].record.slot.transactions
  {
    seq(|slots|, i requires 0 <= i < |slots| => slots[i].record.slot.transactions)
  }

  /** `daily_from_slots` for one date: summed sales and transactions and the day's average ticket. */
  datatype SlotTotals = SlotTotals(sales: real, transactions: real, avgTicket: Option<real>)

  /** `sales / transactions.replace(0, NaN)`: no ratio when there are no transactions. */
  function Ratio(sales: real, transactions: real): (r: Option<real>)
    ensures r.None? <==> transactions == 0.0
    ensures r.Some? ==> r.value * transactions == sales
  {
    if transactions == 0.0 then None else Some(sales / transactions)
  }

  /**
   * The left merge of the daily records with `daily_from_slots` on "Date": the totals of
   * the slots with that date, or nothing when no slot has it.
   */
  function TotalsOn(slots: seq<DatedSlot>, date: string): (r: Option<SlotTotals>)
    ensures r.None? <==> forall x :: x in slots ==> x.record.date != date
    ensures r.Some? ==>
      r.value.sales == Sum(SalesOf(SlotsOn(slots, date))) && r.value.transactions == Sum(TransactionsOf(SlotsOn(slots, date)))
    ensures r.Some? ==> r.value.avgTicket == Ratio(r.value.sales, r.value.transactions)
  {
    var on := SlotsOn(slots, date);
    if on == [] then
      assert forall x :: x in slots ==> x.record.date != date by {
        forall x | x in slots
          ensures x.record.date != date
        {
        }
      }
      None
    else
      assert on[0] in slots;
      var sales := Sum(SalesOf(on));
      var txn := Sum(TransactionsOf(on));
      Some(SlotTotals(sales, txn, Ratio(sales, txn)))
  }

  // ---------------------------------------------------------------------------
  // The daily table

  /** A row of `fin_df`: the record, its parsed date, its sales week and label, and its slot totals. */
  datatype DailyRow = DailyRow(record: DayRecord, parsed: Date, week: Week, weekLabel: WeekLabel, totals: Option<SlotTotals>)

  function DailyRowOf(d: DatedDay, slots: seq<DatedSlot>): DailyRow {
    DailyRow(d.record, d.parsed, SalesWeekOf(d.parsed), WeekLabelOf(d.parsed), TotalsOn(slots, d.record.date))
  }

  function Rows(sorted: seq<DatedDay>, slots: seq<DatedSlot>): (r: seq<DailyRow>)
    ensures |r| == |sorted|
    ensures forall i :: 0 <= i < |r| ==> r[i] == DailyRowOf(sorted[i], slots)
  {
    seq(|sorted|, i requires 0 <= i < |sorted| => DailyRowOf(sorted[i], slots))
  }

  /** The daily records whose date parses, in date order. */
  function SortedDays(days: seq<DayRecord>, parseDate: string -> Option<Date>): (r: seq<DatedDay>)
    ensures Sorted(r, ByDate)
    ensures multiset(r) == multiset(DatedDays(days, parseDate))
  {
    ByDateTotalPreorder();
    SortBy(DatedDays(days, parseDate), ByDate)
  }

  /** `fin_df` as `load_workbook` returns it. */
  function DailyTable(days: seq<DayRecord>, slots: seq<SlotRecord>, parseDate: string -> Option<Date>): seq<DailyRow> {
    Rows(SortedDays(days, parseDate), DatedSlots(slots, parseDate))
  }

  /** The daily table has one row per record whose date parses. */
  lemma DailyTableCount(days: seq<DayRecord>, slots: seq<SlotRecord>, parseDate: string -> Option<Date>)
    ensures |DailyTable(days, slots, parseDate)| == CountParsed(days, parseDate)
  {
    var sorted := SortedDays(days, parseDate);
    DatedDaysCount(days, parseDate);
    assert |sorted| == |DatedDays(days, parseDate)| by {
      assert |multiset(sorted)| == |multiset(DatedDays(days, parseDate))|;
    }
  }

  /** No record's date parses exactly when none is counted. */
  lemma {:induction false} NoneParsed(days: seq<DayRecord>, parseDate: string -> Option<Date>)
    ensures CountParsed(days, parseDate) == 0 <==> forall d :: d in days ==> parseDate(d.date).None?
  {
    if days != [] {
      NoneParsed(days[1..], parseDate);
      assert forall d :: d in days <==> d == days[0] || d in days[1..];
    }
  }

  /** No slot row survives the date filter exactly when no slot row's date parses. */
  lemma NoSlotDated(slots: seq<SlotRecord>, parseDate: string -> Option<Date>)
    ensures DatedSlots(slots, parseDate) == [] <==> forall s :: s in slots ==> parseDate(s.date).None?
  {
    var dated := DatedSlots(slots, parseDate);
    if dated != [] {
      assert dated[0] in dated;
    }
    if s :| s in slots && parseDate(s.date).Some? {
      assert DatedSlotOf(s, parseDate(s.date).value) in dated;
    }
  }

  /**
   * The date and week steps of `load_workbook` with their failure: labelling the weeks with a
   * row-wise `apply` on a frame with no rows yields a frame, which cannot be stored in the one
   * `Week_Label` column. So the load fails when no daily record's date parses, and when there
   * are slot rows but none of their dates parses; otherwise it yields the daily table and the
   * dated slot rows.
   */
  function Tables(days: seq<DayRecord>, slots: seq<SlotRecord>, parseDate: string -> Option<Date>): (r: Result<(seq<DailyRow>, seq<DatedSlot>), string>)
    ensures r.Failure? <==>
      (forall d :: d in days ==> parseDate(d.date).None?)
      || (slots != [] && forall s :: s in slots ==> parseDate(s.date).None?)
    ensures r.Success? ==> r.value.0 == DailyTable(days, slots, parseDate) && r.value.1 == DatedSlots(slots, parseDate)
    ensures r.Success? ==> r.value.0 != [] && (slots != [] ==> r.value.1 != [])
  {
    DailyTableCount(days, slots, parseDate);
    NoneParsed(days, parseDate);
    NoSlotDated(slots, parseDate);
    var table := DailyTable(days, slots, parseDate);
    var dated := DatedSlots(slots, parseDate);
    if table == [] || (slots != [] && dated == []) then Failure("Week_Label")
    else Success((table, dated))
  }

  /** The daily table is in date order. */
  lemma DailyTableSorted(days: seq<DayRecord>, slots: seq<SlotRecord>, parseDate: string -> Option<Date>)
    ensures var t := DailyTable(days, slots, parseDate);
      forall i, j :: 0 <= i < j < |t| ==> t[i].parsed <= t[j].parsed
  {
    var sorted := SortedDays(days, parseDate);
    var t := DailyTable(days, slots, parseDate);
    forall i, j | 0 <= i < j < |t|
      ensures t[i].parsed <= t[j].parsed
    {
      assert ByDate(sorted[i], sorted[j]);
    }
  }

  /** Every row of the daily table is a record whose date parses, with that parsed date. */
  lemma DailyTableFromParsed(days: seq<DayRecord>, slots: seq<SlotRecord>, parseDate: string -> Option<Date>, row: DailyRow)
    requires row in DailyTable(days, slots, parseDate)
    ensures row.record in days && parseDate(row.record.date) == Some(row.parsed)
  {
    var sorted := SortedDays(days, parseDate);
    var t := DailyTable(days, slots, parseDate);
    var i :| 0 <= i < |t| && t[i] == row;
    assert sorted[i] in multiset(DatedDays(days, parseDate));
  }

  /** Every record whose date parses has a row in the daily table. */
  lemma DailyTableKeepsParsed(days: seq<DayRecord>, slots: seq<SlotRecord>, parseDate: string -> Option<Date>, d: DayRecord)
    requires d in days && parseDate(d.date).Some?
    ensures exists row :: row in DailyTable(days, slots, parseDate) && row.record == d && Some(row.parsed) == parseDate(d.date)
  {
    var x := DatedDay(d, parseDate(d.date).value);
    var sorted := SortedDays(days, parseDate);
    assert x in multiset(sorted);
    var i :| 0 <= i < |sorted| && sorted[i] == x;
    assert DailyTable(days, slots, parseDate)[i].record == d;
  }

  /**
   * A daily row's week is the sales week of its date, its label that week's, and its
   * totals those of the slots with its date text, with no average ticket when they
   * have no transactions.
   */
  lemma DailyRowContent(days: seq<DayRecord>, slots: seq<SlotRecord>, parseDate: string -> Option<Date>, row: DailyRow)
    requires row in DailyTable(days, slots, parseDate)
    ensures row.week == SalesWeekOf(row.parsed) && row.weekLabel == WeekLabelOf(row.parsed)
    ensures row.week.start <= row.parsed < row.week.start + 7 && Weekday(row.week.start) == 3
    ensures row.totals == TotalsOn(DatedSlots(slots, parseDate), row.record.date)
    ensures row.totals.Some? ==> (row.totals.value.avgTicket.None? <==> row.totals.value.transactions == 0.0)
  {
    SalesWeekContainsDate(row.parsed);
  }

  /** Under the sheet loop, every slot whose date parses has the daily row of its own sheet. */
  lemma SlotHasDailyRow(rs: seq<SheetRead>, parseDate: string -> Option<Date>, x: DatedSlot)
    requires x in DatedSlots(SlotRecords(rs), parseDate)
    ensures exists row :: (row in DailyTable(DayRecords(rs), SlotRecords(rs), parseDate)
      && row.record.date == x.record.date && row.parsed == x.parsed && row.weekLabel == x.weekLabel
      && row.totals.Some?)
  {
    var slots := SlotRecords(rs);
    var days := DayRecords(rs);
    var k := SlotRecordSheet(rs, x.record);
    var d := days[k];
    assert d.date == x.record.date;
    DailyTableKeepsParsed(days, slots, parseDate, d);
    var row :| row in DailyTable(days, slots, parseDate) && row.record == d && Some(row.parsed) == parseDate(d.date);
    DailyRowContent(days, slots, parseDate, row);
  }

  /** Every slot row comes from a sheet and carries that sheet's date text. */
  lemma {:induction false} SlotRecordSheet(rs: seq<SheetRead>, s: SlotRecord) returns (k: nat)
    requires s in SlotRecords(rs)
    ensures k < |rs| && s.date == DateText(rs[k]) && s.sheet == rs[k].name
  {
    var init := rs[..|rs| - 1];
    if s in SlotRecords(init) {
      k := SlotRecordSheet(init, s);
      assert init[k] == rs[k];
    } else {
      assert s in Tagged(rs[|rs| - 1]);
      k := |rs| - 1;
    }
  }
}
