/**
 * The sales dashboard's drill-down into one day: the dated slot rows of the chosen date
 * in the order of their start time, the day's totals and average ticket, and its peak
 * and slow slots by sales.
 */
module SalesDay {
  import opened Wrappers
  import opened Sorting
  import opened Stats
  import opened Clock
  import opened Workbook
  import opened Ranking
  import opened Weekly

  function SlotSales(x: DatedSlot): real {
    x.record.slot.sales
  }

  function SlotTransactions(x: DatedSlot): real {
    x.record.slot.transactions
  }

  /** `sort_key`: the (hour, minute) at which a slot's label starts. */
  function TimeKey(x: DatedSlot): (nat, nat) {
    SortTimeSlot(x.record.slot.timeSlot)
  }

  function ByTimeKey(a: DatedSlot, b: DatedSlot): bool {
    KeyLe(TimeKey(a), TimeKey(b))
  }

  lemma ByTimeKeyTotalPreorder()
    ensures TotalPreorder(ByTimeKey)
  {
  }

  /** Reordering a day's slot rows changes neither its summed sales nor its summed transactions. */
  lemma SlotSumsPermuted(a: seq<DatedSlot>, b: seq<DatedSlot>)
    requires multiset(a) == multiset(b)
    ensures Sum(SalesOf(a)) == Sum(SalesOf(b))
    ensures Sum(TransactionsOf(a)) == Sum(TransactionsOf(b))
  {
    SumValuesPermuted(a, b, SlotSales);
    SumValuesPermuted(a, b, SlotTransactions);
    assert SalesOf(a) == Values(a, SlotSales);
    assert SalesOf(b) == Values(b, SlotSales);
    assert TransactionsOf(a) == Values(a, SlotTransactions);
    assert TransactionsOf(b) == Values(b, SlotTransactions);
  }

  /** `day_total_sales / max(day_total_txn, 1)`. */
  function DayAvgTicket(sales: real, transactions: real): (a: real)
    ensures transactions >= 1.0 ==> a * transactions == sales
    ensures transactions < 1.0 ==> a == sales
  {
    if transactions >= 1.0 then sales / transactions else sales
  }

  /** `day_slots` after `sort_values("sort_key")`: the chosen date's slot rows in slot order. */
  function DaySlots(slots: seq<DatedSlot>, choice: string): (r: seq<DatedSlot>)
    ensures multiset(r) == multiset(SlotsOn(slots, choice))
    ensures forall i, j :: 0 <= i < j < |r| ==> KeyLe(TimeKey(r[i]), TimeKey(r[j]))
  {
    ByTimeKeyTotalPreorder();
    var r := SortBy(SlotsOn(slots, choice), ByTimeKey);
    assert forall i, j :: 0 <= i < j < |r| ==> ByTimeKey(r[i], r[j]);
    r
  }

  /** `fin_df[fin_df["Date"] == day_choice].iloc[0]`: the first daily row of the date. */
  function FirstOn(table: seq<DailyRow>, choice: string): (r: Option<DailyRow>)
    ensures r.None? <==> forall row :: row in table ==> row.record.date != choice
    ensures r.Some? ==> r.value.record.date == choice
    ensures r.Some? ==>
      exists i :: 0 <= i < |table| && table[i] == r.value && (forall j :: 0 <= j < i ==> table[j].record.date != choice)
  {
    if table == [] then None
    else if table[0].record.date == choice then Some(table[0])
    else
      var rest := FirstOn(table[1..], choice);
      assert forall row :: row in table <==> row == table[0] || row in table[1..];
      if rest.Some? then
        var i :| 0 <= i < |table[1..]| && table[1..][i] == rest.value
          && (forall j :: 0 <= j < i ==> table[1..][j].record.date != choice);
        assert table[i + 1] == rest.value;
        assert forall j :: 0 <= j < i + 1 ==> table[j].record.date != choice by {
          forall j | 0 <= j < i + 1
            ensures table[j].record.date != choice
          {
            if j > 0 {
              assert table[j] == table[1..][j - 1];
            }
          }
        }
        rest
      else rest
  }

  /** What the drill-down shows for one day. */
  datatype DayView = DayView(
    slots: seq<DatedSlot>, grossBefore: real, discounts: real,
    peakThreshold: Option<real>, slowThreshold: Option<real>,
    sales: real, transactions: real, avgTicket: real,
    peaks: seq<DatedSlot>, slows: seq<DatedSlot>)

  /**
   * The drill-down for `choice`, one of the daily table's dates: nothing (the warning
   * and `st.stop()`) when no slot row has that date; otherwise the day's rows in slot
   * order, the gross and discount metrics of its daily row, its totals and its peak
   * and slow rows.
   */
  function DayViewOf(table: seq<DailyRow>, slots: seq<DatedSlot>, choice: string, pk: int, sk: int): (r: Option<DayView>)
    requires PeakPercent(pk) && SlowPercent(sk)
    requires exists row :: row in table && row.record.date == choice
    ensures r.None? <==> forall x :: x in slots ==> x.record.date != choice
    ensures r.Some? ==> multiset(r.value.slots) == multiset(SlotsOn(slots, choice))
  {
    var day := DaySlots(slots, choice);
    if day == [] then
      assert forall x :: x in slots ==> x.record.date != choice by {
        forall x | x in slots
          ensures x.record.date != choice
        {
        }
      }
      None
    else
      assert day[0] in SlotsOn(slots, choice) by {
        assert multiset(day)[day[0]] > 0;
      }
      var fin := FirstOn(table, choice).value;
      var xs := Values(day, SlotSales);
      var peak := PeakThreshold(xs, pk);
      var slow := SlowThreshold(xs, sk);
      var sales := Sum(SalesOf(day));
      var txn := Sum(TransactionsOf(day));
      Some(DayView(day, MetricOr0(fin, GrossBeforeColumn), MetricOr0(fin, DiscountsColumn),
                   peak, slow, sales, txn, DayAvgTicket(sales, txn),
                   Peaks(day, SlotSales, peak), Slows(day, SlotSales, slow)))
  }

  /**
   * The day's figures: its rows come in slot order, its Net Sales and transactions are
   * the totals the daily table holds for the date, and its gross and discount metrics
   * are those of the date's first daily row.
   */
  lemma DayViewContent(table: seq<DailyRow>, slots: seq<DatedSlot>, choice: string, pk: int, sk: int)
    requires PeakPercent(pk) && SlowPercent(sk)
    requires exists row :: row in table && row.record.date == choice
    requires DayViewOf(table, slots, choice, pk, sk).Some?
    ensures var d := DayViewOf(table, slots, choice, pk, sk).value;
      && d.slots != []
      && (forall i, j :: 0 <= i < j < |d.slots| ==> KeyLe(TimeKey(d.slots[i]), TimeKey(d.slots[j])))
      && TotalsOn(slots, choice).Some?
      && d.sales == TotalsOn(slots, choice).value.sales
      && d.transactions == TotalsOn(slots, choice).value.transactions
      && d.grossBefore == MetricOr0(FirstOn(table, choice).value, GrossBeforeColumn)
      && d.discounts == MetricOr0(FirstOn(table, choice).value, DiscountsColumn)
  {
    var d := DayViewOf(table, slots, choice, pk, sk).value;
    assert d.slots == DaySlots(slots, choice);
    SlotSumsPermuted(d.slots, SlotsOn(slots, choice));
  }

  /**
   * A day always has a peak and a slow slot: both thresholds exist, the slow one is at
   * most the peak one, and the day's best and worst slots reach them.
   */
  lemma DayThresholds(table: seq<DailyRow>, slots: seq<DatedSlot>, choice: string, pk: int, sk: int)
    requires PeakPercent(pk) && SlowPercent(sk)
    requires exists row :: row in table && row.record.date == choice
    requires DayViewOf(table, slots, choice, pk, sk).Some?
    ensures var d := DayViewOf(table, slots, choice, pk, sk).value;
      && d.peakThreshold.Some? && d.slowThreshold.Some?
      && d.slowThreshold.value <= d.peakThreshold.value
      && d.peaks != [] && d.slows != []
  {
    var d := DayViewOf(table, slots, choice, pk, sk).value;
    assert d.slots != [];
    SlowBelowPeak(Values(d.slots, SlotSales), pk, sk);
    PeaksNonEmpty(d.slots, SlotSales, pk);
    SlowsNonEmpty(d.slots, SlotSales, sk);
  }

  /** Every peak of the day is a row of the chosen date with sales at or above the peak threshold. */
  lemma DayPeaks(table: seq<DailyRow>, slots: seq<DatedSlot>, choice: string, pk: int, sk: int, x: DatedSlot)
    requires PeakPercent(pk) && SlowPercent(sk)
    requires exists row :: row in table && row.record.date == choice
    requires DayViewOf(table, slots, choice, pk, sk).Some?
    ensures var d := DayViewOf(table, slots, choice, pk, sk).value;
      x in d.peaks <==> x in slots && x.record.date == choice && d.peakThreshold.Some? && x.record.slot.sales >= d.peakThreshold.value
  {
    var d := DayViewOf(table, slots, choice, pk, sk).value;
    assert x in d.slots <==> x in SlotsOn(slots, choice) by {
      assert x in d.slots <==> multiset(d.slots)[x] > 0;
    }
    assert x in d.peaks <==> multiset(d.peaks)[x] > 0;
  }

  /** Every slow row of the day is a row of the chosen date with sales at or below the slow threshold. */
  lemma DaySlows(table: seq<DailyRow>, slots: seq<DatedSlot>, choice: string, pk: int, sk: int, x: DatedSlot)
    requires PeakPercent(pk) && SlowPercent(sk)
    requires exists row :: row in table && row.record.date == choice
    requires DayViewOf(table, slots, choice, pk, sk).Some?
    ensures var d := DayViewOf(table, slots, choice, pk, sk).value;
      x in d.slows <==> x in slots && x.record.date == choice && d.slowThreshold.Some? && x.record.slot.sales <= d.slowThreshold.value
  {
    var d := DayViewOf(table, slots, choice, pk, sk).value;
    assert x in d.slots <==> x in SlotsOn(slots, choice) by {
      assert x in d.slots <==> multiset(d.slots)[x] > 0;
    }
    assert x in d.slows <==> multiset(d.slows)[x] > 0;
  }
}
