/**
 * The weekly performance table: the slot rows grouped by week label (sales,
 * transactions, number of distinct days, first week start), joined on the label with
 * the weekly sums of three financial-control metrics of the daily table, with the
 * zero-safe ratios, ordered by week start, and the week-over-week change.
 */
module Weekly {
  import opened Wrappers
  import opened SalesWeek
  import opened Sorting
  import opened Stats
  import opened Workbook

  // ---------------------------------------------------------------------------
  // Grouping the slot rows

  /** The week labels of the slot rows, each once, in order of first appearance. */
  function LabelsOf(slots: seq<DatedSlot>): (ls: seq<WeekLabel>)
    ensures forall x :: x in slots ==> x.weekLabel in ls
    ensures forall i :: 0 <= i < |ls| ==> exists x :: x in slots && x.weekLabel == ls[i]
    ensures forall i, j :: 0 <= i < j < |ls| ==> ls[i] != ls[j]
  {
    if slots == [] then []
    else
      var init := slots[..|slots| - 1];
      var last := slots[|slots| - 1];
      var p := LabelsOf(init);
      assert slots == init + [last];
      assert forall x :: x in slots <==> x in init || x == last;
      if last.weekLabel in p then p else p + [last.weekLabel]
  }

  /** The slot rows of one week label, in order. */
  function InWeek(slots: seq<DatedSlot>, l: WeekLabel): (g: seq<DatedSlot>)
    ensures forall x :: x in g <==> x in slots && x.weekLabel == l
    ensures |g| <= |slots|
  {
    if slots == [] then []
    else
      var rest := InWeek(slots[1..], l);
      assert forall x :: x in slots <==> x == slots[0] || x in slots[1..];
      if slots[0].weekLabel == l then [slots[0]] + rest else rest
  }

  /** The distinct date texts of some slot rows: `nunique` of "Date". */
  function DatesOf(slots: seq<DatedSlot>): set<string> {
    set x | x in slots :: x.record.date
  }

  /** A non-empty group has at least one and at most as many distinct days as rows. */
  lemma {:induction false} DatesOfBounds(slots: seq<DatedSlot>)
    ensures |DatesOf(slots)| <= |slots|
    ensures slots != [] ==> |DatesOf(slots)| >= 1
  {
    if slots != [] {
      DatesOfBounds(slots[1..]);
      assert DatesOf(slots) == {slots[0].record.date} + DatesOf(slots[1..]) by {
        assert forall x :: x in slots <==> x == slots[0] || x in slots[1..];
      }
      assert slots[0].record.date in DatesOf(slots);
    }
  }

  // ---------------------------------------------------------------------------
  // The weekly financial metrics

  const GrossBeforeColumn := "Gross Sales Before Discounts"
  const DiscountsColumn := "Total Discounts"
  const GrossAfterColumn := "Gross Sales After Discounts"

  /** The metric columns `weekly_fin` sums, in the order they are named. */
  const FinColumns := [GrossBeforeColumn, DiscountsColumn, GrossAfterColumn]

  /** The daily frame has a column for a metric when some sheet recorded it. */
  predicate HasColumn(days: seq<DayRecord>, key: string) {
    exists d :: d in days && key in d.metrics
  }

  /** The names among `keys` that are no column of the daily frame, in order. */
  function Missing(days: seq<DayRecord>, keys: seq<string>): (m: seq<string>)
    ensures forall k :: k in m <==> k in keys && !HasColumn(days, k)
  {
    if keys == [] then []
    else
      var rest := Missing(days, keys[1..]);
      assert forall k :: k in keys <==> k == keys[0] || k in keys[1..];
      if HasColumn(days, keys[0]) then rest else [keys[0]] + rest
  }

  /** A day's value of a metric; a day without it counts as 0 in the sum, as a NaN does. */
  function MetricOr0(r: DailyRow, key: string): real {
    if key in r.record.metrics then r.record.metrics[key] else 0.0
  }

  function MetricColumn(rows: seq<DailyRow>, key: string): (c: seq<real>)
    ensures |c| == |rows| && forall i :: 0 <= i < |rows| ==> c[i] == MetricOr0(rows[i], key)
  {
    seq(|rows|, i requires 0 <= i < |rows| => MetricOr0(rows[i], key))
  }

  /** The daily rows of one week label, in order. */
  function DaysInWeek(table: seq<DailyRow>, l: WeekLabel): (g: seq<DailyRow>)
    ensures forall r :: r in g <==> r in table && r.weekLabel == l
  {
    if table == [] then []
    else
      var rest := DaysInWeek(table[1..], l);
      assert forall r :: r in table <==> r == table[0] || r in table[1..];
      if table[0].weekLabel == l then [table[0]] + rest else rest
  }

  /** A row of `weekly_fin`. */
  datatype WeekFin = WeekFin(grossBefore: real, discounts: real, grossAfter: real)

  /**
   * The left merge on "Week_Label": the week's metric sums, or nothing when no daily
   * row carries the label.
   */
  function FinOf(table: seq<DailyRow>, l: WeekLabel): (f: Option<WeekFin>)
    ensures f.None? <==> forall r :: r in table ==> r.weekLabel != l
    ensures f.Some? ==>
      var g := DaysInWeek(table, l);
      && f.value.grossBefore == Sum(MetricColumn(g, GrossBeforeColumn))
      && f.value.discounts == Sum(MetricColumn(g, DiscountsColumn))
      && f.value.grossAfter == Sum(MetricColumn(g, GrossAfterColumn))
  {
    var g := DaysInWeek(table, l);
    if g == [] then
      assert forall r :: r in table ==> r.weekLabel != l by {
        forall r | r in table
          ensures r.weekLabel != l
        {
        }
      }
      None
    else
      assert g[0] in table;
      Some(WeekFin(Sum(MetricColumn(g, GrossBeforeColumn)), Sum(MetricColumn(g, DiscountsColumn)),
                   Sum(MetricColumn(g, GrossAfterColumn))))
  }

  // ---------------------------------------------------------------------------
  // One week

  /** A row of `weekly_stats` before the week-over-week columns. */
  datatype WeekStats = WeekStats(
    weekLabel: WeekLabel, sales: real, transactions: real, days: nat, start: int,
    fin: Option<WeekFin>, avgTicket: Option<real>, avgDailySales: real, discountRate: Option<real>)

  /** `Discounts / Gross_Before.replace(0, NaN) * 100`: no rate without a gross figure. */
  function DiscountRate(fin: Option<WeekFin>): (r: Option<real>)
    ensures r.None? <==> fin.None? || fin.value.grossBefore == 0.0
    ensures r.Some? ==> r.value * fin.value.grossBefore == fin.value.discounts * 100.0
  {
    match fin
    case None => None
    case Some(f) => if f.grossBefore == 0.0 then None else Some(f.discounts / f.grossBefore * 100.0)
  }

  /** `Week_Sales / Days_in_Week`. */
  function PerDay(sales: real, days: nat): (r: real)
    requires days >= 1
    ensures r * days as real == sales
  {
    sales / days as real
  }

  /** A week's row from its base figures: the ratio columns follow from the sums. */
  function WeekOf(l: WeekLabel, sales: real, txn: real, days: nat, start: int, fin: Option<WeekFin>): WeekStats
    requires days >= 1
  {
    WeekStats(l, sales, txn, days, start, fin, Ratio(sales, txn), PerDay(sales, days), DiscountRate(fin))
  }

  function WeekStatsOf(slots: seq<DatedSlot>, table: seq<DailyRow>, l: WeekLabel): (w: WeekStats)
    requires InWeek(slots, l) != []
    ensures w.weekLabel == l && w.days >= 1
    ensures w == WeekOf(l, w.sales, w.transactions, w.days, w.start, w.fin)
  {
    var g := InWeek(slots, l);
    var sales := Sum(SalesOf(g));
    var txn := Sum(TransactionsOf(g));
    var days := |DatesOf(g)|;
    DatesOfBounds(g);
    var fin := FinOf(table, l);
    WeekOf(l, sales, txn, days, g[0].week.start, fin)
  }

  /** The groups of the given labels, in order. */
  function GroupsOf(slots: seq<DatedSlot>, table: seq<DailyRow>, ls: seq<WeekLabel>): (ws: seq<WeekStats>)
    requires forall l :: l in ls ==> InWeek(slots, l) != []
    ensures |ws| == |ls| && forall i :: 0 <= i < |ls| ==> ws[i].weekLabel == ls[i]
  {
    if ls == [] then []
    else [WeekStatsOf(slots, table, ls[0])] + GroupsOf(slots, table, ls[1..])
  }

  lemma {:induction false} GroupsOfAt(slots: seq<DatedSlot>, table: seq<DailyRow>, ls: seq<WeekLabel>, i: nat)
    requires forall l :: l in ls ==> InWeek(slots, l) != []
    requires i < |ls|
    ensures GroupsOf(slots, table, ls)[i] == WeekStatsOf(slots, table, ls[i])
  {
    if i > 0 {
      GroupsOfAt(slots, table, ls[1..], i - 1);
    }
  }

  /** The slot groups, one per label, in order of first appearance. */
  function Groups(slots: seq<DatedSlot>, table: seq<DailyRow>): (ws: seq<WeekStats>)
    ensures |ws| == |LabelsOf(slots)| && forall i :: 0 <= i < |ws| ==> ws[i].weekLabel == LabelsOf(slots)[i]
  {
    LabelsHaveSlots(slots);
    GroupsOf(slots, table, LabelsOf(slots))
  }

  /** The group at a position is the one of the label at that position. */
  lemma GroupsAt(slots: seq<DatedSlot>, table: seq<DailyRow>, i: nat)
    requires i < |LabelsOf(slots)|
    ensures InWeek(slots, LabelsOf(slots)[i]) != []
    ensures Groups(slots, table)[i] == WeekStatsOf(slots, table, LabelsOf(slots)[i])
  {
    LabelsHaveSlots(slots);
    GroupsOfAt(slots, table, LabelsOf(slots), i);
  }

  /** Every label has a non-empty group. */
  lemma LabelsHaveSlots(slots: seq<DatedSlot>)
    ensures forall l :: l in LabelsOf(slots) ==> InWeek(slots, l) != []
  {
    forall l | l in LabelsOf(slots)
      ensures InWeek(slots, l) != []
    {
      var x :| x in slots && x.weekLabel == l;
      assert x in InWeek(slots, l);
    }
  }

  function ByStart(a: WeekStats, b: WeekStats): bool {
    a.start <= b.start
  }

  lemma ByStartTotalPreorder()
    ensures TotalPreorder(ByStart)
  {
  }

  // ---------------------------------------------------------------------------
  // Week-over-week change

  /** `pct_change() * 100` of one row: nothing before the first row, ±inf or NaN after a 0. */
  datatype Growth = NoPrior | Change(percent: real) | Unbounded(up: bool) | Undefined

  /** A figure grown by `percent` per cent. */
  function Grown(prev: real, percent: real): real {
    prev * (1.0 + percent / 100.0)
  }

  function PctChange(prev: real, cur: real): (g: Growth)
    ensures g.Change? <==> prev != 0.0
    ensures g.Change? ==> cur == Grown(prev, g.percent)
    ensures g.Unbounded? <==> prev == 0.0 && cur != 0.0
    ensures g.Unbounded? ==> (g.up <==> cur > 0.0)
    ensures g.Undefined? <==> prev == 0.0 && cur == 0.0
  {
    if prev == 0.0 then
      if cur > 0.0 then Unbounded(true) else if cur < 0.0 then Unbounded(false) else Undefined
    else
      var p := (cur / prev - 1.0) * 100.0;
      assert Grown(prev, p) == cur;
      Change(p)
  }

  /** A row of `weekly_stats` with its sales and transaction growth over the previous row. */
  datatype WeekRow = WeekRow(stats: WeekStats, salesGrowth: Growth, txnGrowth: Growth)

  function WithGrowth(ws: seq<WeekStats>): (rows: seq<WeekRow>)
    ensures |rows| == |ws| && forall i :: 0 <= i < |ws| ==> rows[i].stats == ws[i]
  {
    seq(|ws|, i requires 0 <= i < |ws| =>
      if i == 0 then WeekRow(ws[i], NoPrior, NoPrior)
      else WeekRow(ws[i], PctChange(ws[i - 1].sales, ws[i].sales),
                   PctChange(ws[i - 1].transactions, ws[i].transactions)))
  }

  /**
   * Week-over-week change: the first week has none; a later week's change is relative
   * to the week before it, so each week's figure is recovered from the previous one's.
   */
  lemma GrowthRecovers(ws: seq<WeekStats>, i: nat)
    requires i < |ws|
    ensures var rows := WithGrowth(ws);
      i == 0 ==> rows[i].salesGrowth == NoPrior && rows[i].txnGrowth == NoPrior
    ensures var rows := WithGrowth(ws);
      0 < i ==> ((rows[i].salesGrowth.Change? <==> ws[i - 1].sales != 0.0)
              && (rows[i].txnGrowth.Change? <==> ws[i - 1].transactions != 0.0))
    ensures var rows := WithGrowth(ws);
      0 < i && rows[i].salesGrowth.Change? ==>
        ws[i].sales == Grown(ws[i - 1].sales, rows[i].salesGrowth.percent)
    ensures var rows := WithGrowth(ws);
      0 < i && rows[i].txnGrowth.Change? ==>
        ws[i].transactions == Grown(ws[i - 1].transactions, rows[i].txnGrowth.percent)
    ensures var rows := WithGrowth(ws);
      0 < i && rows[i].salesGrowth.Unbounded? ==>
        ws[i - 1].sales == 0.0 && (rows[i].salesGrowth.up <==> ws[i].sales > 0.0)
  {
    if 0 < i {
      var g := PctChange(ws[i - 1].sales, ws[i].sales);
      var h := PctChange(ws[i - 1].transactions, ws[i].transactions);
      assert WithGrowth(ws)[i] == WeekRow(ws[i], g, h);
    }
  }

  // ---------------------------------------------------------------------------
  // The weekly table

  /** `sort_values("Week_Start")` of the merged weekly rows. */
  function Arranged(slots: seq<DatedSlot>, table: seq<DailyRow>): (ws: seq<WeekStats>)
    ensures multiset(ws) == multiset(Groups(slots, table))
    ensures forall i, j :: 0 <= i < j < |ws| ==> ws[i].start <= ws[j].start
  {
    ByStartTotalPreorder();
    var ws := SortBy(Groups(slots, table), ByStart);
    assert forall i, j :: 0 <= i < j < |ws| ==> ByStart(ws[i], ws[j]);
    ws
  }

  /** The rows of the weekly table when the daily frame has every metric column. */
  function Weeks(slots: seq<DatedSlot>, table: seq<DailyRow>): seq<WeekRow> {
    WithGrowth(Arranged(slots, table))
  }

  /**
   * The weekly section: nothing without slot rows; a failure naming the missing metric
   * columns when the daily frame lacks one; otherwise the weeks in order of start.
   * `days` are the daily records of every sheet (they decide which columns exist),
   * `table` the daily table and `slots` the dated slot rows.
   */
  function WeeklyTable(days: seq<DayRecord>, table: seq<DailyRow>, slots: seq<DatedSlot>): (r: Result<seq<WeekRow>, seq<string>>)
    ensures r.Failure? <==> slots != [] && exists k :: k in FinColumns && !HasColumn(days, k)
    ensures r.Failure? ==> forall k :: k in r.error <==> k in FinColumns && !HasColumn(days, k)
    ensures r.Success? ==> r.value == Weeks(slots, table)
  {
    if slots == [] then Success([])
    else
      var missing := Missing(days, FinColumns);
      if missing != [] then
        assert missing[0] in missing;
        Failure(missing)
      else
        Success(Weeks(slots, table))
  }

  /** Each element of a rearrangement of the groups is the group of one label. */
  lemma PermutedGroup(slots: seq<DatedSlot>, table: seq<DailyRow>, ws: seq<WeekStats>, i: nat) returns (k: nat)
    requires multiset(ws) == multiset(Groups(slots, table)) && i < |ws|
    ensures k < |LabelsOf(slots)| && InWeek(slots, LabelsOf(slots)[k]) != []
    ensures ws[i] == WeekStatsOf(slots, table, LabelsOf(slots)[k])
  {
    var g := Groups(slots, table);
    assert ws[i] in multiset(g);
    k :| 0 <= k < |g| && g[k] == ws[i];
    GroupsAt(slots, table, k);
  }

  /** A rearrangement of the groups has a row for every label of the slot rows. */
  lemma PermutedHasLabel(slots: seq<DatedSlot>, table: seq<DailyRow>, ws: seq<WeekStats>, x: DatedSlot)
    requires multiset(ws) == multiset(Groups(slots, table)) && x in slots
    ensures exists i :: 0 <= i < |ws| && ws[i].weekLabel == x.weekLabel
  {
    var ls := LabelsOf(slots);
    var g := Groups(slots, table);
    var k :| 0 <= k < |ls| && ls[k] == x.weekLabel;
    assert g[k] in multiset(ws);
    var i :| 0 <= i < |ws| && ws[i] == g[k];
  }

  /** Every row of a rearrangement of the groups has the label of some slot row. */
  lemma PermutedRowLabel(slots: seq<DatedSlot>, table: seq<DailyRow>, ws: seq<WeekStats>, i: nat)
    requires multiset(ws) == multiset(Groups(slots, table)) && i < |ws|
    ensures exists x :: x in slots && x.weekLabel == ws[i].weekLabel
  {
    var ls := LabelsOf(slots);
    var g := Groups(slots, table);
    assert ws[i] in multiset(g);
    var k :| 0 <= k < |g| && g[k] == ws[i];
    assert ls[k] == ws[i].weekLabel;
  }

  /** No label has two rows in a rearrangement of the groups. */
  lemma PermutedDistinct(slots: seq<DatedSlot>, table: seq<DailyRow>, ws: seq<WeekStats>)
    requires multiset(ws) == multiset(Groups(slots, table))
    ensures forall i, j :: 0 <= i < j < |ws| ==> ws[i].weekLabel != ws[j].weekLabel
  {
    var g := Groups(slots, table);
    forall i, j | 0 <= i < j < |ws|
      ensures ws[i].weekLabel != ws[j].weekLabel
    {
      SortedDistinct(g, ws, i, j);
    }
  }

  /** Each row of the weekly table is the group of one label of the slot rows. */
  lemma WeeksGroup(slots: seq<DatedSlot>, table: seq<DailyRow>, i: nat) returns (k: nat)
    requires i < |Weeks(slots, table)|
    ensures k < |LabelsOf(slots)| && InWeek(slots, LabelsOf(slots)[k]) != []
    ensures Weeks(slots, table)[i].stats == WeekStatsOf(slots, table, LabelsOf(slots)[k])
  {
    k := PermutedGroup(slots, table, Arranged(slots, table), i);
  }

  /**
   * The weekly table has one row per week label of the slot rows: a label has a row
   * exactly when some slot row carries it, and no label has two.
   */
  lemma WeeksLabels(slots: seq<DatedSlot>, table: seq<DailyRow>, l: WeekLabel)
    ensures var rows := Weeks(slots, table);
      (exists i :: 0 <= i < |rows| && rows[i].stats.weekLabel == l) <==> (exists x :: x in slots && x.weekLabel == l)
    ensures var rows := Weeks(slots, table);
      forall i, j :: 0 <= i < j < |rows| ==> rows[i].stats.weekLabel != rows[j].stats.weekLabel
  {
    var ws := Arranged(slots, table);
    PermutedDistinct(slots, table, ws);
    var rows := Weeks(slots, table);
    assert forall i :: 0 <= i < |rows| ==> rows[i].stats == ws[i];
    if x :| x in slots && x.weekLabel == l {
      PermutedHasLabel(slots, table, ws, x);
    }
    if i :| 0 <= i < |rows| && rows[i].stats.weekLabel == l {
      PermutedRowLabel(slots, table, ws, i);
    }
  }

  /** Two positions of a permutation of the groups hold groups of different labels. */
  lemma SortedDistinct(g: seq<WeekStats>, ws: seq<WeekStats>, i: nat, j: nat)
    requires multiset(ws) == multiset(g) && i < j < |ws|
    requires forall a, b :: 0 <= a < b < |g| ==> g[a].weekLabel != g[b].weekLabel
    ensures ws[i].weekLabel != ws[j].weekLabel
  {
    assert ws[i] in multiset(g) && ws[j] in multiset(g);
    var a :| 0 <= a < |g| && g[a] == ws[i];
    var b :| 0 <= b < |g| && g[b] == ws[j];
    if ws[i].weekLabel == ws[j].weekLabel {
      assert a == b;
      DistinctCount(g, a);
      RepeatedCount(ws, i, j);
      assert false;
    }
  }

  /** An element at two positions occurs at least twice. */
  lemma RepeatedCount<T>(s: seq<T>, i: nat, j: nat)
    requires i < j < |s| && s[i] == s[j]
    ensures multiset(s)[s[i]] >= 2
  {
    assert s == s[..j] + s[j..];
    assert s[..j][i] == s[i];
    assert s[j..][0] == s[i];
  }

  /** In a sequence with pairwise different labels, every element occurs once. */
  lemma {:induction false} DistinctCount(g: seq<WeekStats>, a: nat)
    requires a < |g|
    requires forall p, q :: 0 <= p < q < |g| ==> g[p].weekLabel != g[q].weekLabel
    ensures multiset(g)[g[a]] == 1
  {
    var x := g[a];
    var init := g[..|g| - 1];
    assert g == init + [g[|g| - 1]];
    if a == |g| - 1 {
      assert x !in init;
    } else {
      DistinctCount(init, a);
      assert g[|g| - 1] != x;
    }
  }

  /**
   * Each week's row: the sums of its slot rows' sales and transactions, the number of
   * distinct days among them, the week start of the first of them, the weekly metric
   * sums of the daily rows with its label, and the zero-safe ratios.
   */
  lemma WeeksContent(slots: seq<DatedSlot>, table: seq<DailyRow>, i: nat)
    requires i < |Weeks(slots, table)|
    ensures var w := Weeks(slots, table)[i].stats;
      var g := InWeek(slots, w.weekLabel);
      && g != []
      && w.sales == Sum(SalesOf(g)) && w.transactions == Sum(TransactionsOf(g))
      && w.days == |DatesOf(g)| && 1 <= w.days <= |g|
      && w.start == g[0].week.start
      && w.fin == FinOf(table, w.weekLabel)
  {
    var k := WeeksGroup(slots, table, i);
    DatesOfBounds(InWeek(slots, LabelsOf(slots)[k]));
  }

  /** A week's average ticket is zero-safe and its daily average spreads its sales over its days. */
  lemma WeekAverages(l: WeekLabel, sales: real, txn: real, days: nat, start: int, fin: Option<WeekFin>)
    requires days >= 1
    ensures var w := WeekOf(l, sales, txn, days, start, fin);
      && (w.avgTicket.None? <==> txn == 0.0)
      && (w.avgTicket.Some? ==> w.avgTicket.value * txn == sales)
      && w.avgDailySales * days as real == sales
  {
  }

  /** A week's discount rate: none without a gross figure, else discounts per hundred of gross. */
  lemma WeekDiscountRate(l: WeekLabel, sales: real, txn: real, days: nat, start: int, fin: Option<WeekFin>)
    requires days >= 1
    ensures var w := WeekOf(l, sales, txn, days, start, fin);
      && (w.discountRate.None? <==> fin.None? || fin.value.grossBefore == 0.0)
      && (w.discountRate.Some? ==> w.discountRate.value * fin.value.grossBefore == fin.value.discounts * 100.0)
  {
  }

  /** Slot rows whose week and label follow from their parsed date, as `DatedSlots` makes them. */
  predicate Dated(slots: seq<DatedSlot>) {
    forall x :: x in slots ==> x == DatedSlotOf(x.record, x.parsed)
  }

  /** Different week labels are different sales weeks, so the table is strictly ordered by start. */
  lemma WeeksSorted(slots: seq<DatedSlot>, table: seq<DailyRow>)
    requires Dated(slots)
    ensures var rows := Weeks(slots, table);
      forall i, j :: 0 <= i < j < |rows| ==> rows[i].stats.start < rows[j].stats.start
  {
    var rows := Weeks(slots, table);
    forall i, j | 0 <= i < j < |rows|
      ensures rows[i].stats.start < rows[j].stats.start
    {
      WeeksLabels(slots, table, rows[i].stats.weekLabel);
      if rows[i].stats.start == rows[j].stats.start {
        StartDeterminesLabel(slots, table, i, j);
      }
    }
  }

  /** Two rows of the weekly table with the same start have the same label. */
  lemma StartDeterminesLabel(slots: seq<DatedSlot>, table: seq<DailyRow>, i: nat, j: nat)
    requires Dated(slots)
    requires i < |Weeks(slots, table)| && j < |Weeks(slots, table)|
    requires Weeks(slots, table)[i].stats.start == Weeks(slots, table)[j].stats.start
    ensures Weeks(slots, table)[i].stats.weekLabel == Weeks(slots, table)[j].stats.weekLabel
  {
    var a := WeeksGroup(slots, table, i);
    var b := WeeksGroup(slots, table, j);
    var ls := LabelsOf(slots);
    var x := InWeek(slots, ls[a])[0];
    var y := InWeek(slots, ls[b])[0];
    assert x in InWeek(slots, ls[a]) && y in InWeek(slots, ls[b]);
    WeekLabelOfWeek(x.parsed, y.parsed);
  }

  /**
   * When the daily table and the slot rows come from the same sheets, the left merge
   * always finds the week's financial row: every slot label is the label of the daily
   * row of its own sheet.
   */
  lemma WeeksFinFound(rs: seq<SheetRead>, parseDate: string -> Option<Date>, i: nat)
    requires var slots := SlotRecords(rs);
      i < |Weeks(DatedSlots(slots, parseDate), DailyTable(DayRecords(rs), slots, parseDate))|
    ensures var slots := SlotRecords(rs);
      Weeks(DatedSlots(slots, parseDate), DailyTable(DayRecords(rs), slots, parseDate))[i].stats.fin.Some?
  {
    var slots := SlotRecords(rs);
    var table := DailyTable(DayRecords(rs), slots, parseDate);
    var dated := DatedSlots(slots, parseDate);
    var k := WeeksGroup(dated, table, i);
    var l := LabelsOf(dated)[k];
    var x :| x in dated && x.weekLabel == l;
    SlotHasDailyRow(rs, parseDate, x);
  }
}
