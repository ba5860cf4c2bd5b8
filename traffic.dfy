/**
 * The traffic dashboard's loader: each day sheet yields its (Day, Time, Total) rows,
 * the rows whose time label parses and whose Total is a number, and each day with rows
 * gets a line of statistics (slot count, total, mean, extremes, sample standard
 * deviation and coefficient of variation).
 *
 * A day sheet is its grid as `read_excel(header=None)` gives it. Reading it with
 * `skiprows=15` makes row 15 the header; the fallback re-read with `header=h` makes row
 * `h` the header. Either way the data rows are the rows after the header row.
 */
module Traffic {
  import opened Wrappers
  import opened Text
  import opened Cells
  import opened Clock
  import opened Stats
  import opened Sorting
  import opened Ranking

  datatype DaySheet = DaySheet(name: string, grid: Frame)

  /** A row of `all_df`. */
  datatype TrafficRow = TrafficRow(day: string, time: string, total: real)

  /** `skiprows=15`: the header row the sheets usually have. */
  const UsualHeader: nat := 15

  /** `range(min(len(raw), 60))`: how far the fallback looks for a header row. */
  const ScanLimit: nat := 60

  /** A header cell making a column `"Total"`: exactly that text. */
  predicate NamedTotal(c: Cell) {
    c == Str("Total")
  }

  /** `any(cell.strip().lower() == "total" for cell in row)`, cell by cell. */
  predicate MentionsTotal(row: Row) {
    row != [] && (Normalized(row[0]) == "total" || MentionsTotal(row[1..]))
  }

  /** A row mentions "total" exactly when one of its cells reads "total" once trimmed and lower-cased. */
  lemma {:induction false} MentionsTotalCell(row: Row)
    ensures MentionsTotal(row) <==> exists k :: 0 <= k < |row| && Normalized(row[k]) == "total"
  {
    if row != [] {
      MentionsTotalCell(row[1..]);
      if MentionsTotal(row[1..]) {
        var k :| 0 <= k < |row[1..]| && Normalized(row[1..][k]) == "total";
        assert row[k + 1] == row[1..][k];
      }
      if exists k :: 0 <= k < |row| && Normalized(row[k]) == "total" {
        var k :| 0 <= k < |row| && Normalized(row[k]) == "total";
        if k > 0 {
          assert row[1..][k - 1] == row[k];
        }
      }
    }
  }

  /** The first column at or after `k` whose header is `"Total"`. */
  function TotalColumnFrom(row: Row, k: nat): (r: Option<nat>)
    requires k <= |row|
    ensures r.None? <==> forall m :: k <= m < |row| ==> !NamedTotal(row[m])
    ensures r.Some? ==> k <= r.value < |row| && NamedTotal(row[r.value])
    ensures r.Some? ==> forall m :: k <= m < r.value ==> !NamedTotal(row[m])
    decreases |row| - k
  {
    if k == |row| then None
    else if NamedTotal(row[k]) then Some(k)
    else TotalColumnFrom(row, k + 1)
  }

  /** `df["Total"]`: the first column whose header is `"Total"`. */
  function TotalColumn(row: Row): (r: Option<nat>)
    ensures r.None? <==> forall m :: 0 <= m < |row| ==> !NamedTotal(row[m])
    ensures r.Some? ==> r.value < |row| && NamedTotal(row[r.value])
    ensures r.Some? ==> forall m :: 0 <= m < r.value ==> !NamedTotal(row[m])
  {
    TotalColumnFrom(row, 0)
  }

  /** `"Total" in df.columns` for the header row `h`. */
  predicate HasTotalColumn(grid: Frame, h: nat) {
    h < |grid.rows| && TotalColumn(grid.rows[h]).Some?
  }

  function ScanEnd(grid: Frame): (n: nat)
    ensures n <= |grid.rows| && n <= ScanLimit
    ensures n == |grid.rows| || n == ScanLimit
  {
    if |grid.rows| < ScanLimit then |grid.rows| else ScanLimit
  }

  /** The first row in `[i, n)` mentioning "total". */
  function ScanFrom(rows: seq<Row>, i: nat, n: nat): (r: Option<nat>)
    requires i <= n <= |rows|
    ensures r.None? <==> forall j :: i <= j < n ==> !MentionsTotal(rows[j])
    ensures r.Some? ==> i <= r.value < n && MentionsTotal(rows[r.value])
    ensures r.Some? ==> forall j :: i <= j < r.value ==> !MentionsTotal(rows[j])
    decreases n - i
  {
    if i == n then None
    else if MentionsTotal(rows[i]) then Some(i)
    else ScanFrom(rows, i + 1, n)
  }

  /** The fallback's header row: the first of the first 60 rows mentioning "total". */
  function FirstMention(grid: Frame): (r: Option<nat>)
    ensures r.None? <==> forall j :: 0 <= j < ScanEnd(grid) ==> !MentionsTotal(grid.rows[j])
    ensures r.Some? ==> r.value < ScanEnd(grid) && MentionsTotal(grid.rows[r.value])
    ensures r.Some? ==> forall j :: 0 <= j < r.value ==> !MentionsTotal(grid.rows[j])
  {
    ScanFrom(grid.rows, 0, ScanEnd(grid))
  }

  /** A mentioning row with none before it is the first mention. */
  lemma FirstMentionAt(grid: Frame, i: nat)
    requires i < ScanEnd(grid) && MentionsTotal(grid.rows[i])
    requires forall j :: 0 <= j < i ==> !MentionsTotal(grid.rows[j])
    ensures FirstMention(grid) == Some(i)
  {
    var r := FirstMention(grid);
    assert r.Some?;
    assert !(r.value < i);
    assert !(i < r.value);
  }

  /** The header-scan loop of `load_day_sheet`, which stops at the first row mentioning "total". */
  method FindTotalHeader(grid: Frame) returns (r: Option<nat>)
    ensures r == FirstMention(grid)
  {
    var n := ScanEnd(grid);
    r := None;
    var i := 0;
    while i < n
      invariant 0 <= i <= n
      invariant r.None?
      invariant forall j :: 0 <= j < i ==> !MentionsTotal(grid.rows[j])
    {
      if MentionsTotal(grid.rows[i]) {
        FirstMentionAt(grid, i);
        r := Some(i);
        return;
      }
      i := i + 1;
    }
    assert FirstMention(grid).None?;
  }

  /** The header row the data is read under: row 15 when it names a Total column, else the fallback's. */
  function HeaderRow(grid: Frame): Option<nat> {
    if HasTotalColumn(grid, UsualHeader) then Some(UsualHeader) else FirstMention(grid)
  }

  /** `astype(str).str.strip()` of the first column, which holds the time labels. */
  function TimeLabels(data: seq<Row>): (ls: seq<string>)
    requires forall i :: 0 <= i < |data| ==> |data[i]| >= 1
    ensures |ls| == |data| && forall i :: 0 <= i < |data| ==> ls[i] == Trim(Shown(data[i][0]))
  {
    seq(|data|, i requires 0 <= i < |data| => Trim(Shown(data[i][0])))
  }

  /** `pd.to_numeric(..., errors="coerce")` of the Total column. */
  function Totals(data: seq<Row>, col: nat, num: string -> Option<real>): (ts: seq<Option<real>>)
    requires forall i :: 0 <= i < |data| ==> col < |data[i]|
    ensures |ts| == |data| && forall i :: 0 <= i < |data| ==> ts[i] == ToNumber(data[i][col], num)
  {
    seq(|data|, i requires 0 <= i < |data| => ToNumber(data[i][col], num))
  }

  /** The row a data row keeps when its time parsed and its Total is a number. */
  predicate Keeps(times: seq<Option<TimeOfDay>>, totals: seq<Option<real>>, i: int) {
    0 <= i < |times| && i < |totals| && times[i].Some? && totals[i].Some?
  }

  predicate ValidTimes(times: seq<Option<TimeOfDay>>) {
    forall i :: 0 <= i < |times| && times[i].Some? ==> Valid(times[i].value)
  }

  /** The clean row of data row `i`. */
  function KeptRow(name: string, times: seq<Option<TimeOfDay>>, totals: seq<Option<real>>, i: int): TrafficRow
    requires ValidTimes(times) && Keeps(times, totals, i)
  {
    TrafficRow(name, HourMinute24(times[i].value), totals[i].value)
  }

  /**
   * `clean[t.notna()]`, the "%H:%M" of the kept times, then `dropna(subset=["Total"])`
   * and the "Day" column: the rows whose time parsed and whose Total is a number, in order.
   */
  function Kept(name: string, times: seq<Option<TimeOfDay>>, totals: seq<Option<real>>): (r: seq<TrafficRow>)
    requires |times| == |totals| && ValidTimes(times)
    ensures |r| <= |times|
  {
    if times == [] then []
    else
      assert ValidTimes(times[1..]) by {
        assert forall i :: 0 <= i < |times[1..]| ==> times[1..][i] == times[i + 1];
      }
      var rest := Kept(name, times[1..], totals[1..]);
      if Keeps(times, totals, 0) then [KeptRow(name, times, totals, 0)] + rest else rest
  }

  /** Every clean row is that of a data row whose time parsed and whose Total is a number. */
  lemma {:induction false} KeptFrom(name: string, times: seq<Option<TimeOfDay>>, totals: seq<Option<real>>, x: TrafficRow)
    requires |times| == |totals| && ValidTimes(times)
    requires x in Kept(name, times, totals)
    ensures exists i :: Keeps(times, totals, i) && x == KeptRow(name, times, totals, i)
  {
    assert ValidTimes(times[1..]) by {
      assert forall i :: 0 <= i < |times[1..]| ==> times[1..][i] == times[i + 1];
    }
    if !(Keeps(times, totals, 0) && x == KeptRow(name, times, totals, 0)) {
      KeptFrom(name, times[1..], totals[1..], x);
      var i :| Keeps(times[1..], totals[1..], i) && x == KeptRow(name, times[1..], totals[1..], i);
      assert Keeps(times, totals, i + 1) && x == KeptRow(name, times, totals, i + 1);
    }
  }

  /** Every data row whose time parsed and whose Total is a number gives a clean row. */
  lemma {:induction false} KeptHas(name: string, times: seq<Option<TimeOfDay>>, totals: seq<Option<real>>, i: int)
    requires |times| == |totals| && ValidTimes(times)
    requires Keeps(times, totals, i)
    ensures KeptRow(name, times, totals, i) in Kept(name, times, totals)
    decreases i
  {
    assert ValidTimes(times[1..]) by {
      assert forall j :: 0 <= j < |times[1..]| ==> times[1..][j] == times[j + 1];
    }
    if i > 0 {
      KeptHas(name, times[1..], totals[1..], i - 1);
    }
  }

  /** Whatever parses is a valid time of day. */
  lemma ParsedValid(labels: seq<string>)
    ensures ValidTimes(ParseTimes(labels))
  {
  }

  /** The clean rows of the data rows under a header whose Total column is `col`. */
  function DayRows(name: string, data: seq<Row>, col: nat, num: string -> Option<real>): seq<TrafficRow>
    requires forall i :: 0 <= i < |data| ==> 1 <= |data[i]| && col < |data[i]|
  {
    var labels := TimeLabels(data);
    ParsedValid(labels);
    Kept(name, ParseTimes(labels), Totals(data, col, num))
  }

  /** The sheet read under header row `h`: pandas' KeyError without an exact "Total" column, else the clean rows. */
  function ReadUnder(s: DaySheet, h: nat, num: string -> Option<real>): (r: Result<seq<TrafficRow>, string>)
    requires Rectangular(s.grid) && h < |s.grid.rows|
    ensures r.Failure? <==> TotalColumn(s.grid.rows[h]).None?
    ensures r.Failure? ==> r.error == "Total"
  {
    match TotalColumn(s.grid.rows[h])
    case None => Failure("Total")
    case Some(col) =>
      assert |s.grid.rows[h]| == s.grid.width;
      Success(DayRows(s.name, s.grid.rows[h + 1..], col, num))
  }

  /**
   * `load_day_sheet`: no header row gives the empty table; a header row without an exact
   * "Total" column is pandas' KeyError, an error naming the column; otherwise the clean rows.
   */
  function ReadDay(s: DaySheet, num: string -> Option<real>): (r: Result<seq<TrafficRow>, string>)
    requires Rectangular(s.grid)
    ensures r.Failure? ==> r.error == "Total"
  {
    match HeaderRow(s.grid)
    case None => Success([])
    case Some(h) => ReadUnder(s, h, num)
  }

  /** `load_day_sheet`, with its header-scan loop. */
  method LoadDaySheet(s: DaySheet, num: string -> Option<real>) returns (r: Result<seq<TrafficRow>, string>)
    requires Rectangular(s.grid)
    ensures r == ReadDay(s, num)
  {
    var h: Option<nat>;
    if HasTotalColumn(s.grid, UsualHeader) {
      h := Some(UsualHeader);
    } else {
      h := FindTotalHeader(s.grid);
    }
    if h.None? {
      return Success([]);
    }
    r := ReadUnder(s, h.value, num);
  }

  /**
   * Which header applies: row 15 whenever it names a Total column; otherwise the first
   * of the first 60 rows with a cell reading "total" in any case and spacing; and the
   * sheet reads as empty when there is none.
   */
  lemma HeaderChoice(grid: Frame)
    ensures HasTotalColumn(grid, UsualHeader) ==> HeaderRow(grid) == Some(UsualHeader)
    ensures !HasTotalColumn(grid, UsualHeader) ==>
      (HeaderRow(grid).None? <==> forall j :: 0 <= j < |grid.rows| && j < ScanLimit ==> !MentionsTotal(grid.rows[j]))
    ensures HeaderRow(grid).Some? ==> HeaderRow(grid).value < |grid.rows|
  {
  }

  /** A sheet fails to load only through the fallback, when its header row has a "total" cell but no exact "Total". */
  lemma ReadDayFailure(s: DaySheet, num: string -> Option<real>)
    requires Rectangular(s.grid)
    ensures ReadDay(s, num).Failure? <==>
      !HasTotalColumn(s.grid, UsualHeader) && FirstMention(s.grid).Some? && TotalColumn(s.grid.rows[FirstMention(s.grid).value]).None?
  {
  }

  /**
   * The kept rows are exactly the data rows whose stripped time label parses (with the
   * format `parse_times` settles on) and whose Total is a number, carrying the sheet's
   * name, the "HH:MM" of the time and the number.
   */
  lemma ReadDayRows(s: DaySheet, num: string -> Option<real>, x: TrafficRow)
    requires Rectangular(s.grid)
    requires ReadDay(s, num).Success? && HeaderRow(s.grid).Some?
    ensures var h := HeaderRow(s.grid).value;
      var data := s.grid.rows[h + 1..];
      var col := TotalColumn(s.grid.rows[h]).value;
      var times := ParseTimes(TimeLabels(data));
      x in ReadDay(s, num).value <==>
        (exists i :: 0 <= i < |data| && times[i].Some? && ToNumber(data[i][col], num).Some?
          && x == TrafficRow(s.name, HourMinute24(times[i].value), ToNumber(data[i][col], num).value))
  {
    var h := HeaderRow(s.grid).value;
    assert |s.grid.rows[h]| == s.grid.width;
    var data := s.grid.rows[h + 1..];
    var col := TotalColumn(s.grid.rows[h]).value;
    var labels := TimeLabels(data);
    var times := ParseTimes(labels);
    var totals := Totals(data, col, num);
    ParsedValid(labels);
    assert ReadDay(s, num).value == Kept(s.name, times, totals);
    if x in Kept(s.name, times, totals) {
      KeptFrom(s.name, times, totals, x);
    }
    if exists i :: (0 <= i < |data| && times[i].Some? && ToNumber(data[i][col], num).Some?
      && x == TrafficRow(s.name, HourMinute24(times[i].value), ToNumber(data[i][col], num).value))
    {
      var i :| 0 <= i < |data| && times[i].Some? && ToNumber(data[i][col], num).Some?
        && x == TrafficRow(s.name, HourMinute24(times[i].value), ToNumber(data[i][col], num).value);
      KeptHas(s.name, times, totals, i);
    }
  }

  /** The "Total" summary row never survives: its label parses under neither format. */
  lemma SummaryRowDropped(labels: seq<string>, i: nat)
    requires i < |labels| && labels[i] == "Total"
    ensures ParseTimes(labels)[i].None?
  {
    TotalNeverParses(HourMinuteSecond);
    TotalNeverParses(HourMinute);
  }

  // ---------------------------------------------------------------------------
  // Per-day statistics

  function TotalOf(x: TrafficRow): real {
    x.total
  }

  /** A row of `daily_df`. */
  datatype DayStats = DayStats(
    day: string, slots: nat, total: real, avg: real, max: real, min: real,
    std: Option<real>, cv: Option<real>)

  /** `(std / avg) if avg else None`, then dropped when NaN: no ratio for a zero mean or an undefined deviation. */
  function Variation(std: Option<real>, avg: real): (r: Option<real>)
    ensures r.None? <==> std.None? || avg == 0.0
    ensures r.Some? ==> r.value * avg == std.value
  {
    if std.None? || avg == 0.0 then None else Some(std.value / avg)
  }

  /** The statistics of one day's rows. */
  function DayStatsOf(day: string, rows: seq<TrafficRow>, sqrt: real -> real): DayStats
    requires rows != []
  {
    var xs := Values(rows, TotalOf);
    var avg := Mean(xs);
    var std := StdDev(xs, sqrt);
    DayStats(day, |rows|, Sum(xs), avg, Max(xs), Min(xs), std, Variation(std, avg))
  }

  /**
   * A day's line: the count of its slots, the mean between the smallest and the largest
   * slot, every slot between those two, and the deviation defined from two slots on.
   */
  lemma DayStatsBounds(day: string, rows: seq<TrafficRow>, sqrt: real -> real)
    requires rows != []
    ensures var d := DayStatsOf(day, rows, sqrt);
      && d.day == day && d.slots == |rows| >= 1
      && d.min <= d.avg <= d.max
      && (forall x :: x in rows ==> d.min <= x.total <= d.max)
      && (d.std.None? <==> |rows| < 2)
      && (d.cv.None? <==> |rows| < 2 || d.avg == 0.0)
  {
    var xs := Values(rows, TotalOf);
    MeanBounds(xs);
    forall x | x in rows
      ensures Min(xs) <= x.total <= Max(xs)
    {
      var i :| 0 <= i < |rows| && rows[i] == x;
      assert xs[i] == x.total;
    }
  }

  /** The day's total is its mean times its slot count. */
  lemma DayStatsTotal(day: string, rows: seq<TrafficRow>, sqrt: real -> real)
    requires rows != []
    ensures var d := DayStatsOf(day, rows, sqrt); d.avg * d.slots as real == d.total
  {
    var xs := Values(rows, TotalOf);
    var d := DayStatsOf(day, rows, sqrt);
    assert d.avg == Mean(xs) && d.total == Sum(xs) && d.slots == |xs|;
    MeanTimesCount(xs);
  }

  // ---------------------------------------------------------------------------
  // The workbook

  predicate Grids(sheets: seq<DaySheet>) {
    forall i :: 0 <= i < |sheets| ==> Rectangular(sheets[i].grid)
  }

  /** What `load_day_sheet` gave for one sheet. */
  datatype DayRead = DayRead(name: string, read: Result<seq<TrafficRow>, string>)

  /** Every sheet read, in order. */
  function ReadAll(sheets: seq<DaySheet>, num: string -> Option<real>): (r: seq<DayRead>)
    requires Grids(sheets)
    ensures |r| == |sheets|
    ensures forall i :: 0 <= i < |sheets| ==> r[i] == DayRead(sheets[i].name, ReadDay(sheets[i], num))
  {
    seq(|sheets|, i requires 0 <= i < |sheets| => DayRead(sheets[i].name, ReadDay(sheets[i], num)))
  }

  /** Each sheet is read on its own: reading two runs of sheets is reading each run. */
  lemma ReadAllAppend(a: seq<DaySheet>, b: seq<DaySheet>, num: string -> Option<real>)
    requires Grids(a) && Grids(b)
    ensures Grids(a + b)
    ensures ReadAll(a + b, num) == ReadAll(a, num) + ReadAll(b, num)
  {
  }

  /**
   * The loop of `load_all_days` over the sheets in order: the first sheet that fails
   * fails the whole load; a sheet with rows adds them to `all_rows` and its statistics
   * to `daily_rows`; an empty one adds nothing.
   */
  function Combine(rs: seq<DayRead>, sqrt: real -> real): (r: Result<(seq<TrafficRow>, seq<DayStats>), string>)
  {
    if rs == [] then Success(([], []))
    else
      var n := |rs| - 1;
      match Combine(rs[..n], sqrt)
      case Failure(e) => Failure(e)
      case Success(acc) =>
        match rs[n].read
        case Failure(e) => Failure(e)
        case Success(day) =>
          if day == [] then Success(acc)
          else Success((acc.0 + day, acc.1 + [DayStatsOf(rs[n].name, day, sqrt)]))
  }

  /** A failure of the sheets read so far is the failure of the whole load. */
  lemma {:induction false} FailureStays(rs: seq<DayRead>, sqrt: real -> real, m: nat)
    requires m <= |rs| && Combine(rs[..m], sqrt).Failure?
    ensures Combine(rs, sqrt) == Combine(rs[..m], sqrt)
    decreases |rs| - m
  {
    if m < |rs| {
      assert rs[..m + 1][..m] == rs[..m];
      FailureStays(rs, sqrt, m + 1);
    } else {
      assert rs[..m] == rs;
    }
  }

  /** `sort_values("Day")` on the statistics. */
  function ByDay(a: DayStats, b: DayStats): bool {
    LexLe(a.day, b.day)
  }

  lemma ByDayTotalPreorder()
    ensures TotalPreorder(ByDay)
  {
    forall a: DayStats, b: DayStats
      ensures ByDay(a, b) || ByDay(b, a)
    {
      LexLeTotal(a.day, b.day);
    }
    forall a: DayStats, b: DayStats, c: DayStats | ByDay(a, b) && ByDay(b, c)
      ensures ByDay(a, c)
    {
      LexLeTransitive(a.day, b.day, c.day);
    }
  }

  /** `daily_df`: the days' statistics in order of the day name. */
  function SortedByDay(stats: seq<DayStats>): (r: seq<DayStats>)
    ensures multiset(r) == multiset(stats)
    ensures forall i, j :: 0 <= i < j < |r| ==> LexLe(r[i].day, r[j].day)
  {
    ByDayTotalPreorder();
    var r := SortBy(stats, ByDay);
    assert forall i, j :: 0 <= i < j < |r| ==> ByDay(r[i], r[j]);
    r
  }

  /** What `load_all_days` returns: `all_df` in sheet order and `daily_df` by day. */
  function Loaded(sheets: seq<DaySheet>, num: string -> Option<real>, sqrt: real -> real): Result<(seq<TrafficRow>, seq<DayStats>), string>
    requires Grids(sheets)
  {
    match Combine(ReadAll(sheets, num), sqrt)
    case Failure(e) => Failure(e)
    case Success(acc) => Success((acc.0, SortedByDay(acc.1)))
  }

  /** `load_all_days`. */
  method LoadAllDays(sheets: seq<DaySheet>, num: string -> Option<real>, sqrt: real -> real)
    returns (r: Result<(seq<TrafficRow>, seq<DayStats>), string>)
    requires Grids(sheets)
    ensures r == Loaded(sheets, num, sqrt)
  {
    var allRows: seq<TrafficRow> := [];
    var dailyRows: seq<DayStats> := [];
    ghost var rs := ReadAll(sheets, num);
    var i := 0;
    while i < |sheets|
      invariant 0 <= i <= |sheets|
      invariant Combine(rs[..i], sqrt) == Success((allRows, dailyRows))
    {
      var day := LoadDaySheet(sheets[i], num);
      assert rs[..i + 1][..i] == rs[..i];
      if day.Failure? {
        FailureStays(rs, sqrt, i + 1);
        return Failure(day.error);
      }
      if day.value != [] {
        allRows := allRows + day.value;
        dailyRows := dailyRows + [DayStatsOf(sheets[i].name, day.value, sqrt)];
      }
      i := i + 1;
    }
    assert rs[..|sheets|] == rs;
    r := Success((allRows, SortedByDay(dailyRows)));
  }

  /**
   * A successful load read every sheet; the rows are those of the sheets' clean rows;
   * and every line of statistics is that of a sheet with rows.
   */
  lemma {:induction false} CombineContent(rs: seq<DayRead>, sqrt: real -> real)
    requires Combine(rs, sqrt).Success?
    ensures forall k :: 0 <= k < |rs| ==> rs[k].read.Success?
    ensures forall x :: x in Combine(rs, sqrt).value.0 <==>
      exists k :: 0 <= k < |rs| && rs[k].read.Success? && x in rs[k].read.value
    ensures forall d :: d in Combine(rs, sqrt).value.1 ==>
      exists k :: 0 <= k < |rs| && rs[k].read.Success? && rs[k].read.value != []
        && d == DayStatsOf(rs[k].name, rs[k].read.value, sqrt)
  {
    if rs != [] {
      var n := |rs| - 1;
      CombineContent(rs[..n], sqrt);
      assert forall k :: 0 <= k < n ==> rs[..n][k] == rs[k];
    }
  }

  /** Every sheet that loads with rows has its line of statistics: empty sheets are the only ones left out. */
  lemma {:induction false} CombineCovers(rs: seq<DayRead>, sqrt: real -> real, k: nat)
    requires Combine(rs, sqrt).Success?
    requires k < |rs| && rs[k].read.Success? && rs[k].read.value != []
    ensures DayStatsOf(rs[k].name, rs[k].read.value, sqrt) in Combine(rs, sqrt).value.1
  {
    var n := |rs| - 1;
    if k < n {
      assert rs[..n][k] == rs[k];
      CombineCovers(rs[..n], sqrt, k);
    }
  }

  /** As many lines of statistics as sheets with rows. */
  function CountWithRows(rs: seq<DayRead>): nat {
    if rs == [] then 0
    else
      var n := |rs| - 1;
      CountWithRows(rs[..n]) + (if rs[n].read.Success? && rs[n].read.value != [] then 1 else 0)
  }

  lemma {:induction false} CombineCount(rs: seq<DayRead>, sqrt: real -> real)
    requires Combine(rs, sqrt).Success?
    ensures |Combine(rs, sqrt).value.1| == CountWithRows(rs)
  {
    if rs != [] {
      CombineCount(rs[..|rs| - 1], sqrt);
    }
  }
}
