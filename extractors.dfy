/**
 * The section extractors of sales_dashboard.py: they locate variable-position blocks in
 * one sheet (read with `header=0`) and turn them into a date/day record, a metric map
 * and a time-slot table.
 */
module Extractors {
  import opened Wrappers
  import opened Text
  import opened Cells

  /**
   * A row of a key/value block as the two key/value scans see it: the stripped text of
   * the first column ("" for a blank cell), that text lower-cased, and the second
   * column's cell.
   */
  datatype Line = Line(key: string, lowerKey: string, value: Cell)

  function LineOf(r: Row): Line
    requires |r| >= 2
  {
    var k := KeyOf(r[0]);
    Line(k, Lower(k), r[1])
  }

  /** The rows of a sheet of at least two columns as key/value lines. */
  function LinesOf(f: Frame): (ls: seq<Line>)
    requires Rectangular(f) && f.width >= 2
    ensures |ls| == |f.rows|
  {
    seq(|f.rows|, i requires 0 <= i < |f.rows| => LineOf(f.rows[i]))
  }

  /** `str(row[col1]).strip()`. */
  function ValueText(l: Line): string {
    Trim(Shown(l.value))
  }

  // ---------------------------------------------------------------------------
  // extract_date_info

  datatype DateInfo = DateInfo(date: Option<string>, dayName: Option<string>)

  /** The line that ends the header block: its key contains "run financial". */
  predicate StopsDateScan(l: Line) {
    l.key != "" && Contains(l.lowerKey, "run financial")
  }

  /** A line with a non-empty key whose lower-cased form is `key`. */
  predicate HasKey(l: Line, key: string) {
    l.key != "" && l.lowerKey == key
  }

  /** The first line at or after `k` that ends the header block. */
  function FirstDateStop(ls: seq<Line>, k: nat): (r: Option<nat>)
    requires k <= |ls|
    ensures r.Some? ==> k <= r.value < |ls| && StopsDateScan(ls[r.value])
    ensures r.Some? ==> forall j :: k <= j < r.value ==> !StopsDateScan(ls[j])
    ensures r.None? ==> forall j :: k <= j < |ls| ==> !StopsDateScan(ls[j])
    decreases |ls| - k
  {
    if k == |ls| then None
    else if StopsDateScan(ls[k]) then Some(k)
    else FirstDateStop(ls, k + 1)
  }

  /** How many lines the header scan reads: up to and including the first stop line. */
  function DateScanEnd(ls: seq<Line>): (n: nat)
    ensures n <= |ls|
  {
    match FirstDateStop(ls, 0)
    case Some(i) => i + 1
    case None => |ls|
  }

  /** The last line among the first `n` whose lower-cased key is `key`. */
  function LastLineWithKey(ls: seq<Line>, n: nat, key: string): (r: Option<nat>)
    requires n <= |ls|
    ensures r.Some? ==> r.value < n && HasKey(ls[r.value], key)
    ensures r.Some? ==> forall j :: r.value < j < n ==> !HasKey(ls[j], key)
    ensures r.None? ==> forall j :: 0 <= j < n ==> !HasKey(ls[j], key)
  {
    if n == 0 then None
    else if HasKey(ls[n - 1], key) then Some(n - 1)
    else LastLineWithKey(ls, n - 1, key)
  }

  function ValueAt(ls: seq<Line>, i: Option<nat>): (v: Option<string>)
    requires i.Some? ==> i.value < |ls|
    ensures v.Some? <==> i.Some?
  {
    match i
    case Some(k) => Some(ValueText(ls[k]))
    case None => None
  }

  /** The values found in the first `n` lines: the last "date" value and the last "day" value. */
  function DateInfoUpTo(ls: seq<Line>, n: nat): DateInfo
    requires n <= |ls|
  {
    DateInfo(ValueAt(ls, LastLineWithKey(ls, n, "date")), ValueAt(ls, LastLineWithKey(ls, n, "day")))
  }

  /** The header block's values from its lines. */
  function DateInfoOfLines(ls: seq<Line>): DateInfo {
    DateInfoUpTo(ls, DateScanEnd(ls))
  }

  /**
   * What `extract_date_info` returns: nothing for a sheet of fewer than two columns;
   * otherwise "date" and "day" hold the value of the last such line read, where reading
   * stops after the first line whose key contains "run financial".
   */
  function DateInfoOf(f: Frame): DateInfo
    requires Rectangular(f)
  {
    if f.width < 2 then DateInfo(None, None) else DateInfoOfLines(LinesOf(f))
  }

  /** Reading one more line updates the date or the day when its key is one of them. */
  lemma DateInfoUpToStep(ls: seq<Line>, i: nat)
    requires i < |ls|
    ensures DateInfoUpTo(ls, i + 1) ==
      if HasKey(ls[i], "date") then DateInfoUpTo(ls, i).(date := Some(ValueText(ls[i])))
      else if HasKey(ls[i], "day") then DateInfoUpTo(ls, i).(dayName := Some(ValueText(ls[i])))
      else DateInfoUpTo(ls, i)
  {
  }

  /** The scan reads through the first stop line and no further. */
  lemma DateScanEndAt(ls: seq<Line>, i: nat)
    requires i < |ls| && StopsDateScan(ls[i])
    requires forall j :: 0 <= j < i ==> !StopsDateScan(ls[j])
    ensures DateScanEnd(ls) == i + 1
  {
  }

  /** The `iterrows` loop of `extract_date_info` over the key/value lines. */
  method ScanDateInfo(ls: seq<Line>) returns (info: DateInfo)
    ensures info == DateInfoOfLines(ls)
  {
    info := DateInfo(None, None);
    var i := 0;
    while i < |ls|
      invariant 0 <= i <= |ls|
      invariant forall j :: 0 <= j < i ==> !StopsDateScan(ls[j])
      invariant info == DateInfoUpTo(ls, i)
    {
      var line := ls[i];
      DateInfoUpToStep(ls, i);
      if line.key != "" {
        var kl := line.lowerKey;
        if kl == "date" {
          info := info.(date := Some(ValueText(line)));
        } else if kl == "day" {
          info := info.(dayName := Some(ValueText(line)));
        }
        if StopsDateScan(line) {
          DateScanEndAt(ls, i);
          break;
        }
      }
      i := i + 1;
    }
  }

  method ExtractDateInfo(f: Frame) returns (info: DateInfo)
    requires Rectangular(f)
    ensures f.width < 2 ==> info == DateInfo(None, None)
    ensures info == DateInfoOf(f)
  {
    if f.width < 2 {
      return DateInfo(None, None);
    }
    info := ScanDateInfo(LinesOf(f));
  }

  lemma {:induction false} LastLineWithKeyPrefix(ls: seq<Line>, other: seq<Line>, n: nat, key: string)
    requires n <= |ls| && n <= |other|
    requires ls[..n] == other[..n]
    ensures LastLineWithKey(ls, n, key) == LastLineWithKey(other, n, key)
  {
    if n > 0 {
      assert ls[n - 1] == ls[..n][n - 1] == other[n - 1];
      assert ls[..n - 1] == ls[..n][..n - 1];
      assert other[..n - 1] == other[..n][..n - 1];
      LastLineWithKeyPrefix(ls, other, n - 1, key);
    }
  }

  /**
   * Lines after the first "run financial" line are never read: any sequence of lines
   * that agrees with this one up to that line yields the same date and day.
   */
  lemma DateInfoIgnoresLaterLines(ls: seq<Line>, other: seq<Line>)
    requires FirstDateStop(ls, 0).Some?
    requires DateScanEnd(ls) <= |other|
    requires other[..DateScanEnd(ls)] == ls[..DateScanEnd(ls)]
    ensures DateInfoOfLines(other) == DateInfoOfLines(ls)
  {
    var n := DateScanEnd(ls);
    var s := FirstDateStop(ls, 0).value;
    forall j | 0 <= j <= s
      ensures other[j] == ls[j]
    {
      assert other[j] == other[..n][j];
    }
    assert FirstDateStop(other, 0) == Some(s);
    LastLineWithKeyPrefix(ls, other, n, "date");
    LastLineWithKeyPrefix(ls, other, n, "day");
  }

  /**
   * The date is the value of the last "date" line the scan reads, and there is one
   * exactly when the scan reads some "date" line.
   */
  lemma DateInfoDate(ls: seq<Line>)
    ensures var n := DateScanEnd(ls);
      DateInfoOfLines(ls).date.Some? <==> exists i :: 0 <= i < n && HasKey(ls[i], "date")
    ensures var n := DateScanEnd(ls);
      DateInfoOfLines(ls).date.Some? ==>
        exists i :: 0 <= i < n && HasKey(ls[i], "date")
          && DateInfoOfLines(ls).date.value == ValueText(ls[i])
          && forall j :: i < j < n ==> !HasKey(ls[j], "date")
  {
    var n := DateScanEnd(ls);
    var r := LastLineWithKey(ls, n, "date");
    if r.Some? {
      assert HasKey(ls[r.value], "date");
    }
  }

  /** Likewise the day name: the value of the last "day" line the scan reads, if any. */
  lemma DateInfoDayName(ls: seq<Line>)
    ensures var n := DateScanEnd(ls);
      DateInfoOfLines(ls).dayName.Some? <==> exists i :: 0 <= i < n && HasKey(ls[i], "day")
    ensures var n := DateScanEnd(ls);
      DateInfoOfLines(ls).dayName.Some? ==>
        exists i :: 0 <= i < n && HasKey(ls[i], "day")
          && DateInfoOfLines(ls).dayName.value == ValueText(ls[i])
          && forall j :: i < j < n ==> !HasKey(ls[j], "day")
  {
    var n := DateScanEnd(ls);
    var r := LastLineWithKey(ls, n, "day");
    if r.Some? {
      assert HasKey(ls[r.value], "day");
    }
  }

  // ---------------------------------------------------------------------------
  // extract_financial_metrics

  /** A line whose key contains "run financial control report" switches recording on. */
  predicate OpensControl(l: Line) {
    l.key != "" && Contains(l.lowerKey, "run financial control report")
  }

  /** A line whose key contains "day part summary" (and does not open the section) ends the scan. */
  predicate ClosesControl(l: Line) {
    l.key != "" && !OpensControl(l) && Contains(l.lowerKey, "day part summary")
  }

  /** The number a line would record: a non-empty key other than "name", a numeric value. */
  function MetricValue(l: Line, num: string -> Option<real>): Option<real> {
    if l.key == "" || OpensControl(l) || ClosesControl(l) || l.lowerKey == "name" then None
    else ToNumber(l.value, num)
  }

  /** Some line before `i` opened the control section. */
  predicate Opened(ls: seq<Line>, i: nat)
    requires i <= |ls|
  {
    exists j :: 0 <= j < i && OpensControl(ls[j])
  }

  /** The first line at or after `k` that ends the scan, or the line count. */
  function ControlEnd(ls: seq<Line>, k: nat): (e: nat)
    requires k <= |ls|
    ensures k <= e <= |ls|
    ensures forall j :: k <= j < e ==> !ClosesControl(ls[j])
    ensures e < |ls| ==> ClosesControl(ls[e])
    decreases |ls| - k
  {
    if k == |ls| || ClosesControl(ls[k]) then k else ControlEnd(ls, k + 1)
  }

  /** Line `i` is recorded: the section is open and the line is a metric line. */
  predicate Recorded(ls: seq<Line>, i: nat, num: string -> Option<real>)
    requires i < |ls|
  {
    Opened(ls, i) && MetricValue(ls[i], num).Some?
  }

  /** The metric map after reading the first `n` lines, a later line overwriting an earlier key. */
  function MetricsUpTo(ls: seq<Line>, n: nat, num: string -> Option<real>): map<string, real>
    requires n <= |ls|
  {
    if n == 0 then map[]
    else
      var m := MetricsUpTo(ls, n - 1, num);
      if Recorded(ls, n - 1, num) then m[ls[n - 1].key := MetricValue(ls[n - 1], num).value]
      else m
  }

  /** The control section's metrics from its lines. */
  function MetricsOfLines(ls: seq<Line>, num: string -> Option<real>): map<string, real> {
    MetricsUpTo(ls, ControlEnd(ls, 0), num)
  }

  /** What `extract_financial_metrics` returns. */
  function MetricsOf(f: Frame, num: string -> Option<real>): map<string, real>
    requires Rectangular(f)
  {
    if f.width < 2 then map[] else MetricsOfLines(LinesOf(f), num)
  }

  /** The `iterrows` loop of `extract_financial_metrics` over the key/value lines. */
  method ScanFinancialMetrics(ls: seq<Line>, num: string -> Option<real>) returns (metrics: map<string, real>)
    ensures metrics == MetricsOfLines(ls, num)
  {
    metrics := map[];
    var inControl := false;
    var i := 0;
    while i < |ls|
      invariant 0 <= i <= |ls|
      invariant forall j :: 0 <= j < i ==> !ClosesControl(ls[j])
      invariant inControl == Opened(ls, i)
      invariant metrics == MetricsUpTo(ls, i, num)
    {
      var line := ls[i];
      if line.key == "" {
        i := i + 1;
        continue;
      }
      if OpensControl(line) {
        inControl := true;
        i := i + 1;
        continue;
      }
      if ClosesControl(line) {
        break;
      }
      if inControl && line.lowerKey != "name" {
        var v := ToNumber(line.value, num);
        if v.Some? {
          metrics := metrics[line.key := v.value];
        }
      }
      i := i + 1;
    }
  }

  method ExtractFinancialMetrics(f: Frame, num: string -> Option<real>) returns (metrics: map<string, real>)
    requires Rectangular(f)
    ensures f.width < 2 ==> metrics == map[]
    ensures metrics == MetricsOf(f, num)
  {
    if f.width < 2 {
      return map[];
    }
    metrics := ScanFinancialMetrics(LinesOf(f), num);
  }

  /**
   * A key is in the map exactly when some recorded line among the first `n` has it,
   * and its value is the one of the last such line.
   */
  lemma {:induction false} MetricsUpToContent(ls: seq<Line>, n: nat, num: string -> Option<real>, key: string)
    requires n <= |ls|
    ensures key in MetricsUpTo(ls, n, num) <==>
      exists i :: 0 <= i < n && Recorded(ls, i, num) && ls[i].key == key
    ensures key in MetricsUpTo(ls, n, num) ==>
      exists i :: 0 <= i < n && Recorded(ls, i, num) && ls[i].key == key
        && MetricsUpTo(ls, n, num)[key] == MetricValue(ls[i], num).value
        && forall j :: i < j < n ==> !(Recorded(ls, j, num) && ls[j].key == key)
  {
    if n > 0 {
      MetricsUpToContent(ls, n - 1, num, key);
      if Recorded(ls, n - 1, num) && ls[n - 1].key == key {
        assert MetricsUpTo(ls, n, num)[key] == MetricValue(ls[n - 1], num).value;
      }
    }
  }

  /**
   * The metrics are the numeric lines strictly after a "run financial control report" line
   * and before the first "day part summary" line; no key is empty or "name", and each
   * value is the number of the last line with that key.
   */
  lemma MetricsContent(ls: seq<Line>, num: string -> Option<real>, key: string)
    ensures var e := ControlEnd(ls, 0);
      key in MetricsOfLines(ls, num) <==>
        exists i :: 0 <= i < e && Opened(ls, i) && MetricValue(ls[i], num).Some? && ls[i].key == key
    ensures key in MetricsOfLines(ls, num) ==> key != ""
    ensures var e := ControlEnd(ls, 0);
      key in MetricsOfLines(ls, num) ==>
        exists i :: 0 <= i < e && Recorded(ls, i, num) && ls[i].key == key && ls[i].lowerKey != "name"
          && MetricsOfLines(ls, num)[key] == ToNumber(ls[i].value, num).value
          && forall j :: i < j < e ==> !(Recorded(ls, j, num) && ls[j].key == key)
  {
    MetricsUpToContent(ls, ControlEnd(ls, 0), num, key);
  }

  // ---------------------------------------------------------------------------
  // find_table_start_row

  /** A first-column marker "time_slots" or "time slots" (after strip and lower). */
  predicate IsTableHeader(mark: string) {
    mark == "time_slots" || mark == "time slots"
  }

  /** The normalized first cell of every row. */
  function MarksOf(f: Frame): (ms: seq<string>)
    requires Rectangular(f) && f.width >= 1
    ensures |ms| == |f.rows|
  {
    seq(|f.rows|, i requires 0 <= i < |f.rows| => Normalized(f.rows[i][0]))
  }

  function FirstHeaderFrom(ms: seq<string>, k: nat): (r: Option<nat>)
    requires k <= |ms|
    ensures r.Some? ==> k <= r.value < |ms| && IsTableHeader(ms[r.value])
    ensures r.Some? ==> forall j :: k <= j < r.value ==> !IsTableHeader(ms[j])
    ensures r.None? ==> forall j :: k <= j < |ms| ==> !IsTableHeader(ms[j])
    decreases |ms| - k
  {
    if k == |ms| then None
    else if IsTableHeader(ms[k]) then Some(k)
    else FirstHeaderFrom(ms, k + 1)
  }

  /** The slot table's header row: the first header-like row. */
  function TableStartOf(f: Frame): Option<nat>
    requires Rectangular(f) && f.width >= 1
  {
    FirstHeaderFrom(MarksOf(f), 0)
  }

  /** The first header-like mark is the only one with no header-like mark before it. */
  lemma FirstHeaderUnique(ms: seq<string>, r: Option<nat>)
    requires r.Some? ==> r.value < |ms| && IsTableHeader(ms[r.value])
    requires r.Some? ==> forall j :: 0 <= j < r.value ==> !IsTableHeader(ms[j])
    requires r.None? ==> forall j :: 0 <= j < |ms| ==> !IsTableHeader(ms[j])
    ensures r == FirstHeaderFrom(ms, 0)
  {
  }

  /** The first row whose first cell reads "time_slots" or "time slots", or None. */
  method FindTableStartRow(f: Frame) returns (r: Option<nat>)
    requires Rectangular(f) && f.width >= 1
    ensures r.Some? ==> r.value < |f.rows| && IsTableHeader(Normalized(f.rows[r.value][0]))
    ensures r.Some? ==> forall j :: 0 <= j < r.value ==> !IsTableHeader(MarksOf(f)[j])
    ensures r.None? ==> forall j :: 0 <= j < |f.rows| ==> !IsTableHeader(MarksOf(f)[j])
    ensures r == TableStartOf(f)
  {
    ghost var ms := MarksOf(f);
    var i := 0;
    while i < |f.rows|
      invariant 0 <= i <= |f.rows|
      invariant forall j :: 0 <= j < i ==> !IsTableHeader(ms[j])
    {
      var v := Normalized(f.rows[i][0]);
      assert ms[i] == v;
      if IsTableHeader(v) {
        FirstHeaderUnique(ms, Some(i));
        return Some(i);
      }
      i := i + 1;
    }
    FirstHeaderUnique(ms, None);
    return None;
  }

  // ---------------------------------------------------------------------------
  // extract_timeslot_table: choosing the columns

  /** The part each header label can play, in the order the `if/elif` chain tests them. */
  datatype Role = TimeRole | SalesRole | TxnRole | NoRole

  function RoleOf(k: string): Role {
    if k == "time_slots" || k == "time slots" then TimeRole
    else if Contains(k, "sales net vat") || Contains(k, "after discount") || k == "sales" then SalesRole
    else if Contains(k, "transaction") || Contains(k, "checks") || Contains(k, "count") then TxnRole
    else NoRole
  }

  /** Distinct elements in order of first occurrence (the key order of a Python dict). */
  function Dedup(s: seq<string>): (d: seq<string>)
    ensures forall x :: x in d <==> x in s
    ensures forall i, j :: 0 <= i < j < |d| ==> d[i] != d[j]
  {
    if s == [] then []
    else
      var p := Dedup(s[..|s| - 1]);
      assert s == s[..|s| - 1] + [s[|s| - 1]];
      if s[|s| - 1] in p then p else p + [s[|s| - 1]]
  }

  /** The last position of `x` in `s`. */
  function LastIndex(s: seq<string>, x: string): (j: nat)
    requires x in s
    ensures j < |s| && s[j] == x
    ensures forall k :: j < k < |s| ==> s[k] != x
  {
    if s[|s| - 1] == x then |s| - 1 else LastIndex(s[..|s| - 1], x)
  }

  function HeaderKeys(header: Row): (ks: seq<string>)
    ensures |ks| == |header|
    ensures forall j :: 0 <= j < |header| ==> ks[j] == Normalized(header[j])
  {
    seq(|header|, j requires 0 <= j < |header| => Normalized(header[j]))
  }

  /**
   * `{str(c).strip().lower(): c for c in df.columns}`: one entry per distinct normalized
   * label, in order of first occurrence, holding the last column with that label.
   */
  function ColumnIndex(header: Row): (cols: seq<(string, nat)>)
    ensures forall i :: 0 <= i < |cols| ==> cols[i].1 < |header| && Normalized(header[cols[i].1]) == cols[i].0
  {
    var ks := HeaderKeys(header);
    var d := Dedup(ks);
    seq(|d|, i requires 0 <= i < |d| => (d[i], LastIndex(ks, d[i])))
  }

  /** The column of the last entry among the first `n` whose label plays `role`. */
  function LastWithRole(cols: seq<(string, nat)>, n: nat, role: Role): Option<nat>
    requires n <= |cols|
  {
    if n == 0 then None
    else if RoleOf(cols[n - 1].0) == role then Some(cols[n - 1].1)
    else LastWithRole(cols, n - 1, role)
  }

  /** The chosen column is that of an entry playing the role, and there is none only when no entry plays it. */
  lemma {:induction false} LastWithRoleSpec(cols: seq<(string, nat)>, n: nat, role: Role)
    requires n <= |cols|
    ensures var c := LastWithRole(cols, n, role);
      && (c.Some? ==> exists i :: 0 <= i < n && RoleOf(cols[i].0) == role && cols[i].1 == c.value)
      && (c.None? ==> forall i :: 0 <= i < n ==> RoleOf(cols[i].0) != role)
  {
    if n > 0 && RoleOf(cols[n - 1].0) != role {
      LastWithRoleSpec(cols, n - 1, role);
    }
  }

  /** One more entry either takes the role or leaves the previous choice. */
  lemma LastWithRoleStep(cols: seq<(string, nat)>, n: nat, role: Role)
    requires n < |cols|
    ensures LastWithRole(cols, n + 1, role) == if RoleOf(cols[n].0) == role then Some(cols[n].1) else LastWithRole(cols, n, role)
  {
  }

  datatype Columns = Columns(time: Option<nat>, sales: Option<nat>, txn: Option<nat>)

  /** The column of each role: the last dict entry whose label matches it. */
  function ChosenColumns(header: Row): Columns {
    var cols := ColumnIndex(header);
    Columns(LastWithRole(cols, |cols|, TimeRole), LastWithRole(cols, |cols|, SalesRole),
            LastWithRole(cols, |cols|, TxnRole))
  }

  /** The loop over `cols.items()` assigning `time_col`, `sales_col` and `txn_col`. */
  method ChooseColumns(cols: seq<(string, nat)>) returns (time: Option<nat>, sales: Option<nat>, txn: Option<nat>)
    ensures time == LastWithRole(cols, |cols|, TimeRole)
    ensures sales == LastWithRole(cols, |cols|, SalesRole)
    ensures txn == LastWithRole(cols, |cols|, TxnRole)
  {
    time, sales, txn := None, None, None;
    var i := 0;
    while i < |cols|
      invariant 0 <= i <= |cols|
      invariant time == LastWithRole(cols, i, TimeRole)
      invariant sales == LastWithRole(cols, i, SalesRole)
      invariant txn == LastWithRole(cols, i, TxnRole)
    {
      var k, original := cols[i].0, cols[i].1;
      var role := RoleOf(k);
      LastWithRoleStep(cols, i, TimeRole);
      LastWithRoleStep(cols, i, SalesRole);
      LastWithRoleStep(cols, i, TxnRole);
      if role == TimeRole {
        time := Some(original);
      } else if role == SalesRole {
        sales := Some(original);
      } else if role == TxnRole {
        txn := Some(original);
      }
      i := i + 1;
    }
  }

  /** A chosen column is a column of the header whose label plays that role. */
  lemma ChosenColumnsInHeader(header: Row)
    ensures var c := ChosenColumns(header);
      && (c.time.Some? ==> c.time.value < |header| && RoleOf(Normalized(header[c.time.value])) == TimeRole)
      && (c.sales.Some? ==> c.sales.value < |header| && RoleOf(Normalized(header[c.sales.value])) == SalesRole)
      && (c.txn.Some? ==> c.txn.value < |header| && RoleOf(Normalized(header[c.txn.value])) == TxnRole)
  {
    var cols := ColumnIndex(header);
    LastWithRoleSpec(cols, |cols|, TimeRole);
    LastWithRoleSpec(cols, |cols|, SalesRole);
    LastWithRoleSpec(cols, |cols|, TxnRole);
  }

  /** A role has a column exactly when some header label plays it. */
  lemma ChosenColumnExists(header: Row, role: Role)
    ensures var cols := ColumnIndex(header);
      LastWithRole(cols, |cols|, role).Some? <==> exists j :: 0 <= j < |header| && RoleOf(Normalized(header[j])) == role
  {
    var ks := HeaderKeys(header);
    var d := Dedup(ks);
    var cols := ColumnIndex(header);
    LastWithRoleSpec(cols, |cols|, role);
    if j :| 0 <= j < |header| && RoleOf(Normalized(header[j])) == role {
      assert ks[j] in d;
      var i :| 0 <= i < |d| && d[i] == ks[j];
      assert RoleOf(cols[i].0) == role;
    }
  }

  /** The header row found by the scan always yields a time column: its own first cell. */
  lemma TimeColumnFound(header: Row)
    requires |header| >= 1 && IsTableHeader(Normalized(header[0]))
    ensures ChosenColumns(header).time.Some?
  {
    ChosenColumnExists(header, TimeRole);
    assert RoleOf(Normalized(header[0])) == TimeRole;
  }

  // ---------------------------------------------------------------------------
  // extract_timeslot_table: the rows

  datatype Slot = Slot(timeSlot: string, sales: real, transactions: real, avgTicket: real)

  /** A slot label that survives the filters: not empty, not "nan", not "total" in any case. */
  predicate KeepsLabel(t: string) {
    t != "" && t != "nan" && Lower(t) != "total"
  }

  /** `Sales / Transactions` where there are transactions, else 0. */
  function AvgTicket(sales: real, transactions: real): (a: real)
    ensures transactions > 0.0 ==> a * transactions == sales
    ensures transactions <= 0.0 ==> a == 0.0
  {
    if transactions > 0.0 then sales / transactions else 0.0
  }

  predicate FitsRow(c: Columns, width: nat) {
    c.time.Some? && c.sales.Some? && c.time.value < width && c.sales.value < width
    && (c.txn.Some? ==> c.txn.value < width)
  }

  /** The slot's average ticket is its sales over its transactions, or 0 without transactions. */
  predicate TicketConsistent(s: Slot) {
    s.avgTicket == AvgTicket(s.sales, s.transactions)
  }

  /** One data row as a slot: stripped label, numeric sales and transactions, 0 for non-numbers. */
  function SlotOf(r: Row, c: Columns, num: string -> Option<real>): (s: Slot)
    requires FitsRow(c, |r|)
    ensures TicketConsistent(s)
  {
    var sales := ToNumber(r[c.sales.value], num).GetOr(0.0);
    var txn := if c.txn.Some? then ToNumber(r[c.txn.value], num).GetOr(0.0) else 0.0;
    Slot(Trim(Shown(r[c.time.value])), sales, txn, AvgTicket(sales, txn))
  }

  /** The columns built from every data row, before the label filters. */
  function AllSlots(rows: seq<Row>, c: Columns, num: string -> Option<real>): (ss: seq<Slot>)
    requires forall i :: 0 <= i < |rows| ==> FitsRow(c, |rows[i]|)
    ensures |ss| == |rows|
  {
    seq(|rows|, i requires 0 <= i < |rows| => SlotOf(rows[i], c, num))
  }

  /** The slots whose label survives the filters, in order. */
  function KeptSlots(ss: seq<Slot>): (out: seq<Slot>)
    ensures |out| <= |ss|
    ensures forall s :: s in out <==> s in ss && KeepsLabel(s.timeSlot)
  {
    if ss == [] then []
    else
      var rest := KeptSlots(ss[1..]);
      assert forall s :: s in ss <==> s == ss[0] || s in ss[1..];
      if KeepsLabel(ss[0].timeSlot) then [ss[0]] + rest else rest
  }

  /** Filtering twice is filtering once. */
  lemma {:induction false} KeptSlotsIdempotent(ss: seq<Slot>)
    ensures KeptSlots(KeptSlots(ss)) == KeptSlots(ss)
  {
    if ss != [] {
      KeptSlotsIdempotent(ss[1..]);
      var rest := KeptSlots(ss[1..]);
      if KeepsLabel(ss[0].timeSlot) {
        assert ([ss[0]] + rest)[1..] == rest;
      }
    }
  }

  /**
   * The table below a header row: empty without a time or sales column, otherwise the
   * rows whose label survives the filters.
   */
  function TableBelow(header: Row, below: seq<Row>, num: string -> Option<real>): seq<Slot>
    requires forall i :: 0 <= i < |below| ==> |below[i]| == |header|
  {
    var c := ChosenColumns(header);
    ChosenColumnsInHeader(header);
    if c.time.None? || c.sales.None? then []
    else KeptSlots(AllSlots(below, c, num))
  }

  /**
   * What `extract_timeslot_table` returns: empty when there is no header row, otherwise
   * the table below the first one.
   */
  function TimeslotTableOf(f: Frame, num: string -> Option<real>): seq<Slot>
    requires Rectangular(f) && f.width >= 1
  {
    match TableStartOf(f)
    case None => []
    case Some(start) => TableBelow(f.rows[start], f.rows[start + 1..], num)
  }

  /** Choosing the columns from the header row and building the slots below it. */
  method SlotsBelow(header: Row, below: seq<Row>, num: string -> Option<real>) returns (out: seq<Slot>)
    requires forall i :: 0 <= i < |below| ==> |below[i]| == |header|
    ensures out == TableBelow(header, below, num)
  {
    var cols := ColumnIndex(header);
    var time, sales, txn := ChooseColumns(cols);
    if time.None? || sales.None? {
      return [];
    }
    ChosenColumnsInHeader(header);
    out := KeptSlots(AllSlots(below, Columns(time, sales, txn), num));
  }

  method ExtractTimeslotTable(f: Frame, num: string -> Option<real>) returns (out: seq<Slot>)
    requires Rectangular(f) && f.width >= 1
    ensures out == TimeslotTableOf(f, num)
  {
    var start := FindTableStartRow(f);
    if start.None? {
      return [];
    }
    out := SlotsBelow(f.rows[start.value], f.rows[start.value + 1..], num);
  }

  /**
   * The slots built from `data` hold exactly its rows whose label survives the filters,
   * and each carries sales over transactions as its average ticket when there are
   * transactions, else 0.
   */
  lemma SlotRowsContent(data: seq<Row>, c: Columns, num: string -> Option<real>, s: Slot)
    requires forall i :: 0 <= i < |data| ==> FitsRow(c, |data[i]|)
    ensures s in KeptSlots(AllSlots(data, c, num)) <==>
      exists i :: 0 <= i < |data| && SlotOf(data[i], c, num) == s && KeepsLabel(s.timeSlot)
    ensures s in KeptSlots(AllSlots(data, c, num)) ==> TicketConsistent(s)
  {
    var all := AllSlots(data, c, num);
    if s in all {
      var k :| 0 <= k < |all| && all[k] == s;
      assert SlotOf(data[k], c, num) == s;
    }
    forall i | 0 <= i < |data| && SlotOf(data[i], c, num) == s
      ensures s in all
    {
      assert all[i] == s;
    }
  }

  /**
   * Below a header row the table is empty without a sales column; with one (the time
   * column being present) it holds exactly the rows whose label survives the filters,
   * none of them labelled "total", each with a consistent average ticket.
   */
  lemma TableBelowContent(header: Row, below: seq<Row>, num: string -> Option<real>, s: Slot)
    requires forall i :: 0 <= i < |below| ==> |below[i]| == |header|
    ensures ChosenColumns(header).sales.None? ==> TableBelow(header, below, num) == []
    ensures var c := ChosenColumns(header);
      c.time.Some? && c.sales.Some? ==>
        (s in TableBelow(header, below, num) <==>
          exists i :: 0 <= i < |below| && FitsRow(c, |below[i]|) && SlotOf(below[i], c, num) == s
            && KeepsLabel(s.timeSlot))
    ensures s in TableBelow(header, below, num) ==>
      s.timeSlot != "" && s.timeSlot != "nan" && Lower(s.timeSlot) != "total" && TicketConsistent(s)
  {
    var c := ChosenColumns(header);
    ChosenColumnsInHeader(header);
    if c.time.Some? && c.sales.Some? {
      SlotRowsContent(below, c, num, s);
    }
  }

  /** The first header row of a sheet always yields a time column. */
  lemma FirstHeaderHasTimeColumn(f: Frame)
    requires Rectangular(f) && f.width >= 1
    requires TableStartOf(f).Some?
    ensures ChosenColumns(f.rows[TableStartOf(f).value]).time.Some?
  {
    var start := TableStartOf(f).value;
    var header := f.rows[start];
    assert MarksOf(f)[start] == Normalized(header[0]);
    TimeColumnFound(header);
  }
}
