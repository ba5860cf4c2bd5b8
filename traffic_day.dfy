/**
 * The traffic dashboard's drill-down into one day: the day's rows, its peak and slow
 * thresholds and tables, its total, and the staffing labels of its slots.
 */
module TrafficDay {
  import opened Wrappers
  import opened Stats
  import opened Ranking
  import opened Traffic

  /** `all_df[all_df["Day"] == day_choice]`: the rows of one day, in order. */
  function DayData(rows: seq<TrafficRow>, choice: string): (r: seq<TrafficRow>)
    ensures forall x :: x in r <==> x in rows && x.day == choice
  {
    if rows == [] then []
    else
      var rest := DayData(rows[1..], choice);
      assert forall x :: x in rows <==> x == rows[0] || x in rows[1..];
      if rows[0].day == choice then [rows[0]] + rest else rest
  }

  /** What the drill-down shows. */
  datatype Drill = Drill(
    data: seq<TrafficRow>, peakThreshold: Option<real>, slowThreshold: Option<real>,
    peaks: seq<TrafficRow>, slows: seq<TrafficRow>, total: real)

  function DrillDown(rows: seq<TrafficRow>, choice: string, pk: int, sk: int): Drill
    requires PeakPercent(pk) && SlowPercent(sk)
  {
    var data := DayData(rows, choice);
    var xs := Values(data, TotalOf);
    var peak := PeakThreshold(xs, pk);
    var slow := SlowThreshold(xs, sk);
    Drill(data, peak, slow, Peaks(data, TotalOf, peak), Slows(data, TotalOf, slow), Sum(xs))
  }

  /**
   * The peak table holds exactly the day's rows at or above the peak threshold, highest
   * first, and the slow table exactly those at or below the slow threshold, lowest first.
   */
  lemma DrillTables(rows: seq<TrafficRow>, choice: string, pk: int, sk: int, x: TrafficRow)
    requires PeakPercent(pk) && SlowPercent(sk)
    ensures var d := DrillDown(rows, choice, pk, sk);
      && (x in d.peaks <==> x in rows && x.day == choice && AtLeast(x.total, d.peakThreshold))
      && (x in d.slows <==> x in rows && x.day == choice && AtMost(x.total, d.slowThreshold))
      && (forall i, j :: 0 <= i < j < |d.peaks| ==> d.peaks[j].total <= d.peaks[i].total)
      && (forall i, j :: 0 <= i < j < |d.slows| ==> d.slows[i].total <= d.slows[j].total)
  {
    var d := DrillDown(rows, choice, pk, sk);
    assert x in d.peaks <==> multiset(d.peaks)[x] > 0;
    assert x in d.slows <==> multiset(d.slows)[x] > 0;
    assert x in d.data <==> multiset(d.data)[x] > 0;
  }

  /** A day with rows has both thresholds, the slow one at most the peak one, and a row in each table. */
  lemma DrillThresholds(rows: seq<TrafficRow>, choice: string, pk: int, sk: int)
    requires PeakPercent(pk) && SlowPercent(sk)
    requires exists x :: x in rows && x.day == choice
    ensures var d := DrillDown(rows, choice, pk, sk);
      && d.peakThreshold.Some? && d.slowThreshold.Some?
      && d.slowThreshold.value <= d.peakThreshold.value
      && d.peaks != [] && d.slows != []
  {
    var d := DrillDown(rows, choice, pk, sk);
    var x :| x in rows && x.day == choice;
    assert x in d.data;
    SlowBelowPeak(Values(d.data, TotalOf), pk, sk);
    PeaksNonEmpty(d.data, TotalOf, pk);
    SlowsNonEmpty(d.data, TotalOf, sk);
  }

  // ---------------------------------------------------------------------------
  // Staffing labels

  datatype Label = Normal | Peak | Slow

  /** The label a slot ends with: "Slow" is assigned last, so it wins over "Peak". */
  function LabelOf(total: real, peak: Option<real>, slow: Option<real>): Label {
    if AtMost(total, slow) then Slow else if AtLeast(total, peak) then Peak else Normal
  }

  /** After the "Peak" pass: Peak at or above the peak threshold, Normal elsewhere. */
  function PeakPass(total: real, peak: Option<real>): Label {
    if AtLeast(total, peak) then Peak else Normal
  }

  /**
   * The labelling of `labeled`: every slot starts "Normal", the slots at or above the
   * peak threshold are set to "Peak", then those at or below the slow threshold to "Slow".
   */
  method LabelSlots(data: seq<TrafficRow>, peak: Option<real>, slow: Option<real>) returns (labels: seq<Label>)
    ensures |labels| == |data|
    ensures forall i :: 0 <= i < |data| ==> labels[i] == LabelOf(data[i].total, peak, slow)
  {
    var a := new Label[|data|](_ => Normal);
    var i := 0;
    while i < |data|
      invariant 0 <= i <= |data|
      invariant forall j :: 0 <= j < i ==> a[j] == PeakPass(data[j].total, peak)
      invariant forall j :: i <= j < |data| ==> a[j] == Normal
    {
      if AtLeast(data[i].total, peak) {
        a[i] := Peak;
      }
      i := i + 1;
    }
    i := 0;
    while i < |data|
      invariant 0 <= i <= |data|
      invariant forall j :: 0 <= j < i ==> a[j] == LabelOf(data[j].total, peak, slow)
      invariant forall j :: i <= j < |data| ==> a[j] == PeakPass(data[j].total, peak)
    {
      if AtMost(data[i].total, slow) {
        a[i] := Slow;
      }
      i := i + 1;
    }
    labels := a[..];
  }

  /**
   * A slot's label against the two tables: it is "Slow" exactly when it is in the slow
   * table, "Peak" exactly when it is in the peak table and not the slow one, and
   * "Normal" when it is in neither.
   */
  lemma LabelsMatchTables(rows: seq<TrafficRow>, choice: string, pk: int, sk: int, x: TrafficRow)
    requires PeakPercent(pk) && SlowPercent(sk)
    requires x in rows && x.day == choice
    ensures var d := DrillDown(rows, choice, pk, sk);
      var l := LabelOf(x.total, d.peakThreshold, d.slowThreshold);
      && (l == Slow <==> x in d.slows)
      && (l == Peak <==> x in d.peaks && x !in d.slows)
      && (l == Normal <==> x !in d.peaks && x !in d.slows)
  {
    DrillTables(rows, choice, pk, sk, x);
  }

  /** A slot labelled "Slow" that also reaches the peak threshold sits exactly on both thresholds. */
  lemma SlowOverridesPeak(rows: seq<TrafficRow>, choice: string, pk: int, sk: int, x: TrafficRow)
    requires PeakPercent(pk) && SlowPercent(sk)
    requires x in rows && x.day == choice
    requires var d := DrillDown(rows, choice, pk, sk); x in d.peaks && x in d.slows
    ensures var d := DrillDown(rows, choice, pk, sk);
      && LabelOf(x.total, d.peakThreshold, d.slowThreshold) == Slow
      && x.total == d.peakThreshold.value == d.slowThreshold.value
  {
    var d := DrillDown(rows, choice, pk, sk);
    DrillTables(rows, choice, pk, sk, x);
    PeakAndSlow(d.data, TotalOf, pk, sk, x);
  }
}
