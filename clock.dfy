/**
 * Times of day as the two dashboards read them from slot labels: `strptime` with the
 * 12-hour formats "%I:%M:%S%p", "%I:%M%p" and "%I:%M %p", and `strftime("%H:%M")` back.
 *
 * The field patterns are the ones Python's `_strptime` (and pandas' copy of it) uses:
 * `%I` is `1[0-2]|0[1-9]|[1-9]`, `%M` is `[0-5]\d|\d`, `%S` is `6[0-1]|[0-5]\d|\d`
 * (60 and 61 then fail to make a time), `%p` is "am" or "pm" in any case, a space in
 * the format stands for one or more whitespace characters, and the whole string must match.
 */
module Clock {
  import opened Wrappers
  import opened Text

  datatype TimeOfDay = TimeOfDay(hour: nat, minute: nat, second: nat)

  predicate Valid(t: TimeOfDay) {
    t.hour < 24 && t.minute < 60 && t.second < 60
  }

  datatype Format =
    | HourMinuteSecond   // "%I:%M:%S%p"
    | HourMinute         // "%I:%M%p"
    | HourMinuteSpaced   // "%I:%M %p"

  predicate IsDigit(c: char) {
    '0' <= c <= '9'
  }

  function DigitValue(c: char): (d: nat)
    requires IsDigit(c)
    ensures d < 10
  {
    c as int - '0' as int
  }

  /** `%I`: an hour on the 12-hour clock, one digit or two. */
  function HourField(s: string): (r: Option<nat>)
    ensures r.Some? ==> 1 <= r.value <= 12
  {
    if |s| == 1 && '1' <= s[0] <= '9' then Some(DigitValue(s[0]))
    else if |s| == 2 && s[0] == '0' && '1' <= s[1] <= '9' then Some(DigitValue(s[1]))
    else if |s| == 2 && s[0] == '1' && '0' <= s[1] <= '2' then Some(10 + DigitValue(s[1]))
    else None
  }

  /** `%M`, and `%S` as far as it makes a time: 0 to 59, one digit or two. */
  function SixtyField(s: string): (r: Option<nat>)
    ensures r.Some? ==> r.value < 60
  {
    if |s| == 1 && IsDigit(s[0]) then Some(DigitValue(s[0]))
    else if |s| == 2 && '0' <= s[0] <= '5' && IsDigit(s[1]) then Some(10 * DigitValue(s[0]) + DigitValue(s[1]))
    else None
  }

  /** `%p`: Some(true) for "pm", Some(false) for "am", in any case. */
  function Meridiem(s: string): (r: Option<bool>)
    ensures r.Some? ==> |s| == 2 && Lower(s) == (if r.value then "pm" else "am")
  {
    if |s| == 2 && LowerChar(s[1]) == 'm' then
      if LowerChar(s[0]) == 'a' then Some(false)
      else if LowerChar(s[0]) == 'p' then Some(true)
      else None
    else None
  }

  /** The 24-hour hour of a 12-hour one: 12 AM is 0 and 12 PM is 12. */
  function To24(h12: nat, pm: bool): (h: nat)
    requires 1 <= h12 <= 12
    ensures h < 24 && (pm <==> h >= 12)
  {
    if pm then (if h12 == 12 then 12 else h12 + 12)
    else (if h12 == 12 then 0 else h12)
  }

  /** Position of the first `c` in `s`. */
  function IndexOf(s: string, c: char): (r: Option<nat>)
    ensures r.Some? ==> r.value < |s| && s[r.value] == c && forall k :: 0 <= k < r.value ==> s[k] != c
    ensures r.None? ==> forall k :: 0 <= k < |s| ==> s[k] != c
  {
    if s == [] then None
    else if s[0] == c then Some(0)
    else
      match IndexOf(s[1..], c)
      case None => None
      case Some(i) => Some(i + 1)
  }

  /** "%I:%M" on its own, as (12-hour hour, minute). */
  function HourMinuteFields(s: string): (r: Option<(nat, nat)>)
    ensures r.Some? ==> 1 <= r.value.0 <= 12 && r.value.1 < 60
  {
    match IndexOf(s, ':')
    case None => None
    case Some(i) =>
      match (HourField(s[..i]), SixtyField(s[i + 1..]))
      case (Some(h), Some(m)) => Some((h, m))
      case _ => None
  }

  /** "%I:%M:%S" on its own, as (12-hour hour, minute, second). */
  function HourMinuteSecondFields(s: string): (r: Option<(nat, nat, nat)>)
    ensures r.Some? ==> 1 <= r.value.0 <= 12 && r.value.1 < 60 && r.value.2 < 60
  {
    match IndexOf(s, ':')
    case None => None
    case Some(i) =>
      var rest := s[i + 1..];
      match IndexOf(rest, ':')
      case None => None
      case Some(j) =>
        match (HourField(s[..i]), SixtyField(rest[..j]), SixtyField(rest[j + 1..]))
        case (Some(h), Some(m), Some(sec)) => Some((h, m, sec))
        case _ => None
  }

  /**
   * `strptime(s, fmt)` for a time of day, None where the string does not match the
   * format in full. Whatever parses ends in "am" or "pm", so a "Total" row never parses.
   */
  function Parse(fmt: Format, s: string): (r: Option<TimeOfDay>)
    ensures r.Some? ==> Valid(r.value)
    ensures r.Some? && fmt != HourMinuteSecond ==> r.value.second == 0
    ensures r.Some? ==> |s| >= 2 && Meridiem(s[|s| - 2..]).Some?
  {
    if |s| < 2 then None
    else
      var body := s[..|s| - 2];
      match Meridiem(s[|s| - 2..])
      case None => None
      case Some(pm) =>
        match fmt
        case HourMinuteSecond =>
          (match HourMinuteSecondFields(body)
           case None => None
           case Some(f) => Some(TimeOfDay(To24(f.0, pm), f.1, f.2)))
        case HourMinute =>
          (match HourMinuteFields(body)
           case None => None
           case Some(f) => Some(TimeOfDay(To24(f.0, pm), f.1, 0)))
        case HourMinuteSpaced =>
          var core := TrimEnd(body);
          if |core| == |body| then None
          else
            match HourMinuteFields(core)
            case None => None
            case Some(f) => Some(TimeOfDay(To24(f.0, pm), f.1, 0))
  }

  lemma TotalNeverParses(fmt: Format)
    ensures Parse(fmt, "Total") == None
  {
    assert "Total"[3..] == "al";
  }

  // ---------------------------------------------------------------------------
  // Rendering

  function TwoDigits(n: nat): (s: string)
    requires n < 100
    ensures |s| == 2 && IsDigit(s[0]) && IsDigit(s[1])
    ensures 10 * DigitValue(s[0]) + DigitValue(s[1]) == n
  {
    [('0' as int + n / 10) as char, ('0' as int + n % 10) as char]
  }

  /** `strftime("%H:%M")`: the 24-hour hour and the minute, two digits each. */
  function HourMinute24(t: TimeOfDay): (s: string)
    requires Valid(t)
    ensures |s| == 5 && s[2] == ':'
  {
    TwoDigits(t.hour) + ":" + TwoDigits(t.minute)
  }

  /** Two times with the same "HH:MM" agree on hour and minute. */
  lemma HourMinute24Injective(a: TimeOfDay, b: TimeOfDay)
    requires Valid(a) && Valid(b)
    ensures HourMinute24(a) == HourMinute24(b) <==> a.hour == b.hour && a.minute == b.minute
  {
    if HourMinute24(a) == HourMinute24(b) {
      var s, r := HourMinute24(a), HourMinute24(b);
      assert s[..2] == TwoDigits(a.hour) && r[..2] == TwoDigits(b.hour);
      assert s[3..] == TwoDigits(a.minute) && r[3..] == TwoDigits(b.minute);
    }
  }

  function Hour12(h: nat): (r: nat)
    requires h < 24
    ensures 1 <= r <= 12 && To24(r, h >= 12) == h
  {
    if h % 12 == 0 then 12 else h % 12
  }

  /** The time written in `fmt`, with a two-digit hour and "AM"/"PM"; the inverse of `Parse`. */
  function Render(fmt: Format, t: TimeOfDay): string
    requires Valid(t)
  {
    var hm := TwoDigits(Hour12(t.hour)) + ":" + TwoDigits(t.minute);
    var suffix := if t.hour < 12 then "AM" else "PM";
    match fmt
    case HourMinuteSecond => hm + ":" + TwoDigits(t.second) + suffix
    case HourMinute => hm + suffix
    case HourMinuteSpaced => hm + " " + suffix
  }

  lemma HourFieldTwoDigits(h: nat)
    requires 1 <= h <= 12
    ensures HourField(TwoDigits(h)) == Some(h)
  {
  }

  lemma SixtyFieldTwoDigits(m: nat)
    requires m < 60
    ensures SixtyField(TwoDigits(m)) == Some(m)
  {
  }

  /** Splitting "a:b" at its first colon, when `a` has none. */
  lemma SplitAtColon(a: string, b: string)
    requires forall k :: 0 <= k < |a| ==> a[k] != ':'
    ensures IndexOf(a + ":" + b, ':') == Some(|a|)
    ensures (a + ":" + b)[..|a|] == a && (a + ":" + b)[|a| + 1..] == b
  {
    var s := a + ":" + b;
    assert s[|a|] == ':';
    assert forall k :: 0 <= k < |a| ==> s[k] == a[k];
  }

  lemma HourMinuteFieldsOf(h: nat, m: nat)
    requires 1 <= h <= 12 && m < 60
    ensures HourMinuteFields(TwoDigits(h) + ":" + TwoDigits(m)) == Some((h, m))
  {
    SplitAtColon(TwoDigits(h), TwoDigits(m));
    HourFieldTwoDigits(h);
    SixtyFieldTwoDigits(m);
  }

  lemma HourMinuteSecondFieldsOf(h: nat, m: nat, sec: nat)
    requires 1 <= h <= 12 && m < 60 && sec < 60
    ensures HourMinuteSecondFields(TwoDigits(h) + ":" + TwoDigits(m) + ":" + TwoDigits(sec)) == Some((h, m, sec))
  {
    var hh, mm, ss := TwoDigits(h), TwoDigits(m), TwoDigits(sec);
    assert hh + ":" + mm + ":" + ss == hh + ":" + (mm + ":" + ss);
    SplitAtColon(hh, mm + ":" + ss);
    SplitAtColon(mm, ss);
    HourFieldTwoDigits(h);
    SixtyFieldTwoDigits(m);
    SixtyFieldTwoDigits(sec);
  }

  /** The rendered "AM"/"PM" reads back as the half of the day `t` is in. */
  lemma SplitSuffix(body: string, t: TimeOfDay)
    requires Valid(t)
    ensures var s := body + (if t.hour < 12 then "AM" else "PM");
      s[..|s| - 2] == body && Meridiem(s[|s| - 2..]) == Some(t.hour >= 12)
  {
    var s := body + (if t.hour < 12 then "AM" else "PM");
    assert s[|s| - 2..] == (if t.hour < 12 then "AM" else "PM");
  }

  lemma ParseRenderSeconds(t: TimeOfDay)
    requires Valid(t)
    ensures Parse(HourMinuteSecond, Render(HourMinuteSecond, t)) == Some(t)
  {
    var h12 := Hour12(t.hour);
    var body := TwoDigits(h12) + ":" + TwoDigits(t.minute) + ":" + TwoDigits(t.second);
    SplitSuffix(body, t);
    HourMinuteSecondFieldsOf(h12, t.minute, t.second);
  }

  lemma ParseRenderMinutes(t: TimeOfDay)
    requires Valid(t) && t.second == 0
    ensures Parse(HourMinute, Render(HourMinute, t)) == Some(t)
  {
    var h12 := Hour12(t.hour);
    var body := TwoDigits(h12) + ":" + TwoDigits(t.minute);
    SplitSuffix(body, t);
    HourMinuteFieldsOf(h12, t.minute);
  }

  lemma ParseRenderSpaced(t: TimeOfDay)
    requires Valid(t) && t.second == 0
    ensures Parse(HourMinuteSpaced, Render(HourMinuteSpaced, t)) == Some(t)
  {
    var h12 := Hour12(t.hour);
    var hm := TwoDigits(h12) + ":" + TwoDigits(t.minute);
    var body := hm + " ";
    SplitSuffix(body, t);
    assert body[..|body| - 1] == hm;
    assert TrimEnd(body) == hm;
    HourMinuteFieldsOf(h12, t.minute);
  }

  /** Parsing a rendered time gives the time back, in each of the three formats. */
  lemma ParseRender(fmt: Format, t: TimeOfDay)
    requires Valid(t) && (fmt != HourMinuteSecond ==> t.second == 0)
    ensures Parse(fmt, Render(fmt, t)) == Some(t)
  {
    match fmt {
      case HourMinuteSecond => ParseRenderSeconds(t);
      case HourMinute => ParseRenderMinutes(t);
      case HourMinuteSpaced => ParseRenderSpaced(t);
    }
  }

  // ---------------------------------------------------------------------------
  // The traffic sheet's time column

  /** Every label parsed with one format. */
  function ParseAll(fmt: Format, labels: seq<string>): (r: seq<Option<TimeOfDay>>)
    ensures |r| == |labels|
    ensures forall i :: 0 <= i < |labels| ==> r[i] == Parse(fmt, labels[i])
  {
    seq(|labels|, i requires 0 <= i < |labels| => Parse(fmt, labels[i]))
  }

  /** Each label is parsed on its own: parsing two runs of labels is parsing each run. */
  lemma ParseAllAppend(fmt: Format, a: seq<string>, b: seq<string>)
    ensures ParseAll(fmt, a + b) == ParseAll(fmt, a) + ParseAll(fmt, b)
  {
  }

  predicate NoneParsed(ts: seq<Option<TimeOfDay>>) {
    forall i :: 0 <= i < |ts| ==> ts[i].None?
  }

  /**
   * `parse_times` on the stripped labels: each parsed as "%I:%M:%S%p"; only when no
   * label parses that way, all of them are parsed as "%I:%M%p" instead.
   */
  function ParseTimes(labels: seq<string>): (r: seq<Option<TimeOfDay>>)
    ensures |r| == |labels|
    ensures (exists i :: 0 <= i < |labels| && Parse(HourMinuteSecond, labels[i]).Some?) ==>
      forall i :: 0 <= i < |labels| ==> r[i] == Parse(HourMinuteSecond, labels[i])
    ensures (forall i :: 0 <= i < |labels| ==> Parse(HourMinuteSecond, labels[i]).None?) ==>
      forall i :: 0 <= i < |labels| ==> r[i] == Parse(HourMinute, labels[i])
  {
    var first := ParseAll(HourMinuteSecond, labels);
    if NoneParsed(first) then ParseAll(HourMinute, labels) else first
  }

  /** The formats never mix: either every parsed label had seconds or none had. */
  lemma ParseTimesOneFormat(labels: seq<string>, i: nat, j: nat)
    requires i < |labels| && j < |labels|
    requires ParseTimes(labels)[i].Some? && ParseTimes(labels)[j].Some?
    ensures Parse(HourMinuteSecond, labels[i]).Some? <==> Parse(HourMinuteSecond, labels[j]).Some?
  {
  }

  // ---------------------------------------------------------------------------
  // The sales sheet's slot labels

  /** " - " starts at position `k` of `s`. */
  predicate SeparatorAt(s: string, k: nat) {
    k + 3 <= |s| && s[k] == ' ' && s[k + 1] == '-' && s[k + 2] == ' '
  }

  /** Where the first " - " at or after `i` starts, or `|s|` when there is none. */
  function FirstSeparator(s: string, i: nat): (p: nat)
    requires i <= |s|
    ensures i <= p <= |s|
    ensures p == |s| || SeparatorAt(s, p)
    ensures forall k :: i <= k < p ==> !SeparatorAt(s, k)
    decreases |s| - i
  {
    if i == |s| then |s|
    else if SeparatorAt(s, i) then i
    else FirstSeparator(s, i + 1)
  }

  /** `s.split(" - ")[0]`: everything before the first " - ", or all of `s`. */
  function BeforeSeparator(s: string): (r: string)
    ensures |r| <= |s| && r == s[..|r|]
    ensures r == s || SeparatorAt(s, |r|)
    ensures forall k :: 0 <= k < |r| ==> !SeparatorAt(s, k)
  {
    s[..FirstSeparator(s, 0)]
  }

  /** A label "start - end" cut at the first " - ", when the start has no '-' and does not end in a space. */
  lemma BeforeDash(a: string, rest: string)
    requires forall k :: 0 <= k < |a| ==> a[k] != '-'
    requires a != [] && a[|a| - 1] != ' '
    ensures BeforeSeparator(a + " - " + rest) == a
  {
    var s := a + " - " + rest;
    var p := FirstSeparator(s, 0);
    assert SeparatorAt(s, |a|);
    assert s[..|a|] == a;
  }

  /** The start of a slot label before " - ", stripped. */
  function SlotStart(slot: string): string {
    Trim(BeforeSeparator(slot))
  }

  /** The key that orders slots that fail to parse. */
  const Unparsed: (nat, nat) := (999, 999)

  /**
   * `sort_time_slot`: (hour, minute) of the label's start read as "%I:%M %p", or
   * (999, 999) when it does not read.
   */
  function SortTimeSlot(slot: string): (k: (nat, nat))
    ensures k == Unparsed || (k.0 < 24 && k.1 < 60)
    ensures k == Unparsed <==> Parse(HourMinuteSpaced, SlotStart(slot)).None?
  {
    match Parse(HourMinuteSpaced, SlotStart(slot))
    case Some(t) => (t.hour, t.minute)
    case None => Unparsed
  }

  /** Python's `<=` on pairs: by the first component, then the second. */
  function KeyLe(a: (nat, nat), b: (nat, nat)): bool {
    a.0 < b.0 || (a.0 == b.0 && a.1 <= b.1)
  }

  /** A slot label written "hh:mm AM - ..." sorts by the time it starts. */
  lemma SortTimeSlotOfLabel(t: TimeOfDay, rest: string)
    requires Valid(t) && t.second == 0
    ensures SortTimeSlot(Render(HourMinuteSpaced, t) + " - " + rest) == (t.hour, t.minute)
  {
    var a := Render(HourMinuteSpaced, t);
    assert forall k :: 0 <= k < |a| ==> a[k] != '-';
    BeforeDash(a, rest);
    assert Trim(a) == a;
    ParseRender(HourMinuteSpaced, t);
  }

  /** Slots whose label does not read sort after every slot whose label does. */
  lemma UnparsedSortLast(a: string, b: string)
    requires SortTimeSlot(a) == Unparsed && SortTimeSlot(b) != Unparsed
    ensures KeyLe(SortTimeSlot(b), SortTimeSlot(a)) && !KeyLe(SortTimeSlot(a), SortTimeSlot(b))
  {
  }
}
