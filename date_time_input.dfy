/** The quarter-hour time picker of the date-and-time input
    (src/components/ui/date-time-input.tsx): the 96 "HH:MM" options, the
    rounding of the current value to the option it shows, and the parse of a
    picked option back into an instant. Hours and minutes are those of the
    local clock; the time zone conversion is not modelled. */
module DateTimeInput {
  import opened Wrappers
  import opened Text
  import opened Calendar

  const MsPerHour: int := 3_600_000
  const MsPerMinute: int := 60_000

  /** Number of options: four quarters in each of 24 hours. */
  const OptionCount: nat := 96

  /** The option value: hour and minute, each padded to two digits, joined by a colon. */
  function TimeValue(hour: nat, minute: nat): string
  {
    PadStart2(NatToString(hour)) + ":" + PadStart2(NatToString(minute))
  }

  /** The `'hh:mm A'` label: the twelve-hour clock hour (12 for 0 and 12),
      the minute, and AM before noon, PM after. */
  function Label(hour: nat, minute: nat): (r: string)
    requires hour < 24 && minute < 60
    ensures |r| == 8 && r[2] == ':' && r[5] == ' '
    ensures r[6..] == (if hour < 12 then "AM" else "PM")
    ensures r[3..5] == TimeValue(hour, minute)[3..5]
  {
    var h12 := if hour % 12 == 0 then 12 else hour % 12;
    TwoDigits(h12);
    TwoDigits(minute);
    TwoDigits(hour);
    PadStart2(NatToString(h12)) + ":" + PadStart2(NatToString(minute)) + " " +
      (if hour < 12 then "AM" else "PM")
  }

  /** One entry of the time list. */
  datatype TimeOption = TimeOption(value: string, caption: string)

  /** The option pushed at position `i`: hour `i / 4`, minute `15 * (i % 4)`. */
  function OptionAt(i: nat): TimeOption
    requires i < OptionCount
  {
    OptionFor(i / 4, i % 4 * 15)
  }

  /** The option pushed for `hour` and `minute`. */
  function OptionFor(hour: nat, minute: nat): TimeOption
    requires hour < 24 && minute < 60
  {
    TimeOption(TimeValue(hour, minute), Label(hour, minute))
  }

  /** `options` holds the first `|options|` entries of the list. */
  ghost predicate OptionsSoFar(options: seq<TimeOption>)
  {
    |options| <= OptionCount && forall i :: 0 <= i < |options| ==> options[i] == OptionAt(i)
  }

  /** The option for `hour` and quarter `q` is the next one of the list. */
  lemma {:induction false} PushSlot(options: seq<TimeOption>, hour: nat, q: nat)
    requires hour < 24 && q < 4
    requires |options| == 4 * hour + q && OptionsSoFar(options)
    ensures OptionsSoFar(options + [OptionFor(hour, 15 * q)])
  {
    SlotIndex(hour, q);
    var next := options + [OptionFor(hour, 15 * q)];
    forall j | 0 <= j < |next|
      ensures next[j] == OptionAt(j)
    {
      if j < |options| {
        assert next[j] == options[j];
      } else {
        assert j / 4 == hour && j % 4 * 15 == 15 * q;
        assert next[j] == OptionFor(j / 4, j % 4 * 15);
      }
    }
  }

  /** Hour and quarter map to the position `4 * hour + q` of the list and back. */
  lemma SlotIndex(hour: nat, q: nat)
    requires hour < 24 && q < 4
    ensures 4 * hour + q < OptionCount
    ensures (4 * hour + q) / 4 == hour && (4 * hour + q) % 4 * 15 == 15 * q
  {
  }

  /** `timeOptions`: the hour loop around the quarter-hour loop. */
  method TimeOptions() returns (options: seq<TimeOption>)
    ensures |options| == OptionCount
    ensures forall i :: 0 <= i < OptionCount ==> options[i] == OptionAt(i)
  {
    options := [];
    var hour := 0;
    while hour < 24
      invariant 0 <= hour <= 24
      invariant |options| == 4 * hour && OptionsSoFar(options)
    {
      var minute := 0;
      ghost var q := 0;
      while minute < 60
        invariant 0 <= q <= 4 && minute == 15 * q
        invariant |options| == 4 * hour + q && OptionsSoFar(options)
      {
        PushSlot(options, hour, q);
        options := options + [OptionFor(hour, minute)];
        minute, q := minute + 15, q + 1;
      }
      hour := hour + 1;
    }
  }

  /** The picked value split at the colons, each piece converted by `Number`, read as hours and
      minutes; `None` when either is missing or not a number. */
  function ParseTime(s: string): Option<(nat, nat)>
  {
    var parts := Split(s, ':');
    if |parts| < 2 then None
    else
      match (ToNumber(parts[0]), ToNumber(parts[1]))
      case (Some(h), Some(m)) => Some((h, m))
      case _ => None
  }

  lemma TwoDigitString(n: nat)
    requires n < 100
    ensures var s := PadStart2(NatToString(n));
            |s| == 2 && ':' !in s && ToNumber(s) == Some(n)
  {
    TwoDigits(n);
    var s := [DigitChar(n / 10), DigitChar(n % 10)];
    assert s[..1] == [DigitChar(n / 10)];
    assert DigitsValue(s[..1]) == n / 10 by {
      assert s[..1][..0] == [];
    }
  }

  /** Parsing an "HH:MM" value gives back the hour and minute written into it. */
  lemma {:induction false} ParseTimeValue(hour: nat, minute: nat)
    requires hour < 100 && minute < 100
    ensures ParseTime(TimeValue(hour, minute)) == Some((hour, minute))
  {
    var a := PadStart2(NatToString(hour));
    var b := PadStart2(NatToString(minute));
    TwoDigitString(hour);
    TwoDigitString(minute);
    SplitTwo(a, b, ':');
    assert TimeValue(hour, minute) == a + [':'] + b;
  }

  /** An "HH:MM" value of two-digit numbers, character by character. */
  lemma TimeValueDigits(hour: nat, minute: nat)
    requires hour < 100 && minute < 100
    ensures TimeValue(hour, minute) ==
            [DigitChar(hour / 10), DigitChar(hour % 10), ':', DigitChar(minute / 10), DigitChar(minute % 10)]
  {
    TwoDigits(hour);
    TwoDigits(minute);
  }

  /** Every option value is two digits, a colon, and 00, 15, 30 or 45. */
  lemma OptionValueShape(i: nat)
    requires i < OptionCount
    ensures var v := OptionAt(i).value;
            |v| == 5 && v[2] == ':' && IsDigit(v[0]) && IsDigit(v[1]) &&
            v[3..] in ["00", "15", "30", "45"]
  {
    var h, m := i / 4, i % 4 * 15;
    assert OptionAt(i).value == TimeValue(h, m);
    TimeValueDigits(h, m);
    QuarterDigits(i % 4);
  }

  /** The two digits of a quarter-hour minute. */
  lemma QuarterDigits(q: nat)
    requires q < 4
    ensures [DigitChar(q * 15 / 10), DigitChar(q * 15 % 10)] in ["00", "15", "30", "45"]
  {
    if q == 0 {
      assert [DigitChar(0), DigitChar(0)] == "00";
    } else if q == 1 {
      assert [DigitChar(1), DigitChar(5)] == "15";
    } else if q == 2 {
      assert [DigitChar(3), DigitChar(0)] == "30";
    } else {
      assert [DigitChar(4), DigitChar(5)] == "45";
    }
  }

  /** Minutes since midnight of the time an option value names. */
  function ClockMinutes(hm: (nat, nat)): nat
  {
    hm.0 * 60 + hm.1
  }

  /** The options name distinct, increasing quarter hours. */
  lemma OptionsIncreasing(i: nat, j: nat)
    requires i < j < OptionCount
    ensures ParseTime(OptionAt(i).value).Some? && ParseTime(OptionAt(j).value).Some?
    ensures ClockMinutes(ParseTime(OptionAt(i).value).value) == 15 * i
    ensures ClockMinutes(ParseTime(OptionAt(i).value).value) < ClockMinutes(ParseTime(OptionAt(j).value).value)
  {
    ParseTimeValue(i / 4, i % 4 * 15);
    ParseTimeValue(j / 4, j % 4 * 15);
  }

  /** `Math.round`: the nearest integer, halves rounded up. */
  function JsRound(x: real): int
  {
    (x + 0.5).Floor
  }

  /** The minute of the clock rounded (by `Math.round`) to a multiple of 15. */
  function RoundedMinutes(minute: nat): (r: int)
    requires minute < 60
    ensures r == (minute + 7) / 15 * 15
    ensures 0 <= r <= 60 && r % 15 == 0
  {
    var k := (minute + 7) / 15;
    assert k as real <= minute as real / 15.0 + 0.5 < k as real + 1.0;
    JsRound(minute as real / 15.0) * 15
  }

  function Distance(a: int, b: int): nat
  {
    if a < b then b - a else a - b
  }

  /** No multiple of 15 is nearer to the minute than the rounded one, and it is
      never 7.5 minutes away, so there are no ties to break. */
  lemma NearestQuarter(minute: nat, k: int)
    requires minute < 60
    ensures Distance(RoundedMinutes(minute), minute) <= 7
    ensures Distance(RoundedMinutes(minute), minute) <= Distance(15 * k, minute)
  {
  }

  /** The clock hour of an instant. */
  function HourOf(t: int): (h: nat)
    ensures h < 24
  {
    TimeOfDay(t) / MsPerHour
  }

  /** The clock minute of an instant. */
  function MinuteOf(t: int): (m: nat)
    ensures m < 60
  {
    TimeOfDay(t) % MsPerHour / MsPerMinute
  }

  /** The hour and minute shown for a clock time: the minute rounded to the
      quarter hour, a rounded 60 carried into the hour as minute 0. */
  function ShownClock(hour: nat, minute: nat): (nat, nat)
    requires minute < 60
  {
    var rounded := RoundedMinutes(minute);
    if rounded == 60 then (hour + 1, 0) else (hour, rounded)
  }

  /** The shown time is the quarter hour nearest the clock time; only from
      23:53 on is it hour 24. */
  lemma ShownClockIsNearest(hour: nat, minute: nat)
    requires hour < 24 && minute < 60
    ensures var shown := ShownClock(hour, minute);
            shown.1 < 60 && shown.1 % 15 == 0 &&
            ClockMinutes(shown) == (hour * 60 + minute + 7) / 15 * 15 &&
            Distance(ClockMinutes(shown), hour * 60 + minute) <= 7 &&
            (shown.0 == 24 <==> hour == 23 && minute >= 53) && shown.0 <= 24
  {
  }

  /** `selectedTimeValue`: nothing without a value; else the shown time of
      its clock, as "HH:MM". */
  function SelectedTimeValue(value: Option<int>): (r: Option<string>)
    ensures r.None? <==> value.None?
  {
    if value.None? then None
    else
      var shown := ShownClock(HourOf(value.value), MinuteOf(value.value));
      Some(TimeValue(shown.0, shown.1))
  }

  /** "24:00" is none of the options. */
  lemma MidnightOverflowIsNoOption(j: nat)
    requires j < OptionCount
    ensures OptionAt(j).value != TimeValue(24, 0)
  {
    ParseTimeValue(24, 0);
    ParseTimeValue(j / 4, j % 4 * 15);
  }

  /** The shown value is the option nearest the clock time, except from 23:53
      on, where it is "24:00", which is none of the options. */
  lemma SelectedIsNearestOption(t: int)
    ensures var h, m := HourOf(t), MinuteOf(t);
            var i := (h * 60 + m + 7) / 15;
            if h == 23 && m >= 53 then
              SelectedTimeValue(Some(t)) == Some(TimeValue(24, 0)) &&
              forall j :: 0 <= j < OptionCount ==> OptionAt(j).value != TimeValue(24, 0)
            else
              i < OptionCount && SelectedTimeValue(Some(t)) == Some(OptionAt(i).value) &&
              Distance(15 * i, h * 60 + m) <= 7
  {
    NearestOptionOfClock(HourOf(t), MinuteOf(t));
  }

  /** `SelectedIsNearestOption` for the clock time `h`:`m`. */
  lemma NearestOptionOfClock(h: nat, m: nat)
    requires h < 24 && m < 60
    ensures var shown := ShownClock(h, m);
            var i := (h * 60 + m + 7) / 15;
            if h == 23 && m >= 53 then
              TimeValue(shown.0, shown.1) == TimeValue(24, 0) &&
              forall j :: 0 <= j < OptionCount ==> OptionAt(j).value != TimeValue(24, 0)
            else
              i < OptionCount && TimeValue(shown.0, shown.1) == OptionAt(i).value &&
              Distance(15 * i, h * 60 + m) <= 7
  {
    if h == 23 && m >= 53 {
      ShownOverflow(h, m);
    } else {
      ShownIsOption(h, m);
    }
  }

  /** From 23:53 on the shown time is "24:00", which no option holds. */
  lemma ShownOverflow(h: nat, m: nat)
    requires h == 23 && 53 <= m < 60
    ensures ShownClock(h, m) == (24, 0)
    ensures forall j :: 0 <= j < OptionCount ==> OptionAt(j).value != TimeValue(24, 0)
  {
    forall j | 0 <= j < OptionCount
      ensures OptionAt(j).value != TimeValue(24, 0)
    {
      MidnightOverflowIsNoOption(j);
    }
  }

  /** Before 23:53 the shown time is option `(60 * hour + minute + 7) / 15`. */
  lemma ShownIsOption(h: nat, m: nat)
    requires h < 24 && m < 60 && !(h == 23 && m >= 53)
    ensures var i := (h * 60 + m + 7) / 15;
            i < OptionCount && ShownClock(h, m) == (i / 4, i % 4 * 15) &&
            TimeValue(ShownClock(h, m).0, ShownClock(h, m).1) == OptionAt(i).value &&
            Distance(15 * i, h * 60 + m) <= 7
  {
    var shown := ShownClock(h, m);
    ShownClockIsNearest(h, m);
    var i := (h * 60 + m + 7) / 15;
    var q := shown.1 / 15;
    assert shown.1 == 15 * q;
    assert 15 * i == 15 * (4 * shown.0 + q);
    SlotIndex(shown.0, q);
  }

  /** What picking a time does: nothing for the empty string, an invalid date
      when the value does not parse, else a new instant. */
  datatype TimeSelection = Ignored | InvalidDate | NewInstant(instant: int)

  /** `handleTimeSelect`: the picked hour and minute on the day of the current
      value (of `now` when there is none), seconds and milliseconds zero; an
      hour or minute past the end of the day carries into the next. */
  function HandleTimeSelect(timeValue: string, value: Option<int>, now: int): (r: TimeSelection)
    ensures r.Ignored? <==> timeValue == ""
    ensures r.InvalidDate? <==> timeValue != "" && ParseTime(timeValue).None?
    ensures r.NewInstant? ==> r.instant % MsPerMinute == 0
  {
    if timeValue == "" then Ignored
    else
      var base := if value.Some? then value.value else now;
      match ParseTime(timeValue)
      case None => InvalidDate
      case Some((h, m)) =>
        WholeMinutes(Day(base), h, m);
        NewInstant(Midnight(Day(base)) + h * MsPerHour + m * MsPerMinute)
  }

  /** A day's midnight plus whole hours and minutes is a whole minute. */
  lemma WholeMinutes(d: int, h: nat, m: nat)
    ensures (Midnight(d) + h * MsPerHour + m * MsPerMinute) % MsPerMinute == 0
  {
    var k := d * 1440 + h * 60 + m;
    assert Midnight(d) + h * MsPerHour + m * MsPerMinute == k * MsPerMinute;
  }

  /** Setting the clock of day `d` to `hour`:`minute` reads back as that day,
      hour and minute. */
  lemma ClockOfInstant(d: int, hour: nat, minute: nat)
    requires hour < 24 && minute < 60
    ensures var t := Midnight(d) + hour * MsPerHour + minute * MsPerMinute;
            Day(t) == d && HourOf(t) == hour && MinuteOf(t) == minute
  {
    var ms := hour * MsPerHour + minute * MsPerMinute;
    DayOfMidnightPlus(d, ms);
    assert TimeOfDay(Midnight(d) + ms) == ms;
  }

  /** A clock time already on a quarter hour is shown unchanged. */
  lemma QuarterShownAsIs(hour: nat, quarter: nat)
    requires quarter < 4
    ensures ShownClock(hour, quarter * 15) == (hour, quarter * 15)
  {
    assert quarter == 0 || quarter == 1 || quarter == 2 || quarter == 3;
  }

  /** The instant at the quarter hour of option `i` on day `d`. */
  function SlotInstant(d: int, i: nat): int
    requires i < OptionCount
  {
    Midnight(d) + i / 4 * MsPerHour + i % 4 * 15 * MsPerMinute
  }

  /** Picking option `i` sets that quarter hour on the base day. */
  lemma PickOption(i: nat, value: Option<int>, now: int)
    requires i < OptionCount
    ensures var base := if value.Some? then value.value else now;
            HandleTimeSelect(OptionAt(i).value, value, now) == NewInstant(SlotInstant(Day(base), i))
  {
    var h, m := i / 4, i % 4 * 15;
    var v := OptionAt(i).value;
    assert v == TimeValue(h, m);
    ParseTimeValue(h, m);
    assert v != "" by {
      TimeValueDigits(h, m);
    }
  }

  /** At the quarter hour of option `i` the picker shows option `i`. */
  lemma ShowSlot(d: int, i: nat)
    requires i < OptionCount
    ensures var t := SlotInstant(d, i);
            Day(t) == d && HourOf(t) == i / 4 && MinuteOf(t) == i % 4 * 15 &&
            SelectedTimeValue(Some(t)) == Some(OptionAt(i).value)
  {
    var h, m := i / 4, i % 4 * 15;
    ClockOfInstant(d, h, m);
    QuarterShownAsIs(h, i % 4);
    assert OptionAt(i).value == TimeValue(h, m);
    assert SelectedTimeValue(Some(SlotInstant(d, i))) == Some(TimeValue(h, m));
  }

  /** Picking option `i` keeps the day, sets the clock to exactly that quarter
      hour, and the picker then shows option `i` again. */
  lemma PickThenShow(i: nat, value: Option<int>, now: int)
    requires i < OptionCount
    ensures var base := if value.Some? then value.value else now;
            var r := HandleTimeSelect(OptionAt(i).value, value, now);
            r.NewInstant? && Day(r.instant) == Day(base) &&
            HourOf(r.instant) == i / 4 && MinuteOf(r.instant) == i % 4 * 15 &&
            SelectedTimeValue(Some(r.instant)) == Some(OptionAt(i).value)
  {
    var base := if value.Some? then value.value else now;
    PickOption(i, value, now);
    ShowSlot(Day(base), i);
  }

  /** The trigger's text: the placeholder without a value, else the value in
      the display format. */
  function TriggerLabel(value: Option<int>, placeholder: string, format: int -> string): (r: string)
    ensures value.None? ==> r == placeholder
    ensures value.Some? ==> r == format(value.value)
  {
    if value.None? then placeholder else format(value.value)
  }
}
