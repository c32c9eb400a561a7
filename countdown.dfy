/**
 * The ticking countdown to a parlay leg's end. Times are milliseconds
 * since the epoch.
 */
module Countdown {
  import opened Text

  const SecondMs := 1000
  const MinuteMs := 60 * SecondMs
  const HourMs := 60 * MinuteMs
  const DayMs := 24 * HourMs

  datatype Remaining = Remaining(days: nat, hours: nat, minutes: nat, seconds: nat)

  /**
   * The countdown's whole days, hours, minutes and seconds of a positive
   * difference: each unit below its next, and together the difference
   * rounded down to the second.
   */
  function Decompose(difference: int): (r: Remaining)
    requires difference > 0
    ensures r.hours < 24 && r.minutes < 60 && r.seconds < 60
    ensures var whole := r.days * DayMs + r.hours * HourMs + r.minutes * MinuteMs + r.seconds * SecondMs;
      whole <= difference < whole + SecondMs
  {
    var days := difference / DayMs;
    var hours := (difference % DayMs) / HourMs;
    var minutes := (difference % HourMs) / MinuteMs;
    var seconds := (difference % MinuteMs) / SecondMs;
    DecomposeParts(difference);
    Remaining(days, hours, minutes, seconds)
  }

  lemma DecomposeParts(difference: int)
    requires difference > 0
    ensures (difference % DayMs) / HourMs < 24
    ensures (difference % HourMs) / MinuteMs < 60
    ensures (difference % MinuteMs) / SecondMs < 60
    ensures var whole := (difference / DayMs) * DayMs + ((difference % DayMs) / HourMs) * HourMs +
                         ((difference % HourMs) / MinuteMs) * MinuteMs + ((difference % MinuteMs) / SecondMs) * SecondMs;
      whole <= difference < whole + SecondMs
  {
    var d := difference;
    var days, dayRest := d / DayMs, d % DayMs;
    var hours, hourRest := dayRest / HourMs, dayRest % HourMs;
    var minutes, minuteRest := hourRest / MinuteMs, hourRest % MinuteMs;
    var seconds := minuteRest / SecondMs;
    WithinUnit(d, days, dayRest, DayMs);
    WithinUnit(dayRest, hours, hourRest, HourMs);
    WithinUnit(d, days * 24 + hours, hourRest, HourMs);
    WithinUnit(hourRest, minutes, minuteRest, MinuteMs);
    WithinUnit(d, (days * 24 + hours) * 60 + minutes, minuteRest, MinuteMs);
    WithinUnit(minuteRest, seconds, minuteRest % SecondMs, SecondMs);
  }

  /** Whole units and the remainder are the only such split: `a == q * unit + r` with `0 <= r < unit` fixes both. */
  lemma WithinUnit(a: int, q: int, r: int, unit: int)
    requires unit == SecondMs || unit == MinuteMs || unit == HourMs || unit == DayMs
    requires a == q * unit + r && 0 <= r < unit
    ensures a / unit == q && a % unit == r
  {
    if unit == SecondMs {
      assert a == q * 1000 + r;
    } else if unit == MinuteMs {
      assert a == q * 60000 + r;
    } else if unit == HourMs {
      assert a == q * 3600000 + r;
    } else {
      assert a == q * 86400000 + r;
    }
  }

  /** The countdown's text: from the largest unit that is non-zero, three units, or fewer when hours or minutes lead. */
  function CountdownText(r: Remaining): (t: string)
    ensures |t| >= 2 && '0' <= t[0] <= '9' && t != "Expired"
    ensures t[|t| - 1] == 's' <==> r.days == 0
    ensures t[|t| - 1] == 'm' <==> r.days > 0
  {
    if r.days > 0 then ShowNat(r.days) + "d " + ShowNat(r.hours) + "h " + ShowNat(r.minutes) + "m"
    else if r.hours > 0 then ShowNat(r.hours) + "h " + ShowNat(r.minutes) + "m " + ShowNat(r.seconds) + "s"
    else if r.minutes > 0 then ShowNat(r.minutes) + "m " + ShowNat(r.seconds) + "s"
    else ShowNat(r.seconds) + "s"
  }

  /** Seconds are shown exactly when less than a day remains; the text then ends in 's', otherwise in 'm'. */
  lemma CountdownTextUnits(difference: int)
    requires difference > 0
    ensures var t := CountdownText(Decompose(difference));
      |t| >= 2 && (t[|t| - 1] == 's' <==> difference < DayMs) && (t[|t| - 1] == 'm' <==> difference >= DayMs)
  {
    var r := Decompose(difference);
    assert r.days > 0 <==> difference >= DayMs;
  }

  /** The countdown on a parlay card: its text and whether it shows as expired. */
  class CountdownTimer {
    const endTime: int
    var timeLeft: string
    var isExpired: bool

    constructor(endTime: int)
      ensures this.endTime == endTime && timeLeft == "" && !isExpired
    {
      this.endTime := endTime;
      timeLeft := "";
      isExpired := false;
    }

    /** `updateTimeLeft` at time `now`: "Expired" once the end is reached, the decomposed text before. */
    method UpdateTimeLeft(now: int)
      modifies this
      ensures isExpired <==> endTime - now <= 0
      ensures isExpired ==> timeLeft == "Expired"
      ensures !isExpired ==> timeLeft == CountdownText(Decompose(endTime - now))
    {
      var difference := endTime - now;
      if difference <= 0 {
        timeLeft := "Expired";
        isExpired := true;
        return;
      }
      var days := difference / DayMs;
      var hours := (difference % DayMs) / HourMs;
      var minutes := (difference % HourMs) / MinuteMs;
      var seconds := (difference % MinuteMs) / SecondMs;
      timeLeft := CountdownText(Remaining(days, hours, minutes, seconds));
      isExpired := false;
    }
  }
}
