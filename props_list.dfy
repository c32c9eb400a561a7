/**
 * The list of prop cards: appending a newly priced line to its prop, and
 * each card's open/closed state and "Remaining" badge. Times are
 * milliseconds since the epoch.
 */
module PropsList {
  import opened Text
  import opened Countdown

  datatype PropOption = PropOption(id: string, line: real, oddsOver: int, oddsUnder: int, created: int,
                                   creatorId: string, creatorName: string)

  datatype Prop = Prop(id: string, description: string, ev: real, end: int, options: seq<PropOption>)

  /** What the line dialog reports back after creating a line. */
  datatype NewOption = NewOption(id: string, line: real, oddsOver: int, oddsUnder: int)

  /** The full line record for the card: the reported fields, stamped now and credited to the viewer. */
  function FullOption(n: NewOption, now: int, viewerId: string, viewerName: string): PropOption
  {
    PropOption(n.id, n.line, n.oddsOver, n.oddsUnder, now, viewerId, viewerName)
  }

  /** `prevProps.map(...)`: the matching props get the line appended to their options. */
  function WithOptionAdded(props: seq<Prop>, propId: string, option: PropOption): (r: seq<Prop>)
    ensures |r| == |props|
    ensures forall i :: 0 <= i < |props| && props[i].id != propId ==> r[i] == props[i]
    ensures forall i :: 0 <= i < |props| && props[i].id == propId ==>
      r[i] == props[i].(options := props[i].options + [option])
  {
    if props == [] then []
    else
      var head := if props[0].id == propId then props[0].(options := props[0].options + [option]) else props[0];
      [head] + WithOptionAdded(props[1..], propId, option)
  }

  /** Appending a line keeps every card's identity and end, and adds exactly one line per matching card. */
  lemma OptionAddedOnce(props: seq<Prop>, propId: string, option: PropOption)
    ensures var r := WithOptionAdded(props, propId, option);
      forall i :: 0 <= i < |props| ==>
        r[i].id == props[i].id && r[i].end == props[i].end &&
        |r[i].options| == |props[i].options| + (if props[i].id == propId then 1 else 0) &&
        r[i].options[..|props[i].options|] == props[i].options
  {
    var r := WithOptionAdded(props, propId, option);
    forall i | 0 <= i < |props|
      ensures r[i].options[..|props[i].options|] == props[i].options
    {
      if props[i].id == propId {
        assert r[i].options == props[i].options + [option];
      }
    }
  }

  /** The card list, whose props state `handlePropOptionAdded` replaces. */
  class PropsListState {
    const viewerId: string
    const viewerName: string
    var props: seq<Prop>

    constructor(initialProps: seq<Prop>, viewerId: string, viewerName: string)
      ensures props == initialProps && this.viewerId == viewerId && this.viewerName == viewerName
    {
      props := initialProps;
      this.viewerId := viewerId;
      this.viewerName := viewerName;
    }

    /** `handlePropOptionAdded` at time `now`. */
    method HandlePropOptionAdded(propId: string, newOption: NewOption, now: int)
      modifies this
      ensures props == WithOptionAdded(old(props), propId, FullOption(newOption, now, viewerId, viewerName))
    {
      var fullPropOption := FullOption(newOption, now, viewerId, viewerName);
      props := WithOptionAdded(props, propId, fullPropOption);
    }
  }

  /** A prop is closed from its end time on; a closed prop has nothing left on its badge. */
  predicate IsExpired(now: int, end: int)
    ensures IsExpired(now, end) ==> DurationUnits(now, end) == Remaining(0, 0, 0, 0)
  {
    now >= end
  }

  /**
   * The prop card's whole days, hours within the day and minutes within the
   * hour left, each truncated toward zero and floored at 0.
   */
  function DurationUnits(now: int, end: int): (r: Remaining)
    ensures r.hours < 24 && r.minutes < 60 && r.seconds == 0
    ensures end <= now ==> r == Remaining(0, 0, 0, 0)
    ensures now < end ==> r.days * DayMs <= end - now < (r.days + 1) * DayMs
  {
    var difference := end - now;
    Remaining(NonNegative(Truncate(difference, DayMs)), NonNegative(TruncRem(Truncate(difference, HourMs), 24)),
              NonNegative(TruncRem(Truncate(difference, MinuteMs), 60)), 0)
  }

  /** Division truncating toward zero, as `differenceIn…` counts whole units. */
  function Truncate(a: int, m: int): (q: int)
    requires m > 0
    ensures a >= 0 ==> q == a / m
    ensures a < 0 ==> q <= 0
  {
    if a >= 0 then a / m else -((-a) / m)
  }

  /** JavaScript's `%`: the remainder takes the sign of the dividend. */
  function TruncRem(a: int, m: int): (r: int)
    requires m > 0
    ensures a >= 0 ==> r == a % m
    ensures a < 0 ==> r <= 0
  {
    if a >= 0 then a % m else -((-a) % m)
  }

  function NonNegative(n: int): nat
  {
    if n < 0 then 0 else n
  }

  /** The "Remaining" badge: "0d 0h 0m" once closed, otherwise days, hours and minutes. */
  function DurationText(now: int, end: int): (t: string)
    ensures IsExpired(now, end) ==> t == "0d 0h 0m"
  {
    if IsExpired(now, end) then "0d 0h 0m"
    else
      var r := DurationUnits(now, end);
      ShowNat(r.days) + "d " + ShowNat(r.hours) + "h " + ShowNat(r.minutes) + "m"
  }

  /** Before the end, the badge's days, hours and minutes are the countdown's for the same moment. */
  lemma DurationMatchesCountdown(now: int, end: int)
    requires !IsExpired(now, end)
    ensures var r := DurationUnits(now, end); var c := Decompose(end - now);
      r.days == c.days && r.hours == c.hours && r.minutes == c.minutes
  {
    var d := end - now;
    assert (d / HourMs) % 24 == (d % DayMs) / HourMs by {
      HoursWithinDay(d);
    }
    assert (d / MinuteMs) % 60 == (d % HourMs) / MinuteMs by {
      MinutesWithinHour(d);
    }
  }

  lemma HoursWithinDay(d: int)
    requires d >= 0
    ensures (d / HourMs) % 24 == (d % DayMs) / HourMs
  {
  }

  lemma MinutesWithinHour(d: int)
    requires d >= 0
    ensures (d / MinuteMs) % 60 == (d % HourMs) / MinuteMs
  {
  }

  /**
   * The add-line control is offered exactly while the prop is open, that is
   * while a countdown to the same end is still running.
   */
  predicate ShowsAddLine(now: int, end: int)
    ensures ShowsAddLine(now, end) <==> end - now > 0
  {
    !IsExpired(now, end)
  }
}
