/**
 * The background check that settles finished parlays when a page loads, at
 * most once every five minutes per browser session.
 */
module ParlayResolver {
  import opened Wrappers
  import opened Text

  const CheckIntervalMs := 5 * 60 * 1000

  /** What the settlement call gave back: it threw, or it returned its report. */
  datatype CallOutcome =
    | Threw
    | Returned(success: bool, resolvedCount: Option<int>, message: string, totalPayout: int)

  datatype Toast = Toast(message: string, description: string)

  /** Whether a check at `now` calls the settlement: never checked before, or five minutes since the last check. */
  predicate ShouldCall(lastCheck: Option<int>, now: int)
  {
    lastCheck.None? || now - lastCheck.value >= CheckIntervalMs
  }

  /** The last check time after a check at `now`. */
  function After(lastCheck: Option<int>, now: int): (r: Option<int>)
    ensures ShouldCall(lastCheck, now) ==> r == Some(now)
    ensures !ShouldCall(lastCheck, now) ==> r == lastCheck
  {
    if ShouldCall(lastCheck, now) then Some(now) else lastCheck
  }

  /** Two checks less than five minutes apart make at most one settlement call. */
  lemma AtMostOnceInFiveMinutes(lastCheck: Option<int>, first: int, second: int)
    requires first <= second < first + CheckIntervalMs
    ensures !(ShouldCall(lastCheck, first) && ShouldCall(After(lastCheck, first), second))
  {
  }

  /** A report toasts only when it succeeded and settled a positive number of parlays. */
  function ToastFor(outcome: CallOutcome): (t: Option<Toast>)
    ensures t.Some? <==> outcome.Returned? && outcome.success && outcome.resolvedCount.Some? &&
                          outcome.resolvedCount.value > 0
  {
    match outcome
    case Threw => None
    case Returned(success, resolvedCount, message, totalPayout) =>
      if success && resolvedCount.Some? && resolvedCount.value > 0 then
        Some(Toast(message, "You won " + Show(totalPayout) + " coins!"))
      else None
  }

  /** The session's `parlayLastCheck` entry, held as the time it records. */
  class SessionClock {
    var lastCheck: Option<int>

    constructor(lastCheck: Option<int>)
      ensures this.lastCheck == lastCheck
    {
      this.lastCheck := lastCheck;
    }

    /**
     * `checkParlays` at time `now`, with `outcome` what the call gives if
     * it is made: skipped within five minutes of the last check; otherwise
     * the call is made and the time is recorded whether it succeeded or not.
     */
    method CheckParlays(now: int, outcome: CallOutcome) returns (called: bool, toast: Option<Toast>)
      modifies this
      ensures called <==> ShouldCall(old(lastCheck), now)
      ensures lastCheck == After(old(lastCheck), now)
      ensures toast == if called then ToastFor(outcome) else None
    {
      if lastCheck.Some? && now - lastCheck.value < CheckIntervalMs {
        return false, None;
      }
      called := true;
      match outcome {
        case Threw =>
          toast := None;
          lastCheck := Some(now);
        case Returned(_, _, _, _) =>
          toast := ToastFor(outcome);
          lastCheck := Some(now);
      }
    }
  }
}
