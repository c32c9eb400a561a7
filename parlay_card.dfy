/**
 * What a parlay card shows (`ParlayCard`, and `PrivacyParlayCard`, which
 * computes the same figures): the latest end time of the legs, the combined
 * odds and potential profit on the locked-in odds, the count of legs
 * currently winning, the estimated cash-out, and which legs are hidden from
 * the viewer.
 */
module ParlayCard {
  import opened Wrappers
  import opened Numeric
  import opened Text
  import opened Valuation

  /**
   * `reduce((max, end) => end > max ? end : max, new Date(0))`: the latest
   * end time, in milliseconds since the epoch; 0 when no end is later.
   */
  function MaxEndTime(ends: seq<int>): (latest: int)
    ensures latest >= 0
    ensures forall i :: 0 <= i < |ends| ==> ends[i] <= latest
    ensures latest == 0 || latest in ends
    ensures ends == [] ==> latest == 0
  {
    if ends == [] then 0
    else
      var before := MaxEndTime(ends[..|ends| - 1]);
      var end := ends[|ends| - 1];
      assert forall i :: 0 <= i < |ends| - 1 ==> ends[..|ends| - 1][i] == ends[i];
      if end > before then end else before
  }

  /** `filter(leg => winning).length`: how many legs are winning on the current counts. */
  function WinningLegs(legs: seq<LegState>): (n: nat)
    ensures n <= |legs|
  {
    if legs == [] then 0
    else WinningLegs(legs[..|legs| - 1]) + (if LiveWinning(legs[|legs| - 1]) then 1 else 0)
  }

  /** All legs are winning exactly when the winning count is the leg count (vacuously with no legs). */
  lemma {:induction false} AllWinning(legs: seq<LegState>)
    ensures WinningLegs(legs) == |legs| <==> forall i :: 0 <= i < |legs| ==> LiveWinning(legs[i])
  {
    if legs != [] {
      var init := legs[..|legs| - 1];
      AllWinning(init);
      assert forall i :: 0 <= i < |init| ==> init[i] == legs[i];
      if WinningLegs(legs) == |legs| {
        assert WinningLegs(init) == |init| && LiveWinning(legs[|legs| - 1]);
      }
    }
  }

  /** `isParlayWinning`: the winning count equals the leg count. */
  predicate IsParlayWinning(legs: seq<LegState>)
  {
    WinningLegs(legs) == |legs|
  }

  /** `parlayProgress`: the share of winning legs in percent, 0 with no legs. */
  function ParlayProgress(legs: seq<LegState>): (progress: real)
    ensures 0.0 <= progress <= 100.0
    ensures legs == [] ==> progress == 0.0
    ensures legs != [] ==> (progress == 100.0 <==> IsParlayWinning(legs))
  {
    if |legs| > 0 then
      var w := WinningLegs(legs) as real;
      var n := |legs| as real;
      DivCompare(w, n, 1.0);
      DivCompare(w, n, 0.0);
      w / n * 100.0
    else 0.0
  }

  /** The badge under the name: `formatOdds(round((totalOdds - 1) * 100))`, the combined odds as American odds. */
  function CombinedOdds(legs: seq<LegState>): (odds: int)
    requires LockedOddsValid(legs)
    ensures odds >= 0
  {
    var d := DecimalOf(legs);
    RoundOfInt(0);
    RoundMonotone(0.0, (d - 1.0) * 100.0);
    Round((d - 1.0) * 100.0)
  }

  /** A single-leg parlay shows its leg's odds when they are positive, and 10000 / |odds| otherwise. */
  lemma CombinedOddsOfOneLeg(leg: LegState)
    requires leg.odds != 0
    ensures leg.odds > 0 ==> CombinedOdds([leg]) == leg.odds
    ensures leg.odds < 0 ==> CombinedOdds([leg]) == Round(10000.0 / IntAbs(leg.odds) as real)
  {
    var legs := [leg];
    assert Decimals(legs) == [Decimal(leg.odds)];
    assert Product([Decimal(leg.odds)]) == Product([]) * Decimal(leg.odds) by {
      assert [Decimal(leg.odds)][..0] == [];
    }
    assert DecimalOf(legs) == Decimal(leg.odds);
    if leg.odds > 0 {
      assert (Decimal(leg.odds) - 1.0) * 100.0 == leg.odds as real;
      RoundOfInt(leg.odds);
    } else {
      assert (Decimal(leg.odds) - 1.0) * 100.0 == 10000.0 / IntAbs(leg.odds) as real;
    }
  }

  /**
   * The card's cash-out estimate: the leg loop multiplies the leg
   * probabilities, then the profit shown on the card is scaled by that
   * product and 0.85 and added to the stake, with a floor of 10% of the stake.
   */
  method EstimateCashOut(coins: int, legs: seq<LegState>) returns (amount: int)
    requires LockedOddsValid(legs)
    ensures amount == EstimatedCashOut(coins, legs)
  {
    var totalProbability := TotalProbability(legs);
    var potentialPayout := PotentialPayout(coins, legs);
    amount := EstimateFrom(coins, potentialPayout, totalProbability);
  }

  /**
   * `isPrivateToViewer`: a leg whose prop is about the signed-in viewer is
   * hidden from them; a missing or empty viewer id (falsy) hides nothing.
   */
  predicate IsPrivateToViewer(viewer: Option<string>, subject: string)
    ensures IsPrivateToViewer(viewer, subject) ==> viewer == Some(subject) && subject != ""
  {
    viewer.Some? && viewer.value != "" && viewer.value == subject
  }

  /** Only the prop's subject ever sees one of its legs hidden, and a signed-out visitor sees every leg. */
  lemma PrivateOnlyToSubject(viewer: Option<string>, subject: string)
    ensures IsPrivateToViewer(viewer, subject) ==> viewer == Some(subject)
    ensures viewer.None? ==> !IsPrivateToViewer(viewer, subject)
    ensures subject != "" ==> IsPrivateToViewer(Some(subject), subject)
  {
  }
}
