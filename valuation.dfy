/**
 * Parlay valuation shared by settlement, cash-out and the parlay cards:
 * decimal multipliers of locked-in American odds, per-leg win state, the
 * heuristic leg probability and the cash-out amount.
 */
module Valuation {
  import opened Numeric
  import opened Odds

  /** `odds > 0 ? odds / 100 + 1 : 100 / |odds| + 1`; odds of 0 would divide by zero. */
  function Decimal(o: int): (d: real)
    requires o != 0
    ensures d > 1.0
  {
    if o > 0 then o as real / 100.0 + 1.0
    else
      DivCompare(100.0, IntAbs(o) as real, 0.0);
      100.0 / IntAbs(o) as real + 1.0
  }

  /** The decimal multiplier is the reciprocal of the implied probability. */
  lemma DecimalIsInverseOfImplied(o: int)
    requires o != 0
    ensures Decimal(o) * ImpliedProbability(o) == 1.0
  {
    var a := IntAbs(o) as real;
    if o > 0 {
      var p := 100.0 / (a + 100.0);
      assert p * (a + 100.0) == 100.0;
      assert (a / 100.0 + 1.0) * p == (a + 100.0) * p / 100.0;
    } else {
      var p := a / (a + 100.0);
      var m := 100.0 / a;
      assert p * (a + 100.0) == a;
      assert m * a == 100.0;
      assert (m + 1.0) * p * (a + 100.0) == (m + 1.0) * a;
      assert (m + 1.0) * a == a + 100.0;
    }
  }

  /** One leg of a parlay as valuation sees it: locked-in odds, side, the option's line and a tally count. */
  datatype LegState = LegState(odds: int, isOver: bool, line: real, tallies: int)

  predicate LockedOddsValid(legs: seq<LegState>)
  {
    forall i :: 0 <= i < |legs| ==> legs[i].odds != 0
  }

  /** Left-to-right product, as `reduce((acc, x) => acc * x, 1)` computes it. */
  function Product(xs: seq<real>): real
  {
    if xs == [] then 1.0 else Product(xs[..|xs| - 1]) * xs[|xs| - 1]
  }

  lemma ProductStep(xs: seq<real>, i: nat)
    requires i < |xs|
    ensures Product(xs[..i + 1]) == Product(xs[..i]) * xs[i]
  {
    var prefix := xs[..i + 1];
    assert prefix[..|prefix| - 1] == xs[..i];
  }

  /** A product of factors in [0, 1] stays in [0, 1]. */
  lemma {:induction false} ProductOfUnits(xs: seq<real>)
    requires forall i :: 0 <= i < |xs| ==> 0.0 <= xs[i] <= 1.0
    ensures 0.0 <= Product(xs) <= 1.0
  {
    if xs != [] {
      ProductOfUnits(xs[..|xs| - 1]);
      UnitProduct(Product(xs[..|xs| - 1]), xs[|xs| - 1]);
    }
  }

  /** A product of factors above 1 is at least 1, and above 1 when there is a factor. */
  lemma {:induction false} ProductOfMultipliers(xs: seq<real>)
    requires forall i :: 0 <= i < |xs| ==> xs[i] > 1.0
    ensures Product(xs) >= 1.0
    ensures xs != [] ==> Product(xs) > 1.0
  {
    if xs != [] {
      var rest := xs[..|xs| - 1];
      ProductOfMultipliers(rest);
      MulLe(1.0, Product(rest), xs[|xs| - 1]);
      assert 1.0 * xs[|xs| - 1] == xs[|xs| - 1];
    }
  }

  /** The decimal multiplier of each leg's locked-in odds, in leg order. */
  function Decimals(legs: seq<LegState>): (ds: seq<real>)
    requires LockedOddsValid(legs)
    ensures |ds| == |legs|
    ensures forall i :: 0 <= i < |legs| ==> ds[i] == Decimal(legs[i].odds) && ds[i] > 1.0
  {
    seq(|legs|, i requires 0 <= i < |legs| => Decimal(legs[i].odds))
  }

  /** `reduce((total, leg) => total * decimal(leg.odds), 1)`: at least 1, above 1 with any leg. */
  function DecimalOf(legs: seq<LegState>): (d: real)
    requires LockedOddsValid(legs)
    ensures d >= 1.0
    ensures legs != [] ==> d > 1.0
  {
    ProductOfMultipliers(Decimals(legs));
    Product(Decimals(legs))
  }

  /** The decimal product reads only the locked-in odds, not the sides, lines or counts. */
  lemma DecimalOfOddsOnly(a: seq<LegState>, b: seq<LegState>)
    requires LockedOddsValid(a) && |a| == |b|
    requires forall i :: 0 <= i < |a| ==> a[i].odds == b[i].odds
    ensures LockedOddsValid(b) && DecimalOf(a) == DecimalOf(b)
  {
    assert Decimals(a) == Decimals(b);
  }

  /** Live win state of a leg: an over is winning above the line, an under below it; equality is not winning. */
  predicate LiveWinning(s: LegState)
  {
    if s.isOver then s.tallies as real > s.line else (s.tallies as real) < s.line
  }

  /**
   * Settlement's leg outcome: a count equal to the line is a loss, otherwise
   * an over wins above the line and an under below it.
   */
  predicate SettledLegWins(count: int, line: real, isOver: bool)
  {
    if count as real == line then false
    else if isOver then count as real > line
    else (count as real) < line
  }

  /** Treating a push as a loss makes settlement agree with the live win state on the same count. */
  lemma SettledMatchesLive(count: int, line: real, isOver: bool, odds: int)
    ensures SettledLegWins(count, line, isOver) == LiveWinning(LegState(odds, isOver, line, count))
    ensures SettledLegWins(count, line, isOver) ==> count as real != line
  {
  }

  /** On a half-integer line no count is a push: exactly one side wins. */
  lemma HalfLineDecides(count: int, k: int)
    ensures SettledLegWins(count, k as real + 0.5, true) != SettledLegWins(count, k as real + 0.5, false)
  {
    assert count as real != k as real + 0.5 by {
      if count <= k { assert count as real <= k as real; } else { assert count as real >= k as real + 1.0; }
    }
  }

  /**
   * The cash-out heuristic for one leg: with no tallies the implied
   * probability of the locked-in odds (not clamped); otherwise 0.8 plus up to
   * 0.15 for a winning leg, 0.3 minus up to 0.25 for a losing one, scaled by
   * the distance to the line over max(line, 10), then clamped to [0.05, 0.95].
   */
  function LegProbability(s: LegState): (p: real)
    ensures s.tallies == 0 ==> p == ImpliedProbability(s.odds)
    ensures s.tallies != 0 && LiveWinning(s) ==> 0.8 <= p <= 0.95
    ensures s.tallies != 0 && !LiveWinning(s) ==> 0.05 <= p <= 0.3
    ensures 0.0 <= p < 1.0
  {
    if s.tallies == 0 then ImpliedProbability(s.odds)
    else
      var distance := Abs(s.tallies as real - s.line);
      var maxDistance := Max(s.line, 10.0);
      DivCompare(distance, maxDistance, 0.0);
      var raw := if LiveWinning(s) then 0.8 + distance / maxDistance * 0.15
                 else 0.3 - distance / maxDistance * 0.25;
      Clamp(raw, 0.05, 0.95)
  }

  function Probabilities(legs: seq<LegState>): (ps: seq<real>)
    ensures |ps| == |legs|
    ensures forall i :: 0 <= i < |legs| ==> ps[i] == LegProbability(legs[i]) && 0.0 <= ps[i] <= 1.0
  {
    seq(|legs|, i requires 0 <= i < |legs| => LegProbability(legs[i]))
  }

  /** `totalProbability`: the product of the leg probabilities, in [0, 1]. */
  function ProbabilityOf(legs: seq<LegState>): (p: real)
    ensures 0.0 <= p <= 1.0
  {
    ProductOfUnits(Probabilities(legs));
    Product(Probabilities(legs))
  }

  /** The cash-out loop: multiplies the leg probabilities into `totalProbability`. */
  method TotalProbability(legs: seq<LegState>) returns (total: real)
    ensures total == ProbabilityOf(legs)
    ensures 0.0 <= total <= 1.0
  {
    total := MultiplyAll(Probabilities(legs));
  }

  /** Multiplies factors left to right, starting from 1. */
  method MultiplyAll(xs: seq<real>) returns (total: real)
    ensures total == Product(xs)
  {
    total := 1.0;
    var i := 0;
    while i < |xs|
      invariant 0 <= i <= |xs|
      invariant total == Product(xs[..i])
    {
      ProductStep(xs, i);
      total := total * xs[i];
      i := i + 1;
    }
    assert xs[..i] == xs;
  }

  /** The settlement loop: multiplies the legs' decimal multipliers into `totalOdds`. */
  method TotalOdds(legs: seq<LegState>) returns (total: real)
    requires LockedOddsValid(legs)
    ensures total == DecimalOf(legs)
    ensures total >= 1.0
  {
    total := MultiplyAll(Decimals(legs));
  }

  /** Settlement pays `round(coins * Π decimal)`: never less than the stake, and the stake itself with no legs. */
  function SettlementPayout(coins: int, legs: seq<LegState>): (payout: int)
    requires LockedOddsValid(legs)
    ensures coins >= 0 ==> payout >= coins
    ensures legs == [] ==> payout == coins
  {
    var d := DecimalOf(legs);
    ScaledRoundBounds(coins, d);
    RoundedReturn(coins, d)
  }

  /** `Math.round(coins * totalOdds)`. */
  function RoundedReturn(coins: int, totalOdds: real): int
  {
    Round(coins as real * totalOdds)
  }

  /** The card's `potentialPayout = round(coins * (totalOdds - 1))`: profit only, never negative for a stake. */
  function PotentialPayout(coins: int, legs: seq<LegState>): (profit: int)
    requires LockedOddsValid(legs)
    ensures coins >= 0 ==> profit >= 0
  {
    var d := DecimalOf(legs);
    ScaledRoundBounds(coins, d);
    Round(coins as real * (d - 1.0))
  }

  /** A non-negative stake scaled by a multiplier of at least 1 rounds to at least the stake. */
  lemma ScaledRoundBounds(coins: int, d: real)
    requires d >= 1.0
    ensures coins >= 0 ==> Round(coins as real * d) >= coins
    ensures coins >= 0 ==> Round(coins as real * (d - 1.0)) >= 0
  {
    if coins >= 0 {
      MulLe(1.0, d, coins as real);
      MulLe(0.0, d - 1.0, coins as real);
      RoundOfInt(coins);
      RoundMonotone(coins as real, coins as real * d);
      RoundOfInt(0);
      RoundMonotone(0.0, coins as real * (d - 1.0));
    }
  }

  /** The settlement payout is the stake plus the profit the card shows. */
  lemma PayoutIsStakePlusProfit(coins: int, legs: seq<LegState>)
    requires LockedOddsValid(legs)
    ensures SettlementPayout(coins, legs) == coins + PotentialPayout(coins, legs)
  {
    var d := DecimalOf(legs);
    assert coins as real * d == coins as real + coins as real * (d - 1.0);
    RoundShift(coins as real * (d - 1.0), coins);
  }

  lemma RoundShift(x: real, n: int)
    ensures Round(n as real + x) == n + Round(x)
  {
    assert (n as real + x + 0.5).Floor == n + (x + 0.5).Floor;
  }

  /**
   * The credited cash-out: `max(round(coins + coins * (D - 1) * P * 0.85), round(coins * 0.1))`
   * with D the decimal product and P the probability product. For a stake it
   * lies between the stake itself (so the 10% floor never binds) and the
   * settlement payout `round(coins * D)`.
   */
  function CashOutAmount(coins: int, legs: seq<LegState>): (amount: int)
    requires LockedOddsValid(legs)
    ensures amount >= Round(coins as real * 0.1)
    ensures coins >= 0 ==> coins <= amount <= SettlementPayout(coins, legs)
  {
    CashOutFrom(coins, DecimalOf(legs), ProbabilityOf(legs))
  }

  /** `Math.max(estimate, Math.round(coins * 0.1))`: no offer falls below a tenth of the stake. */
  function TenthFloor(estimate: int, coins: int): (amount: int)
    ensures amount >= estimate && amount >= Round(coins as real * 0.1)
    ensures amount == estimate || amount == Round(coins as real * 0.1)
  {
    var floor := Round(coins as real * 0.1);
    if estimate >= floor then estimate else floor
  }

  function CashOutFrom(coins: int, d: real, p: real): (amount: int)
    ensures amount >= Round(coins as real * 0.1)
    ensures coins >= 0 && d >= 1.0 && 0.0 <= p <= 1.0 ==> coins <= amount <= Round(coins as real * d)
  {
    var estimate := Round(coins as real + coins as real * (d - 1.0) * p * 0.85);
    if coins >= 0 && d >= 1.0 && 0.0 <= p <= 1.0 then
      CashOutBoundsOn(coins, d, p);
      TenthFloor(estimate, coins)
    else
      TenthFloor(estimate, coins)
  }

  lemma CashOutBoundsOn(coins: int, d: real, p: real)
    requires coins >= 0 && d >= 1.0 && 0.0 <= p <= 1.0
    ensures coins <= Round(coins as real + coins as real * (d - 1.0) * p * 0.85) <= Round(coins as real * d)
    ensures Round(coins as real * 0.1) <= coins
  {
    var c := coins as real;
    var margin := d - 1.0;
    NonNegativeProduct(c, margin);
    var profit := c * margin;
    ShareBounds(profit, p);
    Distribute(c, d);
    StakeBounds(coins, profit * p * 0.85, profit, c * d);
  }

  /** Rounding keeps the stake plus a share of the profit between the stake and the stake plus the profit. */
  lemma StakeBounds(coins: int, share: real, profit: real, total: real)
    requires coins >= 0 && 0.0 <= share <= profit && coins as real + profit == total
    ensures coins <= Round(coins as real + share) <= Round(total)
    ensures Round(coins as real * 0.1) <= coins
  {
    RoundOfInt(coins);
    RoundMonotone(coins as real, coins as real + share);
    RoundMonotone(coins as real + share, total);
    RoundMonotone(coins as real * 0.1, coins as real);
  }

  /** The house keeps at least 15% of the profit and the probability scales it down further. */
  lemma ShareBounds(profit: real, p: real)
    requires profit >= 0.0 && 0.0 <= p <= 1.0
    ensures 0.0 <= profit * p * 0.85 <= profit
  {
    MulLe(0.0, p, profit);
    MulLe(p, 1.0, profit);
  }

  lemma NonNegativeProduct(a: real, b: real)
    requires a >= 0.0 && b >= 0.0
    ensures a * b >= 0.0
  {
  }

  lemma Distribute(c: real, d: real)
    ensures c + c * (d - 1.0) == c * d
  {
  }

  /**
   * The card's estimate: the same formula, but on the already-rounded
   * `potentialPayout`, floored at `round(coins * 0.1)`. For a stake it lies
   * between the stake and the settlement payout, like the credited amount.
   */
  function EstimatedCashOut(coins: int, legs: seq<LegState>): (amount: int)
    requires LockedOddsValid(legs)
    ensures amount >= Round(coins as real * 0.1)
    ensures coins >= 0 ==> coins <= amount <= SettlementPayout(coins, legs)
  {
    PayoutIsStakePlusProfit(coins, legs);
    EstimateFrom(coins, PotentialPayout(coins, legs), ProbabilityOf(legs))
  }

  function EstimateFrom(coins: int, profit: int, p: real): (amount: int)
    ensures amount >= Round(coins as real * 0.1)
    ensures coins >= 0 && profit >= 0 && 0.0 <= p <= 1.0 ==> coins <= amount <= coins + profit
  {
    var estimate := Round(coins as real + profit as real * p * 0.85);
    if coins >= 0 && profit >= 0 && 0.0 <= p <= 1.0 then
      var share := profit as real * p * 0.85;
      ShareBounds(profit as real, p);
      assert 0.0 <= share <= profit as real;
      assert coins as real + profit as real == (coins + profit) as real;
      StakeBounds(coins, share, profit as real, (coins + profit) as real);
      RoundOfInt(coins + profit);
      TenthFloor(estimate, coins)
    else
      TenthFloor(estimate, coins)
  }

  /**
   * The card's estimate is not the amount cash-out credits: one coin on a
   * -200 over at line 0.5 with 20 tallies is shown as 2 and credited as 1.
   */
  lemma EstimateDiffersFromCredit()
    ensures EstimatedCashOut(1, [LegState(-200, true, 0.5, 20)]) == 2
    ensures CashOutAmount(1, [LegState(-200, true, 0.5, 20)]) == 1
  {
    var legs := [LegState(-200, true, 0.5, 20)];
    assert legs[..0] == [];
    assert Decimal(-200) == 1.5;
    assert DecimalOf(legs) == 1.5;
    assert LegProbability(legs[0]) == 0.95 by {
      assert Max(0.5, 10.0) == 10.0;
      assert 0.8 + 19.5 / 10.0 * 0.15 > 0.95;
    }
    assert ProbabilityOf(legs) == 0.95;
    assert PotentialPayout(1, legs) == 1;
    assert Round(1.0 + 1.0 * 0.95 * 0.85) == 2;
    assert Round(1.0 + 1.0 * 0.5 * 0.95 * 0.85) == 1;
  }
}
