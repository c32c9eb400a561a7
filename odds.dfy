/**
 * The EV-to-odds pricer (`calculateOddsFromEV`, present three times in the
 * code base) and its inverse (`calculateLineFromOdds`), on exact reals.
 *
 * A prop has an expected value `ev`; a line on it is priced by moving the
 * over/under probabilities away from 50% in proportion to the line's distance
 * from `ev`, converting each probability to American odds (with a 6% cut on
 * underdog odds) and rounding to a multiple of 5.
 */
module Odds {
  import opened Numeric

  /** American odds for the two sides of one line. */
  datatype Quote = Quote(over: int, under: int)

  /** `min(0.4, |line - ev| / ev * 0.8)`; with ev == 0 the quotient is +Infinity, so 0.4. */
  function Shift(ev: real, line: real): (s: real)
    requires ev >= 0.0
    ensures 0.0 <= s <= 0.4
    ensures line != ev ==> s > 0.0
  {
    if ev == 0.0 then 0.4
    else
      DivCompare(Abs(line - ev), ev, 0.0);
      Min(0.4, Abs(line - ev) / ev * 0.8)
  }

  /** Probability that the over wins; the under gets the rest. */
  function OverProbability(ev: real, line: real): (p: real)
    requires ev >= 0.0
    ensures 0.1 <= p <= 0.9
    ensures p > 0.5 <==> line < ev
    ensures p == 0.5 <==> line == ev
  {
    if line == ev then 0.5
    else if line < ev then 0.5 + Shift(ev, line)
    else 0.5 - Shift(ev, line)
  }

  function UnderProbability(ev: real, line: real): (p: real)
    requires ev >= 0.0
    ensures p == 1.0 - OverProbability(ev, line)
  {
    if line == ev then 0.5
    else if line < ev then 0.5 - Shift(ev, line)
    else 0.5 + Shift(ev, line)
  }

  /**
   * `probToOdds`: a favourite (p >= 0.5) gets negative odds, an underdog
   * positive odds reduced by the 6% house edge; each step is `Math.round`.
   */
  function ProbToOdds(p: real): (o: int)
    requires 0.0 < p < 1.0
    ensures p >= 0.5 ==> o <= -100
    ensures p < 0.5 ==> o >= 94
    ensures 0.5 <= p <= 0.9 ==> o >= -900
    ensures 0.1 <= p < 0.5 ==> o <= 846
  {
    if p >= 0.5 then
      FavouriteBounds(p);
      Round(-100.0 * p / (1.0 - p))
    else
      UnderdogBounds(p);
      Round(Round(100.0 * (1.0 - p) / p) as real * 0.94)
  }

  lemma FavouriteBounds(p: real)
    requires 0.5 <= p < 1.0
    ensures -100.0 * p / (1.0 - p) <= -100.0
    ensures p <= 0.9 ==> -900.0 <= -100.0 * p / (1.0 - p)
  {
    DivCompare(-100.0 * p, 1.0 - p, -100.0);
    DivCompare(-100.0 * p, 1.0 - p, -900.0);
  }

  lemma UnderdogBounds(p: real)
    requires 0.0 < p < 0.5
    ensures 94 <= Round(Round(100.0 * (1.0 - p) / p) as real * 0.94)
    ensures p >= 0.1 ==> Round(Round(100.0 * (1.0 - p) / p) as real * 0.94) <= 846
  {
    var x := 100.0 * (1.0 - p) / p;
    DivCompare(100.0 * (1.0 - p), p, 100.0);
    DivCompare(100.0 * (1.0 - p), p, 900.0);
    HouseEdgeBounds(Round(x), p >= 0.1);
  }

  /** The 6% cut keeps a rounded underdog price of at least 100 (at most 900) within [94, 846]. */
  lemma HouseEdgeBounds(r: int, capped: bool)
    requires r >= 100 && (capped ==> r <= 900)
    ensures 94 <= Round(r as real * 0.94)
    ensures capped ==> Round(r as real * 0.94) <= 846
  {
    var y := r as real * 0.94;
    assert y >= 94.0;
    assert capped ==> y <= 846.0;
  }

  /** `Math.round(o / 5) * 5`: the nearest multiple of 5, halves upward. */
  function RoundTo5(o: int): (r: int)
    ensures r % 5 == 0
    ensures o - 2 <= r <= o + 2
  {
    Round(o as real / 5.0) * 5
  }

  lemma RoundTo5Within(o: int, lo: int, hi: int)
    requires lo % 5 == 0 && hi % 5 == 0 && lo <= o <= hi
    ensures lo <= RoundTo5(o) <= hi
  {
    RoundWithin(o as real / 5.0, lo / 5, hi / 5);
  }

  /**
   * `calculateOddsFromEV(ev, line)`: the quote the pricer gives a line. Every
   * quote is in range, and the favoured side is the one the line leans to:
   * the over is the favourite exactly when the line is at most `ev`, the
   * under exactly when it is at least `ev`.
   */
  function PriceLine(ev: real, line: real): (q: Quote)
    requires ev >= 0.0
    ensures InOddsRange(q.over) && InOddsRange(q.under)
    ensures q.over < 0 <==> line <= ev
    ensures q.under < 0 <==> line >= ev
  {
    SideOddsInRange(OverProbability(ev, line));
    SideOddsInRange(UnderProbability(ev, line));
    Quote(RoundTo5(ProbToOdds(OverProbability(ev, line))),
          RoundTo5(ProbToOdds(UnderProbability(ev, line))))
  }

  /** A line at the expected value is an even bet: both sides at -100. */
  lemma PriceAtEv(ev: real)
    requires ev >= 0.0
    ensures PriceLine(ev, ev) == Quote(-100, -100)
  {
    assert ProbToOdds(0.5) == -100;
  }

  /** The odds one side of a line gets lie in [-900, -100] or [95, 845] and are multiples of 5. */
  predicate InOddsRange(o: int)
  {
    o % 5 == 0 && (-900 <= o <= -100 || 95 <= o <= 845)
  }

  lemma SideOddsInRange(p: real)
    requires 0.1 <= p <= 0.9
    ensures InOddsRange(RoundTo5(ProbToOdds(p)))
    ensures p >= 0.5 <==> RoundTo5(ProbToOdds(p)) < 0
  {
    var o := ProbToOdds(p);
    if p >= 0.5 {
      RoundTo5Within(o, -900, -100);
    } else {
      UnderdogRoundTo5(o);
    }
  }

  lemma UnderdogRoundTo5(o: int)
    requires 94 <= o <= 846
    ensures 95 <= RoundTo5(o) <= 845
  {
    var x := o as real / 5.0;
    assert 18.8 <= x <= 169.2;
    assert 19 <= Round(x) <= 169;
  }

  /** Lines the same distance either side of `ev` get mirrored quotes. */
  lemma PriceMirror(ev: real, x: real)
    requires ev >= 0.0
    ensures PriceLine(ev, ev + x).over == PriceLine(ev, ev - x).under
    ensures PriceLine(ev, ev + x).under == PriceLine(ev, ev - x).over
  {
    assert Abs(ev + x - ev) == Abs(ev - x - ev);
    assert Shift(ev, ev + x) == Shift(ev, ev - x);
  }

  /** Raising the line never makes the over a shorter price, and never makes the under a longer one. */
  lemma PriceMonotone(ev: real, l1: real, l2: real)
    requires ev >= 0.0 && l1 <= l2
    ensures PriceLine(ev, l1).over <= PriceLine(ev, l2).over
    ensures PriceLine(ev, l2).under <= PriceLine(ev, l1).under
  {
    OverProbabilityAntitone(ev, l1, l2);
    ProbToOddsAntitone(OverProbability(ev, l2), OverProbability(ev, l1));
    ProbToOddsAntitone(UnderProbability(ev, l1), UnderProbability(ev, l2));
    RoundTo5Monotone(ProbToOdds(OverProbability(ev, l1)), ProbToOdds(OverProbability(ev, l2)));
    RoundTo5Monotone(ProbToOdds(UnderProbability(ev, l2)), ProbToOdds(UnderProbability(ev, l1)));
  }

  lemma OverProbabilityAntitone(ev: real, l1: real, l2: real)
    requires ev >= 0.0 && l1 <= l2
    ensures OverProbability(ev, l2) <= OverProbability(ev, l1)
  {
    if ev > 0.0 {
      if l1 < ev && l2 < ev {
        DivLe(Abs(l2 - ev), Abs(l1 - ev), ev);
      } else if l1 > ev && l2 > ev {
        DivLe(Abs(l1 - ev), Abs(l2 - ev), ev);
      }
    }
  }

  lemma ProbToOddsAntitone(p: real, q: real)
    requires 0.0 < p <= q < 1.0
    ensures ProbToOdds(q) <= ProbToOdds(p)
  {
    if p >= 0.5 {
      CrossOrder(-100.0 * q, 1.0 - q, -100.0 * p, 1.0 - p);
      RoundMonotone(-100.0 * q / (1.0 - q), -100.0 * p / (1.0 - p));
    } else if q < 0.5 {
      var a := 100.0 * (1.0 - q) / q;
      var b := 100.0 * (1.0 - p) / p;
      CrossOrder(100.0 * (1.0 - q), q, 100.0 * (1.0 - p), p);
      RoundMonotone(a, b);
      RoundMonotone(Round(a) as real * 0.94, Round(b) as real * 0.94);
    }
  }

  lemma RoundTo5Monotone(a: int, b: int)
    requires a <= b
    ensures RoundTo5(a) <= RoundTo5(b)
  {
    RoundMonotone(a as real / 5.0, b as real / 5.0);
  }

  /** Implied probability of American odds: 100 / (o + 100) above zero, |o| / (|o| + 100) otherwise. */
  function ImpliedProbability(o: int): (p: real)
    ensures 0.0 <= p < 1.0
  {
    if o > 0 then
      DivCompare(100.0, o as real + 100.0, 1.0);
      100.0 / (o as real + 100.0)
    else
      var a := IntAbs(o) as real;
      DivCompare(a, a + 100.0, 1.0);
      DivCompare(a, a + 100.0, 0.0);
      a / (a + 100.0)
  }

  /**
   * Odds imply better than even chances exactly below -100 (or, for the
   * nonsensical positive odds under 100, above 0), and even chances at +-100.
   */
  lemma ImpliedProbabilityVersusHalf(o: int)
    ensures ImpliedProbability(o) > 0.5 <==> 0 < o < 100 || o < -100
    ensures ImpliedProbability(o) == 0.5 <==> o == 100 || o == -100
  {
    if o > 0 {
      DivCompare(100.0, o as real + 100.0, 0.5);
    } else {
      var a := IntAbs(o) as real;
      DivCompare(a, a + 100.0, 0.5);
    }
  }

  /**
   * The line `calculateLineFromOdds` reads off an implied probability before
   * rounding: `|implied - 0.5| / 0.8 * ev` away from `ev`, below it when the
   * chosen side is the favourite of an over, or the underdog of an under.
   */
  function LineFromProbability(ev: real, implied: real, isOver: bool): (line: real)
    ensures implied == 0.5 ==> line == ev
    ensures ev == 0.0 ==> line == 0.0
  {
    var distance := Abs(implied - 0.5) / 0.8 * ev;
    if isOver == (implied > 0.5) then ev - distance else ev + distance
  }

  /** `Math.round(line * 2)`: the derived line in half units; even odds give `ev` to the nearest half. */
  function HalfLineFromOdds(ev: real, o: int, isOver: bool): (h: int)
    ensures o == 100 || o == -100 ==> h == Round(ev * 2.0)
  {
    Round(LineFromProbability(ev, ImpliedProbability(o), isOver) * 2.0)
  }

  /**
   * Sign rule of the inverse: for `ev >= 0` the line is `ev` moved by
   * `|implied - 0.5| / 0.8 * ev`; an over at odds shorter than even money
   * (implied > 0.5) moves down, any other over up, and an under mirrors this.
   */
  lemma LineFromProbabilitySide(ev: real, implied: real, isOver: bool)
    requires ev >= 0.0
    ensures Abs(LineFromProbability(ev, implied, isOver) - ev) == Abs(implied - 0.5) / 0.8 * ev
    ensures isOver && implied > 0.5 ==> LineFromProbability(ev, implied, isOver) <= ev
    ensures isOver && implied <= 0.5 ==> LineFromProbability(ev, implied, isOver) >= ev
    ensures !isOver && implied > 0.5 ==> LineFromProbability(ev, implied, isOver) >= ev
    ensures !isOver && implied <= 0.5 ==> LineFromProbability(ev, implied, isOver) <= ev
  {
    assert Abs(implied - 0.5) / 0.8 * ev >= 0.0;
  }

  /**
   * The inverse undoes the pricer's probability step: for a line whose shift
   * is not capped at 0.4, reading the line back from either side's
   * probability gives the line itself.
   */
  lemma LineFromPricedProbability(ev: real, line: real)
    requires ev > 0.0 && Abs(line - ev) * 0.8 < 0.4 * ev
    ensures LineFromProbability(ev, OverProbability(ev, line), true) == line
    ensures LineFromProbability(ev, UnderProbability(ev, line), false) == line
  {
    var d := Abs(line - ev);
    var q := d / ev;
    DivCompare(d, ev, 0.5);
    DivCompare(d, ev, q);
    assert Shift(ev, line) == q * 0.8;
    assert q * 0.8 / 0.8 * ev == d;
  }

  /** Favourite odds computed exactly (before rounding) convert back to their probability. */
  lemma ImpliedOfFavourite(p: real, o: int)
    requires 0.5 <= p < 1.0 && o as real == -100.0 * p / (1.0 - p)
    ensures ImpliedProbability(o) == p
  {
    var q := 1.0 - p;
    assert o as real * q == -100.0 * p;
    assert IntAbs(o) as real == 100.0 * p / q;
    assert IntAbs(o) as real + 100.0 == 100.0 / q;
  }

  /** With ev 10, the line 12.5 is priced +220 for the over, and +220 reads back as 12.5. */
  lemma PricedLineReadsBack()
    ensures PriceLine(10.0, 12.5).over == 220
    ensures HalfLineFromOdds(10.0, 220, true) == 25
  {
    assert Shift(10.0, 12.5) == 0.2;
    assert OverProbability(10.0, 12.5) == 0.3;
    assert Round(100.0 * (1.0 - 0.3) / 0.3) == 233;
    assert Round(233.0 * 0.94) == 219;
    assert ProbToOdds(0.3) == 219;
    assert RoundTo5(219) == 220;
    assert ImpliedProbability(220) == 100.0 / 320.0;
    assert LineFromProbability(10.0, 100.0 / 320.0, true) == 10.0 + 0.1875 / 0.8 * 10.0;
  }
}
