/**
 * The per-leg progress bar: how far a leg is along (over: towards line + 1;
 * under: how much room is left below the line), whether it is winning, and
 * the bar's colour.
 */
module ProgressBar {
  import opened Numeric
  import opened Valuation

  datatype Bar = Bar(progress: real, winning: bool)

  datatype Colour = Green | Yellow | Blue

  /**
   * A line of 0 or less shows an empty bar that is not winning. Otherwise
   * an over shows `min(100, tallies / (line + 1) * 100)` and wins above the
   * line; an under shows `max(0, (line - tallies) / line * 100)` and wins
   * below it.
   */
  function Progress(tallies: real, line: real, isOver: bool): (bar: Bar)
    ensures line <= 0.0 ==> bar == Bar(0.0, false)
    ensures line > 0.0 ==> (bar.winning <==> if isOver then tallies > line else tallies < line)
    ensures tallies >= 0.0 ==> 0.0 <= bar.progress <= 100.0
  {
    if line <= 0.0 then Bar(0.0, false)
    else if isOver then
      DivCompare(tallies, line + 1.0, 0.0);
      Bar(Min(100.0, tallies / (line + 1.0) * 100.0), tallies > line)
    else
      DivCompare(line - tallies, line, 1.0);
      Bar(Max(0.0, (line - tallies) / line * 100.0), tallies < line)
  }

  /** The bar's winning flag is the card's live win state of the same leg, on a positive line. */
  lemma BarAgreesWithCard(odds: int, isOver: bool, line: real, tallies: int)
    requires line > 0.0
    ensures Progress(tallies as real, line, isOver).winning == LiveWinning(LegState(odds, isOver, line, tallies))
  {
  }

  /** More tallies never shrink an over's bar and never grow an under's. */
  lemma ProgressMonotone(t1: real, t2: real, line: real)
    requires t1 <= t2 && line > 0.0
    ensures Progress(t1, line, true).progress <= Progress(t2, line, true).progress
    ensures Progress(t2, line, false).progress <= Progress(t1, line, false).progress
  {
    DivLe(t1, t2, line + 1.0);
    DivLe(line - t2, line - t1, line);
  }

  /** An under that is winning still shows some bar; an over at line + 1 or more shows a full bar. */
  lemma ProgressExtremes(tallies: real, line: real)
    requires line > 0.0
    ensures Progress(tallies, line, false).winning ==> Progress(tallies, line, false).progress > 0.0
    ensures tallies >= line + 1.0 ==> Progress(tallies, line, true).progress == 100.0
  {
    DivCompare(line - tallies, line, 0.0);
    DivCompare(tallies, line + 1.0, 1.0);
  }

  /** Green when winning, otherwise yellow above 80%, otherwise blue. */
  function BarColour(bar: Bar): (c: Colour)
    ensures c == Green <==> bar.winning
    ensures c == Yellow <==> !bar.winning && bar.progress > 80.0
  {
    if bar.winning then Green else if bar.progress > 80.0 then Yellow else Blue
  }
}
