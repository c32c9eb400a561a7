/**
 * The "Add Prop Line" dialog: the client-side copy of the pricer
 * (`calculateOddsFromLine`), its inverse (`calculateLineFromOdds`), the
 * complement shown for the other side, `formatLine`, the odds input filter
 * and the submit checks, and the form state the input handlers and effects
 * update.
 */
module OptionDialog {
  import opened Wrappers
  import opened Numeric
  import opened Text
  import opened Odds

  /** The two odds fields, as text. */
  datatype SideOdds = SideOdds(over: string, under: string)

  /** What an odds field holds as a number: the first '+' removed, then `parseInt`. */
  function OddsValue(s: string): Option<int>
  {
    ParseInt(ReplaceFirstPlus(s))
  }

  /**
   * `calculateOddsFromLine`: an empty or non-numeric line gives two empty
   * fields (the empty text is not a number, so the source's separate test
   * for it is the non-numeric case); any other line gets two non-empty odds texts (what they say is
   * `OddsFromLineQuotes`).
   */
  function OddsFromLine(ev: real, line: string): (r: SideOdds)
    requires ev >= 0.0
    ensures OddsChars(r.over) && OddsChars(r.under)
    ensures r.over == "" <==> ParseDecimal(line).None?
    ensures r.under == "" <==> ParseDecimal(line).None?
  {
    match ParseDecimal(line)
      case None => SideOdds("", "")
      case Some(x) =>
        var q := PriceLine(ev, x);
        ParseFormattedOdds(q.over);
        ParseFormattedOdds(q.under);
        SideOdds(FormatOdds(q.over), FormatOdds(q.under))
  }

  /**
   * The dialog prices a line exactly as the server pricer does: both fields
   * show the pricer's quote for the number the line reads as (each reads
   * back as those odds, `ParseFormattedOdds`, with a '+' exactly on positive
   * odds, `FormatOddsSign`).
   */
  lemma OddsFromLineQuotes(ev: real, line: string, x: real)
    requires ev >= 0.0 && ParseDecimal(line) == Some(x)
    ensures OddsFromLine(ev, line) == SideOdds(FormatOdds(PriceLine(ev, x).over), FormatOdds(PriceLine(ev, x).under))
  {
  }

  /** `toFixed(1)` of a half-integer puts the decimal point second to last. */
  lemma ShowHalfShape(k: int)
    ensures |ShowHalf(k)| >= 3 && ShowHalf(k)[|ShowHalf(k)| - 2] == '.'
  {
    var m: nat := if k < 0 then -k else k;
    var digits := ShowNat(m / 2);
    var tail := if m % 2 == 0 then ".0" else ".5";
    assert HalfDigitsText(m) == digits + tail;
    assert ShowHalf(k) == (if k < 0 then "-" else "") + digits + tail;
  }

  /**
   * `calculateLineFromOdds`: empty or unparseable odds give ''; any other
   * odds give a line (what it says is `LineFromOddsValue`).
   */
  function LineFromOdds(ev: real, odds: string, isOver: bool): (line: string)
    ensures line == "" <==> OddsValue(odds).None?
  {
    match OddsValue(odds)
      case None => ""
      case Some(o) =>
        ShowHalfShape(HalfLineFromOdds(ev, o, isOver));
        ShowHalf(HalfLineFromOdds(ev, o, isOver))
  }

  /**
   * The line read off odds `o` reads back as a multiple of 0.5, the rounded
   * `HalfLineFromOdds` (it is written with one decimal, `ShowHalfShape`).
   */
  lemma LineFromOddsValue(ev: real, odds: string, isOver: bool, o: int)
    requires OddsValue(odds) == Some(o)
    ensures ParseDecimal(LineFromOdds(ev, odds, isOver)) == Some(HalfLineFromOdds(ev, o, isOver) as real / 2.0)
  {
    var k := HalfLineFromOdds(ev, o, isOver);
    var line := LineFromOdds(ev, odds, isOver);
    assert line == ShowHalf(k);
    ParseShowHalf(k);
  }

  /**
   * `calculateComplementOdds` as written: whichever field it is called
   * from, it reads the odds as over odds, derives that line, and returns
   * the under odds of the line.
   */
  function ComplementAsWritten(ev: real, odds: string): (other: string)
    requires ev >= 0.0
    ensures OddsChars(other)
    ensures other == "" <==> OddsValue(odds).None?
  {
    if odds == [] then ""
    else
      var line := LineFromOdds(ev, odds, true);
      if line == [] then ""
      else
        LineFromOddsValue(ev, odds, true, OddsValue(odds).value);
        OddsFromLine(ev, line).under
  }

  /**
   * The complement with the side taken into account: the line is derived
   * from the edited side's odds, and the other side gets the pricer's odds
   * for that same line.
   */
  function Complement(ev: real, odds: string, isOver: bool): (other: string)
    requires ev >= 0.0
    ensures OddsChars(other)
    ensures other == "" <==> OddsValue(odds).None?
  {
    var line := LineFromOdds(ev, odds, isOver);
    if line == [] then ""
    else
      LineFromOddsValue(ev, odds, isOver, OddsValue(odds).value);
      var q := OddsFromLine(ev, line);
      if isOver then q.under else q.over
  }

  /**
   * After an edit of one odds field, the other field shows the pricer's odds
   * for the line shown.
   */
  lemma ComplementQuotes(ev: real, odds: string, isOver: bool, x: real)
    requires ev >= 0.0 && ParseDecimal(LineFromOdds(ev, odds, isOver)) == Some(x)
    ensures Complement(ev, odds, isOver) == if isOver then FormatOdds(PriceLine(ev, x).under) else FormatOdds(PriceLine(ev, x).over)
  {
    var line := LineFromOdds(ev, odds, isOver);
    OddsFromLineQuotes(ev, line, x);
    var r := OddsFromLine(ev, line);
    if isOver {
      assert Complement(ev, odds, isOver) == r.under;
    } else {
      assert Complement(ev, odds, isOver) == r.over;
    }
  }

  /** The as-written complement shows the under price of the line the odds give when read as over odds. */
  lemma ComplementAsWrittenQuotes(ev: real, odds: string, x: real)
    requires ev >= 0.0 && ParseDecimal(LineFromOdds(ev, odds, true)) == Some(x)
    ensures ComplementAsWritten(ev, odds) == FormatOdds(PriceLine(ev, x).under)
  {
    var line := LineFromOdds(ev, odds, true);
    OddsFromLineQuotes(ev, line, x);
    assert ComplementAsWritten(ev, odds) == OddsFromLine(ev, line).under;
  }

  /** For the over field the as-written complement is the corrected one. */
  lemma ComplementOfOver(ev: real, odds: string)
    requires ev >= 0.0
    ensures ComplementAsWritten(ev, odds) == Complement(ev, odds, true)
  {
  }

  /** At ev 10, odds of -150 read as the line 11.5 on the under side and 9.0 on the over side. */
  lemma MismatchLines()
    ensures HalfLineFromOdds(10.0, -150, false) == 23
    ensures HalfLineFromOdds(10.0, -150, true) == 18
  {
    assert ImpliedProbability(-150) == 0.6;
    assert LineFromProbability(10.0, 0.6, false) == 11.25;
    assert LineFromProbability(10.0, 0.6, true) == 8.75;
  }

  /** At ev 10 the pricer gives the under of 9.0 +130 and the over of 11.5 +155. */
  lemma MismatchPrices()
    ensures PriceLine(10.0, 9.0).under == 130
    ensures PriceLine(10.0, 11.5).over == 155
  {
    assert Shift(10.0, 9.0) == 0.08;
    assert UnderProbability(10.0, 9.0) == 0.42;
    assert Round(100.0 * (1.0 - 0.42) / 0.42) == 138;
    assert Round(138.0 * 0.94) == 130;
    assert Shift(10.0, 11.5) == 0.12;
    assert OverProbability(10.0, 11.5) == 0.38;
    assert Round(100.0 * (1.0 - 0.38) / 0.38) == 163;
    assert Round(163.0 * 0.94) == 153;
    assert RoundTo5(153) == 155;
  }

  /**
   * Typing "-150" into the under field at ev 10: the line field shows
   * "11.5" (`ShowHalf(23)`), the dialog fills the over field with "+130"
   * (the under price of the line 9.0 that -150 gives when read as over
   * odds), while the pricer quotes the over of 11.5 at "+155", which the
   * corrected complement shows.
   */
  lemma UnderEditMismatch()
    ensures LineFromOdds(10.0, FormatOdds(-150), false) == ShowHalf(23)
    ensures ComplementAsWritten(10.0, FormatOdds(-150)) == FormatOdds(130)
    ensures OddsFromLine(10.0, ShowHalf(23)).over == FormatOdds(155)
    ensures Complement(10.0, FormatOdds(-150), false) == FormatOdds(155)
  {
    ParseFormattedOdds(-150);
    MismatchLines();
    MismatchPrices();
    var odds := FormatOdds(-150);
    assert LineFromOdds(10.0, odds, false) == ShowHalf(23);
    assert LineFromOdds(10.0, odds, true) == ShowHalf(18);
    ParseShowHalf(23);
    ParseShowHalf(18);
    OddsFromLineQuotes(10.0, ShowHalf(23), 11.5);
    ComplementQuotes(10.0, odds, false, 11.5);
    ComplementAsWrittenQuotes(10.0, odds, 9.0);
  }

  /**
   * `formatLine`: '' stays ''; non-numeric text is returned unchanged; a
   * number is rounded to the nearest 0.5 and written with one decimal.
   */
  function FormatLine(value: string): (r: string)
    ensures ParseDecimal(value).None? ==> r == value
  {
    match ParseDecimal(value)
      case None => value
      case Some(x) => ShowHalf(Round(x * 2.0))
  }

  /** A numeric line is moved to the nearest multiple of 0.5. */
  lemma FormatLineRounds(value: string, x: real)
    requires ParseDecimal(value) == Some(x)
    ensures ParseDecimal(FormatLine(value)) == Some(Round(x * 2.0) as real / 2.0)
  {
    var k := Round(x * 2.0);
    var r := FormatLine(value);
    assert r == ShowHalf(k);
    ParseShowHalf(k);
  }

  /** The nearest multiple of 0.5 is at most 0.25 away. */
  lemma NearestHalf(x: real)
    ensures Abs(Round(x * 2.0) as real / 2.0 - x) <= 0.25
  {
  }

  /** Formatting a line twice is formatting it once. */
  lemma FormatLineIdempotent(value: string)
    ensures FormatLine(FormatLine(value)) == FormatLine(value)
  {
    match ParseDecimal(value)
    case None =>
    case Some(x) =>
      var k := Round(x * 2.0);
      assert FormatLine(value) == ShowHalf(k);
      FormatLineOfHalf(k);
  }

  /** A line the dialog wrote is left as it is. */
  lemma FormatLineOfHalf(k: int)
    ensures FormatLine(ShowHalf(k)) == ShowHalf(k)
  {
    ParseShowHalf(k);
    ShowHalfShape(k);
    assert k as real / 2.0 * 2.0 == k as real;
    RoundOfInt(k);
  }

  /** The option a valid form submits; `line: None` is the NaN `parseFloat` gives for non-numeric text. */
  datatype OptionRequest = OptionRequest(line: Option<real>, oddsOver: int, oddsUnder: int)

  /** The `handleSubmit` checks, in order, before the server is called. */
  function SubmitCheck(line: string, overOdds: string, underOdds: string): (r: Result<OptionRequest>)
    ensures r.Ok? <==> EndsWith(line, ".5") && OddsValue(overOdds).Some? && OddsValue(underOdds).Some?
    ensures r.Ok? ==>
      r.value == OptionRequest(ParseDecimal(line), OddsValue(overOdds).value, OddsValue(underOdds).value)
    ensures !EndsWith(line, ".5") ==> r == Err("Line must end with .5")
    ensures EndsWith(line, ".5") && OddsValue(overOdds).None? ==> r == Err("Please enter valid over odds")
  {
    if !EndsWith(line, ".5") then Err("Line must end with .5")
    else if overOdds == [] then Err("Please enter valid over odds")
    else match OddsValue(overOdds)
      case None => Err("Please enter valid over odds")
      case Some(over) =>
        if underOdds == [] then Err("Please enter valid under odds")
        else match OddsValue(underOdds)
          case None => Err("Please enter valid under odds")
          case Some(under) => Ok(OptionRequest(ParseDecimal(line), over, under))
  }

  /** A line the dialog derives from odds passes the ".5" check exactly when it is not a whole number. */
  lemma DerivedLineSubmits(ev: real, odds: string, isOver: bool)
    requires OddsValue(odds).Some?
    ensures EndsWith(LineFromOdds(ev, odds, isOver), ".5") <==> HalfLineFromOdds(ev, OddsValue(odds).value, isOver) % 2 == 1
  {
    ShowHalfEndsWithHalf(HalfLineFromOdds(ev, OddsValue(odds).value, isOver));
  }

  /**
   * The dialog's form: the three text fields and the flags that tell the
   * effects which field the user edited last.
   */
  class OptionForm {
    const ev: real
    var line: string
    var overOdds: string
    var underOdds: string
    var lineModified: bool
    var overModified: bool
    var underModified: bool

    /** The odds fields only ever hold digits, '+' and '-'. */
    predicate Valid()
      reads this
    {
      ev >= 0.0 && OddsChars(overOdds) && OddsChars(underOdds)
    }

    constructor(ev: real)
      requires ev >= 0.0
      ensures Valid() && this.ev == ev
      ensures line == "" && overOdds == "" && underOdds == ""
      ensures !lineModified && !overModified && !underModified
    {
      this.ev := ev;
      line, overOdds, underOdds := "", "", "";
      lineModified, overModified, underModified := false, false, false;
    }

    /** `handleLineChange`: the typed value, kept as typed. */
    method ChangeLine(value: string)
      requires Valid()
      modifies this
      ensures Valid()
      ensures line == value && lineModified
      ensures overOdds == old(overOdds) && underOdds == old(underOdds)
      ensures overModified == old(overModified) && underModified == old(underModified)
    {
      line := value;
      lineModified := true;
    }

    /** `handleOverOddsChange`: the typed value with everything but digits, '+' and '-' removed. */
    method ChangeOverOdds(value: string)
      requires Valid()
      modifies this
      ensures Valid()
      ensures overOdds == SanitiseOdds(value) && overModified
      ensures line == old(line) && underOdds == old(underOdds)
      ensures lineModified == old(lineModified) && underModified == old(underModified)
    {
      overOdds := SanitiseOdds(value);
      overModified := true;
    }

    /** `handleUnderOddsChange`, the same filter on the under field. */
    method ChangeUnderOdds(value: string)
      requires Valid()
      modifies this
      ensures Valid()
      ensures underOdds == SanitiseOdds(value) && underModified
      ensures line == old(line) && overOdds == old(overOdds)
      ensures lineModified == old(lineModified) && overModified == old(overModified)
    {
      underOdds := SanitiseOdds(value);
      underModified := true;
    }

    /** The line's `onBlur`: the line is formatted, and no effect is triggered. */
    method BlurLine()
      requires Valid()
      modifies this
      ensures Valid()
      ensures line == FormatLine(old(line))
      ensures overOdds == old(overOdds) && underOdds == old(underOdds)
      ensures lineModified == old(lineModified) && overModified == old(overModified) && underModified == old(underModified)
    {
      line := FormatLine(line);
    }

    /** The effect on the line: an edited, non-empty line re-prices both odds fields. */
    method LineEffect()
      requires Valid()
      modifies this
      ensures Valid()
      ensures old(lineModified) && old(line) != "" ==>
        SideOdds(overOdds, underOdds) == OddsFromLine(ev, old(line)) && !lineModified
      ensures !(old(lineModified) && old(line) != "") ==>
        overOdds == old(overOdds) && underOdds == old(underOdds) && lineModified == old(lineModified)
      ensures line == old(line) && overModified == old(overModified) && underModified == old(underModified)
    {
      if lineModified && line != "" {
        var q := OddsFromLine(ev, line);
        overOdds, underOdds := q.over, q.under;
        lineModified := false;
      }
    }

    /** The effect on the over field: edited over odds set the line and the under odds. */
    method OverEffect()
      requires Valid()
      modifies this
      ensures Valid()
      ensures old(overModified) && old(overOdds) != "" ==>
        line == LineFromOdds(ev, old(overOdds), true) && underOdds == Complement(ev, old(overOdds), true) && !overModified
      ensures !(old(overModified) && old(overOdds) != "") ==>
        line == old(line) && underOdds == old(underOdds) && overModified == old(overModified)
      ensures overOdds == old(overOdds) && lineModified == old(lineModified) && underModified == old(underModified)
    {
      if overModified && overOdds != "" {
        line := LineFromOdds(ev, overOdds, true);
        underOdds := Complement(ev, overOdds, true);
        overModified := false;
      }
    }

    /**
     * The effect on the under field: edited under odds set the line and the
     * over odds, the over odds being those of the line shown.
     */
    method UnderEffect()
      requires Valid()
      modifies this
      ensures Valid()
      ensures old(underModified) && old(underOdds) != "" ==>
        line == LineFromOdds(ev, old(underOdds), false) && overOdds == Complement(ev, old(underOdds), false) && !underModified
      ensures !(old(underModified) && old(underOdds) != "") ==>
        line == old(line) && overOdds == old(overOdds) && underModified == old(underModified)
      ensures underOdds == old(underOdds) && lineModified == old(lineModified) && overModified == old(overModified)
    {
      if underModified && underOdds != "" {
        line := LineFromOdds(ev, underOdds, false);
        overOdds := Complement(ev, underOdds, false);
        underModified := false;
      }
    }

    /**
     * The effect on the under field as the dialog has it: edited under odds
     * set the line read on the under side, but the over field gets
     * `calculateComplementOdds`'s answer, which reads the under odds as over
     * odds (see `UnderEditMismatch` for an input where the two disagree).
     */
    method UnderEffectAsWritten()
      requires Valid()
      modifies this
      ensures Valid()
      ensures old(underModified) && old(underOdds) != "" ==>
        line == LineFromOdds(ev, old(underOdds), false) && overOdds == ComplementAsWritten(ev, old(underOdds)) && !underModified
      ensures !(old(underModified) && old(underOdds) != "") ==>
        line == old(line) && overOdds == old(overOdds) && underModified == old(underModified)
      ensures underOdds == old(underOdds) && lineModified == old(lineModified) && overModified == old(overModified)
    {
      if underModified && underOdds != "" {
        line := LineFromOdds(ev, underOdds, false);
        overOdds := ComplementAsWritten(ev, underOdds);
        underModified := false;
      }
    }

    /**
     * `handleSubmit`: the checks come first and an error changes nothing;
     * when the checks pass and the server call succeeds (`created`), the
     * fields are cleared.
     */
    method Submit(created: bool) returns (r: Result<OptionRequest>)
      requires Valid()
      modifies this
      ensures Valid()
      ensures r == SubmitCheck(old(line), old(overOdds), old(underOdds))
      ensures r.Ok? && created ==> line == "" && overOdds == "" && underOdds == ""
      ensures !(r.Ok? && created) ==> line == old(line) && overOdds == old(overOdds) && underOdds == old(underOdds)
      ensures lineModified == old(lineModified) && overModified == old(overModified) && underModified == old(underModified)
    {
      r := SubmitCheck(line, overOdds, underOdds);
      if r.Ok? && created {
        line, overOdds, underOdds := "", "", "";
      }
    }
  }
}
