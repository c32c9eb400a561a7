/**
 * The string operations the core relies on: integer rendering (`${n}`,
 * `toFixed(1)` of a half-integer), `parseInt` and `parseFloat` on the strings
 * the forms hold, ASCII case mapping, `split(' ')`, `endsWith` and the odds
 * input filter.
 */
module Text {
  import opened Wrappers

  predicate IsDigit(c: char) { '0' <= c <= '9' }

  function DigitChar(d: nat): (c: char)
    requires d < 10
    ensures IsDigit(c)
  {
    ('0' as int + d) as char
  }

  function DigitValue(c: char): (d: nat)
    requires IsDigit(c)
    ensures d < 10 && DigitChar(d) == c
  {
    (c as int - '0' as int) as nat
  }

  predicate AllDigits(s: string) { forall i :: 0 <= i < |s| ==> IsDigit(s[i]) }

  /** Decimal digits of `n`, most significant first, no leading zeros. */
  function ShowNat(n: nat): (s: string)
    ensures |s| >= 1 && AllDigits(s)
    decreases n
  {
    if n < 10 then [DigitChar(n)] else ShowNat(n / 10) + [DigitChar(n % 10)]
  }

  /** JavaScript's rendering of an integer-valued number. */
  function Show(n: int): (s: string)
    ensures ParseInt(s) == Some(n)
  {
    if n < 0 then
      ParseIntNegShowNat(-n);
      "-" + ShowNat(-n)
    else
      ParseIntShowNat(n);
      ShowNat(n)
  }

  /** `${n}` with a leading '+' for positive values, as the odds displays write it. */
  function FormatOdds(n: int): string
  {
    if n > 0 then "+" + Show(n) else Show(n)
  }

  /** The first character of a formatted odds value is '+' exactly when the odds are positive. */
  lemma FormatOddsSign(n: int)
    ensures FormatOdds(n)[0] == '+' <==> n > 0
    ensures FormatOdds(n)[0] == '-' <==> n < 0
  {
    var m: nat := if n < 0 then -n else n;
    assert IsDigit(ShowNat(m)[0]);
  }

  /** Value of a digit string, read left to right. */
  function DigitsValue(s: string): nat
    requires AllDigits(s)
  {
    if s == [] then 0 else DigitsValue(s[..|s| - 1]) * 10 + DigitValue(s[|s| - 1])
  }

  lemma {:induction false} DigitsValueOfShowNat(n: nat)
    ensures DigitsValue(ShowNat(n)) == n
    decreases n
  {
    var s := ShowNat(n);
    if n >= 10 {
      DigitsValueOfShowNat(n / 10);
      assert s[..|s| - 1] == ShowNat(n / 10);
    }
  }

  /** Length of the longest run of digits at the start of `s`. */
  function DigitPrefix(s: string): (k: nat)
    ensures k <= |s| && AllDigits(s[..k])
    ensures k < |s| ==> !IsDigit(s[k])
  {
    if s == [] || !IsDigit(s[0]) then 0 else 1 + DigitPrefix(s[1..])
  }

  lemma {:induction false} DigitPrefixOfDigits(s: string, rest: string)
    requires AllDigits(s)
    requires rest == [] || !IsDigit(rest[0])
    ensures DigitPrefix(s + rest) == |s|
  {
    if s != [] {
      assert (s + rest)[1..] == s[1..] + rest;
      DigitPrefixOfDigits(s[1..], rest);
    }
  }

  /** The characters the odds inputs keep (`/[^-+\d]/g` removes the rest). */
  predicate IsOddsChar(c: char) { IsDigit(c) || c == '+' || c == '-' }

  predicate OddsChars(s: string) { forall i :: 0 <= i < |s| ==> IsOddsChar(s[i]) }

  /** `value.replace(/[^-+\d]/g, '')`: keeps digits, '+' and '-' in their order. */
  function SanitiseOdds(s: string): (r: string)
    ensures OddsChars(r) && |r| <= |s|
    ensures OddsChars(s) ==> r == s
  {
    if s == [] then []
    else if IsOddsChar(s[0]) then [s[0]] + SanitiseOdds(s[1..])
    else SanitiseOdds(s[1..])
  }

  lemma {:induction false} SanitiseIdempotent(s: string)
    ensures SanitiseOdds(SanitiseOdds(s)) == SanitiseOdds(s)
  {
  }

  /** `s.replace('+', '')`: removes the first '+' only. */
  function ReplaceFirstPlus(s: string): (r: string)
    ensures '+' !in s ==> r == s
    ensures OddsChars(s) ==> OddsChars(r)
  {
    if s == [] then []
    else if s[0] == '+' then s[1..]
    else [s[0]] + ReplaceFirstPlus(s[1..])
  }

  /**
   * `parseInt(s)` on the strings the odds fields hold, which are made of
   * digits, '+' and '-' (`OddsChars`), so that no white space or hexadecimal
   * prefix can occur: an optional sign, then the longest run of digits;
   * `None` stands for NaN.
   */
  function ParseInt(s: string): (r: Option<int>)
    ensures s == [] ==> r == None
  {
    var signed := s != [] && (s[0] == '-' || s[0] == '+');
    var body := if signed then s[1..] else s;
    var k := DigitPrefix(body);
    if k == 0 then None
    else if signed && s[0] == '-' then Some(-(DigitsValue(body[..k]) as int))
    else Some(DigitsValue(body[..k]))
  }

  lemma ParseIntShowNat(m: nat)
    ensures OddsChars(ShowNat(m))
    ensures ParseInt(ShowNat(m)) == Some(m)
  {
    var s := ShowNat(m);
    assert IsDigit(s[0]);
    DigitPrefixOfDigits(s, []);
    assert s + [] == s && s[..|s|] == s;
    DigitsValueOfShowNat(m);
  }

  lemma ParseIntNegShowNat(m: nat)
    requires m > 0
    ensures OddsChars("-" + ShowNat(m))
    ensures ParseInt("-" + ShowNat(m)) == Some(-(m as int))
  {
    var s := ShowNat(m);
    assert ("-" + s)[1..] == s;
    DigitPrefixOfDigits(s, []);
    assert s + [] == s && s[..|s|] == s;
    DigitsValueOfShowNat(m);
  }

  /** What the odds fields do with a formatted value: strip the first '+', then `parseInt`. */
  lemma ParseFormattedOdds(n: int)
    ensures OddsChars(FormatOdds(n))
    ensures ParseInt(ReplaceFirstPlus(FormatOdds(n))) == Some(n)
  {
    var m: nat := if n < 0 then -n else n;
    ParseIntShowNat(m);
    if n > 0 {
      assert ReplaceFirstPlus(FormatOdds(n)) == ShowNat(m);
    } else if n < 0 {
      ParseIntNegShowNat(m);
      assert '+' !in FormatOdds(n) by {
        assert forall i :: 0 <= i < |ShowNat(m)| ==> IsDigit(ShowNat(m)[i]);
      }
    } else {
      assert '+' !in FormatOdds(n) by {
        assert IsDigit(ShowNat(m)[0]);
      }
    }
  }

  /** Value of the digits after a decimal point: "25" is 0.25. */
  function FractionValue(s: string): (r: real)
    requires AllDigits(s)
    ensures 0.0 <= r < 1.0
  {
    if s == [] then 0.0 else (DigitValue(s[0]) as real + FractionValue(s[1..])) / 10.0
  }

  /**
   * `parseFloat(s)` without exponents, white space or "Infinity": an optional
   * sign, integer digits, then optionally '.' and fraction digits; at least
   * one digit must be read. `None` stands for NaN.
   */
  function ParseDecimal(s: string): Option<real>
  {
    if s != [] && (s[0] == '-' || s[0] == '+') then
      match ParseUnsigned(s[1..])
      case None => None
      case Some(magnitude) => Some(if s[0] == '-' then -magnitude else magnitude)
    else ParseUnsigned(s)
  }

  /** The unsigned part of `parseFloat`: integer digits, then optionally '.' and fraction digits. */
  function ParseUnsigned(body: string): Option<real>
  {
    var i := DigitPrefix(body);
    ParseAfterWhole(body[..i], body[i..])
  }

  /** The number read from the integer digits `whole` and the text `after` them. */
  function ParseAfterWhole(whole: string, after: string): Option<real>
    requires AllDigits(whole)
  {
    var fraction := if after != [] && after[0] == '.' then after[1..][..DigitPrefix(after[1..])] else [];
    if whole == [] && fraction == [] then None
    else Some(DigitsValue(whole) as real + FractionValue(fraction))
  }

  /** `(k / 2).toFixed(1)`: a half-integer written with exactly one decimal. */
  function ShowHalf(k: int): string
  {
    if k < 0 then "-" + HalfDigitsText(-k) else HalfDigitsText(k)
  }

  /** The unsigned text "<m / 2>.<0 or 5>". */
  function HalfDigitsText(m: nat): (s: string)
    ensures s != [] && IsDigit(s[0])
  {
    ShowNat(m / 2) + (if m % 2 == 0 then ".0" else ".5")
  }

  predicate EndsWith(s: string, suffix: string)
  {
    |suffix| <= |s| && s[|s| - |suffix|..] == suffix
  }

  /** A rendered half-integer ends in ".5" exactly when it is not a whole number. */
  lemma ShowHalfEndsWithHalf(k: int)
    ensures EndsWith(ShowHalf(k), ".5") <==> k % 2 == 1
  {
    var s := ShowHalf(k);
    var m: nat := if k < 0 then -k else k;
    assert s == (if k < 0 then "-" else "") + ShowNat(m / 2) + (if m % 2 == 0 then ".0" else ".5");
    assert s[|s| - 2..] == (if m % 2 == 0 then ".0" else ".5");
    assert (k % 2 == 1) == (m % 2 == 1);
  }

  /** `parseFloat` of "<whole digits>.<fraction digits>". */
  lemma ParseUnsignedParts(whole: string, fraction: string)
    requires |whole| >= 1 && AllDigits(whole) && AllDigits(fraction)
    ensures ParseUnsigned(whole + ['.'] + fraction)
      == Some(DigitsValue(whole) as real + FractionValue(fraction))
  {
    var after := ['.'] + fraction;
    var body := whole + ['.'] + fraction;
    assert body == whole + after;
    DigitPrefixOfDigits(whole, after);
    assert body[..|whole|] == whole;
    assert body[|whole|..] == after;
    AfterWholeFraction(whole, fraction);
  }

  lemma AfterWholeFraction(whole: string, fraction: string)
    requires |whole| >= 1 && AllDigits(whole) && AllDigits(fraction)
    ensures ParseAfterWhole(whole, ['.'] + fraction) == Some(DigitsValue(whole) as real + FractionValue(fraction))
  {
    var after := ['.'] + fraction;
    assert after[1..] == fraction;
    DigitPrefixOfDigits(fraction, []);
    assert fraction + [] == fraction;
    assert after[1..][..|fraction|] == fraction;
  }

  lemma FractionOfDigit(d: nat)
    requires d < 10
    ensures FractionValue([DigitChar(d)]) == d as real / 10.0
  {
    assert [DigitChar(d)][1..] == [];
  }

  /** `parseFloat` of "<q>.<d>" for a single fraction digit `d`. */
  lemma ParseOneDecimal(q: nat, d: nat)
    requires d < 10
    ensures ParseUnsigned(ShowNat(q) + ['.', DigitChar(d)]) == Some(q as real + d as real / 10.0)
  {
    var whole := ShowNat(q);
    var fraction := [DigitChar(d)];
    assert whole + ['.', DigitChar(d)] == whole + ['.'] + fraction;
    ParseUnsignedParts(whole, fraction);
    DigitsValueOfShowNat(q);
    FractionOfDigit(d);
    assert DigitsValue(whole) as real + FractionValue(fraction) == q as real + d as real / 10.0;
  }

  /** A string starting with a digit has no sign: `parseFloat` reads it unsigned. */
  lemma ParseDecimalOfDigits(s: string)
    requires s != [] && IsDigit(s[0])
    ensures ParseDecimal(s) == ParseUnsigned(s)
  {
  }

  /** A leading '-' negates what follows it. */
  lemma ParseDecimalNegated(body: string, x: real)
    requires ParseUnsigned(body) == Some(x)
    ensures ParseDecimal("-" + body) == Some(-x)
  {
    assert ("-" + body)[1..] == body;
  }

  /** The value of whole part `m / 2` and fraction digit 0 or 5 is `m / 2` exactly. */
  lemma HalfDigits(m: nat)
    ensures (m / 2) as real + (if m % 2 == 0 then 0 else 5) as real / 10.0 == m as real / 2.0
  {
    assert m == 2 * (m / 2) + m % 2;
  }

  /** Reading back a rendered half-integer gives the half-integer. */
  lemma ParseShowHalf(k: int)
    ensures ParseDecimal(ShowHalf(k)) == Some(k as real / 2.0)
  {
    if k < 0 {
      ParseShowNegativeHalf(k);
    } else {
      var x := ParseHalfDigits(k);
      ParseDecimalOfDigits(HalfDigitsText(k));
    }
  }

  lemma ParseShowNegativeHalf(k: int)
    requires k < 0
    ensures ParseDecimal(ShowHalf(k)) == Some(k as real / 2.0)
  {
    var x := ParseHalfDigits(-k);
    assert -x == k as real / 2.0;
    var body := HalfDigitsText(-k);
    ParseDecimalNegated(body, x);
    assert ShowHalf(k) == "-" + body;
  }

  lemma ParseHalfDigits(m: nat) returns (x: real)
    ensures x == m as real / 2.0
    ensures ParseUnsigned(HalfDigitsText(m)) == Some(x)
  {
    var q := m / 2;
    var d := if m % 2 == 0 then 0 else 5;
    x := q as real + d as real / 10.0;
    HalfDigits(m);
    ParseOneDecimal(q, d);
    assert HalfDigitsText(m) == ShowNat(q) + ['.', DigitChar(d)];
  }

  function AsciiUpper(c: char): char
  {
    if 'a' <= c <= 'z' then (c as int - 32) as char else c
  }

  function AsciiLower(c: char): char
  {
    if 'A' <= c <= 'Z' then (c as int + 32) as char else c
  }

  /** `toUpperCase()` on ASCII letters; other characters are kept. */
  function Upper(s: string): (r: string)
    ensures |r| == |s|
    ensures forall i :: 0 <= i < |s| ==> r[i] == AsciiUpper(s[i])
  {
    if s == [] then [] else [AsciiUpper(s[0])] + Upper(s[1..])
  }

  /** `toLowerCase()` on ASCII letters; other characters are kept. */
  function Lower(s: string): (r: string)
    ensures |r| == |s|
    ensures forall i :: 0 <= i < |s| ==> r[i] == AsciiLower(s[i])
  {
    if s == [] then [] else [AsciiLower(s[0])] + Lower(s[1..])
  }

  /** Index of the first occurrence of `c` in `s`. */
  function IndexOf(s: string, c: char): (i: nat)
    requires c in s
    ensures i < |s| && s[i] == c && c !in s[..i]
  {
    if s[0] == c then 0 else 1 + IndexOf(s[1..], c)
  }

  /** `s.split(' ')`: the maximal space-free pieces, empty ones included. */
  function SplitSpaces(s: string): (parts: seq<string>)
    ensures |parts| >= 1
    ensures forall j :: 0 <= j < |parts| ==> ' ' !in parts[j]
    decreases |s|
  {
    if ' ' !in s then [s]
    else
      var i := IndexOf(s, ' ');
      [s[..i]] + SplitSpaces(s[i + 1..])
  }

  /** Inverse of `SplitSpaces`: `parts.join(' ')`. */
  function JoinSpaces(parts: seq<string>): string
    requires |parts| >= 1
  {
    if |parts| == 1 then parts[0] else parts[0] + " " + JoinSpaces(parts[1..])
  }

  /** Splitting at spaces loses nothing: joining the pieces back gives the input. */
  lemma {:induction false} SplitJoin(s: string)
    ensures JoinSpaces(SplitSpaces(s)) == s
    decreases |s|
  {
    if ' ' in s {
      var i := IndexOf(s, ' ');
      var rest := SplitSpaces(s[i + 1..]);
      var parts := [s[..i]] + rest;
      assert SplitSpaces(s) == parts;
      assert parts[1..] == rest;
      assert JoinSpaces(parts) == s[..i] + " " + JoinSpaces(rest);
      SplitJoin(s[i + 1..]);
      assert s == s[..i] + " " + s[i + 1..];
    }
  }

  /** A string with a space splits into at least two pieces. */
  lemma SplitWithSpace(s: string)
    requires ' ' in s
    ensures |SplitSpaces(s)| >= 2
  {
  }
}
