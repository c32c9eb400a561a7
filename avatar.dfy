/**
 * The fallback initials an avatar shows for a user's display name.
 */
module Avatar {
  import opened Text

  /**
   * `${part[0]}` in a template: the part's first character, or the text
   * "undefined" when the part is empty (indexing past the end of a string).
   */
  function FirstCharAsWritten(part: string): (r: string)
    ensures part != [] ==> r == [part[0]]
    ensures part == [] ==> |r| == 9
  {
    if part == [] then "undefined" else [part[0]]
  }

  /** The first character of a part, nothing for an empty part. */
  function FirstChar(part: string): (r: string)
    ensures |r| <= 1
    ensures part != [] ==> r == [part[0]]
  {
    if part == [] then [] else [part[0]]
  }

  /**
   * `getInitials` as written: '' for an empty name; with a space, the first
   * characters of the first and last space-separated parts; otherwise the
   * first two characters; upper-cased.
   */
  function InitialsAsWritten(name: string): (r: string)
    ensures name == [] ==> r == []
    ensures ' ' !in name ==> r == Upper(name[..if |name| < 2 then |name| else 2])
  {
    if name == [] then []
    else if ' ' in name then
      var parts := SplitSpaces(name);
      Upper(FirstCharAsWritten(parts[0]) + FirstCharAsWritten(parts[|parts| - 1]))
    else Upper(name[..if |name| < 2 then |name| else 2])
  }

  /**
   * A name with a leading space has an empty first part, so its initials
   * spell out "undefined" before the last part's letter.
   */
  lemma LeadingSpaceInitials()
    ensures |InitialsAsWritten(" bob")| == 10
    ensures InitialsAsWritten(" bob")[9] == 'B'
  {
    var name := " bob";
    assert ' ' in name && IndexOf(name, ' ') == 0;
    assert name[1..] == "bob" && ' ' !in name[1..];
    assert SplitSpaces(name) == [name[..0]] + SplitSpaces(name[1..]);
    assert SplitSpaces(name) == ["", "bob"];
    assert FirstCharAsWritten("bob") == ['b'];
  }

  /**
   * `getInitials` with empty parts contributing nothing: never more than
   * two characters, and the same as the code whenever no part is empty.
   */
  function Initials(name: string): (r: string)
    ensures |r| <= 2
    ensures name == [] ==> r == []
  {
    if name == [] then []
    else if ' ' in name then
      var parts := SplitSpaces(name);
      Upper(FirstChar(parts[0]) + FirstChar(parts[|parts| - 1]))
    else Upper(name[..if |name| < 2 then |name| else 2])
  }

  /** When every space-separated part is non-empty, the corrected initials are the code's, and at most two characters long. */
  lemma InitialsAgree(name: string)
    requires forall j :: 0 <= j < |SplitSpaces(name)| ==> SplitSpaces(name)[j] != []
    ensures InitialsAsWritten(name) == Initials(name)
    ensures |InitialsAsWritten(name)| <= 2
  {
    if name != [] && ' ' in name {
      var parts := SplitSpaces(name);
      assert parts[0] != [] && parts[|parts| - 1] != [];
    }
  }

  /** A name with a space takes one letter from its first word and one from its last. */
  lemma InitialsOfFullName(name: string)
    requires ' ' in name
    requires SplitSpaces(name)[0] != [] && SplitSpaces(name)[|SplitSpaces(name)| - 1] != []
    ensures var parts := SplitSpaces(name);
      Initials(name) == [AsciiUpper(parts[0][0]), AsciiUpper(parts[|parts| - 1][0])]
  {
  }
}
