/** `getWarningsWithoutHeading`: the warnings text with a short first line
    (the heading) cut off. */
module Warnings {
  import opened Strings

  /** A first line is cut only when its newline comes before this position. */
  const HeadingLimit := 25

  /** Where `indexOf('\n')` finds the first newline of `t`, counted in UTF-16
      code units as JavaScript counts it; -1 when there is none. */
  function NewlineOffset(t: string): (u: int)
    ensures u == -1 <==> '\n' !in t
    ensures u >= 0 ==> u == CodeUnits(t[..IndexOf(t, '\n')]) && u >= IndexOf(t, '\n')
  {
    var p := IndexOf(t, '\n');
    if p == -1 then -1 else CodeUnits(t[..p])
  }

  /** The trimmed text from its first newline on, when that newline is at a
      code-unit position below 25; otherwise the whole trimmed text. With no
      newline, `indexOf` is -1 and `substring(-1)` keeps everything. The
      newline stands on a character boundary, so cutting at its code-unit
      offset is cutting before its character. */
  function WithoutHeading(dump: string): (r: string)
    // The result is the end of the trimmed text ...
    ensures var t := Trim(dump); |r| <= |t| && r == t[|t| - |r|..]
    // ... and what was cut is at most the first line, shorter than the limit in code units.
    ensures var t := Trim(dump); var cut := t[..|t| - |r|];
            '\n' !in cut && CodeUnits(cut) < HeadingLimit && |cut| < HeadingLimit
    // It is cut exactly when the first newline comes early enough, and then the result starts with it.
    ensures var t := Trim(dump); var u := NewlineOffset(t);
            (r != t <==> 0 < u < HeadingLimit) && (r != t ==> r[0] == '\n')
    // A text without a newline, or with a long first line, is kept whole.
    ensures var t := Trim(dump); '\n' !in t || NewlineOffset(t) >= HeadingLimit ==> r == t
  {
    var t := Trim(dump);
    var p := IndexOf(t, '\n');
    var u := NewlineOffset(t);
    if u < HeadingLimit then
      var r := if p == -1 then t else t[p..];
      assert p > 0 ==> t[..|t| - |r|] == t[..p];
      r
    else t
  }

  const Grin := '\U{1F600}'

  /** Thirteen code points above U+FFFF before the newline are 26 code units,
      so that first line is not a heading and the text is kept whole, although
      it is only 13 characters long. */
  lemma AstralFirstLineKept()
    ensures var dump := seq(13, _ => Grin) + "\nrest";
            WithoutHeading(dump) == dump
  {
    var line := seq(13, _ => Grin);
    var dump := line + "\nrest";
    TrimOfTrimmed(dump);
    assert dump[..13] == line;
    IndexOfFirst(dump, '\n', 13);
    CodeUnitsAstral(line);
    assert NewlineOffset(dump) == 26;
  }

  /** Twelve of them are 24 code units, and the first line is cut. */
  lemma AstralHeadingCut()
    ensures var dump := seq(12, _ => Grin) + "\nrest";
            WithoutHeading(dump) == "\nrest"
  {
    var line := seq(12, _ => Grin);
    var dump := line + "\nrest";
    TrimOfTrimmed(dump);
    assert dump[..12] == line;
    IndexOfFirst(dump, '\n', 12);
    CodeUnitsAstral(line);
    assert NewlineOffset(dump) == 24;
    assert dump[12..] == "\nrest";
  }
}
