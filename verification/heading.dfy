/** The chapter-heading test of the story builder: the pattern
    `^第[一二三四五六七八九十百千万\d]+回` applied with `re.match`, i.e. anchored
    at the start of the line and indifferent to what follows the match. */
module Heading {

  const Marker: char := '第'
  const Unit: char := '回'
  const CjkNumerals: string := "一二三四五六七八九十百千万"

  /** One character of the bracketed class: a listed CJK numeral or an ASCII digit. */
  predicate IsNumeral(c: char) {
    c in CjkNumerals || '0' <= c <= '9'
  }

  /** The end of the longest run of numerals in `line` that starts at `j`:
      `Decimal.DigitRunEnd` with the chapter pattern's character class. */
  function NumeralRunEnd(line: string, j: nat): (e: nat)
    requires j <= |line|
    ensures j <= e <= |line|
    ensures forall k :: j <= k < e ==> IsNumeral(line[k])
    ensures e < |line| ==> !IsNumeral(line[e])
    decreases |line| - j
  {
    if j < |line| && IsNumeral(line[j]) then NumeralRunEnd(line, j + 1) else j
  }

  /** The matcher as an executable scan: the marker, a non-empty maximal run of
      numerals, then the unit. Taking the maximal run loses nothing because the
      unit glyph is not itself a numeral. */
  predicate IsChapterHeading(line: string) {
    && |line| >= 2
    && line[0] == Marker
    && var e := NumeralRunEnd(line, 1);
    && 1 < e < |line|
    && line[e] == Unit
  }

  /** The pattern as a declarative reading: the unit glyph sits at position `k`,
      the marker at 0 and only numerals in between (at least one). */
  predicate MatchesAt(line: string, k: nat) {
    && 2 <= k < |line|
    && line[0] == Marker
    && line[k] == Unit
    && forall j :: 1 <= j < k ==> IsNumeral(line[j])
  }

  lemma UnitIsNotNumeral()
    ensures !IsNumeral(Unit)
  {
    assert forall i :: 0 <= i < |CjkNumerals| ==> CjkNumerals[i] != Unit;
  }

  /** The scan accepts a line exactly when the pattern matches somewhere at its start. */
  lemma HeadingIffMatch(line: string)
    ensures IsChapterHeading(line) <==> exists k :: MatchesAt(line, k)
  {
    if IsChapterHeading(line) {
      assert MatchesAt(line, NumeralRunEnd(line, 1));
    }
    if k :| MatchesAt(line, k) {
      UnitIsNotNumeral();
      assert NumeralRunEnd(line, 1) == k;
    }
  }

  /** Only a prefix is examined: whatever follows a heading keeps it a heading. */
  lemma HeadingIgnoresSuffix(line: string, rest: string)
    requires IsChapterHeading(line)
    ensures IsChapterHeading(line + rest)
  {
    HeadingIffMatch(line);
    var k :| MatchesAt(line, k);
    assert MatchesAt(line + rest, k);
    HeadingIffMatch(line + rest);
  }

  /** A heading is never blank: it starts with the marker glyph. */
  lemma HeadingIsNotEmpty(line: string)
    requires IsChapterHeading(line)
    ensures line != "" && line[0] == Marker
  {
  }
}
