/** The story builder of `convert_s2t_txt_to_pdf`: the loop that turns the
    converted, stripped lines of the input into the flowables handed to the
    document template (a title, page breaks, chapter headings carrying a
    bookmark key, body paragraphs and the spacers after them). Styles are not
    part of an item: the kind of the item determines its style. */
module Story {
  import opened Options
  import Decimal
  import Heading

  /** `PDFConfig.SPACE_AFTER_PARA`: height of the spacer after each body paragraph. */
  const SpaceAfterPara: nat := 6

  const KeyPrefix: string := "chap_"

  datatype Item =
    | Title(text: string)
    | PageBreak
    | Chapter(text: string, key: string)
    | Body(text: string)
    | Spacer(height: nat)

  /** The bookmark key of the chapter heading on line `i` (counting blank lines). */
  function ChapterKey(i: nat): string {
    KeyPrefix + Decimal.FromNat(i)
  }

  /** Recovers the line index from a chapter key. */
  function ParseChapterKey(key: string): Option<nat> {
    if |KeyPrefix| <= |key| && key[..|KeyPrefix|] == KeyPrefix then
      Decimal.Parse(key[|KeyPrefix|..])
    else
      None
  }

  lemma ChapterKeyRoundTrip(i: nat)
    ensures ParseChapterKey(ChapterKey(i)) == Some(i)
  {
    var key := ChapterKey(i);
    assert key[..|KeyPrefix|] == KeyPrefix;
    assert key[|KeyPrefix|..] == Decimal.FromNat(i);
    Decimal.ParseFromNat(i);
  }

  /** Line `i` becomes a chapter heading: not the title line and matching the
      heading pattern. A matching line is never blank (`Heading.HeadingIsNotEmpty`),
      so the blank-line skip that comes first in the loop never hides one. */
  predicate IsChapterLine(lines: seq<string>, i: nat)
    requires i < |lines|
  {
    i != 0 && Heading.IsChapterHeading(lines[i])
  }

  /** What one iteration of the loop appends for line `i`, given whether a
      chapter heading has already been placed. */
  function LineItems(line: string, i: nat, found: bool): seq<Item> {
    if line == "" then []
    else if i == 0 then [Title(line), PageBreak]
    else if Heading.IsChapterHeading(line) then
      (if found then [PageBreak] else []) + [Chapter(line, ChapterKey(i))]
    else [Body(line), Spacer(SpaceAfterPara)]
  }

  /** The loop state: the story so far and `first_chapter_found`. */
  datatype Builder = Builder(story: seq<Item>, found: bool)

  /** The loop state after the first `n` lines. */
  function Build(lines: seq<string>, n: nat): Builder
    requires n <= |lines|
  {
    if n == 0 then Builder([], false)
    else
      var b := Build(lines, n - 1);
      Builder(b.story + LineItems(lines[n - 1], n - 1, b.found),
              b.found || IsChapterLine(lines, n - 1))
  }

  function BuildStory(lines: seq<string>): seq<Item> {
    Build(lines, |lines|).story
  }

  /** The loop as written: skip blank lines, title on line 0, headings with a
      page break before all but the first, body paragraphs with a spacer. */
  method BuildStoryLoop(lines: seq<string>) returns (story: seq<Item>)
    ensures story == BuildStory(lines)
  {
    story := [];
    var firstChapterFound := false;
    var i := 0;
    while i < |lines|
      invariant i <= |lines|
      invariant Build(lines, i) == Builder(story, firstChapterFound)
    {
      var line := lines[i];
      if line == "" {
        i := i + 1;
        continue;
      }
      if i == 0 {
        story := story + [Title(line), PageBreak];
        i := i + 1;
        continue;
      }
      if Heading.IsChapterHeading(line) {
        if firstChapterFound {
          story := story + [PageBreak];
        }
        story := story + [Chapter(line, ChapterKey(i))];
        firstChapterFound := true;
        i := i + 1;
        continue;
      }
      story := story + [Body(line), Spacer(SpaceAfterPara)];
      i := i + 1;
    }
  }

  // ---------------------------------------------------------------------------
  // Views of a story

  /** The text of every paragraph (title, heading or body), in story order. */
  function Texts(s: seq<Item>): seq<string> {
    if s == [] then []
    else
      (match s[0]
         case Title(t) => [t]
         case Chapter(t, _) => [t]
         case Body(t) => [t]
         case _ => [])
      + Texts(s[1..])
  }

  function Breaks(s: seq<Item>): nat {
    if s == [] then 0 else (if s[0] == PageBreak then 1 else 0) + Breaks(s[1..])
  }

  /** The chapter headings of a story, in story order. */
  function ChapterItems(s: seq<Item>): seq<Item> {
    if s == [] then [] else (if s[0].Chapter? then [s[0]] else []) + ChapterItems(s[1..])
  }

  /** The non-blank input lines, in input order. */
  function NonBlank(lines: seq<string>): seq<string> {
    if lines == [] then []
    else NonBlank(lines[..|lines| - 1]) + (if lines[|lines| - 1] == "" then [] else [lines[|lines| - 1]])
  }

  /** The indices, among the first `n`, of the lines that become chapter
      headings, in increasing order. */
  function ChapterLines(lines: seq<string>, n: nat): (idx: seq<nat>)
    requires n <= |lines|
    ensures forall a :: 0 <= a < |idx| ==> idx[a] < n && IsChapterLine(lines, idx[a])
    ensures forall a, b :: 0 <= a < b < |idx| ==> idx[a] < idx[b]
    ensures forall i :: 0 <= i < n && IsChapterLine(lines, i) ==> i in idx
  {
    if n == 0 then []
    else ChapterLines(lines, n - 1) + (if IsChapterLine(lines, n - 1) then [n - 1] else [])
  }

  lemma {:induction false} ViewsAppend(a: seq<Item>, b: seq<Item>)
    ensures Texts(a + b) == Texts(a) + Texts(b)
    ensures Breaks(a + b) == Breaks(a) + Breaks(b)
    ensures ChapterItems(a + b) == ChapterItems(a) + ChapterItems(b)
  {
    if a != [] {
      assert (a + b)[1..] == a[1..] + b;
      ViewsAppend(a[1..], b);
    } else {
      assert a + b == b;
    }
  }

  lemma ViewsOfLine(line: string, i: nat, found: bool)
    ensures Texts(LineItems(line, i, found)) == if line == "" then [] else [line]
    ensures Breaks(LineItems(line, i, found)) ==
      if line == "" then 0
      else if i == 0 then 1
      else if Heading.IsChapterHeading(line) && found then 1
      else 0
    ensures ChapterItems(LineItems(line, i, found)) ==
      if line != "" && i != 0 && Heading.IsChapterHeading(line) then [Chapter(line, ChapterKey(i))] else []
  {
    var e := LineItems(line, i, found);
    if |e| == 1 {
      assert e[1..] == [];
    } else if |e| == 2 {
      assert e == [e[0]] + [e[1]];
      assert [e[0]][1..] == [] && [e[1]][1..] == [];
      ViewsAppend([e[0]], [e[1]]);
    }
  }

  /** One loop step appends the line's items and raises the flag exactly on a heading. */
  lemma BuildStep(lines: seq<string>, n: nat)
    requires 0 < n <= |lines|
    ensures Build(lines, n).story == Build(lines, n - 1).story + LineItems(lines[n - 1], n - 1, Build(lines, n - 1).found)
    ensures Texts(Build(lines, n).story) == Texts(Build(lines, n - 1).story) + (if lines[n - 1] == "" then [] else [lines[n - 1]])
  {
    var b := Build(lines, n - 1);
    ViewsAppend(b.story, LineItems(lines[n - 1], n - 1, b.found));
    ViewsOfLine(lines[n - 1], n - 1, b.found);
  }

  lemma {:induction false} ChapterItemsEmpty(s: seq<Item>)
    ensures ChapterItems(s) == [] <==> forall j :: 0 <= j < |s| ==> !s[j].Chapter?
  {
    if s != [] {
      ChapterItemsEmpty(s[1..]);
      assert forall j :: 1 <= j < |s| ==> s[j] == s[1..][j - 1];
    }
  }

  // ---------------------------------------------------------------------------
  // Shapes a story can have

  /** Line 0, when not blank, is the title: first, and followed by its page break. */
  predicate TitleLeads(s: seq<Item>, lines: seq<string>) {
    |lines| > 0 && lines[0] != "" ==> |s| >= 2 && s[0] == Title(lines[0]) && s[1] == PageBreak
  }

  /** No title other than line 0's, and none at all when line 0 is blank. */
  predicate TitleOnlyFromLineZero(s: seq<Item>, lines: seq<string>) {
    && (forall k :: 0 <= k < |s| && s[k].Title? ==> k == 0)
    && (|s| > 0 && s[0].Title? ==> |lines| > 0 && lines[0] != "" && s[0].text == lines[0])
  }

  /** Some heading occurs among the first `k` items. */
  predicate ChapterBefore(s: seq<Item>, k: nat)
    requires k <= |s|
  {
    exists j :: 0 <= j < k && s[j].Chapter?
  }

  /** Every page break is the title's (position 1) or stands immediately
      before a heading that has another heading somewhere before it. */
  predicate BreaksOnlyBeforeLaterChapters(s: seq<Item>) {
    forall k {:trigger s[k]} :: 0 <= k < |s| && s[k] == PageBreak ==>
      || (k == 1 && s[k - 1].Title?)
      || (k + 1 < |s| && s[k + 1].Chapter? && ChapterBefore(s, k))
  }

  /** Every heading after the first is immediately preceded by a page break. */
  predicate LaterChaptersBroken(s: seq<Item>) {
    forall j, k {:trigger s[j], s[k]} :: 0 <= j < k < |s| && s[j].Chapter? && s[k].Chapter? ==> s[k - 1] == PageBreak
  }

  /** Each body paragraph is a non-blank, non-heading text followed by the
      paragraph spacer, and every spacer follows a body paragraph. */
  predicate BodiesSpaced(s: seq<Item>) {
    && (forall k {:trigger s[k]} :: 0 <= k < |s| && s[k].Body? ==>
          && k + 1 < |s| && s[k + 1] == Spacer(SpaceAfterPara)
          && s[k].text != "" && !Heading.IsChapterHeading(s[k].text))
    && (forall k {:trigger s[k]} :: 0 <= k < |s| && s[k].Spacer? ==> 0 < k && s[k - 1].Body?)
  }

  // ---------------------------------------------------------------------------
  // Properties of the loop, stated for every prefix of the input

  /** `first_chapter_found` is set exactly when a chapter heading is already in the story. */
  lemma {:induction false} FoundTracksChapters(lines: seq<string>, n: nat)
    requires n <= |lines|
    ensures Build(lines, n).found <==> ChapterItems(Build(lines, n).story) != []
  {
    if n > 0 {
      FoundTracksChapters(lines, n - 1);
      var b := Build(lines, n - 1);
      ViewsAppend(b.story, LineItems(lines[n - 1], n - 1, b.found));
      ViewsOfLine(lines[n - 1], n - 1, b.found);
    }
  }

  /** Only line 0 can yield a title. */
  lemma LineItemsNoTitle(line: string, i: nat, found: bool)
    requires i != 0
    ensures forall k :: 0 <= k < |LineItems(line, i, found)| ==> !LineItems(line, i, found)[k].Title?
  {
  }

  lemma TitleOnlyAppend(s: seq<Item>, e: seq<Item>, lines: seq<string>, longer: seq<string>)
    requires TitleOnlyFromLineZero(s, lines)
    requires forall k :: 0 <= k < |e| ==> !e[k].Title?
    requires |lines| > 0 && |longer| > 0 && longer[0] == lines[0]
    ensures TitleOnlyFromLineZero(s + e, longer)
  {
  }

  lemma {:induction false} TitlePrefix(lines: seq<string>, n: nat)
    requires n <= |lines|
    ensures TitleLeads(Build(lines, n).story, lines[..n])
    ensures TitleOnlyFromLineZero(Build(lines, n).story, lines[..n])
  {
    if n == 1 {
      assert Build(lines, 1).story == LineItems(lines[0], 0, false);
    } else if n > 1 {
      TitlePrefix(lines, n - 1);
      var b := Build(lines, n - 1);
      var e := LineItems(lines[n - 1], n - 1, b.found);
      assert Build(lines, n).story == b.story + e;
      assert lines[..n][0] == lines[..n - 1][0];
      LineItemsNoTitle(lines[n - 1], n - 1, b.found);
      TitleOnlyAppend(b.story, e, lines[..n - 1], lines[..n]);
    }
  }

  /** Appending one line's items keeps the page-break shape, given that the
      flag says whether a heading is already present. */
  lemma BreaksAppend(s: seq<Item>, line: string, i: nat, found: bool)
    requires BreaksOnlyBeforeLaterChapters(s)
    requires found <==> ChapterBefore(s, |s|)
    requires i == 0 ==> s == []
    ensures BreaksOnlyBeforeLaterChapters(s + LineItems(line, i, found))
  {
    var e := LineItems(line, i, found);
    var t := s + e;
    var m := |s|;
    forall k {:trigger t[k]} | 0 <= k < |t| && t[k] == PageBreak
      ensures || (k == 1 && t[k - 1].Title?)
              || (k + 1 < |t| && t[k + 1].Chapter? && ChapterBefore(t, k))
    {
      if k < m {
        assert s[k] == PageBreak;
        if !(k == 1 && s[k - 1].Title?) {
          var j :| 0 <= j < k && s[j].Chapter?;
          assert t[j].Chapter?;
        }
      } else if i != 0 {
        var j :| 0 <= j < m && s[j].Chapter?;
        assert t[j].Chapter?;
      }
    }
    assert BreaksOnlyBeforeLaterChapters(t);
  }

  /** Appending one line's items keeps every later heading behind a break. */
  lemma ChaptersAppend(s: seq<Item>, line: string, i: nat, found: bool)
    requires LaterChaptersBroken(s)
    requires found <==> ChapterBefore(s, |s|)
    ensures LaterChaptersBroken(s + LineItems(line, i, found))
  {
    var e := LineItems(line, i, found);
    var t := s + e;
    var m := |s|;
    forall j, k {:trigger t[j], t[k]} | 0 <= j < k < |t| && t[j].Chapter? && t[k].Chapter?
      ensures t[k - 1] == PageBreak
    {
      if k >= m {
        assert t[k] == e[k - m];
        if j < m {
          assert s[j].Chapter?;
        }
      }
    }
  }

  lemma {:induction false} FoundIsChapterBefore(lines: seq<string>, n: nat)
    requires n <= |lines|
    ensures Build(lines, n).found <==> ChapterBefore(Build(lines, n).story, |Build(lines, n).story|)
  {
    FoundTracksChapters(lines, n);
    ChapterItemsEmpty(Build(lines, n).story);
  }

  lemma {:induction false} BreakPrefix(lines: seq<string>, n: nat)
    requires n <= |lines|
    ensures BreaksOnlyBeforeLaterChapters(Build(lines, n).story)
    ensures LaterChaptersBroken(Build(lines, n).story)
  {
    if n > 0 {
      BreakPrefix(lines, n - 1);
      FoundIsChapterBefore(lines, n - 1);
      var b := Build(lines, n - 1);
      BreaksAppend(b.story, lines[n - 1], n - 1, b.found);
      ChaptersAppend(b.story, lines[n - 1], n - 1, b.found);
    }
  }

  lemma {:induction false} BodyPrefix(lines: seq<string>, n: nat)
    requires n <= |lines|
    ensures BodiesSpaced(Build(lines, n).story)
  {
    if n > 0 {
      BodyPrefix(lines, n - 1);
      var b := Build(lines, n - 1);
      var e := LineItems(lines[n - 1], n - 1, b.found);
      var s := b.story + e;
      var m := |b.story|;
      assert Build(lines, n).story == s;
      forall k | 0 <= k < |s| && s[k].Body?
        ensures k + 1 < |s| && s[k + 1] == Spacer(SpaceAfterPara)
        ensures s[k].text != "" && !Heading.IsChapterHeading(s[k].text)
      {
        if k < m {
          assert b.story[k].Body?;
        } else {
          assert s[k] == e[k - m];
        }
      }
      forall k | 0 <= k < |s| && s[k].Spacer?
        ensures 0 < k && s[k - 1].Body?
      {
        if k < m {
          assert b.story[k].Spacer?;
        } else {
          assert s[k] == e[k - m];
        }
      }
    }
  }

  lemma {:induction false} TextsPrefix(lines: seq<string>, n: nat)
    requires n <= |lines|
    ensures Texts(Build(lines, n).story) == NonBlank(lines[..n])
  {
    if n > 0 {
      TextsPrefix(lines, n - 1);
      BuildStep(lines, n);
      assert lines[..n][..n - 1] == lines[..n - 1];
    }
  }

  lemma {:induction false} BreakCountPrefix(lines: seq<string>, n: nat)
    requires n <= |lines|
    ensures var s := Build(lines, n).story;
      var c := |ChapterItems(s)|;
      Breaks(s) == (if 0 < n && lines[0] != "" then 1 else 0) + (if c == 0 then 0 else c - 1)
  {
    if n > 0 {
      BreakCountPrefix(lines, n - 1);
      FoundTracksChapters(lines, n - 1);
      var b := Build(lines, n - 1);
      ViewsAppend(b.story, LineItems(lines[n - 1], n - 1, b.found));
      ViewsOfLine(lines[n - 1], n - 1, b.found);
      if n == 1 {
        assert b.story == [];
      }
    }
  }

  /** `c` lists, in order, the headings made from the lines at `idx`. */
  predicate HeadingsFrom(c: seq<Item>, idx: seq<nat>, lines: seq<string>) {
    && |c| == |idx|
    && forall a :: 0 <= a < |c| ==> idx[a] < |lines| && c[a] == Chapter(lines[idx[a]], ChapterKey(idx[a]))
  }

  lemma HeadingsFromAppend(c: seq<Item>, idx: seq<nat>, lines: seq<string>, i: nat)
    requires HeadingsFrom(c, idx, lines)
    requires i < |lines|
    ensures HeadingsFrom(c + [Chapter(lines[i], ChapterKey(i))], idx + [i], lines)
  {
  }

  lemma {:induction false} ChapterItemsPrefix(lines: seq<string>, n: nat)
    requires n <= |lines|
    ensures HeadingsFrom(ChapterItems(Build(lines, n).story), ChapterLines(lines, n), lines)
  {
    if n > 0 {
      ChapterItemsPrefix(lines, n - 1);
      var b := Build(lines, n - 1);
      var e := LineItems(lines[n - 1], n - 1, b.found);
      var c := ChapterItems(b.story);
      var idx := ChapterLines(lines, n - 1);
      ViewsAppend(b.story, e);
      ViewsOfLine(lines[n - 1], n - 1, b.found);
      assert ChapterItems(Build(lines, n).story) == c + ChapterItems(e);
      if IsChapterLine(lines, n - 1) {
        assert ChapterLines(lines, n) == idx + [n - 1];
        HeadingsFromAppend(c, idx, lines, n - 1);
      } else {
        assert ChapterLines(lines, n) == idx + [] == idx;
        assert c + ChapterItems(e) == c;
      }
    }
  }

  // ---------------------------------------------------------------------------
  // Properties of the whole story

  /** A blank line leaves the loop state as it was: no items, and the
      first-chapter flag unchanged. */
  lemma BlankLineSkipped(lines: seq<string>, n: nat)
    requires 0 < n <= |lines| && lines[n - 1] == ""
    ensures Build(lines, n) == Build(lines, n - 1)
  {
    var b := Build(lines, n - 1);
    assert b.story + LineItems(lines[n - 1], n - 1, b.found) == b.story;
  }

  /** The title: present exactly when line 0 is not blank, then first and
      followed by its page break, even when line 0 looks like a heading. */
  lemma TitlePlacement(lines: seq<string>)
    ensures TitleLeads(BuildStory(lines), lines)
    ensures TitleOnlyFromLineZero(BuildStory(lines), lines)
  {
    TitlePrefix(lines, |lines|);
    assert lines[..|lines|] == lines;
  }

  /** Page breaks: every break is the title's (position 1) or stands
      immediately before a heading that is not the first one; and every
      heading after the first has a break immediately before it. So the first
      heading never gets a break of its own. */
  lemma BreakPlacement(lines: seq<string>)
    ensures BreaksOnlyBeforeLaterChapters(BuildStory(lines))
    ensures LaterChaptersBroken(BuildStory(lines))
  {
    BreakPrefix(lines, |lines|);
  }

  /** The number of page breaks: one for the title, one per heading but the first. */
  lemma BreakCount(lines: seq<string>)
    ensures var s := BuildStory(lines);
      var c := |ChapterItems(s)|;
      Breaks(s) == (if |lines| > 0 && lines[0] != "" then 1 else 0) + (if c == 0 then 0 else c - 1)
  {
    BreakCountPrefix(lines, |lines|);
  }

  /** Body paragraphs: each is a non-blank, non-heading line followed by its
      spacer, and every spacer follows a body paragraph. */
  lemma BodyPlacement(lines: seq<string>)
    ensures BodiesSpaced(BuildStory(lines))
  {
    BodyPrefix(lines, |lines|);
  }

  /** Every non-blank line appears as exactly one paragraph, in input order;
      blank lines contribute nothing. */
  lemma TextsAreNonBlankLines(lines: seq<string>)
    ensures Texts(BuildStory(lines)) == NonBlank(lines)
  {
    TextsPrefix(lines, |lines|);
    assert lines[..|lines|] == lines;
  }

  /** The headings of the story are exactly the chapter lines, in input order,
      each keyed by its own line index. */
  lemma ChaptersFromLines(lines: seq<string>)
    ensures HeadingsFrom(ChapterItems(BuildStory(lines)), ChapterLines(lines, |lines|), lines)
  {
    ChapterItemsPrefix(lines, |lines|);
  }

  /** Chapter keys name their line index, so in story order they are pairwise
      distinct and their indices strictly increase. */
  lemma ChapterKeysIncrease(lines: seq<string>)
    ensures var c := ChapterItems(BuildStory(lines));
      forall a :: 0 <= a < |c| ==> c[a].Chapter? && ParseChapterKey(c[a].key).Some?
    ensures var c := ChapterItems(BuildStory(lines));
      forall a, b :: 0 <= a < b < |c| ==>
        && c[a].key != c[b].key
        && ParseChapterKey(c[a].key).value < ParseChapterKey(c[b].key).value
  {
    ChaptersFromLines(lines);
    var c := ChapterItems(BuildStory(lines));
    var idx := ChapterLines(lines, |lines|);
    forall a | 0 <= a < |c|
      ensures c[a].Chapter? && ParseChapterKey(c[a].key) == Some(idx[a])
    {
      ChapterKeyRoundTrip(idx[a]);
    }
  }
}
