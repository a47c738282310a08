/** `OutlineDocTemplate` and the build that ties the story to the canvas.

    After a flowable is placed on a page, `afterFlowable` records a bookmark
    and an outline entry for it when it is a chapter heading. Which items end
    up on which page is decided by reportlab's layout engine, which is not
    modelled: a pagination is given as a parameter, a sequence of pages whose
    concatenation is the story, so every item sits whole on exactly one page.
    Reportlab can split a paragraph that does not fit the space left into
    pieces on consecutive pages; such a split is outside this model. Pass 1 places each page's items and then shows
    the page; pass 2 is the canvas's `save`. A page's content is the sequence
    of items placed on it. */
module OutlineDoc {
  import opened Options
  import Story
  import PageCanvas

  /** The `level` and `closed` arguments `afterFlowable` passes to `addOutlineEntry`. */
  const OutlineLevel: int := 0
  const OutlineClosed: bool := true

  type Page = seq<Story.Item>

  /** The canvas calls `afterFlowable` makes for one placed item. */
  function AfterFlowable(item: Story.Item): seq<PageCanvas.Op<Page>> {
    if item.Chapter? then
      [PageCanvas.MarkOp(item.key), PageCanvas.OutlineOp(item.text, item.key, OutlineLevel, OutlineClosed)]
    else
      []
  }

  /** The hook run over a page's items, in placement order. */
  function PlaceItems(items: seq<Story.Item>): seq<PageCanvas.Op<Page>> {
    if |items| == 0 then [] else AfterFlowable(items[0]) + PlaceItems(items[1..])
  }

  /** Pass 1: every page is laid out, then shown. */
  function Pass1(pages: seq<Page>): seq<PageCanvas.Op<Page>> {
    if |pages| == 0 then [] else PlaceItems(pages[0]) + [PageCanvas.ShowOp(pages[0])] + Pass1(pages[1..])
  }

  /** The entries `afterFlowable` records for one placed item. */
  function HeadingEntries(item: Story.Item): seq<PageCanvas.Entry> {
    if item.Chapter? then
      [PageCanvas.Bookmark(item.key), PageCanvas.Outline(item.text, item.key, OutlineLevel, OutlineClosed)]
    else []
  }

  /** What the reader's navigation pane gets for a run of items: for each
      heading, its bookmark and then its outline entry. */
  function OutlineEntries(items: seq<Story.Item>): seq<PageCanvas.Entry> {
    if |items| == 0 then [] else HeadingEntries(items[0]) + OutlineEntries(items[1..])
  }

  /** The whole build: pass 1 on a fresh canvas, then `save`. */
  function Render(pages: seq<Page>): seq<PageCanvas.Event<Page>> {
    PageCanvas.Save(PageCanvas.Run(PageCanvas.NewCanvas(), Pass1(pages)))
  }

  function Flatten(pages: seq<Page>): seq<Story.Item> {
    if |pages| == 0 then [] else pages[0] + Flatten(pages[1..])
  }

  // ---------------------------------------------------------------------------

  lemma {:induction false} RunAppend(c: PageCanvas.Canvas<Page>, a: seq<PageCanvas.Op<Page>>, b: seq<PageCanvas.Op<Page>>)
    ensures PageCanvas.Run(c, a + b) == PageCanvas.Run(PageCanvas.Run(c, a), b)
    decreases |a|
  {
    if |a| == 0 {
      assert a + b == b;
    } else {
      assert (a + b)[1..] == a[1..] + b;
      RunAppend(PageCanvas.Apply(c, a[0]), a[1..], b);
    }
  }

  lemma {:induction false} OutlineEntriesAppend(a: seq<Story.Item>, b: seq<Story.Item>)
    ensures OutlineEntries(a + b) == OutlineEntries(a) + OutlineEntries(b)
    decreases |a|
  {
    if |a| == 0 {
      assert a + b == b;
    } else {
      assert (a + b)[1..] == a[1..] + b;
      OutlineEntriesAppend(a[1..], b);
    }
  }

  /** The hook for one item appends that item's entries to the buffer and
      changes nothing else. */
  lemma AfterFlowableRecords(c: PageCanvas.Canvas<Page>, item: Story.Item)
    ensures PageCanvas.Run(c, AfterFlowable(item)) == c.(buffer := c.buffer + HeadingEntries(item))
  {
    var hook := AfterFlowable(item);
    if item.Chapter? {
      var c1 := PageCanvas.BookmarkPage(c, item.key);
      var c2 := PageCanvas.AddOutlineEntry(c1, item.text, item.key, OutlineLevel, OutlineClosed);
      assert hook[1..][1..] == [];
      assert PageCanvas.Run(c, hook) == PageCanvas.Run(c1, hook[1..]);
      assert PageCanvas.Run(c1, hook[1..]) == PageCanvas.Run(c2, hook[1..][1..]);
    } else {
      assert c.buffer + [] == c.buffer;
    }
  }

  /** Placing items only records, on the current page, the bookmark and the
      outline entry of each heading, in placement order; nothing is captured. */
  lemma {:induction false} PlaceItemsRecords(c: PageCanvas.Canvas<Page>, items: seq<Story.Item>)
    ensures PageCanvas.Run(c, PlaceItems(items)) == c.(buffer := c.buffer + OutlineEntries(items))
    decreases |items|
  {
    if |items| == 0 {
      assert c.buffer + [] == c.buffer;
    } else {
      var rest := PlaceItems(items[1..]);
      assert PlaceItems(items) == AfterFlowable(items[0]) + rest;
      RunAppend(c, AfterFlowable(items[0]), rest);
      AfterFlowableRecords(c, items[0]);
      var c' := c.(buffer := c.buffer + HeadingEntries(items[0]));
      assert PageCanvas.Run(c, PlaceItems(items)) == PageCanvas.Run(c', rest);
      PlaceItemsRecords(c', items[1..]);
      assert OutlineEntries(items) == HeadingEntries(items[0]) + OutlineEntries(items[1..]);
      assert c'.buffer + OutlineEntries(items[1..]) == c.buffer + OutlineEntries(items);
    }
  }

  /** The snapshots pass 1 takes, starting on page number `first`. */
  function Snapshots(pages: seq<Page>, first: int): seq<PageCanvas.PageState<Page>> {
    seq(|pages|, k requires 0 <= k < |pages| => PageCanvas.PageState(pages[k], first + k, OutlineEntries(pages[k])))
  }

  /** Pass 1 from a canvas with an empty buffer: one snapshot per page, in
      order, each holding exactly the entries of the headings placed on it. */
  lemma {:induction false} Pass1Captures(c: PageCanvas.Canvas<Page>, pages: seq<Page>)
    requires c.buffer == []
    ensures PageCanvas.Run(c, Pass1(pages)) ==
      PageCanvas.Canvas(c.pageNumber + |pages|, [], c.saved + Snapshots(pages, c.pageNumber))
    decreases |pages|
  {
    if |pages| == 0 {
      assert c.saved + Snapshots(pages, c.pageNumber) == c.saved;
    } else {
      var place := PlaceItems(pages[0]);
      var show := [PageCanvas.ShowOp(pages[0])];
      RunAppend(c, place + show, Pass1(pages[1..]));
      RunAppend(c, place, show);
      PlaceItemsRecords(c, pages[0]);
      var c0 := c.(buffer := OutlineEntries(pages[0]));
      assert c.buffer + OutlineEntries(pages[0]) == OutlineEntries(pages[0]);
      assert PageCanvas.Run(c, place) == c0;
      var c1 := PageCanvas.Run(c, place + show);
      assert show[1..] == [];
      assert PageCanvas.Run(c0, show) == PageCanvas.Run(PageCanvas.ShowPage(c0, pages[0]), show[1..]);
      assert c1 == PageCanvas.ShowPage(c0, pages[0]);
      Pass1Captures(c1, pages[1..]);
      assert c.saved + Snapshots(pages, c.pageNumber)
          == c1.saved + Snapshots(pages[1..], c1.pageNumber);
    }
  }

  /** What a reader of the finished document finds on each page: the
      bookmarks of the headings placed on it, no footer on the first page and
      "Page k of N-1" on page k + 1, then the page itself. */
  function Expected(pages: seq<Page>): seq<PageCanvas.ReplayedPage<Page>> {
    var n := |pages|;
    seq(n, k requires 0 <= k < n =>
      PageCanvas.ReplayedPage(
        OutlineEntries(pages[k]),
        if k == 0 then None else Some(PageCanvas.FooterLabel(k, n - 1)),
        pages[k]))
  }

  /** Pass 1 on a fresh canvas captures one snapshot per page, numbered from 1. */
  lemma Pass1FromNew(pages: seq<Page>)
    ensures PageCanvas.Run(PageCanvas.NewCanvas(), Pass1(pages)).saved
         == Snapshots(pages, PageCanvas.FirstPageNumber)
  {
    var c0: PageCanvas.Canvas<Page> := PageCanvas.NewCanvas();
    Pass1Captures(c0, pages);
    assert c0.saved + Snapshots(pages, c0.pageNumber) == Snapshots(pages, PageCanvas.FirstPageNumber);
  }

  lemma SnapshotsReplayed(pages: seq<Page>)
    ensures PageCanvas.ReplayedPages(Snapshots(pages, PageCanvas.FirstPageNumber), |pages|) == Expected(pages)
  {
    var got := PageCanvas.ReplayedPages(Snapshots(pages, PageCanvas.FirstPageNumber), |pages|);
    var want := Expected(pages);
    forall k | 0 <= k < |pages|
      ensures got[k] == want[k]
    {
    }
  }

  /** The finished document, read back page by page, is `Expected(pages)`:
      the rendering loses and invents nothing. */
  lemma RenderRoundTrip(pages: seq<Page>)
    ensures PageCanvas.ParseTrace(Render(pages)) == Some(Expected(pages))
  {
    var c := PageCanvas.Run(PageCanvas.NewCanvas(), Pass1(pages));
    Pass1FromNew(pages);
    PageCanvas.SaveRoundTrip(c);
    SnapshotsReplayed(pages);
  }

  lemma {:induction false} AllBookmarksOfSnapshots(pages: seq<Page>, first: int)
    ensures PageCanvas.AllBookmarks(Snapshots(pages, first)) == OutlineEntries(Flatten(pages))
    decreases |pages|
  {
    if |pages| > 0 {
      AllBookmarksOfSnapshots(pages[1..], first + 1);
      assert Snapshots(pages, first)[1..] == Snapshots(pages[1..], first + 1);
      OutlineEntriesAppend(pages[0], Flatten(pages[1..]));
    }
  }

  /** Headings alone decide the outline: other items contribute nothing. */
  lemma {:induction false} OutlineOfHeadings(s: seq<Story.Item>)
    ensures OutlineEntries(s) == OutlineEntries(Story.ChapterItems(s))
    decreases |s|
  {
    if |s| > 0 {
      OutlineOfHeadings(s[1..]);
      var h: seq<Story.Item> := if s[0].Chapter? then [s[0]] else [];
      OutlineEntriesAppend(h, Story.ChapterItems(s[1..]));
      if s[0].Chapter? {
        assert h[1..] == [];
      }
    }
  }

  /** The navigation entries of a finished document, for any pagination that
      places each item whole on one page:
      for each chapter line i of the input, in input order, the bookmark
      `chap_<i>` and then the outline entry titled with the line, at level 0
      and closed. Nothing else is registered. */
  lemma ChapterNavigation(lines: seq<string>, pages: seq<Page>)
    requires Flatten(pages) == Story.BuildStory(lines)
    ensures var nav := PageCanvas.Registered(Render(pages));
      var idx := Story.ChapterLines(lines, |lines|);
      && |nav| == 2 * |idx|
      && forall a :: 0 <= a < |idx| ==>
           && nav[2 * a] == PageCanvas.Bookmark(Story.ChapterKey(idx[a]))
           && nav[2 * a + 1] == PageCanvas.Outline(lines[idx[a]], Story.ChapterKey(idx[a]), OutlineLevel, OutlineClosed)
  {
    var c := PageCanvas.Run(PageCanvas.NewCanvas(), Pass1(pages));
    Pass1FromNew(pages);
    PageCanvas.SaveReplaysCaptured(c);
    AllBookmarksOfSnapshots(pages, PageCanvas.FirstPageNumber);
    var story := Story.BuildStory(lines);
    OutlineOfHeadings(story);
    Story.ChaptersFromLines(lines);
    HeadingsOutline(Story.ChapterItems(story), Story.ChapterLines(lines, |lines|), lines);
  }

  lemma {:induction false} HeadingsOutline(c: seq<Story.Item>, idx: seq<nat>, lines: seq<string>)
    requires Story.HeadingsFrom(c, idx, lines)
    ensures var nav := OutlineEntries(c);
      && |nav| == 2 * |idx|
      && forall a :: 0 <= a < |idx| ==>
           && nav[2 * a] == PageCanvas.Bookmark(Story.ChapterKey(idx[a]))
           && nav[2 * a + 1] == PageCanvas.Outline(lines[idx[a]], Story.ChapterKey(idx[a]), OutlineLevel, OutlineClosed)
    decreases |c|
  {
    if |c| > 0 {
      assert Story.HeadingsFrom(c[1..], idx[1..], lines);
      HeadingsOutline(c[1..], idx[1..], lines);
      var nav := OutlineEntries(c);
      var rest := OutlineEntries(c[1..]);
      assert nav == [PageCanvas.Bookmark(c[0].key), PageCanvas.Outline(c[0].text, c[0].key, OutlineLevel, OutlineClosed)] + rest;
      forall a | 0 <= a < |idx|
        ensures && nav[2 * a] == PageCanvas.Bookmark(Story.ChapterKey(idx[a]))
                && nav[2 * a + 1] == PageCanvas.Outline(lines[idx[a]], Story.ChapterKey(idx[a]), OutlineLevel, OutlineClosed)
      {
        if a > 0 {
          assert nav[2 * a] == rest[2 * (a - 1)];
          assert nav[2 * a + 1] == rest[2 * (a - 1) + 1];
          assert idx[1..][a - 1] == idx[a];
        }
      }
    }
  }

  /** The number of footers: every page but the first carries one. */
  lemma FooterCount(pages: seq<Page>)
    requires |pages| > 0
    ensures var read := PageCanvas.ParseTrace(Render(pages));
      && read.Some?
      && |read.value| == |pages|
      && read.value[0].footer == None
      && forall k :: 1 <= k < |pages| ==> read.value[k].footer.Some?
  {
    RenderRoundTrip(pages);
  }
}
