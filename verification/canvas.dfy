/** `PageNumCanvas`: a canvas that defers bookmarks and outline entries to a
    second pass so that every page can carry a "Page X of Y" footer.

    During layout (pass 1) `bookmarkPage` and `addOutlineEntry` only record an
    entry for the current page, and `showPage` snapshots the page instead of
    writing it. `save` (pass 2) then walks the snapshots in order, replays each
    page's entries on the underlying canvas, draws the footer once the page
    count is known, and writes the page.

    The underlying reportlab canvas is opaque. What a page has drawn on it is a
    value of the type parameter `C`; the calls `save` makes on the underlying
    canvas are returned as a trace of events. */
module PageCanvas {
  import opened Options
  import Decimal

  /** A deferred call: `bookmarkPage(key)` or `addOutlineEntry(title, key, level, closed)`. */
  datatype Entry =
    | Bookmark(key: string)
    | Outline(title: string, key: string, level: int, closed: bool)

  /** What `showPage` captures: the page's content, the page number the
      canvas held while the page was drawn, and the entries recorded on it. */
  datatype PageState<C> = PageState(content: C, pageNumber: int, bookmarks: seq<Entry>)

  /** `_pageNumber`, `_current_page_bookmarks` and `_saved_page_states`. */
  datatype Canvas<C> = Canvas(pageNumber: int, buffer: seq<Entry>, saved: seq<PageState<C>>)

  /** A call `save` makes on the underlying canvas. */
  datatype Event<C> =
    | Register(entry: Entry)   // the inherited bookmarkPage / addOutlineEntry
    | Footer(text: string)     // draw_page_number: the centred footer text
    | Commit(content: C)       // the inherited showPage: the page is written
    | Close                    // the inherited save: the file is finished

  /** Reportlab numbers the first page 1 and its page start adds one per page. */
  const FirstPageNumber: int := 1

  /** The page numbers are the ones the underlying canvas hands out: snapshot
      `k` was taken on page `k + 1`, and the canvas is on the page after the
      last snapshot. */
  predicate Valid<C>(c: Canvas<C>) {
    && c.pageNumber == |c.saved| + FirstPageNumber
    && forall k :: 0 <= k < |c.saved| ==> c.saved[k].pageNumber == k + FirstPageNumber
  }

  function NewCanvas<C>(): (c: Canvas<C>)
    ensures Valid(c) && c.buffer == [] && c.saved == []
  {
    Canvas(FirstPageNumber, [], [])
  }

  // ---------------------------------------------------------------------------
  // Pass 1

  function BookmarkPage<C>(c: Canvas<C>, key: string): (r: Canvas<C>)
    ensures Valid(c) ==> Valid(r)
  {
    c.(buffer := c.buffer + [Bookmark(key)])
  }

  function AddOutlineEntry<C>(c: Canvas<C>, title: string, key: string, level: int, closed: bool): (r: Canvas<C>)
    ensures Valid(c) ==> Valid(r)
  {
    c.(buffer := c.buffer + [Outline(title, key, level, closed)])
  }

  /** Snapshot the page with the entries recorded on it, empty the buffer and
      move the underlying canvas to the next page. */
  function ShowPage<C>(c: Canvas<C>, content: C): (r: Canvas<C>)
    ensures Valid(c) ==> Valid(r)
  {
    Canvas(c.pageNumber + 1, [], c.saved + [PageState(content, c.pageNumber, c.buffer)])
  }

  /** The pass-1 calls the layout engine makes on the canvas. */
  datatype Op<C> =
    | MarkOp(key: string)
    | OutlineOp(title: string, key: string, level: int, closed: bool)
    | ShowOp(content: C)

  function Apply<C>(c: Canvas<C>, op: Op<C>): Canvas<C> {
    match op
    case MarkOp(key) => BookmarkPage(c, key)
    case OutlineOp(title, key, level, closed) => AddOutlineEntry(c, title, key, level, closed)
    case ShowOp(content) => ShowPage(c, content)
  }

  function Run<C>(c: Canvas<C>, ops: seq<Op<C>>): Canvas<C>
    decreases |ops|
  {
    if |ops| == 0 then c else Run(Apply(c, ops[0]), ops[1..])
  }

  /** The entry one call asks to record, if any. */
  function OpEntries<C>(op: Op<C>): seq<Entry> {
    match op
    case MarkOp(key) => [Bookmark(key)]
    case OutlineOp(title, key, level, closed) => [Outline(title, key, level, closed)]
    case ShowOp(_) => []
  }

  /** The page content one call shows, if any. */
  function OpShown<C>(op: Op<C>): seq<C> {
    match op
    case ShowOp(content) => [content]
    case _ => []
  }

  /** The entries a sequence of calls asks to record, in call order. */
  function Recorded<C>(ops: seq<Op<C>>): seq<Entry> {
    if |ops| == 0 then [] else OpEntries(ops[0]) + Recorded(ops[1..])
  }

  /** The page contents a sequence of calls shows, in call order. */
  function Shown<C>(ops: seq<Op<C>>): seq<C> {
    if |ops| == 0 then [] else OpShown(ops[0]) + Shown(ops[1..])
  }

  /** All captured entries, page after page. */
  function AllBookmarks<C>(pages: seq<PageState<C>>): seq<Entry> {
    if |pages| == 0 then [] else pages[0].bookmarks + AllBookmarks(pages[1..])
  }

  function Contents<C>(pages: seq<PageState<C>>): seq<C> {
    if |pages| == 0 then [] else [pages[0].content] + Contents(pages[1..])
  }

  lemma {:induction false} AllBookmarksAppend<C>(a: seq<PageState<C>>, b: seq<PageState<C>>)
    ensures AllBookmarks(a + b) == AllBookmarks(a) + AllBookmarks(b)
    ensures Contents(a + b) == Contents(a) + Contents(b)
  {
    if |a| == 0 {
      assert a + b == b;
    } else {
      assert (a + b)[1..] == a[1..] + b;
      AllBookmarksAppend(a[1..], b);
    }
  }

  /** Recording calls change only the buffer and reach nothing of the output:
      the trace `save` would produce is the same before and after them. */
  lemma RecordingIsDeferred<C>(c: Canvas<C>, key: string, title: string, level: int, closed: bool)
    ensures BookmarkPage(c, key).saved == c.saved
    ensures BookmarkPage(c, key).buffer == c.buffer + [Bookmark(key)]
    ensures Save(BookmarkPage(c, key)) == Save(c)
    ensures AddOutlineEntry(c, title, key, level, closed).saved == c.saved
    ensures AddOutlineEntry(c, title, key, level, closed).buffer == c.buffer + [Outline(title, key, level, closed)]
    ensures Save(AddOutlineEntry(c, title, key, level, closed)) == Save(c)
  {
  }

  /** `showPage` adds exactly one snapshot, holding the buffer as it was, and
      leaves the buffer empty; earlier snapshots are untouched. */
  lemma ShowPageCaptures<C>(c: Canvas<C>, content: C)
    ensures var r := ShowPage(c, content);
      && |r.saved| == |c.saved| + 1
      && r.saved[..|c.saved|] == c.saved
      && r.saved[|c.saved|].bookmarks == c.buffer
      && r.saved[|c.saved|].content == content
      && r.buffer == []
  {
    var r := ShowPage(c, content);
    assert r.saved[..|c.saved|] == c.saved;
  }

  /** One pass-1 call: a recording call adds its entry at the end of the
      buffer; `showPage` moves the buffer, unchanged, into a new snapshot. */
  lemma ApplyConserves<C>(c: Canvas<C>, op: Op<C>)
    ensures var r := Apply(c, op);
      AllBookmarks(r.saved) + r.buffer == AllBookmarks(c.saved) + c.buffer + OpEntries(op)
    ensures Contents(Apply(c, op).saved) == Contents(c.saved) + OpShown(op)
    ensures Valid(c) ==> Valid(Apply(c, op))
  {
    match op
    case ShowOp(content) =>
      var p := PageState(content, c.pageNumber, c.buffer);
      AllBookmarksAppend(c.saved, [p]);
      assert [p][1..] == [];
      assert AllBookmarks([p]) == c.buffer;
      assert Contents([p]) == [content];
    case _ =>
  }

  /** Pass 1 loses and reorders nothing: the captured entries followed by the
      still-open buffer are the entries recorded so far, in call order; the
      snapshots hold the shown pages in order; the page numbering stays valid. */
  lemma {:induction false} RunConserves<C>(c: Canvas<C>, ops: seq<Op<C>>)
    ensures var r := Run(c, ops);
      AllBookmarks(r.saved) + r.buffer == AllBookmarks(c.saved) + c.buffer + Recorded(ops)
    ensures Contents(Run(c, ops).saved) == Contents(c.saved) + Shown(ops)
    ensures Valid(c) ==> Valid(Run(c, ops))
    decreases |ops|
  {
    if |ops| > 0 {
      var c' := Apply(c, ops[0]);
      ApplyConserves(c, ops[0]);
      RunConserves(c', ops[1..]);
      assert Run(c, ops) == Run(c', ops[1..]);
      assert Recorded(ops) == OpEntries(ops[0]) + Recorded(ops[1..]);
      assert Shown(ops) == OpShown(ops[0]) + Shown(ops[1..]);
    } else {
      assert AllBookmarks(c.saved) + c.buffer + Recorded(ops) == AllBookmarks(c.saved) + c.buffer;
    }
  }

  // ---------------------------------------------------------------------------
  // Pass 2

  /** The footer text of `draw_page_number`. */
  function FooterLabel(current: nat, total: nat): string {
    "Page " + Decimal.FromNat(current) + " of " + Decimal.FromNat(total)
  }

  /** Reads a footer text back into its two numbers. */
  function ParseFooterLabel(footerText: string): Option<(nat, nat)> {
    if |footerText| < 5 || footerText[..5] != "Page " then None
    else
      var rest := footerText[5..];
      var e := Decimal.DigitRunEnd(rest, 0);
      if e + 4 > |rest| || rest[e..e + 4] != " of " then None
      else
        match (Decimal.Parse(rest[..e]), Decimal.Parse(rest[e + 4..]))
        case (Some(a), Some(b)) => Some((a, b))
        case _ => None
  }

  lemma FooterLabelRoundTrip(current: nat, total: nat)
    ensures ParseFooterLabel(FooterLabel(current, total)) == Some((current, total))
  {
    var footerText := FooterLabel(current, total);
    var a := Decimal.FromNat(current);
    var b := Decimal.FromNat(total);
    assert footerText[..5] == "Page ";
    var rest := footerText[5..];
    assert rest == a + (" of " + b);
    Decimal.DigitRunOfNumeral(current, " of " + b);
    var e := |a|;
    assert rest[..e] == a;
    assert rest[e..e + 4] == " of ";
    assert rest[e + 4..] == b;
    Decimal.ParseFromNat(current);
    Decimal.ParseFromNat(total);
  }

  /** The footer of a snapshot when `pageCount` pages were saved: only past the
      first page, numbering from the second page and not counting the first. */
  function FooterOf<C>(p: PageState<C>, pageCount: nat): Option<string>
    requires pageCount >= 1
  {
    if p.pageNumber > 1 then Some(FooterLabel(p.pageNumber - 1, pageCount - 1)) else None
  }

  function RegisterAll<C>(entries: seq<Entry>): seq<Event<C>> {
    if |entries| == 0 then [] else [Register(entries[0])] + RegisterAll(entries[1..])
  }

  /** One iteration of the `save` loop: replay the page's entries, draw the
      footer if due, write the page. */
  function Replay<C>(p: PageState<C>, pageCount: nat): seq<Event<C>>
    requires pageCount >= 1
  {
    RegisterAll(p.bookmarks)
    + (match FooterOf(p, pageCount) case Some(footerText) => [Footer(footerText)] case None => [])
    + [Commit(p.content)]
  }

  function ReplayAll<C>(pages: seq<PageState<C>>, pageCount: nat): seq<Event<C>>
    requires |pages| <= pageCount
  {
    if |pages| == 0 then [] else Replay(pages[0], pageCount) + ReplayAll(pages[1..], pageCount)
  }

  /** `save`: every snapshot in order, then the file is finished. The buffer
      of a page that was never shown is not looked at. */
  function Save<C>(c: Canvas<C>): seq<Event<C>> {
    ReplayAll(c.saved, |c.saved|) + [Close]
  }

  // ---------------------------------------------------------------------------
  // Reading a trace back

  /** One page as seen on the underlying canvas: the entries registered on it,
      its footer if any, and what was written. */
  datatype ReplayedPage<C> = ReplayedPage(entries: seq<Entry>, footer: Option<string>, content: C)

  /** Reads one page off the front of a trace: registrations, an optional
      footer, then the write. `acc` holds the registrations read so far. */
  function ParsePage<C>(t: seq<Event<C>>, acc: seq<Entry>): (r: Option<(ReplayedPage<C>, seq<Event<C>>)>)
    ensures r.Some? ==> |r.value.1| < |t|
    decreases |t|
  {
    if |t| == 0 then None
    else
      match t[0]
      case Register(entry) => ParsePage(t[1..], acc + [entry])
      case Footer(footerText) =>
        if |t| >= 2 && t[1].Commit? then Some((ReplayedPage(acc, Some(footerText), t[1].content), t[2..])) else None
      case Commit(content) => Some((ReplayedPage(acc, None, content), t[1..]))
      case Close => None
  }

  /** Reads a whole trace: pages until the closing event, which must be last. */
  function ParseTrace<C>(t: seq<Event<C>>): Option<seq<ReplayedPage<C>>>
    decreases |t|
  {
    if |t| == 1 && t[0].Close? then Some([])
    else
      match ParsePage(t, [])
      case None => None
      case Some((page, rest)) =>
        match ParseTrace(rest)
        case None => None
        case Some(pages) => Some([page] + pages)
  }

  /** What each snapshot should look like on the underlying canvas. */
  function ReplayedPages<C>(pages: seq<PageState<C>>, pageCount: nat): seq<ReplayedPage<C>>
    requires |pages| <= pageCount
  {
    seq(|pages|, k requires 0 <= k < |pages| =>
      ReplayedPage(pages[k].bookmarks, FooterOf(pages[k], pageCount), pages[k].content))
  }

  lemma {:induction false} ParseRegistered<C>(entries: seq<Entry>, acc: seq<Entry>, t: seq<Event<C>>)
    ensures ParsePage(RegisterAll(entries) + t, acc) == ParsePage(t, acc + entries)
    decreases |entries|
  {
    if |entries| == 0 {
      assert RegisterAll<C>(entries) + t == t;
      assert acc + entries == acc;
    } else {
      var u := RegisterAll(entries) + t;
      assert u[0] == Register(entries[0]);
      assert u[1..] == RegisterAll(entries[1..]) + t;
      ParseRegistered(entries[1..], acc + [entries[0]], t);
      assert acc + [entries[0]] + entries[1..] == acc + entries;
    }
  }

  lemma ParseReplay<C>(p: PageState<C>, pageCount: nat, t: seq<Event<C>>)
    requires pageCount >= 1
    ensures ParsePage(Replay(p, pageCount) + t, []) ==
      Some((ReplayedPage(p.bookmarks, FooterOf(p, pageCount), p.content), t))
  {
    var tail := (match FooterOf(p, pageCount) case Some(footerText) => [Footer(footerText)] case None => [])
      + [Commit(p.content)] + t;
    assert Replay(p, pageCount) + t == RegisterAll(p.bookmarks) + tail;
    ParseRegistered(p.bookmarks, [], tail);
    assert [] + p.bookmarks == p.bookmarks;
  }

  lemma {:induction false} ParseReplayAll<C>(pages: seq<PageState<C>>, pageCount: nat)
    requires |pages| <= pageCount
    ensures ParseTrace(ReplayAll(pages, pageCount) + [Close]) == Some(ReplayedPages(pages, pageCount))
    decreases |pages|
  {
    if |pages| == 0 {
      assert ReplayAll(pages, pageCount) + [Close] == [Close];
      assert ReplayedPages(pages, pageCount) == [];
    } else {
      var rest := ReplayAll(pages[1..], pageCount) + [Close];
      var t := ReplayAll(pages, pageCount) + [Close];
      assert t == Replay(pages[0], pageCount) + rest;
      ParseReplay(pages[0], pageCount, rest);
      ParseReplayAll(pages[1..], pageCount);
      assert ReplayedPages(pages, pageCount) ==
        [ReplayedPage(pages[0].bookmarks, FooterOf(pages[0], pageCount), pages[0].content)]
        + ReplayedPages(pages[1..], pageCount);
    }
  }

  /** The trace of `save` splits back into exactly the saved pages, in order:
      each page's entries in capture order, its footer, then its write. */
  lemma SaveRoundTrip<C>(c: Canvas<C>)
    ensures ParseTrace(Save(c)) == Some(ReplayedPages(c.saved, |c.saved|))
  {
    ParseReplayAll(c.saved, |c.saved|);
  }

  /** On a validly numbered canvas the footer depends only on the position:
      none on the first page, "Page k of N-1" on page k + 1 (0-based index k). */
  lemma FooterPlacement<C>(c: Canvas<C>)
    requires Valid(c)
    ensures var pages := ReplayedPages(c.saved, |c.saved|);
      forall k :: 0 <= k < |pages| ==>
        pages[k].footer == if k == 0 then None else Some(FooterLabel(k, |c.saved| - 1))
  {
  }

  // ---------------------------------------------------------------------------
  // What the trace holds, counted directly

  function Registered<C>(t: seq<Event<C>>): seq<Entry> {
    if |t| == 0 then [] else (if t[0].Register? then [t[0].entry] else []) + Registered(t[1..])
  }

  function Commits<C>(t: seq<Event<C>>): seq<C> {
    if |t| == 0 then [] else (if t[0].Commit? then [t[0].content] else []) + Commits(t[1..])
  }

  lemma {:induction false} RegisteredAppend<C>(a: seq<Event<C>>, b: seq<Event<C>>)
    ensures Registered(a + b) == Registered(a) + Registered(b)
    decreases |a|
  {
    if |a| == 0 {
      assert a + b == b;
    } else {
      var ab := a + b;
      assert ab[0] == a[0];
      assert ab[1..] == a[1..] + b;
      RegisteredAppend(a[1..], b);
    }
  }

  lemma {:induction false} CommitsAppend<C>(a: seq<Event<C>>, b: seq<Event<C>>)
    ensures Commits(a + b) == Commits(a) + Commits(b)
    decreases |a|
  {
    if |a| == 0 {
      assert a + b == b;
    } else {
      var ab := a + b;
      assert ab[0] == a[0];
      assert ab[1..] == a[1..] + b;
      CommitsAppend(a[1..], b);
    }
  }

  lemma TraceViewsAppend<C>(a: seq<Event<C>>, b: seq<Event<C>>)
    ensures Registered(a + b) == Registered(a) + Registered(b)
    ensures Commits(a + b) == Commits(a) + Commits(b)
  {
    RegisteredAppend(a, b);
    CommitsAppend(a, b);
  }

  lemma {:induction false} RegisterAllViews<C>(entries: seq<Entry>)
    ensures Registered(RegisterAll<C>(entries)) == entries
    ensures Commits(RegisterAll<C>(entries)) == []
    decreases |entries|
  {
    if |entries| > 0 {
      RegisterAllViews<C>(entries[1..]);
      assert RegisterAll<C>(entries)[1..] == RegisterAll<C>(entries[1..]);
    }
  }

  /** One replayed page registers its own entries and writes its own content once. */
  lemma ReplayViews<C>(p: PageState<C>, pageCount: nat)
    requires pageCount >= 1
    ensures Registered(Replay(p, pageCount)) == p.bookmarks
    ensures Commits(Replay(p, pageCount)) == [p.content]
  {
    RegisterAllViews<C>(p.bookmarks);
    var f: seq<Event<C>> := match FooterOf(p, pageCount) case Some(footerText) => [Footer(footerText)] case None => [];
    assert Registered(f) == [] && Commits(f) == [] by {
      if |f| > 0 {
        assert f[1..] == [];
      }
    }
    var w: seq<Event<C>> := [Commit(p.content)];
    assert Registered(w) == [] && Commits(w) == [p.content] by {
      assert w[1..] == [];
    }
    TraceViewsAppend(RegisterAll<C>(p.bookmarks), f);
    TraceViewsAppend(RegisterAll<C>(p.bookmarks) + f, w);
  }

  lemma {:induction false} ReplayAllViews<C>(pages: seq<PageState<C>>, pageCount: nat)
    requires |pages| <= pageCount
    ensures Registered(ReplayAll(pages, pageCount)) == AllBookmarks(pages)
    ensures Commits(ReplayAll(pages, pageCount)) == Contents(pages)
    decreases |pages|
  {
    if |pages| > 0 {
      ReplayAllViews(pages[1..], pageCount);
      ReplayViews(pages[0], pageCount);
      TraceViewsAppend(Replay(pages[0], pageCount), ReplayAll(pages[1..], pageCount));
    }
  }

  /** `save` registers exactly the captured entries, page after page in
      capture order, and writes exactly the saved pages, one write each. */
  lemma SaveReplaysCaptured<C>(c: Canvas<C>)
    ensures Registered(Save(c)) == AllBookmarks(c.saved)
    ensures Commits(Save(c)) == Contents(c.saved)
    ensures |Commits(Save(c))| == |c.saved|
  {
    ReplayAllViews(c.saved, |c.saved|);
    TraceViewsAppend(ReplayAll(c.saved, |c.saved|), [Close]);
    var close: seq<Event<C>> := [Close];
    assert close[1..] == [];
    assert Registered(close) == [] && Commits(close) == [];
    ContentsLength(c.saved);
  }

  lemma {:induction false} ContentsLength<C>(pages: seq<PageState<C>>)
    ensures |Contents(pages)| == |pages|
    decreases |pages|
  {
    if |pages| > 0 {
      ContentsLength(pages[1..]);
    }
  }
}
