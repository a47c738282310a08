# HanwenPDF: story builder and page-numbering canvas

This is a Dafny model of the core of `convert_s2t.py`. That script turns a
plain-text novel into a PDF with chapter bookmarks and "Page X of Y" footers.
The model covers three pieces:

- **The story builder** (module `Story`, with `Heading` for the chapter
  pattern). This is the loop that turns the text lines into the list of
  flowables.
  - A blank line produces nothing.
  - Line 0, when not blank, becomes the title, followed by a page break.
  - A line matching `第<numerals>回` becomes a chapter heading keyed
    `chap_<line index>`. Every heading except the first gets a page break
    before it.
  - Any other line becomes a body paragraph followed by a 6-point spacer.

  The fold `Build` is the reference definition. The loop `BuildStoryLoop`
  follows the source statement by statement and is proved equal to it.
- **`PageNumCanvas`** (module `PageCanvas`). This is the two-pass canvas.
  - In pass 1, `bookmarkPage` and `addOutlineEntry` only record an entry for
    the current page, and `showPage` snapshots the page together with its
    entries.
  - In pass 2, `save` replays each snapshot in order. For each page it
    registers the entries, draws the footer (on every page but the first),
    then writes the page.

  `save` is modelled as the trace of calls it makes on the underlying canvas.
  The partner of that trace is `ParseTrace`, which reads it back page by page.
- **`OutlineDocTemplate.afterFlowable`** (module `OutlineDoc`). For every
  chapter heading placed on a page, it records a bookmark and then an outline
  entry at level 0, closed.
  - Reportlab's layout engine decides which flowables land on which page. The
    model takes that decision as a parameter: a list of pages whose
    concatenation is the story.
  - On that basis the model proves what the finished document contains, for
    every pagination that places each item whole on one page.

`Decimal` is the decimal rendering of a natural number, as used by
`f"chap_{i}"` and by the footer text, together with its parser. `Options`
holds the `Option` type.

The title is keyed on line index 0 (`if i==0`, convert_s2t.py:225), so a
blank first line means there is no title, and line 1 is then treated like any
other line.

The first chapter heading gets no page break of its own. When the first
non-blank line after the title is a chapter heading, though, the title's page
break immediately precedes it.
`Story.BreakPlacement` states the precise rule: every page break either is the
title's break or immediately precedes a chapter heading that is not the first
one.

## Model

| member | source | states |
|---|---|---|
| Decimal.ParseFromNat | convert_s2t.py:237 | the decimal text of an index parses back to that index |
| Decimal.FromNatInjective | convert_s2t.py:237 | different line indices give different decimal texts |
| Heading.NumeralRunEnd | convert_s2t.py:219 | the greedy `[…\d]+` run: everything inside it is a numeral, and the character that stops it is not |
| Heading.HeadingIffMatch | convert_s2t.py:219 | a line is a heading if and only if, for some k ≥ 2, it starts with 第, characters 1..k-1 are numerals, and character k is 回 |
| Heading.HeadingIgnoresSuffix | convert_s2t.py:219 | `re.match` anchors only at the start, so anything may follow 回 in a heading |
| Heading.HeadingIsNotEmpty | convert_s2t.py:219 | a heading is never blank and begins with 第 |
| Story.ChapterKeyRoundTrip | convert_s2t.py:237 | `chap_<i>` reads back to the line index i |
| Story.BuildStoryLoop | convert_s2t.py:216-250 | the loop as written, with `continue` and `first_chapter_found`, builds exactly the story the line-by-line fold defines |
| Story.BlankLineSkipped | convert_s2t.py:222-223 | a blank line adds no items and does not change the first-chapter flag |
| Story.FoundTracksChapters | convert_s2t.py:233-245 | `first_chapter_found` holds exactly when a heading is already in the story |
| Story.TitlePlacement | convert_s2t.py:224-228 | the story starts with Title(line 0) and a PageBreak exactly when line 0 is not blank; no title appears anywhere else, even when line 0 looks like a heading |
| Story.BreakPlacement | convert_s2t.py:227-234 | every PageBreak is the title's break (position 1) or immediately precedes a heading that has another heading before it; every heading after the first has a PageBreak immediately before it |
| Story.BreakCount | convert_s2t.py:220-245 | the number of PageBreaks is (1 if line 0 is not blank, else 0) plus the number of headings minus one (never below zero) |
| Story.BodyPlacement | convert_s2t.py:248-250 | each body paragraph is immediately followed by Spacer(6), and each spacer immediately follows a body paragraph |
| Story.TextsAreNonBlankLines | convert_s2t.py:221-250 | the paragraph texts of the story are the non-blank lines, each exactly once, in input order |
| Story.ChapterLines | convert_s2t.py:221-245 | the indices of chapter lines below n: each one is a line other than line 0 that matches the heading pattern, they are strictly increasing, and none is missed |
| Story.ChaptersFromLines | convert_s2t.py:231-245 | the story's headings are, in order, Chapter(lines[i], `chap_<i>`) for exactly the chapter lines i |
| Story.ChapterKeysIncrease | convert_s2t.py:236-237 | the chapter keys in story order are pairwise distinct, and the indices they encode strictly increase |
| PageCanvas.NewCanvas | convert_s2t.py:60-64 | a new canvas is on page 1 with an empty buffer and no snapshots |
| PageCanvas.RecordingIsDeferred | convert_s2t.py:67-73 | `bookmarkPage` and `addOutlineEntry` only append their entry to the current page's buffer; the snapshots and what `save` would emit are unchanged |
| PageCanvas.ShowPage | convert_s2t.py:75-88 | `showPage` keeps the page numbering valid (snapshot k is page k + 1) |
| PageCanvas.ShowPageCaptures | convert_s2t.py:75-88 | `showPage` appends exactly one snapshot holding the content and the buffer, leaves earlier snapshots alone, and empties the buffer |
| PageCanvas.ApplyConserves | convert_s2t.py:67-85 | a recording call adds its entry at the end of the buffer, and `showPage` moves the buffer unchanged into one new snapshot |
| PageCanvas.RunConserves | convert_s2t.py:66-88 | over any sequence of pass-1 calls, the captured entries followed by the open buffer are exactly the recorded entries in call order, and the snapshots are the shown pages in order |
| PageCanvas.FooterLabelRoundTrip | convert_s2t.py:121-124 | the footer text `Page <x> of <y>` reads back to (x, y) |
| PageCanvas.SaveRoundTrip | convert_s2t.py:90-107 | reading `save`'s calls back gives, per snapshot and in order: its entries, its footer and its content, followed by the final save; an unshown buffer leaves no trace |
| PageCanvas.FooterPlacement | convert_s2t.py:101-102 | on a validly numbered canvas, the first page has no footer and page k + 1 has `Page k of N-1` |
| PageCanvas.SaveReplaysCaptured | convert_s2t.py:90-107 | `save` registers exactly the captured entries in capture order, and writes exactly one page per snapshot, in order |
| OutlineDoc.AfterFlowableRecords | convert_s2t.py:130-141 | the hook for one item appends Bookmark(key) then Outline(title, key, 0, closed) to the current page's buffer when the item is a heading, and leaves the canvas unchanged otherwise |
| OutlineDoc.PlaceItemsRecords | convert_s2t.py:130-141 | placing items only appends, to the current page's buffer, Bookmark(key) then Outline(title, key, 0, closed) for each heading, in placement order |
| OutlineDoc.OutlineOfHeadings | convert_s2t.py:132 | items that are not headings add nothing to the outline |
| OutlineDoc.Pass1Captures | convert_s2t.py:128-141 | pass 1 over a pagination leaves an empty buffer and one snapshot per page, numbered from the starting page, each holding that page's heading entries |
| OutlineDoc.RenderRoundTrip | convert_s2t.py:253-254 | read back, the finished document has one page per laid-out page, in order, each with its own headings' entries, no footer on the first page and `Page k of N-1` on page k + 1 |
| OutlineDoc.FooterCount | convert_s2t.py:101-102 | in the finished document the first page has no footer and every other page has one |
| OutlineDoc.ChapterNavigation | convert_s2t.py:130-141 | for any pagination of the story that keeps each item whole, the registered navigation is, for each chapter line i in input order, Bookmark(`chap_<i>`) then Outline(lines[i], `chap_<i>`, 0, closed), and nothing else |

## Left out

- Simplified-to-Traditional conversion (OpenCC) is not modelled. The lines are taken as already converted and stripped.
- File reading, the font check and registration, the output path and the command-line handling are not modelled. They are I/O.
- Reportlab's layout is not modelled: paragraph heights, CJK word wrap, styles and spacing, and the placement of flowables on pages. The pagination is a parameter of `OutlineDoc`.
- OutlineDoc.ChapterNavigation: a pagination places each item whole on one page. Reportlab can split a paragraph that does not fit into new paragraphs on consecutive pages, and the chapter attributes stay on the original object only, so a split heading would register its entries zero times or more than once. Split headings are not modelled, and the same limit applies to `OutlineDoc.RenderRoundTrip` and `OutlineDoc.Pass1Captures`.
- The `<b>…</b>` markup around the title and heading text is not modelled. It only affects presentation, so the model stores the plain line.
- Story.LineItems: each line is handed to reportlab as paragraph markup, so `<`, `>` and `&` in a line are interpreted, and malformed markup makes `Paragraph` raise and aborts the build. The model treats every line as plain text and is total; that error path is not modelled.
- The drawing in `draw_page_number` (font, separator line, colours, position) is not modelled. Only the footer text is.
- The snapshot of the canvas's whole `__dict__` is not modelled. A snapshot holds the page content, which is opaque, together with the page number and the entries.
- Reportlab's own page counter is assumed to start at 1 and to go up by one at each page start. That code is not part of this model.
- Heading.IsNumeral: `\d` is taken as the ASCII digits 0-9. Python's `\d` also matches other Unicode decimal digits, and those are not modelled.
