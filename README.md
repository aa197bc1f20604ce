# Algorithmic Layout Analyzer — a Dafny model of its layout core

The Algorithmic Layout Analyzer reads a résumé PDF and works out its
structure from the geometry and typography of the extracted text. It finds
which lines are section titles, where the page splits into two columns,
which blocks belong to each column and which section each block is in.
This project models that core in Dafny and proves properties of the model.

The model covers two components.

**Header extraction** (`header_extractor.py`):
- the text normalisation `_clean_text`;
- the Line Builder `_get_lines_with_style`, which turns the spans of every
  extracted line into one record carrying its style;
- `_merge_split_headers`, which re-joins a section title the PDF broke over
  two lines;
- the two-pass classification in `extract`. The first pass scores each line
  against the keyword dictionary and its visual prominence. The dominant
  style of the accepted lines becomes a profile. The second pass keeps the
  lines that match the profile.

**Layout engine** (`layout_engine.py`):
- the text blocks of the first page, sorted by top edge;
- the average gap below a heading block;
- the search for the first pair of side-by-side blocks, which marks the
  start of the two columns;
- the header band above that split;
- the split of the body blocks at the mean of their left edges;
- the three reconciliation passes A, B and C that move blocks between the
  columns;
- the section boxes that `draw_section_boundaries` draws around each
  column's sections.

Modules, in dependency order:

| module | file | models |
|---|---|---|
| `Lists` | lists.dfy | `sum`/`len` means, `Counter.most_common(1)`, the stable `list.sort`, `list.remove` |
| `Text` | text.dfy | `\w`/`\s`, `lower`, `strip`, `isupper`, `split`, `replace(" ", "")`, substring `in` |
| `Geometry` | geometry.dfy | PyMuPDF rectangles: union, adding `(d, d, d, d)`, padding |
| `Page` | page.dfy | the span, line and block records of `page.get_text("dict")` |
| `Keywords` | keywords.dfy | `HEADER_PATTERNS`, `SPACELESS_HEADERS` and the three keyword tests |
| `LineBuilder` | line_builder.dfy | `_get_lines_with_style` |
| `HeaderMerge` | header_merge.dfy | `_merge_split_headers` |
| `HeaderClassifier` | header_classifier.dfy | the two passes of `extract`, bounded to two passes |
| `HeaderLoop` | header_loop.dfy | the `while True` loop of `extract` as written |
| `LayoutBlocks` | layout_blocks.dfy | text blocks, header gap, split search |
| `Bands` | bands.dfy | the initial header/body classification |
| `Columns` | columns.dfy | dynamic center and passes A, B, C |
| `Sections` | sections.dfy | `draw_section_boundaries` |
| `LayoutEngine` | layout_engine.dfy | `generate_layout_debug_pdf` as a whole |

The model fixes these representations:
- Font sizes are integers in tenths of a point. A line's size is the exact
  mean of its spans in tenths. `round(size, 1)` becomes `RoundTenth`, which
  rounds halves up.
- Coordinates are reals.
- Blocks in the layout engine are positions in the top-sorted list of text
  blocks. PyMuPDF block dictionaries differ from each other, so the source's
  `b in left_col` membership tests and `remove` calls are identity tests,
  and positions express that directly.
- `headings` is the list of the header texts (`h["text"]`) that `extract`
  returned.
- Each loop of the source is a method proved equal to a specification
  function. The properties are lemmas about those functions.

The model follows the code where the code and the written design disagree:
- A block above the split counts as small-font body text when ANY of its
  spans is at most 2 pt above the body size (line 142), not when every span
  is.
- A page without a split draws every block as body and draws no section
  boxes (lines 117-121).
- Every section's caption is its first block's text, including the section
  of blocks before the first heading (lines 25 and 39).
- Pass C appends its moves to the left column without sorting again, so the
  final left column need not be in top order (lines 235-237).
- The average header gap is computed from the text blocks that contain a
  heading. It fails with an index error when the last block, at position 1
  or later, contains a heading (lines 83-86). The model returns `GapError`
  there.
- A page with no text block returns nothing (lines 76-78). The model
  returns `NoText`.

## Model

| member | source | states |
|---|---|---|
| `Text.LowerChar` | header_extractor.py:23 | lower-casing maps upper-case letters to lower-case, leaves every other character alone and keeps word and space characters |
| `Text.Lower` | header_extractor.py:23 | `lower()` keeps the length and lower-cases each character in place |
| `Text.DropPunctuationShape` | header_extractor.py:23 | the regex removal leaves only word and space characters, and leaves text without punctuation unchanged |
| `Text.StripLeftShape` | header_extractor.py:23 | left stripping drops exactly the leading whitespace |
| `Text.StripRightShape` | header_extractor.py:23 | right stripping drops exactly the trailing whitespace |
| `Text.StripShape` | header_extractor.py:23 | `strip()` returns a slice of its input with no whitespace at either end, and everything it removed is whitespace |
| `Text.StripTrimmed` | header_extractor.py:23 | `strip()` leaves text without whitespace at its ends unchanged |
| `Text.StripEmpty` | header_extractor.py:36 | a span's text strips to empty exactly when it is all whitespace |
| `Text.StripChars` | header_extractor.py:23 | every character of the stripped text occurs in the input |
| `Text.LowerPlain` | header_extractor.py:23 | lower-casing text of word and space characters leaves no upper-case letter |
| `Text.CleanShape` | header_extractor.py:21-23 | the cleaned text has no punctuation, no upper-case letter and no whitespace at either end |
| `Text.CleanIdempotent` | header_extractor.py:21-23 | cleaning cleaned text changes nothing |
| `Text.RemoveSpacesShorter` | header_extractor.py:127 | `replace(" ", "")` never lengthens text and leaves no space |
| `Text.RemoveSpacesNone` | header_extractor.py:127 | removing spaces from text without spaces changes nothing |
| `Text.WordCountNoSpace` | header_extractor.py:122 | `len(text.split())` of text without whitespace is 1, or 0 when it is empty |
| `Keywords.ListsExactlyIn` | header_extractor.py:130 | the exact keyword test holds exactly when the text is one of the patterns |
| `Keywords.ListsSpacelessIn` | header_extractor.py:132 | the spaceless test holds exactly when the text is some pattern with its spaces removed |
| `Keywords.ListsPartOfIn` | header_extractor.py:137 | the partial test holds exactly when some pattern occurs inside the text |
| `Keywords.KeywordLengths` | header_extractor.py:8-16 | no pattern is longer than 25 characters |
| `Keywords.KeywordIsPart` | header_extractor.py:130-137 | an exact keyword also passes the partial test |
| `Keywords.LongTextIsNoKeyword` | header_extractor.py:130-132 | text longer than 25 characters is no keyword, with or without spaces |
| `Keywords.LongWordIsNoKeyword` | header_extractor.py:130-132 | a long word without spaces is no keyword, before or after removing spaces |
| `Keywords.SkillsPart` | header_extractor.py:137 | text starting with "skills" passes the partial test |
| `Keywords.SkillsOnlyPartly` | header_extractor.py:122-138 | a long lower-case word starting with "skills" is at most ten words, is no keyword, and passes only the partial test |
| `LineBuilder.MeanSizeTimes` | header_extractor.py:44 | the mean span size times the number of spans is their total size |
| `LineBuilder.BuildLine` | header_extractor.py:33-62 | the span loop builds the record of `LineOf`: None for a line whose spans are all blank |
| `LineBuilder.LinesOfBlock` | header_extractor.py:32-62 | the line loop yields the records of the block's non-blank lines, in order |
| `LineBuilder.LinesWithStyle` | header_extractor.py:25-64 | the page's line records, sorted by top y: a permutation of the records of every text block, in y order |
| `LineBuilder.KeptMembers` | header_extractor.py:35-38 | the kept spans are exactly the spans whose text is not blank |
| `LineBuilder.KeptFirst` | header_extractor.py:35-38 | the first kept span is the first non-blank span; no kept span means every span is blank |
| `LineBuilder.JoinedBlank` | header_extractor.py:36-41 | the joined text of non-blank spans is all whitespace only when there are no spans |
| `LineBuilder.LineOfPresent` | header_extractor.py:35-41 | a line is skipped exactly when every span's text is blank |
| `LineBuilder.LineOfText` | header_extractor.py:40-58 | the record's text is non-empty and stripped; upper-case iff longer than 3 and `isupper()`; bullet iff it starts with a bullet glyph, '-' or '*' |
| `LineBuilder.LineOfFields` | header_extractor.py:43-46 | a recorded line has kept spans, and its bold flag, font and size come from them |
| `LineBuilder.KeptBold` | header_extractor.py:45 | some kept span is bold exactly when some non-blank span's font contains "bold" |
| `LineBuilder.LineOfBold` | header_extractor.py:45 | the line is bold iff the font of some non-blank span contains "bold" in any case |
| `LineBuilder.LineOfFontAndSize` | header_extractor.py:44-46 | the font is that of the first non-blank span; the size is the mean size of the non-blank spans |
| `HeaderMerge.TryMerge` | header_extractor.py:72-90 | two adjacent lines merge exactly when same-styled, bold or upper-case, and their joined cleaned text is a keyword with or without spaces; the merged record keeps the first line's style |
| `HeaderMerge.MergeSplitHeaders` | header_extractor.py:66-93 | the scan returns the greedy left-to-right merge `Merged` |
| `HeaderMerge.MergedLength` | header_extractor.py:66-93 | merging never adds lines; it removes some iff some adjacent pair qualifies, and otherwise changes nothing |
| `HeaderMerge.MergedFrom` | header_extractor.py:78-91 | every output record is an input line or the join of a qualifying adjacent pair |
| `HeaderMerge.MergedKeepsText` | header_extractor.py:86 | the texts, joined by spaces, read the same before and after merging |
| `HeaderMerge.MergedKeepsClean` | header_extractor.py:79-87 | the cleaned texts, joined by spaces, read the same before and after merging |
| `Lists.MostCommon` | header_extractor.py:106 | `most_common(1)[0][0]` is a value of the list |
| `Lists.MostCommonMax` | header_extractor.py:106 | no value of the list is more frequent than the most common one |
| `Lists.MostCommonIs` | header_extractor.py:106 | a value strictly more frequent than every other value is the most common one |
| `Lists.MostCommonFirst` | header_extractor.py:106 | among equally frequent values, the most common is the first seen |
| `Lists.MeanReached` | header_extractor.py:181 | some element of a non-empty list is at least its mean |
| `Lists.SortByShape` | header_extractor.py:63 | `sort(key=...)` returns a permutation of its input in key order |
| `Lists.SortBySorted` | layout_engine.py:157 | sorting a list already in key order leaves it unchanged |
| `Lists.WithoutMember` | layout_engine.py:189-191 | a block stays in the source column exactly when it is there and not in the work list |
| `Lists.RemoveWithout` | layout_engine.py:189-190 | removing one more block from a list without duplicates extends the removed work list by it |
| `Lists.WithoutSplit` | layout_engine.py:189-191 | taking a work list of distinct members out of a list loses and duplicates nothing |
| `HeaderClassifier.RoundTenth` | header_extractor.py:105 | `round(size, 1)` is within half a tenth of the size |
| `HeaderClassifier.BodySizeIsMostFrequent` | header_extractor.py:105-106 | the body size is some line's rounded size, and no rounded size is more frequent |
| `HeaderClassifier.CandidateRule` | header_extractor.py:121-151 | a line passes pass 1 iff it is no bullet, has at most ten words, and is an exact keyword or contains one while being larger than body + 1 pt or both bold and upper case |
| `HeaderClassifier.ProfileIsMostFrequent` | header_extractor.py:184-189 | each profile field is a value of some pass-1 header that no other value outnumbers |
| `HeaderClassifier.CollectExtends` | header_extractor.py:155-157 | collecting keeps what was collected and adds only accepted input lines |
| `HeaderClassifier.CollectDistinct` | header_extractor.py:176-178 | no two collected lines share a text |
| `HeaderClassifier.CollectCovers` | header_extractor.py:155-157 | every accepted line's text ends up collected |
| `HeaderClassifier.CollectEmpty` | header_extractor.py:155-178 | nothing is collected iff no line is accepted |
| `HeaderClassifier.CollectAll` | header_extractor.py:155-157 | when every line is accepted and the texts differ, all lines are collected in order |
| `HeaderClassifier.CollectMembers` | header_extractor.py:155-178 | every collected line is an accepted input line |
| `HeaderClassifier.FirstPass` | header_extractor.py:117-157 | the first-pass loop collects, once per text, the lines that score at least 3 |
| `HeaderClassifier.SecondPass` | header_extractor.py:160-178 | the second-pass loop collects, once per text, the lines the profile confirms |
| `HeaderClassifier.Extract` | header_extractor.py:95-194 | reading every page, merging and the two passes return `Classify` of the document's lines |
| `HeaderClassifier.ClassifyHeaders` | header_extractor.py:180-194 | the headers are the confirmed lines if any, else the pass-1 candidates |
| `HeaderClassifier.ClassifyDrawsFromLines` | header_extractor.py:155-178 | the headers are merged document lines with pairwise different texts |
| `HeaderClassifier.ClassifyFindsAny` | header_extractor.py:184-191 | headers are found iff some merged line passes pass 1 |
| `HeaderClassifier.ClassifyConfirmed` | header_extractor.py:160-182 | when the profile confirms a line, the headers are exactly the confirmed lines, one per text |
| `HeaderClassifier.ClassifyFallback` | header_extractor.py:184-194 | when the profile confirms none, the headers are exactly the pass-1 candidates, one per text |
| `HeaderClassifier.ClassifyHeight` | header_extractor.py:181 | the reported height is the mean block height of the headers, and some header's block is at least that tall |
| `HeaderLoop.RunsStalled` | header_extractor.py:116-191 | a loop whose body leaves its state unchanged never returns |
| `HeaderLoop.SourceFirstRound` | header_extractor.py:116-191 | the first iteration runs pass 1 alone: no candidates returns empty, else the profile is set |
| `HeaderLoop.SourceStalls` | header_extractor.py:116-191 | after a productive first round whose profile confirms nothing, the next round leaves the state unchanged |
| `HeaderLoop.SourceHangs` | header_extractor.py:116-191 | with candidates but no confirmed line, the loop has not returned after any number of iterations |
| `HeaderLoop.SourceAgrees` | header_extractor.py:116-194 | whenever the loop as written returns, it returns what `Classify` returns |
| `HeaderLoop.StallingExample` | header_extractor.py:116-191 | on five concrete lines the loop as written never returns, while `Classify` returns all five as headers |
| `Geometry.Union` | layout_engine.py:21 | the union of two rectangles encloses both and lies inside every rectangle that does |
| `Geometry.Shift` | layout_engine.py:22 | `r += (d, d, d, d)` keeps width and height: it moves the rectangle |
| `Geometry.Pad` | layout_engine.py:22 | growing a rectangle by `d >= 0` on every side encloses it |
| `LayoutBlocks.BuildFullText` | layout_engine.py:68-73 | the span loop builds `full_text`: each span's text and a space, a newline after each line |
| `LayoutBlocks.SortedTextBlocks` | layout_engine.py:63-80 | the text blocks, images skipped, sorted by top: a permutation in top order |
| `LayoutBlocks.EqualsIsContains` | layout_engine.py:198-203 | a block whose text equals a heading also contains it |
| `LayoutBlocks.AvgHeaderGap` | layout_engine.py:82-87 | the gap loop returns `HeaderGap`: None exactly when the last block (position 1 or later) contains a heading, else the mean of the recorded gaps |
| `LayoutBlocks.GapsAre` | layout_engine.py:82-86 | the recorded gaps are exactly the gaps below heading blocks at position 1 or later that have a next block |
| `LayoutBlocks.HeaderGapZero` | layout_engine.py:87 | the average gap is 0 when no such heading block exists |
| `LayoutBlocks.FindSplit` | layout_engine.py:91-112 | the nested search returns `ScanSplit` |
| `LayoutBlocks.FindPartner` | layout_engine.py:100-112 | the inner loop returns `ScanPartner`, with its early exit |
| `LayoutBlocks.ScanPartnerIsFirst` | layout_engine.py:100-103 | on top-sorted blocks the early exit skips no partner |
| `LayoutBlocks.ScanSplitIsFirst` | layout_engine.py:94-112 | on top-sorted blocks the search as written equals the exhaustive reference search |
| `LayoutBlocks.FirstPartnerFinds` | layout_engine.py:100-112 | the reference inner search finds a partner iff one exists, and then the first one |
| `LayoutBlocks.FirstSplitFinds` | layout_engine.py:94-112 | a split is found iff some wide, vertically overlapping, horizontally separated pair exists; its value is the min of the tops of the first such pair: no earlier `b1` has any partner and no earlier `b2` pairs with this `b1` |
| `LayoutBlocks.StackedHasNoSplit` | layout_engine.py:94-112 | blocks stacked one below the other give no split |
| `Bands.ClassifyBands` | layout_engine.py:132-154 | the classification loop returns the header and body bands |
| `Bands.BandMembers` | layout_engine.py:132-154 | the body band holds exactly the positions classified body, the header band the others |
| `Bands.BodyStaysBody` | layout_engine.py:140-148 | once a block is body, every later block is body |
| `Bands.BandsSplit` | layout_engine.py:128-154 | the header band is a leading run of the blocks and the body band is the rest |
| `Bands.BandRules` | layout_engine.py:134-154 | a header-band block is above the split, holds no heading, has no small span and follows a header-band block or is first; others are body |
| `Columns.SplitAtCenter` | layout_engine.py:160-178 | the geometric split returns `InitialColumns` |
| `Columns.SideMembers` | layout_engine.py:170-174 | a body block goes left exactly when its left edge is left of the center |
| `Columns.SidesPartition` | layout_engine.py:170-174 | the two sides hold every body block once |
| `Columns.InitialSplit` | layout_engine.py:165-178 | the center is the mean left edge; the columns partition the body, are in top order, split by left edge, and the right one is not empty |
| `Columns.MoveBlocks` | layout_engine.py:189-191 | the move loop returns `MoveAll` |
| `Columns.MoveAllIs` | layout_engine.py:189-191 | moving distinct members removes exactly them, keeping order, and appends them to the other column |
| `Columns.MoveKeeps` | layout_engine.py:189-191 | a move loses and duplicates no block |
| `Columns.MovePartitions` | layout_engine.py:189-191 | a move between the columns of a partition keeps it a partition |
| `Columns.CollectMovesA` | layout_engine.py:181-187 | the pass-A loop with its `break` returns `MovesA` |
| `Columns.MovesAMembers` | layout_engine.py:181-187 | pass A moves exactly the left blocks not above the split that precede the first block containing a heading |
| `Columns.MovesAPart` | layout_engine.py:181-187 | the pass-A moves are part of the left column |
| `Columns.PassAMoves` | layout_engine.py:180-191 | after pass A the left column is the old one without the moves and the right column has them appended |
| `Columns.PassAPartitions` | layout_engine.py:180-191 | pass A keeps the columns a partition of the body |
| `Columns.FindAnchor` | layout_engine.py:201-207 | the inner loop finds an anchoring heading block above the block iff one exists |
| `Columns.CollectMovesB` | layout_engine.py:194-209 | the pass-B loop returns `MovesB` |
| `Columns.MovesBMembers` | layout_engine.py:196-209 | pass B moves exactly the right blocks that are not a heading and that no heading above anchors |
| `Columns.MovesBPart` | layout_engine.py:194-209 | the pass-B moves are part of the right column |
| `Columns.PassBKeepsHeadings` | layout_engine.py:196-209 | a right block moves iff its text is no heading and no heading block above anchors it |
| `Columns.PassBMoves` | layout_engine.py:193-217 | after pass B the left column holds its blocks and the moves, the right column the rest, both in top order |
| `Columns.PassBPartitions` | layout_engine.py:193-217 | pass B keeps the columns a partition of the body |
| `Columns.CollectMovesC` | layout_engine.py:221-234 | the pass-C loop returns `MovesC` |
| `Columns.GapFlagRule` | layout_engine.py:221-234 | `gap_found` is set after step j iff some step i <= j saw a wide gap to a block without a heading and no block from i to j contains a heading |
| `Columns.MovesCMembers` | layout_engine.py:223-234 | pass C moves exactly the blocks that follow a step ending with the flag set |
| `Columns.MovesCPart` | layout_engine.py:223-234 | the pass-C moves after k steps are part of the right column after its first block |
| `Columns.GapKeepsFirst` | layout_engine.py:223-234 | the first right block never moves in pass C |
| `Columns.MovesCWithin` | layout_engine.py:223-237 | the pass-C moves are part of the right column |
| `Columns.PassCMoves` | layout_engine.py:219-237 | when pass C runs, its moves leave the right column in order and are appended to the left one |
| `Columns.PassCPartitions` | layout_engine.py:219-237 | pass C keeps the columns a partition of the body |
| `Columns.RunPassA` | layout_engine.py:180-191 | collecting and moving returns `PassA` |
| `Columns.RunPassB` | layout_engine.py:193-217 | collecting, moving and sorting returns `PassB` |
| `Columns.RunPassC` | layout_engine.py:219-237 | pass C runs only for a positive height and gap and returns `PassC` |
| `Columns.ArrangeColumns` | layout_engine.py:160-237 | the center split and passes A, B, C return `Arrange` |
| `Columns.ArrangePartitions` | layout_engine.py:160-237 | every body block ends in exactly one column |
| `Sections.ContainsHeadingStarts` | layout_engine.py:14 | a block containing a heading as written also matches it without case |
| `Sections.Group` | layout_engine.py:10-31 | there are sections iff the column has blocks, and every section is non-empty |
| `Sections.GroupConcat` | layout_engine.py:10-31 | the sections hold the column's blocks in column order, each once |
| `Sections.GroupStarts` | layout_engine.py:12-31 | every section but the first opens with a heading block, and no other block is one |
| `Sections.UnionOfEncloses` | layout_engine.py:35-37 | the union of a section encloses every block of it |
| `Sections.UnionOfLeast` | layout_engine.py:35-37 | the union lies inside every rectangle enclosing the section's blocks |
| `Sections.GroupBox` | layout_engine.py:35-37 | the union loop returns `UnionOf` |
| `Sections.ShiftedMissesFirst` | layout_engine.py:19-22 | as written, a section of two or more blocks starting with its leftmost block gets a rectangle that misses that block |
| `Sections.SectionBoxFits` | layout_engine.py:19-22 | the drawn rectangle encloses every block with one point to spare and is the smallest such |
| `Sections.DrawSectionBoundaries` | layout_engine.py:3-39 | the section loop draws one boundary per section, in order, captioned with its first block's text |
| `LayoutEngine.TwoColumnPage` | layout_engine.py:124-276 | the two-column branch returns `TwoColumnLayout` |
| `LayoutEngine.AnalyzeBlocks` | layout_engine.py:76-276 | the analysis of the sorted blocks returns `LayoutOfBlocks` |
| `LayoutEngine.AnalyzeLayout` | layout_engine.py:52-280 | the analysis of a page returns `LayoutOf` |
| `LayoutEngine.TwoColumnCovers` | layout_engine.py:128-237 | on a two-column page every block is in exactly one of the header band and the two columns, and the header band is the first blocks in top order |
| `LayoutEngine.LayoutOutcomes` | layout_engine.py:76-126 | no text iff no text block; gap error iff the page has two or more blocks and the last one contains a heading; single column iff no split pair; otherwise the threshold is 5 pt above the first split pair (earliest `b1`, then its earliest `b2`) |

## Left out

- app.py, the Streamlit page that uploads a PDF and shows the results, is not part of this model.
- PyMuPDF is not modelled. Opening the PDF and `page.get_text("dict")` become parameters: the pages' blocks, as `Page.PageBlock` values.
- Drawing is not modelled: `draw_rect`, `insert_text`, `draw_line`, the colours, font sizes and `doc.write()`. The model returns the values the drawing calls use: the header band, the columns, the threshold and the section boundaries.
- The debug `print` calls are left out; they do not affect control flow.
- `header_text` (layout_engine.py:158) is computed but never used, so it is left out.
- Floating point is not modelled. Coordinates are exact reals and sizes are integer tenths of a point. `round(x, 1)` rounds halves up, while Python rounds the nearest binary float.
- Character classes, `lower`, `strip` and `isupper` are modelled on ASCII only. Non-ASCII letters count as punctuation, and the regex engine is not modelled.
- `_merge_split_headers` writes the merged text into the line dictionary itself (header_extractor.py:86-87), so the merge changes a shared record. The model builds new values, so that aliasing is not captured.
- The layout engine compares blocks by position rather than by dictionary equality. Two text blocks with equal dictionaries would be one block to the source's `in` and `remove`.
- `list.sort` is modelled as a stable insertion sort. It gives the same result as Python's stable sort.
- HeaderClassifier.Extract: where the loop as written never returns, this returns the pass-1 candidates (see Findings). `HeaderLoop` models the loop as written.
- Sections.DrawSectionBoundaries: draws every section's union grown by one point, not the shifted rectangle as written, and not the ungrown last section (see Findings). `Sections.ShiftedUnionOf` models the rectangle as written.
- LayoutEngine.AnalyzeLayout: returns the layout value instead of the bytes of the annotated PDF.

## Findings

| source | as written | input that shows it | evidently intended | confidence | as-written member | corrected member |
|---|---|---|---|---|---|---|
| header_extractor.py:116-191 | After pass 2 confirms nothing, the `while True` loop repeats it with the same profile and never leaves | five one-word upper-case lines containing "skills", 26 to 30 characters long, at 12, 14, 12, 16 and 18 pt, only the two 12 pt lines bold: all pass pass 1, the profile is 12 pt and not bold, and no line matches it | return the pass-1 candidates when pass 2 confirms none | not executed | `HeaderLoop.StallingExample` | `HeaderClassifier.ClassifyFallback` |
| layout_engine.py:19-22 | `union_rect += (1, 1, 1, 1)` sits inside the union loop and adds 1 to every coordinate, moving the rectangle one point right and down per extra block; the last section (lines 35-37) is not grown at all | a section of blocks (0, 0, 10, 10) and (0, 20, 10, 30) closed by a heading block is drawn at (1, 1, 11, 31), which misses its first block | every section's union grown by one point on each side | not executed | `Sections.ShiftedMissesFirst` | `Sections.SectionBoxFits` |
