/** `generate_layout_debug_pdf` without the drawing calls: the text blocks
    of the first page sorted by top edge, the average gap after a heading
    block, the split search, and for a two-column page the header band, the
    two columns and the section boxes of each column. */
module LayoutEngine {
  import opened Lists
  import opened Page
  import opened LayoutBlocks
  import opened Bands
  import opened Columns
  import opened Sections

  /** What the debug page shows. */
  datatype Layout =
    | NoText                            // no text block: nothing is drawn or returned
    | GapError                          // the header-gap loop indexes past the last block
    | SingleColumn(blocks: seq<Block>)  // no split: every block is drawn as body
    | TwoColumn(blocks: seq<Block>, threshold: real, header: seq<nat>, cols: Columns,
                leftSections: seq<Boundary>, rightSections: seq<Boundary>)

  /** `min_col_width`: 5% of the page width. */
  function MinColumnWidth(pageWidth: real): real { pageWidth * 0.05 }

  /** The two-column branch for a split found at `split`. */
  function TwoColumnLayout(blocks: seq<Block>, headings: seq<string>, bodySize: int, avgHeight: real,
                           gap: real, split: real): Layout
  {
    var threshold := split - 5.0;
    var header := Band(blocks, threshold, headings, bodySize, |blocks|, false);
    var body := Band(blocks, threshold, headings, bodySize, |blocks|, true);
    var cols := Arrange(blocks, threshold, headings, body, gap, avgHeight);
    TwoColumn(blocks, threshold, SortBy(header, TopAt(blocks)), cols,
              Boundaries(blocks, Group(blocks, headings, cols.left)),
              Boundaries(blocks, Group(blocks, headings, cols.right)))
  }

  /** The analysis of the text blocks of a page, sorted by top edge. */
  function LayoutOfBlocks(blocks: seq<Block>, pageWidth: real, headings: seq<string>, bodySize: int,
                          avgHeight: real): Layout
  {
    if blocks == [] then NoText
    else match HeaderGap(blocks, headings) {
      case None => GapError
      case Some(gap) =>
        match ScanSplit(blocks, MinColumnWidth(pageWidth), 0) {
          case None => SingleColumn(blocks)
          case Some(split) => TwoColumnLayout(blocks, headings, bodySize, avgHeight, gap, split)
        }
    }
  }

  /** The whole analysis of one page. */
  function LayoutOf(page: seq<PageBlock>, pageWidth: real, headings: seq<string>, bodySize: int,
                    avgHeight: real): Layout
  {
    LayoutOfBlocks(SortBy(TextBlocksOf(page), Top), pageWidth, headings, bodySize, avgHeight)
  }

  method TwoColumnPage(blocks: seq<Block>, headings: seq<string>, bodySize: int, avgHeight: real,
                       gap: real, split: real) returns (layout: Layout)
    ensures layout == TwoColumnLayout(blocks, headings, bodySize, avgHeight, gap, split)
  {
    var threshold := split - 5.0;
    var header, body := ClassifyBands(blocks, threshold, headings, bodySize);
    header := SortBy(header, TopAt(blocks));
    var cols := ArrangeColumns(blocks, threshold, headings, body, gap, avgHeight);
    var leftSections := DrawSectionBoundaries(blocks, headings, cols.left);
    var rightSections := DrawSectionBoundaries(blocks, headings, cols.right);
    layout := TwoColumn(blocks, threshold, header, cols, leftSections, rightSections);
  }

  method AnalyzeBlocks(blocks: seq<Block>, pageWidth: real, headings: seq<string>, bodySize: int,
                       avgHeight: real) returns (layout: Layout)
    ensures layout == LayoutOfBlocks(blocks, pageWidth, headings, bodySize, avgHeight)
  {
    if blocks == [] {
      return NoText;
    }
    var gap := AvgHeaderGap(blocks, headings);
    if gap.None? {
      return GapError;
    }
    var split := FindSplit(blocks, MinColumnWidth(pageWidth));
    if split.None? {
      return SingleColumn(blocks);
    }
    layout := TwoColumnPage(blocks, headings, bodySize, avgHeight, gap.value, split.value);
  }

  method AnalyzeLayout(page: seq<PageBlock>, pageWidth: real, headings: seq<string>, bodySize: int,
                       avgHeight: real) returns (layout: Layout)
    ensures layout == LayoutOf(page, pageWidth, headings, bodySize, avgHeight)
  {
    var blocks := SortedTextBlocks(page);
    layout := AnalyzeBlocks(blocks, pageWidth, headings, bodySize, avgHeight);
  }

  // ---------------------------------------------------------------------
  // Properties

  /** Each position from `a` to `b - 1` occurs once in `Range(a, b)`. */
  lemma {:induction false} RangeCount(a: nat, b: nat, x: nat)
    requires a <= b
    ensures multiset(Range(a, b))[x] == if a <= x < b then 1 else 0
  {
    if a < b {
      var r := Range(a, b - 1);
      RangeCount(a, b - 1, x);
      assert Range(a, b) == r + [b - 1];
      assert multiset(Range(a, b)) == multiset(r) + multiset{b - 1};
    }
  }

  lemma RangeDistinct(a: nat, b: nat)
    requires a <= b
    ensures Distinct(Range(a, b))
  {
    forall x ensures multiset(Range(a, b))[x] <= 1 {
      if x >= 0 {
        RangeCount(a, b, x);
      }
    }
  }

  /** The leading run `Range(0, f)` and the rest together are every position once. */
  lemma RangeSplit(f: nat, n: nat)
    requires f <= n
    ensures multiset(Range(0, f)) + multiset(Range(f, n)) == multiset(Range(0, n))
  {
    forall x ensures multiset(Range(0, f))[x] + multiset(Range(f, n))[x] == multiset(Range(0, n))[x] {
      if x >= 0 {
        RangeCount(0, f, x);
        RangeCount(f, n, x);
        RangeCount(0, n, x);
      }
    }
  }

  /** A leading run of blocks sorted by top is already in top order. */
  lemma RangeSorted(blocks: seq<Block>, f: nat)
    requires f <= |blocks| && SortedBy(blocks, Top)
    ensures SortedBy(Range(0, f), TopAt(blocks))
  {
    forall i, j | 0 <= i < j < f ensures TopAt(blocks)(Range(0, f)[i]) <= TopAt(blocks)(Range(0, f)[j]) {
      assert Top(blocks[i]) <= Top(blocks[j]);
    }
  }

  /** The header band and the two columns hold every block once, and the
      header band, sorted by top, is the first blocks in top order. */
  lemma BandsAndColumnsCover(blocks: seq<Block>, threshold: real, headings: seq<string>, bodySize: int,
                             gap: real, avgHeight: real, f: nat)
    requires SortedBy(blocks, Top) && f <= |blocks|
    requires Band(blocks, threshold, headings, bodySize, |blocks|, false) == Range(0, f)
    requires Band(blocks, threshold, headings, bodySize, |blocks|, true) == Range(f, |blocks|)
    ensures var cols := Arrange(blocks, threshold, headings, Range(f, |blocks|), gap, avgHeight);
      multiset(Range(0, f)) + multiset(cols.left) + multiset(cols.right) == multiset(Range(0, |blocks|))
    ensures SortBy(Range(0, f), TopAt(blocks)) == Range(0, f)
  {
    RangeDistinct(f, |blocks|);
    ArrangePartitions(blocks, threshold, headings, Range(f, |blocks|), gap, avgHeight);
    RangeSorted(blocks, f);
    SortBySorted(Range(0, f), TopAt(blocks));
    RangeSplit(f, |blocks|);
  }

  /** On a two-column page every text block is drawn exactly once, as part
      of the header band, the left column or the right column; the header
      band is the first blocks in top order. */
  lemma TwoColumnCovers(blocks: seq<Block>, headings: seq<string>, bodySize: int, avgHeight: real,
                        gap: real, split: real)
    requires SortedBy(blocks, Top)
    ensures var layout := TwoColumnLayout(blocks, headings, bodySize, avgHeight, gap, split);
      multiset(layout.header) + multiset(layout.cols.left) + multiset(layout.cols.right) ==
        multiset(Range(0, |blocks|))
    ensures exists f: nat :: (f <= |blocks| &&
      TwoColumnLayout(blocks, headings, bodySize, avgHeight, gap, split).header == Range(0, f))
  {
    var threshold := split - 5.0;
    BandsSplit(blocks, threshold, headings, bodySize);
    var f: nat :| f <= |blocks| &&
      Band(blocks, threshold, headings, bodySize, |blocks|, false) == Range(0, f) &&
      Band(blocks, threshold, headings, bodySize, |blocks|, true) == Range(f, |blocks|);
    BandsAndColumnsCover(blocks, threshold, headings, bodySize, gap, avgHeight, f);
  }

  /** The four outcomes of the analysis: no text block; the header-gap error
      when a page of two or more blocks ends with a heading block; a single column exactly when
      no two wide blocks sit side by side overlapping vertically; otherwise
      two columns whose threshold lies 5 pt above the top of the first such
      pair (earliest `b1`, then its earliest partner `b2`). */
  lemma LayoutOutcomes(page: seq<PageBlock>, pageWidth: real, headings: seq<string>, bodySize: int,
                       avgHeight: real, blocks: seq<Block>)
    requires blocks == SortBy(TextBlocksOf(page), Top)
    ensures LayoutOf(page, pageWidth, headings, bodySize, avgHeight).NoText? <==> TextBlocksOf(page) == []
    ensures LayoutOf(page, pageWidth, headings, bodySize, avgHeight).GapError? <==>
      blocks != [] && GapFails(blocks, headings)
    ensures LayoutOf(page, pageWidth, headings, bodySize, avgHeight).SingleColumn? <==>
      blocks != [] && !GapFails(blocks, headings) &&
      forall a, b :: 0 <= a < b < |blocks| ==> !SplitPair(blocks, MinColumnWidth(pageWidth), a, b)
    ensures LayoutOf(page, pageWidth, headings, bodySize, avgHeight).TwoColumn? ==>
      exists a, b :: FirstSplitPair(blocks, MinColumnWidth(pageWidth), 0, a, b) &&
        LayoutOf(page, pageWidth, headings, bodySize, avgHeight).threshold == SplitY(blocks, a, b) - 5.0
  {
    SortByShape(TextBlocksOf(page), Top);
    var minWidth := MinColumnWidth(pageWidth);
    ScanSplitIsFirst(blocks, minWidth, 0);
    FirstSplitFinds(blocks, minWidth, 0);
  }
}
