/** The text blocks the layout engine works on (`generate_layout_debug_pdf`,
    first part): every text block of the page with its concatenated text,
    sorted by top edge; the average gap after a heading block; and the
    search for the first pair of side-by-side blocks that marks the start
    of a two-column body. Blocks are identified by their position in the
    sorted list. */
module LayoutBlocks {
  import opened Text
  import opened Lists
  import opened Geometry
  import opened Page

  /** A text block with its `full_text`. */
  datatype Block = Block(box: Rect, lines: seq<RawLine>, fullText: string)

  function Top(b: Block): real { b.box.y0 }

  /** The block at position `i`; positions in the engine's lists always name
      a block, and an empty block stands in for any other. */
  function BlockAt(blocks: seq<Block>, i: nat): Block {
    if i < |blocks| then blocks[i] else Block(Rect(0.0, 0.0, 0.0, 0.0), [], "")
  }

  /** The sort key of `sort(key=lambda b: b["bbox"][1])` on positions. */
  function TopAt(blocks: seq<Block>): nat -> real {
    (i: nat) => BlockAt(blocks, i).box.y0
  }

  /** The positions `a` to `b - 1`, in order. */
  function Range(a: nat, b: nat): (r: seq<nat>)
    requires a <= b
    ensures |r| == b - a && forall k :: 0 <= k < |r| ==> r[k] == a + k
  {
    if a == b then [] else Range(a, b - 1) + [b - 1]
  }

  // ---------------------------------------------------------------------
  // Collecting the text blocks

  /** Every span's text followed by a space. */
  function SpanText(spans: seq<Span>): string {
    if spans == [] then [] else SpanText(spans[..|spans| - 1]) + spans[|spans| - 1].text + " "
  }

  /** `full_text`: the span texts of every line, each line closed by a newline. */
  function FullText(lines: seq<RawLine>): string {
    if lines == [] then [] else FullText(lines[..|lines| - 1]) + SpanText(lines[|lines| - 1].spans) + "\n"
  }

  /** The text blocks of the page in extraction order; image blocks are skipped. */
  function TextBlocksOf(page: seq<PageBlock>): seq<Block> {
    if page == [] then []
    else
      TextBlocksOf(page[..|page| - 1]) +
        match page[|page| - 1] {
          case ImageBlock(_) => []
          case TextBlock(box, lines) => [Block(box, lines, FullText(lines))]
        }
  }

  /** Builds `full_text` span by span. */
  method BuildFullText(lines: seq<RawLine>) returns (text: string)
    ensures text == FullText(lines)
  {
    text := "";
    var i := 0;
    while i < |lines|
      invariant 0 <= i <= |lines|
      invariant text == FullText(lines[..i])
    {
      assert lines[..i + 1][..i] == lines[..i];
      var spans := lines[i].spans;
      var k := 0;
      ghost var before := text;
      while k < |spans|
        invariant 0 <= k <= |spans|
        invariant text == before + SpanText(spans[..k])
      {
        assert spans[..k + 1][..k] == spans[..k];
        text := text + spans[k].text + " ";
        k := k + 1;
      }
      assert spans[..k] == spans;
      text := text + "\n";
      i := i + 1;
    }
    assert lines[..i] == lines;
  }

  /** The text blocks sorted by top edge (stably), as the engine works on them. */
  method SortedTextBlocks(page: seq<PageBlock>) returns (blocks: seq<Block>)
    ensures blocks == SortBy(TextBlocksOf(page), Top)
    ensures SortedBy(blocks, Top)
    ensures multiset(blocks) == multiset(TextBlocksOf(page))
  {
    blocks := [];
    var i := 0;
    while i < |page|
      invariant 0 <= i <= |page|
      invariant blocks == TextBlocksOf(page[..i])
    {
      assert page[..i + 1][..i] == page[..i];
      match page[i] {
        case ImageBlock(_) =>
        case TextBlock(box, lines) =>
          var text := BuildFullText(lines);
          blocks := blocks + [Block(box, lines, text)];
      }
      i := i + 1;
    }
    assert page[..i] == page;
    SortByShape(blocks, Top);
    blocks := SortBy(blocks, Top);
  }

  // ---------------------------------------------------------------------
  // Heading tests on a block's stripped text

  /** Some heading's text occurs in the block's stripped text. */
  predicate ContainsHeading(headings: seq<string>, b: Block) {
    exists h :: h in headings && IsSubstring(h, Strip(b.fullText))
  }

  /** The block's stripped text is exactly some heading's text. */
  predicate EqualsHeading(headings: seq<string>, b: Block) {
    Strip(b.fullText) in headings
  }

  /** A block whose stripped text equals a heading also contains it. */
  lemma EqualsIsContains(headings: seq<string>, b: Block)
    requires EqualsHeading(headings, b)
    ensures ContainsHeading(headings, b)
  {
    var t := Strip(b.fullText);
    assert OccursAt(t, t, 0);
  }

  // ---------------------------------------------------------------------
  // Average gap below a heading block

  /** The gap between block `i` and the next one. */
  function GapAfter(blocks: seq<Block>, i: nat): real
    requires i + 1 < |blocks|
  {
    blocks[i + 1].box.y0 - blocks[i].box.y1
  }

  /** The gaps recorded for heading blocks at positions 1 to `k - 1` that
      have a next block. */
  function Gaps(blocks: seq<Block>, headings: seq<string>, k: nat): seq<real>
    requires k <= |blocks|
  {
    if k <= 1 then []
    else
      Gaps(blocks, headings, k - 1) +
        if k < |blocks| && ContainsHeading(headings, blocks[k - 1]) then [GapAfter(blocks, k - 1)] else []
  }

  /** Looking up the block after the last one raises an IndexError when the
      last block (at position 1 or later) contains a heading. */
  predicate GapFails(blocks: seq<Block>, headings: seq<string>) {
    |blocks| >= 2 && ContainsHeading(headings, blocks[|blocks| - 1])
  }

  /** `avg_header_gap`, or None for the IndexError. */
  function HeaderGap(blocks: seq<Block>, headings: seq<string>): Option<real> {
    if GapFails(blocks, headings) then None else Some(Mean(Gaps(blocks, headings, |blocks|)))
  }

  /** The loop over positions `1..` collecting the gap after every heading
      block and averaging them. */
  method AvgHeaderGap(blocks: seq<Block>, headings: seq<string>) returns (gap: Option<real>)
    ensures gap == HeaderGap(blocks, headings)
  {
    var gaps: seq<real> := [];
    var i := 1;
    while i < |blocks|
      invariant 1 <= i && (i <= |blocks| || i == 1)
      invariant gaps == Gaps(blocks, headings, if i <= |blocks| then i else 0)
      invariant i == |blocks| >= 2 ==> !ContainsHeading(headings, blocks[i - 1])
    {
      if ContainsHeading(headings, blocks[i]) {
        if i + 1 == |blocks| {
          return None;
        }
        gaps := gaps + [blocks[i + 1].box.y0 - blocks[i].box.y1];
      }
      i := i + 1;
    }
    if |blocks| >= 2 {
      assert i == |blocks|;
    }
    return Some(Mean(gaps));
  }

  /** Every recorded gap is the gap after a heading block at position 1 or
      later that has a next block, and every such block records its gap. */
  lemma {:induction false} GapsAre(blocks: seq<Block>, headings: seq<string>, k: nat)
    requires k <= |blocks|
    ensures forall g :: g in Gaps(blocks, headings, k) ==>
      exists i :: 1 <= i < k && i + 1 < |blocks| && ContainsHeading(headings, blocks[i]) &&
        g == GapAfter(blocks, i)
    ensures forall i :: 1 <= i < k && i + 1 < |blocks| && ContainsHeading(headings, blocks[i]) ==>
      GapAfter(blocks, i) in Gaps(blocks, headings, k)
  {
    if k > 1 {
      GapsAre(blocks, headings, k - 1);
    }
  }

  /** The average is zero when no heading block has a next block. */
  lemma HeaderGapZero(blocks: seq<Block>, headings: seq<string>)
    requires forall i :: 1 <= i < |blocks| - 1 ==> !ContainsHeading(headings, blocks[i])
    requires !GapFails(blocks, headings)
    ensures HeaderGap(blocks, headings) == Some(0.0)
  {
    GapsNone(blocks, headings, |blocks|);
  }

  lemma {:induction false} GapsNone(blocks: seq<Block>, headings: seq<string>, k: nat)
    requires k <= |blocks|
    requires forall i :: 1 <= i < |blocks| - 1 ==> !ContainsHeading(headings, blocks[i])
    ensures Gaps(blocks, headings, k) == []
  {
    if k > 1 {
      GapsNone(blocks, headings, k - 1);
    }
  }

  // ---------------------------------------------------------------------
  // Split search

  predicate WideEnough(b: Block, minWidth: real) { Width(b.box) >= minWidth }

  predicate VerticalOverlap(a: Block, b: Block) { b.box.y0 < a.box.y1 && b.box.y1 > a.box.y0 }

  predicate SideBySide(a: Block, b: Block) { a.box.x1 < b.box.x0 || b.box.x1 < a.box.x0 }

  /** Blocks `i < j` that are both wide enough, overlap vertically and are
      separated horizontally. */
  predicate SplitPair(blocks: seq<Block>, minWidth: real, i: nat, j: nat)
    requires i < j < |blocks|
  {
    WideEnough(blocks[i], minWidth) && WideEnough(blocks[j], minWidth) &&
    VerticalOverlap(blocks[i], blocks[j]) && SideBySide(blocks[i], blocks[j])
  }

  function SplitY(blocks: seq<Block>, i: nat, j: nat): real
    requires i < j < |blocks|
  {
    Min(blocks[i].box.y0, blocks[j].box.y0)
  }

  /** The inner loop as written: scans `b2` from position `j`, stopping at the
      first block that starts at or below the bottom of `b1`. */
  function ScanPartner(blocks: seq<Block>, minWidth: real, i: nat, j: nat): Option<real>
    requires i < j <= |blocks|
    decreases |blocks| - j
  {
    if j == |blocks| then None
    else if blocks[j].box.y0 >= blocks[i].box.y1 then None
    else if !WideEnough(blocks[j], minWidth) then ScanPartner(blocks, minWidth, i, j + 1)
    else if SplitPair(blocks, minWidth, i, j) then Some(SplitY(blocks, i, j))
    else ScanPartner(blocks, minWidth, i, j + 1)
  }

  /** The outer loop as written, from position `i`. */
  function ScanSplit(blocks: seq<Block>, minWidth: real, i: nat): Option<real>
    requires i <= |blocks|
    decreases |blocks| - i
  {
    if i == |blocks| then None
    else if !WideEnough(blocks[i], minWidth) then ScanSplit(blocks, minWidth, i + 1)
    else match ScanPartner(blocks, minWidth, i, i + 1) {
      case Some(y) => Some(y)
      case None => ScanSplit(blocks, minWidth, i + 1)
    }
  }

  /** The split search: `found_split_y` after the nested loops. */
  method FindSplit(blocks: seq<Block>, minWidth: real) returns (split: Option<real>)
    ensures split == ScanSplit(blocks, minWidth, 0)
  {
    split := None;
    var i := 0;
    while i < |blocks|
      invariant 0 <= i <= |blocks|
      invariant ScanSplit(blocks, minWidth, 0) ==
        if split.Some? then split else ScanSplit(blocks, minWidth, i)
    {
      if split.Some? {
        break;
      }
      var b1 := blocks[i];
      if Width(b1.box) < minWidth {
        i := i + 1;
        continue;
      }
      split := FindPartner(blocks, minWidth, i);
      i := i + 1;
    }
  }

  /** The inner loop over `b2` for one `b1`. */
  method FindPartner(blocks: seq<Block>, minWidth: real, i: nat) returns (split: Option<real>)
    requires i < |blocks| && WideEnough(blocks[i], minWidth)
    ensures split == ScanPartner(blocks, minWidth, i, i + 1)
  {
    var b1 := blocks[i];
    var j := i + 1;
    while j < |blocks|
      invariant i < j <= |blocks|
      invariant ScanPartner(blocks, minWidth, i, i + 1) == ScanPartner(blocks, minWidth, i, j)
    {
      var b2 := blocks[j];
      if b2.box.y0 >= b1.box.y1 {
        break;
      }
      if Width(b2.box) < minWidth {
        j := j + 1;
        continue;
      }
      var overlap := b2.box.y0 < b1.box.y1 && b2.box.y1 > b1.box.y0;
      var separated := b1.box.x1 < b2.box.x0 || b2.box.x1 < b1.box.x0;
      if overlap && separated {
        return Some(Min(b1.box.y0, b2.box.y0));
      }
      j := j + 1;
    }
    return None;
  }

  /** Reference search without the early exit: the first `b2` after `b1`
      that forms a split pair with it. */
  function FirstPartner(blocks: seq<Block>, minWidth: real, i: nat, j: nat): Option<real>
    requires i < j <= |blocks|
    decreases |blocks| - j
  {
    if j == |blocks| then None
    else if SplitPair(blocks, minWidth, i, j) then Some(SplitY(blocks, i, j))
    else FirstPartner(blocks, minWidth, i, j + 1)
  }

  /** Reference search: the split pair first in (b1, b2) order. */
  function FirstSplit(blocks: seq<Block>, minWidth: real, i: nat): Option<real>
    requires i <= |blocks|
    decreases |blocks| - i
  {
    if i == |blocks| then None
    else match FirstPartner(blocks, minWidth, i, i + 1) {
      case Some(y) => Some(y)
      case None => FirstSplit(blocks, minWidth, i + 1)
    }
  }

  /** On blocks sorted by top, the early exit of the inner loop skips only
      blocks that cannot overlap `b1`. */
  lemma {:induction false} ScanPartnerIsFirst(blocks: seq<Block>, minWidth: real, i: nat, j: nat)
    requires i < j <= |blocks| && SortedBy(blocks, Top)
    ensures ScanPartner(blocks, minWidth, i, j) == FirstPartner(blocks, minWidth, i, j)
    decreases |blocks| - j
  {
    if j < |blocks| {
      if blocks[j].box.y0 >= blocks[i].box.y1 {
        NoPartnerBelow(blocks, minWidth, i, j);
      } else {
        ScanPartnerIsFirst(blocks, minWidth, i, j + 1);
      }
    }
  }

  lemma {:induction false} NoPartnerBelow(blocks: seq<Block>, minWidth: real, i: nat, j: nat)
    requires i < j <= |blocks| && SortedBy(blocks, Top)
    requires j < |blocks| ==> blocks[j].box.y0 >= blocks[i].box.y1
    ensures FirstPartner(blocks, minWidth, i, j) == None
    decreases |blocks| - j
  {
    if j + 1 < |blocks| {
      assert Top(blocks[j]) <= Top(blocks[j + 1]);
      NoPartnerBelow(blocks, minWidth, i, j + 1);
    }
  }

  /** On blocks sorted by top, the search as written finds the same split
      as the reference search. */
  lemma {:induction false} ScanSplitIsFirst(blocks: seq<Block>, minWidth: real, i: nat)
    requires i <= |blocks| && SortedBy(blocks, Top)
    ensures ScanSplit(blocks, minWidth, i) == FirstSplit(blocks, minWidth, i)
    decreases |blocks| - i
  {
    if i < |blocks| {
      ScanSplitIsFirst(blocks, minWidth, i + 1);
      if WideEnough(blocks[i], minWidth) {
        ScanPartnerIsFirst(blocks, minWidth, i, i + 1);
      } else {
        NarrowHasNoPartner(blocks, minWidth, i, i + 1);
      }
    }
  }

  lemma {:induction false} NarrowHasNoPartner(blocks: seq<Block>, minWidth: real, i: nat, j: nat)
    requires i < j <= |blocks| && !WideEnough(blocks[i], minWidth)
    ensures FirstPartner(blocks, minWidth, i, j) == None
    decreases |blocks| - j
  {
    if j < |blocks| {
      NarrowHasNoPartner(blocks, minWidth, i, j + 1);
    }
  }

  /** The reference partner search finds a partner exactly when one exists,
      and then the first one. */
  lemma {:induction false} FirstPartnerFinds(blocks: seq<Block>, minWidth: real, i: nat, j: nat)
    requires i < j <= |blocks|
    ensures FirstPartner(blocks, minWidth, i, j).None? <==>
      forall k :: j <= k < |blocks| ==> !SplitPair(blocks, minWidth, i, k)
    ensures FirstPartner(blocks, minWidth, i, j).Some? ==>
      exists k :: j <= k < |blocks| && SplitPair(blocks, minWidth, i, k) &&
        FirstPartner(blocks, minWidth, i, j).value == SplitY(blocks, i, k) &&
        forall m :: j <= m < k ==> !SplitPair(blocks, minWidth, i, m)
    decreases |blocks| - j
  {
    if j < |blocks| {
      FirstPartnerFinds(blocks, minWidth, i, j + 1);
    }
  }

  /** `(a, b)` is the split pair first in (b1, b2) order from position `i`:
      no earlier `b1` has any partner, and no earlier `b2` pairs with `a`. */
  predicate FirstSplitPair(blocks: seq<Block>, minWidth: real, i: nat, a: nat, b: nat) {
    i <= a < b < |blocks| && SplitPair(blocks, minWidth, a, b) &&
    (forall a', b' :: i <= a' < a && a' < b' < |blocks| ==> !SplitPair(blocks, minWidth, a', b')) &&
    (forall m :: a < m < b ==> !SplitPair(blocks, minWidth, a, m))
  }

  /** The reference search finds a split exactly when some split pair
      exists, and then the first pair: the earliest `b1` that has a partner,
      with its earliest partner `b2`. */
  lemma {:induction false} FirstSplitFinds(blocks: seq<Block>, minWidth: real, i: nat)
    requires i <= |blocks|
    ensures FirstSplit(blocks, minWidth, i).None? <==>
      forall a, b :: i <= a < b < |blocks| ==> !SplitPair(blocks, minWidth, a, b)
    ensures FirstSplit(blocks, minWidth, i).Some? ==>
      exists a, b :: FirstSplitPair(blocks, minWidth, i, a, b) &&
        FirstSplit(blocks, minWidth, i).value == SplitY(blocks, a, b)
    decreases |blocks| - i
  {
    if i < |blocks| {
      FirstSplitFinds(blocks, minWidth, i + 1);
      FirstPartnerFinds(blocks, minWidth, i, i + 1);
    }
  }

  /** Blocks stacked one below the other, none overlapping the next
      vertically, give no split. */
  lemma StackedHasNoSplit(blocks: seq<Block>, minWidth: real)
    requires SortedBy(blocks, Top)
    requires forall a, b :: 0 <= a < b < |blocks| ==> blocks[b].box.y0 >= blocks[a].box.y1
    ensures ScanSplit(blocks, minWidth, 0) == None
  {
    ScanSplitIsFirst(blocks, minWidth, 0);
    FirstSplitFinds(blocks, minWidth, 0);
  }
}
