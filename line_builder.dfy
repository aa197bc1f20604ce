/** The Line Builder: turns the spans of each extracted line into one
    style-annotated line record (`HeaderExtractor._get_lines_with_style`). */
module LineBuilder {
  import opened Text
  import opened Lists
  import opened Geometry
  import opened Page

  /** One line of the page with the style flags the header classifier reads.
      `size` is the mean span size in tenths of a point. */
  datatype Line = Line(
    text: string,
    clean: string,
    size: real,
    isBold: bool,
    isUpper: bool,
    isBullet: bool,
    y: real,
    font: string,
    blockHeight: real)

  function LineY(l: Line): real { l.y }

  /** `span["text"].strip()` is empty. */
  predicate IsBlank(t: string) { Strip(t) == [] }

  /** The spans a line keeps: those whose text is not blank, in order. */
  function Kept(spans: seq<Span>): seq<Span> {
    if spans == [] then []
    else
      var last := spans[|spans| - 1];
      Kept(spans[..|spans| - 1]) + if IsBlank(last.text) then [] else [last]
  }

  /** The line text before stripping: every kept span's text followed by a space. */
  function Joined(spans: seq<Span>): string {
    if spans == [] then [] else Joined(spans[..|spans| - 1]) + spans[|spans| - 1].text + " "
  }

  function SizeSum(spans: seq<Span>): int {
    if spans == [] then 0 else SizeSum(spans[..|spans| - 1]) + spans[|spans| - 1].size
  }

  /** `sum(s["size"] for s in spans) / len(spans)`. */
  function MeanSize(spans: seq<Span>): real
    requires spans != []
  {
    SizeSum(spans) as real / |spans| as real
  }

  /** The mean size times the number of spans is their total size. */
  lemma MeanSizeTimes(spans: seq<Span>)
    requires spans != []
    ensures MeanSize(spans) * |spans| as real == SizeSum(spans) as real
  {
  }

  /** `"bold" in font.lower()`. */
  predicate IsBoldFont(font: string) { IsSubstring("bold", Lower(font)) }

  predicate AnyBold(spans: seq<Span>) {
    exists k | 0 <= k < |spans| :: IsBoldFont(spans[k].font)
  }

  /** The bullet glyphs the source recognises: U+2022, U+2023, U+25E6,
      U+2043, U+2219, '-' and '*'. */
  predicate IsBulletChar(c: char) {
    c as int in {0x2022, 0x2023, 0x25E6, 0x2043, 0x2219} || c == '-' || c == '*'
  }

  predicate StartsWithBullet(t: string) { t != [] && IsBulletChar(t[0]) }

  /** The record built for one raw line of a block with box `block`, or None
      when every span is blank and the line is skipped. */
  function LineOf(raw: RawLine, block: Rect): Option<Line> {
    var kept := Kept(raw.spans);
    var text := Strip(Joined(kept));
    if text == [] then None else Some(Styled(kept, text, raw.bbox.y0, Height(block)))
  }

  /** The record for a non-blank line whose kept spans are `kept` and whose
      stripped text is `text`. */
  function Styled(kept: seq<Span>, text: string, y: real, blockHeight: real): Line {
    var size := if kept != [] then MeanSize(kept) else 0.0;
    var bold := kept != [] && AnyBold(kept);
    var font := if kept != [] then kept[0].font else "unknown";
    Line(text, Clean(text), size, bold, IsUpperText(text) && |text| > 3,
         StartsWithBullet(text), y, font, blockHeight)
  }

  /** Builds the record for one raw line, accumulating the text and the kept
      spans span by span. */
  method BuildLine(raw: RawLine, block: Rect) returns (line: Option<Line>)
    ensures line == LineOf(raw, block)
  {
    var lineText := "";
    var spans: seq<Span> := [];
    var i := 0;
    while i < |raw.spans|
      invariant 0 <= i <= |raw.spans|
      invariant spans == Kept(raw.spans[..i])
      invariant lineText == Joined(spans)
    {
      var span := raw.spans[i];
      assert raw.spans[..i + 1] == raw.spans[..i] + [span];
      if Strip(span.text) != [] {
        lineText := lineText + span.text + " ";
        spans := spans + [span];
      }
      i := i + 1;
    }
    assert raw.spans[..i] == raw.spans;
    lineText := Strip(lineText);
    if lineText == [] {
      return None;
    }
    var avgSize: real, isBold: bool, fontName: string;
    if |spans| > 0 {
      avgSize := MeanSize(spans);
      isBold := AnyBold(spans);
      fontName := spans[0].font;
    } else {
      avgSize, isBold, fontName := 0.0, false, "unknown";
    }
    line := Some(Line(lineText, Clean(lineText), avgSize, isBold,
                      IsUpperText(lineText) && |lineText| > 3,
                      StartsWithBullet(lineText), raw.bbox.y0, fontName, Height(block)));
  }

  /** Lines of one block, in order. */
  function BlockLines(lines: seq<RawLine>, box: Rect): seq<Line> {
    if lines == [] then []
    else
      BlockLines(lines[..|lines| - 1], box) +
        match LineOf(lines[|lines| - 1], box) { case None => [] case Some(l) => [l] }
  }

  /** Lines of every text block, in extraction order; image blocks have no lines. */
  function PageLines(blocks: seq<PageBlock>): seq<Line> {
    if blocks == [] then []
    else
      PageLines(blocks[..|blocks| - 1]) +
        match blocks[|blocks| - 1] {
          case ImageBlock(_) => []
          case TextBlock(box, lines) => BlockLines(lines, box)
        }
  }

  /** The records of one block's lines, in order. */
  method LinesOfBlock(raws: seq<RawLine>, box: Rect) returns (lines: seq<Line>)
    ensures lines == BlockLines(raws, box)
  {
    lines := [];
    var k := 0;
    while k < |raws|
      invariant 0 <= k <= |raws|
      invariant lines == BlockLines(raws[..k], box)
    {
      assert raws[..k + 1][..k] == raws[..k];
      var line := BuildLine(raws[k], box);
      if line.Some? {
        lines := lines + [line.value];
      }
      k := k + 1;
    }
    assert raws[..k] == raws;
  }

  /** `_get_lines_with_style` after the extractor call: every non-blank line
      of every text block, then sorted by top y (stably). */
  method LinesWithStyle(blocks: seq<PageBlock>) returns (lines: seq<Line>)
    ensures lines == SortBy(PageLines(blocks), LineY)
    ensures SortedBy(lines, LineY)
    ensures multiset(lines) == multiset(PageLines(blocks))
  {
    lines := [];
    var b := 0;
    while b < |blocks|
      invariant 0 <= b <= |blocks|
      invariant lines == PageLines(blocks[..b])
    {
      assert blocks[..b + 1][..b] == blocks[..b];
      match blocks[b] {
        case ImageBlock(_) =>
        case TextBlock(box, raws) =>
          var blockLines := LinesOfBlock(raws, box);
          lines := lines + blockLines;
      }
      b := b + 1;
    }
    assert blocks[..b] == blocks;
    SortByShape(lines, LineY);
    lines := SortBy(lines, LineY);
  }

  // ---------------------------------------------------------------------
  // What the line record says about the raw spans.

  lemma {:induction false} KeptMembers(spans: seq<Span>)
    ensures forall s :: s in Kept(spans) <==> s in spans && !IsBlank(s.text)
  {
    if spans != [] {
      KeptMembers(spans[..|spans| - 1]);
      assert spans == spans[..|spans| - 1] + [spans[|spans| - 1]];
    }
  }

  /** The first kept span is the first non-blank span of the line. */
  lemma {:induction false} KeptFirst(spans: seq<Span>)
    ensures Kept(spans) != [] ==> exists k :: (0 <= k < |spans| && Kept(spans)[0] == spans[k] &&
      !IsBlank(spans[k].text) && forall m :: 0 <= m < k ==> IsBlank(spans[m].text))
    ensures Kept(spans) == [] ==> forall m :: 0 <= m < |spans| ==> IsBlank(spans[m].text)
  {
    if spans != [] {
      var init := spans[..|spans| - 1];
      KeptFirst(init);
      if Kept(init) != [] {
        var k :| 0 <= k < |init| && Kept(init)[0] == init[k] &&
          !IsBlank(init[k].text) && forall m :: 0 <= m < k ==> IsBlank(init[m].text);
        assert Kept(spans)[0] == spans[k];
        assert forall m :: 0 <= m < k ==> init[m] == spans[m];
      }
    }
  }

  lemma {:induction false} JoinedBlank(spans: seq<Span>)
    requires forall s :: s in spans ==> !IsBlank(s.text)
    ensures AllSpace(Joined(spans)) <==> spans == []
  {
    if spans != [] {
      var last := spans[|spans| - 1];
      var prefix := Joined(spans[..|spans| - 1]);
      StripEmpty(last.text);
      var k :| 0 <= k < |last.text| && !IsSpace(last.text[k]);
      assert Joined(spans)[|prefix| + k] == last.text[k];
    }
  }

  /** A raw line yields a record exactly when some span is not blank. */
  lemma LineOfPresent(raw: RawLine, block: Rect)
    ensures LineOf(raw, block).None? <==>
      forall k :: 0 <= k < |raw.spans| ==> IsBlank(raw.spans[k].text)
  {
    var kept := Kept(raw.spans);
    KeptMembers(raw.spans);
    KeptFirst(raw.spans);
    JoinedBlank(kept);
    StripEmpty(Joined(kept));
  }

  /** The record's text is non-empty and stripped; it is flagged upper-case
      only when longer than three characters with no lower-case letter and
      some upper-case one, and a bullet only when it starts with a bullet glyph. */
  lemma LineOfText(raw: RawLine, block: Rect)
    requires LineOf(raw, block).Some?
    ensures var l := LineOf(raw, block).value;
      l.text != [] && Trimmed(l.text) &&
      (l.isUpper <==> |l.text| > 3 && IsUpperText(l.text)) &&
      (l.isBullet <==> IsBulletChar(l.text[0]))
  {
    StripShape(Joined(Kept(raw.spans)));
  }

  lemma LineOfFields(raw: RawLine, block: Rect)
    requires LineOf(raw, block).Some?
    ensures var l := LineOf(raw, block).value;
      var kept := Kept(raw.spans);
      kept != [] && l.isBold == AnyBold(kept) && l.font == kept[0].font &&
      l.size == MeanSize(kept)
  {
    LineOfPresent(raw, block);
  }

  /** Some kept span has a bold font exactly when some non-blank span has. */
  lemma KeptBold(spans: seq<Span>)
    ensures AnyBold(Kept(spans)) <==>
      exists k :: 0 <= k < |spans| && !IsBlank(spans[k].text) && IsBoldFont(spans[k].font)
  {
    var kept := Kept(spans);
    KeptMembers(spans);
    if AnyBold(kept) {
      var j :| 0 <= j < |kept| && IsBoldFont(kept[j].font);
      KeptBoldSpan(spans, kept[j]);
    } else {
      forall k | 0 <= k < |spans| && !IsBlank(spans[k].text)
        ensures !IsBoldFont(spans[k].font)
      {
        assert spans[k] in kept;
      }
    }
  }

  lemma KeptBoldSpan(spans: seq<Span>, s: Span)
    requires s in Kept(spans) && IsBoldFont(s.font)
    ensures exists k :: 0 <= k < |spans| && !IsBlank(spans[k].text) && IsBoldFont(spans[k].font)
  {
    KeptMembers(spans);
    var k :| 0 <= k < |spans| && spans[k] == s;
  }

  /** The line is bold exactly when the font name of some non-blank span
      contains "bold" in any letter case. */
  lemma LineOfBold(raw: RawLine, block: Rect, l: Line)
    requires LineOf(raw, block) == Some(l)
    ensures l.isBold <==>
      exists k :: 0 <= k < |raw.spans| && !IsBlank(raw.spans[k].text) && IsBoldFont(raw.spans[k].font)
  {
    assert l.isBold == AnyBold(Kept(raw.spans)) by {
      LineOfFields(raw, block);
    }
    KeptBold(raw.spans);
  }

  /** The line's font is that of its first non-blank span, and its size is
      the mean size of its non-blank spans. */
  lemma LineOfFontAndSize(raw: RawLine, block: Rect, l: Line)
    requires LineOf(raw, block) == Some(l)
    ensures exists k :: 0 <= k < |raw.spans| && l.font == raw.spans[k].font &&
                   !IsBlank(raw.spans[k].text) &&
                   forall m :: 0 <= m < k ==> IsBlank(raw.spans[m].text)
    ensures Kept(raw.spans) != [] && l.size == MeanSize(Kept(raw.spans))
  {
    var kept := Kept(raw.spans);
    assert kept != [] && l.font == kept[0].font && l.size == MeanSize(kept) by {
      LineOfFields(raw, block);
    }
    KeptFirst(raw.spans);
  }
}
