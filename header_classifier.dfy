/** The Header Classifier (`HeaderExtractor.extract`): a first pass scores
    every line against the keyword dictionary and its visual prominence, the
    dominant style of the lines it accepts becomes a profile, and a second
    pass keeps the lines that match the profile. Sizes are tenths of a point. */
module HeaderClassifier {
  import opened Text
  import opened Lists
  import opened Keywords
  import opened Page
  import opened LineBuilder
  import opened HeaderMerge

  /** `round(size, 1)` on a size in tenths: the nearest whole tenth, halves
      rounding up. */
  function RoundTenth(x: real): (r: int)
    ensures r as real - 0.5 <= x < r as real + 0.5
  {
    (x + 0.5).Floor
  }

  function RoundedSizes(lines: seq<Line>): seq<int> {
    seq(|lines|, k requires 0 <= k < |lines| => RoundTenth(lines[k].size))
  }

  function BoldFlags(lines: seq<Line>): seq<bool> {
    seq(|lines|, k requires 0 <= k < |lines| => lines[k].isBold)
  }

  function UpperFlags(lines: seq<Line>): seq<bool> {
    seq(|lines|, k requires 0 <= k < |lines| => lines[k].isUpper)
  }

  function Fonts(lines: seq<Line>): seq<string> {
    seq(|lines|, k requires 0 <= k < |lines| => lines[k].font)
  }

  function Heights(lines: seq<Line>): seq<real> {
    seq(|lines|, k requires 0 <= k < |lines| => lines[k].blockHeight)
  }

  /** The body text size: the most frequent rounded size, the first seen
      among equally frequent ones. */
  function BodySize(lines: seq<Line>): int
    requires lines != []
  {
    MostCommon(RoundedSizes(lines))
  }

  /** The body size is the rounded size of some line, and no other rounded
      size is more frequent. */
  lemma BodySizeIsMostFrequent(lines: seq<Line>)
    requires lines != []
    ensures exists k :: 0 <= k < |lines| && RoundTenth(lines[k].size) == BodySize(lines)
    ensures forall k :: 0 <= k < |lines| ==>
      Count(RoundedSizes(lines), RoundTenth(lines[k].size)) <= Count(RoundedSizes(lines), BodySize(lines))
  {
    var sizes := RoundedSizes(lines);
    MostCommonMax(sizes);
    assert forall k :: 0 <= k < |lines| ==> sizes[k] == RoundTenth(lines[k].size);
    assert BodySize(lines) in sizes;
  }

  // ---------------------------------------------------------------------
  // Pass 1: scoring

  /** Bullets and lines of more than ten words are never headers. */
  predicate Eligible(l: Line) {
    !l.isBullet && WordCount(l.clean) <= 10
  }

  /** Points for the text: 3 for an exact keyword (with or without its
      spaces), 1 for a keyword inside the text, 0 otherwise. */
  function KeywordScore(clean: string): int {
    if IsKeyword(clean) || IsSpacelessKeyword(RemoveSpaces(clean)) then 3
    else if HasKeywordPart(clean) then 1
    else 0
  }

  /** Keyword points plus 2 for a size more than one point above the body
      size, 1 for bold and 1 for upper case. */
  function Score(l: Line, body: int): int {
    KeywordScore(l.clean) + (if l.size > (body + 10) as real then 2 else 0) +
    (if l.isBold then 1 else 0) + (if l.isUpper then 1 else 0)
  }

  /** A first-pass header: an eligible line with some keyword match whose
      score reaches 3. */
  predicate IsCandidate(l: Line, body: int) {
    Eligible(l) && KeywordScore(l.clean) > 0 && Score(l, body) >= 3
  }

  /** The scoring rule in plain words: an exact keyword is always enough; a
      keyword inside the text needs a larger size, or both bold and upper case. */
  lemma CandidateRule(l: Line, body: int)
    ensures IsCandidate(l, body) <==> (Eligible(l) &&
      (IsKeyword(l.clean) || IsSpacelessKeyword(RemoveSpaces(l.clean)) ||
       (HasKeywordPart(l.clean) && (l.size > (body + 10) as real || (l.isBold && l.isUpper)))))
  {
  }

  // ---------------------------------------------------------------------
  // Pass 2: the dominant header style

  datatype Profile = Profile(size: int, isBold: bool, isUpper: bool, font: string)

  /** The dominant style of the first-pass headers. */
  function ProfileOf(c: seq<Line>): Profile
    requires c != []
  {
    Profile(MostCommon(RoundedSizes(c)), MostCommon(BoldFlags(c)),
            MostCommon(UpperFlags(c)), MostCommon(Fonts(c)))
  }

  /** Each field of the profile is a value of some first-pass header that
      no other value of that field outnumbers. */
  lemma ProfileIsMostFrequent(c: seq<Line>)
    requires c != []
    ensures var p := ProfileOf(c);
      (exists k :: 0 <= k < |c| && RoundTenth(c[k].size) == p.size) &&
      (exists k :: 0 <= k < |c| && c[k].font == p.font) &&
      forall k :: 0 <= k < |c| ==>
        Count(RoundedSizes(c), RoundTenth(c[k].size)) <= Count(RoundedSizes(c), p.size) &&
        Count(BoldFlags(c), c[k].isBold) <= Count(BoldFlags(c), p.isBold) &&
        Count(UpperFlags(c), c[k].isUpper) <= Count(UpperFlags(c), p.isUpper) &&
        Count(Fonts(c), c[k].font) <= Count(Fonts(c), p.font)
  {
    var p := ProfileOf(c);
    MostCommonMax(RoundedSizes(c));
    MostCommonMax(BoldFlags(c));
    MostCommonMax(UpperFlags(c));
    MostCommonMax(Fonts(c));
    assert forall k :: 0 <= k < |c| ==> (RoundedSizes(c)[k] == RoundTenth(c[k].size) &&
      BoldFlags(c)[k] == c[k].isBold && UpperFlags(c)[k] == c[k].isUpper && Fonts(c)[k] == c[k].font);
    assert p.size in RoundedSizes(c) && p.font in Fonts(c);
  }

  /** The rounded size is within half a point of the profile's. */
  predicate SizeMatches(l: Line, p: Profile) {
    -5 <= RoundTenth(l.size) - p.size <= 5
  }

  /** A confirmed header: eligible, of the profile's size, and either of the
      profile's whole style or a keyword written with its spaces removed. */
  predicate Confirms(l: Line, p: Profile) {
    Eligible(l) && SizeMatches(l, p) &&
    ((l.isBold == p.isBold && l.isUpper == p.isUpper && l.font == p.font) ||
     IsSpacelessKeyword(RemoveSpaces(l.clean)))
  }

  // ---------------------------------------------------------------------
  // Collecting accepted lines, one per distinct text

  datatype Filter = Candidates(body: int) | Matching(target: Profile)

  predicate Accepts(f: Filter, l: Line) {
    match f
    case Candidates(body) => IsCandidate(l, body)
    case Matching(target) => Confirms(l, target)
  }

  /** `text in [h["text"] for h in hs]`. */
  predicate HasText(hs: seq<Line>, t: string) {
    exists k | 0 <= k < |hs| :: hs[k].text == t
  }

  predicate DistinctTexts(hs: seq<Line>) {
    forall i, j :: 0 <= i < j < |hs| ==> hs[i].text != hs[j].text
  }

  /** `acc` extended, in order, by every accepted line whose text it does not
      hold yet. */
  function CollectOnto(acc: seq<Line>, lines: seq<Line>, f: Filter): seq<Line> {
    if lines == [] then acc
    else
      var r := CollectOnto(acc, lines[..|lines| - 1], f);
      var l := lines[|lines| - 1];
      if Accepts(f, l) && !HasText(r, l.text) then r + [l] else r
  }

  function Collect(lines: seq<Line>, f: Filter): seq<Line> {
    CollectOnto([], lines, f)
  }

  /** What is collected starts with `acc`; everything after it is an
      accepted input line. */
  lemma {:induction false} CollectExtends(acc: seq<Line>, lines: seq<Line>, f: Filter)
    ensures var r := CollectOnto(acc, lines, f);
      |acc| <= |r| && r[..|acc|] == acc &&
      forall k :: |acc| <= k < |r| ==> r[k] in lines && Accepts(f, r[k])
  {
    if lines != [] {
      var init := lines[..|lines| - 1];
      CollectExtends(acc, init, f);
      var r := CollectOnto(acc, init, f);
      forall k | |acc| <= k < |r| ensures r[k] in lines {
        assert r[k] in init;
      }
    }
  }

  /** No two collected lines share a text. */
  lemma {:induction false} CollectDistinct(acc: seq<Line>, lines: seq<Line>, f: Filter)
    requires DistinctTexts(acc)
    ensures DistinctTexts(CollectOnto(acc, lines, f))
  {
    if lines != [] {
      CollectDistinct(acc, lines[..|lines| - 1], f);
    }
  }

  /** Every text of `acc` and of every accepted line is collected. */
  lemma {:induction false} CollectCovers(acc: seq<Line>, lines: seq<Line>, f: Filter)
    ensures var r := CollectOnto(acc, lines, f);
      (forall k :: 0 <= k < |acc| ==> HasText(r, acc[k].text)) &&
      forall k :: 0 <= k < |lines| && Accepts(f, lines[k]) ==> HasText(r, lines[k].text)
  {
    if lines != [] {
      var init := lines[..|lines| - 1];
      CollectCovers(acc, init, f);
      var r0 := CollectOnto(acc, init, f);
      var r := CollectOnto(acc, lines, f);
      assert forall t :: HasText(r0, t) ==> HasText(r, t) by {
        forall t | HasText(r0, t) ensures HasText(r, t) {
          var k :| 0 <= k < |r0| && r0[k].text == t;
          assert r[k] == r0[k];
        }
      }
      forall k | 0 <= k < |lines| && Accepts(f, lines[k]) ensures HasText(r, lines[k].text) {
        if k < |init| {
          assert lines[k] == init[k];
        } else if !HasText(r0, lines[k].text) {
          assert r[|r0|] == lines[k];
        }
      }
    }
  }

  /** Nothing is collected exactly when `acc` is empty and no line is accepted. */
  lemma CollectEmpty(acc: seq<Line>, lines: seq<Line>, f: Filter)
    ensures CollectOnto(acc, lines, f) == [] <==>
      acc == [] && forall k :: 0 <= k < |lines| ==> !Accepts(f, lines[k])
  {
    CollectExtends(acc, lines, f);
    CollectCovers(acc, lines, f);
  }

  /** When every line is accepted and no two share a text, all are collected. */
  lemma {:induction false} CollectAll(lines: seq<Line>, f: Filter)
    requires forall k :: 0 <= k < |lines| ==> Accepts(f, lines[k])
    requires DistinctTexts(lines)
    ensures Collect(lines, f) == lines
  {
    if lines != [] {
      var init := lines[..|lines| - 1];
      CollectAll(init, f);
      assert !HasText(init, lines[|lines| - 1].text);
    }
  }

  // ---------------------------------------------------------------------
  // The two passes together

  /** Headers, body size and mean block height of the headers. */
  datatype Extraction = Extraction(headers: seq<Line>, bodySize: int, avgHeight: real)

  /** The classification of a document's lines: the confirmed lines, or the
      first-pass candidates when the profile confirms none. */
  function Classify(lines: seq<Line>): Extraction {
    var merged := Merged(lines);
    if merged == [] then Extraction([], 0, 0.0)
    else
      var body := BodySize(merged);
      var cands := Collect(merged, Candidates(body));
      if cands == [] then Extraction([], body, 0.0)
      else
        var confirmed := Collect(merged, Matching(ProfileOf(cands)));
        var hs := if confirmed != [] then confirmed else cands;
        Extraction(hs, body, Mean(Heights(hs)))
  }

  /** The lines of a document: each page's lines in top-to-bottom order,
      page after page. */
  function DocumentLines(pages: seq<seq<PageBlock>>): seq<Line> {
    if pages == [] then []
    else DocumentLines(pages[..|pages| - 1]) + SortBy(PageLines(pages[|pages| - 1]), LineY)
  }

  /** The first pass: scores every line and keeps, once per text, those
      scoring at least 3. */
  method FirstPass(lines: seq<Line>, body: int) returns (detected: seq<Line>)
    ensures detected == Collect(lines, Candidates(body))
  {
    detected := [];
    var i := 0;
    while i < |lines|
      invariant 0 <= i <= |lines|
      invariant detected == Collect(lines[..i], Candidates(body))
    {
      assert lines[..i + 1][..i] == lines[..i];
      var line := lines[i];
      if !line.isBullet && WordCount(line.clean) <= 10 {
        var score := 0;
        var matched := true;
        var spacelessClean := RemoveSpaces(line.clean);
        if IsKeyword(line.clean) {
          score := score + 3;
        } else if IsSpacelessKeyword(spacelessClean) {
          score := score + 3;
        } else if HasKeywordPart(line.clean) {
          score := score + 1;
        } else {
          matched := false;
        }
        if matched {
          if line.size > (body + 10) as real { score := score + 2; }
          if line.isBold { score := score + 1; }
          if line.isUpper { score := score + 1; }
          if score >= 3 && !HasText(detected, line.text) {
            detected := detected + [line];
          }
        }
      }
      i := i + 1;
    }
    assert lines[..i] == lines;
  }

  /** The second pass: keeps, once per text, the lines matching the profile. */
  method SecondPass(lines: seq<Line>, target: Profile) returns (final: seq<Line>)
    ensures final == Collect(lines, Matching(target))
  {
    final := [];
    var i := 0;
    while i < |lines|
      invariant 0 <= i <= |lines|
      invariant final == Collect(lines[..i], Matching(target))
    {
      assert lines[..i + 1][..i] == lines[..i];
      var line := lines[i];
      if !line.isBullet && WordCount(line.clean) <= 10 {
        var size := RoundTenth(line.size);
        var sizeMatch := -5 <= size - target.size <= 5;
        var isFinal := false;
        if sizeMatch && line.isBold == target.isBold && line.isUpper == target.isUpper &&
           line.font == target.font {
          isFinal := true;
        } else if IsSpacelessKeyword(RemoveSpaces(line.clean)) {
          if sizeMatch { isFinal := true; }
        }
        if isFinal && !HasText(final, line.text) {
          final := final + [line];
        }
      }
      i := i + 1;
    }
    assert lines[..i] == lines;
  }

  /** `HeaderExtractor.extract` with its loop bounded to the two passes it
      needs. */
  method Extract(pages: seq<seq<PageBlock>>) returns (result: Extraction)
    ensures result == Classify(DocumentLines(pages))
  {
    var allLines: seq<Line> := [];
    var p := 0;
    while p < |pages|
      invariant 0 <= p <= |pages|
      invariant allLines == DocumentLines(pages[..p])
    {
      assert pages[..p + 1][..p] == pages[..p];
      var pageLines := LinesWithStyle(pages[p]);
      allLines := allLines + pageLines;
      p := p + 1;
    }
    assert pages[..p] == pages;
    allLines := MergeSplitHeaders(allLines);
    if allLines == [] {
      return Extraction([], 0, 0.0);
    }
    var bodySize := MostCommon(RoundedSizes(allLines));

    var detected := FirstPass(allLines, bodySize);
    if detected == [] {
      return Extraction([], bodySize, 0.0);
    }

    var target := ProfileOf(detected);
    var final := SecondPass(allLines, target);
    if final != [] {
      return Extraction(final, bodySize, Mean(Heights(final)));
    }
    return Extraction(detected, bodySize, Mean(Heights(detected)));
  }

  // ---------------------------------------------------------------------
  // What the classification promises

  /** Every collected line is an accepted input line. */
  lemma CollectMembers(lines: seq<Line>, f: Filter)
    ensures forall h :: h in Collect(lines, f) ==> h in lines && Accepts(f, h)
  {
    CollectExtends([], lines, f);
    var r := Collect(lines, f);
    forall h | h in r ensures h in lines && Accepts(f, h) {
      var k :| 0 <= k < |r| && r[k] == h;
    }
  }

  /** The headers are the confirmed lines if there are any, else the candidates. */
  lemma ClassifyHeaders(lines: seq<Line>, body: int, cands: seq<Line>)
    requires Merged(lines) != [] && body == BodySize(Merged(lines))
    requires cands == Collect(Merged(lines), Candidates(body)) && cands != []
    ensures var confirmed := Collect(Merged(lines), Matching(ProfileOf(cands)));
      Classify(lines).headers == if confirmed != [] then confirmed else cands
  {
  }

  /** The headers are lines of the merged document with pairwise different
      texts. */
  lemma ClassifyDrawsFromLines(lines: seq<Line>)
    ensures var hs := Classify(lines).headers;
      DistinctTexts(hs) && forall h :: h in hs ==> h in Merged(lines)
  {
    var merged := Merged(lines);
    if merged != [] {
      var body := BodySize(merged);
      var cands := Collect(merged, Candidates(body));
      CollectDistinct([], merged, Candidates(body));
      CollectMembers(merged, Candidates(body));
      if cands != [] {
        var target := ProfileOf(cands);
        CollectDistinct([], merged, Matching(target));
        CollectMembers(merged, Matching(target));
        ClassifyHeaders(lines, body, cands);
      }
    }
  }

  /** Headers are found exactly when some merged line passes the first pass. */
  lemma ClassifyFindsAny(lines: seq<Line>)
    requires Merged(lines) != []
    ensures var merged := Merged(lines);
      Classify(lines).headers != [] <==>
        exists k :: 0 <= k < |merged| && IsCandidate(merged[k], BodySize(merged))
  {
    var merged := Merged(lines);
    var body := BodySize(merged);
    CollectEmpty([], merged, Candidates(body));
  }

  /** When the profile confirms some line, the headers are exactly the
      confirmed lines, one per text. */
  lemma ClassifyConfirmed(lines: seq<Line>, body: int, cands: seq<Line>)
    requires Merged(lines) != [] && body == BodySize(Merged(lines))
    requires cands == Collect(Merged(lines), Candidates(body)) && cands != []
    requires exists k :: 0 <= k < |Merged(lines)| && Confirms(Merged(lines)[k], ProfileOf(cands))
    ensures var hs := Classify(lines).headers;
      (forall h :: h in hs ==> Confirms(h, ProfileOf(cands))) &&
      forall k :: 0 <= k < |Merged(lines)| && Confirms(Merged(lines)[k], ProfileOf(cands)) ==>
        HasText(hs, Merged(lines)[k].text)
  {
    var merged := Merged(lines);
    var f := Matching(ProfileOf(cands));
    var confirmed := Collect(merged, f);
    assert Classify(lines).headers == confirmed by {
      CollectEmpty([], merged, f);
      ClassifyHeaders(lines, body, cands);
    }
    assert forall h :: h in confirmed ==> Confirms(h, ProfileOf(cands)) by {
      CollectMembers(merged, f);
    }
    assert forall k :: 0 <= k < |merged| && Confirms(merged[k], ProfileOf(cands)) ==>
        HasText(confirmed, merged[k].text) by {
      CollectCovers([], merged, f);
    }
  }

  /** When the profile confirms no line, the headers are exactly the
      first-pass candidates, one per text. */
  lemma ClassifyFallback(lines: seq<Line>, body: int, cands: seq<Line>)
    requires Merged(lines) != [] && body == BodySize(Merged(lines))
    requires cands == Collect(Merged(lines), Candidates(body)) && cands != []
    requires forall k :: 0 <= k < |Merged(lines)| ==> !Confirms(Merged(lines)[k], ProfileOf(cands))
    ensures var hs := Classify(lines).headers;
      (forall h :: h in hs ==> IsCandidate(h, body)) &&
      forall k :: 0 <= k < |Merged(lines)| && IsCandidate(Merged(lines)[k], body) ==>
        HasText(hs, Merged(lines)[k].text)
  {
    var merged := Merged(lines);
    assert Classify(lines).headers == cands by {
      CollectEmpty([], merged, Matching(ProfileOf(cands)));
      ClassifyHeaders(lines, body, cands);
    }
    assert forall h :: h in cands ==> IsCandidate(h, body) by {
      CollectMembers(merged, Candidates(body));
    }
    assert forall k :: 0 <= k < |merged| && IsCandidate(merged[k], body) ==> HasText(cands, merged[k].text) by {
      CollectCovers([], merged, Candidates(body));
    }
  }

  /** The reported height is the mean block height of the headers, and some
      header's block is at least that tall. */
  lemma ClassifyHeight(lines: seq<Line>)
    ensures var e := Classify(lines);
      e.avgHeight == Mean(Heights(e.headers)) &&
      (e.headers != [] ==> exists k :: 0 <= k < |e.headers| && e.headers[k].blockHeight >= e.avgHeight)
  {
    var e := Classify(lines);
    if e.headers != [] {
      MeanReached(Heights(e.headers));
    }
  }
}
