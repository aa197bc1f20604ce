/** Re-joining a section title that the PDF broke over two lines
    (`HeaderExtractor._merge_split_headers`). */
module HeaderMerge {
  import opened Text
  import opened Keywords
  import opened Lists
  import opened LineBuilder

  /** Sizes differ by less than half a point (five tenths) and the bold and
      upper-case flags agree. */
  predicate SameStyle(a: Line, b: Line) {
    -5.0 < a.size - b.size < 5.0 && a.isBold == b.isBold && a.isUpper == b.isUpper
  }

  function CombinedClean(a: Line, b: Line): string { a.clean + " " + b.clean }

  /** Two adjacent lines are merged when they share a style that is bold or
      upper case and their cleaned texts, joined by a space, form a keyword
      with or without its spaces. */
  predicate CanMerge(a: Line, b: Line) {
    SameStyle(a, b) && (a.isUpper || a.isBold) &&
    (IsKeyword(CombinedClean(a, b)) || IsSpacelessKeyword(RemoveSpaces(CombinedClean(a, b))))
  }

  /** The merged record keeps the first line's style, position and font. */
  function Join(a: Line, b: Line): Line {
    a.(text := a.text + " " + b.text, clean := CombinedClean(a, b))
  }

  /** Left-to-right greedy merging: a line that was merged into its
      predecessor is not considered again. */
  function Merged(lines: seq<Line>): seq<Line>
    decreases |lines|
  {
    if |lines| < 2 then lines
    else if CanMerge(lines[0], lines[1]) then [Join(lines[0], lines[1])] + Merged(lines[2..])
    else [lines[0]] + Merged(lines[1..])
  }

  /** The test applied to the line at the scan position and the one after
      it: the record that replaces both, or None when they stay apart. */
  method TryMerge(current: Line, next: Line) returns (joined: Option<Line>)
    ensures joined.Some? <==> CanMerge(current, next)
    ensures joined.Some? ==> joined.value == Join(current, next)
  {
    var sameStyle := -5.0 < current.size - next.size < 5.0 &&
      current.isBold == next.isBold && current.isUpper == next.isUpper;
    if sameStyle && (current.isUpper || current.isBold) {
      var combinedClean := current.clean + " " + next.clean;
      var combinedSpaceless := RemoveSpaces(combinedClean);
      if IsKeyword(combinedClean) || IsSpacelessKeyword(combinedSpaceless) {
        return Some(current.(text := current.text + " " + next.text, clean := combinedClean));
      }
    }
    return None;
  }

  method MergeSplitHeaders(lines: seq<Line>) returns (merged: seq<Line>)
    ensures merged == Merged(lines)
  {
    merged := [];
    var i := 0;
    while i < |lines|
      invariant 0 <= i <= |lines|
      invariant merged + Merged(lines[i..]) == Merged(lines)
    {
      MergedAt(lines, i);
      var current := lines[i];
      if i + 1 < |lines| {
        var joined := TryMerge(current, lines[i + 1]);
        if joined.Some? {
          merged := merged + [joined.value];
          i := i + 2;
          continue;
        }
      }
      merged := merged + [current];
      i := i + 1;
    }
  }

  /** One step of the merge, taken at position `i`. */
  lemma MergedAt(lines: seq<Line>, i: nat)
    requires i < |lines|
    ensures i + 1 < |lines| && CanMerge(lines[i], lines[i + 1]) ==>
      Merged(lines[i..]) == [Join(lines[i], lines[i + 1])] + Merged(lines[i + 2..])
    ensures !(i + 1 < |lines| && CanMerge(lines[i], lines[i + 1])) ==>
      Merged(lines[i..]) == [lines[i]] + Merged(lines[i + 1..])
  {
    assert lines[i..][1..] == lines[i + 1..];
    if i + 1 < |lines| {
      assert lines[i..][2..] == lines[i + 2..];
    }
  }

  // ---------------------------------------------------------------------
  // Properties of the merge.

  predicate HasMergeablePair(lines: seq<Line>) {
    exists k :: 0 <= k < |lines| - 1 && CanMerge(lines[k], lines[k + 1])
  }

  /** Merging never adds lines; it removes some exactly when some adjacent
      pair qualifies, and otherwise returns its input unchanged. */
  lemma {:induction false} MergedLength(lines: seq<Line>)
    ensures |Merged(lines)| <= |lines|
    ensures |Merged(lines)| < |lines| <==> HasMergeablePair(lines)
    ensures !HasMergeablePair(lines) ==> Merged(lines) == lines
    decreases |lines|
  {
    if |lines| >= 2 {
      if CanMerge(lines[0], lines[1]) {
        MergedLength(lines[2..]);
      } else {
        var rest := lines[1..];
        MergedLength(rest);
        if HasMergeablePair(rest) {
          var k :| 0 <= k < |rest| - 1 && CanMerge(rest[k], rest[k + 1]);
          assert CanMerge(lines[k + 1], lines[k + 2]);
        }
        if HasMergeablePair(lines) {
          var k :| 0 <= k < |lines| - 1 && CanMerge(lines[k], lines[k + 1]);
          assert CanMerge(rest[k - 1], rest[k]);
        }
        if !HasMergeablePair(rest) {
          assert lines == [lines[0]] + rest;
        }
      }
    }
  }

  /** Every merged record is an input line, or the join of two adjacent input
      lines that qualify for merging. */
  lemma {:induction false} MergedFrom(lines: seq<Line>)
    ensures forall m :: m in Merged(lines) ==> (m in lines ||
      exists k :: 0 <= k < |lines| - 1 && CanMerge(lines[k], lines[k + 1]) &&
                  m == Join(lines[k], lines[k + 1]))
    decreases |lines|
  {
    if |lines| >= 2 {
      var n := if CanMerge(lines[0], lines[1]) then 2 else 1;
      var rest := lines[n..];
      MergedFrom(rest);
      forall m | m in Merged(rest)
        ensures m in lines || exists k :: (0 <= k < |lines| - 1 &&
          CanMerge(lines[k], lines[k + 1]) && m == Join(lines[k], lines[k + 1]))
      {
        if m in rest {
          var j :| 0 <= j < |rest| && rest[j] == m;
          assert lines[n + j] == m;
        } else {
          var k :| 0 <= k < |rest| - 1 && CanMerge(rest[k], rest[k + 1]) &&
            m == Join(rest[k], rest[k + 1]);
          assert lines[n + k] == rest[k] && lines[n + k + 1] == rest[k + 1];
        }
      }
    }
  }

  /** Strings joined with single spaces, as `" ".join(ts)`. */
  function Spaced(ts: seq<string>): string
    decreases |ts|
  {
    if ts == [] then [] else if |ts| == 1 then ts[0] else ts[0] + " " + Spaced(ts[1..])
  }

  function Texts(lines: seq<Line>): seq<string> {
    if lines == [] then [] else [lines[0].text] + Texts(lines[1..])
  }

  function Cleans(lines: seq<Line>): seq<string> {
    if lines == [] then [] else [lines[0].clean] + Cleans(lines[1..])
  }

  lemma {:induction false} MergedEmpty(lines: seq<Line>)
    ensures Merged(lines) == [] <==> lines == []
  {
  }

  lemma SpacedCons(x: string, ys: seq<string>)
    ensures Spaced([x] + ys) == if ys == [] then x else x + " " + Spaced(ys)
  {
    assert ([x] + ys)[1..] == ys;
  }

  /** Merging only regroups the page's words: the texts read the same when
      joined with spaces. */
  lemma {:induction false} MergedKeepsText(lines: seq<Line>)
    ensures Spaced(Texts(Merged(lines))) == Spaced(Texts(lines))
    decreases |lines|
  {
    if |lines| >= 2 {
      var a, b := lines[0], lines[1];
      var n := if CanMerge(a, b) then 2 else 1;
      var rest := lines[n..];
      MergedKeepsText(rest);
      MergedEmpty(rest);
      assert lines[1..][1..] == lines[2..];
      if n == 2 {
        assert Texts(Merged(lines)) == [a.text + " " + b.text] + Texts(Merged(rest));
        SpacedCons(a.text + " " + b.text, Texts(Merged(rest)));
        SpacedCons(b.text, Texts(rest));
        assert Texts(lines) == [a.text] + ([b.text] + Texts(rest));
        SpacedCons(a.text, [b.text] + Texts(rest));
      } else {
        assert Texts(Merged(lines)) == [a.text] + Texts(Merged(rest));
        SpacedCons(a.text, Texts(Merged(rest)));
        SpacedCons(a.text, Texts(rest));
      }
    }
  }

  /** The same holds for the cleaned texts. */
  lemma {:induction false} MergedKeepsClean(lines: seq<Line>)
    ensures Spaced(Cleans(Merged(lines))) == Spaced(Cleans(lines))
    decreases |lines|
  {
    if |lines| >= 2 {
      var a, b := lines[0], lines[1];
      if CanMerge(a, b) {
        var rest := lines[2..];
        var m := Merged(rest);
        MergedKeepsClean(rest);
        MergedEmpty(rest);
        var c := CombinedClean(a, b);
        assert Merged(lines) == [Join(a, b)] + m;
        assert Cleans([Join(a, b)] + m) == [c] + Cleans(m) by {
          assert ([Join(a, b)] + m)[1..] == m;
        }
        SpacedCons(c, Cleans(m));
        assert lines[1..][1..] == rest;
        SpacedCons(b.clean, Cleans(rest));
        SpacedCons(a.clean, [b.clean] + Cleans(rest));
      } else {
        var rest := lines[1..];
        MergedKeepsClean(rest);
        MergedEmpty(rest);
        SpacedCons(a.clean, Cleans(Merged(rest)));
        SpacedCons(a.clean, Cleans(rest));
      }
    }
  }
}
