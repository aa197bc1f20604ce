/** Section boxes of one column (`draw_section_boundaries`): the column's
    blocks, in column order, are cut into sections at every block that
    contains a heading (compared without case), and each section is drawn
    as one rectangle around its blocks, labelled with its first block's
    text. The rectangle as written is moved by one point after every union
    instead of being grown once; the model draws the grown union for every
    section and keeps the as-written rectangle to show the difference. */
module Sections {
  import opened Text
  import opened Geometry
  import opened LayoutBlocks

  /** `is_header`: some heading's lower-cased text occurs in the block's
      stripped, lower-cased text. */
  predicate StartsSection(headings: seq<string>, b: Block) {
    exists h :: h in headings && IsSubstring(Lower(h), Lower(Strip(b.fullText)))
  }

  /** Lower-casing both strings keeps an occurrence. */
  lemma LowerKeepsOccurrence(p: string, s: string, i: int)
    requires OccursAt(p, s, i)
    ensures OccursAt(Lower(p), Lower(s), i)
  {
    assert Lower(s)[i..i + |p|] == Lower(p) by {
      forall k | 0 <= k < |p| ensures Lower(s)[i..i + |p|][k] == Lower(p)[k] {
        assert s[i..i + |p|][k] == p[k];
      }
    }
  }

  /** A block that contains a heading with its case as given starts a section. */
  lemma ContainsHeadingStarts(headings: seq<string>, b: Block)
    requires ContainsHeading(headings, b)
    ensures StartsSection(headings, b)
  {
    var h :| h in headings && IsSubstring(h, Strip(b.fullText));
    var i :| 0 <= i <= |Strip(b.fullText)| - |h| && OccursAt(h, Strip(b.fullText), i);
    LowerKeepsOccurrence(h, Strip(b.fullText), i);
  }

  // ---------------------------------------------------------------------
  // Grouping

  /** The sections of a column: every block that starts a section opens a
      new one, every other block joins the running one, and blocks before
      the first start form a section of their own. */
  function Group(blocks: seq<Block>, headings: seq<string>, col: seq<nat>): (groups: seq<seq<nat>>)
    ensures groups == [] <==> col == []
    ensures forall s :: 0 <= s < |groups| ==> groups[s] != []
  {
    if col == [] then []
    else
      var groups := Group(blocks, headings, col[..|col| - 1]);
      var b := col[|col| - 1];
      if groups == [] || StartsSection(headings, BlockAt(blocks, b)) then groups + [[b]]
      else groups[..|groups| - 1] + [groups[|groups| - 1] + [b]]
  }

  /** The sections one after the other. */
  function Concat(groups: seq<seq<nat>>): seq<nat> {
    if groups == [] then [] else Concat(groups[..|groups| - 1]) + groups[|groups| - 1]
  }

  lemma ConcatAppend(groups: seq<seq<nat>>, g: seq<nat>)
    ensures Concat(groups + [g]) == Concat(groups) + g
  {
    assert (groups + [g])[..|groups|] == groups;
  }

  /** The sections hold the column's blocks, in column order, each once. */
  lemma {:induction false} GroupConcat(blocks: seq<Block>, headings: seq<string>, col: seq<nat>)
    ensures Concat(Group(blocks, headings, col)) == col
  {
    if col != [] {
      var prefix := col[..|col| - 1];
      var groups := Group(blocks, headings, prefix);
      var b := col[|col| - 1];
      GroupConcat(blocks, headings, prefix);
      assert col == prefix + [b];
      if groups == [] || StartsSection(headings, BlockAt(blocks, b)) {
        ConcatAppend(groups, [b]);
      } else {
        var n := |groups|;
        var front := groups[..n - 1];
        assert groups == front + [groups[n - 1]];
        ConcatAppend(front, groups[n - 1]);
        ConcatAppend(front, groups[n - 1] + [b]);
        assert Concat(front) + (groups[n - 1] + [b]) == Concat(front) + groups[n - 1] + [b];
      }
    }
  }

  /** Every section but the first begins with a block that starts a section. */
  predicate OpenedByStarts(blocks: seq<Block>, headings: seq<string>, groups: seq<seq<nat>>) {
    forall s :: 0 < s < |groups| && groups[s] != [] ==> StartsSection(headings, BlockAt(blocks, groups[s][0]))
  }

  /** No block after the first of a section starts one. */
  predicate NoInnerStarts(blocks: seq<Block>, headings: seq<string>, groups: seq<seq<nat>>) {
    forall s, m :: 0 <= s < |groups| && 0 < m < |groups[s]| ==>
      !StartsSection(headings, BlockAt(blocks, groups[s][m]))
  }

  /** Sections are cut exactly at the blocks that start one: every section
      but the first opens with such a block and no other block is one. */
  lemma {:induction false} GroupStarts(blocks: seq<Block>, headings: seq<string>, col: seq<nat>)
    ensures OpenedByStarts(blocks, headings, Group(blocks, headings, col))
    ensures NoInnerStarts(blocks, headings, Group(blocks, headings, col))
  {
    if col != [] {
      GroupStarts(blocks, headings, col[..|col| - 1]);
      var groups := Group(blocks, headings, col[..|col| - 1]);
      var b := col[|col| - 1];
      var n := |groups|;
      if groups == [] || StartsSection(headings, BlockAt(blocks, b)) {
        var extended := groups + [[b]];
        forall s, m | 0 <= s <= n && 0 < m < |extended[s]|
          ensures !StartsSection(headings, BlockAt(blocks, extended[s][m]))
        {
          assert s < n && extended[s] == groups[s];
          assert !StartsSection(headings, BlockAt(blocks, groups[s][m]));
        }
        forall s | 0 < s <= n ensures StartsSection(headings, BlockAt(blocks, extended[s][0])) {
          if s < n {
            assert extended[s] == groups[s];
          } else {
            assert extended[s][0] == b;
          }
        }
      } else {
        var extended := groups[..n - 1] + [groups[n - 1] + [b]];
        forall s, m | 0 <= s < n && 0 < m < |extended[s]|
          ensures !StartsSection(headings, BlockAt(blocks, extended[s][m]))
        {
          if s < n - 1 {
            assert extended[s] == groups[s];
            assert !StartsSection(headings, BlockAt(blocks, groups[s][m]));
          } else if m < |groups[n - 1]| {
            assert extended[s][m] == groups[n - 1][m];
            assert !StartsSection(headings, BlockAt(blocks, groups[n - 1][m]));
          } else {
            assert extended[s][m] == b;
          }
        }
        forall s | 0 < s < n ensures StartsSection(headings, BlockAt(blocks, extended[s][0])) {
          if s < n - 1 {
            assert extended[s] == groups[s];
          } else {
            assert extended[s][0] == groups[n - 1][0];
          }
          assert StartsSection(headings, BlockAt(blocks, groups[s][0]));
        }
      }
    }
  }

  // ---------------------------------------------------------------------
  // Rectangles

  function BoxAt(blocks: seq<Block>, i: nat): Rect { BlockAt(blocks, i).box }

  /** `union_rect` of the last section: the boxes of the section's blocks
      joined left to right. */
  function UnionOf(blocks: seq<Block>, group: seq<nat>): Rect
    requires group != []
  {
    if |group| == 1 then BoxAt(blocks, group[0])
    else Union(UnionOf(blocks, group[..|group| - 1]), BoxAt(blocks, group[|group| - 1]))
  }

  /** The union encloses every block of the section ... */
  lemma {:induction false} UnionOfEncloses(blocks: seq<Block>, group: seq<nat>)
    requires group != []
    ensures forall k :: 0 <= k < |group| ==> Encloses(UnionOf(blocks, group), BoxAt(blocks, group[k]))
  {
    if |group| > 1 {
      var prefix := group[..|group| - 1];
      UnionOfEncloses(blocks, prefix);
      assert forall k :: 0 <= k < |prefix| ==> prefix[k] == group[k];
    }
  }

  /** ... and lies inside every rectangle that encloses all of them. */
  lemma {:induction false} UnionOfLeast(blocks: seq<Block>, group: seq<nat>, r: Rect)
    requires group != []
    requires forall k :: 0 <= k < |group| ==> Encloses(r, BoxAt(blocks, group[k]))
    ensures Encloses(r, UnionOf(blocks, group))
  {
    if |group| > 1 {
      var prefix := group[..|group| - 1];
      assert forall k :: 0 <= k < |prefix| ==> prefix[k] == group[k];
      UnionOfLeast(blocks, prefix, r);
    }
  }

  method GroupBox(blocks: seq<Block>, group: seq<nat>) returns (r: Rect)
    requires group != []
    ensures r == UnionOf(blocks, group)
  {
    r := BoxAt(blocks, group[0]);
    assert group[..1] == [group[0]];
    for k := 1 to |group|
      invariant r == UnionOf(blocks, group[..k])
    {
      assert group[..k + 1][..k] == group[..k];
      r := Union(r, BoxAt(blocks, group[k]));
    }
    assert group[..|group|] == group;
  }

  /** `union_rect` of a section closed by a heading block, as written: the
      `+= (1, 1, 1, 1)` sits inside the union loop, so after every union the
      rectangle moves one point right and down. */
  function ShiftedUnionOf(blocks: seq<Block>, group: seq<nat>): Rect
    requires group != []
  {
    if |group| == 1 then BoxAt(blocks, group[0])
    else Shift(Union(ShiftedUnionOf(blocks, group[..|group| - 1]), BoxAt(blocks, group[|group| - 1])), 1.0)
  }

  /** As written, a section of two or more blocks whose first block is
      leftmost gets a rectangle that starts at least one point right of that
      block, so the rectangle misses the section's own first block. */
  lemma {:induction false} ShiftedMissesFirst(blocks: seq<Block>, group: seq<nat>)
    requires |group| >= 2
    requires forall k :: 0 <= k < |group| ==> BoxAt(blocks, group[0]).x0 <= BoxAt(blocks, group[k]).x0
    ensures ShiftedUnionOf(blocks, group).x0 >= BoxAt(blocks, group[0]).x0 + 1.0
    ensures !Encloses(ShiftedUnionOf(blocks, group), BoxAt(blocks, group[0]))
  {
    var prefix := group[..|group| - 1];
    assert forall k :: 0 <= k < |prefix| ==> prefix[k] == group[k];
    if |group| > 2 {
      ShiftedMissesFirst(blocks, prefix);
    }
  }

  /** The rectangle drawn around a section: the union of its blocks grown by
      one point on every side. */
  function SectionBox(blocks: seq<Block>, group: seq<nat>): Rect
    requires group != []
  {
    Pad(UnionOf(blocks, group), 1.0)
  }

  /** The section rectangle encloses every block of the section with one
      point to spare on every side, and is the smallest such rectangle. */
  lemma SectionBoxFits(blocks: seq<Block>, group: seq<nat>, r: Rect)
    requires group != []
    ensures forall k :: 0 <= k < |group| ==> Encloses(SectionBox(blocks, group), Pad(BoxAt(blocks, group[k]), 1.0))
    ensures (forall k :: 0 <= k < |group| ==> Encloses(r, Pad(BoxAt(blocks, group[k]), 1.0))) ==>
      Encloses(r, SectionBox(blocks, group))
  {
    UnionOfEncloses(blocks, group);
    if forall k :: 0 <= k < |group| ==> Encloses(r, Pad(BoxAt(blocks, group[k]), 1.0)) {
      var inner := Rect(r.x0 + 1.0, r.y0 + 1.0, r.x1 - 1.0, r.y1 - 1.0);
      forall k | 0 <= k < |group| ensures Encloses(inner, BoxAt(blocks, group[k])) {
        assert Encloses(r, Pad(BoxAt(blocks, group[k]), 1.0));
      }
      UnionOfLeast(blocks, group, inner);
    }
  }

  // ---------------------------------------------------------------------
  // Drawing

  /** A drawn section: its rectangle and its caption. */
  datatype Boundary = Boundary(box: Rect, caption: string)

  /** The caption text after "Section: ": the first block's stripped,
      lower-cased text. */
  function Label(blocks: seq<Block>, group: seq<nat>): string
    requires group != []
  {
    Lower(Strip(BlockAt(blocks, group[0]).fullText))
  }

  /** The boundaries drawn for `groups`, in order. */
  function Boundaries(blocks: seq<Block>, groups: seq<seq<nat>>): seq<Boundary>
    requires forall s :: 0 <= s < |groups| ==> groups[s] != []
  {
    if groups == [] then []
    else
      Boundaries(blocks, groups[..|groups| - 1]) +
        [Boundary(SectionBox(blocks, groups[|groups| - 1]), Label(blocks, groups[|groups| - 1]))]
  }

  /** One more block of the column either opens a section or joins the
      running one. */
  lemma GroupStep(blocks: seq<Block>, headings: seq<string>, col: seq<nat>, k: nat)
    requires k < |col|
    ensures var groups := Group(blocks, headings, col[..k]);
      Group(blocks, headings, col[..k + 1]) ==
        if groups == [] || StartsSection(headings, BlockAt(blocks, col[k])) then groups + [[col[k]]]
        else groups[..|groups| - 1] + [groups[|groups| - 1] + [col[k]]]
  {
    assert col[..k + 1][..k] == col[..k];
  }

  lemma BoundariesStep(blocks: seq<Block>, groups: seq<seq<nat>>, g: seq<nat>)
    requires g != [] && forall s :: 0 <= s < |groups| ==> groups[s] != []
    ensures Boundaries(blocks, groups + [g]) ==
      Boundaries(blocks, groups) + [Boundary(SectionBox(blocks, g), Label(blocks, g))]
  {
    assert (groups + [g])[..|groups|] == groups;
  }

  /** The section loop: a block that starts a section closes the running
      group, if any, and opens a new one; the last group is closed after
      the loop. An empty column draws nothing. */
  method DrawSectionBoundaries(blocks: seq<Block>, headings: seq<string>, col: seq<nat>)
    returns (drawn: seq<Boundary>)
    ensures drawn == Boundaries(blocks, Group(blocks, headings, col))
  {
    drawn := [];
    if col == [] {
      return;
    }
    var current: seq<nat> := [];
    ghost var groups: seq<seq<nat>> := [];
    for k := 0 to |col|
      invariant groups == Group(blocks, headings, col[..k])
      invariant groups == [] ==> current == [] && drawn == []
      invariant groups != [] ==>
        current == groups[|groups| - 1] && drawn == Boundaries(blocks, groups[..|groups| - 1])
    {
      var b := col[k];
      GroupStep(blocks, headings, col, k);
      if StartsSection(headings, BlockAt(blocks, b)) {
        if current != [] {
          var box := GroupBox(blocks, current);
          assert groups == groups[..|groups| - 1] + [current];
          BoundariesStep(blocks, groups[..|groups| - 1], current);
          drawn := drawn + [Boundary(Pad(box, 1.0), Lower(Strip(BlockAt(blocks, current[0]).fullText)))];
        }
        ghost var before := groups;
        current := [b];
        groups := groups + [[b]];
        assert groups[..|groups| - 1] == before;
        assert groups == Group(blocks, headings, col[..k + 1]);
      } else {
        current := current + [b];
        if |groups| > 0 {
          ghost var closed := groups[..|groups| - 1];
          groups := closed + [current];
          assert groups[..|groups| - 1] == closed;
          assert groups == Group(blocks, headings, col[..k + 1]);
        } else {
          assert current == [b];
          groups := [current];
          assert groups == [] + [[col[k]]];
          assert groups == Group(blocks, headings, col[..k + 1]);
        }
      }
    }
    assert col[..|col|] == col;
    var box := GroupBox(blocks, current);
    assert groups == groups[..|groups| - 1] + [current];
    BoundariesStep(blocks, groups[..|groups| - 1], current);
    drawn := drawn + [Boundary(Pad(box, 1.0), Lower(Strip(BlockAt(blocks, current[0]).fullText)))];
  }
}
