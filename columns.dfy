/** The column assignment of a two-column page (`generate_layout_debug_pdf`,
    "Calculate Dynamic Center" and the three reconciliation passes that
    follow it). Body blocks are split at the mean of their left edges;
    pass A moves low left-column blocks that precede the first heading to
    the right column, pass B moves right-column blocks that no heading above
    them anchors to the left column, and pass C moves right-column blocks
    that follow an unusually large vertical gap to the left column. Blocks
    are positions in the top-sorted list of text blocks. */
module Columns {
  import opened Text
  import opened Lists
  import opened Geometry
  import opened LayoutBlocks
  import opened Bands

  /** `dynamic_center`, `left_col` and `right_col`. */
  datatype Columns = Columns(center: real, left: seq<nat>, right: seq<nat>)

  /** The left and right columns together hold the blocks of `body`, each once. */
  ghost predicate Partitions(cols: Columns, body: seq<nat>) {
    multiset(cols.left) + multiset(cols.right) == multiset(body)
  }

  /** A value at two positions of a list occurs at least twice in it. */
  lemma CountBoth(s: seq<nat>, i: nat, j: nat)
    requires i < j < |s|
    ensures multiset(s)[s[j]] >= if s[i] == s[j] then 2 else 1
  {
    var x := s[j];
    assert s == s[..j] + s[j..];
    assert s[..j][i] == s[i];
    assert s[j..][0] == x;
    assert multiset(s)[x] == multiset(s[..j])[x] + multiset(s[j..])[x];
    assert s[i] == x ==> multiset(s[..j])[x] >= 1;
  }

  /** No position occurs twice in a list without duplicates. */
  lemma DistinctIndex(s: seq<nat>, i: nat, j: nat)
    requires Distinct(s) && i < j < |s|
    ensures s[i] != s[j]
  {
    CountBoth(s, i, j);
    assert multiset(s)[s[j]] <= 1;
  }

  // ---------------------------------------------------------------------
  // The initial split at the dynamic center

  function X0(blocks: seq<Block>, i: nat): real { BlockAt(blocks, i).box.x0 }

  /** `body_x0_values`. */
  function X0s(blocks: seq<Block>, body: seq<nat>): seq<real> {
    seq(|body|, k requires 0 <= k < |body| => X0(blocks, body[k]))
  }

  /** The blocks of `body` left of `center` (`left`) or not (`!left`), in order. */
  function Side(blocks: seq<Block>, body: seq<nat>, center: real, left: bool): seq<nat> {
    if body == [] then []
    else
      Side(blocks, body[..|body| - 1], center, left) +
        if (X0(blocks, body[|body| - 1]) < center) == left then [body[|body| - 1]] else []
  }

  /** The columns right after the geometric split, each sorted by top edge. */
  function InitialColumns(blocks: seq<Block>, body: seq<nat>): Columns {
    var center := Mean(X0s(blocks, body));
    Columns(center, SortBy(Side(blocks, body, center, true), TopAt(blocks)),
            SortBy(Side(blocks, body, center, false), TopAt(blocks)))
  }

  method SplitAtCenter(blocks: seq<Block>, body: seq<nat>) returns (cols: Columns)
    ensures cols == InitialColumns(blocks, body)
  {
    var center := Mean(X0s(blocks, body));
    var left, right := [], [];
    for k := 0 to |body|
      invariant left == Side(blocks, body[..k], center, true)
      invariant right == Side(blocks, body[..k], center, false)
    {
      assert body[..k + 1][..k] == body[..k];
      if X0(blocks, body[k]) < center {
        left := left + [body[k]];
      } else {
        right := right + [body[k]];
      }
    }
    assert body[..|body|] == body;
    cols := Columns(center, SortBy(left, TopAt(blocks)), SortBy(right, TopAt(blocks)));
  }

  /** A block goes left exactly when its left edge is left of the center. */
  lemma {:induction false} SideMembers(blocks: seq<Block>, body: seq<nat>, center: real, left: bool)
    ensures forall i :: i in Side(blocks, body, center, left) <==>
      i in body && (X0(blocks, i) < center) == left
  {
    if body != [] {
      var t := body[..|body| - 1];
      SideMembers(blocks, t, center, left);
      assert body == t + [body[|body| - 1]];
    }
  }

  /** The two sides hold every block of `body` once. */
  lemma {:induction false} SidesPartition(blocks: seq<Block>, body: seq<nat>, center: real)
    ensures multiset(Side(blocks, body, center, true)) + multiset(Side(blocks, body, center, false)) ==
      multiset(body)
  {
    if body != [] {
      var t := body[..|body| - 1];
      var last := body[|body| - 1];
      SidesPartition(blocks, t, center);
      assert body == t + [last];
      if X0(blocks, last) < center {
        assert Side(blocks, body, center, true) == Side(blocks, t, center, true) + [last];
        assert Side(blocks, body, center, false) == Side(blocks, t, center, false);
      } else {
        assert Side(blocks, body, center, true) == Side(blocks, t, center, true);
        assert Side(blocks, body, center, false) == Side(blocks, t, center, false) + [last];
      }
    }
  }

  /** The initial columns split `body` by left edge against the mean left
      edge, are sorted by top edge, and the right one is never empty: some
      block is at least as far right as the mean. */
  lemma InitialSplit(blocks: seq<Block>, body: seq<nat>)
    requires body != []
    ensures var cols := InitialColumns(blocks, body);
      cols.center == Mean(X0s(blocks, body)) &&
      Partitions(cols, body) &&
      SortedBy(cols.left, TopAt(blocks)) && SortedBy(cols.right, TopAt(blocks)) &&
      (forall i :: i in cols.left <==> i in body && X0(blocks, i) < cols.center) &&
      cols.right != []
  {
    var xs := X0s(blocks, body);
    var c := Mean(xs);
    var l := Side(blocks, body, c, true);
    var r := Side(blocks, body, c, false);
    SidesPartition(blocks, body, c);
    SideMembers(blocks, body, c, true);
    SideMembers(blocks, body, c, false);
    SortByShape(l, TopAt(blocks));
    SortByShape(r, TopAt(blocks));
    forall i ensures i in SortBy(l, TopAt(blocks)) <==> i in l {
      assert i in SortBy(l, TopAt(blocks)) <==> i in multiset(SortBy(l, TopAt(blocks)));
    }
    MeanReached(xs);
    var k :| 0 <= k < |xs| && xs[k] >= c;
    assert body[k] in r;
    assert body[k] in multiset(SortBy(r, TopAt(blocks)));
  }

  // ---------------------------------------------------------------------
  // Moving a work list from one column to the other

  /** `for b in moves: if b in src: src.remove(b)` then `dst.append(b)`;
      the result is the new source and the new destination. */
  function MoveAll(src: seq<nat>, dst: seq<nat>, moves: seq<nat>): (seq<nat>, seq<nat>)
    decreases |moves|
  {
    if moves == [] then (src, dst)
    else MoveAll(if moves[0] in src then Remove(src, moves[0]) else src, dst + [moves[0]], moves[1..])
  }

  method MoveBlocks(src: seq<nat>, dst: seq<nat>, moves: seq<nat>) returns (src': seq<nat>, dst': seq<nat>)
    ensures (src', dst') == MoveAll(src, dst, moves)
  {
    src', dst' := src, dst;
    for k := 0 to |moves|
      invariant MoveAll(src', dst', moves[k..]) == MoveAll(src, dst, moves)
    {
      assert moves[k..][1..] == moves[k + 1..];
      var b := moves[k];
      if b in src' {
        src' := Remove(src', b);
      }
      dst' := dst' + [b];
    }
  }

  lemma {:induction false} MoveAllFrom(src: seq<nat>, done: seq<nat>, rest: seq<nat>, dst: seq<nat>)
    requires Distinct(src) && multiset(done + rest) <= multiset(src)
    ensures MoveAll(Without(src, done), dst, rest) == (Without(src, done + rest), dst + rest)
    decreases |rest|
  {
    if rest == [] {
      assert done + rest == done;
      assert dst + rest == dst;
    } else {
      var x := rest[0];
      DistinctPart(done + rest, src);
      assert done + rest == done + [x] + rest[1..];
      assert multiset(done + rest)[x] == multiset(done)[x] + multiset(rest)[x];
      assert x in multiset(rest);
      assert multiset(done)[x] == 0;
      assert x in multiset(src);
      WithoutMember(src, done, x);
      RemoveWithout(src, done, x);
      MoveAllFrom(src, done + [x], rest[1..], dst + [x]);
      assert dst + [x] + rest[1..] == dst + rest;
    }
  }

  /** Moving distinct members of a list without duplicates takes exactly
      them out of the source, in order, and appends them to the destination. */
  lemma MoveAllIs(src: seq<nat>, dst: seq<nat>, moves: seq<nat>)
    requires Distinct(src) && multiset(moves) <= multiset(src)
    ensures MoveAll(src, dst, moves) == (Without(src, moves), dst + moves)
  {
    WithoutNothing(src);
    assert [] + moves == moves;
    MoveAllFrom(src, [], moves, dst);
  }

  /** A move loses and duplicates no block. */
  lemma MoveKeeps(src: seq<nat>, dst: seq<nat>, moves: seq<nat>)
    requires Distinct(src) && multiset(moves) <= multiset(src)
    ensures var (s, d) := MoveAll(src, dst, moves);
      multiset(s) + multiset(d) == multiset(src) + multiset(dst)
  {
    MoveAllIs(src, dst, moves);
    DistinctPart(moves, src);
    forall x | x in moves ensures x in src {
      assert x in multiset(moves);
    }
    WithoutSplit(src, moves);
  }

  /** A move between the columns of a partition gives a partition. */
  lemma MovePartitions(src: seq<nat>, dst: seq<nat>, moves: seq<nat>, body: seq<nat>)
    requires Distinct(body) && multiset(src) + multiset(dst) == multiset(body)
    requires multiset(moves) <= multiset(src)
    ensures var (s, d) := MoveAll(src, dst, moves); multiset(s) + multiset(d) == multiset(body)
  {
    DistinctPart(src, body);
    MoveKeeps(src, dst, moves);
  }

  // ---------------------------------------------------------------------
  // Pass A: left to right, up to the first heading

  /** The left-column blocks before the first one containing a heading that
      are not above the split threshold. */
  function MovesA(blocks: seq<Block>, threshold: real, headings: seq<string>, left: seq<nat>): seq<nat> {
    if left == [] || ContainsHeading(headings, BlockAt(blocks, left[0])) then []
    else
      (if AboveSplit(BlockAt(blocks, left[0]), threshold) then [] else [left[0]]) +
        MovesA(blocks, threshold, headings, left[1..])
  }

  /** One step of pass A past a block without a heading. */
  lemma MovesAStep(blocks: seq<Block>, threshold: real, headings: seq<string>, left: seq<nat>, k: nat)
    requires k < |left| && !ContainsHeading(headings, BlockAt(blocks, left[k]))
    ensures MovesA(blocks, threshold, headings, left[k..]) ==
      (if AboveSplit(BlockAt(blocks, left[k]), threshold) then [] else [left[k]]) +
        MovesA(blocks, threshold, headings, left[k + 1..])
  {
    assert left[k..][1..] == left[k + 1..];
  }

  method CollectMovesA(blocks: seq<Block>, threshold: real, headings: seq<string>, left: seq<nat>)
    returns (moves: seq<nat>)
    ensures moves == MovesA(blocks, threshold, headings, left)
  {
    moves := [];
    var k := 0;
    while k < |left|
      invariant 0 <= k <= |left|
      invariant moves + MovesA(blocks, threshold, headings, left[k..]) == MovesA(blocks, threshold, headings, left)
    {
      var b := BlockAt(blocks, left[k]);
      if ContainsHeading(headings, b) {
        assert moves + [] == moves;
        break;
      }
      MovesAStep(blocks, threshold, headings, left, k);
      ghost var rest := MovesA(blocks, threshold, headings, left[k + 1..]);
      if !AboveSplit(b, threshold) {
        assert moves + MovesA(blocks, threshold, headings, left[k..]) == (moves + [left[k]]) + rest;
        moves := moves + [left[k]];
      } else {
        assert MovesA(blocks, threshold, headings, left[k..]) == rest;
      }
      k := k + 1;
    }
  }

  /** Block `k` of the left column comes before every block containing a
      heading and is not above the threshold. */
  predicate MovedByA(blocks: seq<Block>, threshold: real, headings: seq<string>, left: seq<nat>, k: nat)
    requires k < |left|
  {
    !AboveSplit(BlockAt(blocks, left[k]), threshold) &&
    forall m :: 0 <= m <= k ==> !ContainsHeading(headings, BlockAt(blocks, left[m]))
  }

  /** Pass A moves exactly the blocks not above the threshold that precede
      the first left-column block containing a heading. */
  lemma {:induction false} MovesAMembers(blocks: seq<Block>, threshold: real, headings: seq<string>,
                                         left: seq<nat>, x: nat)
    ensures x in MovesA(blocks, threshold, headings, left) <==>
      exists k :: 0 <= k < |left| && left[k] == x && MovedByA(blocks, threshold, headings, left, k)
  {
    if left == [] {
    } else if ContainsHeading(headings, BlockAt(blocks, left[0])) {
      forall k | 0 <= k < |left| ensures !MovedByA(blocks, threshold, headings, left, k) {
        assert left[0] == left[0];
      }
    } else {
      var t := left[1..];
      MovesAMembers(blocks, threshold, headings, t, x);
      forall k | 0 <= k < |t|
        ensures MovedByA(blocks, threshold, headings, t, k) <==> MovedByA(blocks, threshold, headings, left, k + 1)
      {
        assert forall m :: 0 <= m <= k ==> t[m] == left[m + 1];
      }
      if x in MovesA(blocks, threshold, headings, left) {
        if x in MovesA(blocks, threshold, headings, t) {
          var k :| 0 <= k < |t| && t[k] == x && MovedByA(blocks, threshold, headings, t, k);
          assert left[k + 1] == x;
        } else {
          assert MovedByA(blocks, threshold, headings, left, 0);
        }
      }
      if exists k :: 0 <= k < |left| && left[k] == x && MovedByA(blocks, threshold, headings, left, k) {
        var k :| 0 <= k < |left| && left[k] == x && MovedByA(blocks, threshold, headings, left, k);
        if k > 0 {
          assert t[k - 1] == x;
        }
      }
    }
  }

  lemma {:induction false} MovesAPart(blocks: seq<Block>, threshold: real, headings: seq<string>, left: seq<nat>)
    ensures multiset(MovesA(blocks, threshold, headings, left)) <= multiset(left)
  {
    if left != [] && !ContainsHeading(headings, BlockAt(blocks, left[0])) {
      MovesAPart(blocks, threshold, headings, left[1..]);
      assert left == [left[0]] + left[1..];
    }
  }

  /** `to_move_to_right` leaves the left column and is appended to the right one. */
  function PassA(blocks: seq<Block>, threshold: real, headings: seq<string>, cols: Columns): Columns {
    var moved := MoveAll(cols.left, cols.right, MovesA(blocks, threshold, headings, cols.left));
    Columns(cols.center, moved.0, moved.1)
  }

  /** Pass A removes its moves from the left column, keeping the order of the
      rest, and appends them to the right column in left-column order. */
  lemma PassAMoves(blocks: seq<Block>, threshold: real, headings: seq<string>, cols: Columns)
    requires Distinct(cols.left)
    ensures var m := MovesA(blocks, threshold, headings, cols.left);
      PassA(blocks, threshold, headings, cols) == Columns(cols.center, Without(cols.left, m), cols.right + m)
  {
    MovesAPart(blocks, threshold, headings, cols.left);
    MoveAllIs(cols.left, cols.right, MovesA(blocks, threshold, headings, cols.left));
  }

  lemma PassAPartitions(blocks: seq<Block>, threshold: real, headings: seq<string>, cols: Columns, body: seq<nat>)
    requires Distinct(body) && Partitions(cols, body)
    ensures Partitions(PassA(blocks, threshold, headings, cols), body)
  {
    MovesAPart(blocks, threshold, headings, cols.left);
    MovePartitions(cols.left, cols.right, MovesA(blocks, threshold, headings, cols.left), body);
  }

  // ---------------------------------------------------------------------
  // Pass B: right to left, unless a heading above anchors the block

  /** Block `h` is a heading block that anchors block `b` in the right
      column: it is above `b`, starts at most 10 pt right of it and starts at
      or right of the center. */
  predicate Anchors(blocks: seq<Block>, headings: seq<string>, center: real, h: nat, b: nat) {
    var hb := BlockAt(blocks, h);
    var nb := BlockAt(blocks, b);
    EqualsHeading(headings, hb) && hb.box.y1 < nb.box.y0 && hb.box.x0 <= nb.box.x0 + 10.0 &&
    hb.box.x0 >= center
  }

  /** `found_header` for block `i` of the right column. */
  predicate Anchored(blocks: seq<Block>, headings: seq<string>, center: real, right: seq<nat>, i: nat)
    requires i < |right|
  {
    exists j :: 0 <= j < i && Anchors(blocks, headings, center, right[j], right[i])
  }

  /** Block `i` of the right column is not itself a heading and no earlier
      block anchors it. */
  predicate LeavesRight(blocks: seq<Block>, headings: seq<string>, center: real, right: seq<nat>, i: nat)
    requires i < |right|
  {
    !EqualsHeading(headings, BlockAt(blocks, right[i])) && !Anchored(blocks, headings, center, right, i)
  }

  /** `to_move_to_left` after the first `k` blocks of the right column. */
  function MovesB(blocks: seq<Block>, headings: seq<string>, center: real, right: seq<nat>, k: nat): seq<nat>
    requires k <= |right|
  {
    if k == 0 then []
    else
      var m := MovesB(blocks, headings, center, right, k - 1);
      if LeavesRight(blocks, headings, center, right, k - 1) && right[k - 1] !in m then m + [right[k - 1]]
      else m
  }

  method FindAnchor(blocks: seq<Block>, headings: seq<string>, center: real, right: seq<nat>, i: nat)
    returns (found: bool)
    requires i < |right|
    ensures found == Anchored(blocks, headings, center, right, i)
  {
    var normal := BlockAt(blocks, right[i]);
    for j := 0 to i
      invariant forall m :: 0 <= m < j ==> !Anchors(blocks, headings, center, right[m], right[i])
    {
      if EqualsHeading(headings, BlockAt(blocks, right[j])) {
        var header := BlockAt(blocks, right[j]);
        if header.box.y1 < normal.box.y0 && header.box.x0 <= normal.box.x0 + 10.0 && header.box.x0 >= center {
          assert Anchors(blocks, headings, center, right[j], right[i]);
          return true;
        }
      }
    }
    return false;
  }

  method CollectMovesB(blocks: seq<Block>, headings: seq<string>, center: real, right: seq<nat>)
    returns (moves: seq<nat>)
    ensures moves == MovesB(blocks, headings, center, right, |right|)
  {
    moves := [];
    for i := 0 to |right|
      invariant moves == MovesB(blocks, headings, center, right, i)
    {
      var normal := BlockAt(blocks, right[i]);
      if !EqualsHeading(headings, normal) {
        var found := FindAnchor(blocks, headings, center, right, i);
        if !found && right[i] !in moves {
          moves := moves + [right[i]];
        }
      }
    }
  }

  /** Pass B moves exactly the right-column blocks that leave the right column. */
  lemma {:induction false} MovesBMembers(blocks: seq<Block>, headings: seq<string>, center: real,
                                         right: seq<nat>, k: nat, x: nat)
    requires k <= |right|
    ensures x in MovesB(blocks, headings, center, right, k) <==>
      exists i :: 0 <= i < k && right[i] == x && LeavesRight(blocks, headings, center, right, i)
  {
    if k > 0 {
      MovesBMembers(blocks, headings, center, right, k - 1, x);
    }
  }

  lemma {:induction false} MovesBPart(blocks: seq<Block>, headings: seq<string>, center: real,
                                      right: seq<nat>, k: nat)
    requires k <= |right|
    ensures multiset(MovesB(blocks, headings, center, right, k)) <= multiset(right[..k])
  {
    if k > 0 {
      var before := MovesB(blocks, headings, center, right, k - 1);
      MovesBPart(blocks, headings, center, right, k - 1);
      PrefixStep(right, k - 1);
      var grow := LeavesRight(blocks, headings, center, right, k - 1) && right[k - 1] !in before;
      assert MovesB(blocks, headings, center, right, k) == before + if grow then [right[k - 1]] else [];
      SubStep(before, right[..k - 1], right[k - 1], grow);
    }
  }

  /** A block whose text is a heading stays in the right column, and so does
      a block anchored by a heading block above it; every other block moves. */
  lemma PassBKeepsHeadings(blocks: seq<Block>, headings: seq<string>, center: real, right: seq<nat>, i: nat)
    requires Distinct(right) && i < |right|
    ensures right[i] in MovesB(blocks, headings, center, right, |right|) <==>
      !EqualsHeading(headings, BlockAt(blocks, right[i])) && !Anchored(blocks, headings, center, right, i)
  {
    MovesBMembers(blocks, headings, center, right, |right|, right[i]);
    forall j | 0 <= j < |right| && right[j] == right[i] ensures j == i {
      if j < i {
        DistinctIndex(right, j, i);
      } else if i < j {
        DistinctIndex(right, i, j);
      }
    }
  }

  /** `to_move_to_left` leaves the right column and is appended to the left
      one; then both columns are sorted by top edge. */
  function PassB(blocks: seq<Block>, headings: seq<string>, cols: Columns): Columns {
    var moved := MoveAll(cols.right, cols.left, MovesB(blocks, headings, cols.center, cols.right, |cols.right|));
    Columns(cols.center, SortBy(moved.1, TopAt(blocks)), SortBy(moved.0, TopAt(blocks)))
  }

  /** After pass B the left column holds its blocks and the moved ones, the
      right column the blocks that stay, both sorted by top edge. */
  lemma PassBMoves(blocks: seq<Block>, headings: seq<string>, cols: Columns)
    requires Distinct(cols.right)
    ensures var m := MovesB(blocks, headings, cols.center, cols.right, |cols.right|);
      var after := PassB(blocks, headings, cols);
      multiset(after.left) == multiset(cols.left + m) &&
      multiset(after.right) == multiset(Without(cols.right, m)) &&
      SortedBy(after.left, TopAt(blocks)) && SortedBy(after.right, TopAt(blocks))
  {
    var m := MovesB(blocks, headings, cols.center, cols.right, |cols.right|);
    MovesBPart(blocks, headings, cols.center, cols.right, |cols.right|);
    assert cols.right[..|cols.right|] == cols.right;
    MoveAllIs(cols.right, cols.left, m);
    SortByShape(cols.left + m, TopAt(blocks));
    SortByShape(Without(cols.right, m), TopAt(blocks));
  }

  lemma PassBPartitions(blocks: seq<Block>, headings: seq<string>, cols: Columns, body: seq<nat>)
    requires Distinct(body) && Partitions(cols, body)
    ensures Partitions(PassB(blocks, headings, cols), body)
  {
    var m := MovesB(blocks, headings, cols.center, cols.right, |cols.right|);
    MovesBPart(blocks, headings, cols.center, cols.right, |cols.right|);
    assert cols.right[..|cols.right|] == cols.right;
    MovePartitions(cols.right, cols.left, m, body);
    var moved := MoveAll(cols.right, cols.left, m);
    SortByShape(moved.0, TopAt(blocks));
    SortByShape(moved.1, TopAt(blocks));
  }

  // ---------------------------------------------------------------------
  // Pass C: right to left after a large gap

  /** The gap from block `i` of the right column down to the next one is at
      least `limit`. */
  predicate WideGap(blocks: seq<Block>, right: seq<nat>, limit: real, i: nat)
    requires i + 1 < |right|
  {
    BlockAt(blocks, right[i + 1]).box.y0 - BlockAt(blocks, right[i]).box.y1 >= limit
  }

  /** `gap_found` after step `i`: the block is no heading block, and either
      the flag was already set or a wide gap leads to a block without a
      heading. */
  predicate GapFlag(blocks: seq<Block>, headings: seq<string>, right: seq<nat>, limit: real, i: nat)
    requires i + 1 < |right|
  {
    !ContainsHeading(headings, BlockAt(blocks, right[i])) &&
    ((i > 0 && GapFlag(blocks, headings, right, limit, i - 1)) ||
     (WideGap(blocks, right, limit, i) && !ContainsHeading(headings, BlockAt(blocks, right[i + 1]))))
  }

  /** The steps of `for i in range(len(right_col) - 1)`. */
  function GapSteps(right: seq<nat>): nat {
    if right == [] then 0 else |right| - 1
  }

  /** `to_move_to_left` after steps `0 .. k - 1`: the block after each step
      that ends with the flag set. */
  function MovesC(blocks: seq<Block>, headings: seq<string>, right: seq<nat>, limit: real, k: nat): seq<nat>
    requires k == 0 || k < |right|
  {
    if k == 0 then []
    else
      MovesC(blocks, headings, right, limit, k - 1) +
        if GapFlag(blocks, headings, right, limit, k - 1) then [right[k]] else []
  }

  method CollectMovesC(blocks: seq<Block>, headings: seq<string>, right: seq<nat>, limit: real)
    returns (moves: seq<nat>)
    ensures moves == MovesC(blocks, headings, right, limit, GapSteps(right))
  {
    var gapFound := false;
    moves := [];
    var i := 0;
    while i < |right| - 1
      invariant 0 <= i && (i == 0 || i < |right|)
      invariant i <= GapSteps(right)
      invariant moves == MovesC(blocks, headings, right, limit, i)
      invariant gapFound == (i > 0 && GapFlag(blocks, headings, right, limit, i - 1))
    {
      var normal := BlockAt(blocks, right[i]);
      if ContainsHeading(headings, normal) {
        gapFound := false;
      } else {
        var next := BlockAt(blocks, right[i + 1]);
        if next.box.y0 - normal.box.y1 >= limit && !gapFound && !ContainsHeading(headings, next) {
          gapFound := true;
        }
        if gapFound {
          moves := moves + [right[i + 1]];
        }
      }
      i := i + 1;
    }
  }

  /** The flag is set after step `j` exactly when some step `i <= j` saw a
      wide gap to a block without a heading and no block from `i` to `j`
      contains a heading: a heading block resets it and it stays set until
      then. */
  lemma {:induction false} GapFlagRule(blocks: seq<Block>, headings: seq<string>, right: seq<nat>,
                                       limit: real, j: nat)
    requires j + 1 < |right|
    ensures GapFlag(blocks, headings, right, limit, j) <==>
      exists i :: 0 <= i <= j && WideGap(blocks, right, limit, i) &&
        !ContainsHeading(headings, BlockAt(blocks, right[i + 1])) &&
        forall m :: i <= m <= j ==> !ContainsHeading(headings, BlockAt(blocks, right[m]))
  {
    if j > 0 {
      GapFlagRule(blocks, headings, right, limit, j - 1);
    }
    if GapFlag(blocks, headings, right, limit, j) {
      if WideGap(blocks, right, limit, j) && !ContainsHeading(headings, BlockAt(blocks, right[j + 1])) {
        assert !ContainsHeading(headings, BlockAt(blocks, right[j]));
      } else {
        var i :| 0 <= i <= j - 1 && WideGap(blocks, right, limit, i) &&
          !ContainsHeading(headings, BlockAt(blocks, right[i + 1])) &&
          forall m :: i <= m <= j - 1 ==> !ContainsHeading(headings, BlockAt(blocks, right[m]));
        assert forall m :: i <= m <= j ==> !ContainsHeading(headings, BlockAt(blocks, right[m]));
      }
    }
  }

  /** Pass C moves exactly the blocks that follow a step ending with the flag set. */
  lemma {:induction false} MovesCMembers(blocks: seq<Block>, headings: seq<string>, right: seq<nat>,
                                         limit: real, k: nat, x: nat)
    requires k == 0 || k < |right|
    ensures x in MovesC(blocks, headings, right, limit, k) <==>
      exists i :: 0 <= i < k && right[i + 1] == x && GapFlag(blocks, headings, right, limit, i)
  {
    if k > 0 {
      var last := k - 1;
      MovesCMembers(blocks, headings, right, limit, last, x);
      var before := MovesC(blocks, headings, right, limit, last);
      if GapFlag(blocks, headings, right, limit, last) {
        assert MovesC(blocks, headings, right, limit, k) == before + [right[k]];
        if x == right[k] {
          assert 0 <= last < k && right[last + 1] == x && GapFlag(blocks, headings, right, limit, last);
          assert exists i :: 0 <= i < k && right[i + 1] == x && GapFlag(blocks, headings, right, limit, i);
          assert x in MovesC(blocks, headings, right, limit, k);
        }
      } else {
        assert MovesC(blocks, headings, right, limit, k) == before;
      }
    }
  }

  lemma {:induction false} MovesCPart(blocks: seq<Block>, headings: seq<string>, right: seq<nat>,
                                      limit: real, k: nat)
    requires k < |right|
    ensures multiset(MovesC(blocks, headings, right, limit, k)) <= multiset(right[1..k + 1])
  {
    if k > 0 {
      MovesCPart(blocks, headings, right, limit, k - 1);
      SliceStep(right, 1, k);
      SubStep(MovesC(blocks, headings, right, limit, k - 1), right[1..k], right[k],
              GapFlag(blocks, headings, right, limit, k - 1));
    }
  }

  /** The first block of the right column never moves in pass C. */
  lemma GapKeepsFirst(blocks: seq<Block>, headings: seq<string>, right: seq<nat>, limit: real)
    requires Distinct(right) && right != []
    ensures right[0] !in MovesC(blocks, headings, right, limit, GapSteps(right))
  {
    MovesCMembers(blocks, headings, right, limit, GapSteps(right), right[0]);
    forall j | 0 < j < |right| ensures right[j] != right[0] {
      DistinctIndex(right, 0, j);
    }
  }

  /** `avg_header_gap + avg_header_block_height + 5`. */
  function GapLimit(avgGap: real, avgHeight: real): real { avgGap + avgHeight + 5.0 }

  /** Pass C runs only when the average header height and the average gap
      after a heading are both positive; its moves leave the right column
      and are appended to the left one, without sorting. */
  function PassC(blocks: seq<Block>, headings: seq<string>, avgGap: real, avgHeight: real, cols: Columns): Columns {
    if avgHeight > 0.0 && avgGap > 0.0 then
      var m := MovesC(blocks, headings, cols.right, GapLimit(avgGap, avgHeight), GapSteps(cols.right));
      var moved := MoveAll(cols.right, cols.left, m);
      Columns(cols.center, moved.1, moved.0)
    else cols
  }

  lemma MovesCWithin(blocks: seq<Block>, headings: seq<string>, right: seq<nat>, limit: real)
    ensures multiset(MovesC(blocks, headings, right, limit, GapSteps(right))) <= multiset(right)
  {
    if right != [] {
      MovesCPart(blocks, headings, right, limit, |right| - 1);
      assert right == [right[0]] + right[1..|right|];
    }
  }

  /** When pass C runs, its moves leave the right column in order and follow
      the left column's blocks. */
  lemma PassCMoves(blocks: seq<Block>, headings: seq<string>, avgGap: real, avgHeight: real, cols: Columns)
    requires Distinct(cols.right) && avgHeight > 0.0 && avgGap > 0.0
    ensures var m := MovesC(blocks, headings, cols.right, GapLimit(avgGap, avgHeight), GapSteps(cols.right));
      PassC(blocks, headings, avgGap, avgHeight, cols) == Columns(cols.center, cols.left + m, Without(cols.right, m))
  {
    var limit := GapLimit(avgGap, avgHeight);
    var m := MovesC(blocks, headings, cols.right, limit, GapSteps(cols.right));
    MovesCWithin(blocks, headings, cols.right, limit);
    MoveAllIs(cols.right, cols.left, m);
  }

  lemma PassCPartitions(blocks: seq<Block>, headings: seq<string>, avgGap: real, avgHeight: real,
                        cols: Columns, body: seq<nat>)
    requires Distinct(body) && Partitions(cols, body)
    ensures Partitions(PassC(blocks, headings, avgGap, avgHeight, cols), body)
  {
    if avgHeight > 0.0 && avgGap > 0.0 {
      var limit := GapLimit(avgGap, avgHeight);
      MovesCWithin(blocks, headings, cols.right, limit);
      MovePartitions(cols.right, cols.left, MovesC(blocks, headings, cols.right, limit, GapSteps(cols.right)), body);
    }
  }

  // ---------------------------------------------------------------------
  // The whole column assignment

  /** The columns of the body blocks; no body gives empty columns around 0. */
  function Arrange(blocks: seq<Block>, threshold: real, headings: seq<string>, body: seq<nat>,
                   avgGap: real, avgHeight: real): Columns
  {
    if body == [] then Columns(0.0, [], [])
    else
      var a := PassA(blocks, threshold, headings, InitialColumns(blocks, body));
      PassC(blocks, headings, avgGap, avgHeight, PassB(blocks, headings, a))
  }

  method RunPassA(blocks: seq<Block>, threshold: real, headings: seq<string>, cols: Columns) returns (r: Columns)
    ensures r == PassA(blocks, threshold, headings, cols)
  {
    var toRight := CollectMovesA(blocks, threshold, headings, cols.left);
    var left, right := MoveBlocks(cols.left, cols.right, toRight);
    r := Columns(cols.center, left, right);
  }

  method RunPassB(blocks: seq<Block>, headings: seq<string>, cols: Columns) returns (r: Columns)
    ensures r == PassB(blocks, headings, cols)
  {
    var toLeft := CollectMovesB(blocks, headings, cols.center, cols.right);
    var right, left := MoveBlocks(cols.right, cols.left, toLeft);
    r := Columns(cols.center, SortBy(left, TopAt(blocks)), SortBy(right, TopAt(blocks)));
  }

  method RunPassC(blocks: seq<Block>, headings: seq<string>, avgGap: real, avgHeight: real, cols: Columns)
    returns (r: Columns)
    ensures r == PassC(blocks, headings, avgGap, avgHeight, cols)
  {
    r := cols;
    if avgHeight > 0.0 && avgGap > 0.0 {
      var afterGap := CollectMovesC(blocks, headings, cols.right, GapLimit(avgGap, avgHeight));
      var right, left := MoveBlocks(cols.right, cols.left, afterGap);
      r := Columns(cols.center, left, right);
    }
  }

  method ArrangeColumns(blocks: seq<Block>, threshold: real, headings: seq<string>, body: seq<nat>,
                        avgGap: real, avgHeight: real) returns (cols: Columns)
    ensures cols == Arrange(blocks, threshold, headings, body, avgGap, avgHeight)
  {
    if body == [] {
      return Columns(0.0, [], []);
    }
    cols := SplitAtCenter(blocks, body);
    cols := RunPassA(blocks, threshold, headings, cols);
    cols := RunPassB(blocks, headings, cols);
    cols := RunPassC(blocks, headings, avgGap, avgHeight, cols);
  }

  /** Every body block ends in exactly one column. */
  lemma ArrangePartitions(blocks: seq<Block>, threshold: real, headings: seq<string>, body: seq<nat>,
                          avgGap: real, avgHeight: real)
    requires Distinct(body)
    ensures Partitions(Arrange(blocks, threshold, headings, body, avgGap, avgHeight), body)
  {
    if body != [] {
      var init := InitialColumns(blocks, body);
      InitialSplit(blocks, body);
      PassAPartitions(blocks, threshold, headings, init, body);
      var a := PassA(blocks, threshold, headings, init);
      PassBPartitions(blocks, headings, a, body);
      PassCPartitions(blocks, headings, avgGap, avgHeight, PassB(blocks, headings, a), body);
    }
  }
}
