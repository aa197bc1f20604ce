/** The first classification of a two-column page (`generate_layout_debug_pdf`,
    "Initial Classification"): blocks above the split line that carry no
    heading, follow no body block and use no body-sized font form the page
    header band; every other block is body. */
module Bands {
  import opened Text
  import opened Lists
  import opened Geometry
  import opened Page
  import opened LayoutBlocks

  /** Entirely above the threshold, or straddling it. */
  predicate AboveSplit(b: Block, threshold: real) {
    b.box.y1 <= threshold || (b.box.y0 < threshold && b.box.y1 > threshold)
  }

  /** Some span of the block is at most 2 pt above the body size (sizes in
      tenths of a point). */
  predicate SmallFont(b: Block, bodySize: int) {
    exists l, s :: l in b.lines && s in l.spans && s.size <= bodySize + 20
  }

  /** Whether block `i` goes to `body_blocks`: it is below the threshold,
      contains a heading, follows a body block or has a small span. */
  predicate IsBody(blocks: seq<Block>, threshold: real, headings: seq<string>, bodySize: int, i: nat)
    requires i < |blocks|
  {
    !AboveSplit(blocks[i], threshold) || ContainsHeading(headings, blocks[i]) ||
    (i > 0 && IsBody(blocks, threshold, headings, bodySize, i - 1)) ||
    SmallFont(blocks[i], bodySize)
  }

  /** The positions below `k` that are body (`inBody`) or header band. */
  function Band(blocks: seq<Block>, threshold: real, headings: seq<string>, bodySize: int,
                k: nat, inBody: bool): seq<nat>
    requires k <= |blocks|
  {
    if k == 0 then []
    else
      Band(blocks, threshold, headings, bodySize, k - 1, inBody) +
        if IsBody(blocks, threshold, headings, bodySize, k - 1) == inBody then [k - 1] else []
  }

  /** The classification loop; `prev_was_body` looks the previous block up
      in the body list built so far. */
  method ClassifyBands(blocks: seq<Block>, threshold: real, headings: seq<string>, bodySize: int)
    returns (header: seq<nat>, body: seq<nat>)
    ensures header == Band(blocks, threshold, headings, bodySize, |blocks|, false)
    ensures body == Band(blocks, threshold, headings, bodySize, |blocks|, true)
  {
    header, body := [], [];
    var i := 0;
    while i < |blocks|
      invariant 0 <= i <= |blocks|
      invariant header == Band(blocks, threshold, headings, bodySize, i, false)
      invariant body == Band(blocks, threshold, headings, bodySize, i, true)
    {
      var b := blocks[i];
      var isAbove := b.box.y1 <= threshold || (b.box.y0 < threshold && b.box.y1 > threshold);
      if isAbove {
        var isHeading := ContainsHeading(headings, b);
        BandMembers(blocks, threshold, headings, bodySize, i, true);
        var prevWasBody := if i > 0 then (i - 1) in body else false;
        var smallFont := SmallFont(b, bodySize);
        if isHeading {
          body := body + [i];
        } else if prevWasBody {
          body := body + [i];
        } else if smallFont {
          body := body + [i];
        } else {
          header := header + [i];
        }
      } else {
        body := body + [i];
      }
      i := i + 1;
    }
  }

  /** The body band below `k` holds exactly the body positions below `k`,
      and the header band the others. */
  lemma {:induction false} BandMembers(blocks: seq<Block>, threshold: real, headings: seq<string>,
                                       bodySize: int, k: nat, inBody: bool)
    requires k <= |blocks|
    ensures forall i: nat :: i in Band(blocks, threshold, headings, bodySize, k, inBody) <==>
      i < k && IsBody(blocks, threshold, headings, bodySize, i) == inBody
  {
    if k > 0 {
      BandMembers(blocks, threshold, headings, bodySize, k - 1, inBody);
    }
  }

  /** Once a block is body, every later block is body. */
  lemma {:induction false} BodyStaysBody(blocks: seq<Block>, threshold: real, headings: seq<string>,
                                         bodySize: int, i: nat, j: nat)
    requires i <= j < |blocks| && IsBody(blocks, threshold, headings, bodySize, i)
    ensures IsBody(blocks, threshold, headings, bodySize, j)
    decreases j - i
  {
    if i < j {
      BodyStaysBody(blocks, threshold, headings, bodySize, i, j - 1);
    }
  }

  /** The first body position (or the number of blocks). */
  function FirstBody(blocks: seq<Block>, threshold: real, headings: seq<string>, bodySize: int, k: nat): (f: nat)
    requires k <= |blocks|
    ensures k <= f <= |blocks|
    ensures forall i :: k <= i < f ==> !IsBody(blocks, threshold, headings, bodySize, i)
    ensures f < |blocks| ==> IsBody(blocks, threshold, headings, bodySize, f)
    decreases |blocks| - k
  {
    if k == |blocks| || IsBody(blocks, threshold, headings, bodySize, k) then k
    else FirstBody(blocks, threshold, headings, bodySize, k + 1)
  }

  lemma {:induction false} BandsSplitAt(blocks: seq<Block>, threshold: real, headings: seq<string>,
                                        bodySize: int, f: nat, k: nat)
    requires f <= |blocks| && k <= |blocks|
    requires forall i :: 0 <= i < f ==> !IsBody(blocks, threshold, headings, bodySize, i)
    requires forall i :: f <= i < |blocks| ==> IsBody(blocks, threshold, headings, bodySize, i)
    ensures Band(blocks, threshold, headings, bodySize, k, false) == Range(0, if k < f then k else f)
    ensures Band(blocks, threshold, headings, bodySize, k, true) == Range(f, if k < f then f else k)
  {
    if k > 0 {
      BandsSplitAt(blocks, threshold, headings, bodySize, f, k - 1);
    }
  }

  /** The header band is a leading run of the blocks and the body is the
      rest: together they hold every block once, both in top order. */
  lemma BandsSplit(blocks: seq<Block>, threshold: real, headings: seq<string>, bodySize: int)
    ensures exists f: nat :: (f <= |blocks| &&
      Band(blocks, threshold, headings, bodySize, |blocks|, false) == Range(0, f) &&
      Band(blocks, threshold, headings, bodySize, |blocks|, true) == Range(f, |blocks|))
  {
    var f := FirstBody(blocks, threshold, headings, bodySize, 0);
    forall i | f <= i < |blocks| ensures IsBody(blocks, threshold, headings, bodySize, i) {
      BodyStaysBody(blocks, threshold, headings, bodySize, f, i);
    }
    BandsSplitAt(blocks, threshold, headings, bodySize, f, |blocks|);
  }

  /** A header-band block is above the threshold, contains no heading, has
      no small span and is either the first block or follows another
      header-band block; blocks below the threshold or with a heading are body. */
  lemma BandRules(blocks: seq<Block>, threshold: real, headings: seq<string>, bodySize: int, i: nat)
    requires i < |blocks|
    ensures var header := Band(blocks, threshold, headings, bodySize, |blocks|, false);
      i in header <==>
        AboveSplit(blocks[i], threshold) && !ContainsHeading(headings, blocks[i]) &&
        !SmallFont(blocks[i], bodySize) && (i == 0 || i - 1 in header)
    ensures !AboveSplit(blocks[i], threshold) || ContainsHeading(headings, blocks[i]) ==>
      i in Band(blocks, threshold, headings, bodySize, |blocks|, true)
  {
    BandMembers(blocks, threshold, headings, bodySize, |blocks|, false);
    BandMembers(blocks, threshold, headings, bodySize, |blocks|, true);
  }
}
