/** The ordered list of page sections (`main .section`), their vertical
    layout, and the pure pieces of section navigation: the saturating clamp,
    the header offset, the scroll target, the probe position, the
    first-match lookup and the hash-to-index table. */
module Sections {
  import opened Wrappers
  import Search

  /** Layout of one section as the browser reports it: `offsetTop` and `offsetHeight`. */
  datatype Box = Box(top: int, height: int)

  /** Header height used when `--header-height` is missing or does not parse to a non-zero number. */
  const DefaultHeaderHeight: int := 72
  /** Added to the scroll target, so a section's top edge ends 4 pixels
      under the bottom edge of a fixed header rather than below it. */
  const ScrollGap: int := 4
  /** How far below the header the scroll probe looks. */
  const ProbeLookahead: int := 10

  function Min(a: int, b: int): int { if a <= b then a else b }
  function Max(a: int, b: int): int { if a >= b then a else b }

  /** `Math.max(0, Math.min(n - 1, idx))`: the index `goToIndex` lands on among `n` sections. */
  function Clamp(idx: int, n: int): (r: int)
    ensures n >= 1 ==> 0 <= r < n
    ensures 0 <= idx < n ==> r == idx
    ensures idx < 0 ==> r == 0
    ensures n >= 1 && idx >= n ==> r == n - 1
    ensures n < 1 ==> r == 0
  {
    Max(0, Min(n - 1, idx))
  }

  /** `parseInt(headerOffset, 10) || 72`, where `parsed` is None when parsing gave NaN. */
  function HeaderOffset(parsed: Option<int>): (r: int)
    ensures r != 0
    ensures parsed.Some? && parsed.value != 0 ==> r == parsed.value
    ensures parsed == None || parsed == Some(0) ==> r == DefaultHeaderHeight
  {
    match parsed
    case Some(h) => if h != 0 then h else DefaultHeaderHeight
    case None => DefaultHeaderHeight
  }

  /** The vertical scroll position `goToIndex` asks the window to scroll to.
      Once there, the scroll-tracking probe sits `ScrollGap + ProbeLookahead`
      pixels into the section, whatever the header height. */
  function ScrollTarget(top: int, offset: int): (y: int)
    ensures ProbePosition(y, offset) == top + ScrollGap + ProbeLookahead
  {
    top - offset + ScrollGap
  }

  /** The document position `updateCurrentIndexFromScroll` looks up:
      `ProbeLookahead` pixels below the bottom edge of the header. */
  function ProbePosition(scrollY: int, offset: int): int
  {
    scrollY + offset + ProbeLookahead
  }

  /** A section spans the half-open interval `[top, top + height)`. */
  predicate Contains(b: Box, pos: int)
  {
    b.top <= pos < b.top + b.height
  }

  /** The first section whose span holds `pos`, or None when none does. */
  function FirstContaining(boxes: seq<Box>, pos: int): (r: Option<nat>)
    ensures r.Some? ==> r.value < |boxes| && Contains(boxes[r.value], pos)
    ensures r.Some? ==> forall j :: 0 <= j < r.value ==> !Contains(boxes[j], pos)
    ensures r.None? <==> forall j :: 0 <= j < |boxes| ==> !Contains(boxes[j], pos)
  {
    Search.FirstIndex(boxes, b => Contains(b, pos))
  }

  /** Sections laid out top to bottom without overlapping, as the page lays them out. */
  ghost predicate Stacked(boxes: seq<Box>)
  {
    forall i, j :: 0 <= i < j < |boxes| ==> boxes[i].top + boxes[i].height <= boxes[j].top
  }

  /** On a stacked layout, a position inside section `k` selects exactly `k`. */
  lemma InsideSectionSelectsIt(boxes: seq<Box>, pos: int, k: nat)
    requires Stacked(boxes)
    requires k < |boxes| && Contains(boxes[k], pos)
    ensures FirstContaining(boxes, pos) == Some(k)
  {
  }

  /** Should the window reach the target `goToIndex(k)` scrolls to, scroll
      tracking with the same header offset finds section `k` again, provided the sections
      are stacked and `k` is taller than the gap plus the lookahead. */
  lemma ScrollTargetIsTracked(boxes: seq<Box>, k: nat, offset: int)
    requires Stacked(boxes)
    requires k < |boxes| && boxes[k].height > ScrollGap + ProbeLookahead
    ensures FirstContaining(boxes, ProbePosition(ScrollTarget(boxes[k].top, offset), offset)) == Some(k)
  {
  }

  /** The key `'#' + id` a section contributes to the hash table; a section without an id contributes none. */
  function Anchor(id: string): Option<string>
  {
    if id == "" then None else Some("#" + id)
  }

  /** The hash-to-index table built by assigning `map['#' + id] = i` for each section in order. */
  function IdIndex(ids: seq<string>): (m: map<string, nat>)
    ensures forall h :: h in m ==> m[h] < |ids|
    decreases |ids|
  {
    if |ids| == 0 then map[]
    else
      var m := IdIndex(ids[..|ids| - 1]);
      match Anchor(ids[|ids| - 1])
      case None => m
      case Some(h) => m[h := |ids| - 1]
  }

  /** A hash is in the table iff some section has it as anchor, and it maps to the LAST such section. */
  lemma {:induction false} IdIndexLookup(ids: seq<string>, h: string)
    ensures h in IdIndex(ids) <==> exists i :: 0 <= i < |ids| && Anchor(ids[i]) == Some(h)
    ensures h in IdIndex(ids) ==> IdIndex(ids)[h] < |ids| && Anchor(ids[IdIndex(ids)[h]]) == Some(h)
    ensures h in IdIndex(ids) ==> forall j :: IdIndex(ids)[h] < j < |ids| ==> Anchor(ids[j]) != Some(h)
    decreases |ids|
  {
    if |ids| > 0 {
      var init := ids[..|ids| - 1];
      IdIndexLookup(init, h);
      if Anchor(ids[|ids| - 1]) != Some(h) && h in IdIndex(ids) {
        var i :| 0 <= i < |init| && Anchor(init[i]) == Some(h);
        assert ids[i] == init[i];
      }
      if exists i :: 0 <= i < |init| && Anchor(init[i]) == Some(h) {
        var i :| 0 <= i < |init| && Anchor(init[i]) == Some(h);
        assert ids[i] == init[i];
      }
      if exists i :: 0 <= i < |ids| && Anchor(ids[i]) == Some(h) {
        var i :| 0 <= i < |ids| && Anchor(ids[i]) == Some(h);
        if i < |init| { assert init[i] == ids[i]; }
      }
    }
  }

  /** The `sections.forEach` that fills the hash table. */
  method BuildSectionIndex(ids: seq<string>) returns (m: map<string, nat>)
    ensures m == IdIndex(ids)
  {
    m := map[];
    for i := 0 to |ids|
      invariant m == IdIndex(ids[..i])
    {
      assert ids[..i + 1][..i] == ids[..i];
      if ids[i] != "" {
        m := m["#" + ids[i] := i];
      }
    }
    assert ids[..|ids|] == ids;
  }
}
