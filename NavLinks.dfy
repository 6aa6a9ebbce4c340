/** The navigation links (`.nav__link`): which one is "active" for a section
    index, and which in-page hrefs count as navigations. */
module NavLinks {
  import opened Wrappers
  import Search
  import opened Sections

  /** `sectionIdToIndex[href] === idx`: the link's href is a section hash that maps to `idx`. */
  predicate LinksTo(href: string, table: map<string, nat>, idx: int)
  {
    href in table && table[href] == idx
  }

  /** `navLinks.find(...)`: the first link whose href maps to `idx`. */
  function FirstLinkTo(hrefs: seq<string>, table: map<string, nat>, idx: int): (r: Option<nat>)
    ensures r.Some? ==> r.value < |hrefs| && LinksTo(hrefs[r.value], table, idx)
    ensures r.Some? ==> forall j :: 0 <= j < r.value ==> !LinksTo(hrefs[j], table, idx)
    ensures r.None? <==> forall j :: 0 <= j < |hrefs| ==> !LinksTo(hrefs[j], table, idx)
  {
    Search.FirstIndex(hrefs, h => LinksTo(h, table, idx))
  }

  /** The `is-active` flag of every link once `updateActiveNav` has run for `idx`. */
  function ActiveFlags(hrefs: seq<string>, table: map<string, nat>, idx: int): (flags: seq<bool>)
    ensures |flags| == |hrefs|
    ensures forall k :: 0 <= k < |hrefs| ==>
      (flags[k] <==> LinksTo(hrefs[k], table, idx) && forall j :: 0 <= j < k ==> !LinksTo(hrefs[j], table, idx))
  {
    var first := FirstLinkTo(hrefs, table, idx);
    seq(|hrefs|, k requires 0 <= k < |hrefs| => first == Some(k))
  }

  /** At most one link is active, and one is exactly when some link maps to `idx`. */
  lemma ActiveFlagsSingle(hrefs: seq<string>, table: map<string, nat>, idx: int)
    ensures forall i, j :: 0 <= i < j < |hrefs| && ActiveFlags(hrefs, table, idx)[i] ==> !ActiveFlags(hrefs, table, idx)[j]
    ensures (exists k :: 0 <= k < |hrefs| && ActiveFlags(hrefs, table, idx)[k])
        <==> (exists k :: 0 <= k < |hrefs| && LinksTo(hrefs[k], table, idx))
  {
    var flags := ActiveFlags(hrefs, table, idx);
    var first := FirstLinkTo(hrefs, table, idx);
    if first.Some? {
      assert flags[first.value];
    }
  }

  /** `href === '#' || href === '#0'`: placeholder links the click handler ignores. */
  predicate IsPlaceholder(href: string)
  {
    href == "#" || href == "#0"
  }

  /** The only placeholder that can name a section is `#0`, and it does
      exactly when some section has the id `0`: a link to that section is
      ignored as a placeholder and never navigates. */
  lemma {:induction false} PlaceholderSection(ids: seq<string>, href: string)
    requires IsPlaceholder(href)
    ensures href in IdIndex(ids) <==> href == "#0" && "0" in ids
  {
    IdIndexLookup(ids, href);
    if href == "#0" && "0" in ids {
      var i :| 0 <= i < |ids| && ids[i] == "0";
      assert "#" + ids[i] == "#0";
    }
    if href in IdIndex(ids) {
      var i := IdIndex(ids)[href];
      assert Anchor(ids[i]) == Some(href);
      assert "#" + ids[i] == href;
      assert ids[i] == href[1..];
    }
  }
}
