/**
 * `scrollActive`: on scroll, every section whose band contains the scroll position clears
 * all navigation links and marks its own link active. Sections are visited in document
 * order, so the last matching section decides; when none matches the links are untouched.
 */
module NavHighlight {
  import opened Options

  /** A `section[id]` element by its layout: `offsetTop`, `offsetHeight` and its id. */
  datatype Section = Section(top: int, height: int, id: string)

  /** The header offset subtracted from every section top. */
  const HeaderOffset := 100

  /** `scrollY > sectionTop && scrollY <= sectionTop + sectionHeight`. */
  predicate InView(s: Section, scrollY: int) {
    var top := s.top - HeaderOffset;
    top < scrollY <= top + s.height
  }

  predicate OccursAt(sub: string, h: string, i: nat) {
    i + |sub| <= |h| && h[i..i + |sub|] == sub
  }

  /** `sub` occurs somewhere in `h`. */
  predicate Occurs(sub: string, h: string) {
    exists i: nat :: i <= |h| && OccursAt(sub, h, i)
  }

  /** The CSS attribute test `[href*="id"]`: a non-empty value occurring in the attribute.
      An empty value matches nothing, and a link without `href` is taken as href "". */
  predicate HrefMatches(href: string, id: string) {
    id != [] && Occurs(id, href)
  }

  /** `document.querySelector('.nav-link[href*="id"]')`: the first link in document order
      whose href contains `id`, as an index into the links. */
  function LinkFor(hrefs: seq<string>, id: string): (r: Option<nat>)
    ensures r.Some? ==> r.value < |hrefs| && HrefMatches(hrefs[r.value], id)
    ensures r.Some? ==> forall j :: 0 <= j < r.value ==> !HrefMatches(hrefs[j], id)
    ensures r.None? ==> forall j :: 0 <= j < |hrefs| ==> !HrefMatches(hrefs[j], id)
  {
    if hrefs == [] then None
    else if HrefMatches(hrefs[0], id) then Some(0)
    else match LinkFor(hrefs[1..], id)
      case None => None
      case Some(i) => Some(i + 1)
  }

  /** A link is found by a substring of its href; an empty id finds none. */
  lemma LinkForExamples()
    ensures LinkFor(["#home", "#about", "#services"], "about") == Some(1)
    ensures LinkFor(["#home", "#about", "#services"], "") == None
    ensures LinkFor(["#home", "#about"], "contact") == None
  {
    var hrefs := ["#home", "#about", "#services"];
    assert OccursAt("about", hrefs[1], 1);
    assert !HrefMatches(hrefs[0], "about") by {
      forall i: nat | i <= |hrefs[0]| ensures !OccursAt("about", hrefs[0], i) {
        if i + 5 <= 5 { assert hrefs[0][i..i + 5][0] != 'a'; }
      }
    }
    var two := ["#home", "#about"];
    assert !HrefMatches(two[0], "contact");
    assert !HrefMatches(two[1], "contact");
  }

  /** All of `n` links inactive except the one at `link`, if there is one. */
  function Highlight(n: nat, link: Option<nat>): (r: seq<bool>)
    ensures |r| == n
    ensures forall j :: 0 <= j < n ==> (r[j] <==> link == Some(j))
  {
    seq(n, j => link == Some(j))
  }

  /** The effect of visiting one section on the links' active flags. */
  function Visit(active: seq<bool>, hrefs: seq<string>, s: Section, scrollY: int): seq<bool> {
    if InView(s, scrollY) then Highlight(|active|, LinkFor(hrefs, s.id)) else active
  }

  /** The active flags after visiting `sections` in order. */
  function Scan(active: seq<bool>, hrefs: seq<string>, sections: seq<Section>, scrollY: int): (r: seq<bool>)
    ensures |r| == |active|
    decreases |sections|
  {
    if sections == [] then active
    else Visit(Scan(active, hrefs, sections[..|sections| - 1], scrollY), hrefs, sections[|sections| - 1], scrollY)
  }

  /** The last matching section decides: if section `i` is in view and none after it is,
      exactly its link is active and every other link is inactive. */
  lemma {:induction false} ScanLastMatch(active: seq<bool>, hrefs: seq<string>, sections: seq<Section>, scrollY: int, i: nat)
    requires i < |sections| && InView(sections[i], scrollY)
    requires forall j :: i < j < |sections| ==> !InView(sections[j], scrollY)
    ensures Scan(active, hrefs, sections, scrollY) == Highlight(|active|, LinkFor(hrefs, sections[i].id))
    decreases |sections|
  {
    var last := |sections| - 1;
    var init := sections[..last];
    if i != last {
      assert init[i] == sections[i];
      forall j | i < j < |init| ensures !InView(init[j], scrollY) {
        assert init[j] == sections[j];
      }
      ScanLastMatch(active, hrefs, init, scrollY, i);
    }
  }

  /** When no section is in view, the links keep their flags. */
  lemma {:induction false} ScanNoMatch(active: seq<bool>, hrefs: seq<string>, sections: seq<Section>, scrollY: int)
    requires forall j :: 0 <= j < |sections| ==> !InView(sections[j], scrollY)
    ensures Scan(active, hrefs, sections, scrollY) == active
    decreases |sections|
  {
    if sections != [] {
      var init := sections[..|sections| - 1];
      forall j | 0 <= j < |init| ensures !InView(init[j], scrollY) {
        assert init[j] == sections[j];
      }
      ScanNoMatch(active, hrefs, init, scrollY);
    }
  }

  /** At most one link is active after a pass in which some section was in view. */
  lemma AtMostOneActive(active: seq<bool>, hrefs: seq<string>, sections: seq<Section>, scrollY: int, i: nat, a: nat, b: nat)
    requires i < |sections| && InView(sections[i], scrollY)
    requires a < b < |active|
    ensures !(Scan(active, hrefs, sections, scrollY)[a] && Scan(active, hrefs, sections, scrollY)[b])
  {
    var j := LastInView(sections, scrollY, i);
    ScanLastMatch(active, hrefs, sections, scrollY, j);
  }

  /** The last section in view, at or after `i`. */
  function LastInView(sections: seq<Section>, scrollY: int, i: nat): (j: nat)
    requires i < |sections| && InView(sections[i], scrollY)
    ensures i <= j < |sections| && InView(sections[j], scrollY)
    ensures forall k :: j < k < |sections| ==> !InView(sections[k], scrollY)
    decreases |sections| - i
  {
    if exists k :: i < k < |sections| && InView(sections[k], scrollY) then
      var k :| i < k < |sections| && InView(sections[k], scrollY);
      LastInView(sections, scrollY, k)
    else i
  }

  /** Scrolled 650 pixels down a page of three sections, the second section's link is the
      active one: its band (500, 1300] contains 650 and the third section's does not. */
  lemma ScrollScenario()
    ensures Scan([true, false, true], ["#home", "#about", "#services"],
                 [Section(0, 600, "home"), Section(600, 800, "about"), Section(1400, 700, "services")], 650)
         == [false, true, false]
  {
    var sections := [Section(0, 600, "home"), Section(600, 800, "about"), Section(1400, 700, "services")];
    LinkForExamples();
    ScanLastMatch([true, false, true], ["#home", "#about", "#services"], sections, 650, 1);
    assert Highlight(3, Some(1)) == [false, true, false];
  }

  /** The scroll handler over the links' `active` flags, updated in place. */
  method ScrollActive(sections: seq<Section>, hrefs: seq<string>, active: array<bool>, scrollY: int)
    requires active.Length == |hrefs|
    modifies active
    ensures active[..] == Scan(old(active[..]), hrefs, sections, scrollY)
  {
    var i := 0;
    while i < |sections|
      invariant 0 <= i <= |sections|
      invariant active[..] == Scan(old(active[..]), hrefs, sections[..i], scrollY)
    {
      var current := sections[i];
      var navLink := LinkFor(hrefs, current.id);
      if InView(current, scrollY) {
        var j := 0;
        while j < active.Length
          invariant 0 <= j <= active.Length
          invariant forall k :: 0 <= k < j ==> !active[k]
        {
          active[j] := false;
          j := j + 1;
        }
        if navLink.Some? {
          active[navLink.value] := true;
        }
        assert active[..] == Highlight(active.Length, navLink);
      }
      assert sections[..i + 1][..i] == sections[..i];
      i := i + 1;
    }
    assert sections[..|sections|] == sections;
  }
}
