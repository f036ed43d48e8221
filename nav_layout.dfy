/** The dashboard's sidebar: four links, each highlighted when the current
    pathname belongs to it. The overview link belongs only to its own path;
    the others also to every path below theirs. */
module NavLayout {
  import opened Text

  const Overview := "/dashboard"

  /** The sidebar's links, top to bottom. */
  const NavHrefs: seq<string> := [Overview, "/dashboard/order", "/dashboard/driver", "/dashboard/user"]

  /** `isActive` of a NavLink. */
  predicate IsActive(href: string, pathname: string) {
    if href == Overview then pathname == Overview
    else pathname == href || StartsWith(pathname, href + "/")
  }

  /** The links highlighted at a pathname, in sidebar order. */
  function ActiveLinks(pathname: string): (r: seq<string>)
    ensures forall h :: h in r <==> h in NavHrefs && IsActive(h, pathname)
  {
    var links := NavHrefs;
    (if IsActive(links[0], pathname) then [links[0]] else [])
    + (if IsActive(links[1], pathname) then [links[1]] else [])
    + (if IsActive(links[2], pathname) then [links[2]] else [])
    + (if IsActive(links[3], pathname) then [links[3]] else [])
  }

  // ---------------------------------------------------------------------------
  // Properties

  /** The overview link is highlighted on "/dashboard" and nowhere else. */
  lemma OverviewExact(pathname: string)
    ensures IsActive(Overview, pathname) <==> pathname == "/dashboard"
  {
  }

  /** Another link is highlighted exactly when the pathname starts with its
      href and either ends there or continues with a "/". */
  lemma BelowHrefIff(href: string, pathname: string)
    requires href != Overview
    ensures IsActive(href, pathname) <==>
      StartsWith(pathname, href) && (|pathname| == |href| || pathname[|href|] == '/')
  {
    if StartsWith(pathname, href) && |pathname| > |href| && pathname[|href|] == '/' {
      assert pathname[..|href| + 1] == href + "/";
    }
    if StartsWith(pathname, href + "/") {
      assert pathname[..|href|] == (href + "/")[..|href|];
    }
  }

  /** A longer path segment is not below a shorter one: the order link is
      not highlighted on "/dashboard/orders". */
  lemma SegmentBoundary()
    ensures !IsActive("/dashboard/order", "/dashboard/orders")
    ensures IsActive("/dashboard/order", "/dashboard/order/123")
  {
    var p := "/dashboard/orders";
    assert p[..17] != "/dashboard/order/" by { assert p[16] == 's'; }
    var q := "/dashboard/order/123";
    assert q[..17] == "/dashboard/order/";
  }

  /** The three section links' hrefs part at their twelfth character. */
  lemma SectionsDiffer(p: string, i: int, j: int)
    requires 1 <= i < j < 4
    requires StartsWith(p, NavHrefs[i])
    ensures !StartsWith(p, NavHrefs[j])
  {
    assert p[11] == NavHrefs[i][11];
  }

  /** At most one link is highlighted, whatever the pathname. */
  lemma AtMostOneActive(pathname: string)
    ensures |ActiveLinks(pathname)| <= 1
  {
    forall i, j | 1 <= i < j < 4
      ensures !(IsActive(NavHrefs[i], pathname) && IsActive(NavHrefs[j], pathname))
    {
      BelowHrefIff(NavHrefs[i], pathname);
      BelowHrefIff(NavHrefs[j], pathname);
      if StartsWith(pathname, NavHrefs[i]) {
        SectionsDiffer(pathname, i, j);
      }
    }
    if IsActive(Overview, pathname) {
      forall i | 1 <= i < 4 ensures !IsActive(NavHrefs[i], pathname) {
        BelowHrefIff(NavHrefs[i], pathname);
      }
    }
  }

  /** On a section's page, or any page below it, that section's link and no
      other is highlighted; on "/dashboard" only the overview is. */
  lemma OwnLinkOnly(k: int, rest: string)
    requires 0 <= k < 4
    requires k == 0 ==> rest == ""
    requires rest == "" || rest[0] == '/'
    ensures ActiveLinks(NavHrefs[k] + rest) == [NavHrefs[k]]
  {
    var p := NavHrefs[k] + rest;
    assert p[..|NavHrefs[k]|] == NavHrefs[k];
    if k > 0 {
      BelowHrefIff(NavHrefs[k], p);
    }
    AtMostOneActive(p);
  }
}
