/**
 * The site header's navigation (`SiteHeader`, `NavItem`): when an item is
 * highlighted as active and how an enabled or disabled item is rendered.
 */
module SiteHeader {
  import opened Collections

  /** `path === href || (href !== "/" && path.startsWith(href))`. */
  predicate IsActive(path: string, href: string)
  {
    path == href || (href != "/" && StartsWith(path, href))
  }

  /**
   * An item is active on its own path and, unless it is the root, on every path
   * that extends it by any text at all: there is no segment boundary.
   */
  lemma ActiveExtends(path: string, href: string)
    ensures IsActive(path, href) <==> path == href || (href != "/" && exists rest :: path == href + rest)
  {
    if href != "/" && StartsWith(path, href) {
      var rest := path[|href|..];
      assert path == href + rest;
    }
    if href != "/" && exists rest :: path == href + rest {
      var rest :| path == href + rest;
      assert path[..|href|] == href;
    }
  }

  /** The root item is active only on the root itself. */
  lemma RootOnlyExact(path: string)
    ensures IsActive(path, "/") <==> path == "/"
  {
  }

  /** `/exports-old` activates the `/exports` item. */
  lemma NoSegmentBoundary()
    ensures IsActive("/exports-old", "/exports")
  {
    assert "/exports-old"[..|"/exports"|] == "/exports";
  }

  /** A rendered item: a non-link span, or a link highlighted when active. */
  datatype Item = Span(name: string) | Link(href: string, name: string, highlighted: bool)

  /** `NavItem`: a disabled item is a span whatever the path; an enabled one links and shows whether it is active. */
  function NavItem(path: string, href: string, name: string, disabled: bool): (r: Item)
    ensures disabled ==> r == Span(name)
    ensures !disabled ==> r.Link? && r.href == href && r.name == name
    ensures !disabled ==> (r.highlighted <==> IsActive(path, href))
  {
    if disabled then Span(name) else Link(href, name, IsActive(path, href))
  }

  /** The header's items, none of them disabled. */
  const Items: seq<(string, string)> := [("/experiments", "Experiments"), ("/exports", "Export"), ("/docs", "Docs")]

  function Nav(path: string): (r: seq<Item>)
    ensures |r| == |Items|
    ensures forall i :: 0 <= i < |Items| ==> r[i] == NavItem(path, Items[i].0, Items[i].1, false)
  {
    seq(|Items|, i requires 0 <= i < |Items| => NavItem(path, Items[i].0, Items[i].1, false))
  }

  /** Two items whose paths differ at a place both reach are never active together. */
  lemma ActiveApart(path: string, a: string, b: string, d: nat)
    requires d < |a| && d < |b| && a[d] != b[d]
    requires IsActive(path, a)
    ensures !IsActive(path, b)
  {
    assert path[d] == a[d] by {
      if path != a {
        assert path[..|a|][d] == a[d];
      }
    }
  }

  /** Every header item is a link, and at most one of them is highlighted on any path. */
  lemma NavLinks(path: string)
    ensures forall i :: 0 <= i < |Items| ==> Nav(path)[i].Link?
    ensures forall i, j :: 0 <= i < j < |Items| && Nav(path)[i].highlighted ==> !Nav(path)[j].highlighted
  {
    var r := Nav(path);
    forall i, j | 0 <= i < j < |Items| && r[i].highlighted ensures !r[j].highlighted {
      var a, b := Items[i].0, Items[j].0;
      var d := if a[1] != b[1] then 1 else 4;
      ActiveApart(path, a, b, d);
    }
  }
}
