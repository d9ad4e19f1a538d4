/** The site header's navigation: which link set is shown and which link is
    highlighted for the current pathname. */
module SiteHeader {
  import opened Util

  /** A nav-link object; `linkLabel` is its `label` (a keyword in Dafny). */
  datatype NavLink = NavLink(href: string, linkLabel: string)

  /** `authenticatedNavLinks`. */
  const AuthenticatedLinks: seq<NavLink> := [
    NavLink("/", "Home"),
    NavLink("/request-delivery", "Request Delivery"),
    NavLink("/track-package", "Track Package")
  ]

  /** `marketingNavLinks`: in-page anchors of the home page. */
  const MarketingLinks: seq<NavLink> := [
    NavLink("/#how-it-works", "How It Works"),
    NavLink("/#robot-fleet", "Robot Fleet"),
    NavLink("/#get-started", "Get Started")
  ]

  /** `getIsActive(pathname, href)`. */
  predicate IsActive(pathname: string, href: string) {
    var target := if StartsWith(href, "/#") then "/" else href;
    if target == "/" then pathname == "/" else StartsWith(pathname, target)
  }

  /** The three cases of the matching rule: an anchor link counts as the home
      page, the home page matches only itself, and any other link matches
      every pathname it is a plain prefix of. */
  lemma IsActiveCases(pathname: string, href: string)
    ensures StartsWith(href, "/#") ==> (IsActive(pathname, href) <==> pathname == "/")
    ensures href == "/" ==> (IsActive(pathname, href) <==> pathname == "/")
    ensures !StartsWith(href, "/#") && href != "/" ==>
      (IsActive(pathname, href) <==> StartsWith(pathname, href))
  {
  }

  /** The prefix test has no segment boundary: "/track-package" is also
      highlighted on any pathname that merely begins with it, such as
      "/track-packages". */
  lemma NoSegmentBoundary(rest: string)
    ensures IsActive("/track-package" + rest, "/track-package")
  {
    var href := "/track-package";
    assert href[1] == 't';
    assert (href + rest)[..|href|] == href;
  }

  /** `user ? authenticatedNavLinks : marketingNavLinks`. */
  function NavLinks(signedIn: bool): seq<NavLink> {
    if signedIn then AuthenticatedLinks else MarketingLinks
  }

  /** The links highlighted for a pathname, in display order. */
  function ActiveLinks(signedIn: bool, pathname: string): seq<NavLink> {
    Filter(NavLinks(signedIn), (l: NavLink) => IsActive(pathname, l.href))
  }

  /** No pathname activates two distinct authenticated links. */
  lemma AtMostOneAuthenticatedActive(pathname: string, i: nat, j: nat)
    requires i < 3 && j < 3
    requires IsActive(pathname, AuthenticatedLinks[i].href)
    requires IsActive(pathname, AuthenticatedLinks[j].href)
    ensures i == j
  {
    var request := AuthenticatedLinks[1].href;
    var track := AuthenticatedLinks[2].href;
    assert AuthenticatedLinks[0].href == "/";
    assert request[1] == 'r' && request[..2] != "/#" && |request| > 1;
    assert track[1] == 't' && track[..2] != "/#" && |track| > 1;
  }

  /** For a signed-in user the header highlights at most one link. */
  lemma AuthenticatedActiveAtMostOne(pathname: string)
    ensures |ActiveLinks(true, pathname)| <= 1
  {
    var p := (l: NavLink) => IsActive(pathname, l.href);
    var links := AuthenticatedLinks;
    forall i, j | 0 <= i < |links| && 0 <= j < |links| && p(links[i]) && p(links[j])
      ensures i == j
    {
      AtMostOneAuthenticatedActive(pathname, i, j);
    }
    FilterAtMostOne(links, p);
  }

  /** For a visitor the three anchor links are highlighted together, on the
      home page and nowhere else. */
  lemma MarketingActive(pathname: string)
    ensures ActiveLinks(false, pathname) == (if pathname == "/" then MarketingLinks else [])
  {
    var p := (l: NavLink) => IsActive(pathname, l.href);
    forall l | l in MarketingLinks
      ensures p(l) <==> pathname == "/"
    {
      assert l.href[..2] == "/#";
    }
    if pathname == "/" {
      FilterAll(MarketingLinks, p);
    } else {
      FilterNone(MarketingLinks, p);
    }
  }
}
