/**
 * The main layout's navigation: a link is highlighted when the current path
 * is its path, or, for every link but the dashboard's '/', when the current
 * path starts with its path. The desktop bar and the mobile menu use the
 * same test.
 */
module MainLayout {

  /** The paths of `navItems`, in menu order. */
  const NavPaths: seq<string> := ["/", "/calculators", "/articles", "/community"]

  /** `location.pathname === item.path || (item.path !== '/' && location.pathname.startsWith(item.path))`. */
  /** A highlighted link's path is always a prefix of the current path. */
  predicate IsActive(pathname: string, path: string): (active: bool)
    ensures active ==> path <= pathname
  {
    pathname == path || (path != "/" && path <= pathname)
  }

  /** The dashboard link is highlighted on '/' and nowhere else. */
  lemma RootActiveOnlyOnRoot(pathname: string)
    ensures IsActive(pathname, "/") <==> pathname == "/"
  {
  }

  /**
   * The test is a plain string prefix, with no '/' boundary: a link's path
   * followed by anything at all highlights it.
   */
  lemma PrefixActivates(path: string, rest: string)
    requires path != "/"
    ensures IsActive(path + rest, path)
  {
    assert (path + rest)[..|path|] == path;
  }

  /** Two prefixes of one string: the shorter is a prefix of the longer. */
  lemma PrefixesNest(a: string, b: string, s: string)
    requires a <= s && b <= s && |a| <= |b|
    ensures a <= b
  {
    assert a == s[..|a|] && b == s[..|b|];
    assert b[..|a|] == s[..|a|];
  }

  /** The menu positions of the links highlighted for a path. */
  function ActiveItems(pathname: string, paths: seq<string>): (r: seq<nat>)
    ensures forall k :: 0 <= k < |r| ==> r[k] < |paths| && IsActive(pathname, paths[r[k]])
    ensures forall i :: 0 <= i < |paths| && IsActive(pathname, paths[i]) ==> i in r
  {
    if paths == [] then []
    else
      var rest := ActiveItems(pathname, paths[..|paths| - 1]);
      if IsActive(pathname, paths[|paths| - 1]) then rest + [|paths| - 1] else rest
  }

  /** No nav path but '/' is a prefix of another one. */
  lemma NavPathsUnrelated(i: int, j: int)
    requires 0 <= i < |NavPaths| && 0 <= j < |NavPaths| && i != j && NavPaths[i] != "/"
    ensures !(NavPaths[i] <= NavPaths[j])
  {
    var a, b := NavPaths[i], NavPaths[j];
    assert |a| > 2;
    assert |b| <= 2 || a[1] != b[1] || a[2] != b[2];
  }

  /** Whatever the path, at most one link of the menu is highlighted. */
  lemma AtMostOneActive(pathname: string)
    ensures |ActiveItems(pathname, NavPaths)| <= 1
  {
    var r := ActiveItems(pathname, NavPaths);
    if |r| > 1 {
      var i, j := r[0], r[1];
      ActiveItemsDistinct(pathname, NavPaths);
      OneActive(pathname, i, j);
    }
  }

  predicate Increasing(r: seq<nat>) {
    forall a, b :: 0 <= a < b < |r| ==> r[a] < r[b]
  }

  /** The positions listed are increasing, so no position is listed twice. */
  lemma {:induction false} ActiveItemsDistinct(pathname: string, paths: seq<string>)
    ensures Increasing(ActiveItems(pathname, paths))
  {
    if paths != [] {
      var init := paths[..|paths| - 1];
      ActiveItemsDistinct(pathname, init);
      var rest := ActiveItems(pathname, init);
      var r := ActiveItems(pathname, paths);
      if IsActive(pathname, paths[|paths| - 1]) {
        assert r == rest + [|init|];
        forall a, b | 0 <= a < b < |r| ensures r[a] < r[b] {
          if b == |rest| {
            assert r[a] == rest[a] < |init|;
          }
        }
      }
    }
  }

  /** Two different links are never highlighted together. */
  lemma OneActive(pathname: string, i: int, j: int)
    requires 0 <= i < |NavPaths| && 0 <= j < |NavPaths| && i != j
    ensures !(IsActive(pathname, NavPaths[i]) && IsActive(pathname, NavPaths[j]))
  {
    if IsActive(pathname, NavPaths[i]) && IsActive(pathname, NavPaths[j]) {
      var a, b := NavPaths[i], NavPaths[j];
      if a == "/" || b == "/" {
      } else {
        assert a <= pathname && b <= pathname;
        if |a| <= |b| {
          PrefixesNest(a, b, pathname);
          NavPathsUnrelated(i, j);
        } else {
          PrefixesNest(b, a, pathname);
          NavPathsUnrelated(j, i);
        }
      }
    }
  }

  /** The mobile menu's open flag: the menu button flips it, any link in the menu closes it. */
  class MobileMenu {
    var isOpen: bool

    constructor()
      ensures !isOpen
    {
      isOpen := false;
    }

    /** The menu button. */
    method Toggle()
      modifies this
      ensures isOpen == !old(isOpen)
    {
      isOpen := !isOpen;
    }

    /** A link inside the open menu. */
    method FollowLink()
      modifies this
      ensures !isOpen
    {
      isOpen := false;
    }
  }
}
