/**
 * The navigation bar (components/layout/Navbar.tsx): which item is
 * highlighted for the current pathname, and the mobile menu's open flag.
 */
module Navbar {
  import opened Text

  /**
   * `isActive(path)`: the home item matches only the exact pathname `/`;
   * every other item matches any pathname that starts with its path.
   */
  function IsActive(path: string, pathname: string): (active: bool)
    ensures path == "/" ==> (active <==> pathname == "/")
    ensures path != "/" ==> (active <==> |path| <= |pathname| && pathname[..|path|] == path)
  {
    if path == "/" then pathname == path else StartsWith(pathname, path)
  }

  /** The paths of the items, in menu order: Home, Solver, Examples, Guide, About, Documentation. */
  const NavPaths: seq<string> := ["/", "/solver", "/examples", "/guide", "/about", "/documentation"]

  /** Each item is highlighted on its own page. */
  lemma OwnPageActive(k: nat)
    requires k < |NavPaths|
    ensures IsActive(NavPaths[k], NavPaths[k])
  {
  }

  /**
   * The match is textual: a page below `/solver` highlights Solver, and
   * so does any pathname that merely begins with `/solver`; the home
   * item is not highlighted on either.
   */
  lemma PrefixMatching(below: string, longer: string)
    requires below == "/solver/x" && longer == "/solverx"
    ensures IsActive(NavPaths[1], below) && IsActive(NavPaths[1], longer)
    ensures !IsActive(NavPaths[0], below) && !IsActive(NavPaths[0], longer)
  {
    assert below[..7] == "/solver";
    assert longer[..7] == "/solver";
  }

  /**
   * Whatever the pathname, at most one item is highlighted: the home item
   * needs exactly `/`, and the other paths already differ in their second
   * character.
   */
  lemma AtMostOneActive(pathname: string, i: nat, j: nat)
    requires i < j < |NavPaths|
    requires IsActive(NavPaths[i], pathname)
    ensures !IsActive(NavPaths[j], pathname)
  {
    var pi, pj := NavPaths[i], NavPaths[j];
    assert |pi| >= 1 && |pj| >= 2 && pi[0] == '/' && pj[0] == '/';
    if i == 0 {
      assert pathname == "/";
    } else {
      assert pi[1] != pj[1];
      assert pathname[1] == pi[1];
    }
  }

  /** The mobile menu's `isOpen` slot. */
  class Menu {
    var isOpen: bool

    /** `useState(false)` */
    constructor ()
      ensures !isOpen
    {
      isOpen := false;
    }

    /** The menu button: `setIsOpen(!isOpen)`. */
    method Toggle()
      modifies this
      ensures isOpen == !old(isOpen)
    {
      isOpen := !isOpen;
    }

    /** A click on any link of the open mobile menu, the items or the extra link to `/solver`: `setIsOpen(false)`. */
    method FollowLink()
      modifies this
      ensures !isOpen
    {
      isOpen := false;
    }
  }
}
