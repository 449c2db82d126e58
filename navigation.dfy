/** The site's navigation bar: which links are highlighted for the current path,
    and the open/closed state of the mobile menu. */
module Navigation {
  import opened Common

  /** The `href`s of `navLinks`, in order. */
  const NavHrefs: seq<string> := ["/games", "/contact"]

  /** `pathname === href || (href !== "/" && pathname?.startsWith(href))`; the path is
      `None` when the router has not resolved one. */
  function IsActive(pathname: Option<string>, href: string): (r: bool)
    ensures r <==> pathname.Some? && if href == "/" then pathname.value == "/" else href <= pathname.value
  {
    match pathname
    case None => false
    case Some(p) => p == href || (href != "/" && href <= p)
  }

  /** The highlight of each link in a rendered `navLinks` list; the desktop and the
      mobile lists use the same rule. */
  function ActiveFlags(pathname: Option<string>): (r: seq<bool>)
    ensures |r| == |NavHrefs|
    ensures forall i :: 0 <= i < |r| ==> (r[i] <==> IsActive(pathname, NavHrefs[i]))
  {
    seq(|NavHrefs|, i requires 0 <= i < |NavHrefs| => IsActive(pathname, NavHrefs[i]))
  }

  /** The match is a plain string prefix, not a path segment: "/gamesx" highlights
      "/games", and so does any page below it. */
  lemma PrefixMatchIsTextual()
    ensures IsActive(Some("/gamesx"), "/games")
    ensures IsActive(Some("/games/some-slug"), "/games")
    ensures !IsActive(Some("/game/some-slug"), "/games")
    ensures !IsActive(None, "/games")
  {
    assert "/games" <= "/gamesx";
    assert "/games" <= "/games/some-slug";
    assert "/game/some-slug"[5] != "/games"[5];
  }

  /** At most one of the site's links is highlighted, whatever the path. */
  lemma AtMostOneActive(pathname: Option<string>)
    ensures var r := ActiveFlags(pathname); !(r[0] && r[1])
  {
    var r := ActiveFlags(pathname);
    if r[0] {
      var p := pathname.value;
      assert "/games" <= p;
      assert p[1] == 'g';
      assert p[1] != "/contact"[1];
      assert !r[1];
    }
  }

  // ---------------------------------------------------------------------------
  // The mobile menu

  /** What can happen to the menu: the menu button, a `closeMenu` call, or a new path
      from the router (the effect that depends on `pathname`). */
  datatype MenuEvent = ToggleClicked | CloseClicked | PathnameChanged(path: Option<string>)

  datatype MenuState = MenuState(isOpen: bool, pathname: Option<string>)

  /** The effect of one event: the button negates `isOpen`, `closeMenu` clears it, and a
      path different from the current one clears it too. */
  function Step(s: MenuState, e: MenuEvent): (r: MenuState)
    ensures e.ToggleClicked? ==> r.isOpen != s.isOpen && r.pathname == s.pathname
    ensures e.CloseClicked? ==> !r.isOpen && r.pathname == s.pathname
    ensures e.PathnameChanged? ==> r.pathname == e.path && (e.path != s.pathname ==> !r.isOpen)
    ensures e.PathnameChanged? && e.path == s.pathname ==> r == s
  {
    match e
    case ToggleClicked => s.(isOpen := !s.isOpen)
    case CloseClicked => s.(isOpen := false)
    case PathnameChanged(p) => if p == s.pathname then s else MenuState(false, p)
  }

  /** The state after a sequence of events, in order. Whatever came before, the menu is
      closed after a `closeMenu`, and the path is the one last reported, if any. */
  function Run(s: MenuState, events: seq<MenuEvent>): (r: MenuState)
    ensures |events| > 0 && events[|events| - 1].CloseClicked? ==> !r.isOpen
    ensures (forall i :: 0 <= i < |events| ==> !events[i].PathnameChanged?) ==> r.pathname == s.pathname
    ensures |events| > 0 && events[|events| - 1].PathnameChanged? ==> r.pathname == events[|events| - 1].path
    decreases |events|
  {
    if events == [] then s else Run(Step(s, events[0]), events[1..])
  }

  lemma {:induction false} RunAppend(s: MenuState, a: seq<MenuEvent>, b: seq<MenuEvent>)
    ensures Run(s, a + b) == Run(Run(s, a), b)
    decreases |a|
  {
    if a == [] {
      assert a + b == b;
    } else {
      assert (a + b)[1..] == a[1..] + b;
      RunAppend(Step(s, a[0]), a[1..], b);
    }
  }

  /** Two presses of the menu button restore the state; closing twice is closing once. */
  lemma ToggleAndCloseLaws(s: MenuState)
    ensures Run(s, [ToggleClicked, ToggleClicked]) == s
    ensures Run(s, [CloseClicked, CloseClicked]) == Run(s, [CloseClicked])
    ensures !Run(s, [CloseClicked]).isOpen && Run(s, [CloseClicked]).pathname == s.pathname
  {
  }

  /** A new path always closes the menu and is recorded. */
  lemma NewPathCloses(s: MenuState, p: Option<string>)
    requires p != s.pathname
    ensures Step(s, PathnameChanged(p)) == MenuState(false, p)
  {
  }

  predicate OnlyToggles(events: seq<MenuEvent>) {
    forall i :: 0 <= i < |events| ==> events[i] == ToggleClicked
  }

  /** Presses of the menu button alone flip the menu once each and keep the path. */
  lemma {:induction false} TogglesFlip(s: MenuState, events: seq<MenuEvent>)
    requires OnlyToggles(events)
    ensures Run(s, events).pathname == s.pathname
    ensures Run(s, events).isOpen == (s.isOpen != (|events| % 2 == 1))
    decreases |events|
  {
    if events != [] {
      TogglesFlip(Step(s, events[0]), events[1..]);
    }
  }

  /** After a `closeMenu` the menu is open exactly when the button was pressed an odd
      number of times since, whatever happened before. */
  lemma OpenIffOddPressesSinceClose(s: MenuState, before: seq<MenuEvent>, presses: seq<MenuEvent>)
    requires OnlyToggles(presses)
    ensures Run(s, before + [CloseClicked] + presses).isOpen == (|presses| % 2 == 1)
  {
    RunAppend(s, before + [CloseClicked], presses);
    RunAppend(s, before, [CloseClicked]);
    TogglesFlip(Run(s, before + [CloseClicked]), presses);
  }

  /** The navigation bar's client state. */
  class Navbar {
    var isOpen: bool
    var pathname: Option<string>

    function State(): MenuState
      reads this
    {
      MenuState(isOpen, pathname)
    }

    /** `useState(false)` on the first render at `initialPathname`. */
    constructor (initialPathname: Option<string>)
      ensures State() == MenuState(false, initialPathname)
    {
      isOpen := false;
      pathname := initialPathname;
    }

    /** `toggleMenu`, bound to the menu button. */
    method ToggleMenu()
      modifies this
      ensures State() == Step(old(State()), ToggleClicked)
      ensures isOpen == !old(isOpen) && pathname == old(pathname)
    {
      isOpen := !isOpen;
    }

    /** `closeMenu`, bound to the backdrop. */
    method CloseMenu()
      modifies this
      ensures State() == Step(old(State()), CloseClicked)
      ensures !isOpen && pathname == old(pathname)
    {
      isOpen := false;
    }

    /** The router reports the current path; the effect closes the menu when it changed. */
    method OnPathname(p: Option<string>)
      modifies this
      ensures State() == Step(old(State()), PathnameChanged(p))
      ensures pathname == p
      ensures p != old(pathname) ==> !isOpen
    {
      if p != pathname {
        pathname := p;
        isOpen := false;
      }
    }

    /** The logo: `closeMenu`, then navigation to "/". */
    method ClickLogo()
      modifies this
      ensures State() == Run(old(State()), [CloseClicked, PathnameChanged(Some("/"))])
      ensures State() == MenuState(false, Some("/"))
    {
      CloseMenu();
      OnPathname(Some("/"));
    }

    /** A link of the mobile menu: `closeMenu`, then navigation to its `href`. */
    method ClickMobileLink(href: string)
      modifies this
      ensures State() == Run(old(State()), [CloseClicked, PathnameChanged(Some(href))])
      ensures State() == MenuState(false, Some(href))
    {
      ghost var s0 := State();
      ghost var events := [CloseClicked, PathnameChanged(Some(href))];
      assert events[1..] == [PathnameChanged(Some(href))];
      assert Run(Step(s0, CloseClicked), events[1..]) == Step(Step(s0, CloseClicked), PathnameChanged(Some(href)));
      assert Run(s0, events) == Run(Step(s0, CloseClicked), events[1..]);
      CloseMenu();
      OnPathname(Some(href));
    }

    /** A link of the desktop bar: navigation only. */
    method ClickDesktopLink(href: string)
      modifies this
      ensures State() == Step(old(State()), PathnameChanged(Some(href)))
      ensures pathname == Some(href)
    {
      OnPathname(Some(href));
    }
  }
}
