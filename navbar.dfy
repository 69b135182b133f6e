/**
 * The navigation bar: the link each menu label leads to, which label is
 * highlighted for the current path, and the mobile menu whose opening locks
 * page scrolling through the body's `overflow` style.
 */
module Navbar {
  import opened Text

  const NAV_ITEMS: seq<string> := ["Home", "Movies", "Showtimes", "Book Tickets", "About"]

  /** The paths the router serves: the index and four children under "/", and the login page. */
  const APP_ROUTES: seq<string> := ["/", "/movies", "/showtimes", "/book-tickets", "/about", "/login"]

  const ACTIVE_CLASS := "text-red-500"
  const INACTIVE_CLASS := "text-gray-300"

  /** `item.toLowerCase().replace(" ", "-")`: only the first space becomes a dash. */
  function Slug(name: string): (slug: string)
    ensures |slug| == |name|
    ensures forall i :: 0 <= i < |slug| ==> !IsUpper(slug[i])
  {
    ReplaceFirst(ToLower(name), ' ', '-')
  }

  /** The `to` of a menu link: "/" for Home, `/${slug}` otherwise. */
  function LinkTarget(item: string): (path: string)
    ensures path != [] && path[0] == '/'
  {
    if item == "Home" then "/" else "/" + Slug(item)
  }

  /** `isActiveRoute(path)`: the highlight class of a menu label on the current path. */
  function IsActiveRoute(pathname: string, item: string): (cls: string)
    ensures cls == ACTIVE_CLASS || cls == INACTIVE_CLASS
  {
    if item == "Home" then
      (if pathname == "/" then ACTIVE_CLASS else INACTIVE_CLASS)
    else if pathname == "/" + ReplaceFirst(ToLower(item), ' ', '-') then ACTIVE_CLASS
    else INACTIVE_CLASS
  }

  /** A label is highlighted exactly when the current path is the one its link leads to. */
  lemma ActiveIffAtLinkTarget(pathname: string, item: string)
    ensures IsActiveRoute(pathname, item) == ACTIVE_CLASS <==> pathname == LinkTarget(item)
  {
  }

  /** The link of a one-word label is its lower-case form. */
  lemma OneWordTarget(item: string, lower: string)
    requires item != "Home" && ToLower(item) == lower && ' ' !in lower
    ensures LinkTarget(item) == "/" + lower
  {
    assert ReplaceFirst(lower, ' ', '-') == lower;
  }

  /** A two-word label links to "/" plus its lower-case words joined by a dash. */
  lemma TwoWordTarget(first: string, second: string, lowerFirst: string, lowerSecond: string)
    requires first + " " + second != "Home" && ' ' !in lowerFirst
    requires ToLower(first) == lowerFirst && ToLower(second) == lowerSecond
    ensures LinkTarget(first + " " + second) == "/" + lowerFirst + "-" + lowerSecond
  {
    LowerTwoWords(first, second);
    ReplaceFirstJoin(lowerFirst, ' ', '-', lowerSecond);
    TargetOfSlug(first + " " + second, lowerFirst + [' '] + lowerSecond, lowerFirst + ['-'] + lowerSecond);
    assert "/" + lowerFirst + "-" + lowerSecond == "/" + (lowerFirst + ['-'] + lowerSecond);
  }

  lemma TargetOfSlug(item: string, lower: string, slug: string)
    requires item != "Home" && ToLower(item) == lower && ReplaceFirst(lower, ' ', '-') == slug
    ensures LinkTarget(item) == "/" + slug
  {
  }

  lemma LowerTwoWords(first: string, second: string)
    ensures ToLower(first + " " + second) == ToLower(first) + [' '] + ToLower(second)
  {
    assert first + " " + second == first + (" " + second);
    ToLowerAppend(first, " " + second);
    ToLowerAppend(" ", second);
    assert ToLower(" ") == [' '];
  }

  /** The fourth label, "Book Tickets", links to "/book-tickets". */
  lemma BookTicketsTarget()
    ensures LinkTarget(NAV_ITEMS[3]) == "/book-tickets"
  {
    BookTicketsWords();
    TwoWordTarget("Book", "Tickets", "book", "tickets");
    assert "/" + "book" + "-" + "tickets" == "/book-tickets";
  }

  lemma BookTicketsWords()
    ensures NAV_ITEMS[3] == "Book" + " " + "Tickets"
    ensures ToLower("Book") == "book" && ToLower("Tickets") == "tickets"
  {
  }

  /** The five links, in menu order. */
  lemma NavTargets()
    ensures |NAV_ITEMS| == 5
    ensures LinkTarget(NAV_ITEMS[0]) == "/"
    ensures LinkTarget(NAV_ITEMS[1]) == "/movies"
    ensures LinkTarget(NAV_ITEMS[2]) == "/showtimes"
    ensures LinkTarget(NAV_ITEMS[3]) == "/book-tickets"
    ensures LinkTarget(NAV_ITEMS[4]) == "/about"
  {
    OneWordTarget(NAV_ITEMS[1], "movies");
    OneWordTarget(NAV_ITEMS[2], "showtimes");
    OneWordTarget(NAV_ITEMS[4], "about");
    BookTicketsTarget();
  }

  /** Every menu link leads to a page the router serves. */
  lemma NavTargetsAreRoutes()
    ensures forall k :: 0 <= k < |NAV_ITEMS| ==> LinkTarget(NAV_ITEMS[k]) in APP_ROUTES
  {
    NavTargets();
  }

  /** For any path at most one menu label is highlighted. */
  lemma AtMostOneActive(pathname: string)
    ensures forall a, b ::
      (0 <= a < |NAV_ITEMS| && 0 <= b < |NAV_ITEMS| &&
       IsActiveRoute(pathname, NAV_ITEMS[a]) == ACTIVE_CLASS && IsActiveRoute(pathname, NAV_ITEMS[b]) == ACTIVE_CLASS)
      ==> a == b
  {
    forall a, b | 0 <= a < |NAV_ITEMS| && 0 <= b < |NAV_ITEMS| &&
      IsActiveRoute(pathname, NAV_ITEMS[a]) == ACTIVE_CLASS && IsActiveRoute(pathname, NAV_ITEMS[b]) == ACTIVE_CLASS
      ensures a == b
    {
      ActiveIffAtLinkTarget(pathname, NAV_ITEMS[a]);
      ActiveIffAtLinkTarget(pathname, NAV_ITEMS[b]);
      TargetsDistinct(a, b);
    }
  }

  /** Different menu labels lead to different paths (their lengths already differ). */
  lemma TargetsDistinct(a: nat, b: nat)
    requires a < |NAV_ITEMS| && b < |NAV_ITEMS|
    requires LinkTarget(NAV_ITEMS[a]) == LinkTarget(NAV_ITEMS[b])
    ensures a == b
  {
    NavTargets();
    var lengths := [1, 7, 10, 13, 6];
    assert |LinkTarget(NAV_ITEMS[a])| == lengths[a];
    assert |LinkTarget(NAV_ITEMS[b])| == lengths[b];
  }

  /** On the login page no menu label is highlighted. */
  lemma NoneActiveOnLogin()
    ensures forall k :: 0 <= k < |NAV_ITEMS| ==> IsActiveRoute("/login", NAV_ITEMS[k]) == INACTIVE_CLASS
  {
    NavTargets();
    forall k | 0 <= k < |NAV_ITEMS| ensures IsActiveRoute("/login", NAV_ITEMS[k]) == INACTIVE_CLASS {
      ActiveIffAtLinkTarget("/login", NAV_ITEMS[k]);
    }
  }

  /** `document.body.style.overflow` as the open/close effect leaves it. */
  function OverflowFor(isOpen: bool): string {
    if isOpen then "hidden" else "unset"
  }

  class NavbarState {
    var pathname: string
    var isOpen: bool
    var scrolled: bool
    var bodyOverflow: string

    /** Page scrolling is locked exactly while the mobile menu is open. */
    ghost predicate Valid()
      reads this
    {
      bodyOverflow == OverflowFor(isOpen)
    }

    /** Mounting: both flags start false and the effects have run once. */
    constructor (path: string)
      ensures Valid()
      ensures pathname == path && !isOpen && !scrolled && bodyOverflow == "unset"
    {
      pathname := path;
      isOpen := false;
      scrolled := false;
      bodyOverflow := "unset";
    }

    /** The hamburger button: `setIsOpen(!isOpen)`, then the overflow effect. */
    method ToggleMenu()
      modifies this`isOpen, this`bodyOverflow
      ensures Valid() && isOpen == !old(isOpen)
    {
      isOpen := !isOpen;
      bodyOverflow := OverflowFor(isOpen);
    }

    /** The close button and the login link of the mobile menu: `setIsOpen(false)`. */
    method CloseMenu()
      modifies this`isOpen, this`bodyOverflow
      ensures Valid() && !isOpen && bodyOverflow == "unset"
    {
      isOpen := false;
      bodyOverflow := OverflowFor(isOpen);
    }

    /** A change of location: the route effect closes the menu, which unlocks scrolling. */
    method Navigate(path: string)
      modifies this`pathname, this`isOpen, this`bodyOverflow
      ensures Valid() && pathname == path && !isOpen && bodyOverflow == "unset"
    {
      pathname := path;
      isOpen := false;
      bodyOverflow := OverflowFor(isOpen);
    }

    /** A menu link: it closes the menu and goes to its target, where its own label is highlighted. */
    method FollowLink(item: string)
      modifies this`pathname, this`isOpen, this`bodyOverflow
      ensures Valid() && !isOpen && pathname == LinkTarget(item)
      ensures IsActiveRoute(pathname, item) == ACTIVE_CLASS
    {
      CloseMenu();
      Navigate(LinkTarget(item));
      ActiveIffAtLinkTarget(pathname, item);
    }

    /** The debounced scroll handler firing: `setScrolled(window.scrollY > 20)`. */
    method ScrollSettled(scrollY: int)
      requires Valid()
      modifies this`scrolled
      ensures Valid() && (scrolled <==> scrollY > 20)
    {
      scrolled := scrollY > 20;
    }

    /** Unmounting: the effect cleanup always unlocks page scrolling. */
    method Unmount()
      modifies this`bodyOverflow
      ensures bodyOverflow == "unset"
    {
      bodyOverflow := "unset";
    }
  }

  /** Opening the menu locks scrolling; following a link releases it and highlights that link. */
  method MobileMenuWalkthrough()
  {
    var nav := new NavbarState("/");
    nav.ToggleMenu();
    assert nav.isOpen && nav.bodyOverflow == "hidden";
    nav.FollowLink("Book Tickets");
    NavTargets();
    assert nav.pathname == "/book-tickets" && nav.bodyOverflow == "unset";
    AtMostOneActive(nav.pathname);
    assert IsActiveRoute(nav.pathname, "Home") == INACTIVE_CLASS;
  }
}
