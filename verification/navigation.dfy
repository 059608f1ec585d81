/** The navigation bar (`NavigationComponent`): which entries fit inline at a
    given window width and which go to the "more" dropdown, which entry is
    highlighted for the current route, and the two menu flags. The window
    width and the route are inputs. */
module Navigation {
  import opened Wrappers
  import opened Models
  import Js

  const NavItems: seq<NavigationItem> := [
    NavigationItem("Search Pokemon", "/search", None),
    NavigationItem("Results", "/results", None),
    NavigationItem("About", "/about", None),
    NavigationItem("Help", "/help", None)
  ]

  /** Below this width every entry lives in the mobile menu. */
  const MobileBreakpoint: int := 768
  /** The width kept for the logo and margins. */
  const ReservedWidth: int := 400
  /** The width one inline entry is taken to need. */
  const ItemWidth: int := 120

  /** The inline entries and the dropdown entries. */
  datatype Layout = Layout(visible: seq<NavigationItem>, hidden: seq<NavigationItem>)

  /** `calculateVisibleItems` for a window `width` pixels wide. */
  function Partition(width: int): (l: Layout)
    ensures width < MobileBreakpoint ==> l.visible == [] && l.hidden == []
    ensures width >= MobileBreakpoint ==> l.visible + l.hidden == NavItems
  {
    if width < MobileBreakpoint then Layout([], [])
    else
      var itemsToShow := Js.Min((width - ReservedWidth) / ItemWidth, |NavItems|);
      Layout(Js.Slice(NavItems, 0, itemsToShow), Js.Slice(NavItems, itemsToShow, |NavItems|))
  }

  /** On a desktop-width window at least three entries are inline, all four
      from 880 pixels on, and the count is the number of 120-pixel slots left
      after the reserved 400, capped at four. */
  lemma PartitionCounts(width: int)
    requires width >= MobileBreakpoint
    ensures var l := Partition(width);
            && |l.visible| == Js.Min((width - ReservedWidth) / ItemWidth, |NavItems|)
            && 3 <= |l.visible| <= 4
            && (|l.visible| == 4 <==> width >= ReservedWidth + 4 * ItemWidth)
            && l.visible == NavItems[..|l.visible|]
  {
  }

  /** A wider window never shows fewer entries inline. */
  lemma PartitionMonotone(narrow: int, wide: int)
    requires MobileBreakpoint <= narrow <= wide
    ensures |Partition(narrow).visible| <= |Partition(wide).visible|
    ensures Partition(narrow).visible <= Partition(wide).visible
  {
    PartitionCounts(narrow);
    PartitionCounts(wide);
  }

  /** The path with the root counted as the search route. */
  function RootAsSearch(path: string): string {
    if path == "/" then "/search" else path
  }

  /** `isActiveRoute`: the search entry also stands for the root route. An
      entry is highlighted on its own route, and an entry whose route is not
      the root is highlighted exactly when the recorded URL is that route,
      the root path counting as the search route. */
  function IsActiveRoute(currentRoute: string, route: string): (active: bool)
    ensures currentRoute == route ==> active
    ensures route != "/" ==> (active <==> RootAsSearch(currentRoute) == route)
  {
    (route == "/search" && (currentRoute == "/" || currentRoute == "/search")) || currentRoute == route
  }

  /** At most one entry of the bar is highlighted. */
  lemma OneActiveEntry(currentRoute: string, i: int, j: int)
    requires 0 <= i < |NavItems| && 0 <= j < |NavItems|
    requires IsActiveRoute(currentRoute, NavItems[i].route) && IsActiveRoute(currentRoute, NavItems[j].route)
    ensures i == j
  {
    assert NavItems[0].route[1] == 's' && NavItems[1].route[1] == 'r';
    assert NavItems[2].route[1] == 'a' && NavItems[3].route[1] == 'h';
  }

  /** Some entry is highlighted exactly when the route is the root or an
      entry's route. */
  lemma SomeEntryActive(currentRoute: string)
    ensures (exists i | 0 <= i < |NavItems| :: IsActiveRoute(currentRoute, NavItems[i].route)) <==>
      currentRoute == "/" || exists i | 0 <= i < |NavItems| :: NavItems[i].route == currentRoute
  {
    if currentRoute == "/" {
      assert IsActiveRoute(currentRoute, NavItems[0].route);
    }
  }

  /** The component's state. */
  datatype NavState = NavState(
    screenWidth: int,
    layout: Layout,
    currentRoute: string,
    isMobileMenuOpen: bool,
    isDropdownOpen: bool)

  /** `ngOnInit`: measure the window, lay the entries out, take the route. */
  function Init(width: int, route: string): (n: NavState)
    ensures n.layout == Partition(n.screenWidth) && n.screenWidth == width
    ensures !n.isMobileMenuOpen && !n.isDropdownOpen && n.currentRoute == route
  {
    NavState(width, Partition(width), route, false, false)
  }

  /** `toggleMobileMenu`: flips the mobile menu and always closes the dropdown. */
  function ToggleMobileMenu(n: NavState): (r: NavState)
    ensures r.isMobileMenuOpen == !n.isMobileMenuOpen && !r.isDropdownOpen
    ensures r.(isMobileMenuOpen := n.isMobileMenuOpen, isDropdownOpen := n.isDropdownOpen) == n
  {
    n.(isMobileMenuOpen := !n.isMobileMenuOpen, isDropdownOpen := false)
  }

  function CloseMobileMenu(n: NavState): (r: NavState)
    ensures !r.isMobileMenuOpen
    ensures r.(isMobileMenuOpen := n.isMobileMenuOpen) == n
  {
    n.(isMobileMenuOpen := false)
  }

  function ToggleDropdown(n: NavState): (r: NavState)
    ensures r.isDropdownOpen == !n.isDropdownOpen
    ensures r.(isDropdownOpen := n.isDropdownOpen) == n
  {
    n.(isDropdownOpen := !n.isDropdownOpen)
  }

  function CloseDropdown(n: NavState): (r: NavState)
    ensures !r.isDropdownOpen
    ensures r.(isDropdownOpen := n.isDropdownOpen) == n
  {
    n.(isDropdownOpen := false)
  }

  /** Toggling the mobile menu twice leaves it as it was, with the dropdown shut. */
  lemma ToggleMobileTwice(n: NavState)
    ensures ToggleMobileMenu(ToggleMobileMenu(n)) == CloseDropdown(n)
  {
  }

  /** Toggling the dropdown twice changes nothing; closing is idempotent. */
  lemma ToggleDropdownTwice(n: NavState)
    ensures ToggleDropdown(ToggleDropdown(n)) == n
    ensures CloseDropdown(CloseDropdown(n)) == CloseDropdown(n)
    ensures CloseMobileMenu(CloseMobileMenu(n)) == CloseMobileMenu(n)
  {
  }

  /** A finished navigation: the new route is recorded and both menus shut. */
  function OnNavigationEnd(n: NavState, url: string): (r: NavState)
    ensures r.currentRoute == url && !r.isMobileMenuOpen && !r.isDropdownOpen
    ensures r.screenWidth == n.screenWidth && r.layout == n.layout
  {
    CloseDropdown(CloseMobileMenu(n.(currentRoute := url)))
  }

  /** `onResize`: re-measure, re-lay out, and shut the mobile menu on a
      desktop-width window. */
  function OnResize(n: NavState, width: int): (r: NavState)
    ensures r.screenWidth == width && r.layout == Partition(width)
    ensures width >= MobileBreakpoint ==> !r.isMobileMenuOpen
    ensures width < MobileBreakpoint ==> r.isMobileMenuOpen == n.isMobileMenuOpen
    ensures r.currentRoute == n.currentRoute && r.isDropdownOpen == n.isDropdownOpen
  {
    var m := n.(screenWidth := width, layout := Partition(width));
    if width >= MobileBreakpoint then CloseMobileMenu(m) else m
  }

  /** `onDocumentClick`: a click outside every `.relative` element shuts the
      dropdown; `insideRelative` is what `closest('.relative')` finds. */
  function OnDocumentClick(n: NavState, insideRelative: bool): (r: NavState)
    ensures !insideRelative ==> !r.isDropdownOpen
    ensures insideRelative ==> r == n
    ensures r.(isDropdownOpen := n.isDropdownOpen) == n
  {
    if insideRelative then n else CloseDropdown(n)
  }

  /** The layout always matches the measured width, whatever events come. */
  ghost predicate LaidOut(n: NavState) {
    n.layout == Partition(n.screenWidth)
  }

  /** Every handler keeps the layout in step with the measured width. */
  lemma HandlersKeepLayout(n: NavState, width: int, url: string, inside: bool)
    requires LaidOut(n)
    ensures LaidOut(ToggleMobileMenu(n)) && LaidOut(CloseMobileMenu(n))
    ensures LaidOut(ToggleDropdown(n)) && LaidOut(CloseDropdown(n))
    ensures LaidOut(OnNavigationEnd(n, url)) && LaidOut(OnDocumentClick(n, inside))
    ensures LaidOut(OnResize(n, width))
  {
  }
}
