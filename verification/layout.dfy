/**
 * The application shell (`Layout`): the fixed menu, the route each menu
 * entry links to, and the sidebar state (pinned, open on a phone, and which
 * accordion entry is expanded) under clicks and route changes.
 */
module Layout {
  import opened JsValues

  /** A sub-entry: an explicit path, or a structure shown on a grid page.
      An absent path or structure name is `""` (both are falsy). */
  datatype SubItem = SubItem(name: string, path: string, structureName: string)

  datatype MenuItem = MenuItem(name: string, path: string, structureName: string, subItems: seq<SubItem>)

  const GridPrefix: string := "/grid/"

  /** The route of an entry's own fields: its path, else its structure's grid
      page, else none. */
  function OwnRoute(path: string, structureName: string): (r: Option<string>)
    ensures path != "" ==> r == Some(path)
    ensures path == "" && structureName != "" ==> r == Some(GridPrefix + structureName)
    ensures r.None? <==> path == "" && structureName == ""
  {
    if path != "" then Some(path)
    else if structureName != "" then Some(GridPrefix + structureName)
    else None
  }

  function SubLink(s: SubItem): (link: string)
    ensures link != ""
    ensures link == "#" <==> OwnRoute(s.path, s.structureName) == None || s.path == "#"
  {
    OwnRoute(s.path, s.structureName).GetOr("#")
  }

  /** `getMenuItemLinkPath`: the entry's own route, else its first sub-entry's
      route, else `"#"`. */
  function LinkPath(item: MenuItem): (link: string)
    ensures link != ""
    ensures item.path != "" ==> link == item.path
    ensures item.path == "" && item.structureName != "" ==> link == GridPrefix + item.structureName
    ensures OwnRoute(item.path, item.structureName).None? && item.subItems != [] ==> link == SubLink(item.subItems[0])
    ensures OwnRoute(item.path, item.structureName).None? && item.subItems == [] ==> link == "#"
  {
    var own := OwnRoute(item.path, item.structureName);
    if own.Some? then own.value
    else if item.subItems != [] then SubLink(item.subItems[0])
    else "#"
  }

  /** A sub-entry links where it would link as an entry of its own. */
  lemma SubLinkIsLinkPath(s: SubItem)
    ensures SubLink(s) == LinkPath(MenuItem(s.name, s.path, s.structureName, []))
  {
  }

  /** A parent without a route of its own links to its first child, so the
      parent and the first child's links never disagree. */
  lemma ParentLinksToFirstChild(item: MenuItem)
    requires item.path == "" && item.structureName == "" && item.subItems != []
    ensures LinkPath(item) == LinkPath(MenuItem(item.subItems[0].name, item.subItems[0].path,
                                                item.subItems[0].structureName, []))
  {
  }

  /** The menu shown in the sidebar and the top bar. */
  const Menu: seq<MenuItem> := [
    MenuItem("대시보드", "/", "", []),
    MenuItem("영업", "", "", [SubItem("영업관리", "", "영업관리_MTBL"), SubItem("접촉관리", "", "접촉관리_MTBL")]),
    MenuItem("고객", "", "", [SubItem("고객관리", "", "고객관리_MTBL")]),
    MenuItem("Admin", "", "", [
      SubItem("사용자관리", "", "사용자관리_MTBL"),
      SubItem("개발정보", "/admin/dev", ""),
      SubItem("Structure정보", "/admin/structure", ""),
      SubItem("Service정보", "/admin/service", "")])
  ]

  /** Every entry and sub-entry of the fixed menu has a concrete route: each
      sub-entry has a path or a structure, and no link is `"#"`. */
  lemma MenuRoutes()
    ensures LinkPath(Menu[0]) == "/"
    ensures LinkPath(Menu[1]) == GridPrefix + "영업관리_MTBL"
    ensures LinkPath(Menu[2]) == GridPrefix + "고객관리_MTBL"
    ensures LinkPath(Menu[3]) == GridPrefix + "사용자관리_MTBL"
    ensures forall i :: 0 <= i < |Menu| ==> LinkPath(Menu[i]) != "#"
    ensures forall i, j :: 0 <= i < |Menu| && 0 <= j < |Menu[i].subItems| ==>
      && Menu[i].subItems[j].path != "#"
      && (Menu[i].subItems[j].path != "" || Menu[i].subItems[j].structureName != "")
      && SubLink(Menu[i].subItems[j]) != "#"
  {
    TopRoutes();
  }

  lemma TopRoutes()
    ensures LinkPath(Menu[0]) == "/"
    ensures LinkPath(Menu[1]) == GridPrefix + "영업관리_MTBL"
    ensures LinkPath(Menu[2]) == GridPrefix + "고객관리_MTBL"
    ensures LinkPath(Menu[3]) == GridPrefix + "사용자관리_MTBL"
  {
  }

  function HasSubItems(item: MenuItem): bool {
    |item.subItems| > 0
  }

  // ---------------------------------------------------------------------------
  // Sidebar state
  // ---------------------------------------------------------------------------

  /** Whether the sidebar is pinned, whether the phone menu is open, and the
      name of the expanded accordion entry. */
  datatype Shell = Shell(pinned: bool, mobileOpen: bool, openMenu: Option<string>)

  const Initial: Shell := Shell(false, false, None)

  datatype ShellEvent =
    | MenuClicked(item: MenuItem)
    | RouteChanged
    | PinToggled
    | HamburgerPressed
    | OverlayPressed

  /** The shell after an event, and whether the click's link navigates. */
  datatype ShellStep = ShellStep(shell: Shell, navigates: bool)

  /** `handleMenuClick`, the route-change effect and the three toggles. A
      click on a parent toggles its accordion and does not navigate; a click
      on a leaf navigates and closes the phone menu. */
  function OnShell(s: Shell, ev: ShellEvent): (r: ShellStep)
    ensures ev.MenuClicked? && HasSubItems(ev.item) ==>
      && !r.navigates && r.shell.mobileOpen == s.mobileOpen
      && (r.shell.openMenu == Some(ev.item.name) <==> s.openMenu != Some(ev.item.name))
      && (r.shell.openMenu.None? <==> s.openMenu == Some(ev.item.name))
    ensures ev.MenuClicked? && !HasSubItems(ev.item) ==> r.navigates && r == ShellStep(s.(mobileOpen := false), true)
    ensures ev.RouteChanged? ==> !r.shell.mobileOpen && r.shell.openMenu.None? && r.shell.pinned == s.pinned
    ensures !ev.MenuClicked? ==> !r.navigates
    ensures r.shell.pinned != s.pinned <==> ev.PinToggled?
  {
    match ev
    case MenuClicked(item) =>
      if HasSubItems(item) then
        ShellStep(s.(openMenu := if s.openMenu == Some(item.name) then None else Some(item.name)), false)
      else ShellStep(s.(mobileOpen := false), true)
    case RouteChanged => ShellStep(s.(mobileOpen := false, openMenu := None), false)
    case PinToggled => ShellStep(s.(pinned := !s.pinned), false)
    case HamburgerPressed => ShellStep(s.(mobileOpen := !s.mobileOpen), false)
    case OverlayPressed => ShellStep(s.(mobileOpen := false), false)
  }

  /** Two clicks on the same parent restore the shell when the accordion was
      closed or showed that parent; when another entry was expanded they
      leave every entry closed. */
  lemma ParentClickTwice(s: Shell, item: MenuItem)
    requires HasSubItems(item)
    ensures var twice := OnShell(OnShell(s, MenuClicked(item)).shell, MenuClicked(item)).shell;
      && (s.openMenu.None? || s.openMenu == Some(item.name) ==> twice == s)
      && (s.openMenu.Some? && s.openMenu != Some(item.name) ==> twice == s.(openMenu := None))
  {
  }

  /** Following a leaf's link to another route closes everything: the click
      closes the phone menu and the route change that follows closes the
      accordion. */
  lemma LeafNavigationClosesAll(s: Shell, item: MenuItem)
    requires !HasSubItems(item)
    ensures var after := OnShell(OnShell(s, MenuClicked(item)).shell, RouteChanged).shell;
      after == Shell(s.pinned, false, None)
  {
  }

  /** A leaf whose link is the current route changes no pathname, so the
      route-change effect does not run: the click closes the phone menu and
      the accordion stays as it was. */
  lemma LeafToCurrentRouteKeepsAccordion(s: Shell, item: MenuItem)
    requires !HasSubItems(item)
    ensures var after := OnShell(s, MenuClicked(item)).shell;
      !after.mobileOpen && after.openMenu == s.openMenu && after.pinned == s.pinned
  {
  }
}
