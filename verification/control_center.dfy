/** The state logic of the first unified interface, the control center:
    one current and one previous screen, per-screen selection limits, the
    breadcrumb and the exit question. Drawing is not modelled. */
module ControlCenter {
  import opened Wrappers
  import opened OrderedMaps
  import opened Selection
  import ServerManager

  const Home := "main_menu"

  /** The navigation state. `previous` is `None` until a screen change;
      `browserItems` are the entries the project browser lists. */
  datatype Screens = Screens(
    current: string,
    previous: Option<string>,
    selected: int,
    scroll: int,
    browserPath: string,
    browserItems: seq<string>)

  /** The screens at start-up; the browser starts at the home directory. */
  function Initial(home: string): (s: Screens)
    ensures s.current == Home && s.previous.None? && s.selected == 0
    ensures s.browserPath == home && s.browserItems == []
  {
    Screens(Home, None, 0, 0, home, [])
  }

  /** Python truthiness of `previous_screen`: set and not empty. */
  predicate HasPrevious(s: Screens) {
    s.previous.Some? && s.previous.value != ""
  }

  /** `change_screen`: the current screen becomes the previous one, the
      selection and scroll start again, and opening the project browser
      lists the working directory `cwd` through `listing`. */
  function ChangeScreen(s: Screens, screen: string, cwd: string, listing: string -> seq<string>): (r: Screens)
    ensures r.current == screen && r.previous == Some(s.current)
    ensures r.selected == 0 && r.scroll == 0
    ensures screen == "project_browser" ==> r.browserPath == cwd && r.browserItems == listing(cwd)
    ensures screen != "project_browser" ==> r.browserPath == s.browserPath && r.browserItems == s.browserItems
  {
    var moved := s.(previous := Some(s.current), current := screen, selected := 0, scroll := 0);
    if screen == "project_browser" then moved.(browserPath := cwd, browserItems := listing(cwd))
    else moved
  }

  /** `go_back`: with a previous screen the two swap and the selection
      starts again (the scroll stays); without one it changes to the main
      menu unless already there. */
  function GoBack(s: Screens, cwd: string, listing: string -> seq<string>): (r: Screens)
    ensures HasPrevious(s) ==> r == s.(current := s.previous.value, previous := Some(s.current), selected := 0)
    ensures !HasPrevious(s) && s.current != Home ==> r == ChangeScreen(s, Home, cwd, listing)
    ensures !HasPrevious(s) && s.current == Home ==> r == s
  {
    if HasPrevious(s) then s.(current := s.previous.value, previous := Some(s.current), selected := 0)
    else if s.current != Home then ChangeScreen(s, Home, cwd, listing)
    else s
  }

  /** Going back twice returns to the same pair of screens. */
  lemma GoBackTwice(s: Screens, cwd: string, listing: string -> seq<string>)
    requires HasPrevious(s) && s.current != ""
    ensures var r := GoBack(GoBack(s, cwd, listing), cwd, listing);
            r.current == s.current && r.previous == s.previous
  {
  }

  /** Going back after a screen change returns to the screen left. */
  lemma GoBackAfterChange(s: Screens, screen: string, cwd: string, listing: string -> seq<string>)
    requires s.current != ""
    ensures var r := GoBack(ChangeScreen(s, screen, cwd, listing), cwd, listing);
            r.current == s.current && r.previous == Some(screen)
  {
  }

  /** `get_max_items`. `currentServerPort` counts only when set and not
      zero, as Python's truthiness has it. */
  function MaxItems(screen: string, servers: OMap<int, ServerManager.Server>, browserItems: nat,
                    currentServerPort: Option<int>): (r: nat)
    ensures screen == "main_menu" ==> r == 8
    ensures screen == "server_dashboard" ==> r == |servers|
    ensures screen == "project_browser" ==> r == browserItems
    ensures screen == "data_explorer" ==>
              r == if currentServerPort.Some? && currentServerPort.value != 0 then 4 else |servers|
    ensures screen == "database_tools" ==> r == 5
    ensures screen !in {"main_menu", "server_dashboard", "project_browser", "data_explorer", "database_tools"} ==> r == 0
  {
    if screen == "main_menu" then 8
    else if screen == "server_dashboard" then |servers|
    else if screen == "project_browser" then browserItems
    else if screen == "data_explorer" then
      if currentServerPort.Some? && currentServerPort.value != 0 then 4 else |servers|
    else if screen == "database_tools" then 5
    else 0
  }

  /** `move_selection`: clamped into the screen's rows when it has any,
      otherwise left where it is. */
  function MoveSelection(s: Screens, delta: int, maxItems: nat): (r: Screens)
    ensures maxItems > 0 ==> r == s.(selected := Clamp(s.selected, delta, maxItems)) && 0 <= r.selected < maxItems
    ensures maxItems == 0 ==> r == s
  {
    if maxItems > 0 then s.(selected := Clamp(s.selected, delta, maxItems)) else s
  }

  /** A step that stays inside the list is undone by the opposite step. */
  lemma MoveSelectionReversible(s: Screens, delta: int, maxItems: nat)
    requires 0 <= s.selected < maxItems && 0 <= s.selected + delta < maxItems
    ensures MoveSelection(MoveSelection(s, delta, maxItems), -delta, maxItems) == s
  {
  }

  /** `get_breadcrumb`: the screen's title, empty for the main menu and
      any screen without one. */
  function Breadcrumb(screen: string): string {
    if screen == "server_dashboard" then "Server Dashboard"
    else if screen == "quick_launch" then "Quick Launch"
    else if screen == "project_browser" then "Project Browser"
    else if screen == "data_explorer" then "Data Explorer"
    else if screen == "database_tools" then "Database Tools"
    else if screen == "settings" then "Settings"
    else if screen == "help" then "Documentation"
    else if screen == "server_details" then "Server Details"
    else if screen == "launch_config" then "Launch Configuration"
    else ""
  }

  const TitledScreens: set<string> := {"server_dashboard", "quick_launch", "project_browser", "data_explorer",
                                       "database_tools", "settings", "help", "server_details", "launch_config"}

  /** The breadcrumb is empty exactly for the screens without a title,
      the main menu among them. */
  lemma BreadcrumbEmptyIff(screen: string)
    ensures Breadcrumb(screen) == "" <==> screen !in TitledScreens
    ensures Breadcrumb(Home) == ""
  {
  }

  /** `draw_header`: the title, followed by " > " and the breadcrumb when
      there is one. */
  function Header(screen: string): (r: string)
    ensures screen !in TitledScreens ==> r == HeaderTitle
    ensures screen in TitledScreens ==> r == HeaderTitle + " > " + Breadcrumb(screen)
  {
    BreadcrumbEmptyIff(screen);
    var crumb := Breadcrumb(screen);
    if crumb != "" then HeaderTitle + " > " + crumb else HeaderTitle
  }

  const HeaderTitle := "\U{1F680} Agent MCP Control Center"

  /** `confirm_exit`: `True` at once when no server runs, otherwise whether
      `y` or `Y` was pressed. */
  predicate ConfirmExit(servers: OMap<int, ServerManager.Server>, key: char) {
    !ServerManager.AnyRunning(servers) || key == 'y' || key == 'Y'
  }

  /** `q` on the main menu as written: `handle_input` returns
      `confirm_exit()`, and the loop stops when it returns `False`. */
  predicate QuitStopsAsWritten(servers: OMap<int, ServerManager.Server>, key: char) {
    !ConfirmExit(servers, key)
  }

  /** As written, with no server running `q` on the main menu never ends
      the program, and with servers running every answer but `y` ends it. */
  lemma QuitIgnoredWhenIdle(servers: OMap<int, ServerManager.Server>, key: char)
    ensures !ServerManager.AnyRunning(servers) ==> !QuitStopsAsWritten(servers, key)
    ensures ServerManager.AnyRunning(servers) ==> (QuitStopsAsWritten(servers, key) <==> key != 'y' && key != 'Y')
  {
  }

  /** `q` on the main menu as the docstring "return False to exit"
      evidently means it: stop when `confirm_exit` says yes. */
  predicate QuitStops(servers: OMap<int, ServerManager.Server>, key: char) {
    ConfirmExit(servers, key)
  }

  /** The intended rule stops at once with no server running, agrees with
      the server manager's `confirm_quit`, and is the exact negation of the
      code as written. */
  lemma QuitStopsWhenIdle(servers: OMap<int, ServerManager.Server>, key: char)
    ensures !ServerManager.AnyRunning(servers) ==> QuitStops(servers, key)
    ensures QuitStops(servers, key) <==> ServerManager.ConfirmQuit(servers, key)
    ensures QuitStops(servers, key) <==> !QuitStopsAsWritten(servers, key)
  {
  }
}
