/** The state logic of the enhanced unified interface: the screen stack and
    its breadcrumb, the port selector's keys, the server panel's tabs and
    data loading, selection limits per screen, clipped text output and the
    exit question. Drawing is not modelled. */
module EnhancedInterface {
  import opened Wrappers
  import opened Text
  import opened Seqs
  import opened OrderedMaps
  import opened Selection
  import ServerManager

  // ---------------------------------------------------------------------
  // Screen stack

  const Home := "main_menu"

  /** The navigation part of the interface: the screen stack, the selected
      row and the scroll offset. */
  datatype Nav = Nav(stack: seq<string>, selected: int, scroll: int)

  const InitialNav := Nav([Home], 0, 0)

  /** `current_screen`: the top of the stack, `main_menu` for an empty one. */
  function CurrentScreen(stack: seq<string>): (r: string)
    ensures |stack| > 0 ==> r == stack[|stack| - 1]
    ensures |stack| == 0 ==> r == Home
  {
    if |stack| > 0 then stack[|stack| - 1] else Home
  }

  /** `push_screen`: the screen goes on top and the selection and scroll
      start again. */
  function PushScreen(n: Nav, screen: string): (r: Nav)
    ensures r.stack == n.stack + [screen]
    ensures CurrentScreen(r.stack) == screen
    ensures r.selected == 0 && r.scroll == 0
  {
    Nav(n.stack + [screen], 0, 0)
  }

  /** `pop_screen`: the top goes only when something stays under it; the
      first component is the returned flag. */
  function PopScreen(n: Nav): (r: (bool, Nav))
    ensures r.0 <==> |n.stack| > 1
    ensures r.0 ==> r.1 == Nav(n.stack[..|n.stack| - 1], 0, 0)
    ensures !r.0 ==> r.1 == n
  {
    if |n.stack| > 1 then (true, Nav(n.stack[..|n.stack| - 1], 0, 0)) else (false, n)
  }

  /** Going back after opening a screen returns to the screen before it. */
  lemma PopUndoesPush(n: Nav, screen: string)
    requires |n.stack| >= 1
    ensures PopScreen(PushScreen(n, screen)) == (true, n.(selected := 0, scroll := 0))
  {
    assert (n.stack + [screen])[..|n.stack|] == n.stack;
  }

  datatype NavStep = Open(screen: string) | Back

  function Navigate(n: Nav, steps: seq<NavStep>): Nav
    decreases |steps|
  {
    if |steps| == 0 then n
    else
      var next := match steps[0]
        case Open(s) => PushScreen(n, s)
        case Back => PopScreen(n).1;
      Navigate(next, steps[1..])
  }

  /** However the user moves, the stack keeps its base: it never empties
      and its bottom screen stays the one it started with. */
  lemma {:induction false} BaseNeverPopped(n: Nav, steps: seq<NavStep>)
    requires |n.stack| >= 1
    ensures |Navigate(n, steps).stack| >= 1
    ensures Navigate(n, steps).stack[0] == n.stack[0]
    decreases |steps|
  {
    if |steps| > 0 {
      var next := match steps[0]
        case Open(s) => PushScreen(n, s)
        case Back => PopScreen(n).1;
      assert |next.stack| >= 1 && next.stack[0] == n.stack[0];
      BaseNeverPopped(next, steps[1..]);
    }
  }

  // ---------------------------------------------------------------------
  // Breadcrumb

  /** The display name of a screen; an unknown screen shows as itself. */
  function ScreenName(screen: string): string {
    if screen == "main_menu" then "Home"
    else if screen == "server_hub" then "Server Hub"
    else if screen == "server_control" then "Server Control"
    else if screen == "launch_wizard" then "Launch Wizard"
    else if screen == "project_browser" then "Browse Projects"
    else if screen == "port_selector" then "Select Port"
    else screen
  }

  function ScreenNames(screens: seq<string>): (r: seq<string>)
    ensures |r| == |screens|
    ensures forall i :: 0 <= i < |screens| ==> r[i] == ScreenName(screens[i])
  {
    seq(|screens|, i requires 0 <= i < |screens| => ScreenName(screens[i]))
  }

  /** `get_breadcrumb`: the names of every screen above the base, joined
      by " > ". */
  function Breadcrumb(stack: seq<string>): string {
    if |stack| <= 1 then "" else Join(ScreenNames(stack[1..]), " > ")
  }

  /** Opening a screen adds its name to the breadcrumb: alone when it is
      the first above the base, after " > " otherwise. */
  lemma BreadcrumbPush(stack: seq<string>, screen: string)
    requires |stack| >= 1
    ensures |stack| == 1 ==> Breadcrumb(stack + [screen]) == ScreenName(screen)
    ensures |stack| > 1 ==> Breadcrumb(stack + [screen]) == Breadcrumb(stack) + " > " + ScreenName(screen)
  {
    var grown := stack + [screen];
    assert grown[1..] == stack[1..] + [screen];
    assert ScreenNames(grown[1..]) == ScreenNames(stack[1..]) + [ScreenName(screen)];
    if |stack| > 1 {
      JoinSnoc(ScreenNames(stack[1..]), ScreenName(screen), " > ");
    }
  }

  /** The home screen alone has an empty breadcrumb. */
  lemma BreadcrumbAtHome()
    ensures Breadcrumb(InitialNav.stack) == ""
  {
  }

  // ---------------------------------------------------------------------
  // Port selector

  /** The quick-select ports behind keys `1`..`9`. */
  const QuickPorts: seq<int> := [8080, 8081, 8082, 3000, 3001, 3002, 5000, 5001, 9000]

  const KeyEnter := 10
  const KeyDelete := 127
  /** `curses.KEY_BACKSPACE` in ncurses. */
  const KeyBackspace := 263

  /** The selector's state: the launch port and the typed-digit buffer,
      `None` until the attribute is first created. */
  datatype PortSelector = PortSelector(port: int, entry: Option<string>)

  /** The first component says whether Enter closed the selector. */
  datatype PortKeyResult = PortKeyResult(closed: bool, selector: PortSelector)

  /** `[p for p in range(8000, 9000) if p not in servers]`. */
  function RandomCandidates(taken: set<int>): (r: seq<int>)
    ensures forall p :: p in r <==> 8000 <= p < 9000 && p !in taken
  {
    var range := seq(1000, i => 8000 + i);
    forall p | 8000 <= p < 9000 ensures p in range {
      assert range[p - 8000] == p;
    }
    Filter(range, p => p !in taken)
  }

  /** `s[-5:]` when the buffer has grown past five characters. */
  function LastFive(s: string): (r: string)
    ensures |r| == if |s| > 5 then 5 else |s|
    ensures s == s[..|s| - |r|] + r
  {
    if |s| > 5 then s[|s| - 5..] else s
  }

  /** `handle_port_selector_input`. `roll` stands for `random.choice`: it
      picks one of the candidates. Keys `1`..`9` are taken by the
      quick-select branch, so the typed-digit branch only ever sees `0`.
      The key dispatch handles Enter (10) as a selection before the port
      selector is consulted, so the Enter branch here is never reached from
      the main loop; it is kept as the routine defines it. */
  function PortSelectorKey(st: PortSelector, key: int, taken: set<int>, roll: nat): (r: PortKeyResult)
    ensures r.closed <==> key == KeyEnter
    ensures key == KeyEnter ==> r.selector == st
    ensures (key == '+' as int || key == '=' as int) ==>
              r.selector == st.(port := if st.port + 1 <= 65535 then st.port + 1 else 65535)
    ensures (key == '-' as int || key == '_' as int) ==>
              r.selector == st.(port := if st.port - 1 >= 1024 then st.port - 1 else 1024)
    ensures '1' as int <= key <= '9' as int ==> r.selector == st.(port := QuickPorts[key - '1' as int])
    ensures key == '0' as int ==>
              var typed := LastFive(st.entry.GetOr("") + "0");
              && r.selector.entry == Some(typed)
              && (ParseInt(typed).Some? && 1024 <= ParseInt(typed).value <= 65535 ==> r.selector.port == ParseInt(typed).value)
              && (!(ParseInt(typed).Some? && 1024 <= ParseInt(typed).value <= 65535) ==> r.selector.port == st.port)
    ensures (key == 'a' as int || key == 'A' as int) ==> r.selector == st.(port := FindAvailablePort(taken))
    ensures (key == 'r' as int || key == 'R' as int) ==>
              && r.selector.entry == st.entry
              && (|RandomCandidates(taken)| > 0 ==> 8000 <= r.selector.port < 9000 && r.selector.port !in taken)
              && (|RandomCandidates(taken)| == 0 ==> r.selector.port == st.port)
    ensures (key == KeyDelete || key == KeyBackspace) ==>
              r.selector == st.(entry := if st.entry.Some? then Some("") else None)
  {
    if key == KeyEnter then PortKeyResult(true, st)
    else if key == '+' as int || key == '=' as int then
      PortKeyResult(false, st.(port := if st.port + 1 <= 65535 then st.port + 1 else 65535))
    else if key == '-' as int || key == '_' as int then
      PortKeyResult(false, st.(port := if st.port - 1 >= 1024 then st.port - 1 else 1024))
    else if '1' as int <= key <= '9' as int then
      var idx := key - '1' as int;
      if idx < |QuickPorts| then PortKeyResult(false, st.(port := QuickPorts[idx]))
      else PortKeyResult(false, st)
    else if '0' as int <= key <= '9' as int then
      var typed := LastFive(st.entry.GetOr("") + [key as char]);
      var port := match ParseInt(typed)
        case Some(p) => if 1024 <= p <= 65535 then p else st.port
        case None => st.port;
      PortKeyResult(false, PortSelector(port, Some(typed)))
    else if key == 'a' as int || key == 'A' as int then
      PortKeyResult(false, st.(port := FindAvailablePort(taken)))
    else if key == 'r' as int || key == 'R' as int then
      var candidates := RandomCandidates(taken);
      if |candidates| > 0 then
        var pick := candidates[roll % |candidates|];
        assert pick in candidates;
        PortKeyResult(false, st.(port := pick))
      else PortKeyResult(false, st)
    else if key == KeyDelete || key == KeyBackspace then
      PortKeyResult(false, st.(entry := if st.entry.Some? then Some("") else None))
    else PortKeyResult(false, st)
  }

  /** A typed-digit buffer holding nothing but zeros, if it exists. */
  predicate ZerosOnly(entry: Option<string>) {
    entry.None? || forall i :: 0 <= i < |entry.value| ==> entry.value[i] == '0'
  }

  lemma {:induction false} ZerosValue(s: string)
    requires forall i :: 0 <= i < |s| ==> s[i] == '0'
    ensures AllDigits(s) && DigitsValue(s) == 0
    decreases |s|
  {
    if |s| > 0 {
      ZerosValue(s[..|s| - 1]);
    }
  }

  /** A buffer of zeros reads as port 0, which the selector refuses. */
  lemma ZerosNeverAPort(s: string)
    requires forall i :: 0 <= i < |s| ==> s[i] == '0'
    ensures ParseInt(s).None? || ParseInt(s) == Some(0)
  {
    ZerosValue(s);
    if |s| > 0 {
      StripNoBorder(s);
    }
  }

  /** No key puts anything but zeros into the typed-digit buffer, and the
      buffer never sets the port. */
  lemma KeyKeepsZeros(st: PortSelector, key: int, taken: set<int>, roll: nat)
    requires ZerosOnly(st.entry)
    ensures ZerosOnly(PortSelectorKey(st, key, taken, roll).selector.entry)
    ensures key == '0' as int ==> PortSelectorKey(st, key, taken, roll).selector.port == st.port
  {
    if key == '0' as int {
      var grown := st.entry.GetOr("") + "0";
      var typed := LastFive(grown);
      assert forall i :: 0 <= i < |grown| ==> grown[i] == '0';
      assert forall i :: 0 <= i < |typed| ==> typed[i] == grown[|grown| - |typed| + i];
      ZerosNeverAPort(typed);
    }
  }

  function PressKeys(st: PortSelector, keys: seq<int>, taken: set<int>, roll: nat): PortSelector
    decreases |keys|
  {
    if |keys| == 0 then st
    else PressKeys(PortSelectorKey(st, keys[0], taken, roll).selector, keys[1..], taken, roll)
  }

  /** From a fresh selector, whatever keys are pressed, the typed-digit
      buffer holds only zeros: the digits `1`..`9` never reach it, and the
      typed-digit branch never chooses the port. */
  lemma {:induction false} DirectEntryUnreachable(st: PortSelector, keys: seq<int>, taken: set<int>, roll: nat)
    requires st.entry.None?
    ensures ZerosOnly(PressKeys(st, keys, taken, roll).entry)
  {
    ZerosStay(st, keys, taken, roll);
  }

  lemma {:induction false} ZerosStay(st: PortSelector, keys: seq<int>, taken: set<int>, roll: nat)
    requires ZerosOnly(st.entry)
    ensures ZerosOnly(PressKeys(st, keys, taken, roll).entry)
    decreases |keys|
  {
    if |keys| > 0 {
      KeyKeepsZeros(st, keys[0], taken, roll);
      ZerosStay(PortSelectorKey(st, keys[0], taken, roll).selector, keys[1..], taken, roll);
    }
  }

  /** No key takes the port below 1024. */
  lemma KeyKeepsFloor(st: PortSelector, key: int, taken: set<int>, roll: nat)
    requires st.port >= 1024
    ensures PortSelectorKey(st, key, taken, roll).selector.port >= 1024
  {
  }

  // ---------------------------------------------------------------------
  // Server control panel

  datatype Tab = Overview | Logs | Agents | Tasks | Context

  const Tabs: seq<Tab> := [Overview, Logs, Agents, Tasks, Context]

  function TabIndex(t: Tab): (i: nat)
    ensures i < |Tabs| && Tabs[i] == t
  {
    match t
    case Overview => 0
    case Logs => 1
    case Agents => 2
    case Tasks => 3
    case Context => 4
  }

  /** `tabs[(tabs.index(tab) + 1) % len(tabs)]`. */
  function NextTab(t: Tab): (r: Tab)
    ensures TabIndex(r) == (TabIndex(t) + 1) % |Tabs|
  {
    Tabs[(TabIndex(t) + 1) % |Tabs|]
  }

  /** The tabs form one cycle: five switches come back, fewer do not. */
  lemma TabCycle(t: Tab)
    ensures NextTab(NextTab(NextTab(NextTab(NextTab(t))))) == t
    ensures NextTab(t) != t && NextTab(NextTab(t)) != t
    ensures NextTab(NextTab(NextTab(t))) != t && NextTab(NextTab(NextTab(NextTab(t)))) != t
  {
  }

  /** A database row, as the column → value dict the panel keeps. */
  type Row = OMap<string, string>

  datatype Panel = Panel(
    port: int,
    tab: Tab,
    agents: seq<Row>,
    tasks: seq<Row>,
    context: seq<Row>,
    selected: int,
    scroll: int,
    dataLoaded: bool,
    loading: bool)

  /** `switch_server_tab`: nothing without a panel; otherwise the next tab,
      whose data must be loaded again, from its first row. */
  function SwitchServerTab(panel: Option<Panel>): (r: Option<Panel>)
    ensures panel.None? <==> r.None?
    ensures panel.Some? ==>
              r.value == panel.value.(tab := NextTab(panel.value.tab), dataLoaded := false, selected := 0, scroll := 0)
  {
    match panel
    case None => None
    case Some(p) =>
      var next := NextTab(p.tab);
      if p.tab != next then Some(p.(tab := next, dataLoaded := false, selected := 0, scroll := 0))
      else Some(p.(tab := next))
  }

  /** What the panel's queries return; `None` is a query that raises.
      The context query catches its own errors and is never `None`. */
  datatype Fetched = Fetched(agents: Option<seq<Row>>, tasks: Option<seq<Row>>, context: seq<Row>)

  predicate NeedsAgents(t: Tab) { t == Agents || t == Overview }
  predicate NeedsTasks(t: Tab) { t == Tasks || t == Overview }
  predicate NeedsContext(t: Tab) { t == Context || t == Overview }

  /** `load_data`: skipped while loaded or loading; otherwise the tab's
      queries run in order, agents then tasks then context, the first that
      raises ending the load without marking it done, and `loading` is
      cleared on every way out. */
  function LoadData(p: Panel, f: Fetched): (r: Panel)
    ensures p.dataLoaded || p.loading ==> r == p
    ensures !(p.dataLoaded || p.loading) ==>
              && !r.loading
              && r == p.(agents := r.agents, tasks := r.tasks, context := r.context, dataLoaded := r.dataLoaded, loading := false)
              && (r.dataLoaded <==> (NeedsAgents(p.tab) ==> f.agents.Some?) && (NeedsTasks(p.tab) ==> f.tasks.Some?))
              && (r.dataLoaded ==>
                    && r.agents == (if NeedsAgents(p.tab) then f.agents.value else p.agents)
                    && r.tasks == (if NeedsTasks(p.tab) then f.tasks.value else p.tasks)
                    && r.context == (if NeedsContext(p.tab) then f.context else p.context))
              && (NeedsAgents(p.tab) && f.agents.None? ==> r.agents == p.agents && r.tasks == p.tasks && r.context == p.context)
  {
    if p.dataLoaded || p.loading then p
    else if NeedsAgents(p.tab) && f.agents.None? then p
    else
      var agents := if NeedsAgents(p.tab) then f.agents.value else p.agents;
      if NeedsTasks(p.tab) && f.tasks.None? then p.(agents := agents)
      else
        var tasks := if NeedsTasks(p.tab) then f.tasks.value else p.tasks;
        var context := if NeedsContext(p.tab) then f.context else p.context;
        p.(agents := agents, tasks := tasks, context := context, dataLoaded := true)
  }

  /** A second load does nothing, whatever the queries would return now. */
  lemma LoadDataOnce(p: Panel, f: Fetched, g: Fetched)
    requires !(p.dataLoaded || p.loading)
    requires (NeedsAgents(p.tab) ==> f.agents.Some?) && (NeedsTasks(p.tab) ==> f.tasks.Some?)
    ensures LoadData(LoadData(p, f), g) == LoadData(p, f)
  {
  }

  // ---------------------------------------------------------------------
  // Selection

  /** The ports the selector lists, of which at most five are shown. */
  const ListedPorts: seq<int> := [8080, 8081, 8082, 3000, 3001, 5000, 5001, 9000]

  /** The rows of the current screen that the selection moves over; `None`
      on the panel's overview and logs tabs, where `move_selection` returns
      at once. */
  function MaxItems(screen: string, servers: OMap<int, ServerManager.Server>, browserItems: nat,
                    panel: Option<Panel>): (r: Option<int>)
    ensures r.None? <==> screen == "server_control" && panel.Some? && panel.value.tab in {Overview, Logs}
    ensures screen == "main_menu" ==> r == Some(8)
    ensures screen == "server_hub" ==> r == Some(|servers|)
    ensures screen == "port_selector" ==> r.Some? && 0 <= r.value <= 5
    ensures screen == "server_control" && panel.None? ==> r == Some(0)
  {
    if screen == "main_menu" then Some(8)
    else if screen == "server_hub" then Some(|servers|)
    else if screen == "launch_wizard" then Some(4)
    else if screen == "project_browser" then Some(browserItems)
    else if screen == "port_selector" then
      var free := Filter(ListedPorts, p => !HasKey(servers, p));
      Some(if |free| <= 5 then |free| else 5)
    else if screen == "database_tools" then Some(5)
    else if screen == "server_control" && panel.Some? then
      match panel.value.tab
      case Agents => Some(|panel.value.agents|)
      case Tasks => Some(|panel.value.tasks|)
      case Context => Some(|panel.value.context|)
      case _ => None
    else Some(0)
  }

  /** `move_selection`: clamped into the screen's rows when it has any,
      otherwise left where it is. */
  function MoveSelection(selected: int, delta: int, maxItems: Option<int>): (r: int)
    ensures maxItems.Some? && maxItems.value > 0 ==> 0 <= r < maxItems.value && r == Clamp(selected, delta, maxItems.value)
    ensures !(maxItems.Some? && maxItems.value > 0) ==> r == selected
  {
    if maxItems.Some? && maxItems.value > 0 then Clamp(selected, delta, maxItems.value) else selected
  }

  // ---------------------------------------------------------------------
  // safe_addstr

  /** What `safe_addstr` writes: nothing outside the screen, and a text too
      long for the rest of the row cut to one short of it. */
  function SafeText(height: int, width: int, y: int, x: int, text: string): (r: Option<string>)
    ensures r.None? <==> y < 0 || y >= height || x < 0 || x >= width
    ensures r.Some? ==> r.value <= text && x + |r.value| <= width
    ensures r.Some? && |text| <= width - x ==> r.value == text
    ensures r.Some? && |text| > width - x ==> |r.value| == width - x - 1
  {
    if y < 0 || y >= height || x < 0 || x >= width then None
    else
      var maxLen := width - x;
      if |text| > maxLen then Some(text[..maxLen - 1]) else Some(text)
  }

  // ---------------------------------------------------------------------
  // Exit

  /** `confirm_exit` as written: `False` when no server runs, otherwise
      whether `y` or `Y` was pressed. */
  predicate ConfirmExit(servers: OMap<int, ServerManager.Server>, key: char) {
    ServerManager.AnyRunning(servers) && (key == 'y' || key == 'Y')
  }

  /** `q` on the home screen as written: `handle_input` returns
      `confirm_exit()`, and the loop stops when it returns `False`. */
  predicate QuitStopsAsWritten(servers: OMap<int, ServerManager.Server>, key: char) {
    !ConfirmExit(servers, key)
  }

  /** With a server running, answering `y` to the exit question keeps the
      interface open and any other key closes it. */
  lemma QuitAnswerInverted(servers: OMap<int, ServerManager.Server>)
    requires ServerManager.AnyRunning(servers)
    ensures !QuitStopsAsWritten(servers, 'y')
    ensures QuitStopsAsWritten(servers, 'n')
  {
  }

  /** `q` on the home screen as the question evidently means it: stop when
      no server runs, or when the user answers `y`. */
  predicate QuitStops(servers: OMap<int, ServerManager.Server>, key: char) {
    !ServerManager.AnyRunning(servers) || key == 'y' || key == 'Y'
  }

  /** The intended rule stops exactly when the server manager's own
      `confirm_quit` agrees, and agrees with the code as written only
      when no server runs. */
  lemma QuitStopsIsConfirmQuit(servers: OMap<int, ServerManager.Server>, key: char)
    ensures QuitStops(servers, key) <==> ServerManager.ConfirmQuit(servers, key)
    ensures !ServerManager.AnyRunning(servers) ==> (QuitStops(servers, key) <==> QuitStopsAsWritten(servers, key))
    ensures ServerManager.AnyRunning(servers) ==> (QuitStops(servers, key) <==> !QuitStopsAsWritten(servers, key))
  {
  }
}
