/** The server manager's state machine: each server's bounded log and its
    uptime, and the manager's modes, selection, server switching, launch
    guards, port entry and quit handling. Drawing is not modelled. */
module ServerManager {
  import opened Wrappers
  import opened Text
  import opened Seqs
  import opened OrderedMaps
  import opened Sorting
  import opened Selection

  // ---------------------------------------------------------------------
  // ServerProcess

  /** `max_logs`. */
  const MaxLogs := 1000

  datatype LogLine = LogLine(time: int, text: string)

  /** A server as the manager tracks it; whether the process still runs is
      a field here, as `poll()` reports it. */
  datatype Server = Server(projectDir: string, port: int, running: bool, startTime: int,
                           adminToken: Option<string>, logs: seq<LogLine>)

  /** `add_log`: the line goes at the end, and when that makes the log
      longer than `max_logs` the oldest line goes. */
  function AddLog(logs: seq<LogLine>, line: LogLine): (r: seq<LogLine>)
    ensures |r| > 0 && r[|r| - 1] == line
    ensures |logs| < MaxLogs ==> r == logs + [line]
    ensures |logs| >= MaxLogs ==> r == logs[1..] + [line]
    ensures |logs| <= MaxLogs ==> |r| <= MaxLogs
  {
    var grown := logs + [line];
    if |grown| > MaxLogs then grown[1..] else grown
  }

  /** Lines added one after another. */
  function AddLogs(logs: seq<LogLine>, lines: seq<LogLine>): seq<LogLine>
    decreases |lines|
  {
    if |lines| == 0 then logs else AddLogs(AddLog(logs, lines[0]), lines[1..])
  }

  /** However many lines arrive, the log holds the newest `max_logs` of
      everything added, in order. */
  lemma {:induction false} AddLogsKeepsNewest(logs: seq<LogLine>, lines: seq<LogLine>)
    requires |logs| <= MaxLogs
    ensures var all := logs + lines;
            AddLogs(logs, lines) == all[if |all| > MaxLogs then |all| - MaxLogs else 0..]
    decreases |lines|
  {
    var all := logs + lines;
    if |lines| == 0 {
      assert all == logs;
    } else {
      var next := AddLog(logs, lines[0]);
      AddLogsKeepsNewest(next, lines[1..]);
      var all' := next + lines[1..];
      if |logs| < MaxLogs {
        assert next == logs + [lines[0]];
        assert all' == all;
      } else {
        assert next == logs[1..] + [lines[0]];
        assert all' == all[1..];
      }
    }
  }

  // ---------------------------------------------------------------------
  // get_uptime

  /** `f"{n:02d}"`. */
  function Pad2(n: nat): (r: string)
    ensures |r| >= 2 && AllDigits(r)
  {
    if n < 10 then "0" + NatToString(n) else NatToString(n)
  }

  lemma ParsePad2(n: nat)
    ensures ParseInt(Pad2(n)) == Some(n)
  {
    if n < 10 {
      PaddedDigitValue(n);
      ParseDigits(Pad2(n));
    } else {
      ParseIntToString(n);
    }
  }

  lemma PaddedDigitValue(n: nat)
    requires n < 10
    ensures DigitsValue(Pad2(n)) == n
  {
    var s := Pad2(n);
    assert s == ['0', DigitChar(n)];
    assert s[..1] == "0";
    assert DigitsValue("0") == 0;
  }

  lemma Pad2NoColon(n: nat)
    ensures ':' !in Pad2(n)
  {
    assert !IsDigit(':');
  }

  lemma Join3(a: string, b: string, c: string)
    ensures Join([a, b, c], [':']) == a + ":" + b + ":" + c
  {
    assert [a, b, c][1..] == [b, c];
    assert [b, c][1..] == [c];
    assert Join([b, c], [':']) == b + [':'] + c;
    assert Join([a, b, c], [':']) == a + [':'] + (b + [':'] + c);
  }

  /** `divmod(seconds, 3600)` then `divmod(remainder, 60)`, shown as
      `HH:MM:SS`. */
  function Clock(total: nat): string {
    var rem := total % 3600;
    Pad2(total / 3600) + ":" + Pad2(rem / 60) + ":" + Pad2(rem % 60)
  }

  lemma ClockSplit(total: nat)
    ensures var rem := total % 3600;
            Split(Clock(total), ':') == [Pad2(total / 3600), Pad2(rem / 60), Pad2(rem % 60)]
  {
    var rem := total % 3600;
    var h, m, s := Pad2(total / 3600), Pad2(rem / 60), Pad2(rem % 60);
    Pad2NoColon(total / 3600);
    Pad2NoColon(rem / 60);
    Pad2NoColon(rem % 60);
    Join3(h, m, s);
    SplitJoin([h, m, s], ':');
  }

  /** The clock text reads back as hours, minutes and seconds, minutes and
      seconds below 60, that add up to the seconds shown. */
  lemma ClockReadBack(total: nat)
    ensures var parts := Split(Clock(total), ':');
            && |parts| == 3
            && ParseInt(parts[0]).Some? && ParseInt(parts[1]).Some? && ParseInt(parts[2]).Some?
            && var h, m, s := ParseInt(parts[0]).value, ParseInt(parts[1]).value, ParseInt(parts[2]).value;
            && 0 <= m < 60 && 0 <= s < 60 && 0 <= h
            && h * 3600 + m * 60 + s == total
  {
    var rem := total % 3600;
    ClockSplit(total);
    ParsePad2(total / 3600);
    ParsePad2(rem / 60);
    ParsePad2(rem % 60);
    assert total == (total / 3600) * 3600 + rem;
    assert rem == (rem / 60) * 60 + rem % 60;
  }

  /** `get_uptime` as written: `timedelta.seconds` is the seconds part of
      the elapsed time after whole days are taken out, so the clock starts
      again from `00:00:00` every 24 hours. `elapsed` is the whole seconds
      since the start. */
  function UptimeAsWritten(running: bool, elapsed: int): (r: string)
    ensures !running ==> r == "Stopped"
    ensures running ==> r == Clock(elapsed % 86400)
  {
    if running then Clock(elapsed % 86400) else "Stopped"
  }

  /** The uptime as the display evidently means it: all hours since the
      start. */
  function Uptime(running: bool, elapsed: nat): (r: string)
    ensures !running ==> r == "Stopped"
  {
    if running then Clock(elapsed) else "Stopped"
  }

  /** A running server's uptime reads back as its whole running time. */
  lemma UptimeReadBack(elapsed: nat)
    ensures var parts := Split(Uptime(true, elapsed), ':');
            && |parts| == 3
            && ParseInt(parts[0]).Some? && ParseInt(parts[1]).Some? && ParseInt(parts[2]).Some?
            && ParseInt(parts[0]).value * 3600 + ParseInt(parts[1]).value * 60 + ParseInt(parts[2]).value == elapsed
  {
    ClockReadBack(elapsed);
  }

  /** A stopped server shows no clock: "Stopped" has no ':'. */
  lemma UptimeStoppedNoClock(elapsed: nat)
    ensures |Split(Uptime(false, elapsed), ':')| == 1
  {
    assert ':' !in "Stopped";
  }

  /** As written the reading only gives the time since the last whole day:
      a server up 25 hours and one minute shows one hour and a minute. */
  lemma UptimeAsWrittenDropsDays()
    ensures UptimeAsWritten(true, 90060) == "01:01:00"
    ensures Uptime(true, 90060) == "25:01:00"
  {
    assert 90060 % 86400 == 3660;
    assert 3660 / 3600 == 1 && 3660 % 3600 == 60;
    assert 90060 / 3600 == 25 && 90060 % 3600 == 60;
    assert 60 / 60 == 1 && 60 % 60 == 0;
    assert Pad2(1) == "01" && Pad2(0) == "00";
    assert NatToString(25) == NatToString(2) + [DigitChar(5)];
    assert Pad2(25) == "25";
  }

  /** The as-written reading, read back, is short of the running time by
      whole days whenever the server has run a day or more. */
  lemma UptimeAsWrittenReadBack(elapsed: nat)
    ensures var parts := Split(UptimeAsWritten(true, elapsed), ':');
            && |parts| == 3
            && ParseInt(parts[0]).Some? && ParseInt(parts[1]).Some? && ParseInt(parts[2]).Some?
            && ParseInt(parts[0]).value * 3600 + ParseInt(parts[1]).value * 60 + ParseInt(parts[2]).value
               == elapsed - (elapsed / 86400) * 86400
  {
    ClockReadBack(elapsed % 86400);
  }

  // ---------------------------------------------------------------------
  // ServerManager

  datatype Mode = Dashboard | Browser | ServerView | Launch

  datatype LaunchConfig = LaunchConfig(projectDir: Option<string>, port: int, initProject: bool)

  /** An entry of the file browser: its path, whether it is a directory and
      whether it holds an `.agent` directory. */
  datatype Entry = Entry(path: string, isDir: bool, hasAgentDir: bool)

  /** The manager's state. `servers` is the port → server dict in insertion
      order; `browserPath` and `browserItems` are the directory the browser
      shows and its entries. */
  datatype Manager = Manager(
    mode: Mode,
    servers: OMap<int, Server>,
    selected: int,
    scroll: int,
    currentPort: Option<int>,
    browserPath: string,
    browserItems: seq<Entry>,
    launch: LaunchConfig,
    message: string)

  const DefaultPort := 8080

  function Initial(home: string): (m: Manager)
    ensures m.mode == Dashboard && m.servers == [] && m.selected == 0 && m.scroll == 0
    ensures ValidPort(m.launch.port) && m.launch.projectDir.None?
  {
    Manager(Dashboard, [], 0, 0, None, home, [], LaunchConfig(None, DefaultPort, false), "")
  }

  /** The rows above and below the list. */
  const ChromeRows := 10

  /** `move_selection`: only the dashboard and the browser have a list; on
      an empty list nothing moves. The selection moves by `delta`, clamped
      to the list, and the scroll offset follows so the selection stays in
      the `height - 10` visible rows. */
  function MoveSelection(m: Manager, delta: int, height: int): (r: Manager)
    ensures var count := if m.mode == Dashboard then |m.servers| else |m.browserItems|;
            if (m.mode != Dashboard && m.mode != Browser) || count == 0 then r == m
            else
              && r == m.(selected := r.selected, scroll := r.scroll)
              && 0 <= r.selected < count
              && (0 <= m.selected + delta < count ==> r.selected == m.selected + delta)
              && (m.selected + delta < 0 ==> r.selected == 0)
              && (m.selected + delta >= count ==> r.selected == count - 1)
              && (height - ChromeRows >= 1 ==> r.scroll <= r.selected < r.scroll + (height - ChromeRows))
              && (m.scroll <= r.selected < m.scroll + (height - ChromeRows) ==> r.scroll == m.scroll)
  {
    var count := if m.mode == Dashboard then |m.servers| else |m.browserItems|;
    if (m.mode != Dashboard && m.mode != Browser) || count == 0 then m
    else
      var sel := Clamp(m.selected, delta, count);
      m.(selected := sel, scroll := FollowScroll(sel, m.scroll, height - ChromeRows))
  }

  /** `handle_selection` (Enter). On the dashboard it opens the selected
      server's view. In the browser a directory that holds `.agent`, or is
      the directory shown, becomes the launch project; another directory is
      entered, its entries listed by `listing` and the selection reset.
      Anything else does nothing. */
  function HandleSelection(m: Manager, listing: string -> seq<Entry>): (r: Manager)
    ensures m.mode == Dashboard && 0 <= m.selected < |m.servers| ==>
              r == m.(mode := ServerView, currentPort := Some(m.servers[m.selected].0))
    ensures m.mode == Browser && 0 <= m.selected < |m.browserItems| && m.browserItems[m.selected].isDir ==>
              var e := m.browserItems[m.selected];
              if e.hasAgentDir || e.path == m.browserPath then
                r == m.(launch := m.launch.(projectDir := Some(e.path)), mode := Launch)
              else
                r == m.(browserPath := e.path, browserItems := listing(e.path), selected := 0, scroll := 0)
    ensures !(m.mode == Dashboard && 0 <= m.selected < |m.servers|)
            && !(m.mode == Browser && 0 <= m.selected < |m.browserItems| && m.browserItems[m.selected].isDir)
            ==> r == m
  {
    if m.mode == Dashboard && |m.servers| > 0 then
      var ports := Keys(m.servers);
      if 0 <= m.selected < |ports| then m.(mode := ServerView, currentPort := Some(ports[m.selected]))
      else m
    else if m.mode == Browser then
      if 0 <= m.selected < |m.browserItems| then
        var e := m.browserItems[m.selected];
        if e.isDir then
          if e.hasAgentDir || e.path == m.browserPath then
            m.(launch := m.launch.(projectDir := Some(e.path)), mode := Launch)
          else
            m.(browserPath := e.path, browserItems := listing(e.path), selected := 0, scroll := 0)
        else m
      else m
    else m
  }

  function Identity(p: int): int { p }

  /** Ascending order, as `sorted` leaves a list of numbers. */
  ghost predicate Ascending(xs: seq<int>) {
    forall i, j :: 0 <= i < j < |xs| ==> xs[i] <= xs[j]
  }

  lemma ReverseAscends(down: seq<int>)
    requires SortedDesc(down, Identity)
    ensures Ascending(Reverse(down))
  {
    var r := Reverse(down);
    forall i, j | 0 <= i < j < |r| ensures r[i] <= r[j] {
      assert r[i] == down[|down| - 1 - i] && r[j] == down[|down| - 1 - j];
      assert Identity(down[|down| - 1 - j]) >= Identity(down[|down| - 1 - i]);
    }
  }

  /** `sorted(self.servers.keys())`. */
  function AscendingPorts(servers: OMap<int, Server>): (r: seq<int>)
    ensures multiset(r) == multiset(Keys(servers))
    ensures Ascending(r)
  {
    var down := SortDesc(Keys(servers), Identity);
    ReverseAscends(down);
    Reverse(down)
  }

  /** The sorted ports are the dict's ports, each once. */
  lemma AscendingPortsMembers(servers: OMap<int, Server>)
    ensures forall q :: q in AscendingPorts(servers) <==> q in Keys(servers)
    ensures UniqueKeys(servers) ==> Distinct(AscendingPorts(servers))
  {
    var ks, ports := Keys(servers), AscendingPorts(servers);
    forall q ensures q in ports <==> q in ks {
      assert q in ks <==> q in multiset(ks);
      assert q in ports <==> q in multiset(ports);
    }
    if UniqueKeys(servers) {
      assert Distinct(ks) by {
        forall i, j | 0 <= i < j < |ks| ensures ks[i] != ks[j] {
          assert ks[i] == servers[i].0 && ks[j] == servers[j].0;
        }
      }
      DistinctPermutation(ks, ports);
    }
  }

  /** `list.index`: the first position of `x`, `None` for the `ValueError`. */
  function FirstIndex(xs: seq<int>, x: int): (r: Option<nat>)
    ensures r.Some? ==> r.value < |xs| && xs[r.value] == x && forall j :: 0 <= j < r.value ==> xs[j] != x
    ensures r.None? <==> x !in xs
    decreases |xs|
  {
    if |xs| == 0 then None
    else if xs[0] == x then Some(0)
    else
      match FirstIndex(xs[1..], x)
      case None => None
      case Some(i) => Some(i + 1)
  }

  /** `ports[(ports.index(cur) + 1) % len(ports)]`; `None` is the
      `ValueError` of a port not in the list. */
  function NextPort(ports: seq<int>, cur: int): (r: Option<int>)
    ensures r.None? <==> cur !in ports
    ensures r.Some? ==> r.value in ports
  {
    match FirstIndex(ports, cur)
    case None => None
    case Some(i) => Some(ports[(i + 1) % |ports|])
  }

  lemma WrapBelow(k: int, n: int)
    requires 0 <= k < n
    ensures k % n == k && (k + n) % n == k
  {
  }

  /** In an ascending list without repeats, the port after `cur`, wrapping
      around, is the least port above `cur`, or the least of all when
      `cur` is the largest. */
  lemma NextPortIsSuccessor(ports: seq<int>, cur: int)
    requires Ascending(ports) && Distinct(ports) && cur in ports
    ensures NextPort(ports, cur).Some?
    ensures var p := NextPort(ports, cur).value;
            && ((exists q :: q in ports && q > cur) ==> p > cur && forall q :: q in ports && q > cur ==> p <= q)
            && ((forall q :: q in ports ==> q <= cur) ==> forall q :: q in ports ==> p <= q)
  {
    var i := FirstIndex(ports, cur).value;
    var p := ports[(i + 1) % |ports|];
    assert NextPort(ports, cur) == Some(p);
    if i + 1 < |ports| {
      WrapBelow(i + 1, |ports|);
      assert p == ports[i + 1];
      assert ports[i] != ports[i + 1];
      assert ports[i + 1] in ports;
      forall q | q in ports && q > cur ensures p <= q {
        var j :| 0 <= j < |ports| && ports[j] == q;
        assert j > i;
      }
    } else {
      WrapBelow(0, |ports|);
      assert (i + 1) % |ports| == 0;
      assert p == ports[0];
      forall q | q in ports ensures q <= cur && p <= q {
        var j :| 0 <= j < |ports| && ports[j] == q;
      }
    }
  }

  /** `switch_to_next_server` in the server view: with at most one server
      nothing happens; otherwise the view moves to the next port in
      ascending order, wrapping around. `None` is the `ValueError` the
      lookup of a current port that is no server's raises. */
  function SwitchToNextServer(m: Manager): (r: Option<Manager>)
    ensures |m.servers| <= 1 ==> r == Some(m)
    ensures |m.servers| > 1 ==>
              (r.None? <==> m.currentPort.None? || m.currentPort.value !in Keys(m.servers))
    ensures r.Some? ==> r.value == m.(currentPort := r.value.currentPort)
    ensures r.Some? && |m.servers| > 1 ==> r.value.currentPort.Some? && r.value.currentPort.value in Keys(m.servers)
  {
    if |m.servers| <= 1 then Some(m)
    else if m.currentPort.None? then None
    else
      AscendingPortsMembers(m.servers);
      match NextPort(AscendingPorts(m.servers), m.currentPort.value)
      case None => None
      case Some(p) => Some(m.(currentPort := Some(p)))
  }

  /** The port `switch_to_next_server` moves to is the least port above
      the current one, or the least port of all when the current one is
      the largest. */
  lemma SwitchIsSuccessor(m: Manager)
    requires UniqueKeys(m.servers) && |m.servers| > 1
    requires m.currentPort.Some? && m.currentPort.value in Keys(m.servers)
    ensures var r := SwitchToNextServer(m);
            var cur := m.currentPort.value;
            var ks := Keys(m.servers);
            && r.Some? && r.value.currentPort.Some?
            && var p := r.value.currentPort.value;
            && p in ks
            && ((exists q :: q in ks && q > cur) ==> p > cur && forall q :: q in ks && q > cur ==> p <= q)
            && ((forall q :: q in ks ==> q <= cur) ==> forall q :: q in ks ==> p <= q)
  {
    var ports := AscendingPorts(m.servers);
    AscendingPortsMembers(m.servers);
    NextPortIsSuccessor(ports, m.currentPort.value);
  }

  /** A port a manual entry accepts. */
  predicate ValidPort(p: int) {
    1024 <= p <= 65535
  }

  /** `enter_port_selection` after the text is read: a number in
      1024..65535 becomes the launch port; anything else leaves it and
      shows an error. */
  function EnterPort(m: Manager, text: string): (r: Manager)
    ensures r.mode == m.mode && r.servers == m.servers && r.selected == m.selected
    ensures (ParseInt(text).Some? && ValidPort(ParseInt(text).value)) ==> r.launch == m.launch.(port := ParseInt(text).value)
    ensures !(ParseInt(text).Some? && ValidPort(ParseInt(text).value)) ==> r.launch == m.launch && r.message != ""
    ensures ValidPort(m.launch.port) ==> ValidPort(r.launch.port)
  {
    match ParseInt(text)
    case None => m.(message := "Invalid port number")
    case Some(p) =>
      if ValidPort(p) then m.(launch := m.launch.(port := p))
      else m.(message := "Port must be between 1024 and 65535")
  }

  /** What `launch_server` needs from the outside: whether the project
      already has `.agent`, whether initialising it and starting the
      process succeed, and the time. */
  datatype LaunchWorld = LaunchWorld(hasAgentDir: bool, initSucceeds: bool, spawnSucceeds: bool, now: int)

  /** The launch goes through: a project chosen, its port free, the
      project initialised when asked and needed, the process started. */
  predicate Launches(m: Manager, w: LaunchWorld) {
    && m.launch.projectDir.Some?
    && !HasKey(m.servers, m.launch.port)
    && (m.launch.initProject && !w.hasAgentDir ==> w.initSucceeds)
    && w.spawnSucceeds
  }

  /** `launch_server`: refused without a project or on a port in use, and
      when initialising or starting fails; otherwise the new server is
      registered at its port, the dashboard shows, and the new server is
      selected. */
  function LaunchServer(m: Manager, w: LaunchWorld): (r: Manager)
    ensures !Launches(m, w) ==> r.servers == m.servers && r.mode == m.mode && r.selected == m.selected
    ensures Launches(m, w) ==>
              && r.servers == m.servers + [(m.launch.port, NewServer(m.launch.projectDir.value, m.launch.port, w.now))]
              && r.mode == Dashboard
              && r.selected == |r.servers| - 1
              && HasKey(r.servers, m.launch.port)
  {
    if m.launch.projectDir.None? then m.(message := "No project directory selected")
    else if HasKey(m.servers, m.launch.port) then m.(message := "Port is already in use")
    else if m.launch.initProject && !w.hasAgentDir && !w.initSucceeds then m.(message := "Failed to initialize")
    else if !w.spawnSucceeds then m.(message := "Failed to launch")
    else
      var servers := Put(m.servers, m.launch.port, NewServer(m.launch.projectDir.value, m.launch.port, w.now));
      m.(servers := servers, mode := Dashboard, selected := |servers| - 1, message := "Server launched")
  }

  function NewServer(dir: string, port: int, now: int): Server {
    Server(dir, port, true, now, None, [])
  }

  /** A launch never registers a second server on a port. */
  lemma LaunchKeepsPortsUnique(m: Manager, w: LaunchWorld)
    requires UniqueKeys(m.servers)
    ensures UniqueKeys(LaunchServer(m, w).servers)
  {
    if Launches(m, w) {
      PutUnique(m.servers, m.launch.port, NewServer(m.launch.projectDir.value, m.launch.port, w.now));
    }
  }

  /** `any(s.is_running() for s in servers.values())`. */
  predicate AnyRunning(servers: OMap<int, Server>) {
    exists i :: 0 <= i < |servers| && servers[i].1.running
  }

  /** `confirm_quit`: with no server running the answer is yes; otherwise
      the key pressed at the question decides. */
  predicate ConfirmQuit(servers: OMap<int, Server>, key: char) {
    !AnyRunning(servers) || key == 'y' || key == 'Y'
  }

  /** `q` or `Q`: outside the dashboard it goes back there with the
      selection and scroll reset; on the dashboard it ends the loop when
      `confirm_quit` agrees. The first component says whether the manager
      quits. */
  function OnQuitKey(m: Manager, key: char): (r: (bool, Manager))
    ensures m.mode != Dashboard ==> !r.0 && r.1 == m.(mode := Dashboard, selected := 0, scroll := 0)
    ensures m.mode == Dashboard ==> r.1 == m && (r.0 <==> ConfirmQuit(m.servers, key))
    ensures !AnyRunning(m.servers) && m.mode == Dashboard ==> r.0
  {
    if m.mode == Dashboard then (ConfirmQuit(m.servers, key), m)
    else (false, m.(mode := Dashboard, selected := 0, scroll := 0))
  }
}
