/** List navigation and port choice shared by the terminal interfaces:
    clamping a moved selection, keeping it in view, and the first free
    port from 8080. */
module Selection {

  /** `max(0, min(selected + delta, count - 1))`. */
  function Clamp(selected: int, delta: int, count: int): (r: int)
    ensures count > 0 ==> 0 <= r < count
    ensures count <= 0 ==> r == 0
    ensures 0 <= selected + delta < count ==> r == selected + delta
    ensures selected + delta < 0 ==> r == 0
    ensures count > 0 && selected + delta >= count ==> r == count - 1
  {
    var m := if selected + delta <= count - 1 then selected + delta else count - 1;
    if m >= 0 then m else 0
  }

  /** The scroll adjustment after a move: a selection above the window
      becomes its top row, one below it its bottom row, and a selection in
      view leaves the window where it is. */
  function FollowScroll(selected: int, scroll: int, visible: int): (r: int)
    ensures visible >= 1 ==> r <= selected < r + visible
    ensures scroll <= selected < scroll + visible ==> r == scroll
    ensures selected < scroll ==> r == selected
    ensures scroll <= selected && selected >= scroll + visible ==> r == selected - visible + 1
  {
    if selected < scroll then selected
    else if selected >= scroll + visible then selected - visible + 1
    else scroll
  }

  /** A window already showing the selection is not moved again. */
  lemma FollowScrollIdempotent(selected: int, scroll: int, visible: int)
    requires visible >= 1
    ensures FollowScroll(selected, FollowScroll(selected, scroll, visible), visible)
            == FollowScroll(selected, scroll, visible)
  {
  }

  const FirstPort := 8080

  lemma TakenAboveShrinks(taken: set<int>, port: int)
    requires port in taken
    ensures (set q | q in taken && q >= port + 1) < (set q | q in taken && q >= port)
  {
    var above, from := set q | q in taken && q >= port + 1, set q | q in taken && q >= port;
    assert above <= from;
    assert port in from && port !in above;
  }

  /** `port += 1` while the port is taken. */
  function FreePortFrom(taken: set<int>, port: int): (r: int)
    ensures r >= port && r !in taken
    ensures forall p :: port <= p < r ==> p in taken
    decreases set q | q in taken && q >= port
  {
    if port in taken then
      TakenAboveShrinks(taken, port);
      FreePortFrom(taken, port + 1)
    else port
  }

  /** `find_available_port`: the least port from 8080 up that no server
      holds. */
  function FindAvailablePort(taken: set<int>): (r: int)
    ensures r >= FirstPort && r !in taken
    ensures forall p :: FirstPort <= p < r ==> p in taken
  {
    FreePortFrom(taken, FirstPort)
  }
}
