/** The state logic of the interactive explorer: its modes, the search
    filter over loaded rows, selection moves, the list window and Enter.
    Drawing and the key loop are not modelled. */
module Explorer {
  import opened Wrappers
  import opened Text
  import opened Seqs
  import opened OrderedMaps
  import opened Selection

  datatype Mode = Main | Agents | Tasks | Context

  /** A field of a database row: `None` in Python, or a string. */
  datatype Field = Null | Str(s: string)

  /** A row as the dict the explorer holds. */
  type Row = OMap<string, Field>

  datatype State = State(
    mode: Mode,
    selection: int,
    scroll: int,
    items: seq<Row>,
    detailView: bool,
    selectedItem: Option<Row>,
    query: string)

  function Initial(): (s: State)
    ensures s.mode == Main && s.items == [] && !s.detailView && s.query == ""
  {
    State(Main, 0, 0, [], false, None, "")
  }

  // ---------------------------------------------------------------------
  // apply_search_filter

  /** `query in field.lower()` for a field read with `row[key]`: a missing
      key raises `KeyError` and a `None` has no `lower`, both `None` here. */
  function IndexedMatch(row: Row, key: string, query: string): (r: Option<bool>)
    ensures r.Some? <==> HasKey(row, key) && Get(row, key).Str?
    ensures r.Some? ==> r.value == Contains(Lower(Get(row, key).s), query)
  {
    if HasKey(row, key) then
      match Get(row, key)
      case Null => None
      case Str(s) => Some(Contains(Lower(s), query))
    else None
  }

  /** The same for `row.get(key, '')`: a missing key reads as the empty
      string, a `None` still raises. */
  function DefaultMatch(row: Row, key: string, query: string): (r: Option<bool>)
    ensures r.None? <==> HasKey(row, key) && Get(row, key).Null?
    ensures !HasKey(row, key) ==> r == Some(Contains("", query))
    ensures HasKey(row, key) && Get(row, key).Str? ==> r == Some(Contains(Lower(Get(row, key).s), query))
  {
    if HasKey(row, key) then
      match Get(row, key)
      case Null => None
      case Str(s) => Some(Contains(Lower(s), query))
    else Some(Contains("", query))
  }

  /** `str(value)`: `None` prints as "None". */
  function FieldText(f: Field): string {
    match f
    case Null => "None"
    case Str(s) => s
  }

  /** `a or b` over results that may raise: `b` is evaluated only when `a`
      is false. */
  function OrElse(a: Option<bool>, b: Option<bool>): (r: Option<bool>)
    ensures a == Some(true) ==> r == Some(true)
    ensures a == Some(false) ==> r == b
    ensures a.None? ==> r.None?
  {
    match a
    case None => None
    case Some(x) => if x then Some(true) else b
  }

  /** Whether a row passes the filter of the mode, `None` when checking it
      raises. */
  function Matches(mode: Mode, row: Row, query: string): Option<bool> {
    match mode
    case Main => Some(true)
    case Agents => IndexedMatch(row, "agent_id", query)
    case Tasks =>
      OrElse(DefaultMatch(row, "title", query),
        OrElse(DefaultMatch(row, "description", query), DefaultMatch(row, "assigned_to", query)))
    case Context =>
      OrElse(IndexedMatch(row, "context_key", query),
        if HasKey(row, "context_value") then Some(Contains(Lower(FieldText(Get(row, "context_value"))), query))
        else None)
  }

  /** No row of the list raises when checked. */
  predicate AllCheckable(mode: Mode, rows: seq<Row>, query: string) {
    forall i :: 0 <= i < |rows| ==> Matches(mode, rows[i], query).Some?
  }

  /** The list comprehension over the rows, `None` when one of them
      raises. */
  function FilterRows(mode: Mode, rows: seq<Row>, query: string): (r: Option<seq<Row>>)
    ensures r.Some? <==> AllCheckable(mode, rows, query)
    ensures r.Some? ==> forall row :: row in r.value <==> row in rows && Matches(mode, row, query) == Some(true)
    ensures r.Some? ==> |r.value| <= |rows|
    decreases |rows|
  {
    if |rows| == 0 then Some([])
    else
      match Matches(mode, rows[0], query)
      case None => None
      case Some(keep) =>
        match FilterRows(mode, rows[1..], query)
        case None =>
          assert !AllCheckable(mode, rows[1..], query);
          var i :| 0 <= i < |rows[1..]| && Matches(mode, rows[1..][i], query).None?;
          assert rows[i + 1] == rows[1..][i];
          None
        case Some(rest) =>
          assert rows == [rows[0]] + rows[1..];
          assert AllCheckable(mode, rows, query) by {
            forall i | 0 <= i < |rows| ensures Matches(mode, rows[i], query).Some? {
              if i > 0 {
                assert rows[i] == rows[1..][i - 1];
              }
            }
          }
          Some(if keep then [rows[0]] + rest else rest)
  }

  /** The kept rows are in their original order: a subsequence of the
      rows. */
  ghost predicate IsSubseq<T>(a: seq<T>, b: seq<T>)
    decreases |b|
  {
    |a| == 0 || (|b| > 0 && ((a[0] == b[0] && IsSubseq(a[1..], b[1..])) || IsSubseq(a, b[1..])))
  }

  lemma {:induction false} FilterRowsInOrder(mode: Mode, rows: seq<Row>, query: string)
    requires FilterRows(mode, rows, query).Some?
    ensures IsSubseq(FilterRows(mode, rows, query).value, rows)
    decreases |rows|
  {
    if |rows| > 0 {
      FilterRowsInOrder(mode, rows[1..], query);
      var rest := FilterRows(mode, rows[1..], query).value;
      var r := FilterRows(mode, rows, query).value;
      if Matches(mode, rows[0], query) == Some(true) {
        assert r == [rows[0]] + rest;
        assert r[1..] == rest;
      } else {
        assert r == rest;
      }
    }
  }

  /** `apply_search_filter`: with an empty query the rows stay; otherwise
      the rows whose mode fields contain the lower-cased query, `None`
      when a field raises. In the main mode nothing is filtered. */
  function ApplySearchFilter(mode: Mode, items: seq<Row>, query: string): (r: Option<seq<Row>>)
    ensures query == "" ==> r == Some(items)
    ensures mode == Main ==> r == Some(items)
    ensures query != "" && mode != Main ==> r == FilterRows(mode, items, Lower(query))
  {
    if query == "" || mode == Main then Some(items) else FilterRows(mode, items, Lower(query))
  }

  /** A task whose `assigned_to` is `None` makes the filter raise unless
      its title or description already matched. */
  lemma NullAssigneeRaises(row: Row, query: string)
    requires HasKey(row, "title") && Get(row, "title") == Str("")
    requires HasKey(row, "description") && Get(row, "description") == Str("")
    requires HasKey(row, "assigned_to") && Get(row, "assigned_to") == Null
    requires query != ""
    ensures ApplySearchFilter(Tasks, [row], query).None?
  {
    var q := Lower(query);
    assert |q| == |query|;
    LongerNotContained("", q);
    assert !Matches(Tasks, row, q).Some?;
  }

  /** Filtering a filtered list again with the same query changes
      nothing. */
  lemma {:induction false} FilterAgain(mode: Mode, rows: seq<Row>, query: string)
    requires FilterRows(mode, rows, query).Some?
    ensures FilterRows(mode, FilterRows(mode, rows, query).value, query) == FilterRows(mode, rows, query)
    decreases |rows|
  {
    if |rows| > 0 {
      FilterAgain(mode, rows[1..], query);
      var rest := FilterRows(mode, rows[1..], query).value;
      if Matches(mode, rows[0], query) == Some(true) {
        var r := [rows[0]] + rest;
        assert r[1..] == rest;
        assert r[0] == rows[0];
      }
    }
  }

  // ---------------------------------------------------------------------
  // load_items

  /** What the three queries return; `None` is a query that raises. */
  datatype Queries = Queries(agents: Option<seq<Row>>, tasks: Option<seq<Row>>, context: Option<seq<Row>>)

  /** `load_items`: the mode's query, then the search filter; anything
      raising leaves an empty list. In the main mode the list is kept and
      only filtered. */
  function LoadItems(s: State, q: Queries): (r: State)
    ensures r == s.(items := r.items)
    ensures s.mode == Main ==> r.items == s.items
    ensures s.mode != Main ==>
              var fetched := match s.mode case Agents => q.agents case Tasks => q.tasks case _ => q.context;
              && (fetched.None? ==> r.items == [])
              && (fetched.Some? ==> r.items == ApplySearchFilter(s.mode, fetched.value, s.query).GetOr([]))
  {
    var fetched := match s.mode
      case Main => Some(s.items)
      case Agents => q.agents
      case Tasks => q.tasks
      case Context => q.context;
    match fetched
    case None => s.(items := [])
    case Some(rows) =>
      match ApplySearchFilter(s.mode, rows, s.query)
      case None => s.(items := [])
      case Some(kept) => s.(items := kept)
  }

  // ---------------------------------------------------------------------
  // Navigation

  /** Rows the selection moves over: the four menu entries in the main
      mode, the loaded rows otherwise. */
  function MaxItems(s: State): nat {
    if s.mode == Main then 4 else |s.items|
  }

  /** `move_selection`: no check for an empty list, so with no rows the
      selection goes to 0. */
  function MoveSelection(s: State, delta: int): (r: State)
    ensures r == s.(selection := r.selection)
    ensures MaxItems(s) > 0 ==> 0 <= r.selection < MaxItems(s)
    ensures MaxItems(s) == 0 ==> r.selection == 0
    ensures 0 <= s.selection + delta < MaxItems(s) ==> r.selection == s.selection + delta
  {
    s.(selection := Clamp(s.selection, delta, MaxItems(s)))
  }

  /** The list view's window: `min(height - 1, len(items))` rows, moved so
      the selection is one of them. */
  function ListScroll(s: State, height: int): (r: State)
    ensures r == s.(scroll := r.scroll)
    ensures var visible := if height - 1 <= |s.items| then height - 1 else |s.items|;
            visible >= 1 ==> r.scroll <= s.selection < r.scroll + visible
    ensures var visible := if height - 1 <= |s.items| then height - 1 else |s.items|;
            s.scroll <= s.selection < s.scroll + visible ==> r.scroll == s.scroll
  {
    var visible := if height - 1 <= |s.items| then height - 1 else |s.items|;
    s.(scroll := FollowScroll(s.selection, s.scroll, visible))
  }

  /** What Enter leads to: the next state, or the program's exit. */
  datatype Step = Continue(state: State) | Exit

  /** `handle_selection`: in the main mode entries 0, 1 and 2 open the
      agents, tasks and context lists from the top and load them, and
      entry 3 exits; in a list the detail view opens for a selection in
      range. */
  function HandleSelection(s: State, q: Queries): (r: Step)
    ensures r.Exit? <==> s.mode == Main && s.selection == 3
    ensures s.mode == Main && 0 <= s.selection <= 2 ==>
              var mode := if s.selection == 0 then Agents else if s.selection == 1 then Tasks else Context;
              r == Continue(LoadItems(s.(mode := mode, selection := 0, scroll := 0), q))
    ensures s.mode == Main && !(0 <= s.selection <= 3) ==> r == Continue(s)
    ensures s.mode != Main && 0 <= s.selection < |s.items| ==>
              r == Continue(s.(selectedItem := Some(s.items[s.selection]), detailView := true))
    ensures s.mode != Main && !(0 <= s.selection < |s.items|) ==> r == Continue(s)
  {
    if s.mode == Main then
      if s.selection == 0 then Continue(LoadItems(s.(mode := Agents, selection := 0, scroll := 0), q))
      else if s.selection == 1 then Continue(LoadItems(s.(mode := Tasks, selection := 0, scroll := 0), q))
      else if s.selection == 2 then Continue(LoadItems(s.(mode := Context, selection := 0, scroll := 0), q))
      else if s.selection == 3 then Exit
      else Continue(s)
    else if |s.items| > 0 && 0 <= s.selection < |s.items| then
      Continue(s.(selectedItem := Some(s.items[s.selection]), detailView := true))
    else Continue(s)
  }

  /** Opening a list from the menu puts the selection on its first row
      with the window at the top. An empty list has a window of no rows,
      and the adjustment then moves the offset to 1. */
  lemma OpenListStartsAtTop(s: State, q: Queries, height: int)
    requires s.mode == Main && 0 <= s.selection <= 2
    ensures var r := HandleSelection(s, q);
            && r.Continue? && r.state.mode != Main
            && r.state.selection == 0 && r.state.scroll == 0
            && (|r.state.items| > 0 && height >= 2 ==> ListScroll(r.state, height).scroll == 0)
            && (|r.state.items| == 0 && height >= 1 ==> ListScroll(r.state, height).scroll == 1)
  {
  }
}
