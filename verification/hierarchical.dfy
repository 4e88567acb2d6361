/** `hierarchical_migration.py`: every parentless task becomes the root of
    a tree that moves, whole, under the foundation phase. Only the roots
    are reparented; the subtasks keep their parents and get a note. */
module Hierarchical {
  import opened Wrappers
  import opened Text
  import opened Tasks
  import opened OrderedMaps

  const Migrator := "hierarchical_migration"

  // ---------------------------------------------------------------------
  // The loaded hierarchy

  /** `tasks_map`: one entry per id, in order of first appearance, holding
      the last row with that id. */
  function TasksMap(rows: seq<Task>): (m: OMap<string, Task>)
    ensures UniqueKeys(m) && Keyed(m)
    ensures forall k :: HasKey(m, k) <==> k in IdSet(rows)
    decreases |rows|
  {
    if |rows| == 0 then []
    else
      var prefix := rows[..|rows| - 1];
      var t := rows[|rows| - 1];
      assert rows == prefix + [t];
      var m0 := TasksMap(prefix);
      PutUnique(m0, t.id, t);
      var m := Put(m0, t.id, t);
      forall k ensures HasKey(m, k) <==> k in IdSet(rows) {
        if k != t.id { GetPutOther(m0, t.id, t, k); }
      }
      m
  }

  /** Every entry is stored under its own id. */
  ghost predicate Keyed(m: OMap<string, Task>) {
    forall j :: 0 <= j < |m| ==> m[j].1.id == m[j].0
  }

  /** With unique keys, a stored task is what its id looks up. */
  lemma LookupValue(m: OMap<string, Task>, t: Task)
    requires UniqueKeys(m) && Keyed(m) && t in Values(m)
    ensures HasKey(m, t.id) && Get(m, t.id) == t
  {
    var j :| 0 <= j < |m| && Values(m)[j] == t;
    GetUnique(m, j);
  }

  /** With distinct ids, every row is the value its id looks up. */
  lemma {:induction false} TasksMapHolds(rows: seq<Task>, t: Task)
    requires DistinctIds(rows) && t in rows
    ensures HasKey(TasksMap(rows), t.id) && Get(TasksMap(rows), t.id) == t
    decreases |rows|
  {
    var prefix := rows[..|rows| - 1];
    var last := rows[|rows| - 1];
    assert rows == prefix + [last];
    if t != last {
      assert t in prefix;
      assert DistinctIds(prefix) by {
        forall i, j | 0 <= i < j < |prefix| ensures prefix[i].id != prefix[j].id {
          assert prefix[i] == rows[i] && prefix[j] == rows[j];
        }
      }
      TasksMapHolds(prefix, t);
      var i :| 0 <= i < |prefix| && prefix[i] == t;
      assert rows[i] == t && t.id != last.id;
      GetPutOther(TasksMap(prefix), last.id, last, t.id);
    }
  }

  /** The ids of the rows whose parent is `None`, in load order. */
  function RootIds(rows: seq<Task>): (ids: seq<string>)
    ensures |ids| <= |rows|
    ensures forall x :: x in ids <==> exists i :: 0 <= i < |rows| && rows[i].id == x && rows[i].parent.None?
    decreases |rows|
  {
    if |rows| == 0 then []
    else
      var rest := RootIds(rows[1..]);
      assert forall i :: 1 <= i < |rows| ==> rows[i] == rows[1..][i - 1];
      assert forall i :: 0 <= i < |rows[1..]| ==> rows[1..][i] == rows[i + 1];
      (if rows[0].parent.None? then [rows[0].id] else []) + rest
  }

  function ChildCount(rows: seq<Task>): (n: nat)
    decreases |rows|
  {
    if |rows| == 0 then 0 else (if rows[0].parent.Some? then 1 else 0) + ChildCount(rows[1..])
  }

  /** The roots and the rows with a parent split the table. */
  lemma {:induction false} RootsAndChildren(rows: seq<Task>)
    ensures |RootIds(rows)| + ChildCount(rows) == |rows|
    decreases |rows|
  {
    if |rows| > 0 {
      RootsAndChildren(rows[1..]);
    }
  }

  /** With distinct ids there is one entry per row, so `subtasks_count`
      counts exactly the rows that have a parent. */
  lemma {:induction false} TasksMapSize(rows: seq<Task>)
    requires DistinctIds(rows)
    ensures |TasksMap(rows)| == |rows|
    ensures |TasksMap(rows)| - |RootIds(rows)| == ChildCount(rows)
    decreases |rows|
  {
    RootsAndChildren(rows);
    if |rows| > 0 {
      var prefix := rows[..|rows| - 1];
      var t := rows[|rows| - 1];
      assert DistinctIds(prefix) by {
        forall i, j | 0 <= i < j < |prefix| ensures prefix[i].id != prefix[j].id {
          assert prefix[i] == rows[i] && prefix[j] == rows[j];
        }
      }
      TasksMapSize(prefix);
      assert !HasKey(TasksMap(prefix), t.id);
    }
  }

  // ---------------------------------------------------------------------
  // Descendants

  function KeySet(m: OMap<string, Task>): set<string> {
    set k | k in Keys(m)
  }

  function PathSet(path: seq<string>): set<string> {
    set x | x in path
  }

  /** A stored task's id is a key. */
  lemma ValueKey(m: OMap<string, Task>, c: Task)
    requires Keyed(m) && c in Values(m)
    ensures c.id in KeySet(m)
  {
    var j :| 0 <= j < |Values(m)| && Values(m)[j] == c;
    assert Keys(m)[j] == c.id;
  }

  /** The direct children, in map order. */
  function Children(m: OMap<string, Task>, pid: string): (cs: seq<Task>)
    ensures forall t :: t in cs <==> t in Values(m) && t.parent == Some(pid)
    decreases |m|
  {
    if |m| == 0 then []
    else
      assert Values(m) == [m[0].1] + Values(m[1..]);
      (if m[0].1.parent == Some(pid) then [m[0].1] else []) + Children(m[1..], pid)
  }

  /** `get_all_descendants` for each child in turn: the child, then its own
      descendants. `path` holds the ids the recursion is inside; meeting
      one of them again means the recursion never ends, which the source
      reports as a `RecursionError` and here is `None`. */
  function DescList(m: OMap<string, Task>, cs: seq<Task>, path: seq<string>): (r: Option<seq<Task>>)
    requires Keyed(m)
    requires forall c :: c in cs ==> c in Values(m)
    decreases KeySet(m) - PathSet(path), |cs|
  {
    if |cs| == 0 then Some([])
    else
      var c := cs[0];
      if c.id in path then None
      else
        assert cs[0] in cs;
        ValueKey(m, c);
        assert PathSet(path + [c.id]) == PathSet(path) + {c.id};
        match DescList(m, Children(m, c.id), path + [c.id])
        case None => None
        case Some(sub) =>
          match DescList(m, cs[1..], path)
          case None => None
          case Some(rest) => Some([c] + sub + rest)
  }

  /** `get_all_descendants(pid)`. */
  function Descendants(m: OMap<string, Task>, pid: string): Option<seq<Task>>
    requires Keyed(m)
  {
    DescList(m, Children(m, pid), [pid])
  }

  /** Every listed task is a stored task. */
  lemma {:induction false} DescListValues(m: OMap<string, Task>, cs: seq<Task>, path: seq<string>)
    requires Keyed(m) && forall c :: c in cs ==> c in Values(m)
    requires DescList(m, cs, path).Some?
    ensures forall t :: t in DescList(m, cs, path).value ==> t in Values(m)
    decreases KeySet(m) - PathSet(path), |cs|
  {
    if |cs| > 0 {
      var c := cs[0];
      assert cs[0] in cs;
      ValueKey(m, c);
      assert PathSet(path + [c.id]) == PathSet(path) + {c.id};
      DescListValues(m, Children(m, c.id), path + [c.id]);
      DescListValues(m, cs[1..], path);
    }
  }

  /** Every listed task is one of the given children or a child of a task
      listed before it. */
  ghost predicate Preorder(cs: seq<Task>, r: seq<Task>) {
    forall i :: 0 <= i < |r| ==> r[i] in cs || exists j :: 0 <= j < i && r[i].parent == Some(r[j].id)
  }

  lemma PreorderJoin(cs: seq<Task>, kids: seq<Task>, sub: seq<Task>, rest: seq<Task>)
    requires |cs| > 0 && forall t :: t in kids ==> t.parent == Some(cs[0].id)
    requires Preorder(kids, sub) && Preorder(cs[1..], rest)
    ensures Preorder(cs, [cs[0]] + sub + rest)
  {
    var r := [cs[0]] + sub + rest;
    forall i | 0 <= i < |r| ensures r[i] in cs || exists j :: 0 <= j < i && r[i].parent == Some(r[j].id) {
      if i == 0 {
        assert r[0] == cs[0];
      } else if i <= |sub| {
        assert r[i] == sub[i - 1];
        if sub[i - 1] in kids {
          assert r[i].parent == Some(r[0].id);
        } else {
          var j :| 0 <= j < i - 1 && sub[i - 1].parent == Some(sub[j].id);
          assert r[j + 1] == sub[j];
        }
      } else {
        var k := i - 1 - |sub|;
        assert r[i] == rest[k];
        if rest[k] in cs[1..] {
          assert rest[k] in cs;
        } else {
          var j :| 0 <= j < k && rest[k].parent == Some(rest[j].id);
          assert r[j + 1 + |sub|] == rest[j];
        }
      }
    }
  }

  /** Pre-order: each child comes before its own descendants. */
  lemma {:induction false} DescListPreorder(m: OMap<string, Task>, cs: seq<Task>, path: seq<string>)
    requires Keyed(m) && forall c :: c in cs ==> c in Values(m)
    requires DescList(m, cs, path).Some?
    ensures Preorder(cs, DescList(m, cs, path).value)
    decreases KeySet(m) - PathSet(path), |cs|
  {
    if |cs| > 0 {
      var c := cs[0];
      assert cs[0] in cs;
      ValueKey(m, c);
      assert PathSet(path + [c.id]) == PathSet(path) + {c.id};
      DescListPreorder(m, Children(m, c.id), path + [c.id]);
      DescListPreorder(m, cs[1..], path);
      PreorderJoin(cs, Children(m, c.id), DescList(m, Children(m, c.id), path + [c.id]).value,
                   DescList(m, cs[1..], path).value);
    }
  }

  /** The list is closed under taking children: each given child is there,
      and so is every child of a listed task. */
  ghost predicate Closed(m: OMap<string, Task>, cs: seq<Task>, r: seq<Task>) {
    (forall c :: c in cs ==> c in r)
    && forall i, t :: 0 <= i < |r| && t in Children(m, r[i].id) ==> t in r
  }

  lemma ClosedJoin(m: OMap<string, Task>, cs: seq<Task>, sub: seq<Task>, rest: seq<Task>)
    requires |cs| > 0
    requires Closed(m, Children(m, cs[0].id), sub) && Closed(m, cs[1..], rest)
    ensures Closed(m, cs, [cs[0]] + sub + rest)
  {
    var r := [cs[0]] + sub + rest;
    forall x | x in cs ensures x in r {
      if x != cs[0] {
        assert x in cs[1..];
      }
    }
    forall i, t | 0 <= i < |r| && t in Children(m, r[i].id) ensures t in r {
      if i == 0 {
        assert t in sub;
      } else if i <= |sub| {
        assert r[i] == sub[i - 1];
      } else {
        assert r[i] == rest[i - 1 - |sub|];
      }
    }
  }

  lemma {:induction false} DescListClosed(m: OMap<string, Task>, cs: seq<Task>, path: seq<string>)
    requires Keyed(m) && forall c :: c in cs ==> c in Values(m)
    requires DescList(m, cs, path).Some?
    ensures Closed(m, cs, DescList(m, cs, path).value)
    decreases KeySet(m) - PathSet(path), |cs|
  {
    if |cs| > 0 {
      var c := cs[0];
      assert cs[0] in cs;
      ValueKey(m, c);
      assert PathSet(path + [c.id]) == PathSet(path) + {c.id};
      DescListClosed(m, Children(m, c.id), path + [c.id]);
      DescListClosed(m, cs[1..], path);
      ClosedJoin(m, cs, DescList(m, Children(m, c.id), path + [c.id]).value, DescList(m, cs[1..], path).value);
    }
  }

  /** The ids the recursion is inside run down from a parentless task. */
  ghost predicate Chain(m: OMap<string, Task>, path: seq<string>) {
    |path| > 0
    && (forall i :: 0 <= i < |path| ==> HasKey(m, path[i]))
    && Get(m, path[0]).parent.None?
    && forall i :: 0 < i < |path| ==> Get(m, path[i]).parent == Some(path[i - 1])
  }

  lemma {:induction false} ChainNoRepeat(m: OMap<string, Task>, path: seq<string>, i: nat, j: nat)
    requires Chain(m, path) && i < j < |path|
    ensures path[i] != path[j]
    decreases i
  {
    assert Get(m, path[j]).parent == Some(path[j - 1]);
    if i > 0 {
      assert Get(m, path[i]).parent == Some(path[i - 1]);
      ChainNoRepeat(m, path, i - 1, j - 1);
    }
  }

  /** A child of the innermost id is never one of the ids the recursion is
      inside: a parent chain that ends at a parentless task has no cycle. */
  lemma ChainFresh(m: OMap<string, Task>, path: seq<string>, c: Task)
    requires UniqueKeys(m) && Keyed(m) && Chain(m, path)
    requires c in Values(m) && c.parent == Some(path[|path| - 1])
    ensures c.id !in path
  {
    LookupValue(m, c);
    if c.id in path {
      var k :| 0 <= k < |path| && path[k] == c.id;
      if k > 0 {
        assert Get(m, path[k]).parent == Some(path[k - 1]);
        ChainNoRepeat(m, path, k - 1, |path| - 1);
      }
    }
  }

  lemma ChainExtend(m: OMap<string, Task>, path: seq<string>, c: Task)
    requires UniqueKeys(m) && Keyed(m) && Chain(m, path)
    requires c in Values(m) && c.parent == Some(path[|path| - 1])
    ensures Chain(m, path + [c.id])
  {
    LookupValue(m, c);
    var p := path + [c.id];
    assert forall i :: 0 <= i < |path| ==> p[i] == path[i];
    assert Get(m, p[|path|]) == c;
  }

  /** From a parentless task the recursion always ends. */
  lemma {:induction false} ChainFinishes(m: OMap<string, Task>, cs: seq<Task>, path: seq<string>)
    requires UniqueKeys(m) && Keyed(m) && Chain(m, path)
    requires forall c :: c in cs ==> c in Values(m) && c.parent == Some(path[|path| - 1])
    ensures DescList(m, cs, path).Some?
    decreases KeySet(m) - PathSet(path), |cs|
  {
    if |cs| > 0 {
      var c := cs[0];
      assert cs[0] in cs;
      ChainFresh(m, path, c);
      ChainExtend(m, path, c);
      ValueKey(m, c);
      assert PathSet(path + [c.id]) == PathSet(path) + {c.id};
      ChainFinishes(m, Children(m, c.id), path + [c.id]);
      ChainFinishes(m, cs[1..], path);
    }
  }

  /** For a stored parentless task, the descendants are found; they are
      stored tasks, each a child of the root or of a task listed earlier,
      and every child of the root or of a listed task is listed. */
  lemma DescendantsOfRoot(m: OMap<string, Task>, rootId: string)
    requires UniqueKeys(m) && Keyed(m) && HasKey(m, rootId) && Get(m, rootId).parent.None?
    ensures Descendants(m, rootId).Some?
    ensures var r := Descendants(m, rootId).value;
            (forall t :: t in r ==> t in Values(m))
            && (forall i :: 0 <= i < |r| ==>
                  r[i].parent == Some(rootId) || exists j :: 0 <= j < i && r[i].parent == Some(r[j].id))
            && Closed(m, Children(m, rootId), r)
  {
    ChainFinishes(m, Children(m, rootId), [rootId]);
    DescListValues(m, Children(m, rootId), [rootId]);
    DescListPreorder(m, Children(m, rootId), [rootId]);
    DescListClosed(m, Children(m, rootId), [rootId]);
  }

  /** A task that is its own parent sends the recursion round for ever. */
  lemma SelfParentLoops(m: OMap<string, Task>, t: Task)
    requires UniqueKeys(m) && Keyed(m) && t in Values(m) && t.parent == Some(t.id)
    ensures Descendants(m, t.id).None?
  {
    var cs := Children(m, t.id);
    assert t in cs;
    if cs[0] != t {
      var i :| 0 <= i < |cs| && cs[i] == t;
      LookupValue(m, t);
      LookupValue(m, cs[0]);
      if cs[0].id == t.id {
      } else {
        SelfParentLoopsLater(m, cs, [t.id], i);
      }
    }
  }

  lemma {:induction false} SelfParentLoopsLater(m: OMap<string, Task>, cs: seq<Task>, path: seq<string>, i: nat)
    requires Keyed(m) && forall c :: c in cs ==> c in Values(m)
    requires i < |cs| && cs[i].id in path && cs[i].parent == Some(cs[i].id)
    ensures DescList(m, cs, path).None?
    decreases KeySet(m) - PathSet(path), |cs|
  {
    var c := cs[0];
    if c.id !in path {
      assert cs[0] in cs;
      ValueKey(m, c);
      assert PathSet(path + [c.id]) == PathSet(path) + {c.id};
      if DescList(m, Children(m, c.id), path + [c.id]).Some? {
        assert cs[1..][i - 1] == cs[i];
        SelfParentLoopsLater(m, cs[1..], path, i - 1);
      }
    }
  }

  // ---------------------------------------------------------------------
  // Trees

  /** `status_distribution`: how many tasks have each status, keyed in
      order of first appearance. */
  function StatusDistribution(ts: seq<Task>): (d: OMap<string, nat>)
    ensures UniqueKeys(d)
    ensures Total(d) == |ts|
    ensures Distributes(d, ts)
    decreases |ts|
  {
    if |ts| == 0 then []
    else
      var d0 := StatusDistribution(ts[..|ts| - 1]);
      var k := ts[|ts| - 1].status;
      var d := Put(d0, k, GetOr(d0, k, 0) + 1);
      DistributionStep(ts, d0, k, d);
      d
  }

  /** Every status maps to the number of tasks that carry it. */
  ghost predicate Distributes(d: OMap<string, nat>, ts: seq<Task>) {
    forall s :: GetOr(d, s, 0) == CountStatus(ts, s)
  }

  lemma DistributionStep(ts: seq<Task>, d0: OMap<string, nat>, k: string, d: OMap<string, nat>)
    requires |ts| > 0 && UniqueKeys(d0) && Total(d0) == |ts| - 1
    requires Distributes(d0, ts[..|ts| - 1])
    requires k == ts[|ts| - 1].status && d == Put(d0, k, GetOr(d0, k, 0) + 1)
    ensures UniqueKeys(d) && Total(d) == |ts|
    ensures Distributes(d, ts)
  {
    TotalIncrement(d0, k);
    PutUnique(d0, k, GetOr(d0, k, 0) + 1);
    DistributionSnoc(ts[..|ts| - 1], ts[|ts| - 1], d0, d, ts);
  }

  lemma DistributionSnoc(prefix: seq<Task>, t: Task, d0: OMap<string, nat>, d: OMap<string, nat>, ts: seq<Task>)
    requires |ts| > 0 && prefix == ts[..|ts| - 1] && t == ts[|ts| - 1]
    requires Distributes(d0, prefix)
    requires d == Put(d0, t.status, GetOr(d0, t.status, 0) + 1)
    ensures Distributes(d, ts)
  {
    assert ts == prefix + [t];
    forall s ensures GetOr(d, s, 0) == CountStatus(ts, s) {
      DistributionCount(prefix, t, d0, d, ts, s);
    }
  }

  lemma DistributionCount(prefix: seq<Task>, t: Task, d0: OMap<string, nat>, d: OMap<string, nat>, ts: seq<Task>, s: string)
    requires GetOr(d0, s, 0) == CountStatus(prefix, s)
    requires d == Put(d0, t.status, GetOr(d0, t.status, 0) + 1) && ts == prefix + [t]
    ensures GetOr(d, s, 0) == CountStatus(ts, s)
  {
    CountStatusSnoc(prefix, t, s);
    if s != t.status {
      GetPutOther(d0, t.status, GetOr(d0, t.status, 0) + 1, s);
    }
  }

  datatype Tree = Tree(root: Task, all: seq<Task>, total: nat, statuses: OMap<string, nat>)

  /** `build_task_tree`'s `{}` for an unknown root, the recursion error, or
      the tree. */
  datatype TreeResult = UnknownRoot | Recursion | Built(tree: Tree)

  /** `build_task_tree`: the root followed by its descendants, their number
      and their statuses. */
  function BuildTree(m: OMap<string, Task>, rootId: string): (r: TreeResult)
    requires Keyed(m)
    ensures r.UnknownRoot? <==> !HasKey(m, rootId)
    ensures r.Recursion? <==> HasKey(m, rootId) && Descendants(m, rootId).None?
    ensures r.Built? ==>
              r.tree.root == Get(m, rootId) && r.tree.all == [r.tree.root] + Descendants(m, rootId).value
              && r.tree.total == |r.tree.all| && r.tree.statuses == StatusDistribution(r.tree.all)
  {
    if !HasKey(m, rootId) then UnknownRoot
    else
      match Descendants(m, rootId)
      case None => Recursion
      case Some(children) =>
        var root := Get(m, rootId);
        var all := [root] + children;
        Built(Tree(root, all, 1 + |children|, StatusDistribution(all)))
  }

  lemma PutKeepsKeys<V>(m: OMap<string, V>, k: string, v: V)
    ensures forall x :: HasKey(m, x) ==> HasKey(Put(m, k, v), x)
  {
    forall x | HasKey(m, x) ensures HasKey(Put(m, k, v), x) {
      if x != k { GetPutOther(m, k, v, x); }
    }
  }

  /** A built tree's counts: `total_count` is one more than the number of
      descendants, and `status_distribution` counts every member once, by
      its status. */
  lemma TreeCounts(m: OMap<string, Task>, rootId: string)
    requires Keyed(m) && BuildTree(m, rootId).Built?
    ensures var t := BuildTree(m, rootId).tree;
            t.total == 1 + |Descendants(m, rootId).value| && Total(t.statuses) == t.total
            && forall s :: GetOr(t.statuses, s, 0) == CountStatus(t.all, s)
  {
  }

  datatype PlanEntry = PlanEntry(rootId: string, title: string, size: nat, statuses: OMap<string, nat>)

  datatype Analysis = Analysis(
    total: nat, rootsCount: nat, subtasks: int, trees: OMap<string, Tree>, plan: seq<PlanEntry>)

  /** `build_task_tree` for each root. */
  function TreesOf(m: OMap<string, Task>, roots: seq<string>): (ts: seq<TreeResult>)
    requires Keyed(m)
    ensures |ts| == |roots|
    ensures forall i :: 0 <= i < |roots| ==> ts[i] == BuildTree(m, roots[i])
  {
    seq(|roots|, i requires 0 <= i < |roots| => BuildTree(m, roots[i]))
  }

  /** The loop of `analyze_complete_hierarchy` over the roots and their
      built trees: a failed tree aborts it. */
  function PlanTrees(roots: seq<string>, ts: seq<TreeResult>): (r: Option<(OMap<string, Tree>, seq<PlanEntry>)>)
    requires |ts| == |roots|
    ensures r.Some? <==> forall i :: 0 <= i < |ts| ==> ts[i].Built?
    ensures r.Some? ==> |r.value.1| == |roots|
    ensures r.Some? ==> forall i :: 0 <= i < |roots| ==> r.value.1[i].rootId == roots[i]
    ensures r.Some? ==> forall i :: 0 <= i < |roots| ==> HasKey(r.value.0, roots[i])
    decreases |roots|
  {
    if |roots| == 0 then Some(([], []))
    else
      var prefix := roots[..|roots| - 1];
      var x := roots[|roots| - 1];
      assert forall i :: 0 <= i < |prefix| ==> prefix[i] == roots[i];
      assert forall i :: 0 <= i < |prefix| ==> ts[..|prefix|][i] == ts[i];
      var p := PlanTrees(prefix, ts[..|prefix|]);
      var b := ts[|prefix|];
      if p.None? || !b.Built? then None
      else
        PutKeepsKeys(p.value.0, x, b.tree);
        Some((Put(p.value.0, x, b.tree), p.value.1 + [EntryOf(x, b.tree)]))
  }

  /** `migration_plan`'s entry for one tree. */
  function EntryOf(rootId: string, tree: Tree): (e: PlanEntry)
    ensures e.rootId == rootId && e.size == tree.total
  {
    PlanEntry(rootId, tree.root.title, tree.total, tree.statuses)
  }

  /** `analyze_complete_hierarchy`: totals over the id map and one tree per
      root; a recursion error in any tree is raised to the caller. */
  function Analyze(rows: seq<Task>): (r: Result<Analysis, string>)
    ensures r.Ok? ==> r.value.total == |TasksMap(rows)| && r.value.rootsCount == |RootIds(rows)|
    ensures r.Ok? ==> r.value.subtasks == r.value.total - r.value.rootsCount
    ensures r.Ok? ==> |r.value.plan| == |RootIds(rows)|
    ensures r.Ok? ==> forall i :: 0 <= i < |RootIds(rows)| ==>
              r.value.plan[i].rootId == RootIds(rows)[i] && HasKey(r.value.trees, RootIds(rows)[i])
    ensures r.Err? <==> exists i :: 0 <= i < |RootIds(rows)| && !TreesOf(TasksMap(rows), RootIds(rows))[i].Built?
  {
    var m := TasksMap(rows);
    var roots := RootIds(rows);
    var ts := TreesOf(m, roots);
    match PlanTrees(roots, ts)
    case None =>
      var i :| 0 <= i < |ts| && !ts[i].Built?;
      assert !TreesOf(TasksMap(rows), RootIds(rows))[i].Built?;
      Err("RecursionError: maximum recursion depth exceeded")
    case Some((trees, plan)) => Ok(Analysis(|m|, |roots|, |m| - |roots|, trees, plan))
  }

  /** With distinct ids, every parent chain in the table is finite, so the
      analysis succeeds, and `subtasks_count` is the number of rows that
      have a parent. */
  lemma AnalyzeDistinct(rows: seq<Task>)
    requires DistinctIds(rows)
    ensures Analyze(rows).Ok?
    ensures Analyze(rows).value.subtasks == ChildCount(rows)
  {
    var m := TasksMap(rows);
    var roots := RootIds(rows);
    forall i | 0 <= i < |roots| ensures TreesOf(m, roots)[i].Built? {
      assert roots[i] in roots;
      var k :| 0 <= k < |rows| && rows[k].id == roots[i] && rows[k].parent.None?;
      TasksMapHolds(rows, rows[k]);
      DescendantsOfRoot(m, roots[i]);
    }
    TasksMapSize(rows);
  }

  // ---------------------------------------------------------------------
  // The migration

  const FoundationDescription :=
    "Core system architecture, database, authentication, and basic APIs\n\n🧠 Theory Focus: System foundation and core data structures\n\n📊 Migrated: All existing task hierarchies preserved within this phase"

  const FoundationNoteTail :=
    " tasks (including complete task trees). All task hierarchies preserved within Foundation. Complete all tasks before advancing to Phase 2: Intelligence."

  function FoundationNote(total: nat): string {
    "🚀 Hierarchical migration: Foundation phase created for " + NatToString(total) + FoundationNoteTail
  }

  function FoundationRow(total: nat): Task {
    Task(Phase1, "Phase 1: Foundation", FoundationDescription, "pending", "high", None, [], DepList([]),
         [Note(Migrator, FoundationNote(total))], Migrator)
  }

  /** `create_foundation_phase`: an existing foundation row is kept as it
      is; otherwise a pending one is inserted. */
  function CreateFoundation(store: Store, total: nat): (r: Store)
    ensures r.Keys == store.Keys + {Phase1}
    ensures Phase1 in store ==> r == store
    ensures Phase1 !in store ==> r[Phase1].status == "pending" && r[Phase1].parent.None?
    ensures forall k :: k in store ==> r[k] == store[k]
  {
    if Phase1 in store then store else store[Phase1 := FoundationRow(total)]
  }

  const RootTreeNoteHead := "🚀 Hierarchical migration: Task tree migrated to Foundation phase. This task and its "
  const RootTreeNoteTail :=
    " subtasks now follow linear phase progression. Complete entire task tree before advancing phases."

  function RootTreeNote(subtasks: int): Note {
    Note(Migrator, RootTreeNoteHead + IntToString(subtasks) + RootTreeNoteTail)
  }

  const SubtaskNote := Note(Migrator,
    "🔗 Hierarchical migration: Task hierarchy preserved within Foundation phase. Parent-child relationships maintained. Complete this task as part of Foundation phase progression.")

  /** The subtask loop: each `UPDATE` writes the loaded notes plus one note
      and leaves the parent alone; an id with no row matches nothing. */
  function NoteSubtasks(store: Store, ts: seq<Task>): (r: Store)
    ensures r.Keys == store.Keys
    ensures forall k :: k in store ==> r[k].parent == store[k].parent
    ensures forall k :: k in store && k !in IdSet(ts) ==> r[k] == store[k]
    ensures forall k :: k in store && k in IdSet(ts) ==>
              exists i :: 0 <= i < |ts| && ts[i].id == k && r[k].notes == ts[i].notes + [SubtaskNote]
    decreases |ts|
  {
    if |ts| == 0 then store
    else
      var s0 := NoteSubtasks(store, ts[..|ts| - 1]);
      var t := ts[|ts| - 1];
      var r := if t.id in s0 then s0[t.id := s0[t.id].(notes := t.notes + [SubtaskNote])] else s0;
      NoteStep(store, ts, s0, r);
      r
  }

  /** Only the tasks' rows change, and only in their notes. */
  ghost predicate NotedOnly(store: Store, ts: seq<Task>, r: Store) {
    && r.Keys == store.Keys
    && (forall k :: k in store ==> r[k].parent == store[k].parent)
    && (forall k :: k in store && k !in IdSet(ts) ==> r[k] == store[k])
  }

  /** Each task's row holds that task's loaded notes plus one. */
  ghost predicate NotedRows(store: Store, ts: seq<Task>, r: Store) {
    forall k :: k in store && k in r && k in IdSet(ts) ==>
      exists i :: 0 <= i < |ts| && ts[i].id == k && r[k].notes == ts[i].notes + [SubtaskNote]
  }

  lemma NoteStep(store: Store, ts: seq<Task>, s0: Store, r: Store)
    requires |ts| > 0 && NotedOnly(store, ts[..|ts| - 1], s0) && NotedRows(store, ts[..|ts| - 1], s0)
    requires var t := ts[|ts| - 1];
             r == if t.id in s0 then s0[t.id := s0[t.id].(notes := t.notes + [SubtaskNote])] else s0
    ensures NotedOnly(store, ts, r) && NotedRows(store, ts, r)
  {
    var prefix := ts[..|ts| - 1];
    var t := ts[|ts| - 1];
    assert ts == prefix + [t];
    NoteOnlyStep(store, prefix, t, ts, s0, r);
    NoteRowsStep(store, prefix, t, ts, s0, r);
  }

  lemma NoteOnlyStep(store: Store, prefix: seq<Task>, t: Task, ts: seq<Task>, s0: Store, r: Store)
    requires ts == prefix + [t] && NotedOnly(store, prefix, s0)
    requires r == if t.id in s0 then s0[t.id := s0[t.id].(notes := t.notes + [SubtaskNote])] else s0
    ensures NotedOnly(store, ts, r)
  {
  }

  lemma NoteRowsStep(store: Store, prefix: seq<Task>, t: Task, ts: seq<Task>, s0: Store, r: Store)
    requires ts == prefix + [t] && NotedOnly(store, prefix, s0) && NotedRows(store, prefix, s0)
    requires r == if t.id in s0 then s0[t.id := s0[t.id].(notes := t.notes + [SubtaskNote])] else s0
    ensures NotedRows(store, ts, r)
  {
    forall k | k in store && k in r && k in IdSet(ts)
      ensures exists i :: 0 <= i < |ts| && ts[i].id == k && r[k].notes == ts[i].notes + [SubtaskNote]
    {
      if k == t.id {
        assert ts[|prefix|] == t;
      } else {
        var u :| u in ts && u.id == k;
        assert u in prefix;
        var i :| 0 <= i < |prefix| && prefix[i].id == k && s0[k].notes == prefix[i].notes + [SubtaskNote];
        assert ts[i] == prefix[i];
      }
    }
  }

  /** `task_tree['all_tasks'][1:]`. */
  function Subtasks(tree: Tree): (ts: seq<Task>)
    ensures |tree.all| > 0 ==> ts == tree.all[1..]
  {
    if |tree.all| > 0 then tree.all[1..] else []
  }

  /** `migrate_task_tree`: the root moves under the foundation with one
      note written over its loaded notes, and every other member keeps its
      parent and gets one note. Every member counts as migrated, so the
      failure count is always zero. */
  function MigrateTree(store: Store, rootId: string, tree: Tree): (r: (Store, nat))
    ensures r.0.Keys == store.Keys
    ensures |tree.all| > 0 ==> r.1 == |tree.all|
    ensures forall k :: k in store && k != rootId ==> r.0[k].parent == store[k].parent
    ensures rootId in store ==> r.0[rootId].parent == Some(Phase1)
    ensures forall k :: k in store && k != rootId && k !in IdSet(Subtasks(tree)) ==> r.0[k] == store[k]
    ensures rootId in store && rootId !in IdSet(Subtasks(tree)) ==>
              r.0[rootId].notes == tree.root.notes + [RootTreeNote(tree.total - 1)]
    ensures forall k :: k in store && k != rootId && k in IdSet(Subtasks(tree)) ==>
              exists i :: 1 <= i < |tree.all| && tree.all[i].id == k && r.0[k].notes == tree.all[i].notes + [SubtaskNote]
  {
    var s1 := if rootId in store
              then store[rootId := store[rootId].(parent := Some(Phase1),
                                                  notes := tree.root.notes + [RootTreeNote(tree.total - 1)])]
              else store;
    var subs := Subtasks(tree);
    var s2 := NoteSubtasks(s1, subs);
    SubtaskRows(tree, subs, s1, s2);
    (s2, 1 + |subs|)
  }

  /** A subtask's position among the subtasks is one less than its
      position in the tree. */
  lemma SubtaskRows(tree: Tree, subs: seq<Task>, s1: Store, s2: Store)
    requires subs == Subtasks(tree) && s2.Keys == s1.Keys && NotedRows(s1, subs, s2)
    ensures forall k :: k in s1 && k in IdSet(subs) ==>
              exists i :: 1 <= i < |tree.all| && tree.all[i].id == k && s2[k].notes == tree.all[i].notes + [SubtaskNote]
  {
    forall k | k in s1 && k in IdSet(subs)
      ensures exists i :: 1 <= i < |tree.all| && tree.all[i].id == k && s2[k].notes == tree.all[i].notes + [SubtaskNote]
    {
      var i :| 0 <= i < |subs| && subs[i].id == k && s2[k].notes == subs[i].notes + [SubtaskNote];
      assert tree.all[i + 1] == subs[i];
    }
  }

  function PlanRoots(plan: seq<PlanEntry>): set<string> {
    set e | e in plan :: e.rootId
  }

  /** The loop of `run_hierarchical_migration` over `migration_plan`. */
  function MigrateTrees(store: Store, plan: seq<PlanEntry>, trees: OMap<string, Tree>): (r: Store)
    requires forall i :: 0 <= i < |plan| ==> HasKey(trees, plan[i].rootId)
    ensures r.Keys == store.Keys
    ensures forall k :: k in store ==>
              r[k].parent == (if k in PlanRoots(plan) then Some(Phase1) else store[k].parent)
    decreases |plan|
  {
    if |plan| == 0 then store
    else
      var prefix := plan[..|plan| - 1];
      var e := plan[|plan| - 1];
      assert forall i :: 0 <= i < |prefix| ==> prefix[i] == plan[i];
      var s0 := MigrateTrees(store, prefix, trees);
      PlanRootsLast(plan);
      var r := MigrateTree(s0, e.rootId, Get(trees, e.rootId)).0;
      ParentsStep(store, s0, r, e.rootId, PlanRoots(prefix), PlanRoots(plan));
      r
  }

  lemma PlanRootsLast(plan: seq<PlanEntry>)
    requires |plan| > 0
    ensures PlanRoots(plan) == PlanRoots(plan[..|plan| - 1]) + {plan[|plan| - 1].rootId}
  {
    assert plan == plan[..|plan| - 1] + [plan[|plan| - 1]];
  }

  /** Moving one more root under the foundation extends the set of moved
      roots by it. */
  lemma ParentsStep(store: Store, s0: Store, r: Store, id: string, roots0: set<string>, roots: set<string>)
    requires s0.Keys == store.Keys
    requires forall k :: k in store ==> s0[k].parent == (if k in roots0 then Some(Phase1) else store[k].parent)
    requires r.Keys == s0.Keys && forall k :: k in s0 && k != id ==> r[k].parent == s0[k].parent
    requires id in s0 ==> r[id].parent == Some(Phase1)
    requires roots == roots0 + {id}
    ensures r.Keys == store.Keys
    ensures forall k :: k in store ==> r[k].parent == (if k in roots then Some(Phase1) else store[k].parent)
  {
  }

  /** `run_hierarchical_migration` over the rows of the table: the result
      and the table afterwards. A recursion error in the analysis is caught
      and nothing is written; otherwise the failure count is zero and the
      run succeeds. */
  function Run(rows: seq<Task>): (r: (bool, Store))
    ensures !NeedsMigration(rows) ==> r == (true, StoreOf(rows))
    ensures !r.0 ==> r.1 == StoreOf(rows)
    ensures r.0 && NeedsMigration(rows) ==> r.1.Keys == StoreOf(rows).Keys + {Phase1}
    ensures NeedsMigration(rows) ==> (r.0 <==> Analyze(rows).Ok?)
  {
    var store := StoreOf(rows);
    if !NeedsMigration(rows) then (true, store)
    else
      match Analyze(rows)
      case Err(_) => (false, store)
      case Ok(a) =>
        var s1 := CreateFoundation(store, a.total);
        (true, MigrateTrees(s1, a.plan, a.trees))
  }

  /** A plan with one entry per root, in order, has exactly those roots. */
  lemma PlanRootsAreRoots(plan: seq<PlanEntry>, roots: seq<string>)
    requires |plan| == |roots|
    requires forall i :: 0 <= i < |roots| ==> plan[i].rootId == roots[i]
    ensures forall k :: k in PlanRoots(plan) <==> k in roots
  {
    forall k ensures k in PlanRoots(plan) <==> k in roots {
      if k in PlanRoots(plan) {
        var e :| e in plan && e.rootId == k;
        var j :| 0 <= j < |plan| && plan[j] == e;
        assert roots[j] == k;
      }
      if k in roots {
        var j :| 0 <= j < |roots| && roots[j] == k;
        assert plan[j] in plan;
      }
    }
  }

  /** With distinct ids, a stored task is a root exactly when it has no
      parent. */
  lemma RootIdsAreParentless(rows: seq<Task>, k: string)
    requires DistinctIds(rows) && k in StoreOf(rows)
    ensures k in RootIds(rows) <==> StoreOf(rows)[k].parent.None?
  {
    var t :| t in rows && t.id == k;
    StoreOfHolds(rows, t);
    if k in RootIds(rows) {
      var i :| 0 <= i < |rows| && rows[i].id == k && rows[i].parent.None?;
      StoreOfHolds(rows, rows[i]);
    }
    if t.parent.None? {
      var i :| 0 <= i < |rows| && rows[i] == t;
    }
  }

  /** When the migration is needed the foundation phase is not yet stored. */
  lemma FoundationAbsent(rows: seq<Task>)
    requires NeedsMigration(rows)
    ensures Phase1 !in StoreOf(rows)
  {
  }

  /** With distinct ids the run succeeds, inserts a pending foundation
      phase, moves exactly the parentless tasks under it, and leaves every
      other task's parent as it was. */
  lemma RunReparentsRoots(rows: seq<Task>)
    requires DistinctIds(rows) && NeedsMigration(rows)
    ensures Run(rows).0
    ensures Phase1 in Run(rows).1 && Phase1 !in StoreOf(rows)
    ensures forall k :: k in StoreOf(rows) ==>
              Run(rows).1[k].parent == (if StoreOf(rows)[k].parent.None? then Some(Phase1) else StoreOf(rows)[k].parent)
  {
    var store := StoreOf(rows);
    AnalyzeDistinct(rows);
    var a := Analyze(rows).value;
    FoundationAbsent(rows);
    PlanRootsAreRoots(a.plan, RootIds(rows));
    var s1 := CreateFoundation(store, a.total);
    var after := MigrateTrees(s1, a.plan, a.trees);
    assert Run(rows).1 == after;
    forall k | k in store
      ensures after[k].parent == (if store[k].parent.None? then Some(Phase1) else store[k].parent)
    {
      RootIdsAreParentless(rows, k);
      assert s1[k] == store[k];
    }
  }
}
