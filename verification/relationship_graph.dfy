/** `TaskRelationshipAnalyzer`, first half: the parent and dependency maps,
    the hierarchy roots, and the clusters of related tasks. The recursive
    depth-first collection is modelled by what it computes: every task
    reachable from the seed through tasks not yet visited. Python sets are
    enumerated in table order. */
module RelationshipGraph {
  import opened Wrappers
  import opened Tasks

  /** Neither `phase_` nor `root_` prefixed: a task the clustering handles. */
  predicate Regular(id: string) {
    !IsPhaseId(id) && !IsRootId(id)
  }

  /** The analyzer's maps. `parentOf` is `parent_map`; `children_map` is its
      inverse; `deps` is `dependency_map`, holding only existing ids and
      only non-empty entries. */
  datatype Relations = Relations(
    rows: seq<Task>,
    tasks: Store,
    parentOf: map<string, string>,
    deps: map<string, set<string>>)

  /** A parent that `parent_map` records: non-empty and not a phase or
      workstream root. */
  predicate RecordedParent(t: Task) {
    t.parent.Some? && t.parent.value != "" && Regular(t.parent.value)
  }

  function ParentMap(rows: seq<Task>): (m: map<string, string>)
    ensures forall k :: k in m ==> !IsPhaseId(k) && m[k] != "" && Regular(m[k])
    decreases |rows|
  {
    if |rows| == 0 then map[]
    else
      var prefix := rows[..|rows| - 1];
      var t := rows[|rows| - 1];
      assert rows == prefix + [t];
      var m := ParentMap(prefix);
      if !IsPhaseId(t.id) && RecordedParent(t) then m[t.id := t.parent.value] else m
  }

  /** With distinct ids, `parent_map` holds each recorded parent. */
  lemma {:induction false} ParentMapHolds(rows: seq<Task>, t: Task)
    requires DistinctIds(rows) && t in rows && !IsPhaseId(t.id) && RecordedParent(t)
    ensures t.id in ParentMap(rows) && ParentMap(rows)[t.id] == t.parent.value
    decreases |rows|
  {
    var prefix := rows[..|rows| - 1];
    var last := rows[|rows| - 1];
    assert rows == prefix + [last];
    if t != last {
      var i :| 0 <= i < |prefix| && prefix[i] == t;
      assert rows[i] == t;
      assert t.id != last.id;
      assert DistinctIds(prefix) by {
        forall a, b | 0 <= a < b < |prefix| ensures prefix[a].id != prefix[b].id {
          assert prefix[a] == rows[a] && prefix[b] == rows[b];
        }
      }
      ParentMapHolds(prefix, t);
    }
  }

  /** With distinct ids, a task whose parent is not recorded has no entry. */
  lemma {:induction false} ParentMapAbsent(rows: seq<Task>, t: Task)
    requires DistinctIds(rows) && t in rows && !(!IsPhaseId(t.id) && RecordedParent(t))
    ensures t.id !in ParentMap(rows)
    decreases |rows|
  {
    var prefix := rows[..|rows| - 1];
    var last := rows[|rows| - 1];
    assert rows == prefix + [last];
    assert DistinctIds(prefix) by {
      forall a, b | 0 <= a < b < |prefix| ensures prefix[a].id != prefix[b].id {
        assert prefix[a] == rows[a] && prefix[b] == rows[b];
      }
    }
    if t != last {
      var i :| 0 <= i < |prefix| && prefix[i] == t;
      assert rows[i] == t;
      assert t.id != last.id;
      ParentMapAbsent(prefix, t);
    } else if t.id in ParentMap(prefix) {
      NoEntryWithoutRow(prefix, t.id);
    }
  }

  /** Every key of `parent_map` is the id of some row. */
  lemma {:induction false} NoEntryWithoutRow(rows: seq<Task>, k: string)
    requires k in ParentMap(rows)
    ensures exists j :: 0 <= j < |rows| && rows[j].id == k
    decreases |rows|
  {
    var prefix := rows[..|rows| - 1];
    var last := rows[|rows| - 1];
    if k != last.id || !(!IsPhaseId(last.id) && RecordedParent(last)) {
      NoEntryWithoutRow(prefix, k);
      var j :| 0 <= j < |prefix| && prefix[j].id == k;
      assert rows[j] == prefix[j];
    } else {
      assert rows[|rows| - 1].id == k;
    }
  }

  /** The existing dependencies of a decoded list. */
  function KnownDeps(ids: seq<string>, tasks: Store): (s: set<string>)
    ensures forall d :: d in s <==> d in ids && d in tasks
  {
    set d | d in ids && d in tasks
  }

  /** `dependency_map`; `None` when a non-phase row's dependency column is
      not valid JSON, since the loader has no guard around `json.loads`. */
  function DepMap(rows: seq<Task>, tasks: Store): (r: Option<map<string, set<string>>>)
    ensures r.None? <==> exists t :: t in rows && !IsPhaseId(t.id) && t.deps == Malformed
    ensures r.Some? ==> forall k :: k in r.value ==> r.value[k] != {} && r.value[k] <= tasks.Keys
    decreases |rows|
  {
    if |rows| == 0 then Some(map[])
    else
      var prefix := rows[..|rows| - 1];
      var t := rows[|rows| - 1];
      assert rows == prefix + [t];
      match DepMap(prefix, tasks)
      case None => None
      case Some(m) =>
        if IsPhaseId(t.id) then Some(m)
        else match t.deps
          case Malformed => None
          case DepList(ids) =>
            var add := KnownDeps(ids, tasks);
            var prev := if t.id in m then m[t.id] else {};
            if prev + add == {} then Some(m) else Some(m[t.id := prev + add])
  }

  /** `_build_relationship_maps`. */
  function BuildRelations(rows: seq<Task>): (r: Option<Relations>)
    ensures r.None? <==> exists t :: t in rows && !IsPhaseId(t.id) && t.deps == Malformed
    ensures r.Some? ==> r.value.rows == rows && r.value.tasks == StoreOf(rows)
                        && r.value.parentOf == ParentMap(rows)
  {
    var tasks := StoreOf(rows);
    match DepMap(rows, tasks)
    case None => None
    case Some(d) => Some(Relations(rows, tasks, ParentMap(rows), d))
  }

  // ---------------------------------------------------------------------
  // Roots

  /** `_identify_root_tasks` on one task. */
  predicate IsRoot(rel: Relations, t: Task) {
    Regular(t.id)
    && (t.parent.None? || t.parent.value == ""
        || (t.parent.value in rel.tasks && rel.tasks[t.parent.value].status == "cancelled")
        || !Regular(t.parent.value)
        || t.parent.value !in rel.tasks)
  }

  function RootsOf(rel: Relations, rows: seq<Task>): (ids: seq<string>)
    ensures forall i :: 0 <= i < |ids| ==> Regular(ids[i])
    ensures forall x :: x in ids <==> exists t :: t in rows && t.id == x && IsRoot(rel, t)
    decreases |rows|
  {
    if |rows| == 0 then []
    else
      var rest := RootsOf(rel, rows[1..]);
      assert rows == [rows[0]] + rows[1..];
      (if IsRoot(rel, rows[0]) then [rows[0].id] else []) + rest
  }

  function Roots(rel: Relations): seq<string> {
    RootsOf(rel, rel.rows)
  }

  /** A regular task is a root exactly when `parent_map` has no entry for
      it, or its recorded parent is missing or cancelled. */
  lemma RootIffNoLiveParent(rows: seq<Task>, t: Task)
    requires DistinctIds(rows) && t in rows && Regular(t.id) && BuildRelations(rows).Some?
    ensures var rel := BuildRelations(rows).value;
            IsRoot(rel, t) <==>
              (t.id !in rel.parentOf || rel.parentOf[t.id] !in rel.tasks
               || rel.tasks[rel.parentOf[t.id]].status == "cancelled")
  {
    if RecordedParent(t) {
      ParentMapHolds(rows, t);
    } else {
      ParentMapAbsent(rows, t);
    }
  }

  // ---------------------------------------------------------------------
  // Neighbours and closure

  /** The ids the clustering covers. */
  function RegularIds(rel: Relations): (n: set<string>)
    ensures forall x :: x in n <==> x in rel.tasks && Regular(x)
  {
    set x | x in rel.tasks && Regular(x)
  }

  function ChildrenOf(rel: Relations, x: string): set<string> {
    set c | c in rel.parentOf && rel.parentOf[c] == x
  }

  function DepsOf(rel: Relations, x: string): set<string> {
    if x in rel.deps then rel.deps[x] else {}
  }

  function DependentsOf(rel: Relations, x: string): set<string> {
    set o | o in rel.deps && x in rel.deps[o]
  }

  /** The tasks `_collect_related_tasks` recurses into from `x`: children,
      dependencies and dependents, minus phase and root ids. */
  function Neighbours(rel: Relations, x: string): (n: set<string>)
    ensures n <= RegularIds(rel)
  {
    (ChildrenOf(rel, x) + DepsOf(rel, x) + DependentsOf(rel, x)) * RegularIds(rel)
  }

  /** One round: `s` and every allowed neighbour of a member. */
  function Grow(rel: Relations, s: set<string>, allowed: set<string>): (g: set<string>)
    requires s <= allowed
    ensures s <= g <= allowed
    ensures forall x, y :: x in s && y in Neighbours(rel, x) && y in allowed ==> y in g
  {
    s + set y | y in allowed && exists x | x in s :: y in Neighbours(rel, x)
  }

  lemma StrictGrowthShrinks(s: set<string>, g: set<string>, allowed: set<string>)
    requires s <= g <= allowed && s != g
    ensures |allowed - g| < |allowed - s|
  {
    var x :| x in g && x !in s;
    assert allowed - g <= (allowed - s) - {x};
    assert |(allowed - s) - {x}| == |allowed - s| - 1;
    SubsetCard(allowed - g, (allowed - s) - {x});
  }

  lemma SubsetCard(a: set<string>, b: set<string>)
    requires a <= b
    ensures |a| <= |b|
  {
    assert b == a + (b - a);
  }

  /** The tasks reachable from `s` through `allowed` tasks. */
  function Closure(rel: Relations, s: set<string>, allowed: set<string>): (c: set<string>)
    requires s <= allowed
    ensures s <= c <= allowed
    ensures forall x, y :: x in c && y in Neighbours(rel, x) && y in allowed ==> y in c
    decreases |allowed - s|
  {
    var g := Grow(rel, s, allowed);
    if g == s then s
    else
      StrictGrowthShrinks(s, g, allowed);
      Closure(rel, g, allowed)
  }

  /** The closure holds nothing that is not reachable: any set containing
      the seed and closed under allowed neighbours contains it. */
  lemma {:induction false} ClosureLeast(rel: Relations, s: set<string>, allowed: set<string>, z: set<string>)
    requires s <= allowed && s <= z
    requires forall x, y :: x in z && y in Neighbours(rel, x) && y in allowed ==> y in z
    ensures Closure(rel, s, allowed) <= z
    decreases |allowed - s|
  {
    var g := Grow(rel, s, allowed);
    if g != s {
      StrictGrowthShrinks(s, g, allowed);
      ClosureLeast(rel, g, allowed, z);
    }
  }

  // ---------------------------------------------------------------------
  // Clusters

  datatype Cluster = Cluster(id: string, members: set<string>)

  function Union(cs: seq<Cluster>): set<string>
    decreases |cs|
  {
    if |cs| == 0 then {} else Union(cs[..|cs| - 1]) + cs[|cs| - 1].members
  }

  lemma UnionMember(cs: seq<Cluster>, x: string)
    ensures x in Union(cs) <==> exists k :: 0 <= k < |cs| && x in cs[k].members
    decreases |cs|
  {
    if |cs| > 0 {
      UnionMember(cs[..|cs| - 1], x);
      if x in Union(cs[..|cs| - 1]) {
        var k :| 0 <= k < |cs| - 1 && x in cs[..|cs| - 1][k].members;
        assert cs[k] == cs[..|cs| - 1][k];
      }
      if exists k :: 0 <= k < |cs| && x in cs[k].members {
        var k :| 0 <= k < |cs| && x in cs[k].members;
        if k < |cs| - 1 {
          assert cs[..|cs| - 1][k] == cs[k];
        }
      }
    }
  }

  /** Clusters are non-empty, regular and pairwise disjoint, and each one
      holds every neighbour of its members that no earlier cluster holds. */
  ghost predicate GoodClusters(rel: Relations, cs: seq<Cluster>) {
    (forall k :: 0 <= k < |cs| ==> cs[k].members != {} && cs[k].members <= RegularIds(rel))
    && (forall j, k :: 0 <= j < k < |cs| ==> cs[j].members !! cs[k].members)
    && (forall k, x, y :: 0 <= k < |cs| && x in cs[k].members && y in Neighbours(rel, x) ==>
          y in cs[k].members || y in Union(cs[..k]))
  }

  /** The clusters built so far and the visited set. */
  datatype Pass = Pass(clusters: seq<Cluster>, visited: set<string>)

  ghost predicate GoodPass(rel: Relations, p: Pass) {
    GoodClusters(rel, p.clusters) && p.visited == Union(p.clusters)
  }

  /** Adding the closure of an unvisited seed keeps a pass good. */
  lemma AddClusterGood(rel: Relations, p: Pass, c: Cluster)
    requires GoodPass(rel, p)
    requires c.members != {} && c.members <= RegularIds(rel) - p.visited
    requires forall x, y :: x in c.members && y in Neighbours(rel, x) && y in RegularIds(rel) - p.visited
               ==> y in c.members
    ensures GoodPass(rel, Pass(p.clusters + [c], p.visited + c.members))
  {
    var cs := p.clusters + [c];
    assert cs[..|cs| - 1] == p.clusters;
    assert Union(cs) == p.visited + c.members;
    forall j, k | 0 <= j < k < |cs| ensures cs[j].members !! cs[k].members {
      if k == |cs| - 1 {
        forall x | x in cs[j].members ensures x !in c.members {
          UnionMember(p.clusters, x);
          assert p.clusters[j] == cs[j];
        }
      } else {
        assert cs[j] == p.clusters[j] && cs[k] == p.clusters[k];
      }
    }
    forall k, x, y | 0 <= k < |cs| && x in cs[k].members && y in Neighbours(rel, x)
      ensures y in cs[k].members || y in Union(cs[..k])
    {
      if k < |cs| - 1 {
        assert cs[k] == p.clusters[k];
        assert cs[..k] == p.clusters[..k];
      } else {
        assert cs[..k] == p.clusters;
      }
    }
  }

  /** One seed of `_build_task_clusters`: a visited seed (or a phase or
      root id) is skipped, otherwise its closure over the unvisited tasks
      becomes the cluster `prefix + seed`. */
  function Visit(rel: Relations, r: string, prefix: string, p: Pass): (q: Pass)
    requires GoodPass(rel, p) && p.visited <= RegularIds(rel)
    ensures GoodPass(rel, q) && p.visited <= q.visited <= RegularIds(rel)
    ensures r in RegularIds(rel) ==> r in q.visited
    ensures p.clusters <= q.clusters
  {
    if r in p.visited || r !in RegularIds(rel) then p
    else
      var c := Closure(rel, {r}, RegularIds(rel) - p.visited);
      AddClusterGood(rel, p, Cluster(prefix + r, c));
      Pass(p.clusters + [Cluster(prefix + r, c)], p.visited + c)
  }

  /** The seeds in order. */
  function Sweep(rel: Relations, seeds: seq<string>, prefix: string, p: Pass): (q: Pass)
    requires GoodPass(rel, p) && p.visited <= RegularIds(rel)
    ensures GoodPass(rel, q) && p.visited <= q.visited <= RegularIds(rel)
    ensures forall i :: 0 <= i < |seeds| && seeds[i] in RegularIds(rel) ==> seeds[i] in q.visited
    ensures p.clusters <= q.clusters
    decreases |seeds|
  {
    if |seeds| == 0 then p
    else
      var q := Sweep(rel, seeds[1..], prefix, Visit(rel, seeds[0], prefix, p));
      assert forall i :: 1 <= i < |seeds| ==> seeds[i] == seeds[1..][i - 1];
      q
  }

  /** The regular ids not yet visited, in table order. */
  function Unvisited(rel: Relations, visited: set<string>): (ids: seq<string>)
    requires rel.tasks == StoreOf(rel.rows)
    ensures forall x :: x in RegularIds(rel) - visited ==> x in ids
  {
    var all := IdsOf(rel.rows);
    assert forall x :: x in rel.tasks ==> x in all by {
      forall x | x in rel.tasks ensures x in all {
        var t :| t in rel.rows && t.id == x;
        var i :| 0 <= i < |rel.rows| && rel.rows[i] == t;
        assert all[i] == x;
      }
    }
    Filter(all, RegularIds(rel) - visited)
  }

  function Filter(xs: seq<string>, keep: set<string>): (r: seq<string>)
    ensures forall x :: x in r <==> x in xs && x in keep
  {
    if |xs| == 0 then []
    else (if xs[0] in keep then [xs[0]] else []) + Filter(xs[1..], keep)
  }

  /** `_build_task_clusters`: clusters from the roots, then from the
      disconnected rest, then a catch-all for anything still unvisited. */
  function BuildClusters(rel: Relations): (cs: seq<Cluster>)
    requires rel.tasks == StoreOf(rel.rows)
  {
    var p1 := Sweep(rel, Roots(rel), "cluster_", Pass([], {}));
    var p2 := Sweep(rel, Unvisited(rel, p1.visited), "cluster_disconnected_", p1);
    var rest := RegularIds(rel) - p2.visited;
    if rest != {} then p2.clusters + [Cluster("cluster_uncategorized", rest)] else p2.clusters
  }

  /** The clusters cover every regular id exactly once and each holds its
      members' unclaimed neighbours; the catch-all is never needed. */
  lemma BuildClustersGood(rel: Relations)
    requires rel.tasks == StoreOf(rel.rows)
    ensures GoodClusters(rel, BuildClusters(rel))
    ensures Union(BuildClusters(rel)) == RegularIds(rel)
  {
    var p1 := Sweep(rel, Roots(rel), "cluster_", Pass([], {}));
    var seeds := Unvisited(rel, p1.visited);
    var p2 := Sweep(rel, seeds, "cluster_disconnected_", p1);
    forall x | x in RegularIds(rel) ensures x in p2.visited {
      if x !in p1.visited {
        assert x in seeds;
        var i :| 0 <= i < |seeds| && seeds[i] == x;
      }
    }
    assert RegularIds(rel) - p2.visited == {};
    assert BuildClusters(rel) == p2.clusters;
  }
}
