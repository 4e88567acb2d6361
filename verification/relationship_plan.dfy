/** `RelationshipAwareMigration`: clusters grouped by phase and workstream
    type, small groups consolidated, and one workstream root per group,
    with every regular task assigned to the workstream holding its cluster.
    Both the consolidation as written and a corrected one are modelled, and
    a structure is built from each. */
module RelationshipPlan {
  import opened Wrappers
  import opened Text
  import opened Tasks
  import opened Sorting
  import opened OrderedMaps
  import opened RelationshipGraph
  import opened RelationshipClusters

  /** `{'clusters': [...], 'total_tasks': n}`. */
  datatype WsData = WsData(clusters: seq<Cluster>, total: nat)

  /** Workstream type to its clusters, in insertion order. */
  type WsMap = OMap<string, WsData>

  /** `phase_clusters`: the phase (possibly `None`) to its workstream types. */
  type PhaseClusters = OMap<Option<string>, WsMap>

  const NoData := WsData([], 0)

  /** Workstream groups below this size are merged into `general`. */
  const StandaloneMinimum := 5

  /** At most this many workstreams per phase; when capped, this many of
      the largest are kept and the rest merged into `general`. */
  const MaxWorkstreams := 7
  const KeptWhenCapped := 6

  function DataIds(d: WsData): set<string> {
    Union(d.clusters)
  }

  function WsIds(m: WsMap): set<string> {
    UnionOf(m, DataIds)
  }

  lemma {:induction false} UnionConcat(a: seq<Cluster>, b: seq<Cluster>)
    ensures Union(a + b) == Union(a) + Union(b)
    decreases |b|
  {
    if |b| == 0 {
      assert a + b == a;
    } else {
      assert (a + b)[..|a + b| - 1] == a + b[..|b| - 1];
      UnionConcat(a, b[..|b| - 1]);
    }
  }

  /** Two groups' clusters and task counts together. */
  function Append(a: WsData, b: WsData): (r: WsData)
    ensures DataIds(r) == DataIds(a) + DataIds(b)
  {
    UnionConcat(a.clusters, b.clusters);
    WsData(a.clusters + b.clusters, a.total + b.total)
  }

  // ---------------------------------------------------------------------
  // _assign_clusters_to_phases

  /** `phase_clusters[phase][ws_type]` gains the cluster and its size. */
  function AddCluster(pc: PhaseClusters, phase: Option<string>, info: ClusterInfo): (r: PhaseClusters)
    ensures UnionOf(r, WsIds) == UnionOf(pc, WsIds) + info.cluster.members
  {
    var inner2 := PhaseGroupsWith(pc, phase, info);
    assert UnionOf(Put(pc, phase, inner2), WsIds) == UnionOf(pc, WsIds) + info.cluster.members by {
      UnionOfPut(pc, phase, inner2, WsIds);
      if HasKey(pc, phase) {
        GetInUnion(pc, phase, WsIds);
      }
    }
    Put(pc, phase, inner2)
  }

  /** The phase's groups with the cluster added to its workstream type. */
  function PhaseGroupsWith(pc: PhaseClusters, phase: Option<string>, info: ClusterInfo): (r: WsMap)
    ensures WsIds(r) == WsIds(GetOr(pc, phase, [])) + info.cluster.members
  {
    var inner := GetOr(pc, phase, []);
    var d := GetOr(inner, info.wsType, NoData);
    var d2 := WsData(d.clusters + [info.cluster], d.total + info.size);
    GroupWithIds(inner, info, d, d2);
    Put(inner, info.wsType, d2)
  }

  lemma GroupWithIds(inner: WsMap, info: ClusterInfo, d: WsData, d2: WsData)
    requires d == GetOr(inner, info.wsType, NoData)
    requires d2 == WsData(d.clusters + [info.cluster], d.total + info.size)
    ensures WsIds(Put(inner, info.wsType, d2)) == WsIds(inner) + info.cluster.members
  {
    assert DataIds(d2) == DataIds(d) + info.cluster.members by {
      assert (d.clusters + [info.cluster])[..|d.clusters|] == d.clusters;
    }
    UnionOfPut(inner, info.wsType, d2, DataIds);
    if HasKey(inner, info.wsType) {
      GetInUnion(inner, info.wsType, DataIds);
    }
  }

  /** Adding a cluster adds at most its phase to the phases. */
  lemma AddClusterKeys(pc: PhaseClusters, phase: Option<string>, info: ClusterInfo)
    ensures forall p :: p in Keys(AddCluster(pc, phase, info)) ==> p in Keys(pc) || p == phase
  {
    PutKeys(pc, phase, PhaseGroupsWith(pc, phase, info));
  }

  function ClustersOf(infos: seq<ClusterInfo>): (cs: seq<Cluster>)
    ensures |cs| == |infos|
    ensures forall k :: 0 <= k < |infos| ==> cs[k] == infos[k].cluster
  {
    seq(|infos|, k requires 0 <= k < |infos| => infos[k].cluster)
  }

  /** The clusters in order, each under the phase chosen for it. */
  function GroupByPhase(infos: seq<ClusterInfo>, phases: seq<Option<string>>): (pc: PhaseClusters)
    requires |phases| == |infos|
    ensures UnionOf(pc, WsIds) == Union(ClustersOf(infos))
    decreases |infos|
  {
    if |infos| == 0 then []
    else
      var n := |infos| - 1;
      assert ClustersOf(infos)[..n] == ClustersOf(infos[..n]);
      AddCluster(GroupByPhase(infos[..n], phases[..n]), phases[n], infos[n])
  }

  /** The phases as written: `None` where the mapping has no next phase. */
  function PhasesAsWritten(infos: seq<ClusterInfo>, current: Option<string>, next: Option<string>)
    : (ps: seq<Option<string>>)
    ensures |ps| == |infos|
    ensures forall k :: 0 <= k < |infos| ==> ps[k] == ClusterPhaseAsWritten(infos[k], current, next)
  {
    seq(|infos|, k requires 0 <= k < |infos| => ClusterPhaseAsWritten(infos[k], current, next))
  }

  /** The corrected phases: always a phase. */
  function Phases(infos: seq<ClusterInfo>, current: Option<string>, next: Option<string>)
    : (ps: seq<Option<string>>)
    ensures |ps| == |infos|
    ensures forall k :: 0 <= k < |infos| ==> ps[k] == Some(ClusterPhase(infos[k], current, next))
  {
    seq(|infos|, k requires 0 <= k < |infos| => Some(ClusterPhase(infos[k], current, next)))
  }

  /** The grouping's phases are among the phases given. */
  lemma {:induction false} GroupByPhaseKeys(infos: seq<ClusterInfo>, phases: seq<Option<string>>,
                                            ok: Option<string> -> bool)
    requires |phases| == |infos|
    requires forall k :: 0 <= k < |phases| ==> ok(phases[k])
    ensures forall p :: p in Keys(GroupByPhase(infos, phases)) ==> ok(p)
    decreases |infos|
  {
    if |infos| > 0 {
      var n := |infos| - 1;
      assert forall k :: 0 <= k < n ==> phases[..n][k] == phases[k];
      GroupByPhaseKeys(infos[..n], phases[..n], ok);
      AddClusterKeys(GroupByPhase(infos[..n], phases[..n]), phases[n], infos[n]);
    }
  }

  // ---------------------------------------------------------------------
  // _consolidate_clusters

  predicate IsStandalone(d: WsData) {
    d.total >= StandaloneMinimum
  }

  /** All clusters and task counts of the groups, in order. */
  function Merged(m: WsMap): (d: WsData)
    ensures DataIds(d) == WsIds(m)
    decreases |m|
  {
    if |m| == 0 then NoData else Append(m[0].1, Merged(m[1..]))
  }

  function TotalOf(e: (string, WsData)): int {
    e.1.total
  }

  /** The first pass as written: large groups stay, the small ones are
      merged and stored under `general`, replacing a large `general` group
      if there was one. */
  function FirstPassAsWritten(m: WsMap): WsMap {
    var large := Where(m, IsStandalone, true);
    var small := Where(m, IsStandalone, false);
    var merged := Merged(small);
    if |small| > 0 && |merged.clusters| > 0 then Put(large, General, merged) else large
  }

  /** The cap as written: the six largest stay, and the rest, except a
      `general` group among them, are merged into `general`. */
  function CapAsWritten(c: WsMap): (r: WsMap)
    requires |c| > MaxWorkstreams
    ensures |r| <= MaxWorkstreams
  {
    var sorted := SortDesc(c, TotalOf);
    var keep := sorted[..KeptWhenCapped];
    var rest := sorted[KeptWhenCapped..];
    var g := GetOr(keep, General, NoData);
    Put(keep, General, Append(g, Merged(WithoutKey(rest, General))))
  }

  function ConsolidateAsWritten(m: WsMap): (r: WsMap)
    ensures |r| <= MaxWorkstreams
  {
    var c := FirstPassAsWritten(m);
    if |c| > MaxWorkstreams then CapAsWritten(c) else c
  }

  /** The first pass as written never invents a task. */
  lemma FirstPassAsWrittenWithin(m: WsMap)
    ensures WsIds(FirstPassAsWritten(m)) <= WsIds(m)
  {
    var large := Where(m, IsStandalone, true);
    var small := Where(m, IsStandalone, false);
    WherePartition(m, IsStandalone, DataIds);
    UnionOfPutWithin(large, General, Merged(small), DataIds);
  }

  /** The cap as written never invents a task. */
  lemma CapAsWrittenWithin(c: WsMap)
    requires |c| > MaxWorkstreams
    ensures WsIds(CapAsWritten(c)) <= WsIds(c)
  {
    var sorted := SortDesc(c, TotalOf);
    var keep := sorted[..KeptWhenCapped];
    var rest := sorted[KeptWhenCapped..];
    var g := GetOr(keep, General, NoData);
    var others := WithoutKey(rest, General);
    SortKeepsIds(c);
    assert sorted == keep + rest;
    UnionOfConcat(keep, rest, DataIds);
    if HasKey(keep, General) {
      GetInUnion(keep, General, DataIds);
    }
    forall e | e in others ensures e in rest {
      var j :| 0 <= j < |others| && others[j] == e;
    }
    UnionOfCovered(others, rest, DataIds);
    UnionOfPutWithin(keep, General, Append(g, Merged(others)), DataIds);
  }

  /** Consolidation as written never invents a task; it may lose some. */
  lemma ConsolidateAsWrittenWithin(m: WsMap)
    ensures WsIds(ConsolidateAsWritten(m)) <= WsIds(m)
  {
    FirstPassAsWrittenWithin(m);
    var c := FirstPassAsWritten(m);
    if |c| > MaxWorkstreams {
      CapAsWrittenWithin(c);
    }
  }

  /** The corrected first pass: the small groups join any large `general`
      group instead of replacing it. */
  function FirstPass(m: WsMap): (c: WsMap)
    ensures WsIds(c) == WsIds(m)
  {
    var large := Where(m, IsStandalone, true);
    var small := Where(m, IsStandalone, false);
    var merged := Merged(small);
    WherePartition(m, IsStandalone, DataIds);
    if |small| > 0 && |merged.clusters| > 0 then
      var g := GetOr(large, General, NoData);
      assert WsIds(Put(large, General, Append(g, merged))) == WsIds(large) + WsIds(small) by {
        UnionOfPut(large, General, Append(g, merged), DataIds);
        if HasKey(large, General) {
          GetInUnion(large, General, DataIds);
        }
      }
      Put(large, General, Append(g, merged))
    else
      large
  }

  /** The corrected cap: everything outside the six largest is merged into
      `general`, a `general` group among them included. */
  function Cap(c: WsMap): (r: WsMap)
    requires |c| > MaxWorkstreams
    ensures |r| <= MaxWorkstreams
    ensures WsIds(r) == WsIds(c)
  {
    var sorted := SortDesc(c, TotalOf);
    var keep := sorted[..KeptWhenCapped];
    var rest := sorted[KeptWhenCapped..];
    var g := GetOr(keep, General, NoData);
    SortKeepsIds(c);
    assert WsIds(Put(keep, General, Append(g, Merged(rest)))) == WsIds(keep) + WsIds(rest) by {
      UnionOfPut(keep, General, Append(g, Merged(rest)), DataIds);
      if HasKey(keep, General) {
        GetInUnion(keep, General, DataIds);
      }
    }
    assert sorted == keep + rest;
    UnionOfConcat(keep, rest, DataIds);
    Put(keep, General, Append(g, Merged(rest)))
  }

  lemma SortKeepsIds(c: WsMap)
    ensures WsIds(SortDesc(c, TotalOf)) == WsIds(c)
  {
    var sorted := SortDesc(c, TotalOf);
    forall e | e in sorted ensures e in c {
      assert e in multiset(sorted);
    }
    forall e | e in c ensures e in sorted {
      assert e in multiset(c);
    }
    UnionOfSameEntries(sorted, c, DataIds);
  }

  /** `_consolidate_clusters`, corrected: at most seven workstreams, and
      together they hold exactly the tasks of the groups given. */
  function Consolidate(m: WsMap): (r: WsMap)
    ensures |r| <= MaxWorkstreams
    ensures WsIds(r) == WsIds(m)
  {
    var c := FirstPass(m);
    if |c| > MaxWorkstreams then Cap(c) else c
  }

  /** With no small group and no more than seven groups nothing changes. */
  lemma ConsolidateKeepsLargeGroups(m: WsMap)
    requires forall j :: 0 <= j < |m| ==> IsStandalone(m[j].1)
    requires |m| <= MaxWorkstreams
    ensures Consolidate(m) == m && ConsolidateAsWritten(m) == m
  {
    AllWhere(m);
    NoneWhere(m);
  }

  lemma {:induction false} AllWhere(m: WsMap)
    requires forall j :: 0 <= j < |m| ==> IsStandalone(m[j].1)
    ensures Where(m, IsStandalone, true) == m
    decreases |m|
  {
    if |m| > 0 {
      AllWhere(m[1..]);
      assert m == [m[0]] + m[1..];
    }
  }

  lemma NoneWhere(m: WsMap)
    requires forall j :: 0 <= j < |m| ==> IsStandalone(m[j].1)
    ensures Where(m, IsStandalone, false) == []
  {
  }

  // ---------------------------------------------------------------------
  // Workstream structure

  /** A workstream root and the tasks it will hold. */
  datatype Workstream = Workstream(phase: Option<string>, key: string, tasks: seq<Task>, title: string)

  /** `workstream_mappings` and `task_assignments`. */
  datatype Structure = Structure(workstreams: OMap<string, Workstream>, assignments: OMap<string, string>)

  /** Python's f-string rendering of the phase, `None` included. */
  function PhaseLabel(p: Option<string>): string {
    match p
    case Some(s) => s
    case None => "None"
  }

  /** `f"root_{phase_id}_{ws_key}"`, which is always a workstream-root id. */
  function WorkstreamId(p: Option<string>, ws: string): (id: string)
    ensures IsRootId(id)
  {
    "root_" + PhaseLabel(p) + "_" + ws
  }

  const WorkstreamTitles: seq<(string, string)> := [
    ("authentication", "Authentication & User Management"),
    ("quote_calculator", "Quote Calculator System"),
    ("dashboard", "Dashboard Features"),
    ("api_development", "API Development"),
    ("database", "Database Architecture"),
    ("ui_development", "UI Components & Pages"),
    ("testing", "Testing Framework"),
    ("deployment", "Deployment & DevOps"),
    ("general", "General Tasks")
  ]

  /** `_get_workstream_title`: the table's title, else the key with
      underscores turned into spaces and title-cased. */
  function WorkstreamTitle(ws: string): (t: string)
    ensures !HasKey(WorkstreamTitles, ws) ==> Lower(t) == Lower(ReplaceChar(ws, '_', ' '))
  {
    if HasKey(WorkstreamTitles, ws) then Get(WorkstreamTitles, ws)
    else
      TitleKeepsLetters(ReplaceChar(ws, '_', ' '), false);
      Title(ReplaceChar(ws, '_', ' '))
  }

  /** The tasks of a list of clusters, cluster by cluster, each in table order. */
  function ClusterRows(rows: seq<Task>, cs: seq<Cluster>): (r: seq<Task>)
    ensures forall t :: t in r <==> t in rows && t.id in Union(cs)
    decreases |cs|
  {
    if |cs| == 0 then []
    else ClusterRows(rows, cs[..|cs| - 1]) + MemberRows(rows, cs[|cs| - 1].members)
  }

  /** `task_assignments[task_id] = workstream_id` for each task. */
  function AssignIds(a: OMap<string, string>, ts: seq<Task>, wsId: string): (r: OMap<string, string>)
    ensures forall x :: x in Keys(r) <==> x in Keys(a) || x in IdSet(ts)
    decreases |ts|
  {
    if |ts| == 0 then a
    else
      PutKeys(a, ts[0].id, wsId);
      assert IdSet(ts) == {ts[0].id} + IdSet(ts[1..]) by {
        assert ts == [ts[0]] + ts[1..];
      }
      AssignIds(Put(a, ts[0].id, wsId), ts[1..], wsId)
  }

  /** One workstream per consolidated group of a phase, in order. */
  function AddWorkstreams(st: Structure, phase: Option<string>, groups: WsMap, rows: seq<Task>): (r: Structure)
    ensures forall x :: x in Keys(r.assignments) <==>
              x in Keys(st.assignments) || (x in WsIds(groups) && x in IdSet(rows))
    decreases |groups|
  {
    if |groups| == 0 then st
    else
      var ws := groups[0].0;
      var id := WorkstreamId(phase, ws);
      var ts := ClusterRows(rows, groups[0].1.clusters);
      assert forall x :: x in IdSet(ts) <==> x in DataIds(groups[0].1) && x in IdSet(rows);
      var st2 := Structure(Put(st.workstreams, id, Workstream(phase, ws, ts, WorkstreamTitle(ws))),
                           AssignIds(st.assignments, ts, id));
      AddWorkstreams(st2, phase, groups[1..], rows)
  }

  /** Every workstream's phase satisfies `ok`. */
  ghost predicate PhasesSatisfy(ws: OMap<string, Workstream>, ok: Option<string> -> bool) {
    forall j :: 0 <= j < |ws| ==> ok(ws[j].1.phase)
  }

  /** The workstreams of a phase carry that phase. */
  lemma {:induction false} AddWorkstreamsPhases(st: Structure, phase: Option<string>, groups: WsMap,
                                                rows: seq<Task>, ok: Option<string> -> bool)
    requires PhasesSatisfy(st.workstreams, ok) && ok(phase)
    ensures PhasesSatisfy(AddWorkstreams(st, phase, groups, rows).workstreams, ok)
    decreases |groups|
  {
    if |groups| > 0 {
      var ws := groups[0].0;
      var id := WorkstreamId(phase, ws);
      var ts := ClusterRows(rows, groups[0].1.clusters);
      var w := Workstream(phase, ws, ts, WorkstreamTitle(ws));
      var m := st.workstreams;
      var r := Put(m, id, w);
      PutEntries(m, id, w);
      forall j | 0 <= j < |r| ensures ok(r[j].1.phase) {
        if r[j] != (id, w) {
          var i :| 0 <= i < |m| && m[i] == r[j];
        }
      }
      var st2 := Structure(r, AssignIds(st.assignments, ts, id));
      assert AddWorkstreams(st, phase, groups, rows) == AddWorkstreams(st2, phase, groups[1..], rows);
      AddWorkstreamsPhases(st2, phase, groups[1..], rows, ok);
    }
  }

  /** Every workstream carries one of the grouping's phases. */
  lemma {:induction false} AddPhasesPhases(st: Structure, pc: PhaseClusters, rows: seq<Task>,
                                           consolidate: WsMap -> WsMap, ok: Option<string> -> bool)
    requires PhasesSatisfy(st.workstreams, ok)
    requires forall p :: p in Keys(pc) ==> ok(p)
    ensures PhasesSatisfy(AddPhases(st, pc, rows, consolidate).workstreams, ok)
    decreases |pc|
  {
    if |pc| > 0 {
      assert Keys(pc)[0] == pc[0].0;
      forall p | p in Keys(pc[1..]) ensures ok(p) {
        var i :| 0 <= i < |pc[1..]| && Keys(pc[1..])[i] == p;
        assert Keys(pc)[i + 1] == p;
      }
      var st2 := AddWorkstreams(st, pc[0].0, consolidate(pc[0].1), rows);
      AddWorkstreamsPhases(st, pc[0].0, consolidate(pc[0].1), rows, ok);
      AddPhasesPhases(st2, pc[1..], rows, consolidate, ok);
    }
  }

  /** The tasks the phases' workstreams will hold, under a consolidation. */
  function PlannedIds(pc: PhaseClusters, consolidate: WsMap -> WsMap): set<string>
    decreases |pc|
  {
    if |pc| == 0 then {} else WsIds(consolidate(pc[0].1)) + PlannedIds(pc[1..], consolidate)
  }

  /** Every phase, consolidated, in order. */
  function AddPhases(st: Structure, pc: PhaseClusters, rows: seq<Task>, consolidate: WsMap -> WsMap): (r: Structure)
    ensures forall x :: x in Keys(r.assignments) <==>
              x in Keys(st.assignments) || (x in PlannedIds(pc, consolidate) && x in IdSet(rows))
    decreases |pc|
  {
    if |pc| == 0 then st
    else AddPhases(AddWorkstreams(st, pc[0].0, consolidate(pc[0].1), rows), pc[1..], rows, consolidate)
  }

  /** The corrected consolidation keeps every task of every phase. */
  lemma {:induction false} PlannedIdsConsolidated(pc: PhaseClusters)
    ensures PlannedIds(pc, Consolidate) == UnionOf(pc, WsIds)
    decreases |pc|
  {
    if |pc| > 0 {
      PlannedIdsConsolidated(pc[1..]);
    }
  }

  /** The consolidation as written plans only tasks of the phases. */
  lemma {:induction false} PlannedIdsAsWrittenWithin(pc: PhaseClusters)
    ensures PlannedIds(pc, ConsolidateAsWritten) <= UnionOf(pc, WsIds)
    decreases |pc|
  {
    if |pc| > 0 {
      ConsolidateAsWrittenWithin(pc[0].1);
      PlannedIdsAsWrittenWithin(pc[1..]);
    }
  }

  /** The analysis of every cluster. */
  function Infos(rel: Relations, cs: seq<Cluster>): (infos: seq<ClusterInfo>)
    requires forall k :: 0 <= k < |cs| ==> cs[k].members != {} && cs[k].members <= IdSet(rel.rows)
    ensures |infos| == |cs|
    ensures forall k :: 0 <= k < |cs| ==> infos[k] == Analyze(rel, cs[k])
    ensures ClustersOf(infos) == cs
  {
    seq(|cs|, k requires 0 <= k < |cs| => Analyze(rel, cs[k]))
  }

  /** The clusters of a relationship analysis are non-empty sets of ids
      from the table. */
  lemma ClustersFromTable(rel: Relations)
    requires rel.tasks == StoreOf(rel.rows)
    ensures forall k :: 0 <= k < |BuildClusters(rel)| ==>
              BuildClusters(rel)[k].members != {} && BuildClusters(rel)[k].members <= IdSet(rel.rows)
    ensures Union(BuildClusters(rel)) == RegularIds(rel)
  {
    BuildClustersGood(rel);
  }

  /** `_analyze_clusters` over the clusters of a table. */
  function ClusterInfos(rel: Relations): (infos: seq<ClusterInfo>)
    requires rel.tasks == StoreOf(rel.rows)
    ensures ClustersOf(infos) == BuildClusters(rel)
  {
    ClustersFromTable(rel);
    Infos(rel, BuildClusters(rel))
  }

  /** The clusters grouped by the phases as written. */
  function PhaseClustersAsWritten(rel: Relations, current: Option<string>, next: Option<string>): PhaseClusters
    requires rel.tasks == StoreOf(rel.rows)
  {
    var infos := ClusterInfos(rel);
    GroupByPhase(infos, PhasesAsWritten(infos, current, next))
  }

  /** `create_workstream_structure` as written; `None` where the analysis
      raises on a malformed dependency list. Only regular tasks of the table
      are assigned, though consolidation may lose some, and every
      workstream sits in the foundation, the current or the next phase,
      which is `None` in the last phase. */
  function WorkstreamStructureAsWritten(rows: seq<Task>, current: Option<string>, next: Option<string>)
    : (r: Option<Structure>)
    ensures r.None? <==> BuildRelations(rows).None?
    ensures r.Some? ==> forall x :: x in Keys(r.value.assignments) ==> x in IdSet(rows) && Regular(x)
    ensures r.Some? ==> forall j :: 0 <= j < |r.value.workstreams| ==>
                          r.value.workstreams[j].1.phase in {Some(Phase1), current, next}
  {
    match BuildRelations(rows)
    case None => None
    case Some(rel) =>
      var pc := PhaseClustersAsWritten(rel, current, next);
      AsWrittenGroupsRegular(rel, current, next);
      AsWrittenGroupPhases(rel, current, next);
      var ok := (p: Option<string>) => p in {Some(Phase1), current, next};
      AddPhasesPhases(Structure([], []), pc, rows, ConsolidateAsWritten, ok);
      Some(AddPhases(Structure([], []), pc, rows, ConsolidateAsWritten))
  }

  /** The tasks planned under the consolidation as written are regular. */
  lemma AsWrittenGroupsRegular(rel: Relations, current: Option<string>, next: Option<string>)
    requires rel.tasks == StoreOf(rel.rows)
    ensures var pc := PhaseClustersAsWritten(rel, current, next);
            forall x :: x in PlannedIds(pc, ConsolidateAsWritten) ==> Regular(x)
  {
    var pc := PhaseClustersAsWritten(rel, current, next);
    ClustersFromTable(rel);
    PlannedIdsAsWrittenWithin(pc);
    assert UnionOf(pc, WsIds) == RegularIds(rel);
  }

  /** Each cluster goes to the foundation, the current or the next phase. */
  lemma AsWrittenGroupPhases(rel: Relations, current: Option<string>, next: Option<string>)
    requires rel.tasks == StoreOf(rel.rows)
    ensures forall p :: p in Keys(PhaseClustersAsWritten(rel, current, next)) ==> p in {Some(Phase1), current, next}
  {
    var infos := ClusterInfos(rel);
    var phases := PhasesAsWritten(infos, current, next);
    GroupByPhaseKeys(infos, phases, (p: Option<string>) => p in {Some(Phase1), current, next});
  }

  /** The workstreams as written hold exactly the table's tasks that the
      consolidation as written keeps. */
  lemma WorkstreamStructureAsWrittenAssigns(rows: seq<Task>, current: Option<string>, next: Option<string>)
    requires BuildRelations(rows).Some?
    ensures var st := WorkstreamStructureAsWritten(rows, current, next).value;
            var pc := PhaseClustersAsWritten(BuildRelations(rows).value, current, next);
            forall x :: x in Keys(st.assignments) <==> x in IdSet(rows) && x in PlannedIds(pc, ConsolidateAsWritten)
  {
  }

  /** The corrected structure: real phases, and consolidation that keeps
      every cluster. */
  function WorkstreamStructure(rows: seq<Task>, current: Option<string>, next: Option<string>)
    : (r: Option<Structure>)
    ensures r.None? <==> BuildRelations(rows).None?
  {
    match BuildRelations(rows)
    case None => None
    case Some(rel) =>
      var infos := ClusterInfos(rel);
      var pc := GroupByPhase(infos, Phases(infos, current, next));
      Some(AddPhases(Structure([], []), pc, rows, Consolidate))
  }

  /** No task is left behind: the tasks assigned to workstreams are exactly
      the tasks that are neither phases nor workstream roots. */
  lemma WorkstreamStructureCovers(rows: seq<Task>, current: Option<string>, next: Option<string>)
    requires BuildRelations(rows).Some?
    ensures var st := WorkstreamStructure(rows, current, next).value;
            forall x :: x in Keys(st.assignments) <==> x in IdSet(rows) && Regular(x)
  {
    var rel := BuildRelations(rows).value;
    ClustersFromTable(rel);
    var infos := ClusterInfos(rel);
    var pc := GroupByPhase(infos, Phases(infos, current, next));
    PlannedIdsConsolidated(pc);
    assert UnionOf(pc, WsIds) == RegularIds(rel);
  }

  /** The corrected structure puts every workstream in a real phase. */
  lemma WorkstreamStructurePhases(rows: seq<Task>, current: Option<string>, next: Option<string>)
    requires BuildRelations(rows).Some?
    requires current.None? || current.value in PhaseOrder
    requires next.None? || next.value in PhaseOrder
    ensures var ws := WorkstreamStructure(rows, current, next).value.workstreams;
            forall j :: 0 <= j < |ws| ==> ws[j].1.phase.Some? && ws[j].1.phase.value in PhaseOrder
  {
    var rel := BuildRelations(rows).value;
    var infos := ClusterInfos(rel);
    var phases := Phases(infos, current, next);
    var ok := (p: Option<string>) => p.Some? && p.value in PhaseOrder;
    GroupByPhaseKeys(infos, phases, ok);
    AddPhasesPhases(Structure([], []), GroupByPhase(infos, phases), rows, Consolidate, ok);
  }

  /** A dict of assignments into workstream roots: each task once, to a
      root id, and every workstream keyed by a root id. */
  ghost predicate RootKeyed(st: Structure) {
    UniqueKeys(st.assignments)
    && (forall j :: 0 <= j < |st.assignments| ==> IsRootId(st.assignments[j].1))
    && (forall j :: 0 <= j < |st.workstreams| ==> IsRootId(st.workstreams[j].0))
  }

  /** Assigning tasks to a root id keeps the assignments a dict into roots. */
  lemma {:induction false} AssignIdsRootKeyed(a: OMap<string, string>, ts: seq<Task>, wsId: string)
    requires UniqueKeys(a) && IsRootId(wsId)
    requires forall j :: 0 <= j < |a| ==> IsRootId(a[j].1)
    ensures var r := AssignIds(a, ts, wsId);
            UniqueKeys(r) && forall j :: 0 <= j < |r| ==> IsRootId(r[j].1)
    decreases |ts|
  {
    if |ts| > 0 {
      var a2 := Put(a, ts[0].id, wsId);
      PutUnique(a, ts[0].id, wsId);
      PutEntries(a, ts[0].id, wsId);
      forall j | 0 <= j < |a2| ensures IsRootId(a2[j].1) {
        if a2[j] != (ts[0].id, wsId) {
          var i :| 0 <= i < |a| && a[i] == a2[j];
        }
      }
      AssignIdsRootKeyed(a2, ts[1..], wsId);
    }
  }

  /** The workstreams of one phase keep the structure keyed by roots. */
  lemma {:induction false} AddWorkstreamsRootKeyed(st: Structure, phase: Option<string>, groups: WsMap,
                                                   rows: seq<Task>)
    requires RootKeyed(st)
    ensures RootKeyed(AddWorkstreams(st, phase, groups, rows))
    decreases |groups|
  {
    if |groups| > 0 {
      var ws := groups[0].0;
      var id := WorkstreamId(phase, ws);
      var ts := ClusterRows(rows, groups[0].1.clusters);
      var w := Workstream(phase, ws, ts, WorkstreamTitle(ws));
      var m := st.workstreams;
      var r := Put(m, id, w);
      PutEntries(m, id, w);
      forall j | 0 <= j < |r| ensures IsRootId(r[j].0) {
        if r[j] != (id, w) {
          var i :| 0 <= i < |m| && m[i] == r[j];
        }
      }
      AssignIdsRootKeyed(st.assignments, ts, id);
      var st2 := Structure(r, AssignIds(st.assignments, ts, id));
      assert AddWorkstreams(st, phase, groups, rows) == AddWorkstreams(st2, phase, groups[1..], rows);
      AddWorkstreamsRootKeyed(st2, phase, groups[1..], rows);
    }
  }

  /** Every phase's workstreams keep the structure keyed by roots. */
  lemma {:induction false} AddPhasesRootKeyed(st: Structure, pc: PhaseClusters, rows: seq<Task>,
                                              consolidate: WsMap -> WsMap)
    requires RootKeyed(st)
    ensures RootKeyed(AddPhases(st, pc, rows, consolidate))
    decreases |pc|
  {
    if |pc| > 0 {
      AddWorkstreamsRootKeyed(st, pc[0].0, consolidate(pc[0].1), rows);
      AddPhasesRootKeyed(AddWorkstreams(st, pc[0].0, consolidate(pc[0].1), rows), pc[1..], rows, consolidate);
    }
  }

  /** Both structures are dicts into workstream roots, as
      `task_assignments` and `workstream_mappings` are. */
  lemma StructuresRootKeyed(rows: seq<Task>, current: Option<string>, next: Option<string>)
    ensures var r := WorkstreamStructureAsWritten(rows, current, next); r.Some? ==> RootKeyed(r.value)
    ensures var r := WorkstreamStructure(rows, current, next); r.Some? ==> RootKeyed(r.value)
  {
    if BuildRelations(rows).Some? {
      var rel := BuildRelations(rows).value;
      var infos := ClusterInfos(rel);
      AddPhasesRootKeyed(Structure([], []), PhaseClustersAsWritten(rel, current, next), rows, ConsolidateAsWritten);
      AddPhasesRootKeyed(Structure([], []), GroupByPhase(infos, Phases(infos, current, next)), rows, Consolidate);
    }
  }

  // ---------------------------------------------------------------------
  // What the consolidation as written loses

  /** A phase with a large `general` group (five tasks no keyword matched)
      and a small `testing` group. */
  function LargeGeneralPhase(): WsMap {
    [("general", WsData([Cluster("cluster_g1", {"g1", "g2", "g3", "g4", "g5"})], 5)),
     ("testing", WsData([Cluster("cluster_t1", {"t1"})], 1))]
  }

  /** The small-group merge is stored over the large `general` group: its
      tasks are in no workstream. The corrected consolidation keeps them. */
  lemma AsWrittenOverwritesGeneral()
    ensures "g1" in WsIds(LargeGeneralPhase())
    ensures "g1" !in WsIds(ConsolidateAsWritten(LargeGeneralPhase()))
    ensures "g1" in WsIds(Consolidate(LargeGeneralPhase()))
  {
    var m := LargeGeneralPhase();
    assert m[1..][1..] == [];
    assert Where(m[1..], IsStandalone, true) == [];
    assert Where(m, IsStandalone, true) == [m[0]];
    assert Where(m[1..], IsStandalone, false) == [m[1]];
    assert Where(m, IsStandalone, false) == [m[1]];
    assert Merged([m[1]]) == Append(m[1].1, NoData);
    assert FirstPassAsWritten(m) == [("general", Append(m[1].1, NoData))];
  }

  /** A phase with eight large groups, `general` the smallest. */
  function CrowdedPhase(): WsMap {
    [("authentication", WsData([Cluster("cluster_au1", {"au1", "au2", "au3", "au4", "au5", "au6"})], 6)),
      ("quote_calculator", WsData([Cluster("cluster_qc1", {"qc1", "qc2", "qc3", "qc4", "qc5", "qc6"})], 6)),
      ("dashboard", WsData([Cluster("cluster_da1", {"da1", "da2", "da3", "da4", "da5", "da6"})], 6)),
      ("api_development", WsData([Cluster("cluster_ap1", {"ap1", "ap2", "ap3", "ap4", "ap5", "ap6"})], 6)),
      ("database", WsData([Cluster("cluster_db1", {"db1", "db2", "db3", "db4", "db5", "db6"})], 6)),
      ("ui_development", WsData([Cluster("cluster_ui1", {"ui1", "ui2", "ui3", "ui4", "ui5", "ui6"})], 6)),
      ("testing", WsData([Cluster("cluster_te1", {"te1", "te2", "te3", "te4", "te5", "te6"})], 6)),
      ("general", WsData([Cluster("cluster_g1", {"g1", "g2", "g3", "g4", "g5"})], 5))]
  }

  lemma FirstPassOfLarge(m: WsMap)
    requires forall j :: 0 <= j < |m| ==> IsStandalone(m[j].1)
    ensures FirstPassAsWritten(m) == m
  {
    AllWhere(m);
    NoneWhere(m);
  }

  lemma CapAsWrittenOfSorted(m: WsMap)
    requires |m| == 8 && SortedDesc(m, TotalOf)
    requires m[7].0 == General && forall j :: 0 <= j < 7 ==> m[j].0 != General
    ensures CapAsWritten(m) == m[..KeptWhenCapped] + [(General, Append(NoData, Merged([m[6]])))]
  {
    SortDescOfSorted(m, TotalOf);
    WithoutGeneralPair(m[KeptWhenCapped..], m[6], m[7]);
    var keep := m[..KeptWhenCapped];
    assert !HasKey(keep, General);
  }

  lemma WithoutGeneralPair(rest: WsMap, a: (string, WsData), b: (string, WsData))
    requires rest == [a, b] && a.0 != General && b.0 == General
    ensures WithoutKey(rest, General) == [a]
  {
    assert rest[1..][1..] == [];
    assert WithoutKey(rest[1..], General) == [];
  }

  /** Eight large groups sorted by size, `general` last and the only one
      holding `x`. */
  ghost predicate SmallestGeneralHolds(m: WsMap, x: string) {
    |m| == 8 && SortedDesc(m, TotalOf)
    && (forall j :: 0 <= j < |m| ==> IsStandalone(m[j].1))
    && m[7].0 == General && (forall j :: 0 <= j < 7 ==> m[j].0 != General)
    && x in DataIds(m[7].1) && forall j :: 0 <= j < 7 ==> x !in DataIds(m[j].1)
  }

  /** The cap as written: with eight large groups, `general` the smallest,
      the tasks found only in `general` end up in no workstream, while the
      corrected cap keeps them. */
  lemma CapDropsSmallestGeneral(m: WsMap, x: string)
    requires SmallestGeneralHolds(m, x)
    ensures x in WsIds(m)
    ensures x !in WsIds(ConsolidateAsWritten(m))
    ensures x in WsIds(Consolidate(m))
  {
    UnionOfMember(m, DataIds, x);
    assert m[7] in m;
    ConsolidateCrowded(m);
    CrowdedLoses(m, x);
  }

  /** With eight large groups sorted by size, `general` last, the
      consolidation as written keeps the six largest and merges only the
      seventh into `general`. */
  lemma ConsolidateCrowded(m: WsMap)
    requires |m| == 8 && SortedDesc(m, TotalOf)
    requires forall j :: 0 <= j < |m| ==> IsStandalone(m[j].1)
    requires m[7].0 == General && forall j :: 0 <= j < 7 ==> m[j].0 != General
    ensures ConsolidateAsWritten(m) == m[..KeptWhenCapped] + [(General, Append(NoData, Merged([m[6]])))]
  {
    FirstPassOfLarge(m);
    CapAsWrittenOfSorted(m);
  }

  lemma CrowdedLoses(m: WsMap, x: string)
    requires |m| == 8 && forall j :: 0 <= j < 7 ==> x !in DataIds(m[j].1)
    requires ConsolidateAsWritten(m) == m[..KeptWhenCapped] + [(General, Append(NoData, Merged([m[6]])))]
    ensures x !in WsIds(ConsolidateAsWritten(m))
  {
    var keep := m[..KeptWhenCapped];
    var merged := Append(NoData, Merged([m[6]]));
    MissingFromPrefix(m, x);
    assert x !in DataIds(merged) by {
      assert [m[6]][1..] == [];
      assert x !in DataIds(m[6].1);
    }
    UnionOfConcat(keep, [(General, merged)], DataIds);
    assert [(General, merged)][1..] == [];
  }

  lemma MissingFromPrefix(m: WsMap, x: string)
    requires |m| >= KeptWhenCapped
    requires forall j :: 0 <= j < KeptWhenCapped ==> x !in DataIds(m[j].1)
    ensures x !in WsIds(m[..KeptWhenCapped])
  {
    UnionOfMember(m[..KeptWhenCapped], DataIds, x);
  }

  /** The crowded phase meets the conditions of `CapDropsSmallestGeneral`. */
  lemma CrowdedPhaseShape()
    ensures |CrowdedPhase()| == 8 && SortedDesc(CrowdedPhase(), TotalOf)
    ensures forall j :: 0 <= j < 8 ==> IsStandalone(CrowdedPhase()[j].1)
    ensures CrowdedPhase()[7].0 == General && forall j :: 0 <= j < 7 ==> CrowdedPhase()[j].0 != General
  {
  }

  lemma CrowdedPhaseGeneralOnly()
    ensures "g1" in DataIds(CrowdedPhase()[7].1)
    ensures forall j :: 0 <= j < 7 ==> "g1" !in DataIds(CrowdedPhase()[j].1)
  {
  }

  lemma CrowdedPhaseFits()
    ensures SmallestGeneralHolds(CrowdedPhase(), "g1")
  {
    CrowdedPhaseShape();
    CrowdedPhaseGeneralOnly();
  }

  /** A phase with eight large groups, `general` the smallest. */
  lemma AsWrittenCapDropsGeneral(m: WsMap)
    requires m == CrowdedPhase()
    ensures "g1" in WsIds(m)
    ensures "g1" !in WsIds(ConsolidateAsWritten(m))
    ensures "g1" in WsIds(Consolidate(m))
  {
    CrowdedPhaseFits();
    CapDropsSmallestGeneral(m, "g1");
  }
}
