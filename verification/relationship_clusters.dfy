/** `TaskRelationshipAnalyzer`, second half: what `_analyze_clusters` says
    about each cluster (its workstream type, its most senior task, its
    status counts), and the phase `_assign_clusters_to_phases` gives it. */
module RelationshipClusters {
  import opened Wrappers
  import opened Text
  import opened Tasks
  import opened Ranking
  import opened RelationshipGraph

  /** A cluster's task rows, in table order. */
  function MemberRows(rows: seq<Task>, members: set<string>): (r: seq<Task>)
    ensures forall t :: t in r <==> t in rows && t.id in members
    ensures |r| <= |rows|
    decreases |rows|
  {
    if |rows| == 0 then []
    else
      var prefix := rows[..|rows| - 1];
      var t := rows[|rows| - 1];
      assert rows == prefix + [t];
      MemberRows(prefix, members) + (if t.id in members then [t] else [])
  }

  /** With distinct ids there is one row per member id present. */
  lemma {:induction false} MemberRowsCount(rows: seq<Task>, members: set<string>)
    requires DistinctIds(rows)
    ensures |MemberRows(rows, members)| == |members * IdSet(rows)|
    decreases |rows|
  {
    if |rows| == 0 {
      assert members * IdSet(rows) == {};
    } else {
      var prefix := rows[..|rows| - 1];
      var id := rows[|rows| - 1].id;
      DistinctIdsPrefix(rows);
      MemberRowsCount(prefix, members);
      MemberRowsLast(rows, members);
      IdSetLast(rows);
      MeetCount(members, IdSet(prefix), id);
    }
  }

  lemma DistinctIdsPrefix(rows: seq<Task>)
    requires DistinctIds(rows) && |rows| > 0
    ensures DistinctIds(rows[..|rows| - 1])
  {
    var prefix := rows[..|rows| - 1];
    forall a, b | 0 <= a < b < |prefix| ensures prefix[a].id != prefix[b].id {
      assert prefix[a] == rows[a] && prefix[b] == rows[b];
    }
  }

  lemma MemberRowsLast(rows: seq<Task>, members: set<string>)
    requires |rows| > 0
    ensures |MemberRows(rows, members)| ==
              |MemberRows(rows[..|rows| - 1], members)| + (if rows[|rows| - 1].id in members then 1 else 0)
  {
  }

  /** The last row adds its id, which is new when the ids are distinct. */
  lemma IdSetLast(rows: seq<Task>)
    requires DistinctIds(rows) && |rows| > 0
    ensures IdSet(rows) == IdSet(rows[..|rows| - 1]) + {rows[|rows| - 1].id}
    ensures rows[|rows| - 1].id !in IdSet(rows[..|rows| - 1])
  {
    var prefix := rows[..|rows| - 1];
    assert rows == prefix + [rows[|rows| - 1]];
  }

  lemma MeetCount(members: set<string>, ids: set<string>, id: string)
    requires id !in ids
    ensures |members * (ids + {id})| == |members * ids| + (if id in members then 1 else 0)
  {
    if id in members {
      assert members * (ids + {id}) == members * ids + {id};
    } else {
      assert members * (ids + {id}) == members * ids;
    }
  }

  // ---------------------------------------------------------------------
  // Workstream type

  /** `_determine_workstream_type`'s keyword table, in its order. */
  const WorkstreamPatterns: seq<(string, seq<string>)> := [
    ("authentication", ["auth", "login", "user", "profile", "session", "signup"]),
    ("quote_calculator", ["quote", "calculator", "pricing", "estimate"]),
    ("dashboard", ["dashboard", "admin", "management", "overview"]),
    ("api_development", ["api", "endpoint", "service", "backend"]),
    ("database", ["database", "schema", "table", "migration"]),
    ("ui_development", ["ui", "component", "page", "interface", "frontend"]),
    ("testing", ["test", "testing", "quality", "qa"]),
    ("deployment", ["deploy", "deployment", "production", "ci", "cd"])
  ]

  const General := "general"

  /** `" {title} {description}"` for each task, concatenated. */
  function RawText(ts: seq<Task>): string
    decreases |ts|
  {
    if |ts| == 0 then ""
    else " " + ts[0].title + " " + ts[0].description + RawText(ts[1..])
  }

  /** The cluster's text, lower-cased. */
  function ClusterText(ts: seq<Task>): string {
    Lower(RawText(ts))
  }

  /** A type's score: every keyword present adds its occurrence count. */
  function Score(text: string, keywords: seq<string>): (n: nat)
    ensures n == 0 <==> !AnyIn(text, keywords)
    decreases |keywords|
  {
    if |keywords| == 0 then 0
    else
      var rest := Score(text, keywords[1..]);
      var here := if Contains(text, keywords[0]) then CountOf(text, keywords[0]) else 0;
      assert here > 0 <==> Contains(text, keywords[0]) by {
        CountPositiveIffContains(text, keywords[0]);
      }
      assert AnyIn(text, keywords) <==> Contains(text, keywords[0]) || AnyIn(text, keywords[1..]) by {
        assert keywords == [keywords[0]] + keywords[1..];
      }
      here + rest
  }

  function TypeScores(text: string): (scores: seq<int>)
    ensures |scores| == |WorkstreamPatterns|
    ensures forall i :: 0 <= i < |scores| ==> scores[i] == Score(text, WorkstreamPatterns[i].1)
  {
    seq(|WorkstreamPatterns|, i requires 0 <= i < |WorkstreamPatterns| => Score(text, WorkstreamPatterns[i].1))
  }

  /** The index of the winning type, if any type scored: the first type,
      in table order, with the largest score. The scores dictionary only
      holds types that scored, so this is the first such maximum. */
  function TypeChoice(text: string): (c: Option<nat>)
    ensures c.None? <==> forall i :: 0 <= i < |WorkstreamPatterns| ==> !AnyIn(text, WorkstreamPatterns[i].1)
    ensures c.Some? ==> c.value < |WorkstreamPatterns| && AnyIn(text, WorkstreamPatterns[c.value].1)
    ensures c.Some? ==> forall j :: 0 <= j < |WorkstreamPatterns| ==>
              Score(text, WorkstreamPatterns[j].1) <= Score(text, WorkstreamPatterns[c.value].1)
    ensures c.Some? ==> forall j :: 0 <= j < c.value ==>
              Score(text, WorkstreamPatterns[j].1) < Score(text, WorkstreamPatterns[c.value].1)
  {
    var scores := TypeScores(text);
    var i := FirstMax(scores);
    if scores[i] > 0 then Some(i) else None
  }

  /** The workstream type of a cluster's tasks, `general` when nothing scored. */
  function WorkstreamType(ts: seq<Task>): string {
    var c := TypeChoice(ClusterText(ts));
    if c.Some? then WorkstreamPatterns[c.value].0 else General
  }

  /** The type is `general` exactly when no keyword of any type occurs in
      the lower-cased text; otherwise it is one of the table's types. */
  lemma WorkstreamTypeGeneral(ts: seq<Task>)
    ensures WorkstreamType(ts) == General <==>
              forall i :: 0 <= i < |WorkstreamPatterns| ==> !AnyIn(ClusterText(ts), WorkstreamPatterns[i].1)
    ensures WorkstreamType(ts) != General ==>
              exists i :: 0 <= i < |WorkstreamPatterns| && WorkstreamType(ts) == WorkstreamPatterns[i].0
  {
    var c := TypeChoice(ClusterText(ts));
    if c.Some? {
      assert WorkstreamPatterns[c.value].0 != General;
    }
  }

  // ---------------------------------------------------------------------
  // Cluster root

  /** A cluster's ids, in table order (Python iterates the set). */
  function MemberIds(rows: seq<Task>, members: set<string>): (ids: seq<string>)
    ensures forall x :: x in ids <==> x in members && x in IdSet(rows)
  {
    var all := IdsOf(rows);
    assert forall x :: x in all <==> x in IdSet(rows) by {
      forall x ensures x in all <==> x in IdSet(rows) {
        if x in IdSet(rows) {
          var t :| t in rows && t.id == x;
          var i :| 0 <= i < |rows| && rows[i] == t;
          assert all[i] == x;
        }
      }
    }
    Filter(all, members)
  }

  /** Members with no parent recorded inside the cluster, in order. */
  function RootCandidates(rel: Relations, ids: seq<string>, members: set<string>): (c: seq<string>)
    ensures forall x :: x in c <==> x in ids && (x !in rel.parentOf || rel.parentOf[x] !in members)
    ensures |c| <= |ids|
    decreases |ids|
  {
    if |ids| == 0 then []
    else
      var x := ids[0];
      assert ids == [x] + ids[1..];
      (if x !in rel.parentOf || rel.parentOf[x] !in members then [x] else [])
        + RootCandidates(rel, ids[1..], members)
  }

  /** How many of a task's children lie inside the cluster. */
  function InClusterChildren(rel: Relations, r: string, members: set<string>): nat {
    |ChildrenOf(rel, r) * members|
  }

  function ChildCounts(rel: Relations, c: seq<string>, members: set<string>): (n: seq<int>)
    ensures |n| == |c|
    ensures forall i :: 0 <= i < |c| ==> n[i] == InClusterChildren(rel, c[i], members)
  {
    seq(|c|, i requires 0 <= i < |c| => InClusterChildren(rel, c[i], members))
  }

  /** `_find_cluster_root`: the one member without an in-cluster parent;
      among several, the first with the most in-cluster children; with
      none (a parent cycle), the least id. */
  function ClusterRoot(rel: Relations, members: set<string>): (root: string)
    requires members != {} && members <= IdSet(rel.rows)
    ensures root in members
  {
    var ids := MemberIds(rel.rows, members);
    var c := RootCandidates(rel, ids, members);
    assert |ids| > 0 by {
      var x :| x in members;
      assert x in ids;
    }
    if |c| == 0 then LexMin(ids)
    else if |c| == 1 then c[0]
    else c[FirstMax(ChildCounts(rel, c, members))]
  }

  /** With members lacking an in-cluster parent, the root is one of them
      and no other has more in-cluster children. */
  lemma ClusterRootCandidate(rel: Relations, members: set<string>)
    requires members != {} && members <= IdSet(rel.rows)
    requires |RootCandidates(rel, MemberIds(rel.rows, members), members)| > 0
    ensures ClusterRoot(rel, members) in RootCandidates(rel, MemberIds(rel.rows, members), members)
    ensures forall x :: x in RootCandidates(rel, MemberIds(rel.rows, members), members) ==>
              InClusterChildren(rel, x, members) <= InClusterChildren(rel, ClusterRoot(rel, members), members)
  {
    var c := RootCandidates(rel, MemberIds(rel.rows, members), members);
    var counts := ChildCounts(rel, c, members);
    var i := if |c| == 1 then 0 else FirstMax(counts);
    assert ClusterRoot(rel, members) == c[i];
    forall x | x in c ensures InClusterChildren(rel, x, members) <= InClusterChildren(rel, c[i], members) {
      var k :| 0 <= k < |c| && c[k] == x;
      assert counts[k] <= counts[i];
    }
  }

  /** Without such a member, every member's parent is in the cluster (the
      parent links form a cycle) and the root is the least id. */
  lemma ClusterRootOfCycle(rel: Relations, members: set<string>)
    requires members != {} && members <= IdSet(rel.rows)
    requires |RootCandidates(rel, MemberIds(rel.rows, members), members)| == 0
    ensures forall x :: x in members ==> x in rel.parentOf && rel.parentOf[x] in members
    ensures forall x :: x in members ==> LexLe(ClusterRoot(rel, members), x)
  {
    var ids := MemberIds(rel.rows, members);
    var c := RootCandidates(rel, ids, members);
    var root := ClusterRoot(rel, members);
    forall x | x in members ensures x in rel.parentOf && rel.parentOf[x] in members {
      assert x in ids;
    }
    forall x | x in members ensures LexLe(root, x) {
      assert x in ids;
      var k :| 0 <= k < |ids| && ids[k] == x;
    }
  }

  // ---------------------------------------------------------------------
  // Cluster analysis and phase

  /** One entry of `cluster_analysis`, with the cluster it describes. */
  datatype ClusterInfo = ClusterInfo(
    cluster: Cluster,
    size: nat,
    wsType: string,
    root: string,
    completed: nat,
    inProgress: nat)

  /** `_analyze_clusters` on one cluster. */
  function Analyze(rel: Relations, c: Cluster): (info: ClusterInfo)
    requires c.members != {} && c.members <= IdSet(rel.rows)
    ensures info.cluster == c && info.root in c.members
  {
    var ts := MemberRows(rel.rows, c.members);
    ClusterInfo(c, |c.members|, WorkstreamType(ts), ClusterRoot(rel, c.members),
                CountStatus(ts, "completed"), CountStatus(ts, "in_progress"))
  }

  /** With distinct ids the counts describe the members: `completed == size`
      (a completion rate of 1.0) exactly when every member is completed,
      and the completed and in-progress counts never exceed the size. */
  lemma AnalyzeCounts(rel: Relations, c: Cluster)
    requires c.members != {} && c.members <= IdSet(rel.rows) && DistinctIds(rel.rows)
    ensures var info := Analyze(rel, c);
            info.completed + info.inProgress <= info.size
            && (info.completed == info.size <==>
                  forall t :: t in rel.rows && t.id in c.members ==> t.status == "completed")
  {
    MemberCounts(rel.rows, c.members, MemberRows(rel.rows, c.members));
  }

  lemma MemberCounts(rows: seq<Task>, members: set<string>, ts: seq<Task>)
    requires members <= IdSet(rows) && DistinctIds(rows) && ts == MemberRows(rows, members)
    ensures |ts| == |members|
    ensures CountStatus(ts, "completed") + CountStatus(ts, "in_progress") <= |ts|
    ensures CountStatus(ts, "completed") == |ts| <==>
              forall t :: t in rows && t.id in members ==> t.status == "completed"
  {
    MemberRowsCount(rows, members);
    assert members * IdSet(rows) == members;
    CompletedPlusActive(ts);
    if CountStatus(ts, "completed") == |ts| {
      forall t | t in rows && t.id in members ensures t.status == "completed" {
        assert t in ts;
        var i :| 0 <= i < |ts| && ts[i] == t;
      }
    }
  }

  lemma {:induction false} CompletedPlusActive(ts: seq<Task>)
    ensures CountStatus(ts, "completed") + CountStatus(ts, "in_progress") <= |ts|
    decreases |ts|
  {
    if |ts| > 0 {
      CompletedPlusActive(ts[1..]);
    }
  }

  /** `_assign_clusters_to_phases` as written. The mapping always carries
      `current_phase` and `next_phase` keys, so the `.get` defaults never
      apply and a missing next phase comes through as `None`. */
  function ClusterPhaseAsWritten(info: ClusterInfo, current: Option<string>, next: Option<string>): Option<string> {
    if info.completed == info.size then Some(Phase1)
    else if info.inProgress > 0 then current
    else if info.completed > 0 then current
    else next
  }

  /** The corrected choice: a phase the mapping leaves out falls back to
      the defaults the code names. */
  function ClusterPhase(info: ClusterInfo, current: Option<string>, next: Option<string>): (p: string)
    ensures current.Some? && next.Some? ==> Some(p) == ClusterPhaseAsWritten(info, current, next)
    ensures ((current.None? || current.value in PhaseOrder) && (next.None? || next.value in PhaseOrder))
            ==> p in PhaseOrder
  {
    if info.completed == info.size then Phase1
    else if info.inProgress > 0 || info.completed > 0 then current.GetOr(Phase2)
    else next.GetOr(Phase3)
  }

  /** The phase follows the status counts: finished clusters go to the
      foundation phase, clusters with any progress to the current phase,
      untouched ones to the next. */
  lemma ClusterPhaseByStatus(info: ClusterInfo, current: string, next: Option<string>)
    requires info.completed <= info.size
    ensures info.completed == info.size ==> ClusterPhase(info, Some(current), next) == Phase1
    ensures (info.completed < info.size && (info.completed > 0 || info.inProgress > 0))
            ==> ClusterPhase(info, Some(current), next) == current
    ensures (info.completed == 0 < info.size && info.inProgress == 0)
            ==> ClusterPhase(info, Some(current), next) == next.GetOr(Phase3)
  {
  }

  /** An untouched cluster while the project is in its last phase: the
      mapping has no next phase and the cluster is given the phase `None`. */
  lemma PendingClusterInLastPhase()
    ensures var info := ClusterInfo(Cluster("cluster_a", {"a"}), 1, General, "a", 0, 0);
            ClusterPhaseAsWritten(info, Some(Phase4), None) == None
            && ClusterPhase(info, Some(Phase4), None) == Phase3
  {
  }
}
