/** Step 4 of the intelligent analysis chain, `determine_optimal_phases`:
    grouping the layers into the four phases, the size thresholds, and the
    fallbacks for phases below threshold. `PlanAsWritten` follows the source
    line by line; `Plan` is the corrected planner that the migration run
    uses (see the findings in the README). */
module IntelligentPlan {
  import opened Wrappers
  import opened Text
  import opened Tasks
  import opened Seqs
  import opened IntelligentAnalysis

  // ---------------------------------------------------------------------
  // Grouping

  datatype Group = FoundationGroup | IntelligenceGroup | CoordinationGroup | OptimizationGroup

  /** Where an unclassified task is moved: completed work is foundational,
      a page/UI-ish title goes to coordination, anything else to
      foundation. */
  function UnclassifiedGroup(t: Task): Group {
    if t.status == "completed" then FoundationGroup
    else if AnyIn(Lower(t.title), ["page", "ui", "interface", "component"]) then CoordinationGroup
    else FoundationGroup
  }

  /** The phase group of a task: its layer, with UI and integration sharing
      coordination and unclassified tasks redistributed. */
  function GroupOf(t: Task): Group {
    GroupOfLayer(LayerOf(t), t)
  }

  function GroupOfLayer(l: Layer, t: Task): Group {
    match l
    case Infrastructure => FoundationGroup
    case CoreFunctionality => IntelligenceGroup
    case UserInterface => CoordinationGroup
    case Integration => CoordinationGroup
    case Optimization => OptimizationGroup
    case Unclassified => UnclassifiedGroup(t)
  }

  /** The four working lists after redistribution. */
  datatype Groups = Groups(
    foundation: seq<Task>,
    intelligence: seq<Task>,
    coordination: seq<Task>,
    optimization: seq<Task>)

  function GroupList(gs: Groups, g: Group): seq<Task> {
    match g
    case FoundationGroup => gs.foundation
    case IntelligenceGroup => gs.intelligence
    case CoordinationGroup => gs.coordination
    case OptimizationGroup => gs.optimization
  }

  /** The unclassified tasks of group `g`, in order. */
  function UnclassifiedTo(unclassified: seq<Task>, g: Group): (r: seq<Task>)
    ensures forall t :: t in r <==> t in unclassified && UnclassifiedGroup(t) == g
    decreases |unclassified|
  {
    if |unclassified| == 0 then []
    else
      var rest := UnclassifiedTo(unclassified[1..], g);
      assert forall t :: t in unclassified <==> t == unclassified[0] || t in unclassified[1..];
      (if UnclassifiedGroup(unclassified[0]) == g then [unclassified[0]] else []) + rest
  }

  /** Foundation starts as a copy of infrastructure, intelligence of core,
      coordination is UI followed by integration; unclassified tasks are then
      appended where `UnclassifiedGroup` sends them. */
  function GroupLayers(ls: Layers): Groups {
    Groups(
      ls.infrastructure + UnclassifiedTo(ls.unclassified, FoundationGroup),
      ls.core,
      ls.ui + ls.integration + UnclassifiedTo(ls.unclassified, CoordinationGroup),
      ls.optimization)
  }

  /** A task is in a group's list exactly when it is one of the tasks and
      `GroupOf` sends it there. */
  lemma GroupMember(tasks: seq<Task>, t: Task, g: Group)
    ensures t in GroupList(GroupLayers(AnalyzeLayers(tasks)), g) <==> t in tasks && GroupOf(t) == g
  {
    var ls := AnalyzeLayers(tasks);
    var l0 := LayerOf(t);
    forall l ensures t in Bucket(ls, l) <==> t in tasks && l0 == l {
      LayerMember(tasks, t, l);
    }
    GroupMemberOf(tasks, ls, t, g, l0);
  }

  lemma GroupMemberOf(tasks: seq<Task>, ls: Layers, t: Task, g: Group, l0: Layer)
    requires forall l :: t in Bucket(ls, l) <==> t in tasks && l0 == l
    ensures t in GroupList(GroupLayers(ls), g) <==> t in tasks && GroupOfLayer(l0, t) == g
  {
    assert t in ls.infrastructure <==> t in Bucket(ls, Infrastructure);
    assert t in ls.core <==> t in Bucket(ls, CoreFunctionality);
    assert t in ls.ui <==> t in Bucket(ls, UserInterface);
    assert t in ls.integration <==> t in Bucket(ls, Integration);
    assert t in ls.optimization <==> t in Bucket(ls, Optimization);
    assert t in ls.unclassified <==> t in Bucket(ls, Unclassified);
  }

  lemma LayerMember(tasks: seq<Task>, t: Task, l: Layer)
    ensures t in Bucket(AnalyzeLayers(tasks), l) <==> t in tasks && LayerOf(t) == l
  {
    TasksOfLayerMembers(tasks, l);
  }

  // ---------------------------------------------------------------------
  // Plans

  datatype RecommendedPhase = RecommendedPhase(
    id: string,
    name: string,
    tasks: seq<Task>,
    justification: string)

  /** `recommended_phases` and the `phase_assignments` dict. */
  datatype PhasePlan = PhasePlan(
    recommended: seq<RecommendedPhase>,
    assignments: map<string, string>)

  /** Phase sizes below which a phase is not created. */
  const IntelligenceMinimum := 3
  const CoordinationMinimum := 5
  const OptimizationMinimum := 2

  /** `for task in ts: phase_assignments[task['task_id']] = phase`. */
  function AssignAll(m: map<string, string>, ts: seq<Task>, phase: string): (r: map<string, string>)
    ensures r.Keys == m.Keys + IdSet(ts)
    ensures forall t :: t in ts ==> r[t.id] == phase
    ensures forall k :: k in m && k !in IdSet(ts) ==> r[k] == m[k]
    decreases |ts|
  {
    if |ts| == 0 then m
    else
      var r := AssignAll(m[ts[0].id := phase], ts[1..], phase);
      assert forall t :: t in ts <==> t == ts[0] || t in ts[1..];
      assert IdSet(ts) == {ts[0].id} + IdSet(ts[1..]);
      r
  }

  function Justify(summary: string, count: nat): string {
    summary + " (" + NatToString(count) + " tasks)"
  }

  function PhaseName(id: string): string {
    if id == Phase1 then "Phase 1: Foundation"
    else if id == Phase2 then "Phase 2: Intelligence"
    else if id == Phase3 then "Phase 3: Coordination"
    else "Phase 4: Optimization"
  }

  function PhaseSummary(id: string): string {
    if id == Phase1 then "Core infrastructure and setup tasks"
    else if id == Phase2 then "Core business logic and intelligent features"
    else if id == Phase3 then "User interface and system integration"
    else "Performance, testing, and production readiness"
  }

  function Recommend(id: string, ts: seq<Task>, counted: nat): RecommendedPhase {
    RecommendedPhase(id, PhaseName(id), ts, Justify(PhaseSummary(id), counted))
  }

  function RecommendedIds(p: PhasePlan): seq<string> {
    seq(|p.recommended|, i requires 0 <= i < |p.recommended| => p.recommended[i].id)
  }

  function PhaseIndex(id: string): nat {
    if id == Phase1 then 0 else if id == Phase2 then 1 else if id == Phase3 then 2 else 3
  }

  /** The four phase ids are told apart by their index. */
  lemma PhaseIndexes()
    ensures PhaseIndex(Phase1) == 0 && PhaseIndex(Phase2) == 1 && PhaseIndex(Phase3) == 2 && PhaseIndex(Phase4) == 3
    ensures Phase1 in PhaseOrder && Phase2 in PhaseOrder && Phase3 in PhaseOrder && Phase4 in PhaseOrder
  {
  }

  /** The ids are phase ids in strictly increasing phase order. */
  ghost predicate InPhaseOrder(ids: seq<string>) {
    (forall i :: 0 <= i < |ids| ==> ids[i] in PhaseOrder)
    && forall i, j :: 0 <= i < j < |ids| ==> PhaseIndex(ids[i]) < PhaseIndex(ids[j])
  }

  /** The phase ids whose flags are set, in phase order. */
  function FlagIds(b1: bool, b2: bool, b3: bool, b4: bool): (ids: seq<string>)
    ensures InPhaseOrder(ids)
    ensures Phase1 in ids <==> b1
    ensures Phase2 in ids <==> b2
    ensures Phase3 in ids <==> b3
    ensures Phase4 in ids <==> b4
  {
    PhaseIndexes();
    var s1 := if b1 then [Phase1] else [];
    assert AddIf([], b1, Phase1) == s1;
    var s2 := AddIf(s1, b2, Phase2);
    var s3 := AddIf(s2, b3, Phase3);
    AddIfOrdered([], b1, Phase1, 0);
    AddIfOrdered(s1, b2, Phase2, 1);
    AddIfOrdered(s2, b3, Phase3, 2);
    AddIfOrdered(s3, b4, Phase4, 3);
    AddIf(s3, b4, Phase4)
  }

  function AddIf(ids: seq<string>, b: bool, p: string): seq<string> {
    ids + (if b then [p] else [])
  }

  /** In phase order, with every index below `k`. */
  ghost predicate OrderedBelow(ids: seq<string>, k: nat) {
    InPhaseOrder(ids) && forall i :: 0 <= i < |ids| ==> PhaseIndex(ids[i]) < k
  }

  lemma AddIfOrdered(ids: seq<string>, b: bool, p: string, k: nat)
    requires OrderedBelow(ids, k) && p in PhaseOrder && PhaseIndex(p) == k
    ensures OrderedBelow(AddIf(ids, b, p), k + 1)
    ensures forall x :: x in AddIf(ids, b, p) <==> x in ids || (b && x == p)
  {
    var r := AddIf(ids, b, p);
    assert forall i :: 0 <= i < |ids| ==> r[i] == ids[i];
    if !b {
      assert r == ids;
    }
  }

  function IdsOfPhases(rs: seq<RecommendedPhase>): (ids: seq<string>)
    ensures |ids| == |rs|
    ensures forall k :: 0 <= k < |rs| ==> ids[k] == rs[k].id
  {
    seq(|rs|, k requires 0 <= k < |rs| => rs[k].id)
  }

  /** The phase each group goes to, as the source writes it. */
  function AsWrittenTarget(g: Group, gs: Groups): string {
    var i3 := |gs.intelligence| >= IntelligenceMinimum;
    var c5 := |gs.coordination| >= CoordinationMinimum;
    match g
    case FoundationGroup => Phase1
    case IntelligenceGroup => if i3 then Phase2 else Phase1
    case CoordinationGroup =>
      if c5 then Phase3 else if |gs.intelligence| > 0 then Phase2 else Phase1
    case OptimizationGroup =>
      if |gs.optimization| >= OptimizationMinimum then Phase4
      else if c5 then Phase3
      else if i3 then Phase2
      else Phase1
  }

  /** The phases created before the optimization decision, as written: the
      foundation record is created when the foundation list is non-empty
      before the merge, and holds that same list after intelligence tasks
      below threshold are appended to it, while its justification counts the
      list as it was before the merge. */
  function RecommendFirstThree(gs: Groups): (rs: seq<RecommendedPhase>)
    ensures IdsOfPhases(rs) == FlagIds(|gs.foundation| > 0,
                                       |gs.intelligence| >= IntelligenceMinimum,
                                       |gs.coordination| >= CoordinationMinimum, false)
  {
    var f := gs.foundation;
    var i := gs.intelligence;
    var c := gs.coordination;
    var i3 := |i| >= IntelligenceMinimum;
    var c5 := |c| >= CoordinationMinimum;
    var mergedFoundation := f + (if i3 then [] else i);
    var r1 := if |f| > 0 then [Recommend(Phase1, mergedFoundation, |f|)] else [];
    var r2 := if i3 then [Recommend(Phase2, i, |i|)] else [];
    var r3 := if c5 then [Recommend(Phase3, c, |c|)] else [];
    RecommendThree(r1, r2, r3, |f| > 0, i3, c5);
    r1 + r2 + r3
  }

  lemma RecommendThree(r1: seq<RecommendedPhase>, r2: seq<RecommendedPhase>, r3: seq<RecommendedPhase>,
                       b1: bool, b2: bool, b3: bool)
    requires IdsOfPhases(r1) == (if b1 then [Phase1] else [])
    requires IdsOfPhases(r2) == (if b2 then [Phase2] else [])
    requires IdsOfPhases(r3) == (if b3 then [Phase3] else [])
    ensures IdsOfPhases(r1 + r2 + r3) == FlagIds(b1, b2, b3, false)
  {
    IdsOfPhasesConcat(r1, r2);
    IdsOfPhasesConcat(r1 + r2, r3);
  }

  function RecommendAsWritten(gs: Groups): (rs: seq<RecommendedPhase>)
    ensures IdsOfPhases(rs) == FlagIds(|gs.foundation| > 0,
                                       |gs.intelligence| >= IntelligenceMinimum,
                                       |gs.coordination| >= CoordinationMinimum,
                                       |gs.optimization| >= OptimizationMinimum)
  {
    var o := gs.optimization;
    var first := RecommendFirstThree(gs);
    var r4 := if |o| >= OptimizationMinimum then [Recommend(Phase4, o, |o|)] else [];
    RecommendLast(first, r4, |gs.foundation| > 0, |gs.intelligence| >= IntelligenceMinimum,
                  |gs.coordination| >= CoordinationMinimum, |o| >= OptimizationMinimum);
    first + r4
  }

  /** The fourth flag only decides whether phase 4 ends the list. */
  lemma RecommendLast(first: seq<RecommendedPhase>, r4: seq<RecommendedPhase>, b1: bool, b2: bool, b3: bool, b4: bool)
    requires IdsOfPhases(first) == FlagIds(b1, b2, b3, false)
    requires IdsOfPhases(r4) == if b4 then [Phase4] else []
    ensures IdsOfPhases(first + r4) == FlagIds(b1, b2, b3, b4)
  {
    IdsOfPhasesConcat(first, r4);
  }

  /** The assignment dict as written: each list is assigned in turn, and
      optimization below threshold goes to the last phase created so far, or
      to phase 1 when none was. */
  function AssignAsWritten(gs: Groups): (m: map<string, string>)
    ensures m.Keys == IdSet(gs.foundation) + IdSet(gs.intelligence)
                      + IdSet(gs.coordination) + IdSet(gs.optimization)
  {
    var i := gs.intelligence;
    var c := gs.coordination;
    var o := gs.optimization;
    var i3 := |i| >= IntelligenceMinimum;
    var c5 := |c| >= CoordinationMinimum;
    var available := IdsOfPhases(RecommendFirstThree(gs));
    var optTarget := if |o| >= OptimizationMinimum then Phase4 else LastOr(available, Phase1);
    var a1 := AssignAll(map[], gs.foundation, Phase1);
    var a2 := AssignAll(a1, i, if i3 then Phase2 else Phase1);
    var a3 := AssignAll(a2, c, if c5 then Phase3 else if |i| > 0 then Phase2 else Phase1);
    AssignAll(a3, o, optTarget)
  }

  /** `determine_optimal_phases` exactly as written. */
  function PlanAsWritten(gs: Groups): (p: PhasePlan)
    ensures p.assignments.Keys == IdSet(gs.foundation) + IdSet(gs.intelligence)
                                  + IdSet(gs.coordination) + IdSet(gs.optimization)
    ensures InPhaseOrder(IdsOfPhases(p.recommended))
    ensures Phase1 in IdsOfPhases(p.recommended) <==> |gs.foundation| > 0
    ensures Phase2 in IdsOfPhases(p.recommended) <==> |gs.intelligence| >= IntelligenceMinimum
    ensures Phase3 in IdsOfPhases(p.recommended) <==> |gs.coordination| >= CoordinationMinimum
    ensures Phase4 in IdsOfPhases(p.recommended) <==> |gs.optimization| >= OptimizationMinimum
  {
    PhasePlan(RecommendAsWritten(gs), AssignAsWritten(gs))
  }

  /** Groups never share a task id. */
  ghost predicate SeparateIds(gs: Groups) {
    IdSet(gs.foundation) !! IdSet(gs.intelligence)
    && IdSet(gs.foundation) !! IdSet(gs.coordination)
    && IdSet(gs.foundation) !! IdSet(gs.optimization)
    && IdSet(gs.intelligence) !! IdSet(gs.coordination)
    && IdSet(gs.intelligence) !! IdSet(gs.optimization)
    && IdSet(gs.coordination) !! IdSet(gs.optimization)
  }

  lemma SameIdSameTask(tasks: seq<Task>, t: Task, u: Task)
    requires DistinctIds(tasks) && t in tasks && u in tasks && t.id == u.id
    ensures t == u
  {
    var i :| 0 <= i < |tasks| && tasks[i] == t;
    var j :| 0 <= j < |tasks| && tasks[j] == u;
  }

  lemma GroupIdsDisjoint(tasks: seq<Task>, g: Group, g': Group)
    requires DistinctIds(tasks) && g != g'
    ensures var gs := GroupLayers(AnalyzeLayers(tasks));
            IdSet(GroupList(gs, g)) !! IdSet(GroupList(gs, g'))
  {
    var gs := GroupLayers(AnalyzeLayers(tasks));
    forall t, u | t in GroupList(gs, g) && u in GroupList(gs, g') ensures t.id != u.id {
      GroupMember(tasks, t, g);
      GroupMember(tasks, u, g');
      if t.id == u.id {
        SameIdSameTask(tasks, t, u);
      }
    }
  }

  lemma GroupsSeparate(tasks: seq<Task>)
    requires DistinctIds(tasks)
    ensures SeparateIds(GroupLayers(AnalyzeLayers(tasks)))
  {
    GroupIdsDisjoint(tasks, FoundationGroup, IntelligenceGroup);
    GroupIdsDisjoint(tasks, FoundationGroup, CoordinationGroup);
    GroupIdsDisjoint(tasks, FoundationGroup, OptimizationGroup);
    GroupIdsDisjoint(tasks, IntelligenceGroup, CoordinationGroup);
    GroupIdsDisjoint(tasks, IntelligenceGroup, OptimizationGroup);
    GroupIdsDisjoint(tasks, CoordinationGroup, OptimizationGroup);
  }

  /** The optimization fallback, read off the created phases, is the
      closed-form target. */
  lemma OptimizationFallback(gs: Groups)
    ensures LastOr(IdsOfPhases(RecommendFirstThree(gs)), Phase1)
            == AsWrittenTarget(OptimizationGroup, gs.(optimization := []))
  {
  }

  /** Each task of a group gets the phase `AsWrittenTarget` names for the
      group. */
  lemma AssignAsWrittenLookup(gs: Groups, t: Task, g: Group)
    requires SeparateIds(gs) && t in GroupList(gs, g)
    ensures t.id in AssignAsWritten(gs)
    ensures AssignAsWritten(gs)[t.id] == AsWrittenTarget(g, gs)
  {
    OptimizationFallback(gs);
    assert t.id in IdSet(GroupList(gs, g));
  }

  /** Every task of the list is assigned the phase `AsWrittenTarget` names
      for its group. */
  lemma PlanAsWrittenAssigns(tasks: seq<Task>, t: Task)
    requires DistinctIds(tasks) && t in tasks
    ensures t.id in PlanAsWritten(GroupLayers(AnalyzeLayers(tasks))).assignments
    ensures var gs := GroupLayers(AnalyzeLayers(tasks));
            PlanAsWritten(gs).assignments[t.id] == AsWrittenTarget(GroupOf(t), gs)
  {
    var gs := GroupLayers(AnalyzeLayers(tasks));
    var g := GroupOf(t);
    GroupMember(tasks, t, g);
    assert t in GroupList(gs, g);
    GroupsSeparate(tasks);
    assert SeparateIds(gs);
    AssignAsWrittenLookup(gs, t, g);
    assert PlanAsWritten(gs).assignments == AssignAsWritten(gs);
  }

  // ---------------------------------------------------------------------
  // Corrected planner

  /** The phase each group goes to when every fallback targets a phase that
      is actually created: coordination below threshold falls back to phase
      2 only when phase 2 is created, and phase 1 is created whenever any task
      falls back to it. */
  function Target(g: Group, gs: Groups): string {
    var i3 := |gs.intelligence| >= IntelligenceMinimum;
    var c5 := |gs.coordination| >= CoordinationMinimum;
    match g
    case FoundationGroup => Phase1
    case IntelligenceGroup => if i3 then Phase2 else Phase1
    case CoordinationGroup => if c5 then Phase3 else if i3 then Phase2 else Phase1
    case OptimizationGroup =>
      if |gs.optimization| >= OptimizationMinimum then Phase4
      else if c5 then Phase3
      else if i3 then Phase2
      else Phase1
  }

  /** All tasks that go to `phase`, group by group. */
  function PhaseTasks(gs: Groups, phase: string): seq<Task> {
    (if Target(FoundationGroup, gs) == phase then gs.foundation else [])
    + (if Target(IntelligenceGroup, gs) == phase then gs.intelligence else [])
    + (if Target(CoordinationGroup, gs) == phase then gs.coordination else [])
    + (if Target(OptimizationGroup, gs) == phase then gs.optimization else [])
  }

  /** A group's tasks are among the tasks of its target phase. */
  lemma PhaseTasksHoldGroup(gs: Groups, g: Group, t: Task)
    requires t in GroupList(gs, g)
    ensures t in PhaseTasks(gs, Target(g, gs))
  {
  }

  /** Phases 2-4 receive tasks exactly when their own thresholds hold. */
  lemma PhaseTasksNonEmpty(gs: Groups)
    ensures |PhaseTasks(gs, Phase2)| > 0 <==> |gs.intelligence| >= IntelligenceMinimum
    ensures |PhaseTasks(gs, Phase3)| > 0 <==> |gs.coordination| >= CoordinationMinimum
    ensures |PhaseTasks(gs, Phase4)| > 0 <==> |gs.optimization| >= OptimizationMinimum
  {
    PhaseIndexes();
  }

  function RecommendIfAny(gs: Groups, phase: string): (rs: seq<RecommendedPhase>)
    ensures IdsOfPhases(rs) == (if |PhaseTasks(gs, phase)| > 0 then [phase] else [])
    ensures forall r :: r in rs ==> r.tasks == PhaseTasks(gs, r.id) && |r.tasks| > 0
                                    && r.justification == Justify(PhaseSummary(r.id), |r.tasks|)
  {
    var ts := PhaseTasks(gs, phase);
    if |ts| > 0 then [Recommend(phase, ts, |ts|)] else []
  }

  lemma IdsOfPhasesConcat(a: seq<RecommendedPhase>, b: seq<RecommendedPhase>)
    ensures IdsOfPhases(a + b) == IdsOfPhases(a) + IdsOfPhases(b)
  {
  }

  /** The phases that receive at least one task, in phase order, each
      holding exactly its tasks and counting them in its justification. */
  function RecommendAll(gs: Groups): (rs: seq<RecommendedPhase>)
    ensures IdsOfPhases(rs) == FlagIds(|PhaseTasks(gs, Phase1)| > 0, |PhaseTasks(gs, Phase2)| > 0,
                                       |PhaseTasks(gs, Phase3)| > 0, |PhaseTasks(gs, Phase4)| > 0)
    ensures forall r :: r in rs ==> r.tasks == PhaseTasks(gs, r.id) && |r.tasks| > 0
                                    && r.justification == Justify(PhaseSummary(r.id), |r.tasks|)
  {
    var r1 := RecommendIfAny(gs, Phase1);
    var r2 := RecommendIfAny(gs, Phase2);
    var r3 := RecommendIfAny(gs, Phase3);
    var r4 := RecommendIfAny(gs, Phase4);
    IdsOfPhasesConcat(r1, r2);
    IdsOfPhasesConcat(r1 + r2, r3);
    IdsOfPhasesConcat(r1 + r2 + r3, r4);
    r1 + r2 + r3 + r4
  }

  /** Every group is assigned its `Target`; every assigned id belongs to a
      group whose target it carries. */
  function AssignPlan(gs: Groups): (m: map<string, string>)
    ensures m.Keys == IdSet(gs.foundation) + IdSet(gs.intelligence)
                      + IdSet(gs.coordination) + IdSet(gs.optimization)
    ensures forall k :: k in m ==>
              exists g :: k in IdSet(GroupList(gs, g)) && m[k] == Target(g, gs)
  {
    var a1 := AssignAll(map[], gs.foundation, Target(FoundationGroup, gs));
    var a2 := AssignAll(a1, gs.intelligence, Target(IntelligenceGroup, gs));
    var a3 := AssignAll(a2, gs.coordination, Target(CoordinationGroup, gs));
    var a4 := AssignAll(a3, gs.optimization, Target(OptimizationGroup, gs));
    assert forall k :: k in a4 ==> exists g :: k in IdSet(GroupList(gs, g)) && a4[k] == Target(g, gs) by {
      forall k | k in a4 ensures exists g :: k in IdSet(GroupList(gs, g)) && a4[k] == Target(g, gs) {
        if k in IdSet(gs.optimization) {
          assert GroupList(gs, OptimizationGroup) == gs.optimization;
        } else if k in IdSet(gs.coordination) {
          assert GroupList(gs, CoordinationGroup) == gs.coordination;
        } else if k in IdSet(gs.intelligence) {
          assert GroupList(gs, IntelligenceGroup) == gs.intelligence;
        } else {
          assert GroupList(gs, FoundationGroup) == gs.foundation;
        }
      }
    }
    a4
  }

  /** A phase that receives tasks is created. */
  lemma NonEmptyIsRecommended(gs: Groups, g: Group)
    requires |PhaseTasks(gs, Target(g, gs))| > 0
    ensures Target(g, gs) in IdsOfPhases(RecommendAll(gs))
  {
    var p := Target(g, gs);
    var ids := IdsOfPhases(RecommendAll(gs));
    if p == Phase1 {
      assert Phase1 in ids;
    } else if p == Phase2 {
      assert Phase2 in ids;
    } else if p == Phase3 {
      assert Phase3 in ids;
    } else {
      assert p == Phase4;
      assert Phase4 in ids;
    }
  }

  /** The phase an id is assigned receives that id's task, so it is created. */
  lemma AssignedIsRecommended(gs: Groups, k: string)
    requires k in AssignPlan(gs)
    ensures AssignPlan(gs)[k] in IdsOfPhases(RecommendAll(gs))
  {
    var m := AssignPlan(gs);
    var g :| k in IdSet(GroupList(gs, g)) && m[k] == Target(g, gs);
    var t :| t in GroupList(gs, g) && t.id == k;
    PhaseTasksHoldGroup(gs, g, t);
    NonEmptyIsRecommended(gs, g);
  }

  /** The corrected `determine_optimal_phases`. Phases 2-4 are created
      exactly when their thresholds hold, phases appear in order, and no task
      is assigned a phase that is not created. */
  function Plan(gs: Groups): (p: PhasePlan)
    ensures p.assignments.Keys == IdSet(gs.foundation) + IdSet(gs.intelligence)
                                  + IdSet(gs.coordination) + IdSet(gs.optimization)
    ensures InPhaseOrder(IdsOfPhases(p.recommended))
    ensures forall k :: k in p.assignments ==> p.assignments[k] in IdsOfPhases(p.recommended)
    ensures Phase1 in IdsOfPhases(p.recommended) <==> |PhaseTasks(gs, Phase1)| > 0
    ensures Phase2 in IdsOfPhases(p.recommended) <==> |gs.intelligence| >= IntelligenceMinimum
    ensures Phase3 in IdsOfPhases(p.recommended) <==> |gs.coordination| >= CoordinationMinimum
    ensures Phase4 in IdsOfPhases(p.recommended) <==> |gs.optimization| >= OptimizationMinimum
    ensures forall r :: r in p.recommended ==> r.tasks == PhaseTasks(gs, r.id) && |r.tasks| > 0
                                               && r.justification == Justify(PhaseSummary(r.id), |r.tasks|)
  {
    var rs := RecommendAll(gs);
    var m := AssignPlan(gs);
    PhaseTasksNonEmpty(gs);
    forall k | k in m ensures m[k] in IdsOfPhases(rs) {
      AssignedIsRecommended(gs, k);
    }
    PhasePlan(rs, m)
  }

  /** With separate groups, a task of group `g` is assigned `Target(g)`. */
  lemma AssignPlanLookup(gs: Groups, g: Group, t: Task)
    requires SeparateIds(gs) && t in GroupList(gs, g)
    ensures t.id in AssignPlan(gs)
    ensures AssignPlan(gs)[t.id] == Target(g, gs)
  {
    var m := AssignPlan(gs);
    assert t.id in IdSet(GroupList(gs, g));
    var g' :| t.id in IdSet(GroupList(gs, g')) && m[t.id] == Target(g', gs);
    if g' != g {
      assert IdSet(GroupList(gs, g)) !! IdSet(GroupList(gs, g'));
    }
  }

  /** With distinct ids, every task is assigned the `Target` of its group and
      is listed in that phase's record. */
  lemma PlanAssigns(tasks: seq<Task>, t: Task)
    requires DistinctIds(tasks) && t in tasks
    ensures t.id in Plan(GroupLayers(AnalyzeLayers(tasks))).assignments
    ensures var gs := GroupLayers(AnalyzeLayers(tasks));
            Plan(gs).assignments[t.id] == Target(GroupOf(t), gs)
            && t in PhaseTasks(gs, Target(GroupOf(t), gs))
  {
    var gs := GroupLayers(AnalyzeLayers(tasks));
    var g := GroupOf(t);
    GroupMember(tasks, t, g);
    GroupsSeparate(tasks);
    AssignPlanLookup(gs, g, t);
    assert Plan(gs).assignments == AssignPlan(gs);
    PhaseTasksHoldGroup(gs, g, t);
  }

  // ---------------------------------------------------------------------
  // The as-written planner assigns tasks to phases it never creates

  function Sample(id: string, title: string): Task {
    Task(id, title, "", "pending", "medium", None, [], DepList([]), [], "admin")
  }

  lemma LogicNotInfrastructure()
    ensures !AnyIn("logic ", LayerKeywords(Infrastructure))
  {
    forall k | k in LayerKeywords(Infrastructure) ensures !Contains("logic ", k) {
      if k == "setup" || k == "schema" {
        MissingCharNotContained("logic ", k, 's');
      } else if k == "config" {
        MissingCharNotContained("logic ", k, 'n');
      } else if k == "auth" || k == "basic" {
        MissingCharNotContained("logic ", k, 'a');
      } else {
        LongerNotContained("logic ", k);
      }
    }
  }

  lemma UiNotInfrastructureOrCore()
    ensures !AnyIn("ui ", LayerKeywords(Infrastructure))
    ensures !AnyIn("ui ", LayerKeywords(CoreFunctionality))
  {
    forall k | k in LayerKeywords(Infrastructure) ensures !Contains("ui ", k) {
      LongerNotContained("ui ", k);
    }
    forall k | k in LayerKeywords(CoreFunctionality) ensures !Contains("ui ", k) {
      LongerNotContained("ui ", k);
    }
  }

  /** "logic" is a core-functionality title and "ui" a user-interface one. */
  lemma SampleLayers()
    ensures LayerOf(Sample("a", "logic")) == CoreFunctionality
    ensures LayerOf(Sample("b", "ui")) == UserInterface
  {
    assert Lower("logic") == "logic";
    assert Lower("ui") == "ui";
    assert TaskText(Sample("a", "logic")) == "logic ";
    assert TaskText(Sample("b", "ui")) == "ui ";
    LogicNotInfrastructure();
    UiNotInfrastructureOrCore();
    assert "logic" in LayerKeywords(CoreFunctionality) && Contains("logic ", "logic");
    assert "ui" in LayerKeywords(UserInterface) && Contains("ui ", "ui");
    assert LayerOrder[0] == Infrastructure && LayerOrder[1..][0] == CoreFunctionality;
    assert LayerOrder[1..][1..][0] == UserInterface;
  }

  lemma SampleGroups()
    ensures GroupLayers(AnalyzeLayers([Sample("a", "logic"), Sample("b", "ui")]))
            == Groups([], [Sample("a", "logic")], [Sample("b", "ui")], [])
  {
    var a := Sample("a", "logic");
    var b := Sample("b", "ui");
    SampleAnalyzed([a, b], a, b);
  }

  /** The two sample tasks fall into the core and UI lists. */
  lemma SampleAnalyzed(tasks: seq<Task>, a: Task, b: Task)
    requires a == Sample("a", "logic") && b == Sample("b", "ui") && tasks == [a, b]
    ensures AnalyzeLayers(tasks) == Layers([], [a], [b], [], [], [])
    ensures GroupLayers(AnalyzeLayers(tasks)) == Groups([], [a], [b], [])
  {
    var ls := AnalyzeLayers(tasks);
    SampleBucket(tasks, a, b, Infrastructure);
    SampleBucket(tasks, a, b, CoreFunctionality);
    SampleBucket(tasks, a, b, UserInterface);
    SampleBucket(tasks, a, b, Integration);
    SampleBucket(tasks, a, b, Optimization);
    SampleBucket(tasks, a, b, Unclassified);
    assert ls.infrastructure == Bucket(ls, Infrastructure);
    assert ls.core == Bucket(ls, CoreFunctionality);
    assert ls.ui == Bucket(ls, UserInterface);
    assert ls.integration == Bucket(ls, Integration);
    assert ls.optimization == Bucket(ls, Optimization);
    assert ls.unclassified == Bucket(ls, Unclassified);
  }

  lemma SampleBucket(tasks: seq<Task>, a: Task, b: Task, l: Layer)
    requires a == Sample("a", "logic") && b == Sample("b", "ui") && tasks == [a, b]
    ensures TasksOfLayer(tasks, l) == (if l == CoreFunctionality then [a] else [])
                                      + (if l == UserInterface then [b] else [])
  {
    SampleLayers();
    assert tasks[1..] == [b] && [b][1..] == [];
    assert TasksOfLayer([b], l) == (if LayerOf(b) == l then [b] else []) + TasksOfLayer([], l);
    assert TasksOfLayer(tasks, l) == (if LayerOf(a) == l then [a] else []) + TasksOfLayer([b], l);
  }

  /** A logic task (core layer) and a UI task (UI layer): no phase
      reaches its threshold and the foundation list is empty, so the source
      recommends no phase at all, yet assigns the first task to phase 1 and
      the second to phase 2. */
  lemma AsWrittenAssignsUncreatedPhases()
    ensures var gs := GroupLayers(AnalyzeLayers([Sample("a", "logic"), Sample("b", "ui")]));
            PlanAsWritten(gs).recommended == []
            && PlanAsWritten(gs).assignments == map["a" := Phase1, "b" := Phase2]
  {
    SampleGroups();
    AsWrittenOnSample(Groups([], [Sample("a", "logic")], [Sample("b", "ui")], []), Sample("a", "logic"), Sample("b", "ui"));
  }

  lemma AsWrittenOnSample(gs: Groups, a: Task, b: Task)
    requires a.id == "a" && b.id == "b" && gs == Groups([], [a], [b], [])
    ensures PlanAsWritten(gs).recommended == []
    ensures PlanAsWritten(gs).assignments == map["a" := Phase1, "b" := Phase2]
  {
    assert RecommendFirstThree(gs) == [];
    assert AssignAll(map[], [], Phase1) == map[];
    assert AssignAll(map[], [a], Phase1) == map["a" := Phase1];
    assert AssignAll(map["a" := Phase1], [b], Phase2) == map["a" := Phase1, "b" := Phase2];
  }

  /** On the same tasks the corrected planner creates phase 1 and puts both
      tasks there. */
  lemma CorrectedCreatesAssignedPhase()
    ensures var gs := GroupLayers(AnalyzeLayers([Sample("a", "logic"), Sample("b", "ui")]));
            IdsOfPhases(Plan(gs).recommended) == [Phase1]
            && Plan(gs).assignments == map["a" := Phase1, "b" := Phase1]
  {
    SampleGroups();
    CorrectedOnSample(Groups([], [Sample("a", "logic")], [Sample("b", "ui")], []), Sample("a", "logic"), Sample("b", "ui"));
  }

  lemma CorrectedOnSample(gs: Groups, a: Task, b: Task)
    requires a.id == "a" && b.id == "b" && gs == Groups([], [a], [b], [])
    ensures IdsOfPhases(Plan(gs).recommended) == [Phase1]
    ensures Plan(gs).assignments == map["a" := Phase1, "b" := Phase1]
  {
    SampleTargets(gs, a, b);
    SampleRecommended(gs, a, b);
    SampleAssigned(gs, a, b);
  }

  lemma SampleTargets(gs: Groups, a: Task, b: Task)
    requires gs == Groups([], [a], [b], [])
    ensures Target(IntelligenceGroup, gs) == Phase1 && Target(CoordinationGroup, gs) == Phase1
    ensures PhaseTasks(gs, Phase1) == [a, b]
  {
  }

  lemma SampleRecommended(gs: Groups, a: Task, b: Task)
    requires gs == Groups([], [a], [b], []) && PhaseTasks(gs, Phase1) == [a, b]
    ensures IdsOfPhases(RecommendAll(gs)) == [Phase1]
  {
    PhaseTasksNonEmpty(gs);
    assert FlagIds(true, false, false, false) == [] + [Phase1];
  }

  lemma SampleAssigned(gs: Groups, a: Task, b: Task)
    requires a.id == "a" && b.id == "b" && gs == Groups([], [a], [b], [])
    requires Target(IntelligenceGroup, gs) == Phase1 && Target(CoordinationGroup, gs) == Phase1
    ensures AssignPlan(gs) == map["a" := Phase1, "b" := Phase1]
  {
    assert AssignAll(map[], [], Target(FoundationGroup, gs)) == map[];
    assert AssignAll(map[], [a], Phase1) == map["a" := Phase1];
    assert AssignAll(map["a" := Phase1], [b], Phase1) == map["a" := Phase1, "b" := Phase1];
  }

  /** The foundation record of the source holds the merged list while its
      justification still counts the list before the merge: a setup task and
      a calculator task give a phase-1 record with two tasks justified as
      "(1 tasks)". */
  lemma AsWrittenJustificationUndercounts()
    ensures var gs := Groups([Sample("a", "setup")], [Sample("b", "calculator")], [], []);
            |PlanAsWritten(gs).recommended| == 1
            && |PlanAsWritten(gs).recommended[0].tasks| == 2
            && PlanAsWritten(gs).recommended[0].justification
               == "Core infrastructure and setup tasks (1 tasks)"
  {
  }
}
