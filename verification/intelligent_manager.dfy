/** `IntelligentMigrationManager`: the one-time migration that creates the
    recommended phases, moves every task under its phase, adds the inferred
    dependencies and records that the migration ran. The database is a
    `Store`; the rows are given in `created_at` order. */
module IntelligentManager {
  import opened Wrappers
  import opened Text
  import opened Tasks
  import opened IntelligentAnalysis
  import opened IntelligentPlan

  // ---------------------------------------------------------------------
  // Creating phases

  const Brain := "\U{1F9E0}"

  /** The fixed description of each phase id. */
  function PhaseDefinition(id: string): string {
    if id == Phase1 then "Core system architecture, database, authentication, and basic APIs"
    else if id == Phase2 then "RAG system, embeddings, context management, and AI integration"
    else if id == Phase3 then "Multi-agent workflows, task orchestration, and system integration"
    else if id == Phase4 then "Performance tuning, scaling, monitoring, and production readiness"
    else "Intelligent phase assignment"
  }

  // The fixed parts of the notes, as named constants.
  const CreationLead := " Intelligent migration: Phase created through AI analysis. "
  const CreationTail := " tasks assigned based on content analysis and dependency reasoning."
  const AssignedLead := " Intelligent migration: Assigned to "
  const AssignedMiddle := " based on AI analysis. "

  function CreationNote(r: RecommendedPhase): Note {
    Note("intelligent_migration",
         Brain + CreationLead + r.justification
         + ". " + NatToString(|r.tasks|) + CreationTail)
  }

  /** The row inserted for a recommended phase: a pending, high-priority
      root with no children, no dependencies and one note. */
  function PhaseRow(r: RecommendedPhase): (t: Task)
    ensures t.id == r.id && t.title == r.name
    ensures t.description == PhaseDefinition(r.id) + "\n\n" + Brain + " AI Analysis: " + r.justification
    ensures t.status == "pending" && t.priority == "high" && t.createdBy == "intelligent_migration"
    ensures t.parent == None && t.children == [] && t.deps == DepList([])
    ensures |t.notes| == 1 && t.notes[0].author == "intelligent_migration"
  {
    Task(r.id, r.name, PhaseDefinition(r.id) + "\n\n" + Brain + " AI Analysis: " + r.justification,
         "pending", "high", None, [], DepList([]), [CreationNote(r)], "intelligent_migration")
  }

  /** `_create_phase`: an existing id is left alone. */
  function CreatePhase(store: Store, r: RecommendedPhase): (s: Store)
    ensures s.Keys == store.Keys + {r.id}
    ensures r.id in store ==> s == store
    ensures r.id !in store ==> s[r.id] == PhaseRow(r)
    ensures forall k :: k in store ==> s[k] == store[k]
  {
    if r.id in store then store else store[r.id := PhaseRow(r)]
  }

  function PhaseIds(rs: seq<RecommendedPhase>): set<string> {
    set r | r in rs :: r.id
  }

  /** The phases created in order; earlier rows win over later ones. */
  function CreatePhases(store: Store, rs: seq<RecommendedPhase>): (s: Store)
    ensures s.Keys == store.Keys + PhaseIds(rs)
    ensures forall k :: k in store ==> s[k] == store[k]
    decreases |rs|
  {
    if |rs| == 0 then store
    else
      var next := CreatePhase(store, rs[0]);
      var s := CreatePhases(next, rs[1..]);
      PhaseIdsCons(rs);
      s
  }

  lemma PhaseIdsCons(rs: seq<RecommendedPhase>)
    requires |rs| > 0
    ensures PhaseIds(rs) == {rs[0].id} + PhaseIds(rs[1..])
  {
    assert rs == [rs[0]] + rs[1..];
  }

  /** With distinct, new phase ids, every phase gets its own row. */
  /** A phase whose id the table lacks and no earlier phase shares gets the
      row built for it. */
  lemma {:induction false} CreatePhasesRows(store: Store, rs: seq<RecommendedPhase>, i: nat)
    requires i < |rs| && rs[i].id !in store
    requires forall j :: 0 <= j < i ==> rs[j].id != rs[i].id
    ensures rs[i].id in CreatePhases(store, rs)
    ensures CreatePhases(store, rs)[rs[i].id] == PhaseRow(rs[i])
    decreases |rs|
  {
    var next := CreatePhase(store, rs[0]);
    if i == 0 {
      HeadRow(store, rs, next);
    } else {
      var tail := rs[1..];
      assert tail[i - 1] == rs[i];
      assert rs[0].id != rs[i].id;
      forall j | 0 <= j < i - 1 ensures tail[j].id != tail[i - 1].id {
        assert tail[j] == rs[j + 1];
      }
      CreatePhasesRows(next, tail, i - 1);
      CreatePhasesStep(store, rs, next);
    }
  }

  lemma CreatePhasesStep(store: Store, rs: seq<RecommendedPhase>, next: Store)
    requires |rs| > 0 && next == CreatePhase(store, rs[0])
    ensures CreatePhases(store, rs) == CreatePhases(next, rs[1..])
  {
  }

  lemma HeadRow(store: Store, rs: seq<RecommendedPhase>, next: Store)
    requires |rs| > 0 && rs[0].id !in store && next == CreatePhase(store, rs[0])
    ensures rs[0].id in CreatePhases(store, rs)
    ensures CreatePhases(store, rs)[rs[0].id] == PhaseRow(rs[0])
  {
    assert next[rs[0].id] == PhaseRow(rs[0]);
    CreatePhasesStep(store, rs, next);
  }

  // ---------------------------------------------------------------------
  // Moving tasks under their phases

  datatype MigrationKind = RootToPhase | HierarchyPreserved | OrphanToPhase

  function KindName(k: MigrationKind): string {
    match k
    case RootToPhase => "root_to_phase"
    case HierarchyPreserved => "hierarchy_preserved"
    case OrphanToPhase => "orphan_to_phase"
  }

  /** A root goes under its phase; a subtask keeps its parent only when the
      parent is assigned the same phase. */
  function KindOf(t: Task, phase: string, assignments: map<string, string>): (k: MigrationKind)
    ensures k == RootToPhase <==> t.parent == None
    ensures k == HierarchyPreserved <==>
              t.parent.Some? && t.parent.value in assignments && assignments[t.parent.value] == phase
  {
    match t.parent
    case None => RootToPhase
    case Some(p) => if p in assignments && assignments[p] == phase then HierarchyPreserved else OrphanToPhase
  }

  /** The justification of the first recommended phase with this id, else
      the fallback text. */
  function JustificationFor(rs: seq<RecommendedPhase>, phase: string): (j: string)
    ensures (forall r :: r in rs ==> r.id != phase) ==> j == "Intelligent analysis"
    ensures forall i :: 0 <= i < |rs| && rs[i].id == phase && (forall h :: 0 <= h < i ==> rs[h].id != phase)
              ==> j == rs[i].justification
    decreases |rs|
  {
    if |rs| == 0 then "Intelligent analysis"
    else if rs[0].id == phase then rs[0].justification
    else
      var j := JustificationFor(rs[1..], phase);
      assert forall i :: 1 <= i < |rs| ==> rs[1..][i - 1] == rs[i];
      j
  }

  function MigrationNote(phase: string, justification: string, k: MigrationKind): Note {
    Note("intelligent_migration",
         Brain + AssignedLead + phase + AssignedMiddle
         + justification + ". Migration type: " + KindName(k) + ".")
  }

  /** `_migrate_task_to_phase` on a task that exists: only the parent and
      the notes change. */
  function MigrateTask(t: Task, phase: string, plan: PhasePlan): (r: Task)
    ensures r.(parent := t.parent, notes := t.notes) == t
    ensures r.parent == Some(phase)
            || (r.parent == t.parent && t.parent.Some? && t.parent.value in plan.assignments
                && plan.assignments[t.parent.value] == phase)
    ensures r.notes == t.notes + [MigrationNote(phase, JustificationFor(plan.recommended, phase),
                                                KindOf(t, phase, plan.assignments))]
  {
    var k := KindOf(t, phase, plan.assignments);
    var parent := if k == HierarchyPreserved then t.parent else Some(phase);
    t.(parent := parent,
       notes := t.notes + [MigrationNote(phase, JustificationFor(plan.recommended, phase), k)])
  }

  /** Every assigned task that exists is migrated; assignments to missing
      tasks do nothing. Each migration reads only its own row and the plan,
      so the order of the assignment dict does not matter. */
  function MigrateAll(store: Store, plan: PhasePlan): (s: Store)
    ensures s.Keys == store.Keys
    ensures forall k :: k in store && k !in plan.assignments ==> s[k] == store[k]
    ensures forall k :: k in store && k in plan.assignments ==>
              s[k] == MigrateTask(store[k], plan.assignments[k], plan)
  {
    map k | k in store :: if k in plan.assignments then MigrateTask(store[k], plan.assignments[k], plan)
                          else store[k]
  }

  /** `migrated_count`: the loop visits the assignment ids in dict order
      and adds one for each id `_migrate_task_to_phase` finds in the table;
      a missing id makes it return False. The migrations keep the table's
      keys, so membership in `store` is what each visit reads. */
  function MigratedCount(store: Store, order: seq<string>): (n: nat)
    ensures n <= |order|
    decreases |order|
  {
    if |order| == 0 then 0
    else (if order[0] in store then 1 else 0) + MigratedCount(store, order[1..])
  }

  /** Ids visited with no repeats are counted once each when present, so
      the count is the number of distinct visited ids with a row. */
  lemma {:induction false} MigratedCountIsPresentIds(store: Store, order: seq<string>)
    requires forall i, j :: 0 <= i < j < |order| ==> order[i] != order[j]
    ensures MigratedCount(store, order) == |(set x | x in order) * store.Keys|
    decreases |order|
  {
    if |order| == 0 {
      assert (set x | x in order) == {};
    } else {
      MigratedCountIsPresentIds(store, order[1..]);
      VisitSplit(store, order);
    }
  }

  /** The first visit adds its id to the ids the rest of the loop visits. */
  lemma VisitSplit(store: Store, order: seq<string>)
    requires |order| > 0
    requires forall i, j :: 0 <= i < j < |order| ==> order[i] != order[j]
    ensures |(set x | x in order) * store.Keys|
            == (if order[0] in store then 1 else 0) + |(set x | x in order[1..]) * store.Keys|
  {
    var rest := (set x | x in order[1..]) * store.Keys;
    assert order == [order[0]] + order[1..];
    assert order[0] !in order[1..] by {
      forall i | 0 <= i < |order[1..]| ensures order[1..][i] != order[0] {
        assert order[1..][i] == order[i + 1];
      }
    }
    if order[0] in store {
      assert (set x | x in order) * store.Keys == rest + {order[0]};
    } else {
      assert (set x | x in order) * store.Keys == rest;
    }
  }

  /** Visiting every assigned id once, the count is the number of
      assignments whose task exists. */
  lemma MigratedCountIsPresent(store: Store, plan: PhasePlan, order: seq<string>)
    requires forall i, j :: 0 <= i < j < |order| ==> order[i] != order[j]
    requires forall k :: k in plan.assignments <==> k in order
    ensures MigratedCount(store, order) == |plan.assignments.Keys * store.Keys|
  {
    MigratedCountIsPresentIds(store, order);
    assert (set x | x in order) == plan.assignments.Keys;
  }

  // ---------------------------------------------------------------------
  // Adding inferred dependencies

  /** All edges whose dependent exists hold in `store`. */
  ghost predicate EdgesHold(store: Store, edges: seq<Edge>) {
    forall e :: e in edges && e.dependent in store ==>
      store[e.dependent].deps.DepList? && e.dependency in store[e.dependent].deps.ids
  }

  /** Some edge whose dependent exists reads a malformed dependency column. */
  ghost predicate HitsMalformed(store: Store, edges: seq<Edge>) {
    exists e :: e in edges && e.dependent in store && store[e.dependent].deps == Malformed
  }

  /** Two stores agree on keys and on everything but the dependency lists,
      and every list in `s` extends the one in `store`. */
  ghost predicate OnlyDepsGrow(store: Store, s: Store) {
    s.Keys == store.Keys
    && forall k :: k in store ==>
         s[k].(deps := store[k].deps) == store[k]
         && (store[k].deps.DepList? ==> s[k].deps.DepList? && store[k].deps.ids <= s[k].deps.ids)
         && (store[k].deps == Malformed ==> s[k].deps == Malformed)
  }

  /** One edge: a missing dependent is skipped, a malformed column raises,
      a missing dependency is appended. */
  function FixEdge(store: Store, e: Edge): (r: Option<Store>)
    ensures r == None <==> e.dependent in store && store[e.dependent].deps == Malformed
    ensures r.Some? ==> OnlyDepsGrow(store, r.value)
    ensures r.Some? && e.dependent in store ==>
              r.value[e.dependent].deps.DepList? && e.dependency in r.value[e.dependent].deps.ids
  {
    if e.dependent !in store then Some(store)
    else
      var t := store[e.dependent];
      match t.deps
      case Malformed => None
      case DepList(ids) =>
        if e.dependency in ids then Some(store)
        else Some(store[e.dependent := t.(deps := DepList(ids + [e.dependency]))])
  }

  lemma OnlyDepsGrowTransitive(a: Store, b: Store, c: Store)
    requires OnlyDepsGrow(a, b) && OnlyDepsGrow(b, c)
    ensures OnlyDepsGrow(a, c)
  {
    forall k | k in a
      ensures c[k].(deps := a[k].deps) == a[k]
    {
      assert c[k].(deps := b[k].deps) == b[k];
      assert b[k].(deps := a[k].deps) == a[k];
    }
  }

  /** The edges in order, re-reading the column each time; `None` when one
      raises. */
  function FixAll(store: Store, edges: seq<Edge>): (r: Option<Store>)
    ensures r.Some? ==> OnlyDepsGrow(store, r.value)
    decreases |edges|
  {
    if |edges| == 0 then Some(store)
    else
      match FixEdge(store, edges[0])
      case None => None
      case Some(s) =>
        var r := FixAll(s, edges[1..]);
        assert r.Some? ==> OnlyDepsGrow(store, r.value) by {
          if r.Some? { OnlyDepsGrowTransitive(store, s, r.value); }
        }
        r
  }

  /** The fix raises exactly when some edge with an existing dependent
      meets a malformed column. */
  lemma {:induction false} FixAllFails(store: Store, edges: seq<Edge>)
    ensures FixAll(store, edges) == None <==> HitsMalformed(store, edges)
    decreases |edges|
  {
    if |edges| > 0 {
      var e := edges[0];
      assert edges == [e] + edges[1..];
      var r := FixEdge(store, e);
      if r.Some? {
        var s := r.value;
        FixAllFails(s, edges[1..]);
        if HitsMalformed(s, edges[1..]) {
          var e' :| e' in edges[1..] && e'.dependent in s && s[e'.dependent].deps == Malformed;
          assert store[e'.dependent].deps == Malformed;
        }
        if HitsMalformed(store, edges) {
          var e' :| e' in edges && e'.dependent in store && store[e'.dependent].deps == Malformed;
          assert e' != e;
          assert s[e'.dependent].deps == Malformed;
        }
      }
    }
  }

  /** After a successful fix every edge holds. */
  lemma {:induction false} FixAllEstablishes(store: Store, edges: seq<Edge>)
    requires FixAll(store, edges).Some?
    ensures EdgesHold(FixAll(store, edges).value, edges)
    decreases |edges|
  {
    if |edges| > 0 {
      var e := edges[0];
      var s := FixEdge(store, e).value;
      var r := FixAll(s, edges[1..]).value;
      FixAllEstablishes(s, edges[1..]);
      assert edges == [e] + edges[1..];
      if e.dependent in store {
        assert s[e.dependent].deps.ids <= r[e.dependent].deps.ids;
      }
    }
  }

  /** When every edge already holds, the fix changes nothing. */
  lemma {:induction false} FixAllKeepsHolding(store: Store, edges: seq<Edge>)
    requires EdgesHold(store, edges)
    ensures FixAll(store, edges) == Some(store)
    decreases |edges|
  {
    if |edges| > 0 {
      assert edges == [edges[0]] + edges[1..];
      assert FixEdge(store, edges[0]) == Some(store);
      FixAllKeepsHolding(store, edges[1..]);
    }
  }

  /** `_fix_dependencies`: a raised error is caught before the commit, so
      the whole fix rolls back. */
  function FixDependencies(store: Store, edges: seq<Edge>): (s: Store)
    ensures OnlyDepsGrow(store, s)
  {
    match FixAll(store, edges)
    case None => store
    case Some(s) => s
  }

  /** The fix either establishes every edge or leaves the table as it was,
      and it rolls back exactly on a malformed column. */
  lemma FixDependenciesOutcome(store: Store, edges: seq<Edge>)
    ensures HitsMalformed(store, edges) ==> FixDependencies(store, edges) == store
    ensures !HitsMalformed(store, edges) ==> EdgesHold(FixDependencies(store, edges), edges)
  {
    FixAllFails(store, edges);
    if !HitsMalformed(store, edges) {
      FixAllEstablishes(store, edges);
    }
  }

  /** Running the fix twice is running it once. */
  lemma FixDependenciesIdempotent(store: Store, edges: seq<Edge>)
    ensures FixDependencies(FixDependencies(store, edges), edges) == FixDependencies(store, edges)
  {
    var once := FixDependencies(store, edges);
    FixAllFails(store, edges);
    if HitsMalformed(store, edges) {
      assert once == store;
    } else {
      FixAllEstablishes(store, edges);
      FixAllKeepsHolding(once, edges);
    }
  }

  // ---------------------------------------------------------------------
  // The whole run

  /** The `agent_mcp_intelligent_migration` context record. */
  datatype MigrationRecord = MigrationRecord(totalTasks: nat, phasesCreated: nat, version: string)

  /** `run_intelligent_migration` with the rows of the table, oldest first. */
  datatype RunResult = RunResult(ok: bool, store: Store, record: Option<MigrationRecord>)

  /** The plan `determine_optimal_phases` returns for the loaded rows. */
  function PlanAsWrittenFor(rows: seq<Task>): PhasePlan {
    PlanAsWritten(GroupLayers(AnalyzeLayers(rows)))
  }

  /** The corrected plan, which assigns a task only to a phase it creates. */
  function PlanFor(rows: seq<Task>): PhasePlan {
    Plan(GroupLayers(AnalyzeLayers(rows)))
  }

  /** The steps of the run with a given plan: create its phases, move the
      assigned tasks, add the implicit dependencies and record the run. */
  function RunWith(rows: seq<Task>, plan: PhasePlan): (r: RunResult)
    ensures r.ok
    ensures !NeedsMigration(rows) ==> r == RunResult(true, StoreOf(rows), None)
    ensures NeedsMigration(rows) ==>
              r.record == Some(MigrationRecord(|rows|, |plan.recommended|, "2.0"))
  {
    if !NeedsMigration(rows) then RunResult(true, StoreOf(rows), None)
    else
      var created := CreatePhases(StoreOf(rows), plan.recommended);
      var migrated := MigrateAll(created, plan);
      var fixed := FixDependencies(migrated, ImplicitDependencies(rows));
      RunResult(true, fixed, Some(MigrationRecord(|rows|, |plan.recommended|, "2.0")))
  }

  /** The run as written, following the plan `determine_optimal_phases`
      returns. */
  function Run(rows: seq<Task>): (r: RunResult)
    ensures r.ok
    ensures !NeedsMigration(rows) ==> r == RunResult(true, StoreOf(rows), None)
    ensures NeedsMigration(rows) ==>
              r.record == Some(MigrationRecord(|rows|, |PlanAsWrittenFor(rows).recommended|, "2.0"))
  {
    RunWith(rows, PlanAsWrittenFor(rows))
  }

  /** The run following the corrected plan. */
  function RunCorrected(rows: seq<Task>): (r: RunResult)
    ensures r.ok
    ensures !NeedsMigration(rows) ==> r == RunResult(true, StoreOf(rows), None)
    ensures NeedsMigration(rows) ==>
              r.record == Some(MigrationRecord(|rows|, |PlanFor(rows).recommended|, "2.0"))
  {
    RunWith(rows, PlanFor(rows))
  }

  /** The phase ids never collide with a table that needs migrating. */
  lemma PhaseIdsAreNew(rows: seq<Task>, id: string)
    requires NeedsMigration(rows) && id in PhaseOrder
    ensures id !in StoreOf(rows)
  {
    PhaseIdIsLikePhase(id);
  }

  /** What both planners give: phases in phase order, and only loaded rows
      assigned. */
  ghost predicate FitsRows(rows: seq<Task>, plan: PhasePlan) {
    InPhaseOrder(IdsOfPhases(plan.recommended))
    && forall k :: k in plan.assignments ==> k in StoreOf(rows)
  }

  /** Only loaded rows are assigned a phase, by either planner. */
  lemma AssignedIdsAreRows(rows: seq<Task>, k: string)
    requires k in PlanFor(rows).assignments || k in PlanAsWrittenFor(rows).assignments
    ensures k in StoreOf(rows)
  {
    var gs := GroupLayers(AnalyzeLayers(rows));
    var g: Group :| k in IdSet(GroupList(gs, g));
    var t :| t in GroupList(gs, g) && t.id == k;
    GroupMember(rows, t, g);
  }

  lemma PlansFitRows(rows: seq<Task>)
    ensures FitsRows(rows, PlanFor(rows)) && FitsRows(rows, PlanAsWrittenFor(rows))
  {
    forall k | k in PlanFor(rows).assignments ensures k in StoreOf(rows) {
      AssignedIdsAreRows(rows, k);
    }
    forall k | k in PlanAsWrittenFor(rows).assignments ensures k in StoreOf(rows) {
      AssignedIdsAreRows(rows, k);
    }
  }

  /** Phases listed in phase order have distinct ids from `PhaseOrder`. */
  lemma OrderedPhasesDistinct(rs: seq<RecommendedPhase>)
    requires InPhaseOrder(IdsOfPhases(rs))
    ensures forall a, b :: 0 <= a < b < |rs| ==> rs[a].id != rs[b].id
    ensures forall r :: r in rs ==> r.id in PhaseOrder
  {
    var ids := IdsOfPhases(rs);
    forall a, b | 0 <= a < b < |rs| ensures rs[a].id != rs[b].id {
      assert ids[a] == rs[a].id && ids[b] == rs[b].id;
    }
    forall r | r in rs ensures r.id in PhaseOrder {
      var j :| 0 <= j < |rs| && rs[j] == r;
      assert ids[j] in PhaseOrder;
    }
  }

  /** Phases in phase order have distinct ids that the table lacks. */
  lemma RecommendedAreNew(rows: seq<Task>, rs: seq<RecommendedPhase>)
    requires NeedsMigration(rows) && InPhaseOrder(IdsOfPhases(rs))
    ensures (forall a, b :: 0 <= a < b < |rs| ==> rs[a].id != rs[b].id)
            && forall r :: r in rs ==> r.id !in StoreOf(rows)
  {
    OrderedPhasesDistinct(rs);
    PhaseIdsAreNew(rows, Phase1);
    PhaseIdsAreNew(rows, Phase2);
    PhaseIdsAreNew(rows, Phase3);
    PhaseIdsAreNew(rows, Phase4);
  }

  lemma RunWithKeys(rows: seq<Task>, plan: PhasePlan)
    requires NeedsMigration(rows)
    ensures RunWith(rows, plan).store.Keys == (set t | t in rows :: t.id) + PhaseIds(plan.recommended)
  {
  }

  /** After a run that migrates, the table holds the old rows and one row
      per recommended phase, and nothing else. */
  lemma RunKeys(rows: seq<Task>)
    requires NeedsMigration(rows)
    ensures Run(rows).store.Keys == (set t | t in rows :: t.id) + PhaseIds(PlanAsWrittenFor(rows).recommended)
  {
  }

  lemma RunCorrectedKeys(rows: seq<Task>)
    requires NeedsMigration(rows)
    ensures RunCorrected(rows).store.Keys == (set t | t in rows :: t.id) + PhaseIds(PlanFor(rows).recommended)
  {
  }

  /** With any plan, an assigned old task ends up under its phase, or under
      its old parent when that parent was assigned the same phase. */
  lemma RunWithPlacesTask(rows: seq<Task>, plan: PhasePlan, t: Task)
    requires NeedsMigration(rows) && DistinctIds(rows) && t in rows && t.id in plan.assignments
    ensures t.id in RunWith(rows, plan).store
    ensures var phase := plan.assignments[t.id];
            var u := RunWith(rows, plan).store[t.id];
            u.parent == Some(phase)
            || (u.parent == t.parent && t.parent.Some? && t.parent.value in plan.assignments
                && plan.assignments[t.parent.value] == phase)
  {
    var phase := plan.assignments[t.id];
    StoreOfHolds(rows, t);
    var created := CreatePhases(StoreOf(rows), plan.recommended);
    assert created[t.id] == t;
    var migrated := MigrateAll(created, plan);
    assert migrated[t.id] == MigrateTask(t, phase, plan);
    var fixed := FixDependencies(migrated, ImplicitDependencies(rows));
    assert fixed[t.id].parent == migrated[t.id].parent;
  }

  /** After the run as written, every old task sits under the phase the
      as-written rules pick for its group, or under its old parent when that
      parent went to the same phase. The phase need not have a row. */
  lemma RunPlacesTask(rows: seq<Task>, t: Task)
    requires NeedsMigration(rows) && DistinctIds(rows) && t in rows
    ensures t.id in Run(rows).store && t.id in PlanAsWrittenFor(rows).assignments
    ensures var gs := GroupLayers(AnalyzeLayers(rows));
            var plan := PlanAsWrittenFor(rows);
            var phase := plan.assignments[t.id];
            var u := Run(rows).store[t.id];
            phase == AsWrittenTarget(GroupOf(t), gs)
            && (u.parent == Some(phase)
                || (u.parent == t.parent && t.parent.Some? && t.parent.value in plan.assignments
                    && plan.assignments[t.parent.value] == phase))
  {
    PlanAsWrittenAssigns(rows, t);
    RunWithPlacesTask(rows, PlanAsWrittenFor(rows), t);
  }

  /** After the corrected run, every old task sits under its assigned phase,
      or under its old parent when that parent went to the same phase, and
      that phase has a row of its own. */
  lemma RunCorrectedPlacesTask(rows: seq<Task>, t: Task)
    requires NeedsMigration(rows) && DistinctIds(rows) && t in rows
    ensures t.id in RunCorrected(rows).store && t.id in PlanFor(rows).assignments
    ensures var plan := PlanFor(rows);
            var phase := plan.assignments[t.id];
            var u := RunCorrected(rows).store[t.id];
            phase in PhaseIds(plan.recommended) && phase in RunCorrected(rows).store
            && (u.parent == Some(phase)
                || (u.parent == t.parent && t.parent.Some? && t.parent.value in plan.assignments
                    && plan.assignments[t.parent.value] == phase))
  {
    var plan := PlanFor(rows);
    PlanAssigns(rows, t);
    var phase := plan.assignments[t.id];
    assert phase in IdsOfPhases(plan.recommended);
    var i :| 0 <= i < |plan.recommended| && IdsOfPhases(plan.recommended)[i] == phase;
    assert plan.recommended[i] in plan.recommended;
    RunWithPlacesTask(rows, plan, t);
    RunCorrectedKeys(rows);
  }

  /** With a plan that fits the rows, each recommended phase has the row
      `_create_phase` builds for it, apart from dependencies the fix adds. */
  lemma RunWithCreatesPhase(rows: seq<Task>, plan: PhasePlan, i: nat)
    requires NeedsMigration(rows) && FitsRows(rows, plan) && i < |plan.recommended|
    ensures plan.recommended[i].id in RunWith(rows, plan).store
    ensures var r := plan.recommended[i];
            RunWith(rows, plan).store[r.id].(deps := DepList([])) == PhaseRow(r)
            && RunWith(rows, plan).store[r.id].deps.DepList?
  {
    var rs := plan.recommended;
    RecommendedAreNew(rows, rs);
    var r := rs[i];
    assert r in rs;
    CreatePhasesRows(StoreOf(rows), rs, i);
    var created := CreatePhases(StoreOf(rows), rs);
    assert created[r.id] == PhaseRow(r);
    assert r.id !in plan.assignments;
    var migrated := MigrateAll(created, plan);
    assert migrated[r.id] == PhaseRow(r);
    var fixed := FixDependencies(migrated, ImplicitDependencies(rows));
    assert fixed[r.id].(deps := migrated[r.id].deps) == migrated[r.id];
  }

  /** After the run as written, each recommended phase has the row
      `_create_phase` builds for it, apart from dependencies the fix adds. */
  lemma RunCreatesPhase(rows: seq<Task>, i: nat)
    requires NeedsMigration(rows) && i < |PlanAsWrittenFor(rows).recommended|
    ensures PlanAsWrittenFor(rows).recommended[i].id in Run(rows).store
    ensures var r := PlanAsWrittenFor(rows).recommended[i];
            Run(rows).store[r.id].(deps := DepList([])) == PhaseRow(r)
            && Run(rows).store[r.id].deps.DepList?
  {
    PlansFitRows(rows);
    RunWithCreatesPhase(rows, PlanAsWrittenFor(rows), i);
  }

  lemma RunCorrectedCreatesPhase(rows: seq<Task>, i: nat)
    requires NeedsMigration(rows) && i < |PlanFor(rows).recommended|
    ensures PlanFor(rows).recommended[i].id in RunCorrected(rows).store
    ensures var r := PlanFor(rows).recommended[i];
            RunCorrected(rows).store[r.id].(deps := DepList([])) == PhaseRow(r)
            && RunCorrected(rows).store[r.id].deps.DepList?
  {
    PlansFitRows(rows);
    RunWithCreatesPhase(rows, PlanFor(rows), i);
  }

  // ---------------------------------------------------------------------
  // The two runs on one table

  /** A task titled "logic" and one titled "ui". */
  function LogicAndUi(): seq<Task> {
    [Sample("a", "logic"), Sample("b", "ui")]
  }

  lemma LogicAndUiShape()
    ensures var rows := LogicAndUi();
            NeedsMigration(rows) && DistinctIds(rows)
            && |rows| == 2 && rows[0].id == "a" && rows[1].id == "b"
            && rows[0].parent.None? && rows[1].parent.None?
  {
    var rows := LogicAndUi();
    assert rows[0].id == "a" && rows[1].id == "b";
  }

  /** The plan as written creates no phase but assigns phases 1 and 2. */
  lemma LogicAndUiAsWrittenPlan()
    ensures PlanAsWrittenFor(LogicAndUi()).recommended == []
    ensures PlanAsWrittenFor(LogicAndUi()).assignments == map["a" := Phase1, "b" := Phase2]
  {
    AsWrittenAssignsUncreatedPhases();
  }

  /** The corrected plan creates phase 1 and assigns both tasks to it. */
  lemma LogicAndUiCorrectedPlan()
    ensures IdsOfPhases(PlanFor(LogicAndUi()).recommended) == [Phase1]
    ensures PlanFor(LogicAndUi()).assignments == map["a" := Phase1, "b" := Phase1]
  {
    CorrectedCreatesAssignedPhase();
  }

  /** The run as written records no phase and leaves both tasks under
      phases that have no row. */
  lemma AsWrittenRunOrphansTasks()
    ensures var s := Run(LogicAndUi()).store;
            Run(LogicAndUi()).record == Some(MigrationRecord(2, 0, "2.0"))
            && "a" in s && "b" in s
            && s["a"].parent == Some(Phase1) && s["b"].parent == Some(Phase2)
            && Phase1 !in s && Phase2 !in s
  {
    LogicAndUiShape();
    LogicAndUiAsWrittenPlan();
    AsWrittenOrphansOn(LogicAndUi());
  }

  lemma AsWrittenOrphansOn(rows: seq<Task>)
    requires NeedsMigration(rows) && DistinctIds(rows)
    requires |rows| == 2 && rows[0].id == "a" && rows[1].id == "b"
    requires rows[0].parent.None? && rows[1].parent.None?
    requires PlanAsWrittenFor(rows).recommended == []
    requires PlanAsWrittenFor(rows).assignments == map["a" := Phase1, "b" := Phase2]
    ensures var s := Run(rows).store;
            Run(rows).record == Some(MigrationRecord(2, 0, "2.0"))
            && "a" in s && "b" in s
            && s["a"].parent == Some(Phase1) && s["b"].parent == Some(Phase2)
            && Phase1 !in s && Phase2 !in s
  {
    OrphansWith(rows, PlanAsWrittenFor(rows));
  }

  lemma OrphansWith(rows: seq<Task>, plan: PhasePlan)
    requires NeedsMigration(rows) && DistinctIds(rows)
    requires |rows| == 2 && rows[0].id == "a" && rows[1].id == "b"
    requires rows[0].parent.None? && rows[1].parent.None?
    requires plan.recommended == [] && plan.assignments == map["a" := Phase1, "b" := Phase2]
    ensures var s := RunWith(rows, plan).store;
            RunWith(rows, plan).record == Some(MigrationRecord(2, 0, "2.0"))
            && "a" in s && "b" in s
            && s["a"].parent == Some(Phase1) && s["b"].parent == Some(Phase2)
            && Phase1 !in s && Phase2 !in s
  {
    RunWithKeys(rows, plan);
    assert PhaseIds(plan.recommended) == {};
    PhaseIdsAreNew(rows, Phase1);
    PhaseIdsAreNew(rows, Phase2);
    RunWithPlacesTask(rows, plan, rows[0]);
    RunWithPlacesTask(rows, plan, rows[1]);
  }

  /** The corrected run records one phase, creates it and puts both tasks
      under it. */
  lemma CorrectedRunCreatesPhase1()
    ensures var s := RunCorrected(LogicAndUi()).store;
            RunCorrected(LogicAndUi()).record == Some(MigrationRecord(2, 1, "2.0"))
            && Phase1 in s && "a" in s && "b" in s
            && s["a"].parent == Some(Phase1) && s["b"].parent == Some(Phase1)
  {
    LogicAndUiShape();
    LogicAndUiCorrectedPlan();
    CorrectedCreatesOn(LogicAndUi());
  }

  lemma CorrectedCreatesOn(rows: seq<Task>)
    requires NeedsMigration(rows) && DistinctIds(rows)
    requires |rows| == 2 && rows[0].id == "a" && rows[1].id == "b"
    requires rows[0].parent.None? && rows[1].parent.None?
    requires IdsOfPhases(PlanFor(rows).recommended) == [Phase1]
    requires PlanFor(rows).assignments == map["a" := Phase1, "b" := Phase1]
    ensures var s := RunCorrected(rows).store;
            RunCorrected(rows).record == Some(MigrationRecord(2, 1, "2.0"))
            && Phase1 in s && "a" in s && "b" in s
            && s["a"].parent == Some(Phase1) && s["b"].parent == Some(Phase1)
  {
    CreatesWith(rows, PlanFor(rows));
  }

  lemma CreatesWith(rows: seq<Task>, plan: PhasePlan)
    requires NeedsMigration(rows) && DistinctIds(rows)
    requires |rows| == 2 && rows[0].id == "a" && rows[1].id == "b"
    requires rows[0].parent.None? && rows[1].parent.None?
    requires IdsOfPhases(plan.recommended) == [Phase1]
    requires plan.assignments == map["a" := Phase1, "b" := Phase1]
    ensures var s := RunWith(rows, plan).store;
            RunWith(rows, plan).record == Some(MigrationRecord(2, 1, "2.0"))
            && Phase1 in s && "a" in s && "b" in s
            && s["a"].parent == Some(Phase1) && s["b"].parent == Some(Phase1)
  {
    assert |plan.recommended| == 1;
    assert plan.recommended[0].id == Phase1;
    assert Phase1 in PhaseIds(plan.recommended);
    RunWithKeys(rows, plan);
    RunWithPlacesTask(rows, plan, rows[0]);
    RunWithPlacesTask(rows, plan, rows[1]);
  }
}
