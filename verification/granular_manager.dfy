/** `GranularMigrationManager` and `_create_phases_from_workstreams`: the
    four steps run over the loaded rows, then phases, workstream roots and
    the task moves are written in one transaction that any error rolls
    back. */
module GranularManager {
  import opened Wrappers
  import opened Text
  import opened Tasks
  import opened OrderedMaps
  import Seqs
  import opened RelationshipGraph
  import opened RelationshipPlan
  import opened GranularState
  import opened GranularMapping

  /** `created_by` and note author of every row and note this planner
      writes. */
  const Migrator := "granular_migration"

  // ---------------------------------------------------------------------
  // Phases from workstreams

  datatype PhaseInfo = PhaseInfo(name: string, description: string)

  /** `_get_phase_info`: the definition of one of the four phases, `{}`
      (here `None`) for anything else. */
  function PhaseInfoOf(p: Option<string>): (r: Option<PhaseInfo>)
    ensures r.Some? <==> p.Some? && p.value in PhaseOrder
  {
    if p == Some(Phase1) then
      Some(PhaseInfo("Phase 1: Foundation", "Core system architecture, database, authentication, and basic APIs"))
    else if p == Some(Phase2) then
      Some(PhaseInfo("Phase 2: Intelligence", "Core business logic, algorithms, and intelligent features"))
    else if p == Some(Phase3) then
      Some(PhaseInfo("Phase 3: Coordination", "User interface, integration, and system coordination"))
    else if p == Some(Phase4) then
      Some(PhaseInfo("Phase 4: Optimization", "Performance tuning, testing, and production optimization"))
    else None
  }

  /** One entry of `phases_to_create`. */
  datatype PhasePlan = PhasePlan(
    phase: Option<string>, status: string, workstreams: OMap<string, seq<Task>>, tasks: seq<Task>)

  /** Completed phases are marked completed, the current one in progress,
      any other pending. */
  function PhaseStatus(p: Option<string>, m: PhaseMapping): (s: string)
    ensures s == "completed" <==> p.Some? && p.value in m.completed
    ensures s == "in_progress" <==> !(p.Some? && p.value in m.completed) && p == m.current
    ensures s == "pending" <==> !(p.Some? && p.value in m.completed) && p != m.current
  {
    if p.Some? && p.value in m.completed then "completed"
    else if p == m.current then "in_progress"
    else "pending"
  }

  function WsTasks(w: Workstream): multiset<Task> {
    multiset(w.tasks)
  }

  function PlanTasks(p: PhasePlan): multiset<Task> {
    multiset(p.tasks)
  }

  /** Each plan sits under its own phase, carries that phase's status and
      holds its workstreams' task lists. */
  ghost predicate PlansFit(r: OMap<Option<string>, PhasePlan>, m: PhaseMapping) {
    forall j :: 0 <= j < |r| ==> r[j].1.phase == r[j].0 && r[j].1.status == PhaseStatus(r[j].0, m)
  }

  /** `_create_phases_from_workstreams`: one plan per phase in order of
      first appearance, holding every task of the workstreams placed in
      it. */
  function PhasesFromWorkstreams(ws: OMap<string, Workstream>, m: PhaseMapping)
    : (r: OMap<Option<string>, PhasePlan>)
    ensures UniqueKeys(r)
    ensures PlansFit(r, m)
    ensures PhasesSeen(r, ws)
    ensures BagOf(r, PlanTasks) == BagOf(ws, WsTasks)
    decreases |ws|
  {
    if |ws| == 0 then []
    else
      var r0 := PhasesFromWorkstreams(ws[..|ws| - 1], m);
      PlanLast(r0, ws, m);
      AddToPlan(r0, ws[|ws| - 1].1, m)
  }

  lemma PlanLast(r0: OMap<Option<string>, PhasePlan>, ws: OMap<string, Workstream>, m: PhaseMapping)
    requires |ws| > 0
    requires UniqueKeys(r0) && PlansFit(r0, m) && PhasesSeen(r0, ws[..|ws| - 1])
    requires BagOf(r0, PlanTasks) == BagOf(ws[..|ws| - 1], WsTasks)
    ensures var r := AddToPlan(r0, ws[|ws| - 1].1, m);
            UniqueKeys(r) && PlansFit(r, m) && PhasesSeen(r, ws) && BagOf(r, PlanTasks) == BagOf(ws, WsTasks)
  {
    var prefix := ws[..|ws| - 1];
    var e := ws[|ws| - 1];
    PlanStep(r0, prefix, e, m);
    assert ws == prefix + [e];
  }

  /** `phase_info_map[phase_id]['workstreams'][key] = tasks` and the
      extension of its task list, creating the plan on first sight. */
  function AddToPlan(r0: OMap<Option<string>, PhasePlan>, w: Workstream, m: PhaseMapping)
    : OMap<Option<string>, PhasePlan>
  {
    var plan := GetOr(r0, w.phase, PhasePlan(w.phase, PhaseStatus(w.phase, m), [], []));
    Put(r0, w.phase, plan.(workstreams := Put(plan.workstreams, w.key, w.tasks), tasks := plan.tasks + w.tasks))
  }

  /** The phases holding a plan are exactly those of some workstream. */
  ghost predicate PhasesSeen(r: OMap<Option<string>, PhasePlan>, ws: OMap<string, Workstream>) {
    forall p :: HasKey(r, p) <==> exists j :: 0 <= j < |ws| && ws[j].1.phase == p
  }

  lemma PlanStep(r0: OMap<Option<string>, PhasePlan>, prefix: OMap<string, Workstream>,
                 e: (string, Workstream), m: PhaseMapping)
    requires UniqueKeys(r0) && PlansFit(r0, m) && PhasesSeen(r0, prefix)
    requires BagOf(r0, PlanTasks) == BagOf(prefix, WsTasks)
    ensures var r := AddToPlan(r0, e.1, m);
            UniqueKeys(r) && PlansFit(r, m) && PhasesSeen(r, prefix + [e])
            && BagOf(r, PlanTasks) == BagOf(prefix + [e], WsTasks)
  {
    var w := e.1;
    var plan := GetOr(r0, w.phase, PhasePlan(w.phase, PhaseStatus(w.phase, m), [], []));
    var plan2 := plan.(workstreams := Put(plan.workstreams, w.key, w.tasks), tasks := plan.tasks + w.tasks);
    PutUnique(r0, w.phase, plan2);
    PlanFitStep(r0, w, m);
    PlanSeenStep(r0, prefix, e, plan2);
    if HasKey(r0, w.phase) {
      var i := OrderedMaps.IndexOf(r0, w.phase);
      assert plan == r0[i].1;
    }
    PlanBag(r0, w.phase, plan, plan2, w.tasks);
    BagOfConcat(prefix, [e], WsTasks);
    assert BagOf([e], WsTasks) == multiset(w.tasks) by {
      assert [e][1..] == [];
    }
  }

  lemma PlanFitStep(r0: OMap<Option<string>, PhasePlan>, w: Workstream, m: PhaseMapping)
    requires PlansFit(r0, m)
    ensures PlansFit(AddToPlan(r0, w, m), m)
  {
    var plan := GetOr(r0, w.phase, PhasePlan(w.phase, PhaseStatus(w.phase, m), [], []));
    var plan2 := plan.(workstreams := Put(plan.workstreams, w.key, w.tasks), tasks := plan.tasks + w.tasks);
    var r := Put(r0, w.phase, plan2);
    if HasKey(r0, w.phase) {
      var i := OrderedMaps.IndexOf(r0, w.phase);
      assert plan == r0[i].1;
    }
    forall j | 0 <= j < |r| ensures r[j].1.phase == r[j].0 && r[j].1.status == PhaseStatus(r[j].0, m) {
      if j < |r0| && r[j] != r0[j] {
        assert r[j] == (w.phase, plan2);
      }
    }
  }

  lemma PlanSeenStep(r0: OMap<Option<string>, PhasePlan>, prefix: OMap<string, Workstream>,
                     e: (string, Workstream), v: PhasePlan)
    requires PhasesSeen(r0, prefix)
    ensures PhasesSeen(Put(r0, e.1.phase, v), prefix + [e])
  {
    var r := Put(r0, e.1.phase, v);
    var ws := prefix + [e];
    forall p ensures HasKey(r, p) <==> exists j :: 0 <= j < |ws| && ws[j].1.phase == p {
      if p != e.1.phase {
        GetPutOther(r0, e.1.phase, v, p);
        if exists j :: 0 <= j < |ws| && ws[j].1.phase == p {
          var j :| 0 <= j < |ws| && ws[j].1.phase == p;
          assert j < |prefix| && prefix[j] == ws[j];
        }
        if HasKey(r0, p) {
          var j :| 0 <= j < |prefix| && prefix[j].1.phase == p;
          assert ws[j] == prefix[j];
        }
      } else {
        assert ws[|prefix|] == e;
      }
    }
  }

  /** Extending one plan's task list adds exactly those tasks. */
  lemma PlanBag(r0: OMap<Option<string>, PhasePlan>, p: Option<string>, plan: PhasePlan,
                plan2: PhasePlan, extra: seq<Task>)
    requires HasKey(r0, p) ==> plan == Get(r0, p)
    requires !HasKey(r0, p) ==> plan.tasks == []
    requires plan2.tasks == plan.tasks + extra
    ensures BagOf(Put(r0, p, plan2), PlanTasks) == BagOf(r0, PlanTasks) + multiset(extra)
  {
    BagOfPut(r0, p, plan2, PlanTasks);
    assert PlanTasks(plan2) == multiset(plan.tasks) + multiset(extra);
    if HasKey(r0, p) {
      assert PlanTasks(Get(r0, p)) == multiset(plan.tasks);
      Seqs.MultisetCancel(BagOf(Put(r0, p, plan2), PlanTasks), multiset(plan.tasks), BagOf(r0, PlanTasks), multiset(extra));
    }
  }

  // ---------------------------------------------------------------------
  // Writing the phases

  function PhaseNote(status: string, n: nat): string {
    "🔧 Granular migration: Phase created with status '" + status
    + "' based on project state analysis. Contains " + NatToString(n) + " tasks."
  }

  /** The phase row `_create_phase` inserts. */
  function PhaseRow(id: string, info: PhaseInfo, plan: PhasePlan): Task {
    Task(id, info.name, info.description, plan.status, "high", None, [], DepList([]),
         [Note(Migrator, PhaseNote(plan.status, |plan.tasks|))], Migrator)
  }

  /** Rows already in the table are still there, unchanged. */
  ghost predicate Keeps(before: Store, after: Store) {
    forall k :: k in before ==> k in after && after[k] == before[k]
  }

  /** `_create_phase`: `phase_info['phase_id']` raises on the empty info of
      an unknown phase; an existing row is left alone. */
  function CreatePhase(store: Store, plan: PhasePlan): (r: Result<Store, string>)
    ensures r.Err? <==> PhaseInfoOf(plan.phase).None?
    ensures r.Ok? ==> Keeps(store, r.value) && r.value.Keys == store.Keys + {plan.phase.value}
    ensures r.Ok? && plan.phase.value !in store ==>
              var row := r.value[plan.phase.value];
              row.status == plan.status && row.parent.None? && row.children == []
              && row.title == PhaseInfoOf(plan.phase).value.name && |row.notes| == 1
  {
    match PhaseInfoOf(plan.phase)
    case None => Err("KeyError: 'phase_id'")
    case Some(info) =>
      var id := plan.phase.value;
      if id in store then Ok(store) else Ok(store[id := PhaseRow(id, info, plan)])
  }

  function PhaseIds(plans: OMap<Option<string>, PhasePlan>): set<string>
    decreases |plans|
  {
    if |plans| == 0 then {}
    else (if plans[0].1.phase.Some? then {plans[0].1.phase.value} else {}) + PhaseIds(plans[1..])
  }

  /** The loop over `phases_to_create`: the first plan without a phase
      definition aborts it. */
  function CreatePhases(store: Store, plans: OMap<Option<string>, PhasePlan>): (r: Result<Store, string>)
    ensures r.Err? <==> exists j :: 0 <= j < |plans| && PhaseInfoOf(plans[j].1.phase).None?
    ensures r.Ok? ==> Keeps(store, r.value) && r.value.Keys == store.Keys + PhaseIds(plans)
    decreases |plans|
  {
    if |plans| == 0 then Ok(store)
    else
      assert plans == [plans[0]] + plans[1..];
      match CreatePhase(store, plans[0].1)
      case Err(e) => Err(e)
      case Ok(s1) => CreatePhases(s1, plans[1..])
  }

  // ---------------------------------------------------------------------
  // Writing the workstream roots

  /** The root's status from its tasks' statuses: all completed is
      completed, any progress or any completed task is in progress, and
      anything else (no tasks included) is pending. */
  function RollUp(ts: seq<Task>): (s: string)
    ensures s == "completed" <==> |ts| > 0 && forall i :: 0 <= i < |ts| ==> ts[i].status == "completed"
    ensures s == "pending" <==>
              forall i :: 0 <= i < |ts| ==> ts[i].status != "completed" && ts[i].status != "in_progress"
    ensures s == "completed" || s == "in_progress" || s == "pending"
  {
    if |ts| == 0 then "pending"
    else if CountStatus(ts, "completed") == |ts| then "completed"
    else if CountStatus(ts, "in_progress") > 0 then "in_progress"
    else if CountStatus(ts, "completed") > 0 then "in_progress"
    else "pending"
  }

  function Titles(ts: seq<Task>): (r: seq<string>)
    ensures |r| == |ts|
    ensures forall i :: 0 <= i < |ts| ==> r[i] == ts[i].title
  {
    seq(|ts|, i requires 0 <= i < |ts| => ts[i].title)
  }

  /** The root's description: the task count, the first two titles, and
      how many more there are. */
  function RootDescription(ts: seq<Task>): string {
    var n := |ts|;
    var d := "Workstream containing " + NatToString(n) + " related tasks";
    if n == 0 then d
    else
      var shown := Titles(if n <= 2 then ts else ts[..2]);
      d + " including: " + Join(shown, ", ") + (if n > 2 then " and " + NatToString(n - 2) + " more" else "")
  }

  function RootNote(n: nat): string {
    "🚀 Workstream root task created during migration. Groups " + NatToString(n) + " related tasks."
  }

  function RootRow(id: string, w: Workstream): Task {
    Task(id, w.title, RootDescription(w.tasks), RollUp(w.tasks), "high", w.phase, [], DepList([]),
         [Note(Migrator, RootNote(|w.tasks|))], Migrator)
  }

  /** `_create_workstream_root`: the insert fails on an existing id; the
      phase row must then be found, which fails for a `None` phase; the
      phase gains the root as a child. */
  function CreateRoot(store: Store, id: string, w: Workstream): (r: Result<Store, string>)
    ensures r.Err? <==> id in store || w.phase.None? || (w.phase.value !in store && w.phase.value != id)
    ensures r.Ok? ==> r.value.Keys == store.Keys + {id}
    ensures r.Ok? ==> r.value[id].parent == w.phase && r.value[id].status == RollUp(w.tasks)
    ensures r.Ok? ==> forall k :: k in store && Some(k) != w.phase ==> r.value[k] == store[k]
    ensures r.Ok? && w.phase.value != id ==>
              r.value[w.phase.value] == store[w.phase.value].(children := store[w.phase.value].children + [id])
  {
    if id in store then Err("IntegrityError: UNIQUE constraint failed: tasks.task_id")
    else
      var s1 := store[id := RootRow(id, w)];
      if w.phase.None? || w.phase.value !in s1 then Err("TypeError: 'NoneType' object is not subscriptable")
      else
        var p := s1[w.phase.value];
        Ok(s1[w.phase.value := p.(children := p.children + [id])])
  }

  /** The ids a list of workstreams may add: those with tasks. */
  ghost predicate FromNonEmpty(store: Store, after: Store, ws: OMap<string, Workstream>) {
    forall k :: k in after ==> k in store || exists j :: 0 <= j < |ws| && ws[j].0 == k && |ws[j].1.tasks| > 0
  }

  /** The loop over `workstream_mappings`: a workstream without tasks is
      skipped, so no root row is ever written for it. */
  function CreateRoots(store: Store, ws: OMap<string, Workstream>): (r: Result<Store, string>)
    ensures r.Ok? ==> store.Keys <= r.value.Keys && FromNonEmpty(store, r.value, ws)
    decreases |ws|
  {
    if |ws| == 0 then Ok(store)
    else
      match RootStep(store, ws[0])
      case Err(e) => Err(e)
      case Ok(s1) =>
        var r := CreateRoots(s1, ws[1..]);
        if r.Ok? then RootsStep(store, s1, r.value, ws); r else r
  }

  /** One step of the loop. */
  function RootStep(store: Store, e: (string, Workstream)): (r: Result<Store, string>)
    ensures r.Ok? ==> store.Keys <= r.value.Keys
    ensures r.Ok? ==> forall k :: k in r.value ==> k in store || (k == e.0 && |e.1.tasks| > 0)
  {
    if |e.1.tasks| > 0 then CreateRoot(store, e.0, e.1) else Ok(store)
  }

  lemma RootsStep(store: Store, s1: Store, s2: Store, ws: OMap<string, Workstream>)
    requires |ws| > 0
    requires forall k :: k in s1 ==> k in store || (k == ws[0].0 && |ws[0].1.tasks| > 0)
    requires FromNonEmpty(s1, s2, ws[1..])
    ensures FromNonEmpty(store, s2, ws)
  {
    forall k | k in s2 ensures k in store || exists j :: 0 <= j < |ws| && ws[j].0 == k && |ws[j].1.tasks| > 0 {
      if k !in s1 {
        var j :| 0 <= j < |ws[1..]| && ws[1..][j].0 == k && |ws[1..][j].1.tasks| > 0;
        assert ws[j + 1] == ws[1..][j];
      } else if k !in store {
        assert ws[0].0 == k;
      }
    }
  }

  // ---------------------------------------------------------------------
  // Moving the tasks

  function MigrationNote(parentId: string): Note {
    Note(Migrator, "🔧 Relationship-aware migration: Task organized under " + parentId
                   + " workstream. Hierarchy preserved.")
  }

  /** The parent is replaced when it is missing or empty, a phase or a
      workstream root, or a task id the table does not hold. */
  predicate ShouldReparent(store: Store, t: Task) {
    t.parent.None? || t.parent.value == "" || IsPhaseId(t.parent.value) || IsRootId(t.parent.value)
    || t.parent.value !in store
  }

  /** `child_tasks` gains the task unless it is already there. */
  function AddChild(p: Task, id: string): (r: Task)
    ensures id in r.children
    ensures id in p.children ==> r == p
    ensures id !in p.children ==> r == p.(children := p.children + [id])
  {
    if id in p.children then p else p.(children := p.children + [id])
  }

  /** `_migrate_task`: a missing task reports failure and writes nothing;
      otherwise exactly one note is appended to the task, and when the
      parent rule applies the task moves under the new parent, which gains
      it as a child at most once. */
  function MigrateTask(store: Store, taskId: string, parentId: string): (r: (Store, bool))
    ensures r.1 <==> taskId in store
    ensures !r.1 ==> r.0 == store
    ensures r.0.Keys == store.Keys
    ensures r.1 ==> r.0[taskId].notes == store[taskId].notes + [MigrationNote(parentId)]
    ensures forall k :: k in store && k != taskId ==> r.0[k].notes == store[k].notes
    ensures forall k :: k in store && k != taskId ==> r.0[k].parent == store[k].parent
    ensures forall k :: k in store && k != parentId ==> r.0[k].children == store[k].children
    ensures r.1 ==> r.0[taskId].parent == (if ShouldReparent(store, store[taskId]) then Some(parentId)
                                           else store[taskId].parent)
    ensures r.1 && ShouldReparent(store, store[taskId]) && parentId in store ==>
              r.0[parentId].children == AddChild(store[parentId], taskId).children
    ensures r.1 && !ShouldReparent(store, store[taskId]) ==>
              forall k :: k in store ==> r.0[k].children == store[k].children
  {
    if taskId !in store then (store, false)
    else
      var t := store[taskId];
      var note := MigrationNote(parentId);
      if ShouldReparent(store, t) then
        var s1 := store[taskId := t.(parent := Some(parentId), notes := t.notes + [note])];
        if parentId in s1 then (s1[parentId := AddChild(s1[parentId], taskId)], true)
        else (s1, true)
      else (store[taskId := AddNote(t, note)], true)
  }

  /** The loop over `task_assignments`. */
  function MigrateAll(store: Store, a: OMap<string, string>): (r: Store)
    ensures r.Keys == store.Keys
    decreases |a|
  {
    if |a| == 0 then store else MigrateAll(MigrateTask(store, a[0].0, a[0].1).0, a[1..])
  }

  /** With each task assigned once, every assigned task in the table gains
      exactly one note, naming its workstream, and every other row's notes
      stay as they were. */
  lemma {:induction false} MigrateAllNotes(store: Store, a: OMap<string, string>, k: string)
    requires UniqueKeys(a) && k in store
    ensures MigrateAll(store, a)[k].notes ==
              store[k].notes + (if HasKey(a, k) then [MigrationNote(Get(a, k))] else [])
    decreases |a|
  {
    if |a| > 0 {
      var s1 := MigrateTask(store, a[0].0, a[0].1).0;
      UniqueTail(a);
      MigrateAllNotes(s1, a[1..], k);
      if a[0].0 == k {
        assert Get(a, k) == a[0].1;
      } else {
        GetTail(a, k);
      }
    }
  }

  /** With each task assigned once, an assigned task in the table moves
      under its workstream exactly when the parent rule applies, and every
      other row keeps its parent. */
  lemma {:induction false} MigrateAllParents(store: Store, a: OMap<string, string>, k: string)
    requires UniqueKeys(a) && k in store
    ensures MigrateAll(store, a)[k].parent ==
              (if HasKey(a, k) && ShouldReparent(store, store[k]) then Some(Get(a, k)) else store[k].parent)
    decreases |a|
  {
    if |a| > 0 {
      var s1 := MigrateTask(store, a[0].0, a[0].1).0;
      UniqueTail(a);
      MigrateAllParents(s1, a[1..], k);
      if a[0].0 == k {
        assert Get(a, k) == a[0].1;
      } else {
        GetTail(a, k);
      }
    }
  }

  // ---------------------------------------------------------------------
  // The whole run

  /** The four phase ids start with `phase_`. */
  lemma PhaseOrderArePhaseIds()
    ensures forall x :: x in PhaseOrder ==> IsPhaseId(x)
  {
    assert Phase1[..6] == "phase_" && Phase2[..6] == "phase_";
    assert Phase3[..6] == "phase_" && Phase4[..6] == "phase_";
  }

  /** The phase rows a successful phase loop adds all have phase ids. */
  lemma {:induction false} PhaseIdsArePhases(plans: OMap<Option<string>, PhasePlan>)
    requires forall j :: 0 <= j < |plans| ==> PhaseInfoOf(plans[j].1.phase).Some?
    ensures forall x :: x in PhaseIds(plans) ==> x in PhaseOrder
    decreases |plans|
  {
    if |plans| > 0 {
      assert forall j :: 1 <= j < |plans| ==> plans[1..][j - 1] == plans[j];
      PhaseIdsArePhases(plans[1..]);
    }
  }

  /** Writing the roots changes no old row's parent. */
  lemma {:induction false} CreateRootsParents(store: Store, ws: OMap<string, Workstream>, k: string)
    requires k in store && CreateRoots(store, ws).Ok?
    ensures CreateRoots(store, ws).value[k].parent == store[k].parent
    decreases |ws|
  {
    if |ws| > 0 {
      var s1 := RootStep(store, ws[0]).value;
      CreateRootsParents(s1, ws[1..], k);
    }
  }

  /** The phase and root rows written before the moves change no old
      row's parent and add only phase and root ids, so the parent rule
      reads the table as loaded: a successful migration moves an assigned
      row under its workstream root exactly when the rule applies to it. */
  lemma ExecuteParents(store: Store, plans: OMap<Option<string>, PhasePlan>, st: Structure, k: string)
    requires RootKeyed(st) && k in store
    requires Execute(store, plans, st).Ok?
    ensures Execute(store, plans, st).value[k].parent ==
              (if HasKey(st.assignments, k) && ShouldReparent(store, store[k]) then Some(Get(st.assignments, k))
               else store[k].parent)
  {
    var s1 := CreatePhases(store, plans).value;
    var s2 := CreateRoots(s1, st.workstreams).value;
    PhaseIdsArePhases(plans);
    PhaseOrderArePhaseIds();
    CreateRootsParents(s1, st.workstreams, k);
    MigrateAllParents(s2, st.assignments, k);
    forall x | x in s2 && x !in store ensures IsPhaseId(x) || IsRootId(x) {
      if x !in s1 {
        var j :| 0 <= j < |st.workstreams| && st.workstreams[j].0 == x && |st.workstreams[j].1.tasks| > 0;
      }
    }
    assert ShouldReparent(s2, s2[k]) == ShouldReparent(store, store[k]);
  }

  /** `_execute_granular_migration`: phases, then roots, then the moves;
      an error anywhere abandons the transaction. */
  function Execute(store: Store, plans: OMap<Option<string>, PhasePlan>, st: Structure)
    : (r: Result<Store, string>)
    ensures (exists j :: 0 <= j < |plans| && PhaseInfoOf(plans[j].1.phase).None?) ==> r.Err?
    ensures r.Ok? ==> store.Keys <= r.value.Keys
  {
    match CreatePhases(store, plans)
    case Err(e) => Err(e)
    case Ok(s1) =>
      match CreateRoots(s1, st.workstreams)
      case Err(e) => Err(e)
      case Ok(s2) => Ok(MigrateAll(s2, st.assignments))
  }

  /** Step 4 filters the cancelled rows out before the relationship
      analysis. */
  function NotCancelled(rows: seq<Task>): (r: seq<Task>)
    ensures forall t :: t in r <==> t in rows && t.status != "cancelled"
    decreases |rows|
  {
    if |rows| == 0 then []
    else
      assert rows == [rows[0]] + rows[1..];
      (if rows[0].status != "cancelled" then [rows[0]] else []) + NotCancelled(rows[1..])
  }

  /** Steps 5 to 7 once a structure is built, or not: the result flag and
      the table afterwards. */
  function RunWith(rows: seq<Task>, built: Option<Structure>, m: PhaseMapping): (r: (bool, Store))
    ensures !r.0 ==> r.1 == StoreOf(rows)
    ensures r.0 ==> StoreOf(rows).Keys <= r.1.Keys
    ensures built.None? ==> !r.0
    ensures built.Some? ==>
              (r.0 <==> Execute(StoreOf(rows), PhasesFromWorkstreams(built.value.workstreams, m), built.value).Ok?)
  {
    var store := StoreOf(rows);
    match built
    case None => (false, store)
    case Some(st) =>
      match Execute(store, PhasesFromWorkstreams(st.workstreams, m), st)
      case Ok(s2) => (true, s2)
      case Err(_) => (false, store)
  }

  /** `run_granular_migration` over the rows of the table, in `created_at`
      order: the result flag and the table afterwards. Nothing is written
      unless the guard holds and every step succeeds. The structure is the
      relationship planner's as written. */
  function Run(rows: seq<Task>): (r: (bool, Store))
    ensures !NeedsMigration(rows) ==> r == (true, StoreOf(rows))
    ensures !r.0 ==> r.1 == StoreOf(rows)
    ensures r.0 ==> StoreOf(rows).Keys <= r.1.Keys
  {
    if !NeedsMigration(rows) then (true, StoreOf(rows))
    else
      var m := MapToPhases(AnalyzeState(rows));
      RunWith(rows, WorkstreamStructureAsWritten(NotCancelled(rows), m.current, m.next), m)
  }

  /** The same run over the corrected relationship planner. */
  function RunCorrected(rows: seq<Task>): (r: (bool, Store))
    ensures !NeedsMigration(rows) ==> r == (true, StoreOf(rows))
    ensures !r.0 ==> r.1 == StoreOf(rows)
    ensures r.0 ==> StoreOf(rows).Keys <= r.1.Keys
  {
    if !NeedsMigration(rows) then (true, StoreOf(rows))
    else
      var m := MapToPhases(AnalyzeState(rows));
      RunWith(rows, WorkstreamStructure(NotCancelled(rows), m.current, m.next), m)
  }

  /** A workstream placed in the phase `None`, as the cluster-phase rule
      as written produces for untouched clusters in the last phase, makes
      the phase loop raise, so the whole migration is abandoned. */
  lemma NonePhaseAborts(store: Store, st: Structure, m: PhaseMapping, j: nat)
    requires j < |st.workstreams| && st.workstreams[j].1.phase.None?
    ensures Execute(store, PhasesFromWorkstreams(st.workstreams, m), st).Err?
  {
    var plans := PhasesFromWorkstreams(st.workstreams, m);
    assert HasKey(plans, None);
    var i := OrderedMaps.IndexOf(plans, None);
    assert plans[i].1.phase == None;
  }

  /** A built structure holding a workstream in the phase `None` makes
      the run report failure with nothing written. */
  lemma RunWithAborts(rows: seq<Task>, built: Option<Structure>, m: PhaseMapping, j: nat)
    requires built.Some? && j < |built.value.workstreams| && built.value.workstreams[j].1.phase.None?
    ensures RunWith(rows, built, m) == (false, StoreOf(rows))
  {
    NonePhaseAborts(StoreOf(rows), built.value, m, j);
  }

  /** As written, a workstream in the phase `None` can only come from a
      project in the last phase, where there is no next phase. */
  lemma AsWrittenNoneIsLast(tasks: seq<Task>, m: PhaseMapping, j: nat)
    requires m.current.Some? && (m.next.None? <==> m.current == Some(Phase4))
    requires var built := WorkstreamStructureAsWritten(tasks, m.current, m.next);
             built.Some? && j < |built.value.workstreams| && built.value.workstreams[j].1.phase.None?
    ensures m.current == Some(Phase4)
  {
    var ws := WorkstreamStructureAsWritten(tasks, m.current, m.next).value.workstreams;
    assert ws[j].1.phase in {Some(Phase1), m.current, m.next};
  }

  /** Such a workstream abandons the whole run. */
  lemma RunAbortsOnNonePhase(rows: seq<Task>, m: PhaseMapping, built: Option<Structure>, j: nat)
    requires NeedsMigration(rows) && m == MapToPhases(AnalyzeState(rows))
    requires built == WorkstreamStructureAsWritten(NotCancelled(rows), m.current, m.next)
    requires built.Some? && j < |built.value.workstreams| && built.value.workstreams[j].1.phase.None?
    ensures m.current == Some(Phase4)
    ensures Run(rows) == (false, StoreOf(rows))
  {
    AsWrittenNoneIsLast(NotCancelled(rows), m, j);
    RunWithAborts(rows, built, m, j);
  }

  /** Workstreams whose phases are all real phases give phase plans that
      are all real phases. */
  lemma RealPhasePlans(ws: OMap<string, Workstream>, m: PhaseMapping)
    requires forall j :: 0 <= j < |ws| ==> ws[j].1.phase.Some? && ws[j].1.phase.value in PhaseOrder
    ensures var plans := PhasesFromWorkstreams(ws, m);
            forall j :: 0 <= j < |plans| ==> PhaseInfoOf(plans[j].1.phase).Some?
  {
    var plans := PhasesFromWorkstreams(ws, m);
    forall j | 0 <= j < |plans|
      ensures PhaseInfoOf(plans[j].1.phase).Some?
    {
      assert HasKey(plans, plans[j].0);
      var i :| 0 <= i < |ws| && ws[i].1.phase == plans[j].0;
    }
  }

  /** With the corrected planner every phase the run creates is a real
      phase, so the abort of `RunAbortsOnNonePhase` never happens. */
  lemma RunCorrectedRealPhases(tasks: seq<Task>, m: PhaseMapping, st: Structure)
    requires m.current.Some? && m.current.value in PhaseOrder
    requires m.next.None? || m.next.value in PhaseOrder
    requires WorkstreamStructure(tasks, m.current, m.next) == Some(st)
    ensures var plans := PhasesFromWorkstreams(st.workstreams, m);
            forall j :: 0 <= j < |plans| ==> PhaseInfoOf(plans[j].1.phase).Some?
  {
    WorkstreamStructurePhases(tasks, m.current, m.next);
    RealPhasePlans(st.workstreams, m);
  }

  /** Where a successful run over any structure keyed by roots puts an old
      row: under its workstream root when it is assigned and the parent rule
      applies to it in the table as loaded, and under its old parent
      otherwise. */
  lemma RunWithPlacesTasks(rows: seq<Task>, built: Option<Structure>, m: PhaseMapping, k: string)
    requires built.Some? && RootKeyed(built.value) && k in StoreOf(rows)
    requires RunWith(rows, built, m).0
    ensures var a := built.value.assignments;
            var t := StoreOf(rows)[k];
            RunWith(rows, built, m).1[k].parent ==
              (if HasKey(a, k) && ShouldReparent(StoreOf(rows), t) then Some(Get(a, k)) else t.parent)
  {
    ExecuteParents(StoreOf(rows), PhasesFromWorkstreams(built.value.workstreams, m), built.value, k);
  }

  /** Where the run as written puts the tasks: on success an old row that
      the structure as written assigns moves under that workstream's root
      (`AsWrittenAssigns`) exactly when the parent rule applies, and every
      other row keeps its parent. */
  lemma RunPlacesTasks(rows: seq<Task>, m: PhaseMapping, built: Option<Structure>, k: string)
    requires NeedsMigration(rows) && m == MapToPhases(AnalyzeState(rows))
    requires built == WorkstreamStructureAsWritten(NotCancelled(rows), m.current, m.next)
    requires Run(rows).0 && k in StoreOf(rows)
    ensures built.Some?
    ensures var a := built.value.assignments;
            var t := StoreOf(rows)[k];
            Run(rows).1[k].parent ==
              (if HasKey(a, k) && ShouldReparent(StoreOf(rows), t) then Some(Get(a, k)) else t.parent)
  {
    StructuresRootKeyed(NotCancelled(rows), m.current, m.next);
    RunWithPlacesTasks(rows, built, m, k);
  }

  /** The structure as written assigns only regular tasks of the table, each
      once and to a workstream root id. */
  lemma AsWrittenAssigns(tasks: seq<Task>, current: Option<string>, next: Option<string>,
                         built: Option<Structure>, k: string)
    requires built == WorkstreamStructureAsWritten(tasks, current, next) && built.Some?
    ensures RootKeyed(built.value)
    ensures HasKey(built.value.assignments, k) ==> k in IdSet(tasks) && Regular(k)
    ensures HasKey(built.value.assignments, k) ==> IsRootId(Get(built.value.assignments, k))
  {
    StructuresRootKeyed(tasks, current, next);
    HasKeyIffInKeys(built.value.assignments, k);
  }

  /** The same for the corrected run, where the structure assigns exactly
      the regular tasks that are not cancelled: each of them moves under its
      workstream root when the parent rule applies (`CorrectedAssigns`). */
  lemma RunCorrectedPlacesTasks(rows: seq<Task>, m: PhaseMapping, built: Option<Structure>, k: string)
    requires NeedsMigration(rows) && m == MapToPhases(AnalyzeState(rows))
    requires built == WorkstreamStructure(NotCancelled(rows), m.current, m.next)
    requires RunCorrected(rows).0 && k in StoreOf(rows)
    ensures built.Some?
    ensures var a := built.value.assignments;
            var t := StoreOf(rows)[k];
            RunCorrected(rows).1[k].parent ==
              (if HasKey(a, k) && ShouldReparent(StoreOf(rows), t) then Some(Get(a, k)) else t.parent)
  {
    CorrectedAssigns(NotCancelled(rows), m.current, m.next, built, k);
    RunWithPlacesTasks(rows, built, m, k);
  }

  /** The corrected structure assigns exactly the regular tasks, each once
      and to a workstream root id. */
  lemma CorrectedAssigns(tasks: seq<Task>, current: Option<string>, next: Option<string>,
                         built: Option<Structure>, k: string)
    requires built == WorkstreamStructure(tasks, current, next) && built.Some?
    ensures RootKeyed(built.value)
    ensures HasKey(built.value.assignments, k) <==> k in IdSet(tasks) && Regular(k)
    ensures HasKey(built.value.assignments, k) ==> IsRootId(Get(built.value.assignments, k))
  {
    StructuresRootKeyed(tasks, current, next);
    WorkstreamStructureCovers(tasks, current, next);
    HasKeyIffInKeys(built.value.assignments, k);
  }
}
