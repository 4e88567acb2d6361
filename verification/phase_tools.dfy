/** The phase management tools: the fixed four-phase hierarchy, the
    completion analysis of a phase's child tasks, and the guards of the
    `create_phase` and `advance_phase` tools. The table is a list of rows
    in insertion order. */
module PhaseTools {
  import opened Wrappers
  import opened Text
  import opened Tasks

  /** One entry of `_get_phase_hierarchy()["phases"]`. */
  datatype PhaseDef = PhaseDef(
    id: string,
    name: string,
    description: string,
    order: nat,
    prerequisites: seq<string>,
    theoryFocus: string)

  const Hierarchy: seq<PhaseDef> := [
    PhaseDef(Phase1, "Phase 1: Foundation",
             "Core system architecture, database, authentication, and basic APIs",
             1, [], "System foundation and core data structures"),
    PhaseDef(Phase2, "Phase 2: Intelligence",
             "RAG system, embeddings, context management, and AI integration",
             2, [Phase1], "Knowledge systems and AI intelligence integration"),
    PhaseDef(Phase3, "Phase 3: Coordination",
             "Multi-agent workflows, task orchestration, and system integration",
             3, [Phase2], "Agent coordination and workflow orchestration"),
    PhaseDef(Phase4, "Phase 4: Optimization",
             "Performance tuning, scaling, monitoring, and production readiness",
             4, [Phase3], "System optimization and production deployment")
  ]

  /** The hierarchy is the linear progression: the i-th phase has order
      i + 1 and depends on exactly the phase before it. */
  lemma HierarchyIsLinear()
    ensures |Hierarchy| == |PhaseOrder|
    ensures forall i :: 0 <= i < |Hierarchy| ==>
              Hierarchy[i].id == PhaseOrder[i] && Hierarchy[i].order == i + 1
              && Hierarchy[i].prerequisites == (if i == 0 then [] else [PhaseOrder[i - 1]])
  {
  }

  // ---------------------------------------------------------------------
  // _analyze_phase_completion

  /** `WHERE parent_task = ? AND status != 'cancelled'`, in table order.
      The query's `ORDER BY priority DESC` is not modelled. */
  function PhaseTasks(rows: seq<Task>, phase: string): (r: seq<Task>)
    ensures forall t :: t in r <==> t in rows && t.parent == Some(phase) && t.status != "cancelled"
    ensures |r| <= |rows|
    decreases |rows|
  {
    if |rows| == 0 then []
    else
      var rest := PhaseTasks(rows[1..], phase);
      assert forall t :: t in rows <==> t == rows[0] || t in rows[1..];
      (if rows[0].parent == Some(phase) && rows[0].status != "cancelled" then [rows[0]] else []) + rest
  }

  /** The children neither completed nor cancelled, in order. */
  function Blocking(ts: seq<Task>): (r: seq<Task>)
    ensures forall t :: t in r <==> t in ts && t.status != "completed" && t.status != "cancelled"
    decreases |ts|
  {
    if |ts| == 0 then []
    else
      var rest := Blocking(ts[1..]);
      assert forall t :: t in ts <==> t == ts[0] || t in ts[1..];
      (if ts[0].status != "completed" && ts[0].status != "cancelled" then [ts[0]] else []) + rest
  }

  /** The dictionary `_analyze_phase_completion` returns. The percentage is
      kept as the two counts it is computed from. */
  datatype Completion = Completion(
    total: nat,
    completed: nat,
    failed: nat,
    inProgress: nat,
    pending: nat,
    canAdvance: bool,
    blocking: seq<Task>,
    status: string)

  /** `completion_percentage == 100`, read exactly. */
  predicate AllDone(completed: nat, total: nat) {
    total > 0 && completed == total
  }

  /** `completion_percentage >= 80`, read exactly. */
  predicate NearlyDone(completed: nat, total: nat) {
    total > 0 && 5 * completed >= 4 * total
  }

  /** The status ladder: fully complete, at least 80%, anything in
      progress, anything failed, otherwise pending. */
  function PhaseStatus(total: nat, completed: nat, inProgress: nat, failed: nat): (s: string)
    ensures s == "completed" <==> AllDone(completed, total)
    ensures s == "near_completion" <==> !AllDone(completed, total) && NearlyDone(completed, total)
    ensures s == "in_progress" <==> !NearlyDone(completed, total) && inProgress > 0
    ensures s == "blocked" <==> !NearlyDone(completed, total) && inProgress == 0 && failed > 0
    ensures s == "pending" <==> !NearlyDone(completed, total) && inProgress == 0 && failed == 0
  {
    if AllDone(completed, total) then "completed"
    else if NearlyDone(completed, total) then "near_completion"
    else if inProgress > 0 then "in_progress"
    else if failed > 0 then "blocked"
    else "pending"
  }

  /** The completed count is the length exactly when every listed child
      is completed. */
  lemma AllCompleted(ts: seq<Task>)
    ensures CountStatus(ts, "completed") == |ts| <==> forall t :: t in ts ==> t.status == "completed"
  {
    if CountStatus(ts, "completed") == |ts| {
      forall t | t in ts ensures t.status == "completed" {
        var i :| 0 <= i < |ts| && ts[i] == t;
      }
    }
  }

  /** Among children that are not cancelled, nothing blocks exactly when
      every one is completed. */
  lemma BlockingEmpty(ts: seq<Task>)
    requires forall t :: t in ts ==> t.status != "cancelled"
    ensures Blocking(ts) == [] <==> forall t :: t in ts ==> t.status == "completed"
  {
    if Blocking(ts) != [] {
      assert Blocking(ts)[0] in Blocking(ts);
    }
  }

  /** `_analyze_phase_completion(cursor, phase)`. */
  function AnalyzeCompletion(rows: seq<Task>, phase: string): (c: Completion)
    ensures c.total == |PhaseTasks(rows, phase)|
    ensures c.total == 0 ==> !c.canAdvance && c.status == "empty" && c.blocking == [] && c.completed == 0
    ensures c.canAdvance <==>
              c.total > 0 && forall t :: t in PhaseTasks(rows, phase) ==> t.status == "completed"
    ensures forall t :: t in c.blocking <==>
              t in rows && t.parent == Some(phase) && t.status != "completed" && t.status != "cancelled"
    ensures c.total > 0 ==> (c.blocking == [] <==> c.canAdvance)
    ensures c.total > 0 ==> c.status == PhaseStatus(c.total, c.completed, c.inProgress, c.failed)
  {
    var ts := PhaseTasks(rows, phase);
    if |ts| == 0 then Completion(0, 0, 0, 0, 0, false, [], "empty")
    else
      var completed := CountStatus(ts, "completed");
      var failed := CountStatus(ts, "failed");
      var inProgress := CountStatus(ts, "in_progress");
      var pending := CountStatus(ts, "pending");
      var blocking := Blocking(ts);
      AllCompleted(ts);
      BlockingEmpty(ts);
      Completion(|ts|, completed, failed, inProgress, pending, AllDone(completed, |ts|), blocking,
                 PhaseStatus(|ts|, completed, inProgress, failed))
  }

  // ---------------------------------------------------------------------
  // create_phase

  /** Why a tool call was refused. */
  datatype Refusal =
    | Unauthorized
    | MissingArgument
    | InvalidPhaseType
    | AlreadyExists(id: string)
    | PrerequisiteIncomplete(prerequisite: string, blockingCount: nat)
    | CannotAdvance(blockingCount: nat)
    | NoSuchPhaseRow

  /** The first definition whose id contains `phaseType`: the `for ...
      break` search of `create_phase_tool_impl`. */
  function FirstContaining(defs: seq<PhaseDef>, phaseType: string): (r: Option<nat>)
    ensures r.Some? ==> r.value < |defs| && Contains(defs[r.value].id, phaseType)
    ensures r.Some? ==> forall j :: 0 <= j < r.value ==> !Contains(defs[j].id, phaseType)
    ensures r.None? <==> forall j :: 0 <= j < |defs| ==> !Contains(defs[j].id, phaseType)
    decreases |defs|
  {
    if |defs| == 0 then None
    else if Contains(defs[0].id, phaseType) then Some(0)
    else
      assert forall j :: 1 <= j < |defs| ==> defs[1..][j - 1] == defs[j];
      match FirstContaining(defs[1..], phaseType)
      case None => None
      case Some(i) => Some(i + 1)
  }

  function FindPhase(phaseType: string): (r: Option<nat>)
    ensures r.Some? ==> r.value < |Hierarchy|
  {
    FirstContaining(Hierarchy, phaseType)
  }

  /** Any part of the foundation id, `"phase"` and `"_"` included, selects
      the foundation, since it is searched first. */
  lemma FoundationSubstringsSelectFoundation(phaseType: string)
    requires Contains(Phase1, phaseType)
    ensures FindPhase(phaseType) == Some(0)
  {
    assert Hierarchy[0].id == Phase1;
  }

  /** The first index whose gate is closed. */
  function FirstFalse(gates: seq<bool>): (r: Option<nat>)
    ensures r.Some? ==> r.value < |gates| && !gates[r.value]
    ensures r.Some? ==> forall j :: 0 <= j < r.value ==> gates[j]
    ensures r.None? <==> forall j :: 0 <= j < |gates| ==> gates[j]
    decreases |gates|
  {
    if |gates| == 0 then None
    else if !gates[0] then Some(0)
    else
      assert forall j :: 1 <= j < |gates| ==> gates[1..][j - 1] == gates[j];
      match FirstFalse(gates[1..])
      case None => None
      case Some(i) => Some(i + 1)
  }

  /** `can_advance` of each prerequisite, in order. */
  function Gates(rows: seq<Task>, prereqs: seq<string>): (g: seq<bool>)
    ensures |g| == |prereqs|
    ensures forall j :: 0 <= j < |prereqs| ==> g[j] == AnalyzeCompletion(rows, prereqs[j]).canAdvance
  {
    seq(|prereqs|, j requires 0 <= j < |prereqs| => AnalyzeCompletion(rows, prereqs[j]).canAdvance)
  }

  /** Python's `a or b` on an optional string argument. */
  function OrDefault(a: Option<string>, b: string): (r: string)
    ensures a.Some? && a.value != "" ==> r == a.value
    ensures a.None? || a.value == "" ==> r == b
  {
    if a.Some? && a.value != "" then a.value else b
  }

  const TheoryFocusSeparator := "\n\n🧠 Theory Focus: "
  const CreatedNoteHead := "📊 Phase "
  const CreatedNoteMiddle := " created in linear progression. Prerequisites: "

  function CreatedNote(d: PhaseDef): Note {
    Note("system", CreatedNoteHead + NatToString(d.order) + CreatedNoteMiddle
                   + (if d.prerequisites == [] then "None" else Join(d.prerequisites, ", ")))
  }

  /** The row `create_phase` inserts for a definition. */
  function PhaseRow(d: PhaseDef, customName: Option<string>, customDescription: Option<string>): (t: Task)
    ensures t.id == d.id && t.parent.None? && t.status == "pending" && t.children == []
    ensures t.deps == DepList(d.prerequisites)
  {
    Task(d.id, OrDefault(customName, d.name),
         OrDefault(customDescription, d.description) + TheoryFocusSeparator + d.theoryFocus,
         "pending", "high", None, [], DepList(d.prerequisites), [CreatedNote(d)], "admin")
  }

  /** `create_phase` once the definition is found: refused when the id
      exists, then when a prerequisite, taken in order, has children that
      are not all completed; otherwise the row is appended. */
  function CreateFrom(rows: seq<Task>, d: PhaseDef, customName: Option<string>, customDescription: Option<string>)
    : (r: Result<seq<Task>, Refusal>)
    ensures r.Ok? <==> d.id !in IdSet(rows) && forall p :: p in d.prerequisites ==> AnalyzeCompletion(rows, p).canAdvance
    ensures r.Ok? ==> r.value == rows + [PhaseRow(d, customName, customDescription)]
    ensures r == Err(AlreadyExists(d.id)) <==> d.id in IdSet(rows)
    ensures r.Err? && r.error.PrerequisiteIncomplete? ==>
              d.id !in IdSet(rows)
              && r.error.prerequisite in d.prerequisites
              && !AnalyzeCompletion(rows, r.error.prerequisite).canAdvance
              && r.error.blockingCount == |AnalyzeCompletion(rows, r.error.prerequisite).blocking|
    ensures r.Err? ==> r.error.AlreadyExists? || r.error.PrerequisiteIncomplete?
  {
    if d.id in IdSet(rows) then Err(AlreadyExists(d.id))
    else
      var gates := Gates(rows, d.prerequisites);
      match FirstFalse(gates)
      case Some(j) =>
        var p := d.prerequisites[j];
        Err(PrerequisiteIncomplete(p, |AnalyzeCompletion(rows, p).blocking|))
      case None =>
        assert forall p :: p in d.prerequisites ==> AnalyzeCompletion(rows, p).canAdvance by {
          forall p | p in d.prerequisites ensures AnalyzeCompletion(rows, p).canAdvance {
            var j :| 0 <= j < |d.prerequisites| && d.prerequisites[j] == p;
            assert gates[j];
          }
        }
        Ok(rows + [PhaseRow(d, customName, customDescription)])
  }

  /** `create_phase_tool_impl`: the table with the new phase row appended,
      or the reason for refusing. `phaseType` is `None` when the argument
      is absent; an empty one counts as missing. */
  function CreatePhase(rows: seq<Task>, isAdmin: bool, phaseType: Option<string>,
                       customName: Option<string>, customDescription: Option<string>)
    : (r: Result<seq<Task>, Refusal>)
    ensures !isAdmin ==> r == Err(Unauthorized)
    ensures isAdmin && (phaseType.None? || phaseType.value == "") ==> r == Err(MissingArgument)
    ensures isAdmin && phaseType.Some? && phaseType.value != "" ==>
              match FindPhase(phaseType.value)
              case None => r == Err(InvalidPhaseType)
              case Some(i) => r == CreateFrom(rows, Hierarchy[i], customName, customDescription)
  {
    if !isAdmin then Err(Unauthorized)
    else if phaseType.None? || phaseType.value == "" then Err(MissingArgument)
    else
      match FindPhase(phaseType.value)
      case None => Err(InvalidPhaseType)
      case Some(i) => CreateFrom(rows, Hierarchy[i], customName, customDescription)
  }

  /** Creating a later phase needs every child of the phase before it to be
      completed, and that phase to have at least one child; the gate reads
      the children, not the earlier phase's own status. */
  lemma CreateNeedsPreviousDone(rows: seq<Task>, phaseType: string, i: nat,
                                customName: Option<string>, customDescription: Option<string>)
    requires FindPhase(phaseType) == Some(i) && i > 0
    requires CreatePhase(rows, true, Some(phaseType), customName, customDescription).Ok?
    ensures exists t :: t in rows && t.parent == Some(PhaseOrder[i - 1]) && t.status == "completed"
    ensures forall t :: t in rows && t.parent == Some(PhaseOrder[i - 1]) ==>
              t.status == "completed" || t.status == "cancelled"
  {
    HierarchyIsLinear();
    var prev := PhaseOrder[i - 1];
    assert prev in Hierarchy[i].prerequisites;
    var c := AnalyzeCompletion(rows, prev);
    assert c.canAdvance;
    var ts := PhaseTasks(rows, prev);
    assert ts[0] in ts;
    forall t | t in rows && t.parent == Some(prev)
      ensures t.status == "completed" || t.status == "cancelled"
    {
      if t.status != "cancelled" {
        assert t in ts;
      }
    }
  }

  /** Creation appends one row with a fresh id, so the ids stay distinct. */
  lemma CreateKeepsIdsDistinct(rows: seq<Task>, phaseType: Option<string>,
                               customName: Option<string>, customDescription: Option<string>)
    requires DistinctIds(rows)
    requires CreatePhase(rows, true, phaseType, customName, customDescription).Ok?
    ensures DistinctIds(CreatePhase(rows, true, phaseType, customName, customDescription).value)
  {
    var r := CreatePhase(rows, true, phaseType, customName, customDescription).value;
    var d := Hierarchy[FindPhase(phaseType.value).value];
    forall i, j | 0 <= i < j < |r| ensures r[i].id != r[j].id {
      if j == |rows| {
        assert rows[i] in rows;
      } else {
        assert r[i] == rows[i] && r[j] == rows[j];
      }
    }
  }

  // ---------------------------------------------------------------------
  // advance_phase

  const CompletionNoteHead := "🎉 Phase completed! Completion: "
  const CompletionNoteTail := "%. Ready for agent termination and knowledge crystallization."

  /** `completion_percentage` as shown: `0` for an empty phase, `100.0`
      for a complete one; in between it is the rounded float, whose
      rendering `render` stands for. */
  function PercentText(c: Completion, render: (nat, nat) -> string): string {
    if c.total == 0 then "0"
    else if c.completed == c.total then "100.0"
    else render(c.completed, c.total)
  }

  function CompletionNote(c: Completion, render: (nat, nat) -> string): Note {
    Note("admin", CompletionNoteHead + PercentText(c, render) + CompletionNoteTail)
  }

  /** `UPDATE tasks SET status = 'completed', notes = ? WHERE task_id = ?`:
      every row with the id is marked completed and gains the note. */
  function MarkCompleted(rows: seq<Task>, id: string, n: Note): (r: seq<Task>)
    ensures |r| == |rows|
    ensures forall i :: 0 <= i < |rows| && rows[i].id != id ==> r[i] == rows[i]
    ensures forall i :: 0 <= i < |rows| && rows[i].id == id ==>
              r[i] == rows[i].(status := "completed", notes := rows[i].notes + [n])
  {
    seq(|rows|, i requires 0 <= i < |rows| =>
      if rows[i].id == id then rows[i].(status := "completed", notes := rows[i].notes + [n]) else rows[i])
  }

  /** `advance_phase_tool_impl`: refused unless forced or every child is
      completed; a phase id with no row of its own fails when its notes
      are read. */
  function AdvancePhase(rows: seq<Task>, isAdmin: bool, phaseId: Option<string>, force: bool,
                        render: (nat, nat) -> string)
    : (r: Result<seq<Task>, Refusal>)
    ensures !isAdmin ==> r == Err(Unauthorized)
    ensures isAdmin && (phaseId.None? || phaseId.value == "") ==> r == Err(MissingArgument)
    ensures r.Ok? ==> phaseId.Some? && (force || AnalyzeCompletion(rows, phaseId.value).canAdvance)
    ensures r.Ok? ==> phaseId.value in IdSet(rows)
    ensures r.Ok? ==> r.value == MarkCompleted(rows, phaseId.value,
                                               CompletionNote(AnalyzeCompletion(rows, phaseId.value), render))
    ensures (isAdmin && phaseId.Some? && phaseId.value != "" && phaseId.value in IdSet(rows)
             && (force || AnalyzeCompletion(rows, phaseId.value).canAdvance)) ==> r.Ok?
  {
    if !isAdmin then Err(Unauthorized)
    else if phaseId.None? || phaseId.value == "" then Err(MissingArgument)
    else
      var id := phaseId.value;
      var c := AnalyzeCompletion(rows, id);
      if !force && !c.canAdvance then Err(CannotAdvance(|c.blocking|))
      else if id !in IdSet(rows) then Err(NoSuchPhaseRow)
      else Ok(MarkCompleted(rows, id, CompletionNote(c, render)))
  }

  /** Marking a phase row completed changes no phase's children unless the
      row is itself one of them, so the gate of every such phase reads the
      same afterwards: a forced advance does not open the next phase. */
  lemma {:induction false} MarkCompletedKeepsChildren(rows: seq<Task>, id: string, n: Note, q: string)
    requires forall i :: 0 <= i < |rows| && rows[i].id == id ==> rows[i].parent != Some(q)
    ensures PhaseTasks(MarkCompleted(rows, id, n), q) == PhaseTasks(rows, q)
    decreases |rows|
  {
    if |rows| > 0 {
      var r := MarkCompleted(rows, id, n);
      assert r[1..] == MarkCompleted(rows[1..], id, n);
      MarkCompletedKeepsChildren(rows[1..], id, n, q);
    }
  }

  lemma AdvanceKeepsOtherGates(rows: seq<Task>, phaseId: string, force: bool,
                               render: (nat, nat) -> string, q: string)
    requires AdvancePhase(rows, true, Some(phaseId), force, render).Ok?
    requires forall t :: t in rows && t.id == phaseId ==> t.parent != Some(q)
    ensures AnalyzeCompletion(AdvancePhase(rows, true, Some(phaseId), force, render).value, q)
            == AnalyzeCompletion(rows, q)
  {
    var n := CompletionNote(AnalyzeCompletion(rows, phaseId), render);
    forall i | 0 <= i < |rows| && rows[i].id == phaseId ensures rows[i].parent != Some(q) {
      assert rows[i] in rows;
    }
    MarkCompletedKeepsChildren(rows, phaseId, n, q);
  }
}
