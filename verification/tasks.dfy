/** The task record shared by every planner, the task store, and the id
    conventions that mark phase and workstream-root rows. */
module Tasks {
  import opened Wrappers
  import opened Text

  /** One entry of a task's `notes` JSON list; the timestamp is opaque and
      not modelled. */
  datatype Note = Note(author: string, content: string)

  /** The `depends_on_tasks` column as the JSON decoder sees it: a list of
      task ids, or text that is not valid JSON. */
  datatype Deps = DepList(ids: seq<string>) | Malformed

  /** One row of the `tasks` table. `parent` is `parent_task` (SQL NULL is
      `None`); `children` is the decoded `child_tasks` list. */
  datatype Task = Task(
    id: string,
    title: string,
    description: string,
    status: string,
    priority: string,
    parent: Option<string>,
    children: seq<string>,
    deps: Deps,
    notes: seq<Note>,
    createdBy: string)

  /** The `tasks` table keyed by `task_id`. */
  type Store = map<string, Task>

  /** Every row is stored under its own id. */
  ghost predicate WellKeyed(store: Store) {
    forall k :: k in store ==> store[k].id == k
  }

  /** `task_id` is the table's primary key: a loaded list has no repeats. */
  ghost predicate DistinctIds(rows: seq<Task>) {
    forall i, j :: 0 <= i < j < |rows| ==> rows[i].id != rows[j].id
  }

  function IdsOf(rows: seq<Task>): (ids: seq<string>)
    ensures |ids| == |rows|
    ensures forall i :: 0 <= i < |rows| ==> ids[i] == rows[i].id
  {
    seq(|rows|, i requires 0 <= i < |rows| => rows[i].id)
  }

  /** The ids of a list of rows, as a set. */
  function IdSet(ts: seq<Task>): set<string> {
    set t | t in ts :: t.id
  }

  /** Python's `task_id.startswith('phase_')`. */
  predicate IsPhaseId(id: string) {
    "phase_" <= id
  }

  /** Python's `task_id.startswith('root_')`. */
  predicate IsRootId(id: string) {
    "root_" <= id
  }

  /** SQLite's `task_id LIKE 'phase_%'`: `_` matches any one character and
      the comparison ignores ASCII case, so `Phase-1` matches too. */
  predicate LikePhase(id: string) {
    |id| >= 6 && Lower(id[..5]) == "phase"
  }

  /** Every `startswith('phase_')` id is matched by the SQL pattern. */
  lemma PhaseIdIsLikePhase(id: string)
    requires IsPhaseId(id)
    ensures LikePhase(id)
  {
    assert id[..5] == "phase";
  }

  /** The SQL pattern is looser than the prefix test. */
  lemma LikePhaseIsLooser()
    ensures LikePhase("PHASE-x") && !IsPhaseId("PHASE-x")
  {
    assert Lower("PHASE") == "phase";
    assert "PHASE-x"[0] != "phase_"[0];
  }

  /** Number of rows whose id the SQL pattern `'phase_%'` matches. */
  function LikePhaseCount(rows: seq<Task>): (n: nat)
    ensures n <= |rows|
    ensures n == 0 <==> forall i :: 0 <= i < |rows| ==> !LikePhase(rows[i].id)
  {
    if |rows| == 0 then 0
    else (if LikePhase(rows[0].id) then 1 else 0) + LikePhaseCount(rows[1..])
  }

  /** The migration guard of the intelligent and granular planners: no id
      matches `LIKE 'phase_%'` and the table is not empty. */
  function NeedsMigration(rows: seq<Task>): (b: bool)
    ensures b <==> |rows| > 0 && forall i :: 0 <= i < |rows| ==> !LikePhase(rows[i].id)
  {
    LikePhaseCount(rows) == 0 && |rows| > 0
  }

  /** `f"{title.lower()} {description.lower()}"`, the text every keyword
      rule reads. */
  function TaskText(t: Task): string {
    Lower(t.title) + " " + Lower(t.description)
  }

  /** `sum(1 for t in ts if t['status'] == status)`. */
  function CountStatus(ts: seq<Task>, status: string): (n: nat)
    ensures n <= |ts|
    ensures n == |ts| <==> forall i :: 0 <= i < |ts| ==> ts[i].status == status
    ensures n == 0 <==> forall i :: 0 <= i < |ts| ==> ts[i].status != status
    decreases |ts|
  {
    if |ts| == 0 then 0
    else
      var n := CountStatus(ts[1..], status);
      assert forall i :: 1 <= i < |ts| ==> ts[i] == ts[1..][i - 1];
      (if ts[0].status == status then 1 else 0) + n
  }

  /** Counting from the back: the last row adds one when it has the status. */
  lemma {:induction false} CountStatusSnoc(ts: seq<Task>, t: Task, status: string)
    ensures CountStatus(ts + [t], status) == CountStatus(ts, status) + (if t.status == status then 1 else 0)
    decreases |ts|
  {
    if |ts| == 0 {
      assert [t][1..] == [];
    } else {
      assert (ts + [t])[1..] == ts[1..] + [t];
      CountStatusSnoc(ts[1..], t, status);
    }
  }

  /** The four phase ids of the linear progression, in order. */
  const Phase1 := "phase_1_foundation"
  const Phase2 := "phase_2_intelligence"
  const Phase3 := "phase_3_coordination"
  const Phase4 := "phase_4_optimization"
  const PhaseOrder: seq<string> := [Phase1, Phase2, Phase3, Phase4]

  /** Append one note to a task. */
  function AddNote(t: Task, n: Note): (r: Task)
    ensures r.notes == t.notes + [n]
    ensures r.(notes := t.notes) == t
  {
    t.(notes := t.notes + [n])
  }

  /** The table holding `rows`; a later row with a repeated id replaces an
      earlier one. */
  function StoreOf(rows: seq<Task>): (s: Store)
    ensures s.Keys == IdSet(rows)
    ensures WellKeyed(s)
    decreases |rows|
  {
    if |rows| == 0 then map[]
    else
      var prefix := rows[..|rows| - 1];
      var t := rows[|rows| - 1];
      assert rows == prefix + [t];
      StoreOf(prefix)[t.id := t]
  }

  /** With distinct ids, every row is stored as it is. */
  lemma {:induction false} StoreOfHolds(rows: seq<Task>, t: Task)
    requires DistinctIds(rows) && t in rows
    ensures t.id in StoreOf(rows) && StoreOf(rows)[t.id] == t
    decreases |rows|
  {
    var prefix := rows[..|rows| - 1];
    var last := rows[|rows| - 1];
    assert rows == prefix + [last];
    if t != last {
      assert t in prefix;
      var i :| 0 <= i < |prefix| && prefix[i] == t;
      assert rows[i] == t;
      StoreOfHolds(prefix, t);
    }
  }
}
