/** The automatic startup migration (`StartupMigrationManager`): when the
    table has no phase rows but has parentless tasks, every such task is
    classified, then put under the foundation phase whatever the classifier
    suggested, with one migration note explaining why. */
module Startup {
  import opened Wrappers
  import opened Text
  import opened Tasks
  import opened Ranking

  const Migrator := "startup_migration"
  const LinearReason := "linear_progression_enforcement"
  const DefaultReason := "ai_classification"

  /** The four keyword scores of a task, in the order of the classifier's
      phase definitions. How they are computed is not modelled. */
  datatype PhaseScores = PhaseScores(foundation: real, intelligence: real, coordination: real, optimization: real)

  function ScoreList(s: PhaseScores): (l: seq<real>)
    ensures |l| == |PhaseOrder|
  {
    [s.foundation, s.intelligence, s.coordination, s.optimization]
  }

  const LowConfidence: real := 0.05
  const FallbackConfidence: real := 0.1

  /** `classify_task`: the first phase with the largest score and that
      score; when even the best score is below 0.05, the foundation with
      confidence 0.1. */
  function ClassifyTask(s: PhaseScores): (r: (string, real))
    ensures r.0 in PhaseOrder
    ensures (forall j :: 0 <= j < 4 ==> ScoreList(s)[j] < LowConfidence) ==> r == (Phase1, FallbackConfidence)
    ensures (exists j :: 0 <= j < 4 && ScoreList(s)[j] >= LowConfidence) ==>
              exists i :: 0 <= i < 4 && r == (PhaseOrder[i], ScoreList(s)[i])
                && (forall j :: 0 <= j < 4 ==> ScoreList(s)[j] <= ScoreList(s)[i])
                && (forall j :: 0 <= j < i ==> ScoreList(s)[j] < ScoreList(s)[i])
  {
    var l := ScoreList(s);
    var i := FirstMaxReal(l);
    if l[i] < LowConfidence then (Phase1, FallbackConfidence) else (PhaseOrder[i], l[i])
  }

  /** Equal best scores go to the earlier phase. */
  lemma ClassifyTieGoesEarlier(x: real)
    requires x >= LowConfidence
    ensures ClassifyTask(PhaseScores(0.0, x, x, x)).0 == Phase2
  {
    var r := ClassifyTask(PhaseScores(0.0, x, x, x));
    assert ScoreList(PhaseScores(0.0, x, x, x))[1] >= LowConfidence;
    var i :| 0 <= i < 4 && r == (PhaseOrder[i], ScoreList(PhaseScores(0.0, x, x, x))[i])
      && (forall j :: 0 <= j < 4 ==> ScoreList(PhaseScores(0.0, x, x, x))[j] <= ScoreList(PhaseScores(0.0, x, x, x))[i])
      && (forall j :: 0 <= j < i ==> ScoreList(PhaseScores(0.0, x, x, x))[j] < ScoreList(PhaseScores(0.0, x, x, x))[i]);
    assert i != 0;
    assert i < 2;
  }

  /** One entry of the classification list. `original` and `reason` are
      the keys `original_ai_suggestion` and `migration_reason`, absent until
      the linear progression is enforced. */
  datatype Classification = Classification(
    task: Task,
    suggested: string,
    confidence: real,
    original: Option<string>,
    reason: Option<string>)

  /** The query of `needs_migration` and `analyze_and_classify_tasks`:
      parentless rows whose id the pattern `'phase_%'` does not match, in
      table order. */
  function RootTasks(rows: seq<Task>): (r: seq<Task>)
    ensures forall t :: t in r <==> t in rows && t.parent.None? && !LikePhase(t.id)
    ensures |r| <= |rows|
    decreases |rows|
  {
    if |rows| == 0 then []
    else
      var rest := RootTasks(rows[1..]);
      assert forall t :: t in rows <==> t == rows[0] || t in rows[1..];
      (if rows[0].parent.None? && !LikePhase(rows[0].id) then [rows[0]] else []) + rest
  }

  lemma RootTasksNonEmpty(rows: seq<Task>)
    ensures |RootTasks(rows)| > 0 <==> exists i :: 0 <= i < |rows| && rows[i].parent.None? && !LikePhase(rows[i].id)
  {
    if |RootTasks(rows)| > 0 {
      assert RootTasks(rows)[0] in RootTasks(rows);
      var i :| 0 <= i < |rows| && rows[i] == RootTasks(rows)[0];
    }
    if exists i :: 0 <= i < |rows| && rows[i].parent.None? && !LikePhase(rows[i].id) {
      var i :| 0 <= i < |rows| && rows[i].parent.None? && !LikePhase(rows[i].id);
      assert rows[i] in RootTasks(rows);
    }
  }

  /** `needs_migration`: no row matches `'phase_%'` and some parentless row
      does not match it either. */
  function NeedsMigration(rows: seq<Task>): (b: bool)
    ensures b <==> (forall i :: 0 <= i < |rows| ==> !LikePhase(rows[i].id))
                   && exists i :: 0 <= i < |rows| && rows[i].parent.None?
  {
    RootTasksNonEmpty(rows);
    LikePhaseCount(rows) == 0 && |RootTasks(rows)| > 0
  }

  /** `analyze_and_classify_tasks`: one classification per root task, in
      order, from the scores `score` assigns. */
  function ClassifyAll(roots: seq<Task>, score: Task -> PhaseScores): (cs: seq<Classification>)
    ensures |cs| == |roots|
    ensures forall i :: 0 <= i < |roots| ==>
              cs[i] == Classification(roots[i], ClassifyTask(score(roots[i])).0,
                                      ClassifyTask(score(roots[i])).1, None, None)
  {
    seq(|roots|, i requires 0 <= i < |roots| =>
      var (phase, confidence) := ClassifyTask(score(roots[i]));
      Classification(roots[i], phase, confidence, None, None))
  }

  /** `enforce_linear_progression`: same tasks in the same order, each now
      suggested for the foundation, with the classifier's suggestion kept
      as the original one. */
  function EnforceLinear(cs: seq<Classification>): (r: seq<Classification>)
    ensures |r| == |cs|
    ensures forall i :: 0 <= i < |cs| ==>
              r[i].task == cs[i].task && r[i].confidence == cs[i].confidence
              && r[i].suggested == Phase1
              && r[i].original == Some(cs[i].suggested)
              && r[i].reason == Some(LinearReason)
  {
    seq(|cs|, i requires 0 <= i < |cs| =>
      cs[i].(suggested := Phase1, original := Some(cs[i].suggested), reason := Some(LinearReason)))
  }

  /** `sum(1 for c in classifications if c['suggested_phase'] == phase_id)`. */
  function CountSuggested(cs: seq<Classification>, phase: string): (n: nat)
    ensures n <= |cs|
    decreases |cs|
  {
    if |cs| == 0 then 0
    else (if cs[0].suggested == phase then 1 else 0) + CountSuggested(cs[1..], phase)
  }

  /** Once the progression is enforced, the foundation counts every task. */
  lemma {:induction false} EnforcedCountsAll(cs: seq<Classification>)
    ensures CountSuggested(EnforceLinear(cs), Phase1) == |cs|
    decreases |cs|
  {
    if |cs| > 0 {
      assert EnforceLinear(cs)[1..] == EnforceLinear(cs[1..]);
      EnforcedCountsAll(cs[1..]);
    }
  }

  const FoundationDescription :=
    "Core system architecture, database, authentication, and basic APIs\n\n🧠 Theory Focus: System foundation and core data structures"
  const FoundationNoteHead := "🚀 Linear progression migration: Foundation phase created for "
  const FoundationNoteTail :=
    " existing tasks. All tasks start here to ensure proper phase sequence. Complete these tasks before advancing to Phase 2: Intelligence."

  function FoundationRow(count: nat): Task {
    Task(Phase1, "Phase 1: Foundation", FoundationDescription, "pending", "high", None, [], DepList([]),
         [Note(Migrator, FoundationNoteHead + NatToString(count) + FoundationNoteTail)], Migrator)
  }

  /** `create_needed_phases`: only the foundation is ever needed. It is
      inserted unless a row with its id exists; the result lists the
      phases created. */
  function CreateNeededPhases(store: Store, cs: seq<Classification>): (r: (Store, seq<string>))
    ensures r.0.Keys == store.Keys + {Phase1}
    ensures r.1 == (if Phase1 in store then [] else [Phase1])
    ensures forall k :: k in store ==> r.0[k] == store[k]
    ensures Phase1 !in store ==>
              r.0[Phase1] == FoundationRow(CountSuggested(cs, Phase1))
              && r.0[Phase1].status == "pending" && r.0[Phase1].parent.None?
  {
    if Phase1 in store then (store, [])
    else (store[Phase1 := FoundationRow(CountSuggested(cs, Phase1))], [Phase1])
  }

  /** A second run creates nothing and changes nothing. */
  lemma CreateNeededPhasesIdempotent(store: Store, cs: seq<Classification>, cs2: seq<Classification>)
    ensures var once := CreateNeededPhases(store, cs).0;
            CreateNeededPhases(once, cs2) == (once, [])
  {
  }

  const LinearNoteHead := "🚀 Linear progression migration: Assigned to "
  const LinearNoteMiddle := " to ensure proper phase sequence. AI suggested "
  const LinearNoteTail :=
    ", but linear progression requires starting from Foundation. Complete this phase before advancing to subsequent phases."
  const AutoNoteHead := "🤖 Automatic migration: Assigned to "
  const AutoNoteTail := ". Task now follows linear phase progression."

  /** The note `migrate_tasks` appends, chosen by the migration reason; a
      missing original suggestion reads as the suggested phase. */
  function MigrationNote(c: Classification): (n: Note)
    ensures n.author == Migrator
    ensures c.reason == Some(LinearReason) ==>
              n.content == LinearNoteHead + c.suggested + LinearNoteMiddle + c.original.GetOr(c.suggested) + LinearNoteTail
    ensures c.reason != Some(LinearReason) ==> n.content == AutoNoteHead + c.suggested + AutoNoteTail
  {
    assert |DefaultReason| != |LinearReason|;
    if c.reason.GetOr(DefaultReason) == LinearReason then
      Note(Migrator, LinearNoteHead + c.suggested + LinearNoteMiddle + c.original.GetOr(c.suggested) + LinearNoteTail)
    else Note(Migrator, AutoNoteHead + c.suggested + AutoNoteTail)
  }

  /** The row entry `c` writes over `row`. */
  function Migrated(row: Task, c: Classification): Task {
    row.(parent := Some(c.suggested), notes := c.task.notes + [MigrationNote(c)])
  }

  /** The `UPDATE` of one classified task: the parent becomes the suggested
      phase and the notes are the classified snapshot's notes plus the
      migration note. A task id with no row updates nothing. */
  function MigrateOne(store: Store, c: Classification): (r: Store)
    ensures r.Keys == store.Keys
    ensures forall k :: k in store && k != c.task.id ==> r[k] == store[k]
    ensures c.task.id in store ==> r[c.task.id] == Migrated(store[c.task.id], c)
  {
    var id := c.task.id;
    if id in store then store[id := Migrated(store[id], c)] else store
  }

  function TaskIds(cs: seq<Classification>): set<string> {
    set c | c in cs :: c.task.id
  }

  /** No later entry of the list names the same task as entry `i`. */
  ghost predicate LastFor(cs: seq<Classification>, i: int)
    requires 0 <= i < |cs|
  {
    forall j :: i < j < |cs| ==> cs[j].task.id != cs[i].task.id
  }

  /** `migrate_tasks`: every classification is applied in order, so a task
      listed twice ends as the later entry says; rows not listed are left
      alone. */
  function MigrateTasks(store: Store, cs: seq<Classification>): (r: Store)
    ensures r.Keys == store.Keys
    ensures forall k :: k in store && k !in TaskIds(cs) ==> r[k] == store[k]
    ensures forall i :: (0 <= i < |cs| && cs[i].task.id in store && LastFor(cs, i)) ==>
              r[cs[i].task.id] == Migrated(store[cs[i].task.id], cs[i])
    decreases |cs|
  {
    if |cs| == 0 then store
    else
      var prefix := cs[..|cs| - 1];
      var c := cs[|cs| - 1];
      var s0 := MigrateTasks(store, prefix);
      MigrateTasksStep(store, prefix, c, s0);
      assert cs == prefix + [c];
      MigrateOne(s0, c)
  }

  /** A later write replaces both fields an earlier one set. */
  lemma MigratedTwice(row: Task, a: Classification, c: Classification)
    ensures Migrated(Migrated(row, a), c) == Migrated(row, c)
  {
  }

  lemma MigrateTasksStep(store: Store, prefix: seq<Classification>, c: Classification, s0: Store)
    requires s0.Keys == store.Keys
    requires forall k :: k in store && k !in TaskIds(prefix) ==> s0[k] == store[k]
    requires forall i :: (0 <= i < |prefix| && prefix[i].task.id in store && LastFor(prefix, i)) ==>
               s0[prefix[i].task.id] == Migrated(store[prefix[i].task.id], prefix[i])
    ensures var cs := prefix + [c];
            var r := MigrateOne(s0, c);
            r.Keys == store.Keys
            && (forall k :: k in store && k !in TaskIds(cs) ==> r[k] == store[k])
            && (forall i :: (0 <= i < |cs| && cs[i].task.id in store && LastFor(cs, i)) ==>
                  r[cs[i].task.id] == Migrated(store[cs[i].task.id], cs[i]))
  {
    var cs := prefix + [c];
    var r := MigrateOne(s0, c);
    assert TaskIds(cs) == TaskIds(prefix) + {c.task.id};
    forall i | 0 <= i < |cs| && cs[i].task.id in store && LastFor(cs, i)
      ensures r[cs[i].task.id] == Migrated(store[cs[i].task.id], cs[i])
    {
      if i < |prefix| {
        PrefixLast(prefix, c, i);
      } else {
        assert cs[i] == c;
        LastWrite(store, prefix, c, s0);
      }
    }
  }

  lemma PrefixLast(prefix: seq<Classification>, c: Classification, i: int)
    requires 0 <= i < |prefix| && LastFor(prefix + [c], i)
    ensures LastFor(prefix, i) && c.task.id != prefix[i].task.id
  {
    var cs := prefix + [c];
    assert cs[i] == prefix[i] && cs[|cs| - 1] == c;
    forall j | i < j < |prefix| ensures prefix[j].task.id != prefix[i].task.id {
      assert cs[j] == prefix[j];
    }
  }

  lemma LastWrite(store: Store, prefix: seq<Classification>, c: Classification, s0: Store)
    requires s0.Keys == store.Keys && c.task.id in store
    requires forall k :: k in store && k !in TaskIds(prefix) ==> s0[k] == store[k]
    requires forall i :: (0 <= i < |prefix| && prefix[i].task.id in store && LastFor(prefix, i)) ==>
               s0[prefix[i].task.id] == Migrated(store[prefix[i].task.id], prefix[i])
    ensures MigrateOne(s0, c)[c.task.id] == Migrated(store[c.task.id], c)
  {
    var id := c.task.id;
    if id in TaskIds(prefix) {
      var i := LastIndex(prefix, id);
      MigratedTwice(store[id], prefix[i], c);
    }
  }

  /** The last entry of the list that names `id`. */
  function LastIndex(cs: seq<Classification>, id: string): (i: nat)
    requires id in TaskIds(cs)
    ensures i < |cs| && cs[i].task.id == id && LastFor(cs, i)
    decreases |cs|
  {
    var last := cs[|cs| - 1];
    if last.task.id == id then |cs| - 1
    else
      var prefix := cs[..|cs| - 1];
      assert cs == prefix + [last];
      assert id in TaskIds(prefix) by {
        var c :| c in cs && c.task.id == id;
        assert c in prefix;
      }
      var i := LastIndex(prefix, id);
      assert cs[i] == prefix[i];
      assert LastFor(cs, i) by {
        forall j | i < j < |cs| ensures cs[j].task.id != cs[i].task.id {
          if j < |prefix| { assert cs[j] == prefix[j]; }
        }
      }
      i
  }

  /** `run_startup_migration`: the result and the table afterwards. The
      note decoding and the queries are treated as succeeding, so once the
      guard says a migration is needed the run always returns true. */
  function Run(rows: seq<Task>, score: Task -> PhaseScores): (r: (bool, Store))
    ensures r.0
    ensures !NeedsMigration(rows) ==> r.1 == StoreOf(rows)
    ensures NeedsMigration(rows) ==> r.1.Keys == StoreOf(rows).Keys + {Phase1}
  {
    var store := StoreOf(rows);
    if !NeedsMigration(rows) then (true, store)
    else
      var cs := ClassifyAll(RootTasks(rows), score);
      if |cs| == 0 then (true, store)
      else
        var adjusted := EnforceLinear(cs);
        var (s1, _) := CreateNeededPhases(store, adjusted);
        (true, MigrateTasks(s1, adjusted))
  }

  /** The list `run_startup_migration` migrates: one enforced entry per
      root task. */
  function Adjusted(rows: seq<Task>, score: Task -> PhaseScores): seq<Classification> {
    EnforceLinear(ClassifyAll(RootTasks(rows), score))
  }

  /** With distinct ids, each entry of the migrated list is the only one
      for its task. */
  lemma AdjustedDistinct(rows: seq<Task>, score: Task -> PhaseScores, i: int, j: int)
    requires DistinctIds(rows)
    requires 0 <= i < j < |Adjusted(rows, score)|
    ensures Adjusted(rows, score)[i].task.id != Adjusted(rows, score)[j].task.id
  {
    RootTasksDistinct(rows);
  }

  lemma {:induction false} RootTasksDistinct(rows: seq<Task>)
    requires DistinctIds(rows)
    ensures DistinctIds(RootTasks(rows))
    decreases |rows|
  {
    if |rows| > 0 {
      var rest := rows[1..];
      assert DistinctIds(rest) by {
        forall i, j | 0 <= i < j < |rest| ensures rest[i].id != rest[j].id {
          assert rest[i] == rows[i + 1] && rest[j] == rows[j + 1];
        }
      }
      RootTasksDistinct(rest);
      var r := RootTasks(rows);
      if rows[0].parent.None? && !LikePhase(rows[0].id) {
        forall j | 0 < j < |r| ensures r[0].id != r[j].id {
          assert r[j] in RootTasks(rest);
          assert r[j] in rest;
          var k :| 0 <= k < |rest| && rest[k] == r[j];
          assert rows[k + 1] == r[j];
        }
      }
    }
  }

  /** When a migration is needed the foundation row does not exist yet. */
  lemma FoundationAbsent(rows: seq<Task>)
    requires NeedsMigration(rows)
    ensures Phase1 !in StoreOf(rows)
  {
    PhaseIdIsLikePhase(Phase1);
  }

  /** A needed run classifies at least one task, so it reaches the phase
      creation and the task updates. */
  lemma RunMigrates(rows: seq<Task>, score: Task -> PhaseScores)
    requires NeedsMigration(rows)
    ensures |Adjusted(rows, score)| == |RootTasks(rows)| > 0
    ensures Run(rows, score).1 ==
              MigrateTasks(CreateNeededPhases(StoreOf(rows), Adjusted(rows, score)).0, Adjusted(rows, score))
  {
    RootTasksNonEmpty(rows);
  }

  /** In a list whose entries name distinct tasks, a listed stored task
      ends as its one entry writes it. */
  lemma {:induction false} MigrateDistinct(store: Store, cs: seq<Classification>, i: int)
    requires forall a, b :: 0 <= a < b < |cs| ==> cs[a].task.id != cs[b].task.id
    requires 0 <= i < |cs| && cs[i].task.id in store
    ensures MigrateTasks(store, cs)[cs[i].task.id] == Migrated(store[cs[i].task.id], cs[i])
  {
    assert LastFor(cs, i);
  }

  /** What the updates do to one stored task, given the list of entries
      the run builds: one per root task, in order, each for the
      foundation. */
  lemma MigrateRootsAt(rows: seq<Task>, roots: seq<Task>, adjusted: seq<Classification>, s1: Store, k: string)
    requires DistinctIds(rows)
    requires forall t :: t in roots <==> t in rows && t.parent.None? && !LikePhase(t.id)
    requires |adjusted| == |roots|
    requires forall i :: 0 <= i < |adjusted| ==> adjusted[i].task == roots[i] && adjusted[i].suggested == Phase1
    requires forall a, b :: 0 <= a < b < |adjusted| ==> adjusted[a].task.id != adjusted[b].task.id
    requires forall i :: 0 <= i < |rows| ==> !LikePhase(rows[i].id)
    requires k in StoreOf(rows) && k in s1 && s1[k] == StoreOf(rows)[k]
    ensures StoreOf(rows)[k].parent.Some? ==> MigrateTasks(s1, adjusted)[k] == StoreOf(rows)[k]
    ensures StoreOf(rows)[k].parent.None? ==>
              MigrateTasks(s1, adjusted)[k].parent == Some(Phase1)
              && |MigrateTasks(s1, adjusted)[k].notes| == |StoreOf(rows)[k].notes| + 1
  {
    var store := StoreOf(rows);
    var t :| t in rows && t.id == k;
    StoreOfHolds(rows, t);
    if store[k].parent.None? {
      var j :| 0 <= j < |rows| && rows[j] == t;
      assert t in roots;
      var i :| 0 <= i < |roots| && roots[i] == t;
      MigrateDistinct(s1, adjusted, i);
    }
  }

  /** The list of entries the run builds names each root task once, in
      order, each for the foundation. */
  lemma AdjustedShape(rows: seq<Task>, score: Task -> PhaseScores)
    requires DistinctIds(rows)
    ensures |Adjusted(rows, score)| == |RootTasks(rows)|
    ensures forall i :: 0 <= i < |RootTasks(rows)| ==>
              Adjusted(rows, score)[i].task == RootTasks(rows)[i] && Adjusted(rows, score)[i].suggested == Phase1
    ensures forall a, b :: 0 <= a < b < |Adjusted(rows, score)| ==>
              Adjusted(rows, score)[a].task.id != Adjusted(rows, score)[b].task.id
  {
    forall a, b | 0 <= a < b < |Adjusted(rows, score)|
      ensures Adjusted(rows, score)[a].task.id != Adjusted(rows, score)[b].task.id
    {
      AdjustedDistinct(rows, score, a, b);
    }
  }

  /** A needed run inserts the foundation phase, which did not exist, with
      a note counting every root task. */
  lemma RunCreatesFoundation(rows: seq<Task>, score: Task -> PhaseScores)
    requires DistinctIds(rows) && NeedsMigration(rows)
    ensures Phase1 !in StoreOf(rows)
    ensures Run(rows, score).1[Phase1] == FoundationRow(|RootTasks(rows)|)
  {
    var roots := RootTasks(rows);
    var adjusted := Adjusted(rows, score);
    FoundationAbsent(rows);
    RunMigrates(rows, score);
    AdjustedShape(rows, score);
    EnforcedCountsAll(ClassifyAll(roots, score));
  }

  /** After a needed run with distinct ids every parentless task sits under
      the foundation with its notes plus one migration note, and every
      other task is unchanged. */
  lemma RunPlacesRootsUnderFoundation(rows: seq<Task>, score: Task -> PhaseScores)
    requires DistinctIds(rows) && NeedsMigration(rows)
    ensures forall k :: k in StoreOf(rows) && StoreOf(rows)[k].parent.Some? ==>
              Run(rows, score).1[k] == StoreOf(rows)[k]
    ensures forall k :: k in StoreOf(rows) && StoreOf(rows)[k].parent.None? ==>
              Run(rows, score).1[k].parent == Some(Phase1)
              && |Run(rows, score).1[k].notes| == |StoreOf(rows)[k].notes| + 1
  {
    var store := StoreOf(rows);
    var roots := RootTasks(rows);
    var adjusted := Adjusted(rows, score);
    FoundationAbsent(rows);
    RunMigrates(rows, score);
    AdjustedShape(rows, score);
    var s1 := CreateNeededPhases(store, adjusted).0;
    var after := Run(rows, score).1;
    assert after == MigrateTasks(s1, adjusted);
    forall k | k in store
      ensures store[k].parent.Some? ==> after[k] == store[k]
      ensures store[k].parent.None? ==> after[k].parent == Some(Phase1) && |after[k].notes| == |store[k].notes| + 1
    {
      MigrateRootsAt(rows, roots, adjusted, s1, k);
    }
  }
}
