/** Step 3 of the granular migration (`Step3_TaskCategorizer`): each task
    goes to one phase category, read off its content when it is finished
    and off the phase mapping when it is active or pending. */
module GranularCategorize {
  import opened Wrappers
  import opened Text
  import opened Tasks
  import opened Ranking
  import opened GranularState
  import opened GranularMapping

  datatype Category = Foundation | Intelligence | Coordination | Optimization

  const FoundationWords: seq<string> :=
    ["setup", "config", "database", "schema", "auth", "authentication",
     "basic", "core setup", "infrastructure", "migration"]
  const IntelligenceWords: seq<string> :=
    ["calculator", "algorithm", "business logic", "processing",
     "computation", "feature logic", "core feature"]
  const CoordinationWords: seq<string> :=
    ["page", "component", "ui", "interface", "dashboard",
     "navigation", "form", "layout", "integration"]

  /** `_categorize_completed_task`: the first keyword list with a hit,
      foundation when none has one. Content alone never yields the
      optimization category. */
  function ContentCategory(text: string): (c: Category)
    ensures c != Optimization
    ensures c == Intelligence <==> !AnyIn(text, FoundationWords) && AnyIn(text, IntelligenceWords)
    ensures c == Coordination <==>
              !AnyIn(text, FoundationWords) && !AnyIn(text, IntelligenceWords) && AnyIn(text, CoordinationWords)
  {
    var lists := [FoundationWords, IntelligenceWords, CoordinationWords];
    assert lists[0] == FoundationWords && lists[1] == IntelligenceWords && lists[2] == CoordinationWords;
    match FirstHit(text, lists)
    case Some(i) => if i == 1 then Intelligence else if i == 2 then Coordination else Foundation
    case None => Foundation
  }

  /** The category a phase id stands for, if it is one of the four. */
  function PhaseCategory(p: Option<string>): (c: Option<Category>)
    ensures c.Some? <==> p.Some? && p.value in PhaseOrder
  {
    if p == Some(Phase1) then Some(Foundation)
    else if p == Some(Phase2) then Some(Intelligence)
    else if p == Some(Phase3) then Some(Coordination)
    else if p == Some(Phase4) then Some(Optimization)
    else None
  }

  /** `_categorize_active_task`: the current phase's category, the content
      category when there is no known current phase. */
  function ActiveCategory(text: string, m: PhaseMapping): (c: Category)
    ensures PhaseCategory(m.current).Some? ==> c == PhaseCategory(m.current).value
    ensures PhaseCategory(m.current).None? ==> c == ContentCategory(text)
  {
    PhaseCategory(m.current).GetOr(ContentCategory(text))
  }

  /** `_categorize_future_task`: the next phase's category; the next phase
      is never the foundation, and the content category is used when it is
      not one of the later three. */
  function FutureCategory(text: string, m: PhaseMapping): (c: Category)
    ensures m.next == Some(Phase1) ==> c == ContentCategory(text)
    ensures m.next != Some(Phase1) && PhaseCategory(m.next).Some? ==> c == PhaseCategory(m.next).value
    ensures PhaseCategory(m.next).None? ==> c == ContentCategory(text)
  {
    if m.next == Some(Phase1) then ContentCategory(text)
    else PhaseCategory(m.next).GetOr(ContentCategory(text))
  }

  /** Where a task lands: a category, and whether it goes to the
      `completed_<category>` list or to the `<category>_tasks` list. */
  datatype Place = Place(cat: Category, done: bool)

  /** The status dispatch of `categorize_tasks`. Cancelled and unknown
      statuses are treated like completed ones. The `completed_<category>`
      key that is looked up always exists: no finished task is put in the
      optimization category. */
  function PlaceOf(t: Task, m: PhaseMapping): (p: Place)
    ensures p.done <==> t.status != "in_progress" && t.status != "pending"
    ensures p.done ==> p.cat == ContentCategory(TaskText(t)) && p.cat != Optimization
    ensures t.status == "in_progress" ==> p.cat == ActiveCategory(TaskText(t), m)
    ensures t.status == "pending" ==> p.cat == FutureCategory(TaskText(t), m)
  {
    var text := TaskText(t);
    if t.status == "completed" then Place(ContentCategory(text), true)
    else if t.status == "in_progress" then Place(ActiveCategory(text, m), false)
    else if t.status == "pending" then Place(FutureCategory(text, m), false)
    else Place(ContentCategory(text), true)
  }

  /** The nine lists of `categorize_tasks`. */
  datatype Categorization = Categorization(
    foundation: seq<Task>,
    intelligence: seq<Task>,
    coordination: seq<Task>,
    optimization: seq<Task>,
    completedFoundation: seq<Task>,
    completedIntelligence: seq<Task>,
    completedCoordination: seq<Task>,
    active: seq<Task>,
    future: seq<Task>)

  /** The list a place names; there is no `completed_optimization` list. */
  function Slot(c: Categorization, p: Place): seq<Task> {
    match p
    case Place(Foundation, false) => c.foundation
    case Place(Intelligence, false) => c.intelligence
    case Place(Coordination, false) => c.coordination
    case Place(Optimization, false) => c.optimization
    case Place(Foundation, true) => c.completedFoundation
    case Place(Intelligence, true) => c.completedIntelligence
    case Place(Coordination, true) => c.completedCoordination
    case Place(Optimization, true) => []
  }

  predicate HasList(p: Place) {
    !(p.cat == Optimization && p.done)
  }

  /** Append a task to the list a place names. */
  function Append(c: Categorization, t: Task, p: Place): (r: Categorization)
    requires HasList(p)
    ensures r.active == c.active && r.future == c.future
  {
    match p
    case Place(Foundation, false) => c.(foundation := c.foundation + [t])
    case Place(Intelligence, false) => c.(intelligence := c.intelligence + [t])
    case Place(Coordination, false) => c.(coordination := c.coordination + [t])
    case Place(Optimization, false) => c.(optimization := c.optimization + [t])
    case Place(Foundation, true) => c.(completedFoundation := c.completedFoundation + [t])
    case Place(Intelligence, true) => c.(completedIntelligence := c.completedIntelligence + [t])
    case Place(Coordination, true) => c.(completedCoordination := c.completedCoordination + [t])
  }

  /** Appending touches only the named list, and that one by one task. */
  lemma AppendSlot(c: Categorization, t: Task, p: Place, q: Place)
    requires HasList(p)
    ensures Slot(Append(c, t, p), q) == Slot(c, q) + (if q == p then [t] else [])
  {
  }

  /** Every list's multiset, summed: the seven task lists of the result. */
  function Contents(c: Categorization): multiset<Task> {
    multiset(c.foundation) + multiset(c.intelligence) + multiset(c.coordination)
    + multiset(c.optimization) + multiset(c.completedFoundation)
    + multiset(c.completedIntelligence) + multiset(c.completedCoordination)
  }

  lemma AppendContents(c: Categorization, t: Task, p: Place)
    requires HasList(p)
    ensures Contents(Append(c, t, p)) == Contents(c) + multiset{t}
  {
  }

  const NoTasks := Categorization([], [], [], [], [], [], [], [], [])

  /** Every task list holds exactly the tasks placed there. */
  ghost predicate Places(c: Categorization, tasks: seq<Task>, m: PhaseMapping) {
    forall p, t :: t in Slot(c, p) <==> t in tasks && PlaceOf(t, m) == p
  }

  /** One step of the loop: the task goes to its place, and to the active
      or future list when its status says so. */
  function Record(c: Categorization, t: Task, m: PhaseMapping): Categorization {
    Append(c, t, PlaceOf(t, m)).(
      active := c.active + (if t.status == "in_progress" then [t] else []),
      future := c.future + (if t.status == "pending" then [t] else []))
  }

  lemma RecordPlaces(c: Categorization, prefix: seq<Task>, t: Task, m: PhaseMapping)
    requires Places(c, prefix, m)
    ensures Places(Record(c, t, m), prefix + [t], m)
  {
    var r := Record(c, t, m);
    forall q, u ensures u in Slot(r, q) <==> u in prefix + [t] && PlaceOf(u, m) == q {
      AppendSlot(c, t, PlaceOf(t, m), q);
      assert Slot(r, q) == Slot(Append(c, t, PlaceOf(t, m)), q);
    }
  }

  lemma RecordContents(c: Categorization, t: Task, m: PhaseMapping)
    ensures Contents(Record(c, t, m)) == Contents(c) + multiset{t}
  {
    AppendContents(c, t, PlaceOf(t, m));
  }

  /** `categorize_tasks`: one pass over the tasks in order. Every task
      lands in exactly one of the seven task lists, the one its place
      names; the active and future lists are the in-progress and pending
      tasks in order. */
  function Categorize(tasks: seq<Task>, m: PhaseMapping): (c: Categorization)
    ensures Places(c, tasks, m)
    ensures Contents(c) == multiset(tasks)
    ensures c.active == WithStatus(tasks, "in_progress")
    ensures c.future == WithStatus(tasks, "pending")
    decreases |tasks|
  {
    if |tasks| == 0 then NoTasks
    else
      var prefix := tasks[..|tasks| - 1];
      var t := tasks[|tasks| - 1];
      assert tasks == prefix + [t];
      var c0 := Categorize(prefix, m);
      RecordPlaces(c0, prefix, t, m);
      RecordContents(c0, t, m);
      Record(c0, t, m)
  }

  /** `_get_tasks_for_phase`: an unknown phase id stands for the foundation;
      for a completed phase only its finished tasks, otherwise its open
      tasks followed by its finished ones. */
  function TasksForPhase(phase: string, c: Categorization, completed: bool): seq<Task> {
    var cat := PhaseCategory(Some(phase)).GetOr(Foundation);
    if completed then Slot(c, Place(cat, true))
    else Slot(c, Place(cat, false)) + Slot(c, Place(cat, true))
  }

  /** A phase's task list holds exactly the tasks placed in its category,
      finished ones only when the phase is completed. */
  lemma TasksForPhaseMembers(tasks: seq<Task>, m: PhaseMapping, phase: string, completed: bool, t: Task)
    ensures var cat := PhaseCategory(Some(phase)).GetOr(Foundation);
            t in TasksForPhase(phase, Categorize(tasks, m), completed) <==>
              t in tasks && PlaceOf(t, m).cat == cat && (PlaceOf(t, m).done || !completed)
  {
    SlotsMembers(Categorize(tasks, m), tasks, m, PhaseCategory(Some(phase)).GetOr(Foundation), t);
  }

  lemma SlotsMembers(c: Categorization, tasks: seq<Task>, m: PhaseMapping, cat: Category, t: Task)
    requires Places(c, tasks, m)
    ensures t in Slot(c, Place(cat, true)) <==> t in tasks && PlaceOf(t, m) == Place(cat, true)
    ensures t in Slot(c, Place(cat, false)) <==> t in tasks && PlaceOf(t, m) == Place(cat, false)
  {
  }
}
