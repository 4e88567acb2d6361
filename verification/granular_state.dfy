/** Step 1 of the granular migration (`Step1_ProjectStateAnalyzer`): the
    status distribution, what the completed, active and pending tasks are
    about, and the project maturity and development stage read off them. */
module GranularState {
  import opened Wrappers
  import opened Text
  import opened Tasks
  import opened Ranking
  import opened OrderedMaps

  // ---------------------------------------------------------------------
  // Status distribution

  /** The tasks with a status, in order. */
  function WithStatus(tasks: seq<Task>, status: string): (r: seq<Task>)
    ensures forall t :: t in r <==> t in tasks && t.status == status
    ensures |r| == CountStatus(tasks, status)
    decreases |tasks|
  {
    if |tasks| == 0 then []
    else
      var prefix := tasks[..|tasks| - 1];
      var t := tasks[|tasks| - 1];
      assert tasks == prefix + [t];
      CountStatusSnoc(prefix, t, status);
      WithStatus(prefix, status) + (if t.status == status then [t] else [])
  }

  /** `status_counts`: each status that occurs, in order of first
      occurrence, with its number of tasks. */
  function StatusCounts(tasks: seq<Task>): (m: OMap<string, nat>)
    ensures CountsStatuses(m, tasks)
    ensures Total(m) == |tasks|
    decreases |tasks|
  {
    if |tasks| == 0 then []
    else
      var m0 := StatusCounts(tasks[..|tasks| - 1]);
      var k := tasks[|tasks| - 1].status;
      var m := Put(m0, k, GetOr(m0, k, 0) + 1);
      StatusCountsLastStep(tasks, m0, m);
      TotalIncrement(m0, k);
      m
  }

  /** One more task on the end bumps its status's count. */
  lemma StatusCountsLastStep(tasks: seq<Task>, m0: OMap<string, nat>, m: OMap<string, nat>)
    requires |tasks| > 0 && CountsStatuses(m0, tasks[..|tasks| - 1])
    requires m == Put(m0, tasks[|tasks| - 1].status, GetOr(m0, tasks[|tasks| - 1].status, 0) + 1)
    ensures CountsStatuses(m, tasks)
  {
    var prefix := tasks[..|tasks| - 1];
    var t := tasks[|tasks| - 1];
    assert tasks == prefix + [t];
    PutUnique(m0, t.status, GetOr(m0, t.status, 0) + 1);
    forall s ensures CountsStatus(m, tasks, s) {
      StatusStep(prefix, t, m0, m, tasks, s);
    }
  }

  /** `m` has a key for `s` exactly when some task has status `s`, and then
      maps it to the number of such tasks. */
  ghost predicate CountsStatus(m: OMap<string, nat>, tasks: seq<Task>, s: string) {
    (HasKey(m, s) <==> CountStatus(tasks, s) > 0)
    && (HasKey(m, s) ==> Get(m, s) == CountStatus(tasks, s))
  }

  /** `m` maps each status that occurs in `tasks`, once, to its number of
      tasks. */
  ghost predicate CountsStatuses(m: OMap<string, nat>, tasks: seq<Task>) {
    UniqueKeys(m) && forall s :: CountsStatus(m, tasks, s)
  }

  lemma StatusStep(prefix: seq<Task>, t: Task, m0: OMap<string, nat>, m: OMap<string, nat>, ts: seq<Task>, s: string)
    requires CountsStatus(m0, prefix, s)
    requires m == Put(m0, t.status, GetOr(m0, t.status, 0) + 1) && ts == prefix + [t]
    ensures CountsStatus(m, ts, s)
  {
    CountStatusSnoc(prefix, t, s);
    if s != t.status {
      GetPutOther(m0, t.status, GetOr(m0, t.status, 0) + 1, s);
    }
  }

  /** `completed / total * 100`, or 0 for no tasks. */
  function CompletionPercentage(tasks: seq<Task>): (p: real)
    ensures |tasks| == 0 ==> p == 0.0
    ensures 0.0 <= p <= 100.0
    ensures |tasks| > 0 ==> (p == 100.0 <==> forall i :: 0 <= i < |tasks| ==> tasks[i].status == "completed")
    ensures p == 0.0 <==> forall i :: 0 <= i < |tasks| ==> tasks[i].status != "completed"
  {
    if |tasks| == 0 then 0.0
    else
      var c := CountStatus(tasks, "completed");
      PercentOf(c, |tasks|);
      c as real / |tasks| as real * 100.0
  }

  lemma PercentOf(c: nat, n: nat)
    requires c <= n && n > 0
    ensures var p := c as real / n as real * 100.0;
            && 0.0 <= p <= 100.0 && (p == 100.0 <==> c == n) && (p == 0.0 <==> c == 0)
  {
    var q := c as real / n as real;
    assert q * n as real == c as real;
    if c < n {
      assert q < 1.0;
    }
  }

  // ---------------------------------------------------------------------
  // First-match keyword categories

  /** A categoriser: category names with their keyword lists, highest
      priority first. */
  type Table = seq<(string, seq<string>)>

  function KeywordLists(table: Table): (ls: seq<seq<string>>)
    ensures |ls| == |table|
    ensures forall i :: 0 <= i < |table| ==> ls[i] == table[i].1
  {
    seq(|table|, i requires 0 <= i < |table| => table[i].1)
  }

  /** The category of the first keyword list with a hit in the task's text. */
  function CategoryOf(t: Task, table: Table): Option<nat> {
    FirstHit(TaskText(t), KeywordLists(table))
  }

  /** The tasks whose category is the `i`-th, in order. */
  function Bucket(tasks: seq<Task>, table: Table, i: nat): (r: seq<Task>)
    ensures forall t :: t in r <==> t in tasks && CategoryOf(t, table) == Some(i)
    decreases |tasks|
  {
    if |tasks| == 0 then []
    else
      assert tasks == [tasks[0]] + tasks[1..];
      (if CategoryOf(tasks[0], table) == Some(i) then [tasks[0]] else []) + Bucket(tasks[1..], table, i)
  }

  /** Every category with its tasks, in table order. */
  function Buckets(tasks: seq<Task>, table: Table): (m: OMap<string, seq<Task>>)
    ensures |m| == |table|
    ensures forall i :: 0 <= i < |table| ==> m[i] == (table[i].0, Bucket(tasks, table, i))
  {
    seq(|table|, i requires 0 <= i < |table| => (table[i].0, Bucket(tasks, table, i)))
  }

  predicate NonEmpty(ts: seq<Task>) {
    |ts| > 0
  }

  /** `{k: v for k, v in categories.items() if v}`. */
  function NonEmptyBuckets(tasks: seq<Task>, table: Table): OMap<string, seq<Task>> {
    Where(Buckets(tasks, table), NonEmpty, true)
  }

  ghost predicate DistinctNames(table: Table) {
    forall i, j :: 0 <= i < j < |table| ==> table[i].0 != table[j].0
  }

  /** A category survives the filter exactly when some task falls in it. */
  lemma BucketPresent(tasks: seq<Task>, table: Table, i: nat)
    requires i < |table| && DistinctNames(table)
    ensures HasKey(NonEmptyBuckets(tasks, table), table[i].0) <==>
              exists t :: t in tasks && CategoryOf(t, table) == Some(i)
  {
    if exists t :: t in tasks && CategoryOf(t, table) == Some(i) {
      BucketPresentIf(tasks, table, i);
    }
    if HasKey(NonEmptyBuckets(tasks, table), table[i].0) {
      BucketPresentOnlyIf(tasks, table, i);
    }
  }

  lemma BucketPresentIf(tasks: seq<Task>, table: Table, i: nat)
    requires i < |table|
    requires exists t :: t in tasks && CategoryOf(t, table) == Some(i)
    ensures HasKey(NonEmptyBuckets(tasks, table), table[i].0)
  {
    var m := Buckets(tasks, table);
    var r := NonEmptyBuckets(tasks, table);
    var t :| t in tasks && CategoryOf(t, table) == Some(i);
    assert t in Bucket(tasks, table, i);
    assert NonEmpty(m[i].1);
    assert m[i] in r;
    var j :| 0 <= j < |r| && r[j] == m[i];
  }

  lemma BucketPresentOnlyIf(tasks: seq<Task>, table: Table, i: nat)
    requires i < |table| && DistinctNames(table)
    requires HasKey(NonEmptyBuckets(tasks, table), table[i].0)
    ensures exists t :: t in tasks && CategoryOf(t, table) == Some(i)
  {
    var m := Buckets(tasks, table);
    var r := NonEmptyBuckets(tasks, table);
    var j :| 0 <= j < |r| && r[j].0 == table[i].0;
    assert r[j] in m && NonEmpty(r[j].1);
    var h :| 0 <= h < |m| && m[h] == r[j];
    assert h == i;
    var b := Bucket(tasks, table, i);
    assert b[0] in b;
  }

  /** Each task is in the bucket of its category and in no other; a task
      without a category is in none. */
  lemma BucketsPartition(tasks: seq<Task>, table: Table, t: Task)
    requires t in tasks
    ensures forall e :: e in NonEmptyBuckets(tasks, table) && t in e.1 ==>
              CategoryOf(t, table).Some? && e == (table[CategoryOf(t, table).value].0, Bucket(tasks, table, CategoryOf(t, table).value))
    ensures CategoryOf(t, table).Some? && CategoryOf(t, table).value < |table| ==>
              (table[CategoryOf(t, table).value].0, Bucket(tasks, table, CategoryOf(t, table).value))
                in NonEmptyBuckets(tasks, table)
  {
    var m := Buckets(tasks, table);
    forall e | e in NonEmptyBuckets(tasks, table) && t in e.1
      ensures CategoryOf(t, table).Some? && e == (table[CategoryOf(t, table).value].0, Bucket(tasks, table, CategoryOf(t, table).value))
    {
      var h :| 0 <= h < |m| && m[h] == e;
    }
    if CategoryOf(t, table).Some? && CategoryOf(t, table).value < |table| {
      var i := CategoryOf(t, table).value;
      assert t in m[i].1;
    }
  }

  // ---------------------------------------------------------------------
  // _analyze_completed_work

  const CompletedTable: Table := [
    ("database_setup", ["database", "schema", "table", "migration"]),
    ("authentication", ["auth", "login", "user", "profile"]),
    ("basic_apis", ["api", "endpoint", "service", "backend"]),
    ("core_components", ["component", "ui component", "reusable"]),
    ("dashboard_features", ["dashboard", "admin", "management"]),
    ("ui_pages", ["page", "route", "navigation"]),
    ("business_logic", ["calculator", "business logic", "algorithm"]),
    ("integrations", ["integration", "external", "api integration"]),
    ("testing", ["test", "testing", "quality"]),
    ("deployment", ["deploy", "production", "build"])
  ]

  lemma CompletedNamesDistinct()
    ensures DistinctNames(CompletedTable)
  {
  }

  lemma CompletedNames()
    ensures CompletedTable[0].0 == "database_setup" && CompletedTable[1].0 == "authentication"
    ensures CompletedTable[2].0 == "basic_apis" && CompletedTable[4].0 == "dashboard_features"
    ensures CompletedTable[5].0 == "ui_pages" && CompletedTable[6].0 == "business_logic"
    ensures CompletedTable[8].0 == "testing" && CompletedTable[9].0 == "deployment"
  {
  }

  /** Some completed task falls in the `i`-th completed-work category. */
  ghost predicate Built(completed: seq<Task>, i: nat) {
    exists t :: t in completed && CategoryOf(t, CompletedTable) == Some(i)
  }

  datatype CompletedWork = CompletedWork(
    categories: OMap<string, seq<Task>>,
    capabilities: seq<string>,
    foundationComplete: bool,
    hasUserInterface: bool,
    hasBusinessLogic: bool,
    isProductionReady: bool)

  /** The flags read the non-empty categories: the foundation is complete
      when database setup, authentication or basic APIs were built; there is
      a user interface when UI pages or dashboard features were; production
      readiness needs both testing and deployment. */
  function AnalyzeCompleted(completed: seq<Task>): (w: CompletedWork)
    ensures w.categories == NonEmptyBuckets(completed, CompletedTable)
    ensures w.capabilities == Keys(w.categories)
    ensures w.foundationComplete <==> Built(completed, 0) || Built(completed, 1) || Built(completed, 2)
    ensures w.hasUserInterface <==> Built(completed, 5) || Built(completed, 4)
    ensures w.hasBusinessLogic <==> Built(completed, 6)
    ensures w.isProductionReady <==> Built(completed, 8) && Built(completed, 9)
  {
    var cats := NonEmptyBuckets(completed, CompletedTable);
    var w := CompletedWork(
      cats, Keys(cats),
      HasKey(cats, "database_setup") || HasKey(cats, "authentication") || HasKey(cats, "basic_apis"),
      HasKey(cats, "ui_pages") || HasKey(cats, "dashboard_features"),
      HasKey(cats, "business_logic"),
      HasKey(cats, "testing") && HasKey(cats, "deployment"));
    CompletedWorkFlags(completed, w);
    w
  }

  lemma CompletedWorkFlags(completed: seq<Task>, w: CompletedWork)
    requires var cats := NonEmptyBuckets(completed, CompletedTable);
             w == CompletedWork(
               cats, Keys(cats),
               HasKey(cats, "database_setup") || HasKey(cats, "authentication") || HasKey(cats, "basic_apis"),
               HasKey(cats, "ui_pages") || HasKey(cats, "dashboard_features"),
               HasKey(cats, "business_logic"),
               HasKey(cats, "testing") && HasKey(cats, "deployment"))
    ensures w.foundationComplete <==> Built(completed, 0) || Built(completed, 1) || Built(completed, 2)
    ensures w.hasUserInterface <==> Built(completed, 5) || Built(completed, 4)
    ensures w.hasBusinessLogic <==> Built(completed, 6)
    ensures w.isProductionReady <==> Built(completed, 8) && Built(completed, 9)
  {
    CompletedFlags(completed);
  }

  lemma CompletedFlags(completed: seq<Task>)
    ensures var cats := NonEmptyBuckets(completed, CompletedTable);
            (HasKey(cats, "database_setup") <==> Built(completed, 0))
            && (HasKey(cats, "authentication") <==> Built(completed, 1))
            && (HasKey(cats, "basic_apis") <==> Built(completed, 2))
            && (HasKey(cats, "dashboard_features") <==> Built(completed, 4))
            && (HasKey(cats, "ui_pages") <==> Built(completed, 5))
            && (HasKey(cats, "business_logic") <==> Built(completed, 6))
            && (HasKey(cats, "testing") <==> Built(completed, 8))
            && (HasKey(cats, "deployment") <==> Built(completed, 9))
  {
    CompletedNames();
    CompletedFlag(completed, 0, "database_setup");
    CompletedFlag(completed, 1, "authentication");
    CompletedFlag(completed, 2, "basic_apis");
    CompletedFlag(completed, 4, "dashboard_features");
    CompletedFlag(completed, 5, "ui_pages");
    CompletedFlag(completed, 6, "business_logic");
    CompletedFlag(completed, 8, "testing");
    CompletedFlag(completed, 9, "deployment");
  }

  lemma CompletedFlag(completed: seq<Task>, i: nat, name: string)
    requires i < |CompletedTable| && CompletedTable[i].0 == name
    ensures HasKey(NonEmptyBuckets(completed, CompletedTable), name) <==> Built(completed, i)
  {
    CompletedNamesDistinct();
    BucketPresent(completed, CompletedTable, i);
  }

  // ---------------------------------------------------------------------
  // _analyze_current_work and _analyze_future_work

  const CurrentTable: Table := [
    ("infrastructure", ["setup", "config", "database", "auth"]),
    ("features", ["feature", "implement", "calculator", "logic"]),
    ("ui_development", ["ui", "page", "component", "interface"]),
    ("optimization", ["optimize", "improve", "enhance", "polish"])
  ]

  const FutureTable: Table := [
    ("planned_features", ["feature", "implement", "add"]),
    ("planned_ui", ["ui", "page", "interface"]),
    ("planned_optimization", ["optimize", "improve", "enhance"]),
    ("planned_testing", ["test", "testing", "quality"])
  ]

  function Sizes(m: OMap<string, seq<Task>>): (s: seq<int>)
    ensures |s| == |m|
    ensures forall i :: 0 <= i < |m| ==> s[i] == |m[i].1|
  {
    seq(|m|, i requires 0 <= i < |m| => |m[i].1|)
  }

  /** `{k: len(v) for k, v in d.items() if v}`. */
  function CountsOf(m: OMap<string, seq<Task>>): (c: OMap<string, nat>)
    ensures |c| <= |m|
  {
    var kept := Where(m, NonEmpty, true);
    seq(|kept|, i requires 0 <= i < |kept| => (kept[i].0, |kept[i].1|))
  }

  /** The category `max(..., key=len)` picks when some list is non-empty. */
  function FocusIndex(active: seq<Task>, table: Table): (r: Option<nat>)
    ensures r.None? <==> forall t :: t in active ==> CategoryOf(t, table).None?
    ensures r.Some? ==> r.value < |table| && |Bucket(active, table, r.value)| > 0
    ensures r.Some? ==> forall j :: 0 <= j < |table| ==>
              |Bucket(active, table, j)| <= |Bucket(active, table, r.value)|
    ensures r.Some? ==> forall j :: 0 <= j < r.value ==>
              |Bucket(active, table, j)| < |Bucket(active, table, r.value)|
  {
    var sizes := Sizes(Buckets(active, table));
    if exists i :: 0 <= i < |sizes| && sizes[i] > 0 then
      var k := FirstMax(sizes);
      FocusFound(active, table, sizes, k);
      Some(k)
    else
      FocusNone(active, table, sizes);
      None
  }

  lemma FocusFound(active: seq<Task>, table: Table, sizes: seq<int>, k: nat)
    requires sizes == Sizes(Buckets(active, table)) && k < |sizes|
    requires exists i :: 0 <= i < |sizes| && sizes[i] > 0
    requires forall j :: 0 <= j < |sizes| ==> sizes[j] <= sizes[k]
    requires forall j :: 0 <= j < k ==> sizes[j] < sizes[k]
    ensures k < |table| && |Bucket(active, table, k)| > 0
    ensures exists t :: t in active && CategoryOf(t, table).Some?
    ensures forall j :: 0 <= j < |table| ==> |Bucket(active, table, j)| <= |Bucket(active, table, k)|
    ensures forall j :: 0 <= j < k ==> |Bucket(active, table, j)| < |Bucket(active, table, k)|
  {
    BucketSizes(active, table, sizes);
    var i :| 0 <= i < |sizes| && sizes[i] > 0;
    var t := Bucket(active, table, i)[0];
    assert t in Bucket(active, table, i);
  }

  lemma BucketSizes(active: seq<Task>, table: Table, sizes: seq<int>)
    requires sizes == Sizes(Buckets(active, table))
    ensures |sizes| == |table|
    ensures forall j :: 0 <= j < |table| ==> sizes[j] == |Bucket(active, table, j)|
  {
  }

  lemma FocusNone(active: seq<Task>, table: Table, sizes: seq<int>)
    requires sizes == Sizes(Buckets(active, table))
    requires !exists i :: 0 <= i < |sizes| && sizes[i] > 0
    ensures forall t :: t in active ==> CategoryOf(t, table).None?
  {
  }

  datatype CurrentWork = CurrentWork(
    focusAreas: OMap<string, nat>,
    primaryFocus: Option<string>,
    byCategory: OMap<string, seq<Task>>)

  function AnalyzeCurrent(active: seq<Task>): (w: CurrentWork)
    ensures w.byCategory == Buckets(active, CurrentTable)
    ensures w.primaryFocus.None? <==> forall t :: t in active ==> CategoryOf(t, CurrentTable).None?
    ensures w.primaryFocus.Some? ==> w.primaryFocus.value == CurrentTable[FocusIndex(active, CurrentTable).value].0
  {
    var m := Buckets(active, CurrentTable);
    var focus := match FocusIndex(active, CurrentTable)
      case None => None
      case Some(i) => Some(CurrentTable[i].0);
    CurrentWork(CountsOf(m), focus, m)
  }

  datatype FutureWork = FutureWork(categories: OMap<string, nat>, byCategory: OMap<string, seq<Task>>)

  function AnalyzeFuture(pending: seq<Task>): (w: FutureWork)
    ensures w.byCategory == Buckets(pending, FutureTable)
    ensures |w.categories| <= |FutureTable|
  {
    FutureWork(CountsOf(Buckets(pending, FutureTable)), Buckets(pending, FutureTable))
  }

  // ---------------------------------------------------------------------
  // Maturity and development stage

  /** `mature`, `intermediate`, `early_intermediate`, `early`, `initial`. */
  datatype Maturity = Mature | Intermediate | EarlyIntermediate | Early | Initial

  /** `foundation_building`, `feature_development`, `ui_coordination`,
      `optimization_polish`, `transitional`. */
  datatype Stage = FoundationBuilding | FeatureDevelopment | UiCoordination | OptimizationPolish | Transitional

  function MaturityOf(c: CompletedWork): (m: Maturity)
    ensures m == Initial <==> !c.foundationComplete
    ensures m == Early <==> c.foundationComplete && !c.hasUserInterface
    ensures m == Mature <==> c.foundationComplete && c.hasUserInterface && c.isProductionReady
    ensures m == Intermediate <==>
              c.foundationComplete && c.hasUserInterface && !c.isProductionReady && c.hasBusinessLogic
    ensures m == EarlyIntermediate <==>
              c.foundationComplete && c.hasUserInterface && !c.isProductionReady && !c.hasBusinessLogic
  {
    if c.foundationComplete && c.hasUserInterface then
      if c.isProductionReady then Mature
      else if c.hasBusinessLogic then Intermediate
      else EarlyIntermediate
    else if c.foundationComplete then Early
    else Initial
  }

  function MaturityRank(m: Maturity): nat {
    match m
    case Initial => 0
    case Early => 1
    case EarlyIntermediate => 2
    case Intermediate => 3
    case Mature => 4
  }

  /** More completed work never lowers the maturity. */
  lemma MaturityGrowsWithCompletedWork(a: seq<Task>, b: seq<Task>)
    requires forall t :: t in a ==> t in b
    ensures MaturityRank(MaturityOf(AnalyzeCompleted(a))) <= MaturityRank(MaturityOf(AnalyzeCompleted(b)))
  {
    var c, d := AnalyzeCompleted(a), AnalyzeCompleted(b);
    BuiltGrows(a, b, 0);
    BuiltGrows(a, b, 1);
    BuiltGrows(a, b, 2);
    BuiltGrows(a, b, 4);
    BuiltGrows(a, b, 5);
    BuiltGrows(a, b, 6);
    BuiltGrows(a, b, 8);
    BuiltGrows(a, b, 9);
    RankGrowsWithFlags(c, d);
  }

  lemma BuiltGrows(a: seq<Task>, b: seq<Task>, i: nat)
    requires forall t :: t in a ==> t in b
    ensures Built(a, i) ==> Built(b, i)
  {
    if Built(a, i) {
      var t :| t in a && CategoryOf(t, CompletedTable) == Some(i);
      assert t in b;
    }
  }

  /** The maturity rank grows with each of the four flags. */
  lemma RankGrowsWithFlags(c: CompletedWork, d: CompletedWork)
    requires c.foundationComplete ==> d.foundationComplete
    requires c.hasUserInterface ==> d.hasUserInterface
    requires c.hasBusinessLogic ==> d.hasBusinessLogic
    requires c.isProductionReady ==> d.isProductionReady
    ensures MaturityRank(MaturityOf(c)) <= MaturityRank(MaturityOf(d))
  {
  }

  function StageOf(c: CompletedWork, w: CurrentWork): (s: Stage)
    ensures s == FoundationBuilding <==> !c.foundationComplete
    ensures s == Transitional ==>
              c.foundationComplete && c.hasBusinessLogic && c.hasUserInterface && !c.isProductionReady
              && w.primaryFocus !in {Some("features"), Some("ui_development"), Some("optimization")}
    ensures s == OptimizationPolish ==> c.foundationComplete && c.hasBusinessLogic && c.hasUserInterface
    ensures s == UiCoordination ==> c.foundationComplete && c.hasBusinessLogic
  {
    if !c.foundationComplete then FoundationBuilding
    else if !c.hasBusinessLogic || w.primaryFocus == Some("features") then FeatureDevelopment
    else if !c.hasUserInterface || w.primaryFocus == Some("ui_development") then UiCoordination
    else if w.primaryFocus == Some("optimization") || c.isProductionReady then OptimizationPolish
    else Transitional
  }

  datatype StateAnalysis = StateAnalysis(
    total: nat,
    statusCounts: OMap<string, nat>,
    completion: real,
    completed: CompletedWork,
    current: CurrentWork,
    future: FutureWork,
    maturity: Maturity,
    stage: Stage)

  /** `analyze_current_state`. */
  function AnalyzeState(tasks: seq<Task>): (s: StateAnalysis)
    ensures s.total == |tasks| == Total(s.statusCounts)
    ensures s.completed == AnalyzeCompleted(WithStatus(tasks, "completed"))
    ensures s.current == AnalyzeCurrent(WithStatus(tasks, "in_progress"))
    ensures s.maturity == MaturityOf(s.completed)
    ensures s.stage == StageOf(s.completed, s.current)
  {
    var completed := AnalyzeCompleted(WithStatus(tasks, "completed"));
    var current := AnalyzeCurrent(WithStatus(tasks, "in_progress"));
    StateAnalysis(
      |tasks|, StatusCounts(tasks), CompletionPercentage(tasks),
      completed, current, AnalyzeFuture(WithStatus(tasks, "pending")),
      MaturityOf(completed), StageOf(completed, current))
  }
}
