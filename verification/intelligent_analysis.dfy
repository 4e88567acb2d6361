/** Steps 1-3 of the intelligent migration's analysis chain
    (`ProjectAnalysisChain` in agent_mcp/core/intelligent_migration.py):
    project domain scoring, complexity-layer classification and dependency
    inference. */
module IntelligentAnalysis {
  import opened Wrappers
  import opened Text
  import opened Tasks
  import opened Ranking
  import opened Seqs

  // ---------------------------------------------------------------------
  // Step 1: project domain

  datatype Domain =
    | WebDevelopment | BackendDevelopment | MobileDevelopment
    | DataScience | DevOps | BusinessApplication

  /** The domain table in its declaration order, which decides ties. */
  const Domains: seq<Domain> := [WebDevelopment, BackendDevelopment, MobileDevelopment,
                                  DataScience, DevOps, BusinessApplication]

  function DomainKeywords(d: Domain): seq<string> {
    match d
    case WebDevelopment => ["website", "page", "ui", "frontend", "component", "react", "vue",
                            "angular", "html", "css", "javascript"]
    case BackendDevelopment => ["api", "server", "database", "auth", "authentication", "endpoint",
                                "service", "backend"]
    case MobileDevelopment => ["mobile", "app", "ios", "android", "react native", "flutter",
                               "swift", "kotlin"]
    case DataScience => ["data", "analytics", "ml", "machine learning", "model", "analysis",
                         "visualization"]
    case DevOps => ["deployment", "ci/cd", "docker", "kubernetes", "infrastructure", "monitoring"]
    case BusinessApplication => ["dashboard", "crm", "quote", "customer", "business", "management",
                                 "workflow"]
  }

  /** One task's contribution to the combined text, lowercased. */
  function DomainText(t: Task): string {
    Lower(t.title + " " + t.description)
  }

  /** The per-task texts joined by single spaces. */
  function CombinedText(tasks: seq<Task>): string {
    Join(seq(|tasks|, i requires 0 <= i < |tasks| => DomainText(tasks[i])), " ")
  }

  datatype DomainAnalysis = DomainAnalysis(
    primaryDomain: Domain,
    scores: seq<nat>,
    complexity: nat,
    hasUiComponents: bool,
    hasBackendWork: bool,
    hasBusinessLogic: bool)

  function DomainScores(text: string): (scores: seq<nat>)
    ensures |scores| == |Domains|
    ensures forall i :: 0 <= i < |Domains| ==> scores[i] == Hits(text, DomainKeywords(Domains[i]))
  {
    seq(|Domains|, i requires 0 <= i < |Domains| => Hits(text, DomainKeywords(Domains[i])))
  }

  /** `analyze_project_domain`: the primary domain is the first domain, in
      table order, whose keyword score is largest; complexity is the task
      count. */
  function AnalyzeDomain(tasks: seq<Task>): (a: DomainAnalysis)
    ensures |a.scores| == |Domains|
    ensures exists i :: 0 <= i < |Domains| && a.primaryDomain == Domains[i]
                        && (forall j :: 0 <= j < |Domains| ==> a.scores[j] <= a.scores[i])
                        && (forall j :: 0 <= j < i ==> a.scores[j] < a.scores[i])
    ensures a.complexity == |tasks|
    ensures a.hasUiComponents <==> exists t :: t in tasks && Contains(Lower(t.title), "component")
    ensures a.hasBackendWork <==> AnyIn(CombinedText(tasks), ["api", "database", "server"])
    ensures a.hasBusinessLogic <==>
              AnyIn(CombinedText(tasks), ["quote", "calculator", "business", "workflow"])
  {
    var text := CombinedText(tasks);
    var scores := DomainScores(text);
    var best := FirstMax(scores);
    DomainAnalysis(
      Domains[best], scores, |tasks|,
      exists t :: t in tasks && Contains(Lower(t.title), "component"),
      AnyIn(text, ["api", "database", "server"]),
      AnyIn(text, ["quote", "calculator", "business", "workflow"]))
  }

  /** No domain list repeats a keyword, so each score is the number of
      distinct keywords of that domain found in the combined text. */
  lemma DomainScoreIsDistinctKeywordCount(tasks: seq<Task>, i: nat)
    requires i < |Domains|
    ensures AnalyzeDomain(tasks).scores[i]
            == |Present(CombinedText(tasks), DomainKeywords(Domains[i]))|
  {
    assert Distinct(DomainKeywords(Domains[i]));
    HitsIsPresentKeywordCount(CombinedText(tasks), DomainKeywords(Domains[i]));
  }

  // ---------------------------------------------------------------------
  // Step 2: complexity layers

  datatype Layer =
    | Infrastructure | CoreFunctionality | UserInterface | Integration | Optimization
    | Unclassified

  /** The classified layers in the order their keyword tests are tried. */
  const LayerOrder: seq<Layer> := [Infrastructure, CoreFunctionality, UserInterface,
                                    Integration, Optimization]

  function LayerKeywords(l: Layer): seq<string> {
    match l
    case Infrastructure => ["setup", "config", "install", "database", "schema", "auth",
                            "authentication", "environment", "deployment", "infrastructure",
                            "basic", "core setup"]
    case CoreFunctionality => ["calculator", "algorithm", "logic", "processing", "computation",
                               "smart", "intelligent", "analysis", "recommendation", "search",
                               "filter"]
    case UserInterface => ["ui", "interface", "component", "page", "form", "button", "modal",
                           "styling", "design", "layout", "responsive", "user experience"]
    case Integration => ["integration", "api", "service", "workflow", "coordination",
                         "communication", "synchronization", "orchestration", "pipeline"]
    case Optimization => ["optimization", "performance", "improve", "enhance", "polish",
                          "refine", "testing", "quality", "monitoring", "analytics", "reporting"]
    case Unclassified => []
  }

  /** The first layer of `order` with a keyword in `text`, else
      `Unclassified`. */
  function FirstLayer(text: string, order: seq<Layer>): Layer
    decreases |order|
  {
    if |order| == 0 then Unclassified
    else if AnyIn(text, LayerKeywords(order[0])) then order[0]
    else FirstLayer(text, order[1..])
  }

  /** The first-match rule of `analyze_task_complexity_layers`. */
  function LayerOf(t: Task): Layer {
    FirstLayer(TaskText(t), LayerOrder)
  }

  lemma {:induction false} FirstLayerIsFirstHit(text: string, order: seq<Layer>)
    requires Unclassified !in order
    ensures var l := FirstLayer(text, order);
            (l == Unclassified <==> forall j :: 0 <= j < |order| ==> !AnyIn(text, LayerKeywords(order[j])))
            && (l != Unclassified ==>
                  exists k :: 0 <= k < |order| && order[k] == l && AnyIn(text, LayerKeywords(l))
                              && forall j :: 0 <= j < k ==> !AnyIn(text, LayerKeywords(order[j])))
    decreases |order|
  {
    if |order| > 0 && !AnyIn(text, LayerKeywords(order[0])) {
      FirstLayerIsFirstHit(text, order[1..]);
      var l := FirstLayer(text, order);
      if l != Unclassified {
        var k :| 0 <= k < |order[1..]| && order[1..][k] == l && AnyIn(text, LayerKeywords(l))
                 && forall j :: 0 <= j < k ==> !AnyIn(text, LayerKeywords(order[1..][j]));
        assert order[k + 1] == l;
        assert forall j :: 0 <= j < k + 1 ==> !AnyIn(text, LayerKeywords(order[j])) by {
          forall j | 0 <= j < k + 1 ensures !AnyIn(text, LayerKeywords(order[j])) {
            if j > 0 {
              assert order[j] == order[1..][j - 1];
            }
          }
        }
      } else {
        assert forall j :: 0 <= j < |order| ==> !AnyIn(text, LayerKeywords(order[j])) by {
          forall j | 0 <= j < |order| ensures !AnyIn(text, LayerKeywords(order[j])) {
            if j > 0 {
              assert order[j] == order[1..][j - 1];
            }
          }
        }
      }
    } else if |order| > 0 {
      assert order[0] != Unclassified;
    }
  }

  /** A task lands in the first of infrastructure, core, UI, integration and
      optimization whose keyword list has a hit in its lowercased
      title-and-description text; it is unclassified when none has. */
  lemma LayerOfIsFirstMatch(t: Task)
    ensures LayerOf(t) == Unclassified <==>
              forall j :: 0 <= j < |LayerOrder| ==> !AnyIn(TaskText(t), LayerKeywords(LayerOrder[j]))
    ensures LayerOf(t) != Unclassified ==>
              exists k :: 0 <= k < |LayerOrder| && LayerOrder[k] == LayerOf(t)
                          && AnyIn(TaskText(t), LayerKeywords(LayerOf(t)))
                          && forall j :: 0 <= j < k ==> !AnyIn(TaskText(t), LayerKeywords(LayerOrder[j]))
  {
    FirstLayerIsFirstHit(TaskText(t), LayerOrder);
  }

  /** The six lists of `analyze_task_complexity_layers`. */
  datatype Layers = Layers(
    infrastructure: seq<Task>,
    core: seq<Task>,
    ui: seq<Task>,
    integration: seq<Task>,
    optimization: seq<Task>,
    unclassified: seq<Task>)

  function Bucket(ls: Layers, l: Layer): seq<Task> {
    match l
    case Infrastructure => ls.infrastructure
    case CoreFunctionality => ls.core
    case UserInterface => ls.ui
    case Integration => ls.integration
    case Optimization => ls.optimization
    case Unclassified => ls.unclassified
  }

  function AllBuckets(ls: Layers): multiset<Task> {
    multiset(ls.infrastructure) + multiset(ls.core) + multiset(ls.ui)
    + multiset(ls.integration) + multiset(ls.optimization) + multiset(ls.unclassified)
  }

  /** Append one task to the list of layer `l`. */
  function Place(ls: Layers, t: Task, l: Layer): Layers {
    match l
    case Infrastructure => ls.(infrastructure := ls.infrastructure + [t])
    case CoreFunctionality => ls.(core := ls.core + [t])
    case UserInterface => ls.(ui := ls.ui + [t])
    case Integration => ls.(integration := ls.integration + [t])
    case Optimization => ls.(optimization := ls.optimization + [t])
    case Unclassified => ls.(unclassified := ls.unclassified + [t])
  }

  lemma PlaceBucket(ls: Layers, t: Task, l: Layer, l': Layer)
    ensures Bucket(Place(ls, t, l), l') == Bucket(ls, l') + (if l == l' then [t] else [])
  {
  }

  lemma PlaceAll(ls: Layers, t: Task, l: Layer)
    ensures AllBuckets(Place(ls, t, l)) == AllBuckets(ls) + multiset{t}
  {
    match l
    case Infrastructure =>
      assert multiset(ls.infrastructure + [t]) == multiset(ls.infrastructure) + multiset{t};
    case CoreFunctionality =>
      assert multiset(ls.core + [t]) == multiset(ls.core) + multiset{t};
    case UserInterface =>
      assert multiset(ls.ui + [t]) == multiset(ls.ui) + multiset{t};
    case Integration =>
      assert multiset(ls.integration + [t]) == multiset(ls.integration) + multiset{t};
    case Optimization =>
      assert multiset(ls.optimization + [t]) == multiset(ls.optimization) + multiset{t};
    case Unclassified =>
      assert multiset(ls.unclassified + [t]) == multiset(ls.unclassified) + multiset{t};
  }

  /** Reference definition of one layer: the tasks of that layer, in input
      order. */
  function TasksOfLayer(tasks: seq<Task>, l: Layer): (r: seq<Task>)
    decreases |tasks|
  {
    if |tasks| == 0 then []
    else (if LayerOf(tasks[0]) == l then [tasks[0]] else []) + TasksOfLayer(tasks[1..], l)
  }

  lemma {:induction false} TasksOfLayerMembers(tasks: seq<Task>, l: Layer)
    ensures forall t :: t in TasksOfLayer(tasks, l) <==> t in tasks && LayerOf(t) == l
    decreases |tasks|
  {
    if |tasks| > 0 {
      TasksOfLayerMembers(tasks[1..], l);
      assert forall t :: t in tasks <==> t == tasks[0] || t in tasks[1..];
    }
  }

  lemma {:induction false} TasksOfLayerSnoc(tasks: seq<Task>, t: Task, l: Layer)
    ensures TasksOfLayer(tasks + [t], l)
            == TasksOfLayer(tasks, l) + (if LayerOf(t) == l then [t] else [])
    decreases |tasks|
  {
    if |tasks| == 0 {
      assert tasks + [t] == [t];
    } else {
      assert (tasks + [t])[1..] == tasks[1..] + [t];
      TasksOfLayerSnoc(tasks[1..], t, l);
    }
  }

  /** `analyze_task_complexity_layers`: one pass that files every task under
      its layer. Each list equals the reference filter for its layer, and
      together the lists hold every task exactly once. */
  function AnalyzeLayers(tasks: seq<Task>): (ls: Layers)
    ensures forall l :: Bucket(ls, l) == TasksOfLayer(tasks, l)
    decreases |tasks|
  {
    if |tasks| == 0 then Layers([], [], [], [], [], [])
    else
      var prefix := tasks[..|tasks| - 1];
      var t := tasks[|tasks| - 1];
      var before := AnalyzeLayers(prefix);
      var r := Place(before, t, LayerOf(t));
      assert tasks == prefix + [t];
      forall l ensures Bucket(r, l) == TasksOfLayer(tasks, l) {
        PlaceBucket(before, t, LayerOf(t), l);
        TasksOfLayerSnoc(prefix, t, l);
      }
      r
  }

  /** Together the six lists hold every task exactly once. */
  lemma {:induction false} AnalyzeLayersKeepsTasks(tasks: seq<Task>)
    ensures AllBuckets(AnalyzeLayers(tasks)) == multiset(tasks)
    decreases |tasks|
  {
    if |tasks| > 0 {
      var prefix := tasks[..|tasks| - 1];
      var t := tasks[|tasks| - 1];
      var before := AnalyzeLayers(prefix);
      var l := LayerOf(t);
      assert AnalyzeLayers(tasks) == Place(before, t, l);
      AnalyzeLayersKeepsTasks(prefix);
      PlaceAll(before, t, l);
      MultisetSnoc(tasks);
    }
  }

  /** Layer classification partitions the tasks: a task is in a layer's
      list exactly when it is one of the tasks and classifies to that layer,
      and the six list lengths add up to the task count. */
  lemma LayersPartition(tasks: seq<Task>)
    ensures forall t, l :: t in Bucket(AnalyzeLayers(tasks), l) <==> t in tasks && LayerOf(t) == l
    ensures var ls := AnalyzeLayers(tasks);
            |ls.infrastructure| + |ls.core| + |ls.ui| + |ls.integration|
            + |ls.optimization| + |ls.unclassified| == |tasks|
  {
    var ls := AnalyzeLayers(tasks);
    forall l ensures forall t :: t in Bucket(ls, l) <==> t in tasks && LayerOf(t) == l {
      TasksOfLayerMembers(tasks, l);
    }
    AnalyzeLayersKeepsTasks(tasks);
    assert |AllBuckets(ls)| == |multiset(tasks)|;
  }

  // ---------------------------------------------------------------------
  // Step 3: dependencies

  /** The explicit dependency list of a task; text that is not valid JSON
      is read as the empty list rather than raising. */
  function ExplicitOf(t: Task): (ids: seq<string>)
    ensures t.deps.Malformed? ==> ids == []
    ensures t.deps.DepList? ==> ids == t.deps.ids
  {
    match t.deps
    case DepList(ids) => ids
    case Malformed => []
  }

  /** `explicit_dependencies`: task id to its parsed dependency list, built
      in list order (a later row with the same id would win). */
  function ExplicitDependencies(tasks: seq<Task>): (m: map<string, seq<string>>)
    ensures m.Keys == set t | t in tasks :: t.id
    decreases |tasks|
  {
    if |tasks| == 0 then map[]
    else
      var prefix := tasks[..|tasks| - 1];
      var t := tasks[|tasks| - 1];
      assert tasks == prefix + [t];
      ExplicitDependencies(prefix)[t.id := ExplicitOf(t)]
  }

  /** With distinct ids every task's entry is its own parsed list, and a
      malformed one is empty. */
  lemma {:induction false} ExplicitDependenciesLookup(tasks: seq<Task>, i: nat)
    requires DistinctIds(tasks) && i < |tasks|
    ensures tasks[i].id in ExplicitDependencies(tasks)
    ensures ExplicitDependencies(tasks)[tasks[i].id] == ExplicitOf(tasks[i])
    ensures tasks[i].deps.Malformed? ==> ExplicitDependencies(tasks)[tasks[i].id] == []
    decreases |tasks|
  {
    var prefix := tasks[..|tasks| - 1];
    if i < |tasks| - 1 {
      assert DistinctIds(prefix);
      assert prefix[i] == tasks[i];
      ExplicitDependenciesLookup(prefix, i);
    }
  }

  /** The keyword pairs of `_should_depend_on`: (keyword in the dependent
      title, keyword in the dependency title). */
  const DependencyPatterns: seq<(string, string)> := [
    ("component", "api"), ("form", "service"), ("page", "database"),
    ("test", "implement"), ("testing", "feature"),
    ("advanced", "basic"), ("enhancement", "core"), ("optimization", "implementation"),
    ("integration", "component"), ("workflow", "service")]

  /** The pattern scan of `_should_depend_on`, returning at the first pair
      that matches both titles. */
  function MatchesSomePattern(title: string, other: string, patterns: seq<(string, string)>): bool
    decreases |patterns|
  {
    if |patterns| == 0 then false
    else if Contains(title, patterns[0].0) && Contains(other, patterns[0].1) then true
    else MatchesSomePattern(title, other, patterns[1..])
  }

  predicate ShouldDependOn(title: string, other: string) {
    MatchesSomePattern(title, other, DependencyPatterns)
  }

  /** The scan succeeds exactly when some pair matches. */
  lemma {:induction false} MatchesSomePatternIff(title: string, other: string, patterns: seq<(string, string)>)
    ensures MatchesSomePattern(title, other, patterns)
            <==> exists p :: p in patterns && Contains(title, p.0) && Contains(other, p.1)
    decreases |patterns|
  {
    if |patterns| > 0 {
      MatchesSomePatternIff(title, other, patterns[1..]);
      assert forall p :: p in patterns <==> p == patterns[0] || p in patterns[1..];
    }
  }

  /** One inferred edge, as the dict the source appends. */
  datatype Edge = Edge(dependent: string, dependency: string, reason: string)

  function EdgeFor(a: Task, b: Task): Edge {
    Edge(a.id, b.id, "'" + Lower(a.title) + "' likely depends on '" + Lower(b.title) + "'")
  }

  /** Task `a` is inferred to depend on a different task `b`. */
  predicate Implied(a: Task, b: Task) {
    a.id != b.id && ShouldDependOn(Lower(a.title), Lower(b.title))
  }

  /** The inner loop: the edges from `a` to the tasks of `others`. */
  function EdgesFrom(a: Task, others: seq<Task>): (es: seq<Edge>)
    ensures forall e :: e in es <==> exists b :: b in others && Implied(a, b) && e == EdgeFor(a, b)
    decreases |others|
  {
    if |others| == 0 then []
    else
      (if Implied(a, others[0]) then [EdgeFor(a, others[0])] else [])
      + EdgesFrom(a, others[1..])
  }

  /** The outer loop over the dependents. */
  function EdgesAmong(dependents: seq<Task>, all: seq<Task>): (es: seq<Edge>)
    ensures forall e :: e in es <==>
              exists a, b :: a in dependents && b in all && Implied(a, b) && e == EdgeFor(a, b)
    decreases |dependents|
  {
    if |dependents| == 0 then []
    else
      var es := EdgesFrom(dependents[0], all) + EdgesAmong(dependents[1..], all);
      assert forall e :: e in es <==>
               exists a, b :: a in dependents && b in all && Implied(a, b) && e == EdgeFor(a, b) by {
        forall e ensures e in es <==>
            exists a, b :: a in dependents && b in all && Implied(a, b) && e == EdgeFor(a, b) {
          if exists a, b :: a in dependents && b in all && Implied(a, b) && e == EdgeFor(a, b) {
            var a, b :| a in dependents && b in all && Implied(a, b) && e == EdgeFor(a, b);
            if a != dependents[0] {
              assert a in dependents[1..];
            }
          }
        }
      }
      es
  }

  /** `implicit_dependencies`: an edge (A, B) is recorded exactly when A and
      B are tasks with different ids, A's lowercased title has the dependent
      keyword of some pattern and B's lowercased title has its dependency
      keyword. No edge points from a task to itself. */
  function ImplicitDependencies(tasks: seq<Task>): (es: seq<Edge>)
    ensures forall e :: e in es <==>
              exists a, b :: a in tasks && b in tasks && a.id != b.id
                             && (exists p :: p in DependencyPatterns
                                   && Contains(Lower(a.title), p.0) && Contains(Lower(b.title), p.1))
                             && e == EdgeFor(a, b)
    ensures forall e :: e in es ==> e.dependent != e.dependency
  {
    var es := EdgesAmong(tasks, tasks);
    forall a: Task, b: Task
      ensures Implied(a, b) <==>
                (a.id != b.id
                 && (exists p :: (p in DependencyPatterns
                                  && Contains(Lower(a.title), p.0) && Contains(Lower(b.title), p.1)))) {
      MatchesSomePatternIff(Lower(a.title), Lower(b.title), DependencyPatterns);
    }
    es
  }
}
