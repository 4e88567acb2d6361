# Agent-MCP task migrations, phase gates and tools: a verified model

Agent-MCP keeps a project's tasks in one table. A task has an id, title,
description, status, parent, child list, dependency list and notes. Newer
releases organise the tasks under four fixed **phases**:

- `phase_1_foundation`;
- `phase_2_intelligence`;
- `phase_3_coordination`;
- `phase_4_optimization`.

A phase may finish only when its work is done. This project models the
logic that moves an existing flat task list into phases, and the smaller
state machines around it. Every model is stated as pure Dafny functions
over immutable data, and its properties are proved.

Task migrations, one module per planner. Each reads the task list and plans
the phases, the reparenting and the notes, then applies them to a task store
(`map<string, Task>`):

- **Intelligent migration**: domain scoring, layer classification,
  dependency inference, the phase plan and the manager's store edits
  (`IntelligentAnalysis`, `IntelligentPlan`, `IntelligentManager`).
- **Granular migration**: status and completed-work analysis, maturity and
  stage tables, the phase mapping, task categorisation, workstream scoring,
  consolidation and capping, and the manager's root and parent rules
  (`GranularState`, `GranularMapping`, `GranularCategorize`,
  `GranularWorkstreams`, `GranularManager`).
- **Relationship-aware migration**: the parent and dependency maps, roots,
  closure clusters, cluster roots and types, cluster-to-phase rules and
  consolidation (`RelationshipGraph`, `RelationshipClusters`,
  `RelationshipPlan`).
- **Hierarchical migration**: roots, pre-order descendants, tree counts and
  the root-only reparenting (`Hierarchical`).
- **Startup migration**: the linear-progression override, the migration
  test, foundation creation and the task moves (`Startup`).

Around the migrations:

- **Phase tools**: the phase hierarchy, the completion analysis and its
  can-advance gate, and the guards of phase creation and advancement
  (`PhaseTools`).
- **Schema migrations**: legacy detection, the current version, pending
  migrations, the run that records or aborts, and backup expiry
  (`SchemaMigrations`).
- **Migration configuration**: defaults, environment and file parsing with
  typed coercion, and the save/load round trip (`MigrationSettings`). The
  `migrate` command's `--set`, `--restore` and run-with-overrides logic is
  in `MigrateCommand`.
- **Commit cleaner**: removing the generated-by credit lines from a commit
  message, and building the rebase todo list (`CommitCleaner`).
- **Terminal interfaces**, their non-drawing state only:
  - the server manager's log buffer, uptime, selection, server switching,
    launch and quit (`ServerManager`);
  - the enhanced interface's screen stack, breadcrumb, port selector, tabs,
    data loading, selection and bounded text (`EnhancedInterface`);
  - the control center's screens and exit (`ControlCenter`);
  - the data explorer's search, selection, scroll and menu (`Explorer`);
  - the selection and free-port rules they share (`Selection`).

Shared modules:

- `Wrappers`: `Option` and `Result`.
- `Text`: Python string operations with their exact rules (`in`, `strip`,
  `split`, `join`, `lower`, `int()`, `str()`).
- `Seqs`: sequence helpers.
- `OrderedMaps`: Python dicts as association lists in insertion order.
- `Sorting` and `Ranking`: stable sorts and first-maximum choices.
- `Tasks`: the task record and store.

JSON columns are treated as given: a dependency list is either its list of
ids or `Malformed`. SQL is left out. Where a source routine can raise, the
model returns `None` or an error value, and the caller's handling of it is
modelled too. The one exception is a NULL description, which the model's
task record cannot hold (see "Left out").

Where a planner has a bug (see "Findings"), the planner is modelled twice:
as written and corrected. The intelligent and granular managers then have
two runs each. `Run` uses the planner as written, as the source does, and
`RunCorrected` uses the corrected one.

## Model

| member | source | states |
|---|---|---|
| IntelligentAnalysis.AnalyzeDomain | agent_mcp/core/intelligent_migration.py:26-61 | the primary domain has a maximal score and is the first in table order to reach it; complexity is the task count; the UI, backend and business flags hold exactly when their keywords occur |
| IntelligentAnalysis.DomainScoreIsDistinctKeywordCount | agent_mcp/core/intelligent_migration.py:38-50 | a domain's score equals the number of distinct keywords of that domain present in the text |
| IntelligentAnalysis.FirstLayerIsFirstHit | agent_mcp/core/intelligent_migration.py:82-118 | the layer chosen from an ordered list is the first whose keywords hit, and unclassified exactly when none hits |
| IntelligentAnalysis.LayerOfIsFirstMatch | agent_mcp/core/intelligent_migration.py:75-118 | a task is filed under the first of infrastructure, core, UI, integration and optimization whose keywords occur in its title-and-description text, else unclassified |
| IntelligentAnalysis.TasksOfLayerMembers | agent_mcp/core/intelligent_migration.py:75-118 | the reference filter for a layer holds exactly the tasks that classify to it |
| IntelligentAnalysis.AnalyzeLayers | agent_mcp/core/intelligent_migration.py:63-120 | each of the six lists equals the in-order reference filter of the tasks classifying to that layer |
| IntelligentAnalysis.AnalyzeLayersKeepsTasks | agent_mcp/core/intelligent_migration.py:63-120 | the six lists together hold every task exactly once (multiset equality) |
| IntelligentAnalysis.LayersPartition | agent_mcp/core/intelligent_migration.py:63-120 | a task is in a layer's list iff it is a task classifying there, and the list lengths add up to the task count |
| IntelligentAnalysis.ExplicitOf | agent_mcp/core/intelligent_migration.py:139-145 | a dependency column that is not valid JSON reads as the empty list, a valid one as its ids |
| IntelligentAnalysis.ExplicitDependencies | agent_mcp/core/intelligent_migration.py:137-147 | the explicit map has exactly the task ids as keys |
| IntelligentAnalysis.ExplicitDependenciesLookup | agent_mcp/core/intelligent_migration.py:137-147 | with distinct ids, each task's entry is its own parsed list, empty when malformed |
| IntelligentAnalysis.MatchesSomePatternIff | agent_mcp/core/intelligent_migration.py:170-197 | the pattern scan succeeds exactly when some (dependent, dependency) keyword pair occurs in the two titles |
| IntelligentAnalysis.ImplicitDependencies | agent_mcp/core/intelligent_migration.py:149-166 | an edge (A, B) is recorded exactly when A and B are tasks with different ids whose lowercased titles match some pattern pair; no edge is a self-loop |
| IntelligentPlan.UnclassifiedTo | agent_mcp/core/intelligent_migration.py:229-241 | an unclassified task goes to exactly one group: completed tasks to foundation, page/UI titles to coordination, the rest to foundation |
| IntelligentPlan.GroupMember | agent_mcp/core/intelligent_migration.py:213-241 | a task is in a group's list exactly when it is one of the tasks and its layer and status send it to that group |
| IntelligentPlan.AssignAll | agent_mcp/core/intelligent_migration.py:252-253 | assigning a list adds exactly its ids, maps each to the phase, and leaves every other entry as it was |
| IntelligentPlan.FlagIds | agent_mcp/core/intelligent_migration.py:244-296 | the created phase ids appear in phase order and each phase is present exactly when its flag is set |
| IntelligentPlan.RecommendFirstThree | agent_mcp/core/intelligent_migration.py:244-285 | as written, phase 1 is created iff the foundation list is non-empty before the merge, phases 2 and 3 iff their thresholds (3 and 5) hold |
| IntelligentPlan.RecommendAsWritten | agent_mcp/core/intelligent_migration.py:244-296 | as written, the created phases are exactly those whose flags (non-empty foundation, 3 intelligence, 5 coordination, 2 optimization) hold, in order |
| IntelligentPlan.AssignAsWritten | agent_mcp/core/intelligent_migration.py:252-302 | as written, exactly the tasks of the four groups receive a phase |
| IntelligentPlan.PlanAsWritten | agent_mcp/core/intelligent_migration.py:199-312 | as written, every grouped task is assigned, phases are in order, and each phase is created exactly under its threshold |
| IntelligentPlan.GroupIdsDisjoint | agent_mcp/core/intelligent_migration.py:213-241 | with distinct task ids two different groups share no id |
| IntelligentPlan.GroupsSeparate | agent_mcp/core/intelligent_migration.py:213-241 | with distinct task ids the four groups have pairwise disjoint id sets |
| IntelligentPlan.OptimizationFallback | agent_mcp/core/intelligent_migration.py:297-302 | optimization below threshold goes to the last phase created so far, or phase 1 when none was |
| IntelligentPlan.AssignAsWrittenLookup | agent_mcp/core/intelligent_migration.py:252-302 | as written, each task of a group is assigned that group's fallback-aware target phase |
| IntelligentPlan.PlanAsWrittenAssigns | agent_mcp/core/intelligent_migration.py:199-312 | as written, with distinct ids every task gets its group's as-written target |
| IntelligentPlan.PhaseTasksHoldGroup | agent_mcp/core/intelligent_migration.py:265-302 | in the corrected plan a group's tasks are among the tasks of the phase it is merged into |
| IntelligentPlan.PhaseTasksNonEmpty | agent_mcp/core/intelligent_migration.py:255-296 | phases 2 to 4 receive tasks exactly when their own thresholds hold |
| IntelligentPlan.RecommendAll | agent_mcp/core/intelligent_migration.py:244-296 | the corrected plan creates exactly the phases that receive tasks, in order, each holding its tasks and justified by their true count |
| IntelligentPlan.AssignPlan | agent_mcp/core/intelligent_migration.py:252-302 | every grouped id is assigned, and each assigned id belongs to a group whose target it carries |
| IntelligentPlan.NonEmptyIsRecommended | agent_mcp/core/intelligent_migration.py:244-296 | a phase that receives tasks is created |
| IntelligentPlan.AssignedIsRecommended | agent_mcp/core/intelligent_migration.py:281-302 | in the corrected plan the phase an id is assigned is always created |
| IntelligentPlan.Plan | agent_mcp/core/intelligent_migration.py:199-312 | the corrected planner: every grouped task assigned, phases in order, phases 2-4 created exactly under their thresholds, and no assignment to an uncreated phase |
| IntelligentPlan.AssignPlanLookup | agent_mcp/core/intelligent_migration.py:252-302 | with separate groups a task of a group is assigned that group's target |
| IntelligentPlan.PlanAssigns | agent_mcp/core/intelligent_migration.py:199-312 | with distinct ids every task is assigned its group's target and listed in that phase's record |
| IntelligentPlan.SampleLayers | agent_mcp/core/intelligent_migration.py:89-101 | the title "logic" classifies as core functionality and "ui" as user interface |
| IntelligentPlan.SampleGroups | agent_mcp/core/intelligent_migration.py:213-241 | those two tasks give an intelligence group and a coordination group of one task each |
| IntelligentPlan.AsWrittenAssignsUncreatedPhases | agent_mcp/core/intelligent_migration.py:281-285 | as written, a logic task and a UI task create no phase yet are assigned phase 1 and phase 2 |
| IntelligentPlan.CorrectedCreatesAssignedPhase | agent_mcp/core/intelligent_migration.py:244-285 | on the same tasks the corrected planner creates phase 1 and assigns both tasks to it |
| IntelligentPlan.AsWrittenJustificationUndercounts | agent_mcp/core/intelligent_migration.py:244-269 | as written, a setup task plus a calculator task give a phase-1 record of two tasks justified as "(1 tasks)" |
| IntelligentManager.PhaseRow | agent_mcp/core/intelligent_migration.py:463-515 | the inserted phase row: its id and name, the phase definition plus the AI justification as description, pending, high priority, no parent, children or dependencies, one note by the migration |
| IntelligentManager.CreatePhase | agent_mcp/core/intelligent_migration.py:463-473 | a phase whose id already exists leaves the table alone; otherwise exactly that row is added and nothing else changes |
| IntelligentManager.CreatePhases | agent_mcp/core/intelligent_migration.py:443-445 | creating the phases in turn adds exactly their ids and keeps every existing row |
| IntelligentManager.CreatePhasesRows | agent_mcp/core/intelligent_migration.py:443-445 | with distinct new ids each phase gets the row built for it |
| IntelligentManager.KindOf | agent_mcp/core/intelligent_migration.py:533-550 | a root is moved under its phase; a subtask keeps its parent exactly when that parent is assigned the same phase |
| IntelligentManager.JustificationFor | agent_mcp/core/intelligent_migration.py:555-562 | the justification of the first recommended phase with the id, or "Intelligent analysis" when none has it |
| IntelligentManager.MigrateTask | agent_mcp/core/intelligent_migration.py:519-578 | migrating a task changes only its parent (to the phase, or kept under a same-phase parent) and appends one migration note |
| IntelligentManager.MigrateAll | agent_mcp/core/intelligent_migration.py:447-451 | every assigned existing task is migrated, unassigned rows are untouched, and assignments to missing tasks do nothing |
| IntelligentManager.MigratedCount | agent_mcp/core/intelligent_migration.py:447-451 | the loop's counter never exceeds the number of assignment ids it visits |
| IntelligentManager.MigratedCountIsPresentIds | agent_mcp/core/intelligent_migration.py:447-451 | over ids visited without repeats, the counter equals the number of distinct visited ids that have a row, since a missing task returns False (:526-527) |
| IntelligentManager.MigratedCountIsPresent | agent_mcp/core/intelligent_migration.py:447-451 | visiting every key of the assignment dict once, the counter equals the number of assignments whose task exists |
| IntelligentManager.FixEdge | agent_mcp/core/intelligent_migration.py:594-618 | one implicit edge: a missing dependent is skipped, a malformed column raises, otherwise the dependency ends up in the list and only dependency lists grow |
| IntelligentManager.FixAll | agent_mcp/core/intelligent_migration.py:594-618 | fixing the edges in order only ever grows dependency lists |
| IntelligentManager.FixAllFails | agent_mcp/core/intelligent_migration.py:594-618 | the loop raises exactly when some edge with an existing dependent meets a malformed dependency column |
| IntelligentManager.FixAllEstablishes | agent_mcp/core/intelligent_migration.py:594-618 | after a loop that does not raise, every edge's dependency is in its dependent's list |
| IntelligentManager.FixAllKeepsHolding | agent_mcp/core/intelligent_migration.py:607-609 | when every edge already holds the loop changes nothing |
| IntelligentManager.FixDependencies | agent_mcp/core/intelligent_migration.py:584-627 | the dependency fix, with an error caught before the commit rolling everything back, only grows dependency lists |
| IntelligentManager.FixDependenciesOutcome | agent_mcp/core/intelligent_migration.py:584-627 | the fix leaves the table as it was exactly when a malformed column is met, and otherwise establishes every edge |
| IntelligentManager.FixDependenciesIdempotent | agent_mcp/core/intelligent_migration.py:584-627 | running the dependency fix twice is running it once |
| IntelligentManager.RunWith | agent_mcp/core/intelligent_migration.py:322-398 | with any plan the run reports success; with no migration needed the table is unchanged and no status is recorded; otherwise the record counts the tasks and the plan's phases at version "2.0" |
| IntelligentManager.Run | agent_mcp/core/intelligent_migration.py:322-398 | the run as written, following the plan `determine_optimal_phases` as written returns: success, and a record counting the tasks and that plan's phases |
| IntelligentManager.RunCorrected | agent_mcp/core/intelligent_migration.py:322-398 | the same run following the corrected plan |
| IntelligentManager.PhaseIdsAreNew | agent_mcp/core/intelligent_migration.py:400-418 | a table that needs migrating holds no phase id |
| IntelligentManager.AssignedIdsAreRows | agent_mcp/core/intelligent_migration.py:420-434 | only loaded rows are assigned a phase, by either plan |
| IntelligentManager.PlansFitRows | agent_mcp/core/intelligent_migration.py:244-296 | both plans list their phases in phase order and assign only loaded rows |
| IntelligentManager.OrderedPhasesDistinct | agent_mcp/core/intelligent_migration.py:244-296 | phases listed in phase order have distinct ids drawn from the four phase ids |
| IntelligentManager.RecommendedAreNew | agent_mcp/core/intelligent_migration.py:400-418 | phases listed in phase order have distinct ids that a table needing migration lacks |
| IntelligentManager.RunWithKeys | agent_mcp/core/intelligent_migration.py:436-461 | with any plan, a migrating run leaves the old rows plus one row per planned phase, nothing else |
| IntelligentManager.RunKeys | agent_mcp/core/intelligent_migration.py:436-461 | after the run as written the table holds the old rows plus one row per phase the plan as written recommends, nothing else |
| IntelligentManager.RunCorrectedKeys | agent_mcp/core/intelligent_migration.py:436-461 | after the corrected run the table holds the old rows plus one row per phase the corrected plan recommends |
| IntelligentManager.RunWithPlacesTask | agent_mcp/core/intelligent_migration.py:447-451 | with any plan, an assigned old task ends up under its assigned phase, or under its old parent when that parent is assigned the same phase |
| IntelligentManager.RunPlacesTask | agent_mcp/core/intelligent_migration.py:436-582 | after the run as written every old task is assigned the phase the as-written rule picks for its group, and sits under that phase id or under a same-phase old parent; whether that phase has a row is not claimed |
| IntelligentManager.RunCorrectedPlacesTask | agent_mcp/core/intelligent_migration.py:436-582 | after the corrected run every old task sits under its assigned phase, or under a same-phase old parent, and that phase is recommended and has a row |
| IntelligentManager.RunWithCreatesPhase | agent_mcp/core/intelligent_migration.py:463-515 | with a plan in phase order over the loaded rows, each planned phase has the row built for it, apart from dependencies the fix adds |
| IntelligentManager.RunCreatesPhase | agent_mcp/core/intelligent_migration.py:463-515 | after the run as written, each phase the plan as written recommends has the row built for it |
| IntelligentManager.RunCorrectedCreatesPhase | agent_mcp/core/intelligent_migration.py:463-515 | after the corrected run, each phase the corrected plan recommends has the row built for it |
| IntelligentManager.LogicAndUiShape | agent_mcp/core/intelligent_migration.py:400-418 | the two-task table of the finding needs migrating, has distinct ids and no parents |
| IntelligentManager.LogicAndUiAsWrittenPlan | agent_mcp/core/intelligent_migration.py:281-285 | on that table the plan as written recommends no phase yet assigns the tasks phases 1 and 2 |
| IntelligentManager.LogicAndUiCorrectedPlan | agent_mcp/core/intelligent_migration.py:244-296 | on that table the corrected plan recommends phase 1 only and assigns both tasks to it |
| IntelligentManager.AsWrittenRunOrphansTasks | agent_mcp/core/intelligent_migration.py:436-461 | the run as written on that table records no phase, creates no phase row and leaves both tasks with parents phase 1 and phase 2, ids with no row |
| IntelligentManager.CorrectedRunCreatesPhase1 | agent_mcp/core/intelligent_migration.py:436-461 | the corrected run on that table records one phase, creates phase 1 and puts both tasks under it |
| RelationshipGraph.ParentMap | agent_mcp/core/relationship_aware_migration.py:56-64 | parent_map has no phase-id keys and records only non-empty parents that are not phase or root ids |
| RelationshipGraph.ParentMapHolds | agent_mcp/core/relationship_aware_migration.py:56-64 | with distinct ids, a non-phase task with a recordable parent has that parent in parent_map |
| RelationshipGraph.ParentMapAbsent | agent_mcp/core/relationship_aware_migration.py:56-64 | with distinct ids, a phase task or a task without a recordable parent has no entry |
| RelationshipGraph.NoEntryWithoutRow | agent_mcp/core/relationship_aware_migration.py:56-64 | every key of parent_map is the id of some row |
| RelationshipGraph.KnownDeps | agent_mcp/core/relationship_aware_migration.py:71-73 | the kept dependencies are exactly the listed ids that are tasks |
| RelationshipGraph.DepMap | agent_mcp/core/relationship_aware_migration.py:67-73 | the loader fails exactly when a non-phase row's dependency column is not valid JSON; otherwise every entry is a non-empty set of existing tasks |
| RelationshipGraph.BuildRelations | agent_mcp/core/relationship_aware_migration.py:54-73 | building the maps fails exactly on a malformed non-phase dependency column, and otherwise keeps the rows and the parent map |
| RelationshipGraph.RootsOf | agent_mcp/core/relationship_aware_migration.py:75-104 | the root list holds exactly the regular tasks that are roots, and no phase or root id |
| RelationshipGraph.RootIffNoLiveParent | agent_mcp/core/relationship_aware_migration.py:84-99 | a regular task is a root exactly when it has no recorded parent, or that parent is missing or cancelled |
| RelationshipGraph.RegularIds | agent_mcp/core/relationship_aware_migration.py:126-127 | the ids the clustering covers are exactly the tasks that are not phase or root ids |
| RelationshipGraph.Neighbours | agent_mcp/core/relationship_aware_migration.py:171-182 | the tasks the collection recurses into (children, dependencies, dependents) are regular ids |
| RelationshipGraph.Closure | agent_mcp/core/relationship_aware_migration.py:159-182 | the collected set contains the seed, stays within the allowed tasks, and is closed under allowed neighbours |
| RelationshipGraph.ClosureLeast | agent_mcp/core/relationship_aware_migration.py:159-182 | the collected set holds only reachable tasks: any seed-containing closed set contains it |
| RelationshipGraph.AddClusterGood | agent_mcp/core/relationship_aware_migration.py:116-123 | adding the closure of an unvisited seed keeps the clusters disjoint, non-empty and closed |
| RelationshipGraph.Visit | agent_mcp/core/relationship_aware_migration.py:112-123 | one seed: a visited seed is skipped, otherwise its closure over the unvisited tasks is added; the seed ends up visited and earlier clusters stay |
| RelationshipGraph.Sweep | agent_mcp/core/relationship_aware_migration.py:112-145 | after the seeds in order every regular seed is visited and the clustering stays good |
| RelationshipGraph.Unvisited | agent_mcp/core/relationship_aware_migration.py:126-135 | the leftover seeds include every regular id not yet visited |
| RelationshipGraph.BuildClustersGood | agent_mcp/core/relationship_aware_migration.py:106-157 | the clusters cover every regular id exactly once and each holds its members' unclaimed neighbours, so the catch-all cluster is never needed |
| RelationshipClusters.MemberRows | agent_mcp/core/relationship_aware_migration.py:188-190 | a cluster's rows are exactly the table rows whose id is a member |
| RelationshipClusters.MemberRowsCount | agent_mcp/core/relationship_aware_migration.py:188-190 | with distinct ids there is one row per member id that is a task |
| RelationshipClusters.Score | agent_mcp/core/relationship_aware_migration.py:236-239 | a workstream type scores zero exactly when none of its keywords occurs in the text |
| RelationshipClusters.TypeChoice | agent_mcp/core/relationship_aware_migration.py:241-244 | no type is chosen exactly when no keyword occurs; otherwise the chosen type scored, has a maximal score and is the first in table order to reach it |
| RelationshipClusters.WorkstreamTypeGeneral | agent_mcp/core/relationship_aware_migration.py:214-244 | the type is general exactly when no keyword of any type occurs in the lowercased cluster text; otherwise it is a type of the table |
| RelationshipClusters.MemberIds | agent_mcp/core/relationship_aware_migration.py:251 | the ids iterated are exactly the members that are tasks |
| RelationshipClusters.RootCandidates | agent_mcp/core/relationship_aware_migration.py:249-254 | the candidates are exactly the members with no parent recorded inside the cluster |
| RelationshipClusters.ClusterRoot | agent_mcp/core/relationship_aware_migration.py:246-265 | the chosen root is a member of the cluster |
| RelationshipClusters.ClusterRootCandidate | agent_mcp/core/relationship_aware_migration.py:257-265 | when candidates exist the root is one of them and no other candidate has more in-cluster children |
| RelationshipClusters.ClusterRootOfCycle | agent_mcp/core/relationship_aware_migration.py:257-259 | with no candidate every member's parent is in the cluster, and the root is the least id |
| RelationshipClusters.Analyze | agent_mcp/core/relationship_aware_migration.py:184-210 | a cluster's analysis refers to that cluster and names a root among its members |
| RelationshipClusters.AnalyzeCounts | agent_mcp/core/relationship_aware_migration.py:198-209 | completed plus in-progress never exceed the size, and the completion rate is 1.0 exactly when every member is completed |
| RelationshipClusters.ClusterPhase | agent_mcp/core/relationship_aware_migration.py:341-353 | the corrected phase choice agrees with the code whenever the mapping names both phases, and is always one of the four phases |
| RelationshipClusters.ClusterPhaseByStatus | agent_mcp/core/relationship_aware_migration.py:341-353 | finished clusters go to the foundation phase, clusters with any progress to the current phase, untouched ones to the next phase or its default |
| RelationshipClusters.PendingClusterInLastPhase | agent_mcp/core/relationship_aware_migration.py:351-353 | as written, an untouched cluster in a project at its last phase is given phase None; the corrected choice gives phase 3 |
| RelationshipPlan.AddCluster | agent_mcp/core/relationship_aware_migration.py:355-363 | adding a cluster to its phase and type group adds exactly its members to the phase's tasks |
| RelationshipPlan.GroupByPhase | agent_mcp/core/relationship_aware_migration.py:333-365 | grouping the clusters by phase and type loses and adds no task: the groups hold exactly the clusters' members |
| RelationshipPlan.Merged | agent_mcp/core/relationship_aware_migration.py:384-395 | merging groups' cluster lists and totals holds exactly their tasks |
| RelationshipPlan.CapAsWritten | agent_mcp/core/relationship_aware_migration.py:397-420 | the cap as written leaves at most seven workstreams |
| RelationshipPlan.ConsolidateAsWritten | agent_mcp/core/relationship_aware_migration.py:367-422 | consolidation as written leaves at most seven workstreams |
| RelationshipPlan.FirstPass | agent_mcp/core/relationship_aware_migration.py:372-395 | the corrected first pass, joining small groups to any large general group, keeps every task |
| RelationshipPlan.Cap | agent_mcp/core/relationship_aware_migration.py:397-420 | the corrected cap leaves at most seven workstreams holding exactly the tasks it was given |
| RelationshipPlan.Consolidate | agent_mcp/core/relationship_aware_migration.py:367-422 | corrected consolidation: at most seven workstreams that together hold exactly the tasks of the groups given |
| RelationshipPlan.ConsolidateKeepsLargeGroups | agent_mcp/core/relationship_aware_migration.py:375-377 | with only large groups and no more than seven of them, both consolidations change nothing |
| RelationshipPlan.WorkstreamId | agent_mcp/core/relationship_aware_migration.py:298 | a workstream id is always a workstream-root id |
| RelationshipPlan.WorkstreamTitle | agent_mcp/core/relationship_aware_migration.py:424-437 | a key outside the title table is shown as the key with underscores turned into spaces, up to letter case |
| RelationshipPlan.ClusterRows | agent_mcp/core/relationship_aware_migration.py:300-309 | a workstream's tasks are exactly the rows whose ids are in its clusters |
| RelationshipPlan.AssignIds | agent_mcp/core/relationship_aware_migration.py:314-316 | assigning a workstream adds exactly its task ids to the assignments |
| RelationshipPlan.AddWorkstreams | agent_mcp/core/relationship_aware_migration.py:297-316 | after a phase's workstreams, an id is assigned iff it was before or it is a task of one of the groups |
| RelationshipPlan.AddPhases | agent_mcp/core/relationship_aware_migration.py:292-316 | after every phase, an id is assigned iff it was before or it is a task the consolidated groups keep |
| RelationshipPlan.AssignIdsRootKeyed | agent_mcp/core/relationship_aware_migration.py:314-316 | assigning tasks to a root id keeps the assignments a dict whose values are all root ids |
| RelationshipPlan.AddWorkstreamsRootKeyed | agent_mcp/core/relationship_aware_migration.py:296-316 | a phase's workstreams are keyed `root_…` and their tasks are assigned to those keys |
| RelationshipPlan.AddPhasesRootKeyed | agent_mcp/core/relationship_aware_migration.py:292-316 | across all phases every workstream is keyed by a root id and every task is assigned once to a root id |
| RelationshipPlan.StructuresRootKeyed | agent_mcp/core/relationship_aware_migration.py:289-316 | both the structure as written and the corrected one assign each task once, to a workstream root id, with every workstream keyed by a root id |
| RelationshipPlan.PlannedIdsConsolidated | agent_mcp/core/relationship_aware_migration.py:292-294 | the corrected consolidation keeps every task of every phase |
| RelationshipPlan.ClustersFromTable | agent_mcp/core/relationship_aware_migration.py:106-157 | every cluster is a non-empty set of table ids and together they are the regular ids |
| RelationshipPlan.ClusterInfos | agent_mcp/core/relationship_aware_migration.py:26-52 | the analysis covers exactly the clusters of the table |
| RelationshipPlan.WorkstreamStructure | agent_mcp/core/relationship_aware_migration.py:276-331 | building the structure fails exactly when the relationship maps cannot be built |
| RelationshipPlan.WorkstreamStructureCovers | agent_mcp/core/relationship_aware_migration.py:318-325 | with the corrections no task is left behind: the assigned ids are exactly the tasks that are neither phases nor workstream roots |
| RelationshipPlan.AsWrittenOverwritesGeneral | agent_mcp/core/relationship_aware_migration.py:391-395 | as written, the merged small groups are stored over a large general group, whose tasks end up in no workstream; the corrected consolidation keeps them |
| RelationshipPlan.CapAsWrittenOfSorted | agent_mcp/core/relationship_aware_migration.py:404-418 | on eight sorted groups with general last, the cap as written keeps the first six and a general holding only the seventh |
| RelationshipPlan.CapDropsSmallestGeneral | agent_mcp/core/relationship_aware_migration.py:406-413 | as written, with eight large groups and general the smallest, tasks only in general end up in no workstream; the corrected cap keeps them |
| RelationshipPlan.AsWrittenCapDropsGeneral | agent_mcp/core/relationship_aware_migration.py:406-413 | a concrete phase with eight large groups where the cap as written drops a task and the corrected cap keeps it |
| RelationshipPlan.PhaseGroupsWith | agent_mcp/core/relationship_aware_migration.py:355-363 | the phase's groups with a cluster added hold the phase's old tasks plus exactly the cluster's members |
| RelationshipPlan.AddClusterKeys | agent_mcp/core/relationship_aware_migration.py:355-363 | adding a cluster introduces no phase other than its own |
| RelationshipPlan.GroupByPhaseKeys | agent_mcp/core/relationship_aware_migration.py:333-365 | every phase of the grouping is one of the phases the clusters were given |
| RelationshipPlan.FirstPassAsWrittenWithin | agent_mcp/core/relationship_aware_migration.py:375-395 | the first consolidation pass as written never invents a task |
| RelationshipPlan.CapAsWrittenWithin | agent_mcp/core/relationship_aware_migration.py:397-420 | the cap as written never invents a task |
| RelationshipPlan.ConsolidateAsWrittenWithin | agent_mcp/core/relationship_aware_migration.py:367-422 | consolidation as written keeps only tasks of the groups given, possibly fewer |
| RelationshipPlan.PlannedIdsAsWrittenWithin | agent_mcp/core/relationship_aware_migration.py:292-294 | the tasks planned under the consolidation as written all come from the phases' groups |
| RelationshipPlan.AddWorkstreamsPhases | agent_mcp/core/relationship_aware_migration.py:297-316 | the workstreams created for a phase carry that phase |
| RelationshipPlan.AddPhasesPhases | agent_mcp/core/relationship_aware_migration.py:292-316 | every workstream carries one of the grouping's phases |
| RelationshipPlan.AsWrittenGroupsRegular | agent_mcp/core/relationship_aware_migration.py:276-325 | the tasks planned as written are regular tasks, neither phases nor workstream roots |
| RelationshipPlan.AsWrittenGroupPhases | agent_mcp/core/relationship_aware_migration.py:333-365 | as written, each cluster goes to the foundation phase, the current phase or the next phase, which may be None |
| RelationshipPlan.WorkstreamStructureAsWritten | agent_mcp/core/relationship_aware_migration.py:276-331 | the structure as written fails exactly when the relationship maps cannot be built; it assigns only regular loaded tasks, and every workstream has the foundation, current or next phase, None included |
| RelationshipPlan.WorkstreamStructureAsWrittenAssigns | agent_mcp/core/relationship_aware_migration.py:297-316 | as written, a task is assigned exactly when it is loaded and the consolidation as written keeps it in some workstream |
| RelationshipPlan.WorkstreamStructurePhases | agent_mcp/core/relationship_aware_migration.py:333-365 | with the corrected phase rule and real current and next phases, every workstream has a real phase |
| RelationshipPlan.ConsolidateCrowded | agent_mcp/core/relationship_aware_migration.py:404-418 | with eight large sorted groups and general last, consolidation as written is the six largest plus a general holding only the seventh |
| RelationshipPlan.CrowdedLoses | agent_mcp/core/relationship_aware_migration.py:406-413 | a task found in none of the first seven groups is then in no workstream |
| RelationshipPlan.CrowdedPhaseFits | agent_mcp/core/relationship_aware_migration.py:406-413 | the concrete crowded phase meets the conditions of the finding for task g1 |
| GranularState.WithStatus | agent_mcp/core/granular_migration.py:47-55 | the tasks with a status are exactly those of the list with that status, and there are as many as the status count |
| GranularState.StatusCounts | agent_mcp/core/granular_migration.py:32-36 | the status distribution has one key per status that occurs, each mapped to its number of tasks, and the counts add up to the number of tasks |
| GranularState.CompletionPercentage | agent_mcp/core/granular_migration.py:44 | the completion percentage is 0 for no tasks, lies in 0..100, is 100 exactly when every task is completed and 0 exactly when none is |
| GranularState.Bucket | agent_mcp/core/granular_migration.py:92-117 | a category's list holds exactly the tasks whose first matching keyword list is that category's |
| GranularState.BucketPresent | agent_mcp/core/granular_migration.py:119-120 | a category survives the removal of empty lists exactly when some task falls in it |
| GranularState.BucketsPartition | agent_mcp/core/granular_migration.py:92-120 | each task is in the list of its category and in no other; a task matching no category is in none |
| GranularState.CompletedNames | agent_mcp/core/granular_migration.py:79-90 | the completed-work categories carry the names of the source table in its order |
| GranularState.AnalyzeCompleted | agent_mcp/core/granular_migration.py:76-129 | the foundation is complete iff database setup, authentication or basic APIs were built; a user interface iff UI pages or dashboard features; business logic iff that category; production ready iff both testing and deployment |
| GranularState.CompletedFlags | agent_mcp/core/granular_migration.py:119-128 | each named category is present after the filter exactly when some completed task falls in it |
| GranularState.FocusIndex | agent_mcp/core/granular_migration.py:157 | there is a primary focus exactly when some active task has a category; it is the first category with the longest list |
| GranularState.AnalyzeCurrent | agent_mcp/core/granular_migration.py:131-159 | the active tasks are listed by category, and the primary focus is absent exactly when no active task has a category, else the category FocusIndex picks |
| GranularState.AnalyzeFuture | agent_mcp/core/granular_migration.py:161-188 | the pending tasks are listed by category, with at most one count per category |
| GranularState.MaturityOf | agent_mcp/core/granular_migration.py:196-209 | maturity is initial without a foundation, early without a UI, mature when production ready, else intermediate or early intermediate by business logic |
| GranularState.MaturityGrowsWithCompletedWork | agent_mcp/core/granular_migration.py:196-209 | more completed work never lowers the maturity |
| GranularState.StageOf | agent_mcp/core/granular_migration.py:211-231 | foundation building exactly without a foundation; each later stage implies the conditions the earlier branches did not catch |
| GranularState.AnalyzeState | agent_mcp/core/granular_migration.py:26-74 | the state analysis counts every task, and its completed, current, maturity and stage parts are those of the completed and in-progress tasks |
| GranularMapping.PhaseIndex | agent_mcp/core/granular_migration.py:294-295 | the index of a known phase in the progression, 0 for a missing or unknown one |
| GranularMapping.NextPhase | agent_mcp/core/granular_migration.py:293-298 | there is no next phase exactly when the current phase is the last; otherwise it is the successor in the progression |
| GranularMapping.Progress | agent_mcp/core/granular_migration.py:254-291 | in every branch the current phase is one of the four, and the completed phases are a prefix of the progression ending before it |
| GranularMapping.Recommendations | agent_mcp/core/granular_migration.py:311-347 | the foundation always has an entry, completed or needed (with the default work when nothing was built); the intelligence phase has one exactly when it is current or completed; no other phase has one |
| GranularMapping.MapToPhases | agent_mcp/core/granular_migration.py:237-309 | the mapping names a real current phase, a completed prefix before it, the successor as next phase (none after the last), and the recommendations for them |
| GranularMapping.MappingOfAnalysis | agent_mcp/core/granular_migration.py:254-291 | on an analysed state the fallback branches are never taken: the stage alone fixes the current phase and every earlier phase counts as completed |
| GranularMapping.TransitionalFoundationOnly | agent_mcp/core/granular_migration.py:286-287 | the foundation-only transitional branch makes phase 2 current with no phase completed |
| GranularCategorize.ContentCategory | agent_mcp/core/granular_migration.py:401-427 | the first keyword list with a hit decides, foundation when none hits; content alone never gives optimization |
| GranularCategorize.PhaseCategory | agent_mcp/core/granular_migration.py:934-941 | a phase id stands for a category exactly when it is one of the four phases |
| GranularCategorize.ActiveCategory | agent_mcp/core/granular_migration.py:429-445 | an active task takes the current phase's category, or its content category when the current phase is unknown |
| GranularCategorize.FutureCategory | agent_mcp/core/granular_migration.py:447-461 | a pending task takes the next phase's category when that is one of the later three, else its content category |
| GranularCategorize.PlaceOf | agent_mcp/core/granular_migration.py:371-392 | completed, cancelled and unknown statuses go to a completed list by content (never optimization, so the key exists); in-progress and pending tasks go to their phase-hinted list |
| GranularCategorize.AppendSlot | agent_mcp/core/granular_migration.py:380-392 | appending touches only the named list, by exactly one task |
| GranularCategorize.Categorize | agent_mcp/core/granular_migration.py:353-399 | every task lands in exactly one of the seven task lists, the one its place names; the active and future lists are the in-progress and pending tasks in order |
| GranularCategorize.TasksForPhaseMembers | agent_mcp/core/granular_migration.py:930-947 | a phase's task list holds exactly the tasks placed in its category, the unfinished ones only when completed tasks alone are not asked for |
| GranularCategorize.SlotsMembers | agent_mcp/core/granular_migration.py:353-399 | each list of the categorization holds exactly the tasks placed there |
| GranularWorkstreams.SpaceRun | agent_mcp/core/granular_migration.py:475 | the leading whitespace run is all whitespace and maximal |
| GranularWorkstreams.SearchSpaced | agent_mcp/core/granular_migration.py:532-535 | the search for "a, whitespace, b" succeeds exactly when the shape occurs at some position of the text |
| GranularWorkstreams.SpacedAtMeaning | agent_mcp/core/granular_migration.py:532-535 | when b does not start with whitespace, matching at the maximal whitespace run is the same as matching with some run length, so backtracking changes nothing |
| GranularWorkstreams.PatternHits | agent_mcp/core/granular_migration.py:532-535 | the number of matching patterns is at most their count and zero exactly when none matches |
| GranularWorkstreams.Score | agent_mcp/core/granular_migration.py:823-834 | a workstream's score is zero exactly when no keyword is present and no pattern matches, and at most one per keyword plus two per pattern |
| GranularWorkstreams.Effective | agent_mcp/core/granular_migration.py:837 | a score competes only when it reaches the minimum score |
| GranularWorkstreams.Scan | agent_mcp/core/granular_migration.py:820-839 | the scan returns the first pattern with the largest competing score, and none exactly when every competing score is zero |
| GranularWorkstreams.ScanIsFirstMax | agent_mcp/core/granular_migration.py:820-839 | the scan agrees with taking the maximum of the competing scores, the first index winning ties |
| GranularWorkstreams.WorkstreamKey | agent_mcp/core/granular_migration.py:770-841 | a task's key is general exactly when no pattern competes; otherwise it is the key of a pattern with a positive competing score |
| GranularWorkstreams.PatternKeys | agent_mcp/core/granular_migration.py:772-818 | no pattern of the table is keyed general |
| GranularWorkstreams.GroupBy | agent_mcp/core/granular_migration.py:548-550 | grouping by key holds every task exactly once, each under its own key, with unique keys |
| GranularWorkstreams.Flatten | agent_mcp/core/granular_migration.py:583-587 | the items of all entries, entry by entry, are exactly the items of the map |
| GranularWorkstreams.Consolidate | agent_mcp/core/granular_migration.py:552-597 | consolidation leaves at most seven groups with unique keys holding exactly the input items; a named group survives only whole and with at least three items |
| GranularWorkstreams.FirstPassBag | agent_mcp/core/granular_migration.py:553-569 | merging small groups into general keeps every item |
| GranularWorkstreams.FirstPassShape | agent_mcp/core/granular_migration.py:556-569 | after the first pass a named group is an input group of at least three items |
| GranularWorkstreams.CapUnique | agent_mcp/core/granular_migration.py:571-595 | the cap leaves at most seven groups with unique keys |
| GranularWorkstreams.CapBag | agent_mcp/core/granular_migration.py:576-593 | the cap keeps every item, the overflow joining general |
| GranularWorkstreams.CapShape | agent_mcp/core/granular_migration.py:583-593 | after the cap a named group is still a whole input group of at least three items |
| GranularWorkstreams.Identify | agent_mcp/core/granular_migration.py:467-597 | every task lands in exactly one of at most seven non-empty groups, and a task sits in a named group only under its own key, in a group of at least three |
| GranularWorkstreams.IdentifyFacts | agent_mcp/core/granular_migration.py:548-569 | the grouped tasks give non-empty groups, and after consolidation a named group holds only tasks of its own key |
| GranularManager.PhaseInfoOf | agent_mcp/core/granular_migration.py:902-928 | a phase definition exists exactly for the four phase ids; anything else gets the empty definition |
| GranularManager.PhaseStatus | agent_mcp/core/granular_migration.py:857-863 | a completed phase is marked completed, the current one in progress, any other pending |
| GranularManager.PhasesFromWorkstreams | agent_mcp/core/granular_migration.py:843-879 | one plan per phase, in order of first appearance, with unique phases, fitting statuses, and holding exactly the tasks of the workstreams placed in it |
| GranularManager.CreatePhase | agent_mcp/core/granular_migration.py:1164-1206 | creating a phase fails exactly on an unknown phase; an existing row is left alone; a new row carries the plan's status, the phase name, no parent or children and one note |
| GranularManager.CreatePhases | agent_mcp/core/granular_migration.py:1062-1064 | the phase loop fails exactly when some plan has no phase definition, and otherwise adds exactly the plans' phase ids |
| GranularManager.PhaseIdsArePhases | agent_mcp/core/granular_migration.py:1062-1064 | when every plan has a definition, the phase rows the loop adds all carry one of the four phase ids |
| GranularManager.RollUp | agent_mcp/core/granular_migration.py:1121-1130 | a root is completed exactly when it has tasks and all are completed, pending exactly when none is completed or in progress, and in progress otherwise |
| GranularManager.CreateRoot | agent_mcp/core/granular_migration.py:1099-1162 | the insert fails on an existing id and the phase lookup fails for a None or missing phase; on success the root is added under its phase with the rolled-up status and the phase gains it as a child, nothing else changing |
| GranularManager.CreateRoots | agent_mcp/core/granular_migration.py:1066-1078 | a workstream without tasks is skipped, so every new row is the root of a non-empty workstream |
| GranularManager.CreateRootsParents | agent_mcp/core/granular_migration.py:1066-1078 | writing the workstream roots changes no existing row's parent |
| GranularManager.RootStep | agent_mcp/core/granular_migration.py:1071-1078 | one workstream adds at most its own root, and only when it has tasks |
| GranularManager.AddChild | agent_mcp/core/granular_migration.py:1249-1254 | the parent's child list gains the task unless it is already there |
| GranularManager.MigrateTask | agent_mcp/core/granular_migration.py:1208-1272 | a missing task reports failure and writes nothing; otherwise exactly one note is appended, and when the reparent rule applies the task moves under the new parent, which gains it at most once |
| GranularManager.MigrateAll | agent_mcp/core/granular_migration.py:1080-1084 | migrating the assignments adds and removes no row |
| GranularManager.MigrateAllNotes | agent_mcp/core/granular_migration.py:1080-1084 | with each task assigned once, every assigned row gains exactly one note naming its workstream and other rows' notes stay |
| GranularManager.MigrateAllParents | agent_mcp/core/granular_migration.py:1217-1243 | with each task assigned once, an assigned row moves under its workstream exactly when its parent is missing or empty, a phase or root id, or not in the table; every other row keeps its parent |
| GranularManager.Execute | agent_mcp/core/granular_migration.py:1056-1097 | an unknown phase in any plan abandons the transaction; a successful execution keeps every existing row |
| GranularManager.ExecuteParents | agent_mcp/core/granular_migration.py:1056-1084 | the phase and root rows written first add only phase and root ids and move no row, so on success an assigned old row moves under its workstream exactly when the parent rule holds of it in the table as loaded, and any other old row keeps its parent |
| GranularManager.NotCancelled | agent_mcp/core/granular_migration.py:608-609 | the tasks passed to the relationship analysis are exactly the rows that are not cancelled |
| GranularManager.RunWith | agent_mcp/core/granular_migration.py:1001-1018 | with no structure the run fails; with one it succeeds exactly when the execution does; a failed run leaves the table as it was and a successful one keeps every row |
| GranularManager.RunWithPlacesTasks | agent_mcp/core/granular_migration.py:1001-1084 | for any structure that assigns each task once to a root, a successful run puts each old row under its assigned workstream when the parent rule holds of it, and leaves every other row's parent |
| GranularManager.Run | agent_mcp/core/granular_migration.py:976-1018 | the run as written, over the relationship planner as written: with no migration needed the table is unchanged and the run succeeds; a failed run leaves the table as it was; a successful one keeps every row; where the moved tasks land is RunPlacesTasks |
| GranularManager.RunCorrected | agent_mcp/core/granular_migration.py:976-1018 | the same run over the corrected relationship planner, with the same guarantees; where the moved tasks land is RunCorrectedPlacesTasks |
| GranularManager.RunPlacesTasks | agent_mcp/core/granular_migration.py:976-1084 | on success the run as written puts each old row that the structure as written assigns under that workstream's root exactly when the parent rule holds of it; every other row keeps its parent |
| GranularManager.AsWrittenAssigns | agent_mcp/core/relationship_aware_migration.py:289-316 | the structure as written assigns each task once, only regular tasks of the table, and always to a workstream root id |
| GranularManager.RunCorrectedPlacesTasks | agent_mcp/core/granular_migration.py:976-1084 | on success the corrected run puts each old row that the corrected structure assigns under its workstream root exactly when the parent rule holds of it; every other row keeps its parent |
| GranularManager.CorrectedAssigns | agent_mcp/core/relationship_aware_migration.py:289-325 | the corrected structure assigns exactly the regular tasks of the table, each once and to a workstream root id |
| GranularManager.NonePhaseAborts | agent_mcp/core/granular_migration.py:1062-1064 | a workstream placed in phase None makes the phase loop raise and abandons the transaction |
| GranularManager.RunWithAborts | agent_mcp/core/granular_migration.py:1012-1018 | a structure with a workstream in phase None makes the run report failure with the table unchanged |
| GranularManager.AsWrittenNoneIsLast | agent_mcp/core/relationship_aware_migration.py:342-353 | as written, a workstream can have phase None only when the project is in the last phase |
| GranularManager.RunAbortsOnNonePhase | agent_mcp/core/granular_migration.py:976-1018 | the run as written, given a structure with a workstream in phase None, is in the last phase and fails with nothing written |
| GranularManager.RealPhasePlans | agent_mcp/core/granular_migration.py:843-879 | workstreams all in real phases give phase plans all with a phase definition |
| GranularManager.RunCorrectedRealPhases | agent_mcp/core/granular_migration.py:1062-1064 | with the corrected planner and a mapping in real phases, every phase plan has a definition, so the phase loop cannot raise on an unknown phase |
| Hierarchical.TasksMap | agent_mcp/core/hierarchical_migration.py:35-38 | the id map has exactly one key per loaded id, each holding a row with that id |
| Hierarchical.LookupValue | agent_mcp/core/hierarchical_migration.py:35-38 | a stored task is what its own id looks up |
| Hierarchical.TasksMapHolds | agent_mcp/core/hierarchical_migration.py:35-38 | with distinct ids every row is what its id looks up |
| Hierarchical.RootIds | agent_mcp/core/hierarchical_migration.py:40-42 | the root list holds exactly the ids of rows whose parent is None |
| Hierarchical.RootsAndChildren | agent_mcp/core/hierarchical_migration.py:36-42 | the roots and the rows with a parent together are all the rows |
| Hierarchical.TasksMapSize | agent_mcp/core/hierarchical_migration.py:96-99 | with distinct ids the map has one entry per row, so the subtask count is the number of rows with a parent |
| Hierarchical.Children | agent_mcp/core/hierarchical_migration.py:78-82 | the direct children are exactly the stored tasks whose parent is the given id |
| Hierarchical.DescListValues | agent_mcp/core/hierarchical_migration.py:74-90 | every descendant found is a stored task |
| Hierarchical.DescListPreorder | agent_mcp/core/hierarchical_migration.py:84-88 | descendants are listed in pre-order: each child before its own descendants |
| Hierarchical.DescListClosed | agent_mcp/core/hierarchical_migration.py:74-90 | every child of a listed task is listed |
| Hierarchical.ChainFresh | agent_mcp/core/hierarchical_migration.py:84-88 | along a parent chain starting at a parentless task, a child is never one of the ids the recursion is already inside |
| Hierarchical.ChainFinishes | agent_mcp/core/hierarchical_migration.py:74-90 | from a parentless task the recursion always ends |
| Hierarchical.DescendantsOfRoot | agent_mcp/core/hierarchical_migration.py:74-90 | for a stored parentless task the descendants are found; each is a stored task whose parent is the root or an earlier listed task, and every child of a listed task is listed |
| Hierarchical.SelfParentLoops | agent_mcp/core/hierarchical_migration.py:84-88 | a task that is its own parent sends the recursion round for ever, modelled as a recursion error |
| Hierarchical.StatusDistribution | agent_mcp/core/hierarchical_migration.py:67-70 | the status distribution counts every member once, by its status |
| Hierarchical.BuildTree | agent_mcp/core/hierarchical_migration.py:49-72 | an unknown root gives the empty tree, a cycle a recursion error, and otherwise the root followed by its descendants with their number and statuses |
| Hierarchical.TreeCounts | agent_mcp/core/hierarchical_migration.py:59-70 | a built tree's total is one more than its descendants and its status counts add up to it |
| Hierarchical.PlanTrees | agent_mcp/core/hierarchical_migration.py:104-115 | the plan loop succeeds exactly when every tree was built, and then lists each root in order with its tree |
| Hierarchical.EntryOf | agent_mcp/core/hierarchical_migration.py:110-115 | a plan entry names its root and the size of its tree |
| Hierarchical.Analyze | agent_mcp/core/hierarchical_migration.py:92-117 | the totals count the map and the roots, subtasks are their difference, one plan entry per root in order; the analysis fails exactly when some tree cannot be built |
| Hierarchical.AnalyzeDistinct | agent_mcp/core/hierarchical_migration.py:92-117 | with distinct ids the analysis succeeds and the subtask count is the number of rows with a parent |
| Hierarchical.CreateFoundation | agent_mcp/core/hierarchical_migration.py:155-207 | an existing foundation row is kept; otherwise a pending parentless one is inserted; no other row changes |
| Hierarchical.NoteSubtasks | agent_mcp/core/hierarchical_migration.py:260-289 | each subtask's row is overwritten with its loaded notes plus one note, parents stay, and an id without a row changes nothing |
| Hierarchical.MigrateTree | agent_mcp/core/hierarchical_migration.py:209-304 | the root moves under the foundation with one note over its loaded notes, every other member keeps its parent and gains one note, and every member counts as migrated |
| Hierarchical.MigrateTrees | agent_mcp/core/hierarchical_migration.py:306-370 | after the plan loop exactly the plan's roots sit under the foundation and every other parent is unchanged |
| Hierarchical.Run | agent_mcp/core/hierarchical_migration.py:306-370 | with no migration needed nothing changes; a failed run writes nothing; a needed run succeeds exactly when the analysis does and then adds only the foundation row |
| Hierarchical.PlanRootsAreRoots | agent_mcp/core/hierarchical_migration.py:104-115 | the plan's roots are exactly the root list |
| Hierarchical.RootIdsAreParentless | agent_mcp/core/hierarchical_migration.py:40-42 | with distinct ids a stored task is a root exactly when it has no parent |
| Hierarchical.FoundationAbsent | agent_mcp/core/hierarchical_migration.py:126-153 | when migration is needed the foundation phase is not yet stored |
| Hierarchical.RunReparentsRoots | agent_mcp/core/hierarchical_migration.py:306-370 | with distinct ids the run succeeds, inserts the foundation, moves exactly the parentless tasks under it and leaves every other parent alone |
| Startup.ClassifyTask | agent_mcp/core/startup_migration.py:128-142 | the phase is the first with the largest score and the confidence that score; when every score is below 0.05 it is the foundation with confidence 0.1 |
| Startup.ClassifyTieGoesEarlier | agent_mcp/core/startup_migration.py:134 | equal best scores go to the earlier phase |
| Startup.RootTasks | agent_mcp/core/startup_migration.py:191-196 | the query returns exactly the parentless rows whose id does not match 'phase_%', in table order |
| Startup.RootTasksNonEmpty | agent_mcp/core/startup_migration.py:162-166 | the non-phase root count is positive exactly when some parentless row's id does not match 'phase_%' |
| Startup.NeedsMigration | agent_mcp/core/startup_migration.py:151-182 | migration is needed exactly when no row matches 'phase_%' and some row is parentless |
| Startup.EnforceLinear | agent_mcp/core/startup_migration.py:217-242 | the same tasks in the same order, each now suggested for the foundation, with the classifier's suggestion kept as the original and the linear-progression reason |
| Startup.CountSuggested | agent_mcp/core/startup_migration.py:270 | the number of classifications suggesting a phase is at most their count |
| Startup.EnforcedCountsAll | agent_mcp/core/startup_migration.py:217-242 | once the progression is enforced the foundation counts every task |
| Startup.CreateNeededPhases | agent_mcp/core/startup_migration.py:244-318 | only the foundation is ever created: it is inserted, pending and parentless with a note counting its tasks, unless a row with its id exists, and the result lists the phases created |
| Startup.CreateNeededPhasesIdempotent | agent_mcp/core/startup_migration.py:261-264 | a second call creates nothing and changes nothing |
| Startup.MigrationNote | agent_mcp/core/startup_migration.py:328-352 | the note is by the startup migrator, worded by the migration reason, a missing original suggestion reading as the suggested phase |
| Startup.MigrateOne | agent_mcp/core/startup_migration.py:334-363 | one update moves the task under its suggested phase with the loaded notes plus the migration note; other rows, and an id with no row, are untouched |
| Startup.MigrateTasks | agent_mcp/core/startup_migration.py:320-377 | every classification is applied in order, so a task listed twice ends as the later entry says; rows not listed are left alone |
| Startup.MigratedTwice | agent_mcp/core/startup_migration.py:357-361 | a later update replaces both fields an earlier one set |
| Startup.LastIndex | agent_mcp/core/startup_migration.py:328-363 | a listed task has a last entry naming it |
| Startup.Run | agent_mcp/core/startup_migration.py:411-460 | the run returns true; with no migration needed nothing changes; otherwise exactly the foundation row is added |
| Startup.AdjustedDistinct | agent_mcp/core/startup_migration.py:184-242 | with distinct ids each entry of the migrated list is the only one for its task |
| Startup.RootTasksDistinct | agent_mcp/core/startup_migration.py:191-196 | with distinct ids the root tasks have distinct ids |
| Startup.FoundationAbsent | agent_mcp/core/startup_migration.py:157-171 | when a migration is needed the foundation row does not exist yet |
| Startup.RunMigrates | agent_mcp/core/startup_migration.py:420-437 | a needed run classifies at least one task, so it reaches the phase creation and the task updates |
| Startup.MigrateDistinct | agent_mcp/core/startup_migration.py:328-363 | with entries naming distinct tasks, a listed stored task ends as its one entry writes it |
| Startup.MigrateRootsAt | agent_mcp/core/startup_migration.py:328-363 | the updates leave every row that has a parent as it was |
| Startup.AdjustedShape | agent_mcp/core/startup_migration.py:184-242 | the migrated list names each root task once, in order, each for the foundation |
| Startup.RunCreatesFoundation | agent_mcp/core/startup_migration.py:244-318 | a needed run inserts the foundation, which did not exist, with a note counting every root task |
| Startup.RunPlacesRootsUnderFoundation | agent_mcp/core/startup_migration.py:411-460 | after a needed run every parentless task sits under the foundation with one more note and every other task is unchanged |
| PhaseTools.HierarchyIsLinear | agent_mcp/tools/phase_management_tools.py:18-58 | the hierarchy is the linear progression: the i-th phase has order i + 1 and depends on exactly the phase before it |
| PhaseTools.PhaseTasks | agent_mcp/tools/phase_management_tools.py:64-71 | a phase's tasks are exactly the rows under it that are not cancelled |
| PhaseTools.Blocking | agent_mcp/tools/phase_management_tools.py:94-102 | the blocking tasks are exactly the listed children neither completed nor cancelled |
| PhaseTools.PhaseStatus | agent_mcp/tools/phase_management_tools.py:105-114 | the status ladder: completed at 100%, near completion from 80%, then in progress, blocked by a failure, else pending, each exactly under its condition |
| PhaseTools.AllCompleted | agent_mcp/tools/phase_management_tools.py:86 | the completed count equals the number of children exactly when every child is completed |
| PhaseTools.BlockingEmpty | agent_mcp/tools/phase_management_tools.py:94-102 | among non-cancelled children nothing blocks exactly when every one is completed |
| PhaseTools.AnalyzeCompletion | agent_mcp/tools/phase_management_tools.py:60-127 | an empty phase cannot advance and is "empty"; otherwise it can advance exactly when every child is completed, which is exactly when nothing blocks, and its status follows the ladder |
| PhaseTools.FirstContaining | agent_mcp/tools/phase_management_tools.py:167-171 | the search returns the first definition whose id contains the phase type, none exactly when no id does |
| PhaseTools.FoundationSubstringsSelectFoundation | agent_mcp/tools/phase_management_tools.py:167-171 | any part of the foundation id, "phase" and "_" included, selects the foundation |
| PhaseTools.FirstFalse | agent_mcp/tools/phase_management_tools.py:188-191 | the first prerequisite whose gate is closed, none exactly when every gate is open |
| PhaseTools.OrDefault | agent_mcp/tools/phase_management_tools.py:202-203 | a custom name or description is used only when given and non-empty |
| PhaseTools.PhaseRow | agent_mcp/tools/phase_management_tools.py:208-226 | the inserted phase is pending, parentless, childless and depends on its prerequisites |
| PhaseTools.CreateFrom | agent_mcp/tools/phase_management_tools.py:177-244 | creation succeeds exactly when the id is new and every prerequisite can advance, appending the phase row; an existing id is refused first; a refused prerequisite is one that cannot advance, reported with its blocking count |
| PhaseTools.CreatePhase | agent_mcp/tools/phase_management_tools.py:149-279 | non-admins are refused, a missing or empty phase type is an error, an unknown type is invalid, and a known one proceeds to creation |
| PhaseTools.CreateNeedsPreviousDone | agent_mcp/tools/phase_management_tools.py:188-197 | creating a later phase needs the previous phase to have a completed child and no child other than completed or cancelled ones |
| PhaseTools.CreateKeepsIdsDistinct | agent_mcp/tools/phase_management_tools.py:183-233 | creation appends one row with a fresh id, so ids stay distinct |
| PhaseTools.MarkCompleted | agent_mcp/tools/phase_management_tools.py:419-426 | every row with the phase id is marked completed and gains the note; other rows are untouched |
| PhaseTools.AdvancePhase | agent_mcp/tools/phase_management_tools.py:362-478 | non-admins are refused, a missing id is an error, advancing needs force or a phase that can advance and a row of its own, and then marks it completed with the completion note |
| PhaseTools.MarkCompletedKeepsChildren | agent_mcp/tools/phase_management_tools.py:423-426 | marking a phase completed changes no other phase's children, so a forced advance does not open the next phase's gate |
| PhaseTools.AdvanceKeepsOtherGates | agent_mcp/tools/phase_management_tools.py:383-426 | after an advance every phase that is not the advanced row's parent reads the same completion analysis |
| SchemaMigrations.IsLegacyV1 | agent_mcp/db/migrations/migration_manager.py:220-240 | the database is legacy version 1 exactly when no task id is like `phase_%` |
| SchemaMigrations.CurrentVersion | agent_mcp/db/migrations/migration_manager.py:202-218 | the latest recorded version when there is one; otherwise 1.0.0 for a legacy database and no version when phase rows exist |
| SchemaMigrations.Pending | agent_mcp/db/migrations/migration_manager.py:242-263 | every pending migration is a step of the history after the first |
| SchemaMigrations.PendingFollowsHistory | agent_mcp/db/migrations/migration_manager.py:242-263 | a version of the history needs exactly the versions after it, no version needs all of them, and an unknown version needs none |
| SchemaMigrations.PendingEndsAtTarget | agent_mcp/db/migrations/migration_manager.py:242-263 | a non-empty pending list ends at the target version, and the target needs nothing |
| SchemaMigrations.LogMigration | agent_mcp/db/migrations/migration_manager.py:365-372 | the log keeps its entries and gains the new one at its end |
| SchemaMigrations.Flag | agent_mcp/db/migrations/migration_manager.py:88 | a missing flag reads as on, and a present boolean flag reads as its value |
| SchemaMigrations.RunAll | agent_mcp/db/migrations/migration_manager.py:146-182 | the run succeeds exactly when every pending migration succeeds, restores exactly on a failure with a backup the user wants restored, and only extends the log |
| SchemaMigrations.RunAllRecords | agent_mcp/db/migrations/migration_manager.py:146-171 | every migration is recorded in order on success; on failure exactly those before the first failure are, so nothing after a failure runs |
| SchemaMigrations.Migrate | agent_mcp/db/migrations/migration_manager.py:75-189 | auto_migrate off does nothing, an up-to-date database only has its backups cleaned, and the run exits exactly when the user declines on a terminal in interactive mode with migrations pending |
| SchemaMigrations.MigrateRecords | agent_mcp/db/migrations/migration_manager.py:75-182 | a migration run that goes ahead succeeds exactly when every pending migration does, records them or the prefix before the first failure, and only extends the log |
| SchemaMigrations.MigrateIdempotent | agent_mcp/db/migrations/migration_manager.py:75-189 | after a complete run the database is at the target version and a second run changes nothing |
| SchemaMigrations.RetentionDays | agent_mcp/db/migrations/migration_manager.py:342-344 | an integer retention is read as such, and a string retention makes the comparison fail |
| SchemaMigrations.StampText | agent_mcp/db/migrations/migration_manager.py:353 | the piece after the first `_backup_` up to the next one, missing exactly when there is no marker |
| SchemaMigrations.StampOf | agent_mcp/db/migrations/migration_manager.py:347-353 | the piece the glob's `*` matched, that is, the timestamp the backup was named with |
| SchemaMigrations.ExpiredBackupsAsWritten | agent_mcp/db/migrations/migration_manager.py:339-363 | as written: with a positive retention, exactly the listed backups whose split-off stamp parses to a time before the cutoff are deleted, and otherwise none |
| SchemaMigrations.ExpiredBackups | agent_mcp/db/migrations/migration_manager.py:339-363 | corrected: with a positive retention, exactly the listed backups whose own stamp is before the cutoff are deleted, and otherwise none |
| SchemaMigrations.BackupDeletedIffOld | agent_mcp/db/migrations/migration_manager.py:348-357 | a backup created at time t is deleted exactly when t lies more than the retention period before now |
| SchemaMigrations.SplitMisreadsStamp | agent_mcp/db/migrations/migration_manager.py:353 | for a database stem ending in `_backup`, the split reads `backup_1` where the backup was named `1` |
| SchemaMigrations.BackupStampRead | agent_mcp/db/migrations/migration_manager.py:347-353 | the corrected reading returns the stamp the backup was named with |
| SchemaMigrations.SplitKeepsOldBackup | agent_mcp/db/migrations/migration_manager.py:353-357 | an expired backup of `a_backup` is deleted by the corrected cleanup and kept as written |
| MigrationSettings.CoerceKeepsKind | agent_mcp/db/migrations/migration_config.py:75-87 | reading a value into a setting never changes the setting's type |
| MigrationSettings.EnvPassValues | agent_mcp/db/migrations/migration_config.py:37-53 | each variable named in the pass sets its own setting and touches no other |
| MigrationSettings.LoadEnvValues | agent_mcp/db/migrations/migration_config.py:37-53 | the settings keep the default keys in order, each with its coerced environment value or its default |
| MigrationSettings.LoadEnvShaped | agent_mcp/db/migrations/migration_config.py:37-53 | the environment never changes a setting's type |
| MigrationSettings.ApplySettingKeepsShape | agent_mcp/db/migrations/migration_config.py:73-87 | a setting line never adds or removes a setting, nor changes one's type |
| MigrationSettings.ApplyLineKeepsShape | agent_mcp/db/migrations/migration_config.py:66-87 | no line of the file adds or removes a setting, nor changes one's type |
| MigrationSettings.LoadLinesKeepsShape | agent_mcp/db/migrations/migration_config.py:55-89 | reading the whole file keeps the keys and the types of the settings |
| MigrationSettings.NewConfig | agent_mcp/db/migrations/migration_config.py:32-35 | the constructed configuration keeps the default shape, and without a project directory or file it is the environment reading alone |
| MigrationSettings.Lookup | agent_mcp/db/migrations/migration_config.py:91-93 | a present key gives its value, and a missing key gives the default |
| MigrationSettings.Assign | agent_mcp/db/migrations/migration_config.py:95-97 | the key now holds the value, and every other key is present and valued as before |
| MigrationSettings.SortedEntries | agent_mcp/db/migrations/migration_config.py:126 | the entries in key order, a permutation of the settings |
| MigrationSettings.Save | agent_mcp/db/migrations/migration_config.py:103-133 | text is written exactly when MCP_PROJECT_DIR is set and not empty |
| MigrationSettings.CoerceValueText | agent_mcp/db/migrations/migration_config.py:75-87 | reading a value's own text back into a setting of its type gives the value |
| MigrationSettings.SettingLineRead | agent_mcp/db/migrations/migration_config.py:66-87 | a written setting line is read back as that setting |
| MigrationSettings.FixedLinesAreComments | agent_mcp/db/migrations/migration_config.py:113-130 | the header and the explanatory lines of the file are comments |
| MigrationSettings.CommentSkipped | agent_mcp/db/migrations/migration_config.py:68-70 | a comment line leaves every setting unchanged |
| MigrationSettings.EntriesRead | agent_mcp/db/migrations/migration_config.py:66-87 | reading the written blocks of distinct settings assigns each its written value, in the order written |
| MigrationSettings.SavedLinesRead | agent_mcp/db/migrations/migration_config.py:113-130 | the saved file's lines are read as the sorted settings; the header and the blank lines change nothing |
| MigrationSettings.SaveThenLoad | agent_mcp/db/migrations/migration_config.py:55-133 | loading the saved text gives every saved key its saved value and keeps the set of keys |
| MigrationSettings.ReloadRestores | agent_mcp/db/migrations/migration_config.py:32-133 | saving settings and constructing the configuration again from that file restores them exactly, whatever the environment says |
| MigrationSettings.EnvStepKeeps | agent_mcp/db/migrations/migration_config.py:37-53 | one environment variable keeps the setting keys and changes no other setting |
| MigrationSettings.EnvPassKeys | agent_mcp/db/migrations/migration_config.py:37-53 | the environment pass keeps exactly the setting keys |
| MigrationSettings.EnvPassOthers | agent_mcp/db/migrations/migration_config.py:37-53 | a setting whose variable the pass does not visit keeps its value |
| MigrationSettings.LoadFileShaped | agent_mcp/db/migrations/migration_config.py:55-89 | loading a file into settings of the default shape keeps that shape |
| MigrationSettings.ShapedReadable | agent_mcp/db/migrations/migration_config.py:103-133 | every setting of the default shape can be written and read back into settings of that shape |
| MigrationSettings.ReloadInto | agent_mcp/db/migrations/migration_config.py:55-133 | saved settings of the default shape, loaded over any settings of that shape, are read back exactly |
| MigrateCommand.SetKey | agent_mcp/cli_commands/migrate_command.py:129-130 | the key is the text before the first `=`, trimmed and lower-cased |
| MigrateCommand.SetRaw | agent_mcp/cli_commands/migrate_command.py:129-131 | the value is the text after the first `=`, trimmed |
| MigrateCommand.SetConfig | agent_mcp/cli_commands/migrate_command.py:123-154 | a missing `=` is a format error, an unknown key is refused, a number setting given no number is refused, each exactly under its condition; a stored value keeps the setting's type |
| MigrateCommand.Store | agent_mcp/cli_commands/migrate_command.py:150-151 | the key is set to the value, every other setting is kept, and the file written is the save of the new settings |
| MigrateCommand.SetConfigPersists | agent_mcp/cli_commands/migrate_command.py:123-154 | a setting given with `--set` keeps the settings' shape and is read back from the written file at the next start |
| MigrateCommand.AssignKeepsShape | agent_mcp/cli_commands/migrate_command.py:150 | setting a key to a value of its own type keeps the settings' shape |
| MigrateCommand.NewestFirst | agent_mcp/cli_commands/migrate_command.py:196 | the backups sorted in reverse: the same names, each no earlier than the next |
| MigrateCommand.Offered | agent_mcp/cli_commands/migrate_command.py:196-200 | the offered backups are exactly the state backups in the directory, newest first |
| MigrateCommand.ChooseBackup | agent_mcp/cli_commands/migrate_command.py:208-221 | end of input, a non-number and 0 cancel, 1 to n pick that entry, any other number is invalid, each exactly under its condition |
| MigrateCommand.PickBackup | agent_mcp/cli_commands/migrate_command.py:185-221 | a backup named on the command line is picked exactly when it exists; without a name there are no backups exactly when no state backup exists, and a pick is one of them |
| MigrateCommand.RestoreBackup | agent_mcp/cli_commands/migrate_command.py:185-234 | a backup is restored exactly when one is picked and the answer confirms it, and it is one of the directory's files |
| MigrateCommand.RunMigration | agent_mcp/cli_commands/migrate_command.py:80-103 | force turns interactive off and no-backup turns auto_backup off while the run lasts, nothing else changes, and the settings afterwards are exactly the originals |
| MigrateCommand.PutBack | agent_mcp/cli_commands/migrate_command.py:100-103 | putting a key back to its previous value restores the settings exactly |
| MigrateCommand.RestoreOverrides | agent_mcp/cli_commands/migrate_command.py:86-103 | undoing both overrides in the finally block gives back the settings as they were |
| CommitCleaner.BlankIsStripEmpty | agent_mcp/dashboard/clean_commits.py:35 | a blank line is exactly one whose strip is empty |
| CommitCleaner.Scan | agent_mcp/dashboard/clean_commits.py:31-40 | every kept line is free of both credit markers and is a line of the message |
| CommitCleaner.ScanConcat | agent_mcp/dashboard/clean_commits.py:29-40 | scanning a concatenation scans the second part from the flag the first ends with |
| CommitCleaner.FlagHeld | agent_mcp/dashboard/clean_commits.py:32-37 | lines neither blank nor credit lines keep the flag and are kept or dropped alike under either flag |
| CommitCleaner.BlankNotCredit | agent_mcp/dashboard/clean_commits.py:32-39 | a blank line holds no credit marker |
| CommitCleaner.CreditEatsNextBlank | agent_mcp/dashboard/clean_commits.py:32-37 | the line after a credit line that is blank is dropped with it, and the lines between are kept as if no credit had come |
| CommitCleaner.ScanSubseq | agent_mcp/dashboard/clean_commits.py:31-40 | the kept lines are a subsequence of the message's lines |
| CommitCleaner.DropTrailingBlank | agent_mcp/dashboard/clean_commits.py:43-44 | the result is the longest prefix not ending in a blank line: it ends in a non-blank line or is empty, and only blank lines were removed |
| CommitCleaner.CleanLines | agent_mcp/dashboard/clean_commits.py:24-46 | the cleaned lines carry no credit marker, do not end in a blank line, and are a subsequence of the message's lines |
| CommitCleaner.ScanPlain | agent_mcp/dashboard/clean_commits.py:31-40 | lines without credit markers go through the scan unchanged |
| CommitCleaner.CleanIdempotent | agent_mcp/dashboard/clean_commits.py:24-46 | cleaning a cleaned message changes nothing |
| CommitCleaner.CreditedCommits | agent_mcp/dashboard/clean_commits.py:6-22 | exactly the logged commits whose message holds the credit mark |
| CommitCleaner.TodoList | agent_mcp/dashboard/clean_commits.py:77-81 | one line per commit in order, reworded exactly when the commit is credited and picked otherwise |
| CommitCleaner.TodoReadBack | agent_mcp/dashboard/clean_commits.py:77-85 | the written file splits back into the todo lines, and each reads back as its verb and its commit |
| CommitCleaner.RebaseTodo | agent_mcp/dashboard/clean_commits.py:48-85 | no rebase exactly when no commit is credited, and otherwise the todo list over the listed range |
| ServerManager.AddLog | agent_mcp/cli_commands/server_manager.py:77-81 | the line is the newest entry; below the cap it is appended, at the cap the oldest line goes, so a log within the cap stays within it |
| ServerManager.AddLogsKeepsNewest | agent_mcp/cli_commands/server_manager.py:59-81 | however many lines arrive, the log holds the newest thousand of everything added, in order |
| ServerManager.Pad2 | agent_mcp/cli_commands/server_manager.py:75 | a two-digit padded number is at least two digits long |
| ServerManager.ParsePad2 | agent_mcp/cli_commands/server_manager.py:75 | a padded number reads back as the number |
| ServerManager.ClockReadBack | agent_mcp/cli_commands/server_manager.py:71-75 | the clock text reads back as hours, minutes below 60 and seconds below 60 that add up to the seconds shown |
| ServerManager.UptimeAsWritten | agent_mcp/cli_commands/server_manager.py:68-75 | as written: a stopped server shows "Stopped", and a running one shows its elapsed time modulo a day |
| ServerManager.Uptime | agent_mcp/cli_commands/server_manager.py:68-75 | corrected: a stopped server shows "Stopped" |
| ServerManager.UptimeReadBack | agent_mcp/cli_commands/server_manager.py:68-75 | corrected: a running server's uptime reads back as its whole running time |
| ServerManager.UptimeStoppedNoClock | agent_mcp/cli_commands/server_manager.py:70 | a stopped server's text holds no clock |
| ServerManager.UptimeAsWrittenDropsDays | agent_mcp/cli_commands/server_manager.py:71-75 | as written, a server up 25 hours and a minute shows 01:01:00, where 25:01:00 is meant |
| ServerManager.UptimeAsWrittenReadBack | agent_mcp/cli_commands/server_manager.py:71-75 | the as-written reading falls short of the running time by the whole days run |
| ServerManager.Initial | agent_mcp/cli_commands/server_manager.py:96-112 | the manager starts on the dashboard with no servers, nothing selected or scrolled, a valid launch port and no project |
| ServerManager.MoveSelection | agent_mcp/cli_commands/server_manager.py:658-679 | only the dashboard and the browser move, and not on an empty list; the selection moves by the step, clamped into the list, and nothing but it and the scroll changes |
| ServerManager.HandleSelection | agent_mcp/cli_commands/server_manager.py:681-704 | Enter on the dashboard opens the selected server; in the browser a project directory or the current one becomes the launch project, and any other directory is entered and listed from the top |
| ServerManager.AscendingPorts | agent_mcp/cli_commands/server_manager.py:876 | the ports in ascending order, a permutation of the servers' ports |
| ServerManager.AscendingPortsMembers | agent_mcp/cli_commands/server_manager.py:876 | the sorted ports are exactly the servers' ports, each once |
| ServerManager.FirstIndex | agent_mcp/cli_commands/server_manager.py:877 | the first position of the port, missing exactly when it is absent |
| ServerManager.NextPort | agent_mcp/cli_commands/server_manager.py:876-879 | the next port is missing exactly when the current one is not listed, and otherwise is a listed port |
| ServerManager.NextPortIsSuccessor | agent_mcp/cli_commands/server_manager.py:876-879 | the next port is the least port above the current one, wrapping to the least of all after the largest |
| ServerManager.SwitchToNextServer | agent_mcp/cli_commands/server_manager.py:870-879 | at most one server changes nothing; otherwise the lookup fails exactly when the current port is no server's, and only the current port changes, to a server's port |
| ServerManager.SwitchIsSuccessor | agent_mcp/cli_commands/server_manager.py:870-879 | the switch moves to the least port above the current one, or the least of all after the largest |
| ServerManager.EnterPort | agent_mcp/cli_commands/server_manager.py:736-757 | a number from 1024 to 65535 becomes the launch port; anything else keeps the port and shows an error, so a valid port stays valid |
| ServerManager.LaunchServer | agent_mcp/cli_commands/server_manager.py:759-811 | a refused launch changes no server; a successful one registers the new server at its port, shows the dashboard and selects it |
| ServerManager.LaunchKeepsPortsUnique | agent_mcp/cli_commands/server_manager.py:759-808 | a launch never registers a second server on a port |
| ServerManager.OnQuitKey | agent_mcp/cli_commands/server_manager.py:163-171 | q outside the dashboard returns to it from the top; on the dashboard it quits exactly when confirm_quit agrees, which it does at once with no server running |
| Selection.Clamp | agent_mcp/cli_commands/unified_interface.py:837 | the clamped selection lies in the list, equals the step when that is in range, and sticks to the nearer end otherwise |
| Selection.FollowScroll | agent_mcp/cli_commands/server_manager.py:672-679 | the window moves just enough to show the selection: to it when above, to end at it when below, and not at all when it is in view |
| Selection.FollowScrollIdempotent | agent_mcp/cli_commands/server_manager.py:672-679 | a window already showing the selection is not moved again |
| Selection.FreePortFrom | agent_mcp/cli_commands/unified_interface.py:855-858 | the result is free, and every port from the start below it is taken |
| Selection.FindAvailablePort | agent_mcp/cli_commands/unified_interface_v2.py:1879-1884 | the least port from 8080 upward that no server holds |
| EnhancedInterface.CurrentScreen | agent_mcp/cli_commands/unified_interface_v2.py:265-267 | the screen on top of the stack, the main menu for an empty stack |
| EnhancedInterface.PushScreen | agent_mcp/cli_commands/unified_interface_v2.py:269-275 | the screen goes on top of the stack, becomes the current one, and the selection and scroll start again |
| EnhancedInterface.PopScreen | agent_mcp/cli_commands/unified_interface_v2.py:277-287 | the top goes, and the flag is true, exactly when something stays under it; otherwise nothing changes |
| EnhancedInterface.PopUndoesPush | agent_mcp/cli_commands/unified_interface_v2.py:269-287 | going back after opening a screen returns to the stack before it |
| EnhancedInterface.BaseNeverPopped | agent_mcp/cli_commands/unified_interface_v2.py:277-287 | whatever screens are opened and closed, the stack never empties and keeps its bottom screen |
| EnhancedInterface.BreadcrumbPush | agent_mcp/cli_commands/unified_interface_v2.py:774-790 | opening a screen adds its name to the breadcrumb, alone as the first above the base and after " > " otherwise |
| EnhancedInterface.BreadcrumbAtHome | agent_mcp/cli_commands/unified_interface_v2.py:774-790 | the home screen alone has an empty breadcrumb |
| EnhancedInterface.RandomCandidates | agent_mcp/cli_commands/unified_interface_v2.py:1655 | the candidates are exactly the ports from 8000 to 8999 that no server holds |
| EnhancedInterface.LastFive | agent_mcp/cli_commands/unified_interface_v2.py:1639-1640 | the buffer keeps its last five characters |
| EnhancedInterface.PortSelectorKey | agent_mcp/cli_commands/unified_interface_v2.py:1613-1662 | Enter closes and nothing else does; + and - step the port within 1024..65535; 1 to 9 pick the quick ports; 0 only feeds the typed buffer; a and r choose a free port |
| EnhancedInterface.ZerosNeverAPort | agent_mcp/cli_commands/unified_interface_v2.py:1641-1646 | a buffer of zeros reads as port 0 or not at all, which the range check refuses |
| EnhancedInterface.KeyKeepsZeros | agent_mcp/cli_commands/unified_interface_v2.py:1619-1662 | no key puts anything but zeros into the typed buffer, and 0 never sets the port |
| EnhancedInterface.DirectEntryUnreachable | agent_mcp/cli_commands/unified_interface_v2.py:1625-1646 | from a fresh selector, whatever keys are pressed, the typed buffer holds only zeros, so the typed-digit branch never chooses the port |
| EnhancedInterface.KeyKeepsFloor | agent_mcp/cli_commands/unified_interface_v2.py:1619-1662 | no key takes the port below 1024 |
| EnhancedInterface.TabIndex | agent_mcp/cli_commands/unified_interface_v2.py:1759-1760 | every tab has its place in the tab list |
| EnhancedInterface.NextTab | agent_mcp/cli_commands/unified_interface_v2.py:1759-1761 | the next tab is the one after it in the list, wrapping around |
| EnhancedInterface.TabCycle | agent_mcp/cli_commands/unified_interface_v2.py:1759-1762 | the five tabs form one cycle: five switches come back and fewer do not |
| EnhancedInterface.SwitchServerTab | agent_mcp/cli_commands/unified_interface_v2.py:1754-1769 | nothing happens without a panel; otherwise the next tab shows from its first row, its data to be loaded again |
| EnhancedInterface.LoadData | agent_mcp/cli_commands/unified_interface_v2.py:71-115 | skipped while loaded or loading; otherwise the tab's queries run, the load is marked done exactly when every query the tab needs succeeds, then with their rows, and loading is cleared on every way out |
| EnhancedInterface.LoadDataOnce | agent_mcp/cli_commands/unified_interface_v2.py:71-78 | a second load does nothing, whatever the queries would now return |
| EnhancedInterface.MaxItems | agent_mcp/cli_commands/unified_interface_v2.py:1903-1930 | the row count of each screen: 8 for the main menu, one per server on the hub, at most five on the port selector, none for the overview and logs tabs |
| EnhancedInterface.MoveSelection | agent_mcp/cli_commands/unified_interface_v2.py:1903-1935 | clamped into the screen's rows when it has any, otherwise unchanged |
| EnhancedInterface.SafeText | agent_mcp/cli_commands/unified_interface_v2.py:206-220 | nothing is written outside the screen; a text that fits is written whole and a longer one cut to a prefix one short of the rest of the row |
| EnhancedInterface.QuitAnswerInverted | agent_mcp/cli_commands/unified_interface_v2.py:1533-1539 | as written, with a server running, answering y keeps the interface open and n closes it |
| EnhancedInterface.QuitStopsIsConfirmQuit | agent_mcp/cli_commands/unified_interface_v2.py:1967-1974 | the intended rule stops exactly when confirm_quit agrees, and is the negation of the code as written whenever a server runs |
| ControlCenter.Initial | agent_mcp/cli_commands/unified_interface.py:65-76 | the control center starts on the main menu with no previous screen and nothing selected, its browser at the home directory with no items listed |
| ControlCenter.ChangeScreen | agent_mcp/cli_commands/unified_interface.py:813-823 | the new screen is current, the old one is previous, the selection and scroll start again, and only the project browser lists the working directory |
| ControlCenter.GoBack | agent_mcp/cli_commands/unified_interface.py:825-831 | with a previous screen the two swap; without one the main menu is opened unless already shown |
| ControlCenter.GoBackTwice | agent_mcp/cli_commands/unified_interface.py:825-831 | going back twice returns to the same pair of screens |
| ControlCenter.GoBackAfterChange | agent_mcp/cli_commands/unified_interface.py:813-831 | going back after a screen change returns to the screen left |
| ControlCenter.MaxItems | agent_mcp/cli_commands/unified_interface.py:839-851 | the row count of each screen, the data explorer counting servers until one is chosen |
| ControlCenter.MoveSelection | agent_mcp/cli_commands/unified_interface.py:833-837 | clamped into the screen's rows when it has any, otherwise unchanged |
| ControlCenter.MoveSelectionReversible | agent_mcp/cli_commands/unified_interface.py:833-837 | a step that stays inside the list is undone by the opposite step |
| ControlCenter.BreadcrumbEmptyIff | agent_mcp/cli_commands/unified_interface.py:209-222 | the breadcrumb is empty exactly for the screens without a title, the main menu among them |
| ControlCenter.Header | agent_mcp/cli_commands/unified_interface.py:185-195 | the header is the title, followed by " > " and the breadcrumb exactly for a titled screen |
| ControlCenter.QuitIgnoredWhenIdle | agent_mcp/cli_commands/unified_interface.py:726-731 | as written, q on the main menu never ends the program with no server running, and with servers running every answer but y ends it |
| ControlCenter.QuitStopsWhenIdle | agent_mcp/cli_commands/unified_interface.py:992-1009 | the intended rule stops at once with no server running, agrees with confirm_quit, and is the exact negation of the code as written |
| Explorer.Initial | agent_mcp/cli_commands/explorer_command.py:52-58 | the explorer starts in the main menu with no items, no detail view and no query |
| Explorer.IndexedMatch | agent_mcp/cli_commands/explorer_command.py:397-407 | a field read by key raises exactly when it is missing or None, and otherwise matches exactly when it contains the query, ignoring case |
| Explorer.DefaultMatch | agent_mcp/cli_commands/explorer_command.py:399-402 | a field read with a default raises exactly when it is None, a missing one reads as empty |
| Explorer.OrElse | agent_mcp/cli_commands/explorer_command.py:399-402 | the second test is evaluated only when the first is false |
| Explorer.FilterRows | agent_mcp/cli_commands/explorer_command.py:396-407 | the filter raises exactly when a row's test does; otherwise it keeps exactly the matching rows |
| Explorer.FilterRowsInOrder | agent_mcp/cli_commands/explorer_command.py:396-407 | the kept rows keep their order |
| Explorer.ApplySearchFilter | agent_mcp/cli_commands/explorer_command.py:390-407 | an empty query and the main mode keep the rows; otherwise the rows matching the lower-cased query |
| Explorer.NullAssigneeRaises | agent_mcp/cli_commands/explorer_command.py:399-402 | a task whose assignee is None makes the filter raise unless its title or description matched |
| Explorer.FilterAgain | agent_mcp/cli_commands/explorer_command.py:390-407 | filtering the filtered list again with the same query changes nothing |
| Explorer.LoadItems | agent_mcp/cli_commands/explorer_command.py:368-384 | the mode's query and then the filter, anything raising leaving an empty list; the main mode keeps its list |
| Explorer.MoveSelection | agent_mcp/cli_commands/explorer_command.py:333-340 | the selection moves by the step clamped into the list, and goes to 0 on an empty list |
| Explorer.ListScroll | agent_mcp/cli_commands/explorer_command.py:204-211 | the window moves just enough to show the selection, and not at all when it is in view |
| Explorer.HandleSelection | agent_mcp/cli_commands/explorer_command.py:342-366 | the menu's entries 0 to 2 open and load their lists from the top and 3 exits; in a list a selection in range opens its detail view |
| Explorer.OpenListStartsAtTop | agent_mcp/cli_commands/explorer_command.py:342-366 | opening a list starts on its first row at the top; an empty list moves the window offset to 1 |

## Left out

- SQLite access: cursors, commits, rollbacks and `INSERT OR REPLACE`. The store is a map. In the task migrations a failed transaction leaves it unchanged, as the source's rollback does. The schema migrations are different; see the next two lines.
- SchemaMigrations.RunAllRecords: treats each version record as durable once it is written (an autocommit assumption). The source commits only at agent_mcp/db/migrations/migration_manager.py:173, after every migration has run. `_record_migration` only inserts (:332-337). On an error the `finally` block closes the connection without a commit (:184-186), so records of earlier migrations in the same run are lost.
- SchemaMigrations.MigrateRecords: the same autocommit assumption. Also, `_migrate_to_2_0_0` closes the connection itself without committing (:311-316), which the model does not reflect.
- JSON encoding of dependencies, child lists and notes: these are treated as given.
- Timestamps: `datetime.now()` values are opaque parameters, and time is whole seconds.
- `async`/`await`: treated as sequential.
- Logging, and every printed message's text.
- The keyword scorers of the startup classifier (startup_migration.py 72-126): the four phase scores are given as real numbers, and only the argmax, the 0.05 cut-off and the fallback are modelled.
- Float arithmetic: completion percentages are compared as exact rationals (`5 * completed >= 4 * total` for 80%, and `completed == total` for 100%), so rounding at the boundary is not modelled. The `round(..., 1)` rendering is a parameter.
- Python set and dict iteration order: where the source iterates a set of ids, the model uses table order, so its clusters come out in table order. The cluster contents do not depend on that order.
- The relationship-aware depth-first search: modelled as the closure it computes. Python's recursion limit is not modelled.
- Hierarchical.BuildTree: Python's recursion limit is not modelled. A parent chain about 1000 deep makes the recursion at agent_mcp/core/hierarchical_migration.py:84-88 raise `RecursionError`. The run catches it and returns False (:368-370). The model's run reports success for such a chain.
- The possible clash between the cluster ids `cluster_disconnected_<id>` and `cluster_<id>`: a cluster record carries its own members instead of being looked up by id.
- The granular fallback structure (`_determine_migration_strategy` and the branch after `if all_tasks:`): it is taken only when `all_tasks` is empty or None (agent_mcp/core/granular_migration.py:607, else branch at :643). The manager always passes the list it read, and a table that needs migrating is not empty, so only the main path is modelled.
- Regular expressions of the workstream table: modelled as their "word, whitespace run, word" and literal shapes.
- Unicode: `lower()` is ASCII-only, and `int()` accepts Python whitespace, one sign and ASCII digits. Underscores and non-ASCII digits are not accepted.
- The configuration file: lines are split on `\n`, so a lone `\r` is not a line break. A read error partway through the file is not modelled (the source ignores it after the lines already read).
- The hierarchical manager's per-task failure count: always zero, because the store edits cannot fail in the model.
- The startup migration's per-task statistics: note parsing is treated as succeeding.
- `view_phase_status_tool_impl` (phase_management_tools.py 282-359): display only.
- `_get_active_agents_for_phase` (phase_management_tools.py 129-146): it lists agents to terminate and feeds only the advance message.
- The `ORDER BY priority` of the phase task query: the task set is modelled, not its order.
- Admin authentication: a boolean parameter.
- agent_mcp/db/connection.py is not part of this model.
- The migration lock (file locks, process liveness).
- Backup creation and copying: restore and backup are flags and chosen names.
- Interactive prompts: they are parameters (`env.confirmsMigration`, `env.wantsRestore`, the restore answers).
- The printing commands of `migrate`: `check_version`, `list_backups`, `show_migration_logs`, `show_config`.
- A restore name containing `/`: names are matched against the directory listing only.
- Curses drawing, colours, the clipboard, subprocesses, psutil, the monitor threads and the message timers.
- The explorer's key loop (explorer_command.py 86-138): it sits after the `while True` loop and is never reached.
- The enhanced interface's launch wizard and quick actions.
- The environment restore inside `load_data`: each query's outcome is a parameter.
- `random.choice`: a `roll` parameter that picks one of the candidates.
- Directory listings and the `.agent` test: parameters (`listing`, `hasAgentDir`).
- The git calls of the commit cleaner: `git log` and `git rev-list` are given lists.
- RelationshipPlan.WorkstreamTitle: its contract covers the fallback title, up to letter case, and not the table titles.
- ServerManager.Uptime: its own contract covers only the stopped case; the running case is stated by UptimeReadBack.
- PhaseTools.PhaseTasks: states which rows are returned, not their priority order.
- IntelligentManager.Run: a NULL description is not representable, because the model's task has a description string. In the source, `.lower()` on None raises (agent_mcp/core/intelligent_migration.py:77). The run then returns False and writes nothing (:394-396). The model's run instead treats the description as text.
- IntelligentManager.RunCorrected: the same NULL-description gap as `Run`.
- GranularManager.Run: the same NULL-description gap. In the source, `.lower()` raises on None at agent_mcp/core/granular_migration.py:94, 143, 173, 374, 518 and 773. The run then returns False with nothing written (:1015-1017).
- GranularManager.RunCorrected: the same NULL-description gap as `Run`.
- GranularManager.RunAbortsOnNonePhase: takes the workstream in phase None as given. It is not proved that a given table yields one, that is, that a cluster with no completed or active task in a phase-4 project survives consolidation. RelationshipClusters.PendingClusterInLastPhase proves the phase rule's half of that.

## Findings

| source | as written | input that shows it | evidently intended | confidence | as-written member | corrected member |
|---|---|---|---|---|---|---|
| agent_mcp/core/intelligent_migration.py:281-285 | coordination below five tasks falls back to `phase_2_intelligence` whenever the intelligence list is non-empty, else to `phase_1_foundation`, without checking that the phase was created | one task titled "logic" and one titled "ui": no phase is created, yet they are assigned phase 1 and phase 2 | a task is assigned only a phase the plan creates | not executed | IntelligentPlan.AsWrittenAssignsUncreatedPhases | IntelligentPlan.AssignedIsRecommended |
| agent_mcp/core/intelligent_migration.py:244-269 | the foundation phase's justification counts its list before the small intelligence group is appended to that same list | a "setup" task and a "calculator" task: the foundation phase holds two tasks but says "(1 tasks)" | the justification counts the tasks the phase receives | not executed | IntelligentPlan.AsWrittenJustificationUndercounts | IntelligentPlan.RecommendAll |
| agent_mcp/core/relationship_aware_migration.py:391-395 | the pooled small groups are stored under `general`, replacing a `general` group already kept as standalone | a `general` group of five tasks and a `testing` group of one: the five general tasks end up in no workstream | the small groups are merged into the existing `general` group | not executed | RelationshipPlan.AsWrittenOverwritesGeneral | RelationshipPlan.FirstPass |
| agent_mcp/core/relationship_aware_migration.py:406-413 | with more than seven groups, the six largest are kept and the rest pooled into a fresh `general`, which drops `general` itself when it ranks below sixth | seven groups of six tasks and a `general` group of five: the general tasks end up in no workstream | the cap merges every dropped group, `general` included, into `general` | not executed | RelationshipPlan.AsWrittenCapDropsGeneral | RelationshipPlan.Cap |
| agent_mcp/core/relationship_aware_migration.py:342-353 | `phase_mapping.get('next_phase', 'phase_3_coordination')` yields `None`, because the mapping always has the key and holds `None` in the last phase | a project in phase 4 and a cluster with no completed or active task: the cluster is given phase `None` | the default `phase_3_coordination` applies when there is no next phase | not executed | RelationshipClusters.PendingClusterInLastPhase | RelationshipClusters.ClusterPhaseByStatus |
| agent_mcp/db/migrations/migration_manager.py:353 | the timestamp is read as the piece after the first `_backup_` in the backup's stem | a database `a_backup.db` and an expired backup `a_backup_backup_<stamp>.db`: the piece read is `backup_<stamp>`, which does not parse, so the backup is never deleted | the timestamp is the text after `<database stem>_backup_` | not executed | SchemaMigrations.SplitKeepsOldBackup | SchemaMigrations.BackupDeletedIffOld |
| agent_mcp/cli_commands/server_manager.py:71-75 | the uptime uses `timedelta.seconds`, the seconds left after whole days | a server up 90060 seconds shows `01:01:00` | `25:01:00`, all hours since the start | not executed | ServerManager.UptimeAsWrittenDropsDays | ServerManager.UptimeReadBack |
| agent_mcp/cli_commands/unified_interface.py:726-731 | `q` on the main menu returns `confirm_exit()`, which is true when exiting is allowed, but the main loop stops when `handle_input` returns false | with no server running, `q` never exits; with a server running, answering `n` exits and `y` stays | stop exactly when `confirm_exit` allows it | not executed | ControlCenter.QuitIgnoredWhenIdle | ControlCenter.QuitStopsWhenIdle |
| agent_mcp/cli_commands/unified_interface_v2.py:1533-1539 | `q` on the main menu returns `confirm_exit()`, which is true for `y` with servers running, but the main loop stops when `handle_input` returns false | with a server running, answering `y` keeps the interface open and `n` closes it | stop exactly when the user confirms, as the server manager's `confirm_quit` does | not executed | EnhancedInterface.QuitAnswerInverted | EnhancedInterface.QuitStopsIsConfirmQuit |
