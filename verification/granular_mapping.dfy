/** Step 2 of the granular migration (`Step2_PhaseCurrentStateMapper`):
    the development stage picks the current phase and the phases already
    behind the project; the next phase is the current one's successor. */
module GranularMapping {
  import opened Wrappers
  import opened Tasks
  import opened OrderedMaps
  import opened GranularState

  /** One entry of `phase_recommendations`. */
  datatype Recommendation = Recommendation(status: string, work: seq<string>)

  datatype PhaseMapping = PhaseMapping(
    current: Option<string>,
    completed: seq<string>,
    next: Option<string>,
    recommendations: OMap<string, Recommendation>)

  /** `phase_order.index(p) if p in phase_order else 0`. */
  function PhaseIndex(p: Option<string>): (i: nat)
    ensures i < |PhaseOrder|
    ensures p.Some? && p.value in PhaseOrder ==> PhaseOrder[i] == p.value
    ensures p.None? || p.value !in PhaseOrder ==> i == 0
  {
    if p == Some(Phase1) then 0
    else if p == Some(Phase2) then 1
    else if p == Some(Phase3) then 2
    else if p == Some(Phase4) then 3
    else 0
  }

  /** The successor in the progression; the last phase has none. */
  function NextPhase(current: Option<string>): (n: Option<string>)
    ensures n.None? <==> current == Some(Phase4)
    ensures n.Some? ==> n.value == PhaseOrder[PhaseIndex(current) + 1]
  {
    var i := PhaseIndex(current);
    if i < |PhaseOrder| - 1 then Some(PhaseOrder[i + 1]) else None
  }

  /** The current phase and the completed phases for a stage. Whatever the
      branch, the completed phases are a prefix of the progression that
      stops before the current phase. */
  function Progress(stage: Stage, c: CompletedWork): (r: (string, seq<string>))
    ensures r.0 in PhaseOrder
    ensures |r.1| <= PhaseIndex(Some(r.0))
    ensures r.1 == PhaseOrder[..|r.1|]
  {
    match stage
    case FoundationBuilding => (Phase1, [])
    case FeatureDevelopment =>
      if c.foundationComplete then (Phase2, [Phase1]) else (Phase1, [])
    case UiCoordination => (Phase3, [Phase1, Phase2])
    case OptimizationPolish => (Phase4, [Phase1, Phase2, Phase3])
    case Transitional =>
      if c.hasUserInterface && c.hasBusinessLogic then (Phase3, [Phase1, Phase2])
      else if c.hasBusinessLogic then (Phase2, [Phase1])
      else if c.foundationComplete then (Phase2, [])
      else (Phase1, [])
  }

  const FoundationWork: seq<string> := ["database setup", "authentication", "basic APIs"]
  const IntelligenceWork: seq<string> := ["core business logic", "algorithms", "data processing"]

  /** `_create_phase_recommendations`: the foundation always has an entry;
      the intelligence phase has one when it is current or completed. */
  function Recommendations(current: Option<string>, completed: seq<string>, c: CompletedWork)
    : (r: OMap<string, Recommendation>)
    ensures HasKey(r, Phase1)
    ensures Get(r, Phase1).status == (if Phase1 in completed then "completed" else "needed")
    ensures Phase1 !in completed ==>
              Get(r, Phase1).work == (if |c.capabilities| == 0 then FoundationWork else [])
    ensures HasKey(r, Phase2) <==> current == Some(Phase2) || Phase2 in completed
    ensures current == Some(Phase2) ==>
              Get(r, Phase2) == Recommendation("active", if c.hasBusinessLogic then [] else IntelligenceWork)
    ensures forall k :: HasKey(r, k) ==> k == Phase1 || k == Phase2
  {
    var foundation :=
      if Phase1 !in completed then
        Recommendation("needed", if |c.capabilities| == 0 then FoundationWork else [])
      else Recommendation("completed", []);
    var r := [(Phase1, foundation)];
    assert r[0].0 == Phase1;
    if current == Some(Phase2) then
      var r2 := r + [(Phase2, Recommendation("active", if c.hasBusinessLogic then [] else IntelligenceWork))];
      assert r2[0].0 == Phase1 && r2[1].0 == Phase2;
      assert IndexOf(r2, Phase1) == 0 && IndexOf(r2, Phase2) == 1;
      r2
    else if Phase2 in completed then
      var r2 := r + [(Phase2, Recommendation("completed", []))];
      assert r2[0].0 == Phase1 && r2[1].0 == Phase2;
      assert IndexOf(r2, Phase1) == 0 && IndexOf(r2, Phase2) == 1;
      r2
    else r
  }

  /** `map_to_phases`. */
  function MapToPhases(s: StateAnalysis): (m: PhaseMapping)
    ensures m.current.Some? && m.current.value in PhaseOrder
    ensures |m.completed| <= PhaseIndex(m.current)
    ensures m.completed == PhaseOrder[..|m.completed|]
    ensures m.next.None? <==> m.current == Some(Phase4)
    ensures m.next.Some? ==> m.next.value == PhaseOrder[PhaseIndex(m.current) + 1]
    ensures m.recommendations == Recommendations(m.current, m.completed, s.completed)
  {
    var (current, completed) := Progress(s.stage, s.completed);
    PhaseMapping(Some(current), completed, NextPhase(Some(current)),
                 Recommendations(Some(current), completed, s.completed))
  }

  /** The phase a stage puts the project in. */
  function StagePhase(stage: Stage): string {
    match stage
    case FoundationBuilding => Phase1
    case FeatureDevelopment => Phase2
    case UiCoordination => Phase3
    case OptimizationPolish => Phase4
    case Transitional => Phase3
  }

  /** On a state the analysis produced, the fallbacks for an incomplete
      foundation under feature development and for a transitional project
      without interface or business logic are never taken: the stage alone
      fixes the current phase, and every phase before it counts as
      completed. */
  lemma MappingOfAnalysis(tasks: seq<Task>)
    ensures var m := MapToPhases(AnalyzeState(tasks));
            m.current == Some(StagePhase(AnalyzeState(tasks).stage))
            && m.completed == PhaseOrder[..PhaseIndex(m.current)]
  {
  }

  /** The foundation-only transitional branch leaves no phase completed
      although the current phase is the second. */
  lemma TransitionalFoundationOnly(c: CompletedWork)
    requires c.foundationComplete && !c.hasBusinessLogic
    ensures Progress(Transitional, c) == (Phase2, [])
  {
  }
}
