/**
 * The two-pass plan synthesizer: a first model pass turns the graph and its
 * solutions into a preliminary plan with information gaps, the knowledge base
 * is searched for each gap, and a second pass, which sees only the
 * preliminary plan and what was retrieved, writes the final plan whose steps
 * carry verification categories.
 *
 * Replies are decoded by a parameter; a decoded object is a record whose
 * fields are `None` when the key is missing.
 */
module PlanSynthesizer {
  import opened Wrappers
  import opened Collections
  import opened Text
  import opened Requirements
  import opened Solutions

  datatype VerificationCategory =
    | InformationComplete
    | RequiresExperiment
    | RequiresFieldTest
    | RequiresPrototype
    | RequiresSimulation
    | RequiresMeasurement
    | RequiresExpertReview

  /**
   * A decoded step object, with the keys of both passes. The verification
   * category is `None` when the key is missing, `Some(None)` when its value
   * is not a string, `Some(Some(s))` when it is the string `s`.
   */
  datatype StepData = StepData(
    stepNumber: Option<int>,
    name: Option<string>,
    description: Option<string>,
    whatWeHave: Option<string>,
    whatWeLack: Option<seq<string>>,
    preliminaryApproach: Option<string>,
    detailedApproach: Option<string>,
    expectedOutput: Option<string>,
    dependencies: Option<seq<int>>,
    verificationCategory: Option<Option<string>>,
    verificationDetails: Option<string>,
    estimatedEffort: Option<string>,
    knowledgeSources: Option<seq<string>>,
    confidence: Option<real>)

  datatype GapData = GapData(
    description: Option<string>,
    queryForKb: Option<string>,
    relatedStepIds: Option<seq<int>>)

  /** A decoded plan object, with the keys of both passes. */
  datatype PlanData = PlanData(
    problemSummary: Option<string>,
    availableKnowledgeSummary: Option<string>,
    steps: Option<seq<StepData>>,
    gaps: Option<seq<GapData>>,
    overallConfidence: Option<real>,
    problemStatement: Option<string>,
    hypothesisRefined: Option<string>,
    executiveSummary: Option<string>,
    totalSteps: Option<int>,
    stepsInformationComplete: Option<int>,
    stepsRequiringVerification: Option<int>,
    remainingGaps: Option<seq<string>>,
    overallFeasibility: Option<string>,
    keyRisks: Option<seq<string>>,
    recommendedNextActions: Option<seq<string>>)

  datatype PreliminaryPlanStep = PreliminaryPlanStep(
    stepNumber: int,
    name: string,
    description: string,
    whatWeHave: string,
    whatWeLack: seq<string>,
    preliminaryApproach: string,
    dependencies: seq<int>,
    confidence: real)

  datatype InformationGap = InformationGap(
    id: Id,
    description: string,
    queryForKb: string,
    relatedStepIds: seq<int>,
    filled: bool,
    filledContent: string,
    sources: seq<string>)

  datatype PreliminaryPlan = PreliminaryPlan(
    problemSummary: string,
    availableKnowledgeSummary: string,
    steps: seq<PreliminaryPlanStep>,
    gaps: seq<InformationGap>,
    overallConfidence: real)

  datatype FinalPlanStep = FinalPlanStep(
    stepNumber: int,
    name: string,
    description: string,
    detailedApproach: string,
    expectedOutput: string,
    dependencies: seq<int>,
    verificationCategory: VerificationCategory,
    verificationDetails: string,
    estimatedEffort: string,
    knowledgeSources: seq<string>,
    confidence: real)

  datatype FinalPlan = FinalPlan(
    problemStatement: string,
    hypothesisRefined: string,
    executiveSummary: string,
    steps: seq<FinalPlanStep>,
    totalSteps: int,
    stepsInformationComplete: int,
    stepsRequiringVerification: int,
    remainingGaps: seq<string>,
    overallFeasibility: string,
    keyRisks: seq<string>,
    recommendedNextActions: seq<string>)

  /** `PlanSynthesizerOutput` without the rendered markdown. */
  datatype Output = Output(preliminaryPlan: PreliminaryPlan, finalPlan: FinalPlan)

  /**
   * The agents the synthesizer calls: the first pass's reply for a hypothesis,
   * graph and solutions; the second pass's reply for a preliminary plan and the
   * retrieved gap contents; the retriever (query, top_k); the JSON decoder
   * (`None` for text that does not decode); and the ids new gaps receive, by
   * position.
   */
  datatype Agents = Agents(
    analyze: (string, GraphState, OrderedMap<Id, Solution>) -> string,
    refine: (PreliminaryPlan, OrderedMap<Id, string>) -> string,
    retrieve: (string, nat) -> Retrieval,
    decode: string -> Option<PlanData>,
    gapId: nat -> Id)

  const GapTopK: nat := 5
  const ParseFailure: string := "Failed to parse LLM response"

  // ---------------------------------------------------------------------
  // Parsing a reply
  // ---------------------------------------------------------------------

  /** The plan used when a reply does not decode: a problem summary and no steps or gaps. */
  const Fallback: PlanData := PlanData(
    Some(ParseFailure), None, Some([]), Some([]), None,
    None, None, None, None, None, None, None, None, None, None)

  /** `_parse_json_response`: the decoded fenced payload of the reply, or the fallback. */
  function ParseJsonResponse(reply: string, decode: string -> Option<PlanData>): (d: PlanData)
    ensures decode(FencedPayload(reply)).None? ==> d == Fallback
    ensures decode(FencedPayload(reply)).Some? ==> d == decode(FencedPayload(reply)).value
  {
    match decode(FencedPayload(reply))
    case Some(d) => d
    case None => Fallback
  }

  /** A JSON document written in a "```json" block on lines of its own parses as the document itself. */
  lemma {:induction false} ParseFencedDocument(json: string, decode: string -> Option<PlanData>)
    requires Strip(json) == json && !Contains(json, "```")
    ensures ParseJsonResponse("```json\n" + json + "\n```", decode) == decode(json).GetOr(Fallback)
  {
    FencedPayloadRoundTrip(json);
  }

  // ---------------------------------------------------------------------
  // Building the preliminary plan
  // ---------------------------------------------------------------------

  /** A preliminary step from its object at 1-based `position`, with the source's defaults. */
  function PreliminaryStepOf(d: StepData, position: int): (s: PreliminaryPlanStep)
    ensures d.stepNumber.None? ==> s.stepNumber == position
    ensures d.stepNumber.Some? ==> s.stepNumber == d.stepNumber.value
    ensures d.confidence.None? ==> s.confidence == 0.5
    ensures d.whatWeLack.None? ==> s.whatWeLack == []
  {
    PreliminaryPlanStep(
      d.stepNumber.GetOr(position),
      d.name.GetOr(""),
      d.description.GetOr(""),
      d.whatWeHave.GetOr(""),
      d.whatWeLack.GetOr([]),
      d.preliminaryApproach.GetOr(""),
      d.dependencies.GetOr([]),
      d.confidence.GetOr(0.5))
  }

  /** A gap from its object, with id `id`, not yet filled. */
  function GapOf(d: GapData, id: Id): (g: InformationGap)
    ensures g.id == id && !g.filled && g.filledContent == "" && g.sources == []
  {
    InformationGap(id, d.description.GetOr(""), d.queryForKb.GetOr(""), d.relatedStepIds.GetOr([]), false, "", [])
  }

  function PreliminarySteps(ds: seq<StepData>): (steps: seq<PreliminaryPlanStep>)
    ensures |steps| == |ds|
  {
    seq(|ds|, i requires 0 <= i < |ds| => PreliminaryStepOf(ds[i], i + 1))
  }

  function Gaps(ds: seq<GapData>, a: Agents): (gaps: seq<InformationGap>)
    ensures |gaps| == |ds|
  {
    seq(|ds|, i requires 0 <= i < |ds| => GapOf(ds[i], a.gapId(i)))
  }

  /** `_build_preliminary_plan` as a value. */
  function PreliminaryPlanOf(data: PlanData, a: Agents): (plan: PreliminaryPlan)
    ensures |plan.steps| == |data.steps.GetOr([])| && |plan.gaps| == |data.gaps.GetOr([])|
    ensures data.overallConfidence.None? ==> plan.overallConfidence == 0.5
  {
    PreliminaryPlan(
      data.problemSummary.GetOr(""),
      data.availableKnowledgeSummary.GetOr(""),
      PreliminarySteps(data.steps.GetOr([])),
      Gaps(data.gaps.GetOr([]), a),
      data.overallConfidence.GetOr(0.5))
  }

  /** Steps without their own numbers are numbered 1, 2, 3, … in order; no gap starts out filled. */
  lemma {:induction false} PreliminaryNumbering(data: PlanData, a: Agents)
    requires forall d :: d in data.steps.GetOr([]) ==> d.stepNumber.None?
    ensures var plan := PreliminaryPlanOf(data, a);
      && (forall i :: 0 <= i < |plan.steps| ==> plan.steps[i].stepNumber == i + 1)
      && (forall g :: g in plan.gaps ==> !g.filled)
  {
    var plan := PreliminaryPlanOf(data, a);
    var ds := data.steps.GetOr([]);
    forall i | 0 <= i < |plan.steps| ensures plan.steps[i].stepNumber == i + 1 {
      assert ds[i] in ds;
      assert plan.steps[i] == PreliminaryStepOf(ds[i], i + 1);
    }
    forall g | g in plan.gaps ensures !g.filled {
      var j :| 0 <= j < |plan.gaps| && plan.gaps[j] == g;
      assert g == GapOf(data.gaps.GetOr([])[j], a.gapId(j));
    }
  }

  /** A reply that does not decode gives a preliminary plan with the failure summary, no steps and no gaps. */
  lemma {:induction false} UndecodablePreliminary(reply: string, a: Agents)
    requires a.decode(FencedPayload(reply)).None?
    ensures var plan := PreliminaryPlanOf(ParseJsonResponse(reply, a.decode), a);
      plan.problemSummary == ParseFailure && plan.steps == [] && plan.gaps == [] && plan.overallConfidence == 0.5
  {
  }

  /** The loops of `_build_preliminary_plan`, appending a step or a gap at a time. */
  method BuildPreliminaryPlan(data: PlanData, a: Agents) returns (plan: PreliminaryPlan)
    ensures plan == PreliminaryPlanOf(data, a)
  {
    var stepData := data.steps.GetOr([]);
    var steps: seq<PreliminaryPlanStep> := [];
    for i := 0 to |stepData|
      invariant steps == PreliminarySteps(stepData[..i])
    {
      steps := steps + [PreliminaryStepOf(stepData[i], |steps| + 1)];
    }
    assert stepData[..|stepData|] == stepData;
    var gapData := data.gaps.GetOr([]);
    var gaps: seq<InformationGap> := [];
    for i := 0 to |gapData|
      invariant gaps == Gaps(gapData[..i], a)
    {
      gaps := gaps + [GapOf(gapData[i], a.gapId(i))];
    }
    assert gapData[..|gapData|] == gapData;
    plan := PreliminaryPlan(
      data.problemSummary.GetOr(""),
      data.availableKnowledgeSummary.GetOr(""),
      steps,
      gaps,
      data.overallConfidence.GetOr(0.5));
  }

  // ---------------------------------------------------------------------
  // Filling the gaps
  // ---------------------------------------------------------------------

  /** A gap after its search: filled with the retrieved text and sources when something was found, else untouched. */
  function FilledGap(g: InformationGap, r: Retrieval): (h: InformationGap)
    ensures Found(r) ==> h.filled && h.filledContent == r.chunks && h.sources == r.sources
    ensures !Found(r) ==> h == g
    ensures h.id == g.id && h.queryForKb == g.queryForKb && h.description == g.description
  {
    if Found(r) then g.(filled := true, filledContent := r.chunks, sources := r.sources) else g
  }

  /** What the knowledge base returns for a gap. */
  function GapSearch(g: InformationGap, a: Agents): Retrieval {
    a.retrieve(g.queryForKb, GapTopK)
  }

  /** The retrieved text by gap id, for the gaps whose search found something, in order (a later gap with the same id wins). */
  function FilledContents(gaps: seq<InformationGap>, a: Agents): (m: OrderedMap<Id, string>)
    ensures m.Valid()
  {
    if gaps == [] then EmptyMap()
    else
      var g := gaps[|gaps| - 1];
      var r := GapSearch(g, a);
      var m := FilledContents(gaps[..|gaps| - 1], a);
      if Found(r) then m.Put(g.id, r.chunks) else m
  }

  /** Gap `g` has id `k` and its search found something. */
  predicate FoundFor(g: InformationGap, a: Agents, k: Id) {
    g.id == k && Found(GapSearch(g, a))
  }

  /** The returned map's keys are exactly the ids of the gaps whose search found something. */
  lemma {:induction false} FilledContentsKeys(gaps: seq<InformationGap>, a: Agents, k: Id)
    ensures k in FilledContents(gaps, a).items <==> exists i :: 0 <= i < |gaps| && FoundFor(gaps[i], a, k)
  {
    if gaps != [] {
      FilledContentsKeys(gaps[..|gaps| - 1], a, k);
      ExistsSnoc(gaps, gaps[..|gaps| - 1], g => FoundFor(g, a, k));
    }
  }

  /** Each value of the map is the text found for a gap with that id. */
  lemma {:induction false} FilledContentsValues(gaps: seq<InformationGap>, a: Agents, k: Id)
    requires k in FilledContents(gaps, a).items
    ensures exists i :: (0 <= i < |gaps| && FoundFor(gaps[i], a, k)
      && FilledContents(gaps, a).items[k] == GapSearch(gaps[i], a).chunks)
  {
    var init := gaps[..|gaps| - 1];
    var g := gaps[|gaps| - 1];
    if FoundFor(g, a, k) {
      assert gaps[|gaps| - 1] == g;
    } else {
      FilledContentsValues(init, a, k);
      var i :| 0 <= i < |init| && FoundFor(init[i], a, k)
        && FilledContents(init, a).items[k] == GapSearch(init[i], a).chunks;
      assert gaps[i] == init[i];
    }
  }

  /**
   * `_fill_gaps`: search the knowledge base for each gap in order; a gap whose
   * search found something is marked filled with the text and its sources and
   * recorded in the returned map, the others are left as they were.
   */
  method FillGaps(gaps: array<InformationGap>, a: Agents) returns (filled: OrderedMap<Id, string>)
    modifies gaps
    ensures filled == FilledContents(old(gaps[..]), a)
    ensures forall i :: 0 <= i < gaps.Length ==> gaps[i] == FilledGap(old(gaps[i]), GapSearch(old(gaps[i]), a))
  {
    filled := EmptyMap();
    ghost var before := gaps[..];
    for i := 0 to gaps.Length
      invariant filled == FilledContents(before[..i], a)
      invariant forall j :: 0 <= j < i ==> gaps[j] == FilledGap(before[j], GapSearch(before[j], a))
      invariant forall j :: i <= j < gaps.Length ==> gaps[j] == before[j]
    {
      FilledContentsSnoc(before, i, a);
      filled := FillGap(gaps, i, filled, a);
    }
    assert before[..gaps.Length] == before;
  }

  /** One pass of the loop of `_fill_gaps`: search for gap `i`; when something is found, fill the gap and record the text under its id. */
  method FillGap(gaps: array<InformationGap>, i: nat, filled: OrderedMap<Id, string>, a: Agents) returns (filled': OrderedMap<Id, string>)
    requires i < gaps.Length
    modifies gaps
    ensures gaps[i] == FilledGap(old(gaps[i]), GapSearch(old(gaps[i]), a))
    ensures forall j :: 0 <= j < gaps.Length && j != i ==> gaps[j] == old(gaps[j])
    ensures filled' == if Found(GapSearch(old(gaps[i]), a)) then filled.Put(old(gaps[i]).id, GapSearch(old(gaps[i]), a).chunks) else filled
  {
    filled' := filled;
    var gap := gaps[i];
    var result := a.retrieve(gap.queryForKb, GapTopK);
    if result.success && result.chunks != [] {
      filled' := filled.Put(gap.id, result.chunks);
      gaps[i] := gap.(filled := true, filledContent := result.chunks, sources := result.sources);
    }
  }

  /** Searching one more gap adds its text under its id when something was found. */
  lemma FilledContentsSnoc(gaps: seq<InformationGap>, i: nat, a: Agents)
    requires i < |gaps|
    ensures FilledContents(gaps[..i + 1], a) ==
      if Found(GapSearch(gaps[i], a)) then FilledContents(gaps[..i], a).Put(gaps[i].id, GapSearch(gaps[i], a).chunks)
      else FilledContents(gaps[..i], a)
  {
    assert gaps[..i + 1][..i] == gaps[..i];
  }

  /** The gaps of a preliminary plan after the search, as a value. */
  function FilledGaps(gaps: seq<InformationGap>, a: Agents): (r: seq<InformationGap>)
    ensures |r| == |gaps|
  {
    seq(|gaps|, i requires 0 <= i < |gaps| => FilledGap(gaps[i], GapSearch(gaps[i], a)))
  }

  /** A gap is marked filled afterwards exactly when it was already, or its search found something; the map then holds its id. */
  lemma {:induction false} FilledGapsAgree(gaps: seq<InformationGap>, a: Agents, i: nat)
    requires i < |gaps|
    ensures FilledGaps(gaps, a)[i].filled <==> gaps[i].filled || Found(GapSearch(gaps[i], a))
    ensures Found(GapSearch(gaps[i], a)) ==> gaps[i].id in FilledContents(gaps, a).items
  {
    if Found(GapSearch(gaps[i], a)) {
      FilledContentsKeys(gaps, a, gaps[i].id);
      assert FoundFor(gaps[i], a, gaps[i].id);
    }
  }

  // ---------------------------------------------------------------------
  // Building the final plan
  // ---------------------------------------------------------------------

  function CategoryName(c: VerificationCategory): string {
    match c
    case InformationComplete => "information_complete"
    case RequiresExperiment => "requires_experiment"
    case RequiresFieldTest => "requires_field_test"
    case RequiresPrototype => "requires_prototype"
    case RequiresSimulation => "requires_simulation"
    case RequiresMeasurement => "requires_measurement"
    case RequiresExpertReview => "requires_expert_review"
  }

  /** `VerificationCategory(step_data.get("verification_category", "information_complete"))`, REQUIRES_EXPERT_REVIEW when that raises. */
  function ParseCategory(value: Option<Option<string>>): (c: VerificationCategory)
    ensures value.None? ==> c == InformationComplete
    ensures value == Some(None) ==> c == RequiresExpertReview
  {
    match value
    case None => InformationComplete
    case Some(None) => RequiresExpertReview
    case Some(Some(s)) =>
      if s == "information_complete" then InformationComplete
      else if s == "requires_experiment" then RequiresExperiment
      else if s == "requires_field_test" then RequiresFieldTest
      else if s == "requires_prototype" then RequiresPrototype
      else if s == "requires_simulation" then RequiresSimulation
      else if s == "requires_measurement" then RequiresMeasurement
      else RequiresExpertReview
  }

  /** Every category reads back from its name; any other string reads as REQUIRES_EXPERT_REVIEW. */
  lemma {:induction false} ParseCategoryName(c: VerificationCategory, s: string)
    ensures ParseCategory(Some(Some(CategoryName(c)))) == c
    ensures (forall d: VerificationCategory :: s != CategoryName(d)) ==> ParseCategory(Some(Some(s))) == RequiresExpertReview
  {
    if s == "information_complete" {
      assert s == CategoryName(InformationComplete);
    } else if s == "requires_experiment" {
      assert s == CategoryName(RequiresExperiment);
    } else if s == "requires_field_test" {
      assert s == CategoryName(RequiresFieldTest);
    } else if s == "requires_prototype" {
      assert s == CategoryName(RequiresPrototype);
    } else if s == "requires_simulation" {
      assert s == CategoryName(RequiresSimulation);
    } else if s == "requires_measurement" {
      assert s == CategoryName(RequiresMeasurement);
    }
  }

  /** A final step from its object at 1-based `position`, with the source's defaults. */
  function FinalStepOf(d: StepData, position: int): (s: FinalPlanStep)
    ensures d.stepNumber.None? ==> s.stepNumber == position
    ensures d.stepNumber.Some? ==> s.stepNumber == d.stepNumber.value
    ensures d.verificationCategory.None? ==> s.verificationCategory == InformationComplete
    ensures d.confidence.None? ==> s.confidence == 0.7
  {
    FinalPlanStep(
      d.stepNumber.GetOr(position),
      d.name.GetOr(""),
      d.description.GetOr(""),
      d.detailedApproach.GetOr(""),
      d.expectedOutput.GetOr(""),
      d.dependencies.GetOr([]),
      ParseCategory(d.verificationCategory),
      d.verificationDetails.GetOr(""),
      d.estimatedEffort.GetOr(""),
      d.knowledgeSources.GetOr([]),
      d.confidence.GetOr(0.7))
  }

  function FinalSteps(ds: seq<StepData>): (steps: seq<FinalPlanStep>)
    ensures |steps| == |ds|
  {
    seq(|ds|, i requires 0 <= i < |ds| => FinalStepOf(ds[i], i + 1))
  }

  /** `_build_final_plan` as a value. */
  function FinalPlanOf(data: PlanData): (plan: FinalPlan)
    ensures |plan.steps| == |data.steps.GetOr([])|
    ensures data.totalSteps.None? ==> plan.totalSteps == |plan.steps|
    ensures data.stepsInformationComplete.None? ==> plan.stepsInformationComplete == 0
    ensures data.stepsRequiringVerification.None? ==> plan.stepsRequiringVerification == 0
  {
    var steps := FinalSteps(data.steps.GetOr([]));
    FinalPlan(
      data.problemStatement.GetOr(""),
      data.hypothesisRefined.GetOr(""),
      data.executiveSummary.GetOr(""),
      steps,
      data.totalSteps.GetOr(|steps|),
      data.stepsInformationComplete.GetOr(0),
      data.stepsRequiringVerification.GetOr(0),
      data.remainingGaps.GetOr([]),
      data.overallFeasibility.GetOr(""),
      data.keyRisks.GetOr([]),
      data.recommendedNextActions.GetOr([]))
  }

  /** Steps without numbers or categories are numbered 1, 2, 3, … and are all information-complete. */
  lemma {:induction false} FinalDefaults(data: PlanData)
    requires forall d :: d in data.steps.GetOr([]) ==> d.stepNumber.None? && d.verificationCategory.None?
    ensures var plan := FinalPlanOf(data);
      forall i :: 0 <= i < |plan.steps| ==> plan.steps[i].stepNumber == i + 1 && plan.steps[i].verificationCategory == InformationComplete
  {
    var plan := FinalPlanOf(data);
    var ds := data.steps.GetOr([]);
    forall i | 0 <= i < |plan.steps|
      ensures plan.steps[i].stepNumber == i + 1 && plan.steps[i].verificationCategory == InformationComplete
    {
      assert ds[i] in ds;
      assert plan.steps[i] == FinalStepOf(ds[i], i + 1);
    }
  }

  /**
   * A second reply that does not decode gives an empty final plan: the
   * fallback names a problem summary, which the final plan does not read, so
   * even its problem statement is empty.
   */
  lemma {:induction false} UndecodableFinal(reply: string, decode: string -> Option<PlanData>)
    requires decode(FencedPayload(reply)).None?
    ensures var plan := FinalPlanOf(ParseJsonResponse(reply, decode));
      plan.steps == [] && plan.totalSteps == 0 && plan.problemStatement == "" && plan.remainingGaps == []
  {
  }

  /** The loop of `_build_final_plan`, appending a step at a time. */
  method BuildFinalPlan(data: PlanData) returns (plan: FinalPlan)
    ensures plan == FinalPlanOf(data)
  {
    var stepData := data.steps.GetOr([]);
    var steps: seq<FinalPlanStep> := [];
    for i := 0 to |stepData|
      invariant steps == FinalSteps(stepData[..i])
    {
      steps := steps + [FinalStepOf(stepData[i], |steps| + 1)];
    }
    assert stepData[..|stepData|] == stepData;
    plan := FinalPlan(
      data.problemStatement.GetOr(""),
      data.hypothesisRefined.GetOr(""),
      data.executiveSummary.GetOr(""),
      steps,
      data.totalSteps.GetOr(|steps|),
      data.stepsInformationComplete.GetOr(0),
      data.stepsRequiringVerification.GetOr(0),
      data.remainingGaps.GetOr([]),
      data.overallFeasibility.GetOr(""),
      data.keyRisks.GetOr([]),
      data.recommendedNextActions.GetOr([]));
  }

  // ---------------------------------------------------------------------
  // The step partition of the rendered plan
  // ---------------------------------------------------------------------

  predicate IsComplete(s: FinalPlanStep) { s.verificationCategory == InformationComplete }
  predicate NeedsVerification(s: FinalPlanStep) { s.verificationCategory != InformationComplete }

  /** The steps ready for implementation, in plan order. */
  function CompleteSteps(plan: FinalPlan): seq<FinalPlanStep> {
    Filter(plan.steps, IsComplete)
  }

  /** The steps requiring empirical verification, in plan order. */
  function VerificationSteps(plan: FinalPlan): seq<FinalPlanStep> {
    Filter(plan.steps, NeedsVerification)
  }

  /** The two groups split the plan's steps: each step is in exactly one, and together they are a permutation of the steps. */
  lemma {:induction false} StepPartition(plan: FinalPlan, s: FinalPlanStep)
    ensures multiset(CompleteSteps(plan)) + multiset(VerificationSteps(plan)) == multiset(plan.steps)
    ensures |CompleteSteps(plan)| + |VerificationSteps(plan)| == |plan.steps|
    ensures s in CompleteSteps(plan) <==> s in plan.steps && s.verificationCategory == InformationComplete
    ensures s in VerificationSteps(plan) <==> s in plan.steps && s.verificationCategory != InformationComplete
  {
    FilterPartition(plan.steps, IsComplete, NeedsVerification);
    FilterMembership(plan.steps, IsComplete, s);
    FilterMembership(plan.steps, NeedsVerification, s);
  }

  // ---------------------------------------------------------------------
  // The two passes
  // ---------------------------------------------------------------------

  /**
   * `execute` without the rendering: the preliminary plan with its gaps
   * filled, and the final plan, which is built from the filled preliminary
   * plan and the retrieved texts alone.
   */
  function Synthesized(hypothesis: string, g: GraphState, solutions: OrderedMap<Id, Solution>, a: Agents): (out: Output)
    ensures |out.preliminaryPlan.gaps| == |PreliminaryPlanOf(ParseJsonResponse(a.analyze(hypothesis, g, solutions), a.decode), a).gaps|
  {
    var first := PreliminaryPlanOf(ParseJsonResponse(a.analyze(hypothesis, g, solutions), a.decode), a);
    var preliminary := first.(gaps := FilledGaps(first.gaps, a));
    var filled := FilledContents(first.gaps, a);
    Output(preliminary, FinalPlanOf(ParseJsonResponse(a.refine(preliminary, filled), a.decode)))
  }

  /** `PlanSynthesizerAgent.execute` without the markdown. */
  method Execute(hypothesis: string, graph: RequirementGraph, solutions: OrderedMap<Id, Solution>, a: Agents)
    returns (out: Output)
    ensures out == Synthesized(hypothesis, graph.State(), solutions, a)
  {
    var preliminary := BuildPreliminaryPlan(ParseJsonResponse(a.analyze(hypothesis, graph.State(), solutions), a.decode), a);
    var searched, filled := FillPlanGaps(preliminary.gaps, a);
    preliminary := preliminary.(gaps := searched);
    var finalPlan := BuildFinalPlan(ParseJsonResponse(a.refine(preliminary, filled), a.decode));
    out := Output(preliminary, finalPlan);
  }

  /** The gap filling of `execute`: the preliminary plan's gaps after their searches, and the texts retrieved by gap id. */
  method FillPlanGaps(gaps: seq<InformationGap>, a: Agents) returns (searched: seq<InformationGap>, filled: OrderedMap<Id, string>)
    ensures searched == FilledGaps(gaps, a)
    ensures filled == FilledContents(gaps, a)
  {
    var buffer := new InformationGap[|gaps|](i requires 0 <= i < |gaps| => gaps[i]);
    assert buffer[..] == gaps;
    filled := FillGaps(buffer, a);
    assert buffer[..] == FilledGaps(gaps, a);
    searched := buffer[..];
  }
}
