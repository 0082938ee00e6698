/**
 * The plan-forming agent: each (requirement, solution) pair of the graph is
 * categorised by the model as implemented, needing verification or needing
 * research, and lands in that bucket as a plan item; the first research
 * questions of the research items are the plan's overall gaps.
 *
 * The model's reply and its JSON decoding are parameters; a decoded object
 * is a record whose fields are `None` when the key is missing.
 */
module PlanForming {
  import opened Wrappers
  import opened Collections
  import opened Text
  import opened Requirements
  import opened Solutions

  datatype Category = Implemented | NeedsVerification | NeedsResearch

  datatype VerificationType = Experiment | LabWork | FieldTest | HumanReview | Prototype | Simulation

  /** A decoded categorisation object; `None` stands for a missing key (or a null value). */
  datatype Categorization = Categorization(
    category: Option<string>,
    reasoning: Option<string>,
    verificationType: Option<string>,
    verificationDetails: Option<string>,
    researchQuestions: Option<seq<string>>)

  /** `PlanItem` */
  datatype PlanItem = PlanItem(
    requirementId: Id,
    requirementContent: string,
    solutionSummary: string,
    category: Category,
    confidence: real,
    source: Source,
    reasoning: string,
    verificationType: Option<VerificationType>,
    verificationDetails: Option<string>,
    researchQuestions: seq<string>)

  /** `PlanFormingOutput` without the rendered markdown. */
  datatype Output = Output(
    implemented: seq<PlanItem>,
    needsVerification: seq<PlanItem>,
    needsResearch: seq<PlanItem>,
    overallGaps: seq<string>)

  /**
   * The agents the plan former calls: the retriever (query, top_k), the
   * model's reply to a categorisation prompt for (requirement, solution,
   * context), and the JSON decoder (`None` for text that does not decode).
   */
  datatype Agents = Agents(
    retrieve: (string, nat) -> Retrieval,
    categorize: (Requirement, Solution, string) -> string,
    decode: string -> Option<Categorization>)

  const RetrievalTopK: nat := 3
  const SummaryLength: nat := 500
  const QueryExcerptLength: nat := 300
  const NoContext: string := "None available"

  /** The categorisation used when the reply does not decode. */
  const Fallback: Categorization := Categorization(
    Some("needs_research"),
    Some("Could not parse LLM response, defaulting to needs_research"),
    None,
    None,
    Some(["Further investigation required"]))

  // ---------------------------------------------------------------------
  // Extracting the (requirement, solution) pairs
  // ---------------------------------------------------------------------

  /** The pairs for `keys`, in order, skipping ids the graph does not know. */
  function PairsOf(nodes: map<Id, Requirement>, solutions: map<Id, Solution>, keys: seq<Id>): (r: seq<(Requirement, Solution)>)
    requires forall k :: k in keys ==> k in solutions
    ensures |r| <= |keys|
  {
    if keys == [] then []
    else
      var k := keys[|keys| - 1];
      PairsOf(nodes, solutions, keys[..|keys| - 1]) + (if k in nodes then [(nodes[k], solutions[k])] else [])
  }

  /** The pairs `_extract_pairs` returns for a graph state and a solutions dictionary. */
  function ExtractedPairs(g: GraphState, solutions: OrderedMap<Id, Solution>): (r: seq<(Requirement, Solution)>)
    requires solutions.Valid()
    ensures |r| <= |solutions.keys|
    ensures forall p :: p in r ==> p.0 in g.nodes.items.Values && p.1 in solutions.items.Values
  {
    PairsOfStored(g.nodes.items, solutions.items, solutions.keys);
    PairsOf(g.nodes.items, solutions.items, solutions.keys)
  }

  /** Every pair is a stored requirement with a stored solution. */
  lemma {:induction false} PairsOfStored(nodes: map<Id, Requirement>, solutions: map<Id, Solution>, keys: seq<Id>)
    requires forall k :: k in keys ==> k in solutions
    ensures forall p :: p in PairsOf(nodes, solutions, keys) ==> p.0 in nodes.Values && p.1 in solutions.Values
  {
    if keys != [] {
      PairsOfStored(nodes, solutions, keys[..|keys| - 1]);
    }
  }

  function PairIds(pairs: seq<(Requirement, Solution)>): (ids: seq<Id>)
    ensures |ids| == |pairs|
  {
    seq(|pairs|, i requires 0 <= i < |pairs| => pairs[i].0.id)
  }

  /**
   * `_extract_pairs` yields the graph's requirements among the dictionary's
   * keys, in the dictionary's order, each once, each with its solution.
   */
  lemma {:induction false} PairsOfSpec(nodes: map<Id, Requirement>, solutions: map<Id, Solution>, keys: seq<Id>)
    requires forall k :: k in keys ==> k in solutions
    requires forall k :: k in nodes ==> nodes[k].id == k
    ensures PairIds(PairsOf(nodes, solutions, keys)) == Known(nodes, keys)
    ensures forall p :: p in PairsOf(nodes, solutions, keys) ==>
      p.0.id in nodes && p.0 == nodes[p.0.id] && p.0.id in solutions && p.1 == solutions[p.0.id]
  {
    if keys != [] {
      var init := keys[..|keys| - 1];
      PairsOfSpec(nodes, solutions, init);
      var p := PairsOf(nodes, solutions, init);
      assert PairIds(PairsOf(nodes, solutions, keys))[..|p|] == PairIds(p);
    }
  }

  /** The ids of the extracted pairs are distinct, since the dictionary's keys are. */
  lemma {:induction false} ExtractedPairsDistinct(g: GraphState, solutions: OrderedMap<Id, Solution>)
    requires solutions.Valid() && Registered(g)
    ensures Distinct(PairIds(ExtractedPairs(g, solutions)))
    ensures PairIds(ExtractedPairs(g, solutions)) == Known(g.nodes.items, solutions.keys)
  {
    PairsOfSpec(g.nodes.items, solutions.items, solutions.keys);
    FilterDistinct(solutions.keys, k => k in g.nodes.items);
  }

  /**
   * `_extract_pairs`: walk the dictionary, skipping ids already seen and ids
   * the graph does not know. The seen-set never skips anything, since a
   * dictionary's keys are distinct.
   */
  method ExtractPairs(graph: RequirementGraph, solutions: OrderedMap<Id, Solution>) returns (pairs: seq<(Requirement, Solution)>)
    requires solutions.Valid()
    ensures pairs == ExtractedPairs(graph.State(), solutions)
  {
    pairs := [];
    var seen: set<Id> := {};
    DistinctPairwise(solutions.keys);
    for i := 0 to |solutions.keys|
      invariant pairs == PairsOf(graph.nodes.items, solutions.items, solutions.keys[..i])
      invariant seen == set k | k in solutions.keys[..i]
    {
      PrefixSnoc(solutions.keys, i);
      var nodeId := solutions.keys[i];
      assert nodeId !in seen by {
        forall j | 0 <= j < i ensures solutions.keys[..i][j] != nodeId {
          assert solutions.keys[..i][j] == solutions.keys[j];
        }
      }
      seen := seen + {nodeId};
      var node := graph.GetNode(nodeId);
      if node.Some? {
        pairs := pairs + [(node.value, solutions.items[nodeId])];
      }
    }
    assert solutions.keys[..|solutions.keys|] == solutions.keys;
  }

  // ---------------------------------------------------------------------
  // Categorising one pair
  // ---------------------------------------------------------------------

  /** `_is_unclear`: a middling confidence, or a novel solution below 0.8. */
  predicate IsUnclear(s: Solution) {
    (0.4 <= s.confidence <= 0.7) || (s.source == Novel && s.confidence < 0.8)
  }

  /** The knowledge-base query for an unclear item. */
  function KbQuery(hypothesis: string, req: Requirement, s: Solution): string {
    hypothesis + " - " + req.content + ": " + Prefix(s.content, QueryExcerptLength)
  }

  /** The context a pair is categorised with: retrieved for an unclear item (empty when the search failed), else none. */
  function AdditionalContext(hypothesis: string, req: Requirement, s: Solution, a: Agents): (c: string)
    ensures !IsUnclear(s) ==> c == ""
  {
    if IsUnclear(s) then ChunksOrEmpty(a.retrieve(KbQuery(hypothesis, req, s), RetrievalTopK)) else ""
  }

  /** `_categorize_item`: the decoded fenced payload of the reply, or the fallback when it does not decode. */
  function Categorize(req: Requirement, s: Solution, context: string, a: Agents): (c: Categorization)
    ensures a.decode(FencedPayload(a.categorize(req, s, if context == [] then NoContext else context))).None? ==> c == Fallback
  {
    var reply := a.categorize(req, s, if context == [] then NoContext else context);
    match a.decode(FencedPayload(reply))
    case Some(c) => c
    case None => Fallback
  }

  function CategoryName(c: Category): string {
    match c
    case Implemented => "implemented"
    case NeedsVerification => "needs_verification"
    case NeedsResearch => "needs_research"
  }

  /** `PlanCategory(categorization.get("category", "needs_research"))`, NEEDS_RESEARCH when that raises. */
  function ParseCategory(name: Option<string>): (c: Category)
    ensures name.None? ==> c == NeedsResearch
  {
    match name
    case None => NeedsResearch
    case Some(s) =>
      if s == "implemented" then Implemented
      else if s == "needs_verification" then NeedsVerification
      else NeedsResearch
  }

  /** Every category reads back from its name, and any other text reads as NEEDS_RESEARCH. */
  lemma {:induction false} ParseCategoryName(c: Category, s: string)
    ensures ParseCategory(Some(CategoryName(c))) == c
    ensures (forall d: Category :: s != CategoryName(d)) ==> ParseCategory(Some(s)) == NeedsResearch
  {
    if s == "implemented" {
      assert s == CategoryName(Implemented);
    } else if s == "needs_verification" {
      assert s == CategoryName(NeedsVerification);
    }
  }

  function VerificationTypeName(v: VerificationType): string {
    match v
    case Experiment => "experiment"
    case LabWork => "lab_work"
    case FieldTest => "field_test"
    case HumanReview => "human_review"
    case Prototype => "prototype"
    case Simulation => "simulation"
  }

  /** `VerificationType(value)` when the value is present and non-empty, `None` when absent, empty or unknown. */
  function ParseVerificationType(name: Option<string>): (v: Option<VerificationType>)
    ensures name.None? || name == Some("") ==> v.None?
  {
    match name
    case None => None
    case Some(s) =>
      if s == "experiment" then Some(Experiment)
      else if s == "lab_work" then Some(LabWork)
      else if s == "field_test" then Some(FieldTest)
      else if s == "human_review" then Some(HumanReview)
      else if s == "prototype" then Some(Prototype)
      else if s == "simulation" then Some(Simulation)
      else None
  }

  /** Every verification type reads back from its name, and any other text reads as none. */
  lemma {:induction false} ParseVerificationTypeName(v: VerificationType, s: string)
    ensures ParseVerificationType(Some(VerificationTypeName(v))) == Some(v)
    ensures (forall w: VerificationType :: s != VerificationTypeName(w)) ==> ParseVerificationType(Some(s)).None?
  {
    if s == "experiment" {
      assert s == VerificationTypeName(Experiment);
    } else if s == "lab_work" {
      assert s == VerificationTypeName(LabWork);
    } else if s == "field_test" {
      assert s == VerificationTypeName(FieldTest);
    } else if s == "human_review" {
      assert s == VerificationTypeName(HumanReview);
    } else if s == "prototype" {
      assert s == VerificationTypeName(Prototype);
    } else if s == "simulation" {
      assert s == VerificationTypeName(Simulation);
    }
  }

  /** `solution.content[:500] + ("..." if len(solution.content) > 500 else "")` */
  function Summary(content: string): (r: string)
    ensures |content| <= SummaryLength ==> r == content
    ensures |content| > SummaryLength ==> |r| == SummaryLength + 3 && r[..SummaryLength] == content[..SummaryLength] && r[SummaryLength..] == "..."
  {
    Prefix(content, SummaryLength) + (if |content| > SummaryLength then "..." else "")
  }

  /** The plan item a pair becomes under a categorisation; missing fields take the source's defaults. */
  function BuildItem(req: Requirement, s: Solution, c: Categorization): (item: PlanItem)
    ensures item.requirementId == req.id && item.confidence == s.confidence && item.source == s.source
    ensures c.category.None? ==> item.category == NeedsResearch
    ensures c.reasoning.None? ==> item.reasoning == ""
    ensures c.researchQuestions.None? ==> item.researchQuestions == []
  {
    PlanItem(
      req.id,
      req.content,
      Summary(s.content),
      ParseCategory(c.category),
      s.confidence,
      s.source,
      c.reasoning.GetOr(""),
      ParseVerificationType(c.verificationType),
      c.verificationDetails,
      c.researchQuestions.GetOr([]))
  }

  /** A reply that does not decode makes a NEEDS_RESEARCH item with exactly one research question. */
  lemma {:induction false} UndecodableIsResearch(req: Requirement, s: Solution, context: string, a: Agents)
    requires a.decode(FencedPayload(a.categorize(req, s, if context == [] then NoContext else context))).None?
    ensures var item := BuildItem(req, s, Categorize(req, s, context, a));
      item.category == NeedsResearch && item.researchQuestions == ["Further investigation required"]
      && item.verificationType.None?
  {
  }

  /** The plan item of one pair: context for unclear items, categorisation, then the item. */
  function ItemOf(hypothesis: string, p: (Requirement, Solution), a: Agents): (item: PlanItem)
    ensures item.requirementId == p.0.id && item.confidence == p.1.confidence && item.source == p.1.source
  {
    BuildItem(p.0, p.1, Categorize(p.0, p.1, AdditionalContext(hypothesis, p.0, p.1, a), a))
  }

  /** The items of the pairs, in order. */
  function Items(hypothesis: string, pairs: seq<(Requirement, Solution)>, a: Agents): (items: seq<PlanItem>)
    ensures |items| == |pairs|
  {
    if pairs == [] then [] else Items(hypothesis, pairs[..|pairs| - 1], a) + [ItemOf(hypothesis, pairs[|pairs| - 1], a)]
  }

  // ---------------------------------------------------------------------
  // Bucketing and the overall gaps
  // ---------------------------------------------------------------------

  predicate IsImplemented(item: PlanItem) { item.category == Implemented }
  predicate IsVerification(item: PlanItem) { item.category == NeedsVerification }
  predicate IsResearch(item: PlanItem) { item.category == NeedsResearch }
  predicate NotImplemented(item: PlanItem) { item.category != Implemented }

  /** `questions[:2]` */
  function FirstTwo(questions: seq<string>): (r: seq<string>)
    ensures r <= questions && |r| == Min(2, |questions|)
  {
    if |questions| <= 2 then questions else questions[..2]
  }

  /** `overall_gaps`: the first two research questions of each item (fewer when it has fewer), in order. */
  function OverallGaps(items: seq<PlanItem>): (gaps: seq<string>)
    ensures |gaps| <= 2 * |items|
  {
    if items == [] then []
    else
      OverallGaps(items[..|items| - 1]) + FirstTwo(items[|items| - 1].researchQuestions)
  }

  /** Each overall gap is one of the first two research questions of some item. */
  lemma {:induction false} OverallGapsFrom(items: seq<PlanItem>, q: string)
    requires q in OverallGaps(items)
    ensures exists i, j :: 0 <= i < |items| && 0 <= j < 2 && j < |items[i].researchQuestions| && items[i].researchQuestions[j] == q
  {
    var init := items[..|items| - 1];
    var qs := items[|items| - 1].researchQuestions;
    if q in OverallGaps(init) {
      OverallGapsFrom(init, q);
      var i, j :| 0 <= i < |init| && 0 <= j < 2 && j < |init[i].researchQuestions| && init[i].researchQuestions[j] == q;
      assert items[i] == init[i];
    } else {
      var j :| 0 <= j < |FirstTwo(qs)| && FirstTwo(qs)[j] == q;
      assert qs[j] == q;
      assert items[|items| - 1].researchQuestions[j] == q;
    }
  }

  /** Gaps are collected item by item, in order: one more item appends its first two questions after the gaps so far. */
  lemma {:induction false} OverallGapsSnoc(items: seq<PlanItem>, it: PlanItem)
    ensures OverallGaps(items + [it]) == OverallGaps(items) + FirstTwo(it.researchQuestions)
  {
    assert (items + [it])[..|items|] == items;
  }

  /** Conversely, each of the first two research questions of every item is an overall gap. */
  lemma {:induction false} OverallGapsCovers(items: seq<PlanItem>, i: int, j: int)
    requires 0 <= i < |items| && 0 <= j < 2 && j < |items[i].researchQuestions|
    ensures items[i].researchQuestions[j] in OverallGaps(items)
  {
    var init := items[..|items| - 1];
    if i < |items| - 1 {
      assert items[i] == init[i];
      OverallGapsCovers(init, i, j);
    } else {
      var qs := items[i].researchQuestions;
      assert FirstTwo(qs)[j] == qs[j];
    }
  }

  /** `execute` without the rendering: the items bucketed by category in processing order, and the gaps of the research items. */
  function Formed(hypothesis: string, pairs: seq<(Requirement, Solution)>, a: Agents): (out: Output)
    ensures |out.implemented| + |out.needsVerification| + |out.needsResearch| == |pairs|
    ensures |out.overallGaps| <= 2 * |out.needsResearch|
  {
    var items := Items(hypothesis, pairs, a);
    BucketsPartition(items);
    var research := Filter(items, IsResearch);
    Output(Filter(items, IsImplemented), Filter(items, IsVerification), research, OverallGaps(research))
  }

  predicate NotVerification(item: PlanItem) { item.category != NeedsVerification }

  /** Every item lands in exactly one bucket: the three buckets together are a permutation of the items. */
  lemma {:induction false} BucketsPartition(items: seq<PlanItem>)
    ensures multiset(Filter(items, IsImplemented)) + multiset(Filter(items, IsVerification)) + multiset(Filter(items, IsResearch)) == multiset(items)
    ensures |Filter(items, IsImplemented)| + |Filter(items, IsVerification)| + |Filter(items, IsResearch)| == |items|
  {
    FilterPartition(items, IsImplemented, NotImplemented);
    var rest := Filter(items, NotImplemented);
    FilterPartition(rest, IsVerification, NotVerification);
    FilterNested(items, NotImplemented, IsVerification, IsVerification);
    FilterNested(items, NotImplemented, NotVerification, IsResearch);
  }

  /** The plan's items in processing order, with their buckets; nothing is lost or duplicated. */
  lemma {:induction false} FormedPartitions(hypothesis: string, pairs: seq<(Requirement, Solution)>, a: Agents)
    ensures var out := Formed(hypothesis, pairs, a);
      && multiset(out.implemented) + multiset(out.needsVerification) + multiset(out.needsResearch) == multiset(Items(hypothesis, pairs, a))
      && |out.implemented| + |out.needsVerification| + |out.needsResearch| == |pairs|
      && |out.overallGaps| <= 2 * |out.needsResearch|
  {
    BucketsPartition(Items(hypothesis, pairs, a));
  }

  /** `PlanFormingAgent.execute` without the markdown: extract the pairs, then categorise and bucket each, then collect the gaps. */
  method Execute(hypothesis: string, graph: RequirementGraph, solutions: OrderedMap<Id, Solution>, a: Agents)
    returns (out: Output)
    requires solutions.Valid()
    ensures out == Formed(hypothesis, ExtractedPairs(graph.State(), solutions), a)
  {
    var pairs := ExtractPairs(graph, solutions);
    var implemented, needsVerification, needsResearch := [], [], [];
    for i := 0 to |pairs|
      invariant implemented == Filter(Items(hypothesis, pairs[..i], a), IsImplemented)
      invariant needsVerification == Filter(Items(hypothesis, pairs[..i], a), IsVerification)
      invariant needsResearch == Filter(Items(hypothesis, pairs[..i], a), IsResearch)
    {
      ItemsSnoc(hypothesis, pairs, i, a);
      ghost var done := Items(hypothesis, pairs[..i], a);
      var item := FormItem(hypothesis, pairs[i], a);
      FilterSnoc(done, item, IsImplemented);
      FilterSnoc(done, item, IsVerification);
      FilterSnoc(done, item, IsResearch);
      if item.category == Implemented {
        implemented := implemented + [item];
      } else if item.category == NeedsVerification {
        needsVerification := needsVerification + [item];
      } else {
        needsResearch := needsResearch + [item];
      }
    }
    assert pairs[..|pairs|] == pairs;
    var gaps := CollectGaps(needsResearch);
    out := Output(implemented, needsVerification, needsResearch, gaps);
  }

  /** The items of one more pair are the items so far and its item. */
  lemma ItemsSnoc(hypothesis: string, pairs: seq<(Requirement, Solution)>, i: nat, a: Agents)
    requires i < |pairs|
    ensures Items(hypothesis, pairs[..i + 1], a) == Items(hypothesis, pairs[..i], a) + [ItemOf(hypothesis, pairs[i], a)]
  {
    assert pairs[..i + 1][..i] == pairs[..i];
  }

  /** The body of the loop over the pairs: query the knowledge base for an unclear item, categorise it and build its plan item. */
  method FormItem(hypothesis: string, pair: (Requirement, Solution), a: Agents) returns (item: PlanItem)
    ensures item == ItemOf(hypothesis, pair, a)
  {
    var (requirement, solution) := pair;
    var context := "";
    if IsUnclear(solution) {
      context := ChunksOrEmpty(a.retrieve(KbQuery(hypothesis, requirement, solution), RetrievalTopK));
    }
    var categorization := Categorize(requirement, solution, context, a);
    item := BuildItem(requirement, solution, categorization);
  }

  /** The loop extending `overall_gaps` with the first two questions of each research item. */
  method CollectGaps(research: seq<PlanItem>) returns (gaps: seq<string>)
    ensures gaps == OverallGaps(research)
  {
    gaps := [];
    for i := 0 to |research|
      invariant gaps == OverallGaps(research[..i])
    {
      PrefixSnoc(research, i);
      assert research[..i + 1][..i] == research[..i];
      var questions := research[i].researchQuestions;
      if questions != [] {
        gaps := gaps + FirstTwo(questions);
      }
    }
    assert research[..|research|] == research;
  }
}
