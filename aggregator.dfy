/**
 * The aggregator: combines the solutions of a requirement's children into one
 * solution for the requirement. The model is asked three times for a
 * combination, once to pick the best of them and once to list what the pick
 * leaves open; the confidence follows from the number of children and gaps.
 *
 * The model is a pair of functions from query to reply; the repeated
 * combination query also receives the attempt number, standing for the
 * model's sampling. Confidences are reals.
 */
module Aggregator {
  import opened Wrappers
  import opened Collections
  import opened Text
  import opened Requirements
  import opened Solutions

  /** `N_COMBINATIONS` */
  const NCombinations: nat := 3

  const NoKnowledge: string := "No additional context provided."
  const NoChildrenContent: string := "No child solutions available to combine."
  const NoChildrenGap: string := "All aspects of the problem remain unaddressed"
  const GapQuestion: string := "What important aspects of the problem are NOT addressed by this solution? List each gap on a new line. If no gaps exist, respond with 'NONE'."
  const SelectQuestion: string := "Which solution satisfies the problem the best? Provide only the index number of the best solution!"

  /** The model: `combine(query, attempt)` for the sampled combinations, `ask(query)` for single questions. */
  datatype Oracles = Oracles(combine: (string, nat) -> string, ask: string -> string)

  /** `AggregatorOutput` without its prose `synthesis`. */
  datatype Output = Output(solution: Solution, gaps: seq<string>)

  /** The items as lines `"i. item"`, numbered from `from`. */
  function NumberedLines(items: seq<string>, from: nat): (lines: seq<string>)
    requires from <= |items|
    ensures |lines| == |items| - from
    ensures forall k :: 0 <= k < |lines| ==> lines[k] == ShowNat(from + k) + ". " + items[from + k]
    decreases |items| - from
  {
    if from == |items| then [] else [ShowNat(from) + ". " + items[from]] + NumberedLines(items, from + 1)
  }

  /** `"\n".join(lines)`, which is empty for no lines. */
  function JoinLines(lines: seq<string>): string {
    if lines == [] then "" else Join(lines, '\n')
  }

  function CombineQuery(knowledge: string, problem: string, subsolutions: seq<string>): string {
    "Knowledge: " + knowledge + "\n\nProblem: " + problem + "\n\nSubsolutions:\n" + JoinLines(subsolutions)
  }

  function SelectQuery(knowledge: string, problem: string, solutions: seq<string>): string {
    "Knowledge: " + knowledge + "\n\nProblem: " + problem + "\n\nSolutions:\n" + JoinLines(NumberedLines(solutions, 0))
      + "\n\n" + SelectQuestion
  }

  function GapsQuery(problem: string, solution: string): string {
    "Problem: " + problem + "\n\nSolution: " + solution + "\n\n" + GapQuestion
  }

  /**
   * `_select_best_solution` once the reply is in: the stripped reply read as
   * an integer when that is a valid position among `count` solutions, else 0.
   */
  function SelectIndex(reply: string, count: nat): (i: nat)
    ensures count > 0 ==> i < count
    ensures i != 0 ==> ParseInt(Strip(reply)) == Some(i as int)
  {
    match ParseInt(Strip(reply))
    case Some(n) => if 0 <= n < count then n else 0
    case None => 0
  }

  /** A reply that does not read as an integer, or names no position in range, selects the first solution. */
  lemma {:induction false} SelectIndexFallback(reply: string, count: nat)
    requires ParseInt(Strip(reply)).None? || !(0 <= ParseInt(Strip(reply)).value < count)
    ensures SelectIndex(reply, count) == 0
  {
  }

  /** Digits carry no white space, so stripping leaves a number's text alone. */
  lemma {:induction false} StripShowNat(n: nat)
    ensures Strip(ShowNat(n)) == ShowNat(n)
  {
    var s := ShowNat(n);
    assert !IsSpace(s[0]) && !IsSpace(s[|s| - 1]);
    assert SkipSpaces(s, 0) == 0;
    assert SkipSpacesBack(s, 0, |s|) == |s|;
    assert s[0..|s|] == s;
  }

  /**
   * A reply that `int()` reads, after stripping, as a position in range selects
   * that position, whatever its spelling: padding, a sign or leading zeros.
   */
  lemma {:induction false} SelectIndexReads(reply: string, count: nat, k: int)
    requires 0 <= k < count && ParseInt(Strip(reply)) == Some(k)
    ensures SelectIndex(reply, count) == k
  {
  }

  /** For instance, " 2\n", "+2" and "02" all select the third of three solutions. */
  lemma {:induction false} SelectIndexSpellings()
    ensures SelectIndex(" 2\n", 3) == 2 && SelectIndex("+2", 3) == 2 && SelectIndex("02", 3) == 2
  {
    assert " 2\n"[1..2] == "2" && "+2"[0..2] == "+2" && "02"[0..2] == "02";
    ReadsTwo(" 2\n", 1, 2);
    ReadsTwo("+2", 0, 2);
    ReadsTwo("02", 0, 2);
  }

  lemma {:induction false} ReadsTwo(reply: string, a: nat, b: nat)
    requires a <= b <= |reply| && (reply[a..b] == "2" || reply[a..b] == "+2" || reply[a..b] == "02")
    requires forall k :: 0 <= k < a ==> IsSpace(reply[k])
    requires forall k :: b <= k < |reply| ==> IsSpace(reply[k])
    ensures SelectIndex(reply, 3) == 2
  {
    StripIs(reply, a, b);
    ParsesTwo();
  }

  lemma {:induction false} ParsesTwo()
    ensures ParseInt("2") == Some(2) && ParseInt("+2") == Some(2) && ParseInt("02") == Some(2)
  {
    assert "+2"[1..] == "2";
    assert "02"[..1] == "0";
    assert DigitsValue("0") == 0 by {
      assert "0"[..0] == [];
    }
    assert DigitsValue("2") == 2 by {
      assert "2"[..0] == [];
    }
  }

  /** A reply that is exactly a position in range selects that position. */
  lemma {:induction false} SelectIndexReadsReply(i: nat, count: nat)
    requires i < count
    ensures SelectIndex(ShowNat(i), count) == i
  {
    StripShowNat(i);
    ParseShowInt(i);
    assert ShowInt(i) == ShowNat(i);
  }

  /**
   * The stripped lines of a reply that are not blank, in order; a line that
   * reads `NONE` in upper case is dropped too.
   */
  function GapLines(lines: seq<string>): (gaps: seq<string>)
    ensures |gaps| <= |lines|
    ensures forall g :: g in gaps ==> g != [] && Strip(g) == g && Upper(g) != "NONE"
  {
    if lines == [] then []
    else
      var init := GapLines(lines[..|lines| - 1]);
      var line := Strip(lines[|lines| - 1]);
      StripIdempotent(lines[|lines| - 1]);
      if IsGapLine(line) then init + [line] else init
  }

  /** A stripped line that counts as a gap: not blank and not NONE. */
  predicate IsGapLine(line: string) {
    line != [] && Upper(line) != "NONE"
  }

  /** Some line of `lines` strips to `g`. */
  ghost predicate StripsTo(lines: seq<string>, g: string) {
    exists l :: l in lines && Strip(l) == g
  }

  /** `_identify_gaps` once the reply is in: none when the reply mentions NONE in any case, else its non-blank lines, stripped. */
  function IdentifyGaps(reply: string): (gaps: seq<string>)
    ensures Contains(Upper(reply), "NONE") ==> gaps == []
    ensures forall g :: g in gaps ==> g != [] && Strip(g) == g
  {
    if Contains(Upper(reply), "NONE") then [] else GapLines(Split(Strip(reply), '\n'))
  }

  /** A gap is exactly a non-blank stripped line of the reply that is not `NONE`. */
  lemma {:induction false} GapLinesMembership(lines: seq<string>, g: string)
    ensures g in GapLines(lines) <==> IsGapLine(g) && StripsTo(lines, g)
  {
    if lines != [] {
      var init, last := lines[..|lines| - 1], lines[|lines| - 1];
      GapLinesMembership(init, g);
      var added := if IsGapLine(Strip(last)) then [Strip(last)] else [];
      assert GapLines(lines) == GapLines(init) + added;
      StripsToSnoc(lines, g);
    }
  }

  /** Some line strips to `g` exactly when some earlier line does or the last one does. */
  lemma StripsToSnoc(lines: seq<string>, g: string)
    requires lines != []
    ensures StripsTo(lines, g) <==> StripsTo(lines[..|lines| - 1], g) || Strip(lines[|lines| - 1]) == g
  {
    ImageSnoc(lines, Strip, g);
  }

  /** The gaps of a reply without NONE: every non-blank line of it, stripped, and nothing else. */
  lemma {:induction false} IdentifyGapsLines(reply: string, g: string)
    requires !Contains(Upper(reply), "NONE")
    ensures g in IdentifyGaps(reply) <==> IsGapLine(g) && StripsTo(Split(Strip(reply), '\n'), g)
  {
    GapLinesMembership(Split(Strip(reply), '\n'), g);
  }

  function RealMin(a: real, b: real): real { if a <= b then a else b }
  function RealMax(a: real, b: real): real { if a >= b then a else b }

  /** The confidence of a combination of `n` child solutions with `g` gaps. */
  function Confidence(n: nat, g: nat): (c: real)
    ensures 0.3 <= c <= 0.9
  {
    RealMax(0.3, RealMin(0.9, 0.5 + n as real * 0.1) - g as real * 0.1)
  }

  /** More children never lower the confidence and more gaps never raise it. */
  lemma {:induction false} ConfidenceMonotone(n1: nat, g1: nat, n2: nat, g2: nat)
    requires n1 <= n2 && g2 <= g1
    ensures Confidence(n1, g1) <= Confidence(n2, g2)
  {
  }

  /** Without gaps the confidence grows by a tenth per child up to 0.9, reached from four children on. */
  lemma {:induction false} ConfidenceWithoutGaps(n: nat)
    ensures n >= 4 ==> Confidence(n, 0) == 0.9
    ensures n < 4 ==> Confidence(n, 0) == 0.5 + n as real * 0.1
  {
  }

  /** `_combine_solutions`: exactly `NCombinations` sampled combinations, in the order they were asked for. */
  method CombineSolutions(knowledge: string, problem: string, subsolutions: seq<string>, o: Oracles)
    returns (combinations: seq<string>)
    ensures |combinations| == NCombinations
    ensures forall i :: 0 <= i < NCombinations ==> combinations[i] == o.combine(CombineQuery(knowledge, problem, subsolutions), i)
  {
    combinations := [];
    for i := 0 to NCombinations
      invariant |combinations| == i
      invariant forall j :: 0 <= j < i ==> combinations[j] == o.combine(CombineQuery(knowledge, problem, subsolutions), j)
    {
      var combination := o.combine(CombineQuery(knowledge, problem, subsolutions), i);
      combinations := combinations + [combination];
    }
  }

  /** The combinations asked for, as a value. */
  function Combinations(knowledge: string, problem: string, subsolutions: seq<string>, o: Oracles): (r: seq<string>)
    ensures |r| == NCombinations
  {
    seq(NCombinations, i requires 0 <= i < NCombinations => o.combine(CombineQuery(knowledge, problem, subsolutions), i))
  }

  function Contents(solutions: seq<Solution>): (r: seq<string>)
    ensures |r| == |solutions|
  {
    seq(|solutions|, i requires 0 <= i < |solutions| => solutions[i].content)
  }

  /** What `execute` returns when there is nothing to combine. */
  function NothingToCombine(parent: Requirement, newId: Id): Output {
    Output(Solution(newId, parent.id, NoChildrenContent, Novel, 0.0, false, []), [NoChildrenGap])
  }

  /**
   * `execute` on values, with `newId` for the new solution's UUID: with no
   * child solutions the fixed reply; otherwise the best of the combinations,
   * its gaps, and the confidence they give.
   */
  function Aggregate(parent: Requirement, children: seq<Solution>, knowledge: string, o: Oracles, newId: Id): (out: Output)
    ensures out.solution.id == newId && out.solution.requirementId == parent.id
    ensures out.solution.isAggregated <==> children != []
  {
    if children == [] then NothingToCombine(parent, newId)
    else
      var know := if knowledge == [] then NoKnowledge else knowledge;
      var subsolutions := Contents(children);
      var combinations := Combinations(know, parent.content, subsolutions, o);
      var best := SelectIndex(o.ask(SelectQuery(know, parent.content, combinations)), |combinations|);
      var gaps := IdentifyGaps(o.ask(GapsQuery(parent.content, combinations[best])));
      Output(Solution(newId, parent.id, combinations[best], Novel, Confidence(|subsolutions|, |gaps|), true, Image(children, SolutionIdOf)), gaps)
  }

  /** With no child solutions: confidence 0.0, exactly one gap, and the model is never consulted. */
  lemma {:induction false} AggregateNothing(parent: Requirement, knowledge: string, o1: Oracles, o2: Oracles, newId: Id)
    ensures var out := Aggregate(parent, [], knowledge, o1, newId);
      && out == Aggregate(parent, [], knowledge, o2, newId)
      && out.solution.confidence == 0.0 && |out.gaps| == 1
      && out.solution.requirementId == parent.id && !out.solution.isAggregated
  {
  }

  /**
   * With child solutions: the result is aggregated, for the parent, records
   * the children's ids in input order, holds one of the sampled combinations,
   * and has a confidence in [0.3, 0.9] given by the children and gaps.
   */
  lemma {:induction false} AggregateCombines(parent: Requirement, children: seq<Solution>, knowledge: string, o: Oracles, newId: Id)
    requires children != []
    ensures var out := Aggregate(parent, children, knowledge, o, newId);
      var know := if knowledge == [] then NoKnowledge else knowledge;
      && out.solution.isAggregated && out.solution.source == Novel
      && out.solution.requirementId == parent.id && out.solution.id == newId
      && |out.solution.childSolutionIds| == |children|
      && (forall i :: 0 <= i < |children| ==> out.solution.childSolutionIds[i] == children[i].id)
      && out.solution.content in Combinations(know, parent.content, Contents(children), o)
      && out.solution.confidence == Confidence(|children|, |out.gaps|)
      && 0.3 <= out.solution.confidence <= 0.9
  {
  }

  /** `AggregatorAgent.execute`: the same steps, with the combinations sampled by the loop of `_combine_solutions`. */
  method Execute(parent: Requirement, children: seq<Solution>, knowledge: string, o: Oracles, newId: Id)
    returns (out: Output)
    ensures out == Aggregate(parent, children, knowledge, o, newId)
  {
    if children == [] {
      return NothingToCombine(parent, newId);
    }
    var know := if knowledge == [] then NoKnowledge else knowledge;
    var subsolutions := Contents(children);
    var combinations := CombineSolutions(know, parent.content, subsolutions, o);
    assert combinations == Combinations(know, parent.content, subsolutions, o);
    var best := SelectIndex(o.ask(SelectQuery(know, parent.content, combinations)), |combinations|);
    var gaps := IdentifyGaps(o.ask(GapsQuery(parent.content, combinations[best])));
    var confidence := Confidence(|subsolutions|, |gaps|);
    out := Output(Solution(newId, parent.id, combinations[best], Novel, confidence, true, Image(children, SolutionIdOf)), gaps);
  }
}
