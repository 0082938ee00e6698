/**
 * The similarity checker: asks a model whether a new requirement restates one
 * of the candidates found by the store, and turns its JSON verdict into a
 * match. The model is a function from prompt to reply, and JSON decoding a
 * function from text to an optional verdict whose fields are absent when the
 * reply lacks the key.
 */
module SimilarityChecker {
  import opened Wrappers
  import opened Collections
  import opened Text
  import opened Requirements
  import opened RequirementStore

  /** The keys the checker reads from the decoded reply. */
  datatype Verdict = Verdict(reason: Option<string>, matchIndex: Option<int>)

  /** `SimilarityCheckerOutput` */
  datatype Output = Output(reason: string, hasMatch: bool, matchedId: Option<Id>)

  const NoCandidatesReason: string := "No candidates to compare against."
  const NoReasonGiven: string := "No reasoning provided."
  const ParseFailurePrefix: string := "Failed to parse LLM response: "

  /** The candidates as numbered lines, `"i. content"`. */
  function CandidateLines(candidates: seq<Candidate>, from: nat): (lines: seq<string>)
    requires from <= |candidates|
    ensures |lines| == |candidates| - from
    decreases |candidates| - from
  {
    if from == |candidates| then []
    else [ShowNat(from) + ". " + candidates[from].content] + CandidateLines(candidates, from + 1)
  }

  /** The question put to the model for a non-empty candidate list. */
  function Prompt(newContent: string, candidates: seq<Candidate>): string
    requires candidates != []
  {
    "NEW: " + newContent + "\n\nEXISTING:\n" + Join(CandidateLines(candidates, 0), '\n')
  }

  /**
   * `SimilarityCheckerAgent.execute`. Without candidates the model is not
   * asked; an undecodable reply, a missing index (read as -1) or an index out
   * of range gives no match; an index in range matches that candidate.
   */
  function Execute(newContent: string, candidates: seq<Candidate>,
                   ask: string -> string, decode: string -> Option<Verdict>): Output
  {
    if candidates == [] then Output(NoCandidatesReason, false, None)
    else
      var reply := ask(Prompt(newContent, candidates));
      match decode(Strip(reply))
      case None => Output(ParseFailurePrefix + Prefix(reply, 200), false, None)
      case Some(v) =>
        var reason := v.reason.GetOr(NoReasonGiven);
        var index := v.matchIndex.GetOr(-1);
        if 0 <= index < |candidates| then Output(reason, true, Some(candidates[index].requirementId))
        else Output(reason, false, None)
  }

  /**
   * The verdict, case by case: a match is reported exactly when a matched id
   * is, that id belongs to a candidate, and it is the candidate the decoded
   * index names when that index is in range.
   */
  lemma {:induction false} ExecuteVerdict(newContent: string, candidates: seq<Candidate>,
                       ask: string -> string, decode: string -> Option<Verdict>)
    ensures var out := Execute(newContent, candidates, ask, decode);
      && (out.hasMatch <==> out.matchedId.Some?)
      && (out.matchedId.Some? ==> exists i :: 0 <= i < |candidates| && candidates[i].requirementId == out.matchedId.value)
      && (candidates == [] ==> out == Output(NoCandidatesReason, false, None))
      && (candidates != [] ==>
            var reply := ask(Prompt(newContent, candidates));
            match decode(Strip(reply))
            case None =>
              out == Output(ParseFailurePrefix + Prefix(reply, 200), false, None)
            case Some(v) =>
              && out.reason == v.reason.GetOr(NoReasonGiven)
              && (out.hasMatch <==> v.matchIndex.Some? && 0 <= v.matchIndex.value < |candidates|)
              && (out.hasMatch ==> out.matchedId == Some(candidates[v.matchIndex.value].requirementId)))
  {
  }

  /** A matched id is the id of a stored requirement at the level the candidates were drawn from. */
  lemma {:induction false} MatchIsCandidate(newContent: string, candidates: seq<Candidate>,
                         ask: string -> string, decode: string -> Option<Verdict>, level: int)
    requires forall c :: c in candidates ==> c.level == level
    ensures var out := Execute(newContent, candidates, ask, decode);
      out.matchedId.Some? ==> exists c :: c in candidates && c.requirementId == out.matchedId.value && c.level == level
  {
    var out := Execute(newContent, candidates, ask, decode);
    ExecuteVerdict(newContent, candidates, ask, decode);
    if out.matchedId.Some? {
      var i :| 0 <= i < |candidates| && candidates[i].requirementId == out.matchedId.value;
      assert candidates[i] in candidates;
    }
  }
}
