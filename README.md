# Hypothesis-to-research-plan pipeline, modelled in Dafny

This project models the core of a system that turns a research hypothesis into a
research plan through a chain of language-model agents. The pipeline has these stages:

- **Decomposition.** The requirement decomposer grows a *requirement graph* from the
  (refined) hypothesis. It processes a node's sub-problems, then expands each new child in turn, down to `MaxLevel` = 3 (the source runs siblings concurrently). Each sub-problem
  the model proposes is either linked to a similar requirement already stored at the
  child's level, making it a *shared* node with several parents, or it is created as a
  new child.
- **Similarity.** The similarity checker and the requirement store's level-filtered
  `find_similar` decide which of the two happens.
- **Solving and aggregation.** The full-workflow script solves every atomic (leaf)
  requirement once. It then aggregates child solutions bottom-up, level by level. The
  aggregator samples three combinations, selects one, lists the gaps and computes a
  confidence.
- **Plan forming.** The plan former pairs requirements with their solutions and
  categorises each pair as implemented, needs-verification or needs-research.
- **Plan synthesis.** The plan synthesizer runs two model iterations with a
  knowledge-base gap-filling pass between them.
- **Voting.** The voting helpers (majority vote, vote with scores, best suggestion) are
  modelled too.

Modules, one per source file of the core:

| module (file) | models |
|---|---|
| `Requirements` (requirement.dfy) | `RequirementGraph` as a class whose methods update its fields; a value snapshot `GraphState` with one specification function per mutator |
| `RequirementStore` (requirement_store.dfy) | the level-filtered vector store as a class over an insertion-ordered map of points |
| `SimilarityChecker` (similarity_checker.dfy) | the match / no-match verdict over a candidate list |
| `DecompositionInvariant` (decomposition_invariant.dfy) | `MaxLevel` and the invariant the decomposer keeps over graph and store |
| `Decomposer` (decomposer.dfy) | `RequirementDecomposer` as a class; `execute`, `process_child` and the nested `recurse` as methods, each proved against a recursive specification function |
| `Workflow` (workflow.dfy) | `solve_atomic_requirements` and `aggregate_solutions` as methods on the graph, proved against functions |
| `Aggregator` (aggregator.dfy) | combination, selection, gap identification and confidence |
| `Voting` (voting.dfy) | the voting helpers |
| `PlanForming` (plan_forming.dfy) | pair extraction, categorisation, bucketing and the gap list |
| `PlanSynthesizer` (plan_synthesizer.dfy) | the preliminary plan and the final plan; gap filling runs in place over an array of gaps |
| `Solutions`, `Text`, `Collections`, `Wrappers` | the solution record, the string helpers (`strip`, `upper`, fenced-JSON extraction, `split`, `int()`), ordered dictionaries and `Option` |

Model conventions:

- **Calls into language models, the knowledge base and the embedding model** are
  function-typed parameters (`Oracles`, `Agents`). A model reply is a string. JSON
  decoding is a parameter `decode: string -> Option<...>`, where `None` means the text
  does not parse.
- **JSON objects** are records of `Option` fields, where `None` means the key is absent.
  This is how every `.get(key, default)` is reproduced. A `verification_category` that
  is present but null is `Some(None)`.
- **Python dictionaries** are `OrderedMap`s (a key sequence in insertion order plus a
  map), because the code iterates over them.
- **Fresh identifiers** (uuid4) come from a counter (`nextId`) in the decomposer and
  from `mint`/`gapId` parameters elsewhere.

## Model

| member | source | states |
|---|---|---|
| Requirements.RequirementGraph.constructor | src/models/requirement.py:55-81 | a new graph is empty (no nodes, no edges, no levels, all counters zero) and valid |
| Requirements.RequirementGraph.AddNode | src/models/requirement.py:83-100 | the new state is `NodeAdded` of the old one: node stored, id appended to its level, children entry created if absent, total +1, depth raised to the node's level; a valid graph (every node stored under its own id) stays valid |
| Requirements.NodeAddedSpec | src/models/requirement.py:90-100 | registering a node changes exactly its entry, appends its id to its level's list only, keeps every other children list, raises max depth to at least its level, and keeps ids matching keys |
| Requirements.WithParent | src/models/requirement.py:112-113 | after `add_child` the parent is among the child's parents exactly once (when it was at most once before), and nothing else in the child changes |
| Requirements.RequirementGraph.AddChild | src/models/requirement.py:102-119 | the new state is `ChildAdded` of the old one: the child stored with the parent among its parents and appended to the parent's children; a valid graph stays valid |
| Requirements.ChildAddedSpec | src/models/requirement.py:102-119 | the child is stored with the parent recorded, its id is appended to the parent's children, levels follow `add_node`, total +1, shared count unchanged, depth is the max of old depth and child level |
| Requirements.RequirementGraph.LinkExistingChild | src/models/requirement.py:121-144 | the new state is `ChildLinked` of the old one: an unknown id changes nothing, a known node gains the parent (becoming shared, counted once) and joins the parent's children once; a valid graph stays valid |
| Requirements.ChildLinkedSpec | src/models/requirement.py:121-144 | unknown child: nothing changes; new parent: parent appended, node marked shared, shared count +1; known parent: nodes and count unchanged; a child listed at most once among the parent's children stays listed exactly once |
| Requirements.LinkIdempotent | src/models/requirement.py:136-144 | linking the same parent and child twice has the same effect as linking once |
| Requirements.LinkAllParents | src/models/requirement.py:121-144 | linking k distinct new parents appends them in order, raises the shared count by k and marks the node shared iff k > 0 or it already was |
| Requirements.SharedNodeParents | src/models/requirement.py:102-144 | a child created under one parent and linked to k others has k+1 parents, is shared iff it has more than one parent, and adds k to the shared count |
| Requirements.ChildLinkedChildren | src/models/requirement.py:141-144 | linking keeps the parent's earlier children in order and appends the child unless it is already listed |
| Requirements.ChildAddedKeepsLevels | src/models/requirement.py:102-119 | adding a child one level below its parent keeps every edge one level deep |
| Requirements.ChildLinkedKeepsLevels | src/models/requirement.py:121-144 | linking a child that is one level below its parent keeps every edge one level deep |
| Requirements.AddChildDoesNotCheckLevels | src/models/requirement.py:102-119 | `add_child` itself does not enforce the level discipline: a graph with an edge that skips levels can be built |
| Requirements.Resolve | src/models/requirement.py:154-165 | looking ids up yields at most one node per id, each a stored node |
| Requirements.ResolveIds | src/models/requirement.py:154-165 | the resolved nodes' ids are exactly the ids that are registered, in order |
| Requirements.ResolveMembership | src/models/requirement.py:154-165 | a node is among the resolved ones iff its id was asked for and it is the stored node |
| Requirements.LeafIds | src/models/requirement.py:182-197 | an id is kept iff it is among the input ids and has no children |
| Requirements.AtomicExactly | src/models/requirement.py:182-197 | the atomic requirements are exactly the stored nodes without children, in registration order |
| Requirements.RequirementGraph.GetNode | src/models/requirement.py:146-148 | returns the node iff the id is registered, and that node |
| Requirements.RequirementGraph.GetRoot | src/models/requirement.py:150-152 | returns a registered node; in a valid graph, the one whose id is the root id |
| Requirements.RequirementGraph.GetChildren | src/models/requirement.py:154-165 | every node returned is a stored node |
| Requirements.ChildrenOf | src/models/requirement.py:154-165 | every child returned is a stored node |
| Requirements.RequirementGraph.GetParents | src/models/requirement.py:167-180 | unknown node: empty list; otherwise only stored nodes |
| Requirements.RequirementGraph.GetLevelNodes | src/models/requirement.py:206-217 | every node returned is a stored node |
| Requirements.LevelNodesOf | src/models/requirement.py:206-217 | every node at the level is a stored node |
| Requirements.ResolveNonEmpty | src/models/requirement.py:206-217 | the resolved list is empty iff none of the ids is registered |
| Requirements.RequirementGraph.GetAtomicRequirements | src/models/requirement.py:182-197 | returns the childless nodes in registration order and sets `atomic_count` to their number; nothing else changes |
| Requirements.RequirementGraph.ScanAtomic | src/models/requirement.py:189-196 | the scan over the nodes yields the childless nodes in registration order |
| Requirements.AtomicScanStep | src/models/requirement.py:189-196 | one scan step appends the node iff it is childless |
| Requirements.RequirementGraph.GetUnsolvedAtomic | src/models/requirement.py:199-204 | returns exactly the atomic requirements whose status is not solved, in order, and, like `get_atomic_requirements`, sets `atomic_count` to the number of atomic requirements and changes nothing else |
| Requirements.RequirementGraph.SetSolved | src/scripts/test_full_workflow.py:82-83 | marks one node solved with its solution id; nothing else changes |
| RequirementStore.Store.constructor | src/rag/requirement_store.py:91-97 | a new store holds no points |
| RequirementStore.Store.Clear | src/rag/requirement_store.py:91-97 | after clearing, the store holds no points |
| RequirementStore.Store.AddRequirement | src/rag/requirement_store.py:99-121 | upserts exactly one point carrying the requirement's id, content and level |
| RequirementStore.Hits | src/rag/requirement_store.py:180-210 | every candidate lies at the requested level, scores at least the threshold and comes from a stored point |
| RequirementStore.HitsMembership | src/rag/requirement_store.py:180-210 | a candidate is a hit exactly when some stored key's point is at the level, reaches the threshold and yields that candidate with its score |
| RequirementStore.HitsAppend | src/rag/requirement_store.py:180-210 | hits come in key order: the hits of a concatenation of keys are the hits of each part, one after the other |
| Collections.Prefix | src/rag/requirement_store.py:189-197 | `s[:n]`: a prefix of length min(n, len), used for the top-k hits, the 200-character error excerpt and the 300- and 500-character excerpts |
| Collections.PrefixAppend | src/rag/requirement_store.py:189-197 | a further hit enters the top-k prefix iff fewer than k were already there |
| RequirementStore.Store.FindSimilar | src/rag/requirement_store.py:154-210 | returns at most `top_k` candidates: the first hits at that level at or above the threshold |
| SimilarityChecker.CandidateLines | src/agents/similarity_checker.py:101-103 | one numbered prompt line per candidate |
| SimilarityChecker.ExecuteVerdict | src/agents/similarity_checker.py:81-137 | no candidates: fixed reason, no match; undecodable reply: parse-failure reason, no match; otherwise the reason is the decoded one (or the default), and there is a match iff the decoded index is in range, naming that candidate's id; `has_match` iff an id is returned |
| SimilarityChecker.MatchIsCandidate | src/agents/similarity_checker.py:117-122 | a matched id always belongs to a candidate at the requested level |
| Decomposer.RootText | src/agents/requirement_decomposer.py:98-103 | the refined text is used when present and non-empty, otherwise the original |
| Decomposer.RootContent | src/agents/requirement_decomposer.py:98-103 | the root content is the stripped text with trailing question marks removed |
| Decomposer.ParseSubProblemsCases | src/agents/requirement_decomposer.py:203-212 | undecodable reply or missing key: no sub-problems; any sub-problems returned are the decoded ones |
| Decomposer.GrowsTransitive | src/agents/requirement_decomposer.py:85-180 | growth of the graph (root kept, no node lost, no level changed) composes |
| Decomposer.CreateRegisters | src/agents/requirement_decomposer.py:145-153 | a new child gets the next id (not yet used), the parent's level + 1, the parent as its only parent, and is stored |
| Decomposer.CreatedKeepsConsistent | src/agents/requirement_decomposer.py:145-153 | creating a child below a parent under `MaxLevel` keeps the decomposition invariant and places the child one level down |
| Decomposer.LinkedKeepsConsistent | src/agents/requirement_decomposer.py:135-143 | linking to a requirement stored at the child level keeps the invariant |
| Decomposer.LinkedKeepsShape | src/agents/requirement_decomposer.py:135-143 | linking never touches the root and keeps every level and id bound |
| Decomposer.ProcessedLinks | src/agents/requirement_decomposer.py:126-143 | when the checker matches, no child is returned, no id is consumed, the store and the set of nodes are unchanged, and the matched node becomes a child of the parent with the parent among its parents |
| Decomposer.ProcessedCreates | src/agents/requirement_decomposer.py:145-153 | without a match, one pending child with a fresh id, the stripped text, the parent's level + 1 and the parent as sole parent is returned, registered, indexed in the store and appended to the parent's children; the node count rises by one |
| Decomposer.MatchedIsIndexed | src/agents/requirement_decomposer.py:119-133 | a matched requirement is stored at the child's level |
| Decomposer.MatchedIsCandidate | src/agents/requirement_decomposer.py:119-133 | a matched requirement is one of the top-k candidates |
| Decomposer.CandidateIsIndexed | src/rag/requirement_store.py:180-210 | every candidate is a point stored at the requested level |
| Decomposer.Processed | src/agents/requirement_decomposer.py:112-153 | `process_child` on values: a created child takes the next id, one level below the parent; a match consumes no id and leaves the store alone (properties: `ProcessedLinks`, `ProcessedCreates`, `ProcessedKeepsConsistent`) |
| Decomposer.ProcessedKeepsConsistent | src/agents/requirement_decomposer.py:112-153 | processing one sub-problem keeps the invariant, only grows the graph, and places any new child one level down |
| Decomposer.ProcessedLevels | src/agents/requirement_decomposer.py:116 | every new child is one level below its parent |
| Decomposer.StepSound | src/agents/requirement_decomposer.py:112-153 | the per-child step keeps the invariant for every state, parent and text |
| Decomposer.ProcessedAll | src/agents/requirement_decomposer.py:166-173 | all newly created children are one level below the parent |
| Decomposer.ProcessedAllKeepsConsistent | src/agents/requirement_decomposer.py:166-173 | processing all sub-problems keeps the invariant and places every new child |
| Decomposer.Expanded | src/agents/requirement_decomposer.py:155-173 | `recurse` on values: a node at `MaxLevel`, or with no sub-problems, is not expanded (properties: `ExpandedKeepsConsistent`, `ExpandedAllKeepsConsistent`) |
| Decomposer.ExpandedKeepsConsistent | src/agents/requirement_decomposer.py:155-173 | recursive expansion keeps the invariant, so no level exceeds `MaxLevel` and every edge steps one level |
| Decomposer.ExpandedAllKeepsConsistent | src/agents/requirement_decomposer.py:171-173 | expanding a list of same-level children keeps the invariant |
| Decomposer.StartedConsistent | src/agents/requirement_decomposer.py:96-110 | clearing the store, creating the root at level 0 and indexing it establishes the invariant |
| Decomposer.CountedKeepsConsistent | src/agents/requirement_decomposer.py:178 | recounting atomic requirements changes neither nodes nor root |
| Decomposer.Run | src/agents/requirement_decomposer.py:85-180 | `execute` on values: the final `atomic_count` is the number of leaves (properties: `RunConsistent`, `RunIsCounted`) |
| Decomposer.RunConsistent | src/agents/requirement_decomposer.py:85-180 | a whole run yields a graph rooted at a level-0 root holding the hypothesis, with levels in 0..3, one-level edges, the store indexing exactly the graph, and `atomic_count` equal to the number of leaves |
| Decomposer.RootExpandedRegistered | src/agents/requirement_decomposer.py:175 | after expansion every node is stored under its own id |
| Decomposer.RunIsCounted | src/agents/requirement_decomposer.py:175-178 | a run is the expansion of the root followed by the atomic count, which changes only `atomic_count`, setting it to the number of leaves |
| Decomposer.RequirementDecomposer.constructor | src/agents/requirement_decomposer.py:64-83 | keeps `top_k` and threshold and starts with an empty store |
| Decomposer.RequirementDecomposer.Execute | src/agents/requirement_decomposer.py:85-180 | returns a fresh graph whose final state, with the store, is `Run` of the hypothesis |
| Decomposer.RequirementDecomposer.ProcessChild | src/agents/requirement_decomposer.py:112-153 | the new graph, store and result are `Processed` of the old ones |
| Decomposer.RequirementDecomposer.CreateChild | src/agents/requirement_decomposer.py:145-153 | graph, store and id counter advance as `Created` says |
| Decomposer.RequirementDecomposer.Recurse | src/agents/requirement_decomposer.py:155-173 | graph and store end in `Expanded` of their initial state |
| Decomposer.RequirementDecomposer.ProcessChildren | src/agents/requirement_decomposer.py:166-168 | the loop over sub-problems matches `ProcessedAll` |
| Decomposer.RequirementDecomposer.ExpandChildren | src/agents/requirement_decomposer.py:171-173 | the loop over new children matches `ExpandedAll` |
| Solutions.ChunksOrEmpty | src/agents/plan_forming.py:237-247 | knowledge text is non-empty only for a successful retrieval with chunks |
| Workflow.SolveSingle | src/scripts/test_full_workflow.py:59-84 | a successful retrieval with text yields an existing, non-aggregated solution for the requirement holding that text with confidence 0.7; otherwise the proposer's solution, given an empty context |
| Workflow.SolvedPairs | src/scripts/test_full_workflow.py:87 | one result per requirement, in order |
| Workflow.SolvedPairsAt | src/scripts/test_full_workflow.py:87 | the i-th result is requirement i with its solution |
| Workflow.Recorded | src/scripts/test_full_workflow.py:90-92 | building the result dictionary keeps it well formed |
| Workflow.RecordedKeys | src/scripts/test_full_workflow.py:90-92 | a key is in the dictionary iff it was there or is reported, and untouched keys keep their value |
| Workflow.RecordedDistinct | src/scripts/test_full_workflow.py:90-92 | with distinct ids, every result gets its own entry, holding that result |
| Workflow.RecordedByIds | src/scripts/test_full_workflow.py:90-92 | results keyed by distinct requirement ids give a dictionary with exactly those keys, in order |
| Workflow.Marked | src/scripts/test_full_workflow.py:82-83 | marking changes only status and solution id, and no key |
| Workflow.MarkedRegistered | src/scripts/test_full_workflow.py:82-83 | marking keeps every node stored under its own id |
| Workflow.RecordedSynced | src/scripts/test_full_workflow.py:82-92 | every recorded solution's node is solved and points at that solution |
| Workflow.SyncedStep | src/scripts/test_full_workflow.py:82-83 | one mark-and-record step keeps the graph in step with the solutions |
| Workflow.AtomicIds | src/scripts/test_full_workflow.py:46 | the atomic ids are the childless ids, all distinct |
| Workflow.AtomicUnique | src/scripts/test_full_workflow.py:49-55 | the deduplication by id leaves the atomic list unchanged |
| Workflow.SolvePassSolvesEachOnce | src/scripts/test_full_workflow.py:40-96 | the solve pass yields exactly one solution per atomic requirement, keyed in order, each its `solve_single` result, and sets `atomic_count` |
| Workflow.SolvedRecorded | src/scripts/test_full_workflow.py:87-92 | the dictionary has the requirements' ids as keys, each mapped to its solution |
| Workflow.SolvePassSynced | src/scripts/test_full_workflow.py:40-96 | after the solve pass every solution's node is solved and points at it |
| Workflow.AtomicRegistered | src/models/requirement.py:182-197 | every atomic requirement is the node stored under its id |
| Workflow.SolvePass | src/scripts/test_full_workflow.py:40-96 | `solve_atomic_requirements` on values: records the number of atomic requirements and changes no edge, level, root or node key (properties: `SolvePassSolvesEachOnce`, `SolvePassSynced`) |
| Workflow.SolveAtomicRequirements | src/scripts/test_full_workflow.py:40-96 | graph and dictionary end as `SolvePass` of the initial graph |
| Workflow.SolveEach | src/scripts/test_full_workflow.py:59-87 | results are `SolvedPairs` in order and exactly those nodes are marked |
| Workflow.Collect | src/scripts/test_full_workflow.py:90-92 | the dictionary is built from the results in order |
| Workflow.SolutionsOfChildren | src/scripts/test_full_workflow.py:116-121 | at most one solution per child |
| Workflow.SolutionsOfChildrenMembership | src/scripts/test_full_workflow.py:116-121 | a solution is collected iff some child has it |
| Workflow.AggregatedNode | src/scripts/test_full_workflow.py:108-152 | nothing happens iff the node is already solved or no child has a solution; otherwise an aggregated solution for that node |
| Workflow.AggregatedChildIds | src/scripts/test_full_workflow.py:126-147 | the recorded child solution ids are distinct and are exactly the ids of the children's solutions |
| Workflow.DedupSolutionIds | src/scripts/test_full_workflow.py:126-132 | deduplication by solution id keeps every id once |
| Workflow.AggregateSingle | src/scripts/test_full_workflow.py:108-152 | agrees with `AggregatedNode` |
| Workflow.Gathered | src/scripts/test_full_workflow.py:165 | the skipped results (None) are dropped |
| Workflow.GatheredAppend | src/scripts/test_full_workflow.py:165 | gathering distributes over concatenation |
| Workflow.GatheredFrom | src/scripts/test_full_workflow.py:165 | every gathered result comes from some input |
| Workflow.LevelResults | src/scripts/test_full_workflow.py:155-165 | at most one result per node at the level |
| Workflow.LevelResultsFrom | src/scripts/test_full_workflow.py:155-165 | every result belongs to an unsolved node of the level and is its aggregation |
| Workflow.Pairs | src/scripts/test_full_workflow.py:168-172 | one (node id, solution) entry per result |
| Workflow.LevelStepAdds | src/scripts/test_full_workflow.py:155-172 | an aggregated node is stored, at that level, was unsolved and has a stored child |
| Workflow.LevelStepSynced | src/scripts/test_full_workflow.py:155-172 | a level step keeps the graph in step with the solutions |
| Workflow.LevelStep | src/scripts/test_full_workflow.py:155-172 | one level of `aggregate_solutions`: changes no edge, level, root, node key or atomic count, and keeps the dictionary well formed (properties: `LevelStepAdds`, `LevelStepMerges`, `LevelStepSynced`) |
| Workflow.LevelStepMerges | src/scripts/test_full_workflow.py:168-172 | every aggregated node gets an entry, and existing entries are never overwritten |
| Workflow.Passed | src/scripts/test_full_workflow.py:155-176 | the levels from the start level down to 0 in turn: the graph's shape and atomic count stay as they were and the dictionary stays well formed (properties: `PassedKeepsAndAdds`, `PassedSynced`, `WorkflowSynced`) |
| Workflow.PassedKeepsAndAdds | src/scripts/test_full_workflow.py:155-160 | the bottom-up pass keeps every existing solution and adds only non-leaf nodes at levels up to the start level |
| Workflow.PassedSynced | src/scripts/test_full_workflow.py:155-160 | the whole pass keeps graph and solutions in step |
| Workflow.WorkflowSynced | src/scripts/test_full_workflow.py:40-176 | after both passes every solution's node is solved and points at it, and each atomic requirement keeps its solve-pass solution |
| Workflow.AggregateSolutions | src/scripts/test_full_workflow.py:99-176 | graph and dictionary end as `Passed` from `max_depth - 1` down to 0 |
| Workflow.AggregateLevel | src/scripts/test_full_workflow.py:155-172 | one level: graph and dictionary end as `LevelStep` |
| Workflow.AggregateEach | src/scripts/test_full_workflow.py:162-165 | results are `LevelResults` of that level's nodes |
| Workflow.MergeResults | src/scripts/test_full_workflow.py:149-150 | records and marks exactly the aggregated nodes |
| Aggregator.NumberedLines | src/agents/aggregator.py:197-199 | one line per candidate solution, the k-th reading `k. <solution k>` |
| Aggregator.SelectIndex | src/agents/aggregator.py:209-218 | the selected index is in range whenever there are candidates, and is non-zero only when the reply parses to it |
| Aggregator.SelectIndexFallback | src/agents/aggregator.py:209-218 | a reply that does not parse, or is out of range, selects candidate 0 |
| Aggregator.SelectIndexReads | src/agents/aggregator.py:209-218 | a reply that, stripped, `int()` reads as a position in range selects that position |
| Aggregator.SelectIndexSpellings | src/agents/aggregator.py:209-218 | for instance `" 2\n"`, `"+2"` and `"02"` all select position 2 of 3 |
| Aggregator.SelectIndexReadsReply | src/agents/aggregator.py:209-218 | a reply that is exactly the decimal text of a position in range selects it |
| Aggregator.GapLines | src/agents/aggregator.py:236-241 | gaps are stripped, non-empty lines that are not "NONE" |
| Aggregator.GapLinesMembership | src/agents/aggregator.py:236-241 | a gap is listed iff some line strips to it and it is non-empty and not "NONE" |
| Aggregator.IdentifyGaps | src/agents/aggregator.py:220-241 | a reply that mentions NONE (any case) yields no gaps; every gap is stripped and non-empty |
| Aggregator.IdentifyGapsLines | src/agents/aggregator.py:232-241 | otherwise a gap is listed iff it is one of the stripped reply lines, non-empty and not "NONE" |
| Aggregator.Confidence | src/agents/aggregator.py:288-290 | the confidence always lies in [0.3, 0.9] |
| Aggregator.ConfidenceMonotone | src/agents/aggregator.py:288-290 | more children and fewer gaps never lower the confidence |
| Aggregator.ConfidenceWithoutGaps | src/agents/aggregator.py:288-290 | without gaps, 0.5 + 0.1 per child, capped at 0.9 |
| Aggregator.CombineSolutions | src/agents/aggregator.py:179-191 | exactly `N_COMBINATIONS` = 3 combinations, the i-th from the i-th sample of the combine prompt |
| Aggregator.Combinations | src/agents/aggregator.py:179-191 | there are always three combinations |
| Aggregator.Contents | src/agents/aggregator.py:256-257 | one content per child solution |
| Aggregator.AggregateNothing | src/agents/aggregator.py:259-271 | with no children: confidence 0, one gap, not aggregated, for the parent, and no model call |
| Aggregator.AggregateCombines | src/agents/aggregator.py:243-321 | with children: an aggregated novel solution for the parent, recording the children's ids in order, holding one of the sampled combinations, with confidence from children and gaps in [0.3, 0.9] |
| Aggregator.Aggregate | src/agents/aggregator.py:243-321 | `execute` on values: the new solution has the fresh id, belongs to the parent, and is aggregated exactly when there were child solutions (properties: `AggregateNothing`, `AggregateCombines`) |
| Aggregator.Execute | src/agents/aggregator.py:243-321 | the agent's output is `Aggregate` of its inputs |
| Voting.CountTrue | src/orchestration/voting.py:13-25 | the number of true votes is at most the number of votes |
| Voting.Negated | src/orchestration/voting.py:13-25 | negation keeps the number of votes |
| Voting.CountNegated | src/orchestration/voting.py:13-25 | negating every vote swaps the true and false counts |
| Voting.MajorityVote | src/orchestration/voting.py:13-25 | passes exactly when there are votes and the true votes outnumber the false ones (properties: `MajorityIsStrict`, `MajorityOfNegation`, `MajorityUnanimous`, `MajorityMonotone`) |
| Voting.MajorityIsStrict | src/orchestration/voting.py:13-25 | the vote passes iff there are votes and more than half are true; a tie fails |
| Voting.MajorityOfNegation | src/orchestration/voting.py:13-25 | a vote and its negation never both pass; with an odd count exactly one does |
| Voting.MajorityUnanimous | src/orchestration/voting.py:13-25 | a unanimous yes passes and a unanimous no fails |
| Voting.MajorityMonotone | src/orchestration/voting.py:13-25 | turning a vote to yes never makes a passing vote fail |
| Voting.SumScoresBounds | src/orchestration/voting.py:28-46 | the sum of n scores in [lo, hi] lies in [n·lo, n·hi] |
| Voting.MajorityVoteWithScores | src/orchestration/voting.py:28-46 | a verdict of true needs at least one judgment, and a single judgment is returned as it is (property: `WithScoresAgrees`) |
| Voting.WithScoresAgrees | src/orchestration/voting.py:28-46 | the verdict is the majority vote of the booleans, and the mean score lies between the bounds of the scores |
| Voting.BestIndex | src/orchestration/voting.py:74-87 | picks a highest-scoring suggestion, the first one among ties |
| Voting.BestIndexUnique | src/orchestration/voting.py:74-87 | the first maximal index is the only index with that property |
| Voting.SelectBestSuggestion | src/orchestration/voting.py:74-87 | None iff there are no suggestions; otherwise a suggestion whose score is maximal, found at a position before which every score is strictly lower (the first among ties) |
| PlanForming.PairsOf | src/agents/plan_forming.py:209-225 | at most one pair per solution key |
| PlanForming.PairIds | src/agents/plan_forming.py:209-225 | one id per pair |
| PlanForming.PairsOfSpec | src/agents/plan_forming.py:209-225 | the pairs are the solution keys that are graph nodes, in key order, each with its node and its solution |
| PlanForming.ExtractedPairs | src/agents/plan_forming.py:209-225 | at most one pair per solution key, each a registered requirement with a recorded solution (properties: `PairsOfSpec`, `ExtractedPairsDistinct`) |
| PlanForming.ExtractedPairsDistinct | src/agents/plan_forming.py:209-225 | extracted pairs have distinct requirement ids: the registered solution keys in order |
| PlanForming.ExtractPairs | src/agents/plan_forming.py:209-225 | agrees with `ExtractedPairs` |
| PlanForming.AdditionalContext | src/agents/plan_forming.py:420-424 | a clear solution gets no additional knowledge-base context |
| PlanForming.Categorize | src/agents/plan_forming.py:249-290 | a reply that does not decode yields the needs-research fallback |
| PlanForming.ParseCategory | src/agents/plan_forming.py:432-436 | a missing category reads as needs-research |
| PlanForming.ParseCategoryName | src/agents/plan_forming.py:432-436 | each category name parses back to its category; any other string reads as needs-research |
| PlanForming.ParseVerificationType | src/agents/plan_forming.py:438-443 | a missing or empty verification type gives none |
| PlanForming.ParseVerificationTypeName | src/agents/plan_forming.py:438-443 | each type name parses back to its type; any other string gives none |
| PlanForming.Summary | src/agents/plan_forming.py:448 | content up to 500 characters is kept whole; longer content is its first 500 characters followed by "..." |
| PlanForming.BuildItem | src/agents/plan_forming.py:445-456 | an item keeps the requirement id, confidence and source; a missing category, reasoning or question list defaults to needs-research, "" and [] |
| PlanForming.UndecodableIsResearch | src/agents/plan_forming.py:282-290 | an undecodable categorisation gives a needs-research item with the single default question and no verification type |
| PlanForming.Items | src/agents/plan_forming.py:427-456 | one item per pair |
| PlanForming.ItemOf | src/agents/plan_forming.py:420-456 | the item of one pair carries the requirement's id and the solution's confidence and source (properties: `BuildItem`, `UndecodableIsResearch`) |
| PlanForming.ItemsSnoc | src/agents/plan_forming.py:427-456 | items are built pair by pair, in order |
| PlanForming.FormItem | src/agents/plan_forming.py:420-456 | agrees with `ItemOf` for one pair |
| PlanForming.FirstTwo | src/agents/plan_forming.py:467-469 | at most the first two research questions are taken |
| PlanForming.OverallGaps | src/agents/plan_forming.py:467-469 | at most two gaps per research item |
| PlanForming.OverallGapsFrom | src/agents/plan_forming.py:467-469 | every overall gap is one of the first two questions of some research item |
| PlanForming.OverallGapsCovers | src/agents/plan_forming.py:467-469 | conversely, each of the first two questions of every research item is an overall gap |
| PlanForming.OverallGapsSnoc | src/agents/plan_forming.py:467-469 | gaps are collected item by item, in order: one more research item appends its first two questions (fewer if it has fewer) after the gaps so far |
| PlanForming.CollectGaps | src/agents/plan_forming.py:467-469 | the loop agrees with `OverallGaps` |
| PlanForming.BucketsPartition | src/agents/plan_forming.py:459-464 | the three buckets together are a permutation of the items |
| PlanForming.Formed | src/agents/plan_forming.py:402-474 | `execute` without rendering: the three buckets hold one item per pair between them, with at most two gaps per research item (properties: `FormedPartitions`, `BucketsPartition`, `OverallGapsCovers`) |
| PlanForming.FormedPartitions | src/agents/plan_forming.py:402-474 | the output buckets are a permutation of the items, one per pair, with at most two gaps per research item |
| PlanForming.Execute | src/agents/plan_forming.py:402-474 | the output is `Formed` of the extracted pairs |
| Text.FencedPayload | src/agents/plan_synthesizer.py:480-496 | a fenced reply yields text without a fence; an unfenced one yields the stripped reply (which fenced segment: `FencedPayloadJson`, `FencedPayloadBare`) |
| Text.FencedPayloadJson | src/agents/plan_synthesizer.py:480-487 | when the stripped reply's first json fence opens at `i` and the next json fence opens at `m` (or there is none), the payload is the text after the opening fence, cut at `m`, then cut at that piece's first bare fence, and stripped |
| Text.FencedPayloadStopsAtJsonFence | src/agents/plan_synthesizer.py:484-485 | the closing fence is looked for only before the next json fence: a bare fence overlapping that json fence does not close the block |
| Text.FencedPayloadBare | src/agents/plan_synthesizer.py:480-487 | when the stripped reply has no json fence and its first bare fence opens at `i`, the payload is the stripped text from there up to the next fence or the end |
| Text.StripIs | src/agents/similarity_checker.py:112-115 | stripping keeps exactly the text between white-space padding when that text has non-space ends |
| Text.FencedPayloadRoundTrip | src/agents/plan_synthesizer.py:480-496 | wrapping stripped JSON in a json fence and extracting it gives the JSON back |
| Text.Strip | src/agents/similarity_checker.py:112-115 | the result is the input with a white-space prefix and a white-space suffix removed, and neither end of the result is white space |
| Text.StripIdempotent | src/agents/similarity_checker.py:112-115 | stripping twice is stripping once |
| Text.Split | src/agents/aggregator.py:236-241 | `split` gives at least one piece and no piece holds the separator (property: `JoinSplit`) |
| Text.JoinSplit | src/agents/aggregator.py:236-241 | splitting on a separator and joining back gives the input |
| Text.ParseInt | src/agents/aggregator.py:209-218 | `int()` accepts only an optional sign followed by digits, and a negative result needs a minus sign (property: `ParseShowInt`) |
| Text.ParseShowInt | src/agents/aggregator.py:209-218 | `int()` reads back every integer's decimal form |
| Collections.Dedup | src/scripts/test_full_workflow.py:49-55 | the deduplicated list is no longer than the input |
| Collections.DedupProperties | src/scripts/test_full_workflow.py:49-55 | keys are distinct, the same key set survives, and only input elements are kept |
| Collections.DedupFirstOccurrence | src/scripts/test_full_workflow.py:49-55 | each kept element is the first occurrence of its key |
| Collections.DedupOfDistinct | src/scripts/test_full_workflow.py:49-55 | a list whose keys are already distinct is left unchanged |
| Collections.DedupByKey | src/scripts/test_full_workflow.py:49-55 | the loop with a `seen` set agrees with `Dedup` |
| Collections.FilterPartition | src/agents/plan_forming.py:459-464 | a predicate and its negation split a list into a permutation |
| Collections.OrderedMap.Put | src/scripts/test_full_workflow.py:90-92 | assigning a key updates the map, appends a new key at the end, keeps an old key's position, and keeps the map well formed |
| PlanSynthesizer.ParseJsonResponse | src/agents/plan_synthesizer.py:480-496 | the decoded fenced payload, or the parse-failure fallback |
| PlanSynthesizer.ParseFencedDocument | src/agents/plan_synthesizer.py:480-496 | a JSON document inside a json fence is decoded as itself |
| PlanSynthesizer.PreliminaryStepOf | src/agents/plan_synthesizer.py:500-511 | missing step number: the position; missing confidence: 0.5; missing lacks: [] |
| PlanSynthesizer.GapOf | src/agents/plan_synthesizer.py:514-520 | a new gap has the fresh id and is not yet filled |
| PlanSynthesizer.PreliminarySteps | src/agents/plan_synthesizer.py:500-511 | one step per step record |
| PlanSynthesizer.Gaps | src/agents/plan_synthesizer.py:513-520 | one gap per gap record |
| PlanSynthesizer.PreliminaryPlanOf | src/agents/plan_synthesizer.py:498-528 | as many steps and gaps as the reply lists; overall confidence defaults to 0.5 |
| PlanSynthesizer.PreliminaryNumbering | src/agents/plan_synthesizer.py:498-528 | unnumbered steps are numbered 1, 2, …; no gap starts filled |
| PlanSynthesizer.UndecodablePreliminary | src/agents/plan_synthesizer.py:306-326 | an undecodable analysis gives the parse-failure summary, no steps, no gaps, confidence 0.5 |
| PlanSynthesizer.BuildPreliminaryPlan | src/agents/plan_synthesizer.py:498-528 | agrees with `PreliminaryPlanOf` |
| PlanSynthesizer.FilledGap | src/agents/plan_synthesizer.py:343-352 | a search that finds chunks fills the gap with them and their sources; otherwise the gap is unchanged; the id, query and description never change |
| PlanSynthesizer.FilledContents | src/agents/plan_synthesizer.py:328-354 | the gap-content dictionary is well formed |
| PlanSynthesizer.FilledContentsKeys | src/agents/plan_synthesizer.py:328-354 | a gap id has content iff the search for some gap with that id found chunks |
| PlanSynthesizer.FilledContentsValues | src/agents/plan_synthesizer.py:328-354 | each stored content is the chunks found for a gap with that id |
| PlanSynthesizer.FilledContentsSnoc | src/agents/plan_synthesizer.py:343-353 | one loop step adds the gap's chunks iff its search found some |
| PlanSynthesizer.FillGap | src/agents/plan_synthesizer.py:344-352 | fills one gap in place, records its content when found, and leaves the other gaps alone |
| PlanSynthesizer.FillGaps | src/agents/plan_synthesizer.py:328-354 | fills every gap in place and returns exactly the contents of the gaps whose search found chunks |
| PlanSynthesizer.FilledGaps | src/agents/plan_synthesizer.py:343-353 | filling keeps the number of gaps |
| PlanSynthesizer.FilledGapsAgree | src/agents/plan_synthesizer.py:343-353 | a gap ends filled iff it was filled or its search found chunks, and then its id has content |
| PlanSynthesizer.FillPlanGaps | src/agents/plan_synthesizer.py:288-289 | the gaps after the search and the content dictionary agree with their specifications |
| PlanSynthesizer.ParseCategory | src/agents/plan_synthesizer.py:533-538 | a missing category reads as information-complete; a null or unknown one reads as requires-expert-review |
| PlanSynthesizer.ParseCategoryName | src/agents/plan_synthesizer.py:533-538 | each category name parses back to its category; any other string reads as requires-expert-review |
| PlanSynthesizer.FinalStepOf | src/agents/plan_synthesizer.py:533-552 | missing step number: the position; missing category: information-complete; missing confidence: 0.7 |
| PlanSynthesizer.FinalSteps | src/agents/plan_synthesizer.py:532-555 | one final step per step record |
| PlanSynthesizer.FinalPlanOf | src/agents/plan_synthesizer.py:530-566 | as many steps as listed; a missing total is the number of steps; missing counts are 0 |
| PlanSynthesizer.FinalDefaults | src/agents/plan_synthesizer.py:530-566 | unnumbered, uncategorised steps are numbered 1, 2, … and are information-complete |
| PlanSynthesizer.UndecodableFinal | src/agents/plan_synthesizer.py:356-376 | an undecodable refinement gives an empty final plan with total 0 |
| PlanSynthesizer.BuildFinalPlan | src/agents/plan_synthesizer.py:530-566 | agrees with `FinalPlanOf` |
| PlanSynthesizer.StepPartition | src/agents/plan_synthesizer.py:602-603 | complete and verification steps are a permutation of the plan's steps, split by category |
| PlanSynthesizer.Synthesized | src/agents/plan_synthesizer.py:271-304 | the output keeps one gap per gap the analysis listed |
| PlanSynthesizer.Execute | src/agents/plan_synthesizer.py:271-304 | the output is `Synthesized`: iteration one, gap filling, iteration two |

## Left out

- Language-model prompts and replies: the prompt texts and `_format_*` helpers are not
  modelled except where a reply is parsed. Every model call is an opaque function.
  `json.loads` is a `decode` parameter.
- Fresh ids: uuid4 becomes a counter in the decomposer and `mint`/`gapId` elsewhere.
  Nothing relies on two minted ids differing, except the decomposer, whose counter
  guarantees it.
- Floating point: confidences, scores and thresholds are `real`. Rounding is not modelled.
- Decomposer concurrency: the sub-problems of a node, and then its new children, are
  handled concurrently with `asyncio.gather` in the source. The model processes them in
  list order and expands each new child fully before the next sibling, so a search sees
  exactly the requirements stored earlier in that order; other interleavings are not modelled.
- Concurrency: `asyncio.gather` is a sequential loop. Within one level the aggregations
  read only the solution dictionary from before the level. Nodes are marked while the
  results are merged, so every interleaving gives the same result as the loop.
- Vector search: embeddings, cosine ranking and Qdrant's ordering are not modelled.
  `RequirementStore.Store.FindSimilar` returns the first `top_k` hits in insertion order,
  not the `top_k` best-scoring ones. The similarity function is a parameter.
- `add_requirements_batch`, save/load of the graph, visualisation, markdown rendering,
  timestamps, logging and console output are not modelled.
- Pydantic validation is not modelled: range checks on confidence fields, and JSON
  values that are null or of the wrong type are not rejected. The one exception is
  `verification_category`, whose explicit null is modelled. A non-integer
  `match_index` is not modelled either. A reply that decodes to a top-level value that
  is not an object (`[]`, `null`, `42`) makes the source fail when it calls `.get` on
  it (src/agents/plan_forming.py:432, src/agents/plan_synthesizer.py:501); the model's
  decoders yield only records, so that failure is not modelled.
- Text.Strip: `str.strip`, `upper` and `split` are modelled on ASCII white space
  (space, \t to \r and \x1c to \x1f) and ASCII letters only; non-ASCII white space is not stripped.
- `int()` is modelled as optional sign plus ASCII decimal digits. Underscores, surrounding
  white space and non-ASCII decimal digits (such as Arabic-Indic digits, which Python
  accepts) are not accepted; `SelectIndex` strips the reply first, as the code does.
- `src/models/solution.py` is not part of this model. The `Solution` record follows the
  fields the workflow and aggregator construct.
- `gap_ids` on solutions, the aggregator's free-text synthesis and `run_parallel_judges`
  (a stub in the voting module) are not modelled.
- PlanForming.Categorize: a reply that decodes but lacks keys is handled field by field,
  through `BuildItem`. Everything else about categorisation is the model's choice.
- Decomposer: the decomposition reply is the only source of sub-problems. The
  decomposer never consults an atomicness judge.
