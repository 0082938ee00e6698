/**
 * The solve and aggregate passes of the full workflow. The atomic
 * requirements are solved once each, by retrieval from the knowledge base or
 * by the proposer; then, level by level from the deepest composite level up
 * to the root, every composite node without a solution is solved by
 * aggregating its children's solutions.
 *
 * Both passes write each solution's id and the SOLVED status into the
 * requirement it solves. They are methods over the graph class, each proved
 * to compute a pure function of the graph's state (`SolvePass`, `Passed`),
 * and the properties of the passes are lemmas about those functions.
 *
 * `asyncio.gather` becomes a sequential loop over the same list: within a
 * level every result is computed from the solutions present when the level
 * starts and merged only afterwards, as in the source.
 */
module Workflow {
  import opened Wrappers
  import opened Collections
  import opened Requirements
  import opened Solutions
  import Aggregator

  /** The `top_k` of every retrieval the passes make. */
  const RetrievalTopK: nat := 3
  /** The confidence of a solution taken from the knowledge base. */
  const RetrievedConfidence: real := 0.7

  /**
   * The agents the passes call: the retriever (query, top_k), the proposer
   * (requirement, context), the model behind the aggregator, and `mint`,
   * which stands for the fresh UUID of the solution made for a requirement.
   */
  datatype Agents = Agents(
    retrieve: (string, nat) -> Retrieval,
    propose: (Requirement, string) -> Solution,
    mint: Id -> Id,
    model: Aggregator.Oracles)

  // ---------------------------------------------------------------------
  // Recording solutions: the dictionary and the in-place writes to nodes
  // ---------------------------------------------------------------------

  /** `solutions[id] = solution` for each pair, in order. */
  function Recorded(solutions: OrderedMap<Id, Solution>, pairs: seq<(Id, Solution)>): (r: OrderedMap<Id, Solution>)
    ensures solutions.Valid() ==> r.Valid()
  {
    if pairs == [] then solutions
    else
      var last := pairs[|pairs| - 1];
      Recorded(solutions, pairs[..|pairs| - 1]).Put(last.0, last.1)
  }

  /**
   * `node.solution_id = solution.id; node.status = SOLVED` for each pair
   * whose node is registered, in order. Nothing else about any node changes
   * and no node is added or removed.
   */
  function Marked(nodes: OrderedMap<Id, Requirement>, pairs: seq<(Id, Solution)>): (r: OrderedMap<Id, Requirement>)
    ensures r.keys == nodes.keys && r.items.Keys == nodes.items.Keys
    ensures forall k :: k in r.items ==>
      r.items[k] == nodes.items[k].(solutionId := r.items[k].solutionId, status := r.items[k].status)
  {
    if pairs == [] then nodes
    else
      var m := Marked(nodes, pairs[..|pairs| - 1]);
      var last := pairs[|pairs| - 1];
      if last.0 in m.items then m.Put(last.0, m.items[last.0].(solutionId := Some(last.1.id), status := Solved)) else m
  }

  lemma {:induction false} MarkedSnoc(nodes: OrderedMap<Id, Requirement>, pairs: seq<(Id, Solution)>, p: (Id, Solution))
    ensures var m := Marked(nodes, pairs);
      Marked(nodes, pairs + [p]) == if p.0 in m.items then m.Put(p.0, m.items[p.0].(solutionId := Some(p.1.id), status := Solved)) else m
  {
    assert (pairs + [p])[..|pairs|] == pairs;
  }

  /** Every solution in the dictionary is written into its requirement, which is marked SOLVED. */
  ghost predicate Synced(g: GraphState, solutions: OrderedMap<Id, Solution>) {
    forall k :: k in solutions.items ==>
      && k in g.nodes.items
      && g.nodes.items[k].status == Solved
      && g.nodes.items[k].solutionId == Some(solutions.items[k].id)
  }

  /** Marking keeps the registry keyed by each node's own id. */
  lemma {:induction false} MarkedRegistered(g: GraphState, pairs: seq<(Id, Solution)>)
    requires Registered(g)
    ensures Registered(g.(nodes := Marked(g.nodes, pairs)))
  {
    var m := Marked(g.nodes, pairs);
    if pairs != [] {
      MarkedRegistered(g, pairs[..|pairs| - 1]);
    }
    assert forall k :: k in m.items ==> m.items[k].id == g.nodes.items[k].id;
  }

  /**
   * Recording and marking the same pairs, all of registered nodes, keeps the
   * dictionary and the nodes in step: a later pair for the same node
   * overwrites both.
   */
  lemma {:induction false} RecordedSynced(g: GraphState, solutions: OrderedMap<Id, Solution>, pairs: seq<(Id, Solution)>)
    requires Synced(g, solutions)
    requires forall i :: 0 <= i < |pairs| ==> pairs[i].0 in g.nodes.items
    ensures Synced(g.(nodes := Marked(g.nodes, pairs)), Recorded(solutions, pairs))
  {
    if pairs != [] {
      var init, last := pairs[..|pairs| - 1], pairs[|pairs| - 1];
      assert forall i :: 0 <= i < |init| ==> init[i] == pairs[i];
      RecordedSynced(g, solutions, init);
      var m := Marked(g.nodes, init);
      assert last.0 in m.items;
      SyncedStep(g.(nodes := m), Recorded(solutions, init), last.0, last.1);
    }
  }

  /** Marking one registered node and recording its solution keeps the two in step. */
  lemma {:induction false} SyncedStep(g: GraphState, solutions: OrderedMap<Id, Solution>, k: Id, s: Solution)
    requires Synced(g, solutions) && k in g.nodes.items
    ensures Synced(g.(nodes := g.nodes.Put(k, g.nodes.items[k].(solutionId := Some(s.id), status := Solved))), solutions.Put(k, s))
  {
  }

  /** Recording never loses a key, keeps the entries of keys no pair names, and adds exactly the pairs' keys. */
  lemma {:induction false} RecordedKeys(solutions: OrderedMap<Id, Solution>, pairs: seq<(Id, Solution)>, k: Id)
    ensures k in Recorded(solutions, pairs).items <==> k in solutions.items || exists i :: 0 <= i < |pairs| && pairs[i].0 == k
    ensures (forall i :: 0 <= i < |pairs| ==> pairs[i].0 != k) && k in solutions.items ==>
      Recorded(solutions, pairs).items[k] == solutions.items[k]
  {
    if pairs != [] {
      var init := pairs[..|pairs| - 1];
      RecordedKeys(solutions, init, k);
      assert forall i :: 0 <= i < |init| ==> init[i] == pairs[i];
      if exists i :: 0 <= i < |pairs| && pairs[i].0 == k {
        var i :| 0 <= i < |pairs| && pairs[i].0 == k;
        if i < |init| {
          assert init[i].0 == k;
        }
      }
    }
  }

  /** Recording pairs with distinct keys into an empty dictionary lists the keys in pair order, each with its solution. */
  lemma {:induction false} RecordedDistinct(pairs: seq<(Id, Solution)>)
    requires forall i, j :: 0 <= i < j < |pairs| ==> pairs[i].0 != pairs[j].0
    ensures |Recorded(EmptyMap(), pairs).keys| == |pairs|
    ensures forall i :: 0 <= i < |pairs| ==>
      Recorded(EmptyMap(), pairs).keys[i] == pairs[i].0 && Recorded(EmptyMap(), pairs).items[pairs[i].0] == pairs[i].1
  {
    if pairs != [] {
      var init, last := pairs[..|pairs| - 1], pairs[|pairs| - 1];
      RecordedDistinct(init);
      var r := Recorded(EmptyMap(), init);
      assert last.0 !in r.items by {
        RecordedKeys(EmptyMap(), init, last.0);
        assert forall i :: 0 <= i < |init| ==> init[i] == pairs[i];
      }
      var r' := Recorded(EmptyMap(), pairs);
      assert r' == r.Put(last.0, last.1);
      assert r'.keys == r.keys + [last.0] && r'.items == r.items[last.0 := last.1];
      forall i | 0 <= i < |pairs|
        ensures r'.keys[i] == pairs[i].0 && r'.items[pairs[i].0] == pairs[i].1
      {
        if i < |init| {
          assert init[i] == pairs[i];
          assert r'.keys[i] == r.keys[i];
        }
      }
    }
  }

  // ---------------------------------------------------------------------
  // The solve pass
  // ---------------------------------------------------------------------

  /**
   * `solve_single` without its writes to the requirement: a solution from
   * the knowledge base when the retrieval found text, else the proposer's.
   * The proposer is always given the empty context, since a successful
   * retrieval with text takes the other branch.
   */
  function SolveSingle(req: Requirement, a: Agents): (s: Solution)
    ensures var retrieval := a.retrieve(req.content, RetrievalTopK);
      Found(retrieval) ==>
        s.source == Existing && s.requirementId == req.id && s.content == retrieval.chunks
        && s.confidence == RetrievedConfidence && !s.isAggregated
    ensures !Found(a.retrieve(req.content, RetrievalTopK)) ==> s == a.propose(req, "")
  {
    var retrieval := a.retrieve(req.content, RetrievalTopK);
    if Found(retrieval) then
      Solution(a.mint(req.id), req.id, retrieval.chunks, Existing, RetrievedConfidence, false, [])
    else
      a.propose(req, ChunksOrEmpty(retrieval))
  }

  /** The `(req.id, solution)` results of solving each requirement, in order. */
  function SolvedPairs(reqs: seq<Requirement>, a: Agents): (pairs: seq<(Id, Solution)>)
    ensures |pairs| == |reqs|
  {
    if reqs == [] then []
    else
      var last := reqs[|reqs| - 1];
      SolvedPairs(reqs[..|reqs| - 1], a) + [(last.id, SolveSingle(last, a))]
  }

  lemma {:induction false} SolvedPairsAt(reqs: seq<Requirement>, a: Agents, i: nat)
    requires i < |reqs|
    ensures SolvedPairs(reqs, a)[i] == (reqs[i].id, SolveSingle(reqs[i], a))
  {
    if i < |reqs| - 1 {
      SolvedPairsAt(reqs[..|reqs| - 1], a, i);
    }
  }

  /** Solving one more requirement appends its pair. */
  lemma SolvedPairsSnoc(reqs: seq<Requirement>, i: nat, a: Agents)
    requires i < |reqs|
    ensures SolvedPairs(reqs[..i + 1], a) == SolvedPairs(reqs[..i], a) + [(reqs[i].id, SolveSingle(reqs[i], a))]
  {
    assert reqs[..i + 1][..i] == reqs[..i];
  }

  /** The atomic requirements of a graph state, in registration order. */
  function Atomic(g: GraphState): seq<Requirement> {
    Resolve(g.nodes.items, LeafIds(g.childrenMap, g.nodes.keys))
  }

  /**
   * `solve_atomic_requirements` on values: the new graph state (the atomic
   * count recorded, every solved node marked) and the solutions dictionary.
   */
  function SolvePass(g: GraphState, a: Agents): (r: (GraphState, OrderedMap<Id, Solution>))
    ensures r.0.atomicCount == |Atomic(g)|
    ensures r.0.rootId == g.rootId && r.0.childrenMap == g.childrenMap && r.0.levels == g.levels
    ensures r.0.nodes.keys == g.nodes.keys && r.0.nodes.items.Keys == g.nodes.items.Keys
  {
    var atomic := Atomic(g);
    var pairs := SolvedPairs(Dedup(atomic, IdOf), a);
    (g.(atomicCount := |atomic|, nodes := Marked(g.nodes, pairs)), Recorded(EmptyMap(), pairs))
  }

  /** The leaf ids of a list without repetitions have none either. */
  lemma {:induction false} LeafIdsDistinct(childrenMap: map<Id, seq<Id>>, ids: seq<Id>)
    requires Distinct(ids)
    ensures Distinct(LeafIds(childrenMap, ids))
  {
    if ids != [] {
      var init := ids[..|ids| - 1];
      LeafIdsDistinct(childrenMap, init);
      var l, last := LeafIds(childrenMap, init), ids[|ids| - 1];
      if IsLeaf(childrenMap, last) {
        assert last !in init;
        assert last !in l;
        assert LeafIds(childrenMap, ids) == l + [last];
        assert (l + [last])[..|l|] == l;
        assert (l + [last])[|l|] == last;
      } else {
        assert LeafIds(childrenMap, ids) == l;
      }
    }
  }

  /** The ids of the atomic requirements are the leaf ids of the registry, which are distinct. */
  lemma {:induction false} AtomicIds(g: GraphState)
    requires Registered(g)
    ensures Image(Atomic(g), IdOf) == LeafIds(g.childrenMap, g.nodes.keys)
    ensures forall i, j :: 0 <= i < j < |Image(Atomic(g), IdOf)| ==> Image(Atomic(g), IdOf)[i] != Image(Atomic(g), IdOf)[j]
  {
    var ids := LeafIds(g.childrenMap, g.nodes.keys);
    ResolveIds(g.nodes.items, ids);
    KnownOfRegistered(g.nodes.items, ids);
    LeafIdsDistinct(g.childrenMap, g.nodes.keys);
    DistinctPairwise(ids);
  }

  /**
   * The registry lists every node once, so the atomic requirements already
   * have distinct ids and the deduplication by id keeps them all, in order.
   */
  lemma {:induction false} AtomicUnique(g: GraphState)
    requires Registered(g)
    ensures forall i, j :: 0 <= i < j < |Atomic(g)| ==> Atomic(g)[i].id != Atomic(g)[j].id
    ensures Dedup(Atomic(g), IdOf) == Atomic(g)
  {
    AtomicIds(g);
    DistinctIds(Atomic(g));
    DedupOfDistinct(Atomic(g), IdOf);
  }

  /** Requirements whose list of ids has no repetition have pairwise distinct ids. */
  lemma {:induction false} DistinctIds(rs: seq<Requirement>)
    requires forall i, j :: 0 <= i < j < |Image(rs, IdOf)| ==> Image(rs, IdOf)[i] != Image(rs, IdOf)[j]
    ensures forall i, j :: 0 <= i < j < |rs| ==> IdOf(rs[i]) != IdOf(rs[j])
  {
    forall i, j | 0 <= i < j < |rs| ensures IdOf(rs[i]) != IdOf(rs[j]) {
      assert Image(rs, IdOf)[i] == rs[i].id && Image(rs, IdOf)[j] == rs[j].id;
    }
  }

  /**
   * The solve pass solves each atomic requirement exactly once, in
   * registration order: the dictionary's keys are the atomic ids in that
   * order, each with the solution `SolveSingle` gives its requirement, and
   * the atomic count is recorded.
   */
  lemma {:induction false} SolvePassSolvesEachOnce(g: GraphState, a: Agents)
    requires Registered(g)
    ensures var (g', solutions) := SolvePass(g, a);
      && solutions.keys == Image(Atomic(g), IdOf)
      && (forall n :: n in Atomic(g) ==> n.id in solutions.items && solutions.items[n.id] == SolveSingle(n, a))
      && g'.atomicCount == |Atomic(g)|
  {
    AtomicUnique(g);
    SolvedRecorded(Atomic(g), a);
  }

  /** Recording the solutions of requirements with distinct ids lists those ids in order, each with its requirement's solution. */
  lemma {:induction false} SolvedRecorded(reqs: seq<Requirement>, a: Agents)
    requires forall i, j :: 0 <= i < j < |reqs| ==> reqs[i].id != reqs[j].id
    ensures Recorded(EmptyMap(), SolvedPairs(reqs, a)).keys == Image(reqs, IdOf)
    ensures forall n :: n in reqs ==>
      n.id in Recorded(EmptyMap(), SolvedPairs(reqs, a)).items && Recorded(EmptyMap(), SolvedPairs(reqs, a)).items[n.id] == SolveSingle(n, a)
  {
    var pairs := SolvedPairs(reqs, a);
    forall i | 0 <= i < |reqs| ensures pairs[i] == (reqs[i].id, SolveSingle(reqs[i], a)) {
      SolvedPairsAt(reqs, a, i);
    }
    RecordedByIds(reqs, pairs);
    forall n | n in reqs
      ensures n.id in Recorded(EmptyMap(), pairs).items && Recorded(EmptyMap(), pairs).items[n.id] == SolveSingle(n, a)
    {
      var i :| 0 <= i < |reqs| && reqs[i] == n;
      assert pairs[i].1 == SolveSingle(n, a);
    }
  }

  /** Recording pairs keyed by the distinct ids of `reqs`, in order, lists those ids, each with its pair's solution. */
  lemma {:induction false} RecordedByIds(reqs: seq<Requirement>, pairs: seq<(Id, Solution)>)
    requires |pairs| == |reqs|
    requires forall i :: 0 <= i < |reqs| ==> pairs[i].0 == reqs[i].id
    requires forall i, j :: 0 <= i < j < |reqs| ==> reqs[i].id != reqs[j].id
    ensures Recorded(EmptyMap(), pairs).keys == Image(reqs, IdOf)
    ensures forall i :: 0 <= i < |reqs| ==>
      reqs[i].id in Recorded(EmptyMap(), pairs).items && Recorded(EmptyMap(), pairs).items[reqs[i].id] == pairs[i].1
  {
    RecordedDistinct(pairs);
    var solutions := Recorded(EmptyMap(), pairs);
    assert solutions.keys == Image(reqs, IdOf) by {
      forall i | 0 <= i < |reqs| ensures solutions.keys[i] == Image(reqs, IdOf)[i] {
        assert solutions.keys[i] == pairs[i].0;
      }
    }
  }

  /**
   * After the solve pass every solution is written into its atomic
   * requirement, which is SOLVED, and the registry keeps its shape.
   */
  lemma {:induction false} SolvePassSynced(g: GraphState, a: Agents)
    requires Registered(g)
    ensures Registered(SolvePass(g, a).0) && Synced(SolvePass(g, a).0, SolvePass(g, a).1)
  {
    var atomic := Atomic(g);
    AtomicUnique(g);
    var pairs := SolvedPairs(atomic, a);
    forall i | 0 <= i < |pairs| ensures pairs[i].0 in g.nodes.items {
      SolvedPairsAt(atomic, a, i);
      assert atomic[i] in g.nodes.items.Values;
    }
    RecordedSynced(g.(atomicCount := |atomic|), EmptyMap(), pairs);
    MarkedRegistered(g.(atomicCount := |atomic|), pairs);
  }

  /** Every atomic requirement is a registered node. */
  lemma {:induction false} AtomicRegistered(g: GraphState, n: Requirement)
    requires Registered(g) && n in Atomic(g)
    ensures n.id in g.nodes.items && g.nodes.items[n.id] == n
  {
    ResolveMembership(g.nodes.items, LeafIds(g.childrenMap, g.nodes.keys), n);
  }

  /**
   * `solve_atomic_requirements`: collect the atomic requirements, drop
   * repeated ids, solve each (marking its node), then build the dictionary.
   */
  method SolveAtomicRequirements(graph: RequirementGraph, a: Agents) returns (solutions: OrderedMap<Id, Solution>)
    requires graph.Valid()
    modifies graph
    ensures (graph.State(), solutions) == SolvePass(old(graph.State()), a)
  {
    var atomic := graph.GetAtomicRequirements();
    var unique := DedupByKey(atomic, IdOf);
    DedupProperties(atomic, IdOf);
    forall r | r in unique ensures r.id in graph.nodes.items {
      AtomicRegistered(old(graph.State()), r);
    }
    var results := SolveEach(graph, unique, a);
    solutions := Collect(results);
  }

  /** The gathered `solve_single` calls, in list order: solve each requirement and mark its node. */
  method SolveEach(graph: RequirementGraph, reqs: seq<Requirement>, a: Agents) returns (results: seq<(Id, Solution)>)
    requires forall r :: r in reqs ==> r.id in graph.nodes.items
    modifies graph
    ensures results == SolvedPairs(reqs, a)
    ensures graph.State() == old(graph.State()).(nodes := Marked(old(graph.nodes), results))
  {
    results := [];
    for i := 0 to |reqs|
      invariant results == SolvedPairs(reqs[..i], a)
      invariant graph.State() == old(graph.State()).(nodes := Marked(old(graph.nodes), results))
    {
      SolvedPairsSnoc(reqs, i, a);
      var req := reqs[i];
      assert req in reqs;
      var solution := SolveSingle(req, a);
      MarkedSnoc(old(graph.nodes), results, (req.id, solution));
      graph.SetSolved(req.id, solution.id);
      results := results + [(req.id, solution)];
    }
    assert reqs[..|reqs|] == reqs;
  }

  /** The loop building the dictionary from the results. */
  method Collect(results: seq<(Id, Solution)>) returns (solutions: OrderedMap<Id, Solution>)
    ensures solutions == Recorded(EmptyMap(), results)
  {
    solutions := EmptyMap();
    for i := 0 to |results|
      invariant solutions == Recorded(EmptyMap(), results[..i])
    {
      assert results[..i + 1][..i] == results[..i];
      solutions := solutions.Put(results[i].0, results[i].1);
    }
    assert results[..|results|] == results;
  }

  // ---------------------------------------------------------------------
  // The aggregate pass
  // ---------------------------------------------------------------------

  /** The result of `aggregate_single` for a node it solves. */
  datatype Aggregated = Aggregated(nodeId: Id, solution: Solution, gaps: seq<string>)

  /** `[solutions[c.id] for c in children if c.id in solutions]` */
  function SolutionsOfChildren(children: seq<Requirement>, solutions: map<Id, Solution>): (r: seq<Solution>)
    ensures |r| <= |children|
  {
    if children == [] then []
    else
      var last := children[|children| - 1];
      SolutionsOfChildren(children[..|children| - 1], solutions) + (if last.id in solutions then [solutions[last.id]] else [])
  }

  lemma {:induction false} SolutionsOfChildrenMembership(children: seq<Requirement>, solutions: map<Id, Solution>, s: Solution)
    ensures s in SolutionsOfChildren(children, solutions) <==> exists c :: c in children && c.id in solutions && solutions[c.id] == s
  {
    if children != [] {
      var init := children[..|children| - 1];
      SolutionsOfChildrenMembership(init, solutions, s);
      if exists c :: c in children && c.id in solutions && solutions[c.id] == s {
        var c :| c in children && c.id in solutions && solutions[c.id] == s;
        if c != children[|children| - 1] {
          assert c in init;
        }
      }
    }
  }

  /**
   * `aggregate_single` on values: a node that already has a solution, or
   * none of whose registered children has one, is skipped; otherwise the
   * children's solutions, without repeated solution ids, are aggregated
   * with the knowledge retrieved for the node.
   */
  function AggregatedNode(g: GraphState, solutions: map<Id, Solution>, node: Requirement, a: Agents): (r: Option<Aggregated>)
    ensures r.None? <==> node.id in solutions || SolutionsOfChildren(ChildrenOf(g, node.id), solutions) == []
    ensures r.Some? ==> r.value.nodeId == node.id && r.value.solution.requirementId == node.id && r.value.solution.isAggregated
  {
    if node.id in solutions then None
    else
      var childSolutions := SolutionsOfChildren(ChildrenOf(g, node.id), solutions);
      if childSolutions == [] then None
      else
        var unique := Dedup(childSolutions, SolutionIdOf);
        var knowledge := ChunksOrEmpty(a.retrieve(node.content, RetrievalTopK));
        Aggregator.AggregateCombines(node, unique, knowledge, a.model, a.mint(node.id));
        var out := Aggregator.Aggregate(node, unique, knowledge, a.model, a.mint(node.id));
        Some(Aggregated(node.id, out.solution, out.gaps))
  }

  /**
   * The aggregated solution of a node names each child solution once, in
   * first-seen order: its `childSolutionIds` are distinct and are exactly
   * the ids of the solutions of the node's registered children.
   */
  lemma {:induction false} AggregatedChildIds(g: GraphState, solutions: map<Id, Solution>, node: Requirement, a: Agents, id: Id)
    requires AggregatedNode(g, solutions, node, a).Some?
    ensures var ids := AggregatedNode(g, solutions, node, a).value.solution.childSolutionIds;
      && (forall i, j :: 0 <= i < j < |ids| ==> ids[i] != ids[j])
      && (id in ids <==> exists c :: c in ChildrenOf(g, node.id) && c.id in solutions && solutions[c.id].id == id)
  {
    var childSolutions := SolutionsOfChildren(ChildrenOf(g, node.id), solutions);
    var unique := Dedup(childSolutions, SolutionIdOf);
    var knowledge := ChunksOrEmpty(a.retrieve(node.content, RetrievalTopK));
    Aggregator.AggregateCombines(node, unique, knowledge, a.model, a.mint(node.id));
    assert AggregatedNode(g, solutions, node, a).value.solution.childSolutionIds == Image(unique, SolutionIdOf);
    DedupSolutionIds(childSolutions, id);
    if exists s :: s in childSolutions && s.id == id {
      var s :| s in childSolutions && s.id == id;
      SolutionsOfChildrenMembership(ChildrenOf(g, node.id), solutions, s);
    }
    if exists c :: c in ChildrenOf(g, node.id) && c.id in solutions && solutions[c.id].id == id {
      var c :| c in ChildrenOf(g, node.id) && c.id in solutions && solutions[c.id].id == id;
      SolutionsOfChildrenMembership(ChildrenOf(g, node.id), solutions, solutions[c.id]);
    }
  }

  /** Deduplicating solutions by id leaves distinct ids, and exactly the ids that occur. */
  lemma {:induction false} DedupSolutionIds(xs: seq<Solution>, id: Id)
    ensures var ids := Image(Dedup(xs, SolutionIdOf), SolutionIdOf);
      && (forall i, j :: 0 <= i < j < |ids| ==> ids[i] != ids[j])
      && (id in ids <==> exists s :: s in xs && s.id == id)
  {
    var unique := Dedup(xs, SolutionIdOf);
    var ids := Image(unique, SolutionIdOf);
    DedupProperties(xs, SolutionIdOf);
    assert forall i :: 0 <= i < |ids| ==> ids[i] == SolutionIdOf(unique[i]);
    if id in ids {
      var i :| 0 <= i < |ids| && ids[i] == id;
      assert unique[i] in xs;
    }
    if exists s :: s in xs && s.id == id {
      var s :| s in xs && s.id == id;
      var k :| 0 <= k < |xs| && xs[k] == s;
      assert id in KeysOf(xs, SolutionIdOf);
      assert id in KeysOf(unique, SolutionIdOf);
      var i :| 0 <= i < |unique| && SolutionIdOf(unique[i]) == id;
      assert ids[i] == id;
    }
  }

  /** `aggregate_single`: the same steps, deduplicating with the loop and aggregating with the aggregator agent. */
  method AggregateSingle(graph: RequirementGraph, solutions: map<Id, Solution>, node: Requirement, a: Agents)
    returns (r: Option<Aggregated>)
    ensures r == AggregatedNode(graph.State(), solutions, node, a)
  {
    if node.id in solutions {
      return None;
    }
    var childSolutions := SolutionsOfChildren(graph.GetChildren(node.id), solutions);
    if childSolutions == [] {
      return None;
    }
    var unique := DedupByKey(childSolutions, SolutionIdOf);
    var retrieval := a.retrieve(node.content, RetrievalTopK);
    var knowledge := ChunksOrEmpty(retrieval);
    var out := Aggregator.Execute(node, unique, knowledge, a.model, a.mint(node.id));
    r := Some(Aggregated(node.id, out.solution, out.gaps));
  }

  /** `[n for n in graph.get_level_nodes(level) if graph.get_children(n.id)]` */
  function NonLeafNodes(g: GraphState, level: int): (r: seq<Requirement>) {
    Filter(LevelNodesOf(g, level), (n: Requirement) => ChildrenOf(g, n.id) != [])
  }

  /** The values of the calls that returned one, in order: `[r for r in results if r is not None]`. */
  function Gathered<T, R>(xs: seq<T>, f: T -> Option<R>): (r: seq<R>)
    ensures |r| <= |xs|
  {
    if xs == [] then []
    else
      var last := f(xs[|xs| - 1]);
      Gathered(xs[..|xs| - 1], f) + (if last.Some? then [last.value] else [])
  }

  /**
   * Gathering is independent per element: the results for two lists are
   * those of each, so no element's result depends on the ones before it.
   */
  lemma {:induction false} GatheredAppend<T, R>(xs: seq<T>, ys: seq<T>, f: T -> Option<R>)
    ensures Gathered(xs + ys, f) == Gathered(xs, f) + Gathered(ys, f)
    decreases |ys|
  {
    if ys == [] {
      assert xs + ys == xs;
    } else {
      assert (xs + ys)[..|xs + ys| - 1] == xs + ys[..|ys| - 1];
      GatheredAppend(xs, ys[..|ys| - 1], f);
    }
  }

  /** Every gathered value is the result of the call on some element. */
  lemma {:induction false} GatheredFrom<T, R>(xs: seq<T>, f: T -> Option<R>, i: nat)
    requires i < |Gathered(xs, f)|
    ensures exists x :: x in xs && f(x) == Some(Gathered(xs, f)[i])
  {
    var init := xs[..|xs| - 1];
    if i < |Gathered(init, f)| {
      GatheredFrom(init, f, i);
      var x :| x in init && f(x) == Some(Gathered(init, f)[i]);
      assert x in xs;
    } else {
      assert xs[|xs| - 1] in xs;
    }
  }

  /** The results of a level, all computed from the same `solutions`, the skipped nodes dropped. */
  function LevelResults(g: GraphState, solutions: map<Id, Solution>, nodes: seq<Requirement>, a: Agents): (r: seq<Aggregated>)
    ensures |r| <= |nodes|
  {
    Gathered(nodes, (n: Requirement) => AggregatedNode(g, solutions, n, a))
  }

  /** Every result of a level is for a node of the list that had no solution yet. */
  lemma {:induction false} LevelResultsFrom(g: GraphState, solutions: map<Id, Solution>, nodes: seq<Requirement>, a: Agents, i: nat)
    requires i < |LevelResults(g, solutions, nodes, a)|
    ensures var r := LevelResults(g, solutions, nodes, a)[i];
      exists n :: n in nodes && n.id == r.nodeId && n.id !in solutions && AggregatedNode(g, solutions, n, a) == Some(r)
  {
    GatheredFrom(nodes, (n: Requirement) => AggregatedNode(g, solutions, n, a), i);
  }

  /** The `(node_id, solution)` part of each result. */
  function Pairs(results: seq<Aggregated>): (pairs: seq<(Id, Solution)>)
    ensures |pairs| == |results|
    ensures forall i :: 0 <= i < |results| ==> pairs[i] == (results[i].nodeId, results[i].solution)
  {
    seq(|results|, i requires 0 <= i < |results| => (results[i].nodeId, results[i].solution))
  }

  /** One level of `aggregate_solutions`: aggregate its composite nodes from the current solutions, then merge the results. */
  function LevelStep(g: GraphState, solutions: OrderedMap<Id, Solution>, level: int, a: Agents): (r: (GraphState, OrderedMap<Id, Solution>))
    ensures r.0.rootId == g.rootId && r.0.childrenMap == g.childrenMap && r.0.levels == g.levels
    ensures r.0.nodes.keys == g.nodes.keys && r.0.nodes.items.Keys == g.nodes.items.Keys
    ensures r.0.atomicCount == g.atomicCount
    ensures solutions.Valid() ==> r.1.Valid()
  {
    var pairs := Pairs(LevelResults(g, solutions.items, NonLeafNodes(g, level), a));
    (g.(nodes := Marked(g.nodes, pairs)), Recorded(solutions, pairs))
  }

  /** `aggregate_solutions` on values: the levels `level`, `level - 1`, ..., 0 in turn. */
  function Passed(g: GraphState, solutions: OrderedMap<Id, Solution>, level: int, a: Agents): (r: (GraphState, OrderedMap<Id, Solution>))
    ensures r.0.rootId == g.rootId && r.0.childrenMap == g.childrenMap && r.0.levels == g.levels
    ensures r.0.nodes.keys == g.nodes.keys && r.0.nodes.items.Keys == g.nodes.items.Keys
    ensures r.0.atomicCount == g.atomicCount
    ensures solutions.Valid() ==> r.1.Valid()
    decreases level + 1
  {
    if level < 0 then (g, solutions)
    else
      var (g', solutions') := LevelStep(g, solutions, level, a);
      Passed(g', solutions', level - 1, a)
  }

  /** A node aggregated at a level is a registered, composite node indexed under that level, without a prior solution. */
  lemma {:induction false} LevelStepAdds(g: GraphState, solutions: OrderedMap<Id, Solution>, level: int, a: Agents, i: nat)
    requires Registered(g)
    requires i < |LevelResults(g, solutions.items, NonLeafNodes(g, level), a)|
    ensures var k := LevelResults(g, solutions.items, NonLeafNodes(g, level), a)[i].nodeId;
      && k in g.nodes.items && k !in solutions.items
      && k in GetOr(g.levels, level, [])
      && exists c :: c in GetOr(g.childrenMap, k, []) && c in g.nodes.items
  {
    var nodes := NonLeafNodes(g, level);
    LevelResultsFrom(g, solutions.items, nodes, a, i);
    var r := LevelResults(g, solutions.items, nodes, a)[i];
    var n :| n in nodes && n.id == r.nodeId && n.id !in solutions.items && AggregatedNode(g, solutions.items, n, a) == Some(r);
    FilterMembership(LevelNodesOf(g, level), (n: Requirement) => ChildrenOf(g, n.id) != [], n);
    ResolveMembership(g.nodes.items, GetOr(g.levels, level, []), n);
    ResolveNonEmpty(g.nodes.items, GetOr(g.childrenMap, n.id, []));
  }

  /** One level keeps the registry's shape and the agreement between the dictionary and the nodes. */
  lemma {:induction false} LevelStepSynced(g: GraphState, solutions: OrderedMap<Id, Solution>, level: int, a: Agents)
    requires Registered(g) && Synced(g, solutions)
    ensures Registered(LevelStep(g, solutions, level, a).0) && Synced(LevelStep(g, solutions, level, a).0, LevelStep(g, solutions, level, a).1)
  {
    var results := LevelResults(g, solutions.items, NonLeafNodes(g, level), a);
    var pairs := Pairs(results);
    forall i | 0 <= i < |pairs| ensures pairs[i].0 in g.nodes.items {
      LevelStepAdds(g, solutions, level, a, i);
    }
    RecordedSynced(g, solutions, pairs);
    MarkedRegistered(g, pairs);
  }

  /**
   * Level `level` merges its results before level `level - 1` starts:
   * every node aggregated at a level has its solution in the dictionary the
   * next level reads, and solutions present before the level are kept.
   */
  lemma {:induction false} LevelStepMerges(g: GraphState, solutions: OrderedMap<Id, Solution>, level: int, a: Agents, k: Id)
    ensures var results := LevelResults(g, solutions.items, NonLeafNodes(g, level), a);
      var next := LevelStep(g, solutions, level, a).1;
      && ((exists i :: 0 <= i < |results| && results[i].nodeId == k) ==> k in next.items)
      && (k in solutions.items ==> k in next.items && next.items[k] == solutions.items[k])
  {
    var results := LevelResults(g, solutions.items, NonLeafNodes(g, level), a);
    var pairs := Pairs(results);
    RecordedKeys(solutions, pairs, k);
    if k in solutions.items {
      forall i | 0 <= i < |pairs| ensures pairs[i].0 != k {
        LevelResultsFrom(g, solutions.items, NonLeafNodes(g, level), a, i);
      }
    }
  }

  /**
   * The aggregate pass keeps every solution it was given, and each solution
   * it adds is for a registered node with a registered child, indexed under
   * one of the levels `level`, ..., 0.
   */
  lemma {:induction false} PassedKeepsAndAdds(g: GraphState, solutions: OrderedMap<Id, Solution>, level: int, a: Agents, k: Id)
    requires Registered(g)
    ensures var out := Passed(g, solutions, level, a).1;
      && (k in solutions.items ==> k in out.items && out.items[k] == solutions.items[k])
      && (k in out.items && k !in solutions.items ==>
            && k in g.nodes.items
            && (exists c :: c in GetOr(g.childrenMap, k, []) && c in g.nodes.items)
            && exists l :: 0 <= l <= level && k in GetOr(g.levels, l, []))
    decreases level + 1
  {
    if level >= 0 {
      var (g', solutions') := LevelStep(g, solutions, level, a);
      LevelStepMerges(g, solutions, level, a, k);
      MarkedRegistered(g, Pairs(LevelResults(g, solutions.items, NonLeafNodes(g, level), a)));
      PassedKeepsAndAdds(g', solutions', level - 1, a, k);
      if k !in solutions.items && k in solutions'.items {
        var results := LevelResults(g, solutions.items, NonLeafNodes(g, level), a);
        RecordedKeys(solutions, Pairs(results), k);
        var i :| 0 <= i < |results| && results[i].nodeId == k;
        LevelStepAdds(g, solutions, level, a, i);
      }
    }
  }

  /** The aggregate pass keeps the registry's shape and writes every solution into its node. */
  lemma {:induction false} PassedSynced(g: GraphState, solutions: OrderedMap<Id, Solution>, level: int, a: Agents)
    requires Registered(g) && Synced(g, solutions)
    ensures Registered(Passed(g, solutions, level, a).0) && Synced(Passed(g, solutions, level, a).0, Passed(g, solutions, level, a).1)
    decreases level + 1
  {
    if level >= 0 {
      LevelStepSynced(g, solutions, level, a);
      var (g', solutions') := LevelStep(g, solutions, level, a);
      PassedSynced(g', solutions', level - 1, a);
    }
  }

  /**
   * The workflow's two passes: after solving the atomic requirements and
   * aggregating from level `max_depth - 1` up, every requirement with a
   * solution records that solution's id and is SOLVED, and every atomic
   * requirement has its solution.
   */
  lemma {:induction false} WorkflowSynced(g: GraphState, a: Agents)
    requires Registered(g)
    ensures var (g1, s1) := SolvePass(g, a);
      var (g2, s2) := Passed(g1, s1, g1.maxDepth - 1, a);
      && Synced(g2, s2)
      && forall n :: n in Atomic(g) ==> n.id in s2.items && s2.items[n.id] == SolveSingle(n, a)
  {
    var (g1, s1) := SolvePass(g, a);
    SolvePassSynced(g, a);
    PassedSynced(g1, s1, g1.maxDepth - 1, a);
    SolvePassSolvesEachOnce(g, a);
    forall n | n in Atomic(g)
      ensures n.id in Passed(g1, s1, g1.maxDepth - 1, a).1.items
      ensures Passed(g1, s1, g1.maxDepth - 1, a).1.items[n.id] == SolveSingle(n, a)
    {
      PassedKeepsAndAdds(g1, s1, g1.maxDepth - 1, a, n.id);
    }
  }

  /** `aggregate_solutions`: each level from `max_depth - 1` down to 0 aggregates, then merges. */
  method AggregateSolutions(graph: RequirementGraph, solutions: OrderedMap<Id, Solution>, a: Agents)
    returns (result: OrderedMap<Id, Solution>)
    requires graph.Valid()
    modifies graph
    ensures (graph.State(), result) == Passed(old(graph.State()), solutions, old(graph.maxDepth) - 1, a)
  {
    result := solutions;
    var level := graph.maxDepth - 1;
    while level >= 0
      invariant graph.Valid()
      invariant Passed(graph.State(), result, level, a) == Passed(old(graph.State()), solutions, old(graph.maxDepth) - 1, a)
      decreases level + 1
    {
      result := AggregateLevel(graph, result, level, a);
      level := level - 1;
    }
  }

  /** One iteration of the level loop: aggregate the level's composite nodes, then merge the results. */
  method AggregateLevel(graph: RequirementGraph, solutions: OrderedMap<Id, Solution>, level: int, a: Agents)
    returns (result: OrderedMap<Id, Solution>)
    requires graph.Valid()
    modifies graph
    ensures graph.Valid()
    ensures (graph.State(), result) == LevelStep(old(graph.State()), solutions, level, a)
  {
    var nodes := NonLeafNodes(graph.State(), level);
    var results := AggregateEach(graph, solutions.items, nodes, a);
    forall i | 0 <= i < |results| ensures results[i].nodeId in graph.nodes.items {
      LevelStepAdds(graph.State(), solutions, level, a, i);
    }
    result := MergeResults(graph, solutions, results);
    MarkedRegistered(old(graph.State()), Pairs(results));
  }

  /** The gathered `aggregate_single` calls of a level, all reading the same `solutions`. */
  method AggregateEach(graph: RequirementGraph, solutions: map<Id, Solution>, nodes: seq<Requirement>, a: Agents)
    returns (results: seq<Aggregated>)
    ensures results == LevelResults(graph.State(), solutions, nodes, a)
  {
    results := [];
    for i := 0 to |nodes|
      invariant results == LevelResults(graph.State(), solutions, nodes[..i], a)
    {
      assert nodes[..i + 1][..i] == nodes[..i];
      var r := AggregateSingle(graph, solutions, nodes[i], a);
      if r.Some? {
        results := results + [r.value];
      }
    }
    assert nodes[..|nodes|] == nodes;
  }

  /** The merge after a level: mark each aggregated node and record its solution, in result order. */
  method MergeResults(graph: RequirementGraph, solutions: OrderedMap<Id, Solution>, results: seq<Aggregated>)
    returns (result: OrderedMap<Id, Solution>)
    requires forall i :: 0 <= i < |results| ==> results[i].nodeId in graph.nodes.items
    modifies graph
    ensures graph.State() == old(graph.State()).(nodes := Marked(old(graph.nodes), Pairs(results)))
    ensures result == Recorded(solutions, Pairs(results))
  {
    result := solutions;
    ghost var pairs := Pairs(results);
    for i := 0 to |results|
      invariant graph.State() == old(graph.State()).(nodes := Marked(old(graph.nodes), pairs[..i]))
      invariant result == Recorded(solutions, pairs[..i])
    {
      PrefixSnoc(pairs, i);
      MarkedSnoc(old(graph.nodes), pairs[..i], pairs[i]);
      graph.SetSolved(results[i].nodeId, results[i].solution.id);
      result := result.Put(results[i].nodeId, results[i].solution);
    }
    assert pairs[..|results|] == pairs;
  }
}
