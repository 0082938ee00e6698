/**
 * The decomposition driver. Starting from the hypothesis it builds the
 * requirement graph top-down: each node below `MaxLevel` is split by a model
 * into sub-problems; each sub-problem is either recognised as an existing node
 * one level down (and linked to it) or created, indexed and expanded in turn.
 *
 * The model, its JSON decoding, the embedding similarity and the similarity
 * judge are functions supplied by the caller. Concurrent expansion of siblings
 * is done one sibling after another, in list order: first every sub-problem of
 * a node is processed, then each newly created child is expanded.
 */
module Decomposer {
  import opened Wrappers
  import opened Collections
  import opened Text
  import opened Requirements
  import opened RequirementStore
  import SimilarityChecker
  import opened DecompositionInvariant

  const DefaultTopK: nat := 5
  const DefaultThreshold: real := 0.75

  datatype Hypothesis = Hypothesis(originalText: string, refinedText: Option<string>)

  /** The text the root starts from: the refined hypothesis when there is a non-empty one, else the original. */
  function RootText(h: Hypothesis): (t: string)
    ensures h.refinedText.Some? && h.refinedText.value != [] ==> t == h.refinedText.value
    ensures h.refinedText.None? || h.refinedText.value == [] ==> t == h.originalText
  {
    match h.refinedText
    case Some(t) => if t != [] then t else h.originalText
    case None => h.originalText
  }

  /** The root's content: the root text stripped, then without trailing question marks. */
  function RootContent(h: Hypothesis): (r: string)
    ensures r <= Strip(RootText(h))
    ensures r == [] || (!IsSpace(r[0]) && r[|r| - 1] != '?')
    ensures forall i :: |r| <= i < |Strip(RootText(h))| ==> Strip(RootText(h))[i] == '?'
  {
    TrimEndChar(Strip(RootText(h)), '?')
  }

  /** The decoded reply of the decomposition model; `subProblems` is absent when the key is. */
  datatype SubProblems = SubProblems(subProblems: Option<seq<string>>)

  /** The caller-supplied stand-ins for the model calls, JSON decoding and embeddings. */
  datatype Oracles = Oracles(
    decompose: string -> string,
    decodeSubProblems: string -> Option<SubProblems>,
    similarity: (string, string) -> real,
    judge: string -> string,
    decodeVerdict: string -> Option<SimilarityChecker.Verdict>)

  /**
   * The sub-problems read from a reply: the `sub_problems` list, an empty list
   * when the key is missing, and an empty list, as for an atomic requirement,
   * when the reply does not decode.
   */
  function ParseSubProblems(reply: string, decode: string -> Option<SubProblems>): seq<string> {
    match decode(Strip(reply))
    case None => []
    case Some(d) => d.subProblems.GetOr([])
  }

  /** An undecodable reply or a missing key reads as no sub-problems; any sub-problem read was in the decoded list. */
  lemma {:induction false} ParseSubProblemsCases(reply: string, decode: string -> Option<SubProblems>)
    ensures var r := ParseSubProblems(reply, decode);
      && (decode(Strip(reply)).None? ==> r == [])
      && (decode(Strip(reply)).Some? && decode(Strip(reply)).value.subProblems.None? ==> r == [])
      && (r != [] ==> decode(Strip(reply)) == Some(SubProblems(Some(r))))
  {
  }

  /** `decompose_single` */
  function DecomposeSingle(req: Requirement, o: Oracles): seq<string> {
    ParseSubProblems(o.decompose(req.content), o.decodeSubProblems)
  }

  /** `r` extends `g`: same root with the same value, and every node of `g` is still there at its level. */
  ghost predicate Grows(g: GraphState, r: GraphState) {
    && r.rootId == g.rootId
    && (g.rootId in g.nodes.items ==> g.rootId in r.nodes.items && r.nodes.items[g.rootId] == g.nodes.items[g.rootId])
    && forall k :: k in g.nodes.items ==> k in r.nodes.items && r.nodes.items[k].level == g.nodes.items[k].level
  }

  lemma {:induction false} GrowsTransitive(a: GraphState, b: GraphState, c: GraphState)
    requires Grows(a, b) && Grows(b, c)
    ensures Grows(a, c)
  {
  }

  /** A session starts from the root alone, registered and indexed. */
  lemma {:induction false} ConsistentAtStart(content: string, nextId: Id)
    ensures var root := NewRequirement(nextId, content, 0, []);
      Consistent(NodeAdded(EmptyGraph(root.id), root), EmptyMap<Id, Point>().Put(root.id, PointOf(root)), nextId + 1)
  {
    var root := NewRequirement(nextId, content, 0, []);
    var g := NodeAdded(EmptyGraph(root.id), root);
    var points := EmptyMap<Id, Point>().Put(root.id, PointOf(root));
    assert g.nodes == OrderedMap([nextId], map[nextId := root]);
    assert g.childrenMap == map[nextId := []];
    assert points == OrderedMap([nextId], map[nextId := PointOf(root)]);
    assert WellFormed(g) && Rooted(g);
    assert Indexed(g, points);
  }

  /** The child `process_child` creates: the next fresh id, one level below its parent, with that parent only. */
  lemma {:induction false} CreateRegisters(s: Session, parent: Requirement, text: string)
    requires Placed(s.graph, parent) && Bounded(s.graph, s.nextId)
    ensures var r := Created(s, parent, text);
      && r.1 == Some(NewRequirement(s.nextId, text, parent.level + 1, [parent.id]))
      && s.nextId !in s.graph.nodes.items
      && r.0.graph.nodes.items == s.graph.nodes.items[s.nextId := r.1.value]
  {
    var child := NewRequirement(s.nextId, text, parent.level + 1, [parent.id]);
    assert WithParent(child, parent.id) == child;
  }

  lemma {:induction false} CreateKeepsShape(s: Session, parent: Requirement, text: string)
    requires Rooted(s.graph) && Bounded(s.graph, s.nextId)
    requires Placed(s.graph, parent) && parent.level < MaxLevel
    ensures var r := Created(s, parent, text).0;
      Rooted(r.graph) && Bounded(r.graph, r.nextId) && Grows(s.graph, r.graph)
  {
    CreateRegisters(s, parent, text);
  }

  lemma {:induction false} CreateKeepsIndex(s: Session, parent: Requirement, text: string)
    requires Indexed(s.graph, s.points) && Bounded(s.graph, s.nextId)
    requires Placed(s.graph, parent)
    ensures var r := Created(s, parent, text).0;
      Indexed(r.graph, r.points)
  {
    CreateRegisters(s, parent, text);
    var r := Created(s, parent, text).0;
    forall k | k in r.points.items
      ensures r.points.items[k] == PointOf(r.graph.nodes.items[k])
    {
      if k != s.nextId {
        assert r.points.items[k] == s.points.items[k];
      }
    }
  }

  lemma {:induction false} CreateKeepsLevels(s: Session, parent: Requirement, text: string)
    requires WellFormed(s.graph) && Bounded(s.graph, s.nextId)
    requires Placed(s.graph, parent)
    ensures WellFormed(Created(s, parent, text).0.graph)
  {
    CreateRegisters(s, parent, text);
    ChildAddedKeepsLevels(s.graph, parent.id, Created(s, parent, text).1.value);
  }

  /**
   * Creating a fresh child one level below a placed node that is not at the
   * bottom level keeps the invariant and every node where it was, and places
   * the child.
   */
  lemma {:induction false} CreatedKeepsConsistent(s: Session, parent: Requirement, text: string)
    requires Consistent(s.graph, s.points, s.nextId)
    requires Placed(s.graph, parent) && parent.level < MaxLevel
    ensures var r := Created(s, parent, text);
      && Consistent(r.0.graph, r.0.points, r.0.nextId)
      && Grows(s.graph, r.0.graph)
      && r.1.Some? && Placed(r.0.graph, r.1.value) && r.1.value.level == parent.level + 1
  {
    CreateRegisters(s, parent, text);
    CreateKeepsLevels(s, parent, text);
    CreateKeepsShape(s, parent, text);
    CreateKeepsIndex(s, parent, text);
  }

  /** Linking under a placed node a node the store holds one level below it keeps the invariant. */
  lemma {:induction false} LinkedKeepsConsistent(s: Session, parent: Requirement, id: Id)
    requires Consistent(s.graph, s.points, s.nextId)
    requires Placed(s.graph, parent) && IndexedAt(s.points, id, parent.level + 1)
    ensures var g := ChildLinked(s.graph, parent.id, id);
      Consistent(g, s.points, s.nextId) && Grows(s.graph, g)
  {
    var k :| k in s.points.items && s.points.items[k].requirementId == id && s.points.items[k].level == parent.level + 1;
    assert PointOf(s.graph.nodes.items[k]) == s.points.items[k];
    ChildLinkedKeepsLevels(s.graph, parent.id, id);
    LinkedKeepsShape(s, parent.id, id);
  }

  /** Linking a node other than the root changes no id, content or level, so the store still indexes the graph. */
  lemma {:induction false} LinkedKeepsShape(s: Session, parentId: Id, id: Id)
    requires Rooted(s.graph) && Bounded(s.graph, s.nextId) && Indexed(s.graph, s.points)
    requires id != s.graph.rootId
    ensures var g := ChildLinked(s.graph, parentId, id);
      Rooted(g) && Bounded(g, s.nextId) && Indexed(g, s.points) && Grows(s.graph, g)
  {
    var g := ChildLinked(s.graph, parentId, id);
    ChildLinkedSpec(s.graph, parentId, id);
    forall k | k in s.points.items
      ensures s.points.items[k] == PointOf(g.nodes.items[k])
    {
      assert PointOf(g.nodes.items[k]) == PointOf(s.graph.nodes.items[k]);
    }
  }

  /** What the driver holds between steps: the graph being built, the store's points and the next fresh id. */
  datatype Session = Session(graph: GraphState, points: OrderedMap<Id, Point>, nextId: Id)

  /** `Consistent` of a whole session. */
  ghost predicate Invariant(s: Session) {
    Consistent(s.graph, s.points, s.nextId)
  }

  /** The session right after `execute` has registered and indexed the root, numbered `nextId`. */
  function Started(nextId: Id, h: Hypothesis): Session {
    var root := NewRequirement(nextId, RootContent(h), 0, []);
    Session(NodeAdded(EmptyGraph(root.id), root), EmptyMap<Id, Point>().Put(root.id, PointOf(root)), nextId + 1)
  }

  /** The no-match branch of `process_child`: a fresh child holding `text`, attached and indexed. */
  function Created(s: Session, parent: Requirement, text: string): (Session, Option<Requirement>) {
    var child := NewRequirement(s.nextId, text, parent.level + 1, [parent.id]);
    (Session(ChildAdded(s.graph, parent.id, child), s.points.Put(child.id, PointOf(child)), s.nextId + 1), Some(child))
  }

  /**
   * `process_child` on values: the stored candidates one level below the
   * parent are put to the judge; a match links the matched node under the
   * parent and creates nothing, anything else creates a new child.
   */
  function Processed(s: Session, parent: Requirement, content: string, o: Oracles, topK: nat, threshold: real)
    : (r: (Session, Option<Requirement>))
    ensures r.1.Some? ==> r.1.value.id == s.nextId && r.1.value.level == parent.level + 1 && r.0.nextId == s.nextId + 1
    ensures r.1.None? ==> r.0.nextId == s.nextId && r.0.points == s.points
  {
    match Matched(s, parent, content, o, topK, threshold)
    case Some(id) => (s.(graph := ChildLinked(s.graph, parent.id, id)), None)
    case None => Created(s, parent, Strip(content))
  }

  /**
   * The existing node the judge recognises a sub-problem as: the store is
   * searched one level below the parent, and the judge is asked only when
   * that search found candidates.
   */
  function Matched(s: Session, parent: Requirement, content: string, o: Oracles, topK: nat, threshold: real): Option<Id> {
    var candidates := Prefix(Hits(s.points.items, s.points.keys, content, parent.level + 1, threshold, o.similarity), topK);
    if candidates == [] then None
    else
      var result := SimilarityChecker.Execute(content, candidates, o.judge, o.decodeVerdict);
      if result.hasMatch && result.matchedId.Some? then result.matchedId else None
  }

  /** A step creates its child, if any, one level below the parent. */
  ghost predicate Levelled(step: (Session, Requirement, string) -> (Session, Option<Requirement>)) {
    forall s, parent, content :: step(s, parent, content).1.Some? ==> step(s, parent, content).1.value.level == parent.level + 1
  }

  /** One `process_child` call as a value: the session afterwards and the child created, if any. */
  type Step = step: (Session, Requirement, string) -> (Session, Option<Requirement>) | Levelled(step)
    witness (s: Session, parent: Requirement, content: string) => (s, None)

  /** `process_child` with the driver's oracles and search parameters fixed. */
  function StepOf(o: Oracles, topK: nat, threshold: real): Step {
    ProcessedLevels(o, topK, threshold);
    (s: Session, parent: Requirement, content: string) => Processed(s, parent, content, o, topK, threshold)
  }

  /** `decompose_single` with the driver's oracles fixed. */
  function SplitOf(o: Oracles): Requirement -> seq<string> {
    req => DecomposeSingle(req, o)
  }

  /** The sub-problems processed in list order: the session afterwards and the children created. */
  function ProcessedAll(s: Session, parent: Requirement, contents: seq<string>, step: Step): (r: (Session, seq<Requirement>))
    ensures forall i :: 0 <= i < |r.1| ==> r.1[i].level == parent.level + 1
  {
    if contents == [] then (s, [])
    else
      var before := ProcessedAll(s, parent, contents[..|contents| - 1], step);
      var last := step(before.0, parent, contents[|contents| - 1]);
      AppendSomeLevels(before.1, last.1, parent.level + 1);
      (last.0, AppendSome(before.1, last.1))
  }

  /** The children so far, with the one a step created, if any. */
  function AppendSome(reqs: seq<Requirement>, x: Option<Requirement>): seq<Requirement> {
    if x.Some? then reqs + [x.value] else reqs
  }

  /**
   * `recurse` on values: a requirement below `MaxLevel` whose decomposition
   * is not empty has its sub-problems processed, then each created child
   * expanded in turn.
   */
  function Expanded(s: Session, req: Requirement, split: Requirement -> seq<string>, step: Step): (r: Session)
    ensures req.level >= MaxLevel || split(req) == [] ==> r == s
    decreases MaxLevel - req.level, 0, 0
  {
    if req.level >= MaxLevel then s
    else
      var raw := split(req);
      if raw == [] then s
      else
        var processed := ProcessedAll(s, req, raw, step);
        ExpandedAll(processed.0, req.level + 1, processed.1, split, step)
  }

  /** Requirements, all at `level`, expanded in list order. */
  function ExpandedAll(s: Session, level: int, reqs: seq<Requirement>, split: Requirement -> seq<string>, step: Step): (r: Session)
    requires forall i :: 0 <= i < |reqs| ==> reqs[i].level == level
    decreases MaxLevel - level, 1, |reqs|
  {
    if reqs == [] then s
    else Expanded(ExpandedAll(s, level, reqs[..|reqs| - 1], split, step), reqs[|reqs| - 1], split, step)
  }

  /** The graph with its atomic count brought up to date, as `get_atomic_requirements` leaves it. */
  function Counted(g: GraphState): GraphState {
    g.(atomicCount := |Resolve(g.nodes.items, LeafIds(g.childrenMap, g.nodes.keys))|)
  }

  /** `execute` on values, starting with fresh ids from `nextId`. */
  function Run(nextId: Id, h: Hypothesis, o: Oracles, topK: nat, threshold: real): (r: Session)
    ensures r.graph.atomicCount == |Resolve(r.graph.nodes.items, LeafIds(r.graph.childrenMap, r.graph.nodes.keys))|
  {
    var s := Expanded(Started(nextId, h), NewRequirement(nextId, RootContent(h), 0, []), SplitOf(o), StepOf(o, topK, threshold));
    s.(graph := Counted(s.graph))
  }

  /**
   * A run is the expansion of the root followed by the count of the atomic
   * requirements: the count changes only `atomicCount`, which becomes the
   * number of registered leaves.
   */
  lemma {:induction false} RunIsCounted(nextId: Id, h: Hypothesis, o: Oracles, topK: nat, threshold: real)
    ensures var e := Expanded(Started(nextId, h), NewRequirement(nextId, RootContent(h), 0, []), SplitOf(o), StepOf(o, topK, threshold));
      Run(nextId, h, o, topK, threshold) == Session(Counted(e.graph), e.points, e.nextId)
    ensures var e := Expanded(Started(nextId, h), NewRequirement(nextId, RootContent(h), 0, []), SplitOf(o), StepOf(o, topK, threshold));
      var r := Run(nextId, h, o, topK, threshold);
      && r.graph.atomicCount == |Resolve(e.graph.nodes.items, LeafIds(e.graph.childrenMap, e.graph.nodes.keys))|
      && r.graph.(atomicCount := e.graph.atomicCount) == e.graph
  {
  }

  /** `req` is a node of `g` at its own level, so it may be expanded. */
  ghost predicate Placed(g: GraphState, req: Requirement) {
    req.id in g.nodes.items && g.nodes.items[req.id].level == req.level
  }

  /** `id` is indexed in the store at `level`. */
  ghost predicate IndexedAt(points: OrderedMap<Id, Point>, id: Id, level: int) {
    exists k :: k in points.items && points.items[k].requirementId == id && points.items[k].level == level
  }

  /**
   * When the judge recognises a node, processing creates nothing: no child is
   * returned, no id is consumed, the store and the set of nodes are unchanged,
   * and the recognised node becomes a child of the parent.
   */
  lemma {:induction false} ProcessedLinks(s: Session, parent: Requirement, content: string, o: Oracles, topK: nat, threshold: real, id: Id)
    requires Matched(s, parent, content, o, topK, threshold) == Some(id)
    ensures Processed(s, parent, content, o, topK, threshold) == (s.(graph := ChildLinked(s.graph, parent.id, id)), None)
    ensures var r := Processed(s, parent, content, o, topK, threshold);
      && r.1 == None && r.0.nextId == s.nextId && r.0.points == s.points
      && r.0.graph.nodes.items.Keys == s.graph.nodes.items.Keys && r.0.graph.totalNodes == s.graph.totalNodes
      && (id in s.graph.nodes.items ==>
          parent.id in r.0.graph.nodes.items[id].parentIds && id in r.0.graph.childrenMap[parent.id])
  {
    ChildLinkedSpec(s.graph, parent.id, id);
  }

  /**
   * When the judge recognises nothing, processing creates one pending child
   * under a fresh id, holding the stripped text one level below the parent:
   * it is registered, indexed in the store and appended to the parent's children.
   */
  lemma {:induction false} ProcessedCreates(s: Session, parent: Requirement, content: string, o: Oracles, topK: nat, threshold: real)
    requires Matched(s, parent, content, o, topK, threshold) == None
    ensures Processed(s, parent, content, o, topK, threshold) == Created(s, parent, Strip(content))
    ensures var r := Processed(s, parent, content, o, topK, threshold);
      && r.1.Some? && r.1.value.id == s.nextId && r.0.nextId == s.nextId + 1
      && r.1.value.content == Strip(content) && r.1.value.level == parent.level + 1
      && r.1.value.parentIds == [parent.id] && r.1.value.status == Pending && r.1.value.solutionId == None
      && r.0.graph.nodes.items == s.graph.nodes.items[s.nextId := r.1.value]
      && r.0.graph.totalNodes == s.graph.totalNodes + 1
      && r.0.graph.childrenMap[parent.id] == GetOr(s.graph.childrenMap, parent.id, []) + [s.nextId]
      && r.0.points == s.points.Put(s.nextId, PointOf(r.1.value))
  {
    var child := NewRequirement(s.nextId, Strip(content), parent.level + 1, [parent.id]);
    assert WithParent(child, parent.id) == child;
    ChildAddedSpec(s.graph, parent.id, child);
  }

  /** A node the judge recognises is one the store holds one level below the parent. */
  lemma {:induction false} MatchedIsIndexed(s: Session, parent: Requirement, content: string, o: Oracles, topK: nat, threshold: real)
    ensures var m := Matched(s, parent, content, o, topK, threshold);
      m.Some? ==> IndexedAt(s.points, m.value, parent.level + 1)
  {
    var level := parent.level + 1;
    var candidates := Prefix(Hits(s.points.items, s.points.keys, content, level, threshold, o.similarity), topK);
    var m := Matched(s, parent, content, o, topK, threshold);
    if m.Some? {
      MatchedIsCandidate(s, parent, content, o, topK, threshold);
      var c :| c in candidates && c.requirementId == m.value;
      CandidateIsIndexed(s.points, content, level, topK, threshold, o.similarity, c);
    }
  }

  /** A node the judge recognises is one of the candidates the search returned. */
  lemma {:induction false} MatchedIsCandidate(s: Session, parent: Requirement, content: string, o: Oracles, topK: nat, threshold: real)
    ensures var m := Matched(s, parent, content, o, topK, threshold);
      var candidates := Prefix(Hits(s.points.items, s.points.keys, content, parent.level + 1, threshold, o.similarity), topK);
      m.Some? ==> exists c :: c in candidates && c.requirementId == m.value
  {
    var level := parent.level + 1;
    var candidates := Prefix(Hits(s.points.items, s.points.keys, content, level, threshold, o.similarity), topK);
    if candidates != [] {
      SimilarityChecker.MatchIsCandidate(content, candidates, o.judge, o.decodeVerdict, level);
    }
  }

  /** Every candidate a search returns is a point the store holds at the searched level. */
  lemma {:induction false} CandidateIsIndexed(points: OrderedMap<Id, Point>, content: string, level: int, topK: nat, threshold: real,
                                              similarity: (string, string) -> real, c: Candidate)
    requires c in Prefix(Hits(points.items, points.keys, content, level, threshold, similarity), topK)
    ensures IndexedAt(points, c.requirementId, level)
  {
    var hits := Hits(points.items, points.keys, content, level, threshold, similarity);
    assert c in hits;
    var k :| k in points.items && points.items[k] == CandidatePoint(c);
  }

  /**
   * Processing a sub-problem of a placed node above the bottom level keeps the
   * invariant, keeps every node where it was, and places the child it creates.
   */
  lemma {:induction false} ProcessedKeepsConsistent(s: Session, parent: Requirement, content: string, o: Oracles, topK: nat, threshold: real)
    requires Invariant(s)
    requires Placed(s.graph, parent) && parent.level < MaxLevel
    ensures var r := Processed(s, parent, content, o, topK, threshold);
      && Invariant(r.0)
      && Grows(s.graph, r.0.graph)
      && (r.1.Some? ==> Placed(r.0.graph, r.1.value) && r.1.value.level == parent.level + 1)
  {
    match Matched(s, parent, content, o, topK, threshold)
    case Some(id) =>
      MatchedIsIndexed(s, parent, content, o, topK, threshold);
      LinkedKeepsConsistent(s, parent, id);
    case None =>
      CreatedKeepsConsistent(s, parent, Strip(content));
  }

  /** A child `process_child` creates sits one level below its parent. */
  lemma {:induction false} ProcessedLevels(o: Oracles, topK: nat, threshold: real)
    ensures forall s, parent, content ::
      var r := Processed(s, parent, content, o, topK, threshold);
      r.1.Some? ==> r.1.value.level == parent.level + 1
  {
    forall s, parent, content
      ensures var r := Processed(s, parent, content, o, topK, threshold);
        r.1.Some? ==> r.1.value.level == parent.level + 1
    {
      match Matched(s, parent, content, o, topK, threshold)
      case Some(id) =>
      case None =>
    }
  }

  /** A step that, from a consistent session and a placed parent above the bottom level, keeps the invariant and places its child. */
  ghost predicate Sound(step: Step) {
    forall s, parent, content ::
      Invariant(s) && Placed(s.graph, parent) && parent.level < MaxLevel ==>
        && Invariant(step(s, parent, content).0)
        && Grows(s.graph, step(s, parent, content).0.graph)
        && (step(s, parent, content).1.Some? ==> Placed(step(s, parent, content).0.graph, step(s, parent, content).1.value))
  }

  /** `process_child` is a sound step. */
  lemma {:induction false} StepSound(o: Oracles, topK: nat, threshold: real)
    ensures Sound(StepOf(o, topK, threshold))
  {
    var step := StepOf(o, topK, threshold);
    forall s, parent, content | Invariant(s) && Placed(s.graph, parent) && parent.level < MaxLevel
      ensures && Invariant(step(s, parent, content).0)
              && Grows(s.graph, step(s, parent, content).0.graph)
              && (step(s, parent, content).1.Some? ==> Placed(step(s, parent, content).0.graph, step(s, parent, content).1.value))
    {
      ProcessedKeepsConsistent(s, parent, content, o, topK, threshold);
    }
  }

  /** Processing a decomposition with a sound step keeps the invariant and places every child created. */
  lemma {:induction false} ProcessedAllKeepsConsistent(s: Session, parent: Requirement, contents: seq<string>, step: Step)
    requires Sound(step) && Invariant(s)
    requires Placed(s.graph, parent) && parent.level < MaxLevel
    ensures var r := ProcessedAll(s, parent, contents, step);
      && Invariant(r.0)
      && Grows(s.graph, r.0.graph)
      && forall i :: 0 <= i < |r.1| ==> Placed(r.0.graph, r.1[i])
  {
    if contents != [] {
      var init := contents[..|contents| - 1];
      var before := ProcessedAll(s, parent, init, step);
      ProcessedAllKeepsConsistent(s, parent, init, step);
      var last := step(before.0, parent, contents[|contents| - 1]);
      GrowsTransitive(s.graph, before.0.graph, last.0.graph);
      PlacedAppend(before.0.graph, last.0.graph, before.1, last.1);
    }
  }

  /** Appending a child at `level` to children at `level` keeps them all at `level`. */
  lemma {:induction false} AppendSomeLevels(reqs: seq<Requirement>, x: Option<Requirement>, level: int)
    requires forall i :: 0 <= i < |reqs| ==> reqs[i].level == level
    requires x.Some? ==> x.value.level == level
    ensures forall i :: 0 <= i < |AppendSome(reqs, x)| ==> AppendSome(reqs, x)[i].level == level
  {
    var r := AppendSome(reqs, x);
    forall i | 0 <= i < |r|
      ensures r[i].level == level
    {
      if i < |reqs| {
        assert r[i] == reqs[i];
      }
    }
  }

  /** Nodes placed before a step stay placed after it, next to those the step placed. */
  lemma {:induction false} PlacedAppend(g: GraphState, h: GraphState, reqs: seq<Requirement>, x: Option<Requirement>)
    requires Grows(g, h)
    requires forall i :: 0 <= i < |reqs| ==> Placed(g, reqs[i])
    requires x.Some? ==> Placed(h, x.value)
    ensures forall i :: 0 <= i < |AppendSome(reqs, x)| ==> Placed(h, AppendSome(reqs, x)[i])
  {
    var r := AppendSome(reqs, x);
    forall i | 0 <= i < |r|
      ensures Placed(h, r[i])
    {
      if i < |reqs| {
        assert r[i] == reqs[i];
      }
    }
  }

  /** Processing one more sub-problem is one more step. */
  lemma {:induction false} ProcessedAllSnoc(s: Session, parent: Requirement, contents: seq<string>, i: nat, step: Step)
    requires i < |contents|
    ensures var before := ProcessedAll(s, parent, contents[..i], step);
      var last := step(before.0, parent, contents[i]);
      ProcessedAll(s, parent, contents[..i + 1], step) == (last.0, AppendSome(before.1, last.1))
  {
    assert contents[..i + 1][..i] == contents[..i];
  }

  /** Expanding one more child is one more expansion. */
  lemma {:induction false} ExpandedAllSnoc(s: Session, level: int, reqs: seq<Requirement>, i: nat,
                                          split: Requirement -> seq<string>, step: Step)
    requires i < |reqs|
    requires forall j :: 0 <= j < |reqs| ==> reqs[j].level == level
    ensures ExpandedAll(s, level, reqs[..i + 1], split, step) == Expanded(ExpandedAll(s, level, reqs[..i], split, step), reqs[i], split, step)
  {
    assert reqs[..i + 1][..i] == reqs[..i];
  }

  /** One step of `recurse`: process the sub-problems, then expand the children created. */
  lemma {:induction false} ExpandedStep(s: Session, req: Requirement, split: Requirement -> seq<string>, step: Step)
    requires req.level < MaxLevel && split(req) != []
    ensures var processed := ProcessedAll(s, req, split(req), step);
      Expanded(s, req, split, step) == ExpandedAll(processed.0, req.level + 1, processed.1, split, step)
  {
  }

  /** A node at `MaxLevel`, or one the model does not split, is left as it is. */
  lemma {:induction false} ExpandedLeaf(s: Session, req: Requirement, split: Requirement -> seq<string>, step: Step)
    requires req.level >= MaxLevel || split(req) == []
    ensures Expanded(s, req, split, step) == s
  {
  }

  /** Expanding a placed node with a sound step keeps the invariant and every node where it was. */
  lemma {:induction false} ExpandedKeepsConsistent(s: Session, req: Requirement, split: Requirement -> seq<string>, step: Step)
    requires Sound(step) && Invariant(s)
    requires Placed(s.graph, req)
    ensures var r := Expanded(s, req, split, step);
      Invariant(r) && Grows(s.graph, r.graph)
    decreases MaxLevel - req.level, 0, 1
  {
    if req.level < MaxLevel && split(req) != [] {
      ExpandedStepKeepsConsistent(s, req, split, step);
    } else {
      ExpandedLeaf(s, req, split, step);
    }
  }

  lemma {:induction false} ExpandedStepKeepsConsistent(s: Session, req: Requirement, split: Requirement -> seq<string>, step: Step)
    requires Sound(step) && Invariant(s)
    requires Placed(s.graph, req)
    requires req.level < MaxLevel && split(req) != []
    ensures var r := Expanded(s, req, split, step);
      Invariant(r) && Grows(s.graph, r.graph)
    decreases MaxLevel - req.level, 0, 0
  {
    var processed := ProcessedAll(s, req, split(req), step);
    ProcessedAllKeepsConsistent(s, req, split(req), step);
    ExpandedAllKeepsConsistent(processed.0, req.level + 1, processed.1, split, step);
    var r := ExpandedAll(processed.0, req.level + 1, processed.1, split, step);
    ExpandedStep(s, req, split, step);
    GrowsTransitive(s.graph, processed.0.graph, r.graph);
  }

  lemma {:induction false} ExpandedAllKeepsConsistent(s: Session, level: int, reqs: seq<Requirement>,
                                                      split: Requirement -> seq<string>, step: Step)
    requires Sound(step) && Invariant(s)
    requires forall i :: 0 <= i < |reqs| ==> reqs[i].level == level && Placed(s.graph, reqs[i])
    ensures var r := ExpandedAll(s, level, reqs, split, step);
      Invariant(r) && Grows(s.graph, r.graph)
    decreases MaxLevel - level, 1, |reqs|
  {
    if reqs != [] {
      var init := reqs[..|reqs| - 1];
      var before := ExpandedAll(s, level, init, split, step);
      ExpandedAllKeepsConsistent(s, level, init, split, step);
      ExpandedKeepsConsistent(before, reqs[|reqs| - 1], split, step);
      GrowsTransitive(s.graph, before.graph, Expanded(before, reqs[|reqs| - 1], split, step).graph);
    }
  }

  /**
   * What a whole `execute` guarantees: the graph is well formed (every edge
   * steps one level down), its root is the stripped hypothesis at level 0
   * without parents, every level lies in 0..MaxLevel, the store indexes
   * exactly the graph's nodes, and the atomic count is the number of leaves.
   */
  lemma {:induction false} RunConsistent(nextId: Id, h: Hypothesis, o: Oracles, topK: nat, threshold: real)
    ensures var r := Run(nextId, h, o, topK, threshold);
      && Invariant(r)
      && r.graph.rootId == nextId
      && r.graph.nodes.items[nextId] == NewRequirement(nextId, RootContent(h), 0, [])
      && r.graph.atomicCount == |Resolve(r.graph.nodes.items, LeafIds(r.graph.childrenMap, r.graph.nodes.keys))|
  {
    var root := NewRequirement(nextId, RootContent(h), 0, []);
    StartedConsistent(nextId, h);
    StepSound(o, topK, threshold);
    ExpandedKeepsConsistent(Started(nextId, h), root, SplitOf(o), StepOf(o, topK, threshold));
    CountedKeepsConsistent(Expanded(Started(nextId, h), root, SplitOf(o), StepOf(o, topK, threshold)));
  }

  /** After the root is expanded, every node is registered and every edge is recorded on both ends. */
  lemma {:induction false} RootExpandedRegistered(nextId: Id, h: Hypothesis, o: Oracles, topK: nat, threshold: real)
    ensures Registered(Expanded(Started(nextId, h), NewRequirement(nextId, RootContent(h), 0, []), SplitOf(o), StepOf(o, topK, threshold)).graph)
  {
    StartedConsistent(nextId, h);
    StepSound(o, topK, threshold);
    ExpandedKeepsConsistent(Started(nextId, h), NewRequirement(nextId, RootContent(h), 0, []), SplitOf(o), StepOf(o, topK, threshold));
  }

  /** The session `execute` starts from satisfies the invariant, with the root placed at level 0. */
  lemma {:induction false} StartedConsistent(nextId: Id, h: Hypothesis)
    ensures var s := Started(nextId, h);
      && Invariant(s)
      && Placed(s.graph, NewRequirement(nextId, RootContent(h), 0, []))
      && s.graph.rootId == nextId
      && s.graph.nodes.items[nextId] == NewRequirement(nextId, RootContent(h), 0, [])
  {
    ConsistentAtStart(RootContent(h), nextId);
  }

  /** Counting the atomic requirements changes nothing the invariant speaks of. */
  lemma {:induction false} CountedKeepsConsistent(s: Session)
    requires Invariant(s)
    ensures Invariant(s.(graph := Counted(s.graph)))
    ensures Counted(s.graph).nodes == s.graph.nodes && Counted(s.graph).rootId == s.graph.rootId
  {
    var g, c := s.graph, Counted(s.graph);
    assert c.nodes == g.nodes && c.childrenMap == g.childrenMap && c.rootId == g.rootId;
    assert Registered(c) && EdgesStepOneLevel(c);
    assert WellFormed(c) && Rooted(c);
    assert Bounded(c, s.nextId) && Indexed(c, s.points);
  }

  /** `RequirementDecomposerAgent` */
  class RequirementDecomposer {
    const store: Store
    const topK: nat
    const threshold: real
    /** The next fresh requirement id; stands for `uuid4()`. */
    var nextId: Id

    constructor (topK: nat, threshold: real)
      ensures this.topK == topK && this.threshold == threshold
      ensures fresh(store) && store.points == EmptyMap()
    {
      this.topK := topK;
      this.threshold := threshold;
      store := new Store();
      nextId := 0;
    }

    /** The driver's state as a value. */
    function Snapshot(graph: RequirementGraph): Session
      reads this, store, graph
    {
      Session(graph.State(), store.points, nextId)
    }

    /**
     * `execute`: clear the store, create, register and index the root, expand
     * it, then record the number of atomic requirements.
     */
    method Execute(h: Hypothesis, o: Oracles) returns (graph: RequirementGraph)
      modifies this, store
      ensures fresh(graph)
      ensures Snapshot(graph) == Run(old(nextId), h, o, topK, threshold)
    {
      store.Clear();
      var root := NewRequirement(nextId, RootContent(h), 0, []);
      nextId := nextId + 1;
      graph := new RequirementGraph(root.id);
      graph.AddNode(root);
      store.AddRequirement(root);
      assert Snapshot(graph) == Started(root.id, h);
      Recurse(graph, root, o);
      ghost var expanded := Snapshot(graph);
      RootExpandedRegistered(root.id, h, o, topK, threshold);
      var _ := graph.GetAtomicRequirements();
      assert graph.State() == Counted(expanded.graph);
      RunIsCounted(root.id, h, o, topK, threshold);
    }

    /**
     * `process_child`: look for an existing node one level below `parent`; if
     * the judge names one, link it and return nothing, otherwise create the
     * child from the stripped text, attach and index it, and return it.
     */
    method ProcessChild(graph: RequirementGraph, childContent: string, parent: Requirement, o: Oracles)
      returns (created: Option<Requirement>)
      modifies this, store, graph
      ensures (Snapshot(graph), created) == Processed(old(Snapshot(graph)), parent, childContent, o, topK, threshold)
    {
      ghost var s0 := Snapshot(graph);
      ghost var matched := Matched(s0, parent, childContent, o, topK, threshold);
      var childLevel := parent.level + 1;
      var candidates := store.FindSimilar(childContent, childLevel, topK, threshold, o.similarity);
      if candidates != [] {
        var result := SimilarityChecker.Execute(childContent, candidates, o.judge, o.decodeVerdict);
        if result.hasMatch && result.matchedId.Some? {
          assert matched == result.matchedId;
          graph.LinkExistingChild(parent.id, result.matchedId.value);
          assert Snapshot(graph) == s0.(graph := ChildLinked(s0.graph, parent.id, result.matchedId.value));
          ProcessedLinks(s0, parent, childContent, o, topK, threshold, result.matchedId.value);
          return None;
        }
      }
      assert matched == None;
      var child := CreateChild(graph, parent, Strip(childContent));
      ProcessedCreates(s0, parent, childContent, o, topK, threshold);
      return Some(child);
    }

    /** The no-match branch of `process_child`: a fresh requirement one level below `parent`, attached and indexed. */
    method CreateChild(graph: RequirementGraph, parent: Requirement, text: string) returns (child: Requirement)
      modifies this, store, graph
      ensures (Snapshot(graph), Some(child)) == Created(old(Snapshot(graph)), parent, text)
    {
      child := NewRequirement(nextId, text, parent.level + 1, [parent.id]);
      nextId := nextId + 1;
      graph.AddChild(parent.id, child);
      store.AddRequirement(child);
    }

    /**
     * `recurse`: a node below `MaxLevel` with a non-empty decomposition has
     * every sub-problem processed, then every newly created child expanded.
     */
    method Recurse(graph: RequirementGraph, req: Requirement, o: Oracles)
      modifies this, store, graph
      ensures Snapshot(graph) == Expanded(old(Snapshot(graph)), req, SplitOf(o), StepOf(o, topK, threshold))
      decreases MaxLevel - req.level, 1
    {
      if req.level >= MaxLevel {
        ExpandedLeaf(Snapshot(graph), req, SplitOf(o), StepOf(o, topK, threshold));
        return;
      }
      var rawChildren := DecomposeSingle(req, o);
      assert SplitOf(o)(req) == rawChildren;
      if rawChildren == [] {
        ExpandedLeaf(Snapshot(graph), req, SplitOf(o), StepOf(o, topK, threshold));
        return;
      }
      ghost var s0 := Snapshot(graph);
      var newChildren := ProcessChildren(graph, req, rawChildren, o);
      ExpandChildren(graph, req.level + 1, newChildren, o);
      ExpandedStep(s0, req, SplitOf(o), StepOf(o, topK, threshold));
    }

    /** The first loop of `recurse`: every sub-problem processed in order, collecting the children created. */
    method ProcessChildren(graph: RequirementGraph, req: Requirement, rawChildren: seq<string>, o: Oracles)
      returns (newChildren: seq<Requirement>)
      modifies this, store, graph
      ensures (Snapshot(graph), newChildren) == ProcessedAll(old(Snapshot(graph)), req, rawChildren, StepOf(o, topK, threshold))
    {
      ghost var s0 := Snapshot(graph);
      ghost var step := StepOf(o, topK, threshold);
      newChildren := [];
      for i := 0 to |rawChildren|
        invariant (Snapshot(graph), newChildren) == ProcessedAll(s0, req, rawChildren[..i], step)
      {
        ProcessedAllSnoc(s0, req, rawChildren, i, step);
        assert step(Snapshot(graph), req, rawChildren[i]) == Processed(Snapshot(graph), req, rawChildren[i], o, topK, threshold);
        var child := ProcessChild(graph, rawChildren[i], req, o);
        if child.Some? {
          newChildren := newChildren + [child.value];
        }
      }
      assert rawChildren[..|rawChildren|] == rawChildren;
    }

    /** The second loop of `recurse`: every child created, all at `level`, expanded in order. */
    method ExpandChildren(graph: RequirementGraph, level: int, children: seq<Requirement>, o: Oracles)
      requires level <= MaxLevel
      requires forall i :: 0 <= i < |children| ==> children[i].level == level
      modifies this, store, graph
      ensures Snapshot(graph) == ExpandedAll(old(Snapshot(graph)), level, children, SplitOf(o), StepOf(o, topK, threshold))
      decreases MaxLevel - level + 1, 0
    {
      ghost var s0 := Snapshot(graph);
      for i := 0 to |children|
        invariant Snapshot(graph) == ExpandedAll(s0, level, children[..i], SplitOf(o), StepOf(o, topK, threshold))
      {
        ExpandedAllSnoc(s0, level, children, i, SplitOf(o), StepOf(o, topK, threshold));
        Recurse(graph, children[i], o);
      }
      assert children[..|children|] == children;
    }
  }
}
