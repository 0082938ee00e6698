/**
 * The requirement graph: a DAG of requirements kept in a flat registry keyed
 * by identity, with a parent-to-children adjacency, a per-level index and
 * running counters. Shared nodes (several parents) arise from deduplication.
 *
 * The graph is a class whose methods update its fields in place. Each
 * mutating method is specified by a pure function on a snapshot of the
 * fields (`GraphState`), and the properties of the operations are lemmas
 * about those functions.
 */
module Requirements {
  import opened Wrappers
  import opened Collections

  /** Identities; they stand for the UUIDs of requirements and solutions. */
  type Id = nat

  datatype Status = Pending | Decomposing | Solving | Solved | Failed

  /** One node of the graph. `parentIds` is empty only for the root. */
  datatype Requirement = Requirement(
    id: Id,
    parentIds: seq<Id>,
    content: string,
    level: int,
    status: Status,
    isShared: bool,
    solutionId: Option<Id>)

  /** `Requirement(id=.., content=.., level=.., parent_ids=..)`, the other fields at their defaults. */
  function NewRequirement(id: Id, content: string, level: int, parentIds: seq<Id>): Requirement {
    Requirement(id, parentIds, content, level, Pending, false, None)
  }

  /** The fields of a `RequirementGraph`, as a value. */
  datatype GraphState = GraphState(
    rootId: Id,
    nodes: OrderedMap<Id, Requirement>,
    childrenMap: map<Id, seq<Id>>,
    levels: map<int, seq<Id>>,
    totalNodes: int,
    atomicCount: int,
    sharedCount: int,
    maxDepth: int)

  /** `RequirementGraph(root_id=rootId)` */
  function EmptyGraph(rootId: Id): GraphState {
    GraphState(rootId, EmptyMap(), map[], map[], 0, 0, 0, 0)
  }

  /** The registry is a dictionary keyed by each node's own id. */
  ghost predicate Registered(g: GraphState) {
    && g.nodes.Valid()
    && forall k :: k in g.nodes.items ==> g.nodes.items[k].id == k
  }

  /** `add_node`: register the node, index it under its level, give it a children entry, update the counters. */
  function NodeAdded(g: GraphState, node: Requirement): GraphState
  {
    g.(nodes := g.nodes.Put(node.id, node),
       levels := g.levels[node.level := GetOr(g.levels, node.level, []) + [node.id]],
       childrenMap := if node.id in g.childrenMap then g.childrenMap else g.childrenMap[node.id := []],
       totalNodes := g.totalNodes + 1,
       maxDepth := Max(g.maxDepth, node.level))
  }

  /** What `add_node` changes: the registry, the level index, the children entry and the counters. */
  lemma {:induction false} NodeAddedSpec(g: GraphState, node: Requirement)
    ensures var r := NodeAdded(g, node);
      && r.nodes.items == g.nodes.items[node.id := node]
      && r.nodes.items.Keys == g.nodes.items.Keys + {node.id}
      && r.levels.Keys == g.levels.Keys + {node.level}
      && r.levels[node.level] == GetOr(g.levels, node.level, []) + [node.id]
      && (forall l :: l in g.levels && l != node.level ==> r.levels[l] == g.levels[l])
      && r.childrenMap.Keys == g.childrenMap.Keys + {node.id}
      && (forall k :: k in g.childrenMap ==> r.childrenMap[k] == g.childrenMap[k])
      && (node.id !in g.childrenMap ==> r.childrenMap[node.id] == [])
      && r.totalNodes == g.totalNodes + 1
      && r.maxDepth >= node.level && r.maxDepth >= g.maxDepth
      && (r.maxDepth == node.level || r.maxDepth == g.maxDepth)
      && r.rootId == g.rootId && r.sharedCount == g.sharedCount && r.atomicCount == g.atomicCount
      && (Registered(g) ==> Registered(r))
  {
  }

  /** The child as `add_child` registers it: with the parent appended to its parents unless already there. */
  function WithParent(child: Requirement, parentId: Id): (c: Requirement)
    ensures parentId in c.parentIds
    ensures multiset(child.parentIds)[parentId] <= 1 ==> multiset(c.parentIds)[parentId] == 1
    ensures c == child.(parentIds := c.parentIds)
  {
    if parentId in child.parentIds then child else child.(parentIds := child.parentIds + [parentId])
  }

  /** `add_child`: register a new child and append it to the parent's children. */
  function ChildAdded(g: GraphState, parentId: Id, child: Requirement): GraphState
  {
    var g1 := NodeAdded(g, WithParent(child, parentId));
    g1.(childrenMap := g1.childrenMap[parentId := GetOr(g1.childrenMap, parentId, []) + [child.id]])
  }

  /** What `add_child` changes: the child registered with the parent among its parents, and appended to the parent's children. */
  lemma {:induction false} ChildAddedSpec(g: GraphState, parentId: Id, child: Requirement)
    ensures var r := ChildAdded(g, parentId, child);
      && r.nodes.items == g.nodes.items[child.id := WithParent(child, parentId)]
      && r.childrenMap.Keys == g.childrenMap.Keys + {parentId, child.id}
      && r.childrenMap[parentId] == GetOr(g.childrenMap, parentId, []) + [child.id]
      && (forall k :: k in g.childrenMap && k != parentId ==> r.childrenMap[k] == g.childrenMap[k])
      && r.levels == NodeAdded(g, WithParent(child, parentId)).levels
      && r.totalNodes == g.totalNodes + 1 && r.sharedCount == g.sharedCount
      && r.maxDepth == Max(g.maxDepth, child.level)
      && r.rootId == g.rootId && r.atomicCount == g.atomicCount
      && (Registered(g) ==> Registered(r))
  {
  }

  /**
   * `link_existing_child`: attach an already registered node as a child of
   * one more parent. Nothing happens for an unknown id; a new parent makes the
   * node shared and counts once in `sharedCount`; the child is appended to the
   * parent's children only if not already there.
   */
  function ChildLinked(g: GraphState, parentId: Id, existingId: Id): GraphState
  {
    if existingId !in g.nodes.items then g
    else
      var n := g.nodes.items[existingId];
      var g1 :=
        if parentId in n.parentIds then g
        else g.(nodes := g.nodes.Put(existingId, n.(parentIds := n.parentIds + [parentId], isShared := true)),
                sharedCount := g.sharedCount + 1);
      var kids := GetOr(g1.childrenMap, parentId, []);
      g1.(childrenMap := g1.childrenMap[parentId := if existingId in kids then kids else kids + [existingId]])
  }

  /** What `link_existing_child` changes, case by case. */
  lemma {:induction false} ChildLinkedSpec(g: GraphState, parentId: Id, existingId: Id)
    ensures var r := ChildLinked(g, parentId, existingId);
      && (existingId !in g.nodes.items ==> r == g)
      && (existingId in g.nodes.items ==>
          && existingId in r.nodes.items
          && parentId in r.nodes.items[existingId].parentIds
          && parentId in r.childrenMap && existingId in r.childrenMap[parentId])
      && (existingId in g.nodes.items && parentId !in g.nodes.items[existingId].parentIds ==>
          && r.nodes.items[existingId].parentIds == g.nodes.items[existingId].parentIds + [parentId]
          && r.nodes.items[existingId].isShared
          && r.sharedCount == g.sharedCount + 1)
      && (existingId in g.nodes.items && parentId in g.nodes.items[existingId].parentIds ==>
          r.nodes == g.nodes && r.sharedCount == g.sharedCount)
      && (existingId in g.nodes.items && multiset(GetOr(g.childrenMap, parentId, []))[existingId] <= 1 ==>
          multiset(r.childrenMap[parentId])[existingId] == 1)
      && (forall k :: k in g.childrenMap && k != parentId ==> k in r.childrenMap && r.childrenMap[k] == g.childrenMap[k])
      && r.childrenMap.Keys <= g.childrenMap.Keys + {parentId}
      && r.nodes.keys == g.nodes.keys && r.nodes.items.Keys == g.nodes.items.Keys
      && (forall k :: k in g.nodes.items && k != existingId ==> r.nodes.items[k] == g.nodes.items[k])
      && (forall k :: k in g.nodes.items ==>
          && r.nodes.items[k].id == g.nodes.items[k].id
          && r.nodes.items[k].content == g.nodes.items[k].content
          && r.nodes.items[k].level == g.nodes.items[k].level
          && r.nodes.items[k].status == g.nodes.items[k].status
          && r.nodes.items[k].solutionId == g.nodes.items[k].solutionId)
      && r.levels == g.levels && r.totalNodes == g.totalNodes && r.maxDepth == g.maxDepth
      && r.rootId == g.rootId && r.atomicCount == g.atomicCount
      && (Registered(g) ==> Registered(r))
  {
  }

  lemma {:induction false} ChildLinkedRegistered(g: GraphState, parentId: Id, existingId: Id)
    ensures Registered(g) ==> Registered(ChildLinked(g, parentId, existingId))
  {
    ChildLinkedSpec(g, parentId, existingId);
  }

  /** Linking is idempotent: repeating the same link changes nothing. */
  lemma {:induction false} LinkIdempotent(g: GraphState, parentId: Id, existingId: Id)
    ensures ChildLinked(ChildLinked(g, parentId, existingId), parentId, existingId) == ChildLinked(g, parentId, existingId)
  {
    var r := ChildLinked(g, parentId, existingId);
    if existingId in g.nodes.items {
      assert r.childrenMap[parentId := r.childrenMap[parentId]] == r.childrenMap;
    }
  }

  /** Linking one node from several parents in turn. */
  function LinkAll(g: GraphState, parentIds: seq<Id>, existingId: Id): GraphState {
    if parentIds == [] then g
    else ChildLinked(LinkAll(g, parentIds[..|parentIds| - 1], existingId), parentIds[|parentIds| - 1], existingId)
  }

  /** Each distinct new parent linked to a node is appended to its parents and counted once as sharing. */
  lemma {:induction false} LinkAllParents(g: GraphState, parentIds: seq<Id>, existingId: Id)
    requires existingId in g.nodes.items
    requires Distinct(parentIds)
    requires forall p :: p in parentIds ==> p !in g.nodes.items[existingId].parentIds
    ensures existingId in LinkAll(g, parentIds, existingId).nodes.items
    ensures LinkAll(g, parentIds, existingId).nodes.items[existingId].parentIds ==
            g.nodes.items[existingId].parentIds + parentIds
    ensures LinkAll(g, parentIds, existingId).sharedCount == g.sharedCount + |parentIds|
    ensures LinkAll(g, parentIds, existingId).nodes.items[existingId].isShared ==
            (g.nodes.items[existingId].isShared || |parentIds| > 0)
  {
    if parentIds != [] {
      var init, last := parentIds[..|parentIds| - 1], parentIds[|parentIds| - 1];
      LinkAllParents(g, init, existingId);
      var g1 := LinkAll(g, init, existingId);
      assert last !in g1.nodes.items[existingId].parentIds by {
        assert last !in init;
      }
      assert g.nodes.items[existingId].parentIds + init + [last] == g.nodes.items[existingId].parentIds + parentIds;
    }
  }

  /**
   * A node created by `add_child` under one parent and then linked from k-1
   * other distinct parents has k parents, is shared exactly when k > 1, and
   * has added exactly k-1 to `sharedCount`.
   */
  lemma {:induction false} SharedNodeParents(g: GraphState, firstParent: Id, child: Requirement, others: seq<Id>)
    requires child.id !in g.nodes.items
    requires child.parentIds == [firstParent] && !child.isShared
    requires Distinct(others) && firstParent !in others
    ensures var r := LinkAll(ChildAdded(g, firstParent, child), others, child.id);
      && child.id in r.nodes.items
      && |r.nodes.items[child.id].parentIds| == |others| + 1
      && r.sharedCount == g.sharedCount + |others|
      && (r.nodes.items[child.id].isShared <==> |others| + 1 > 1)
  {
    var g1 := ChildAdded(g, firstParent, child);
    assert g1.nodes.items[child.id] == child;
    LinkAllParents(g1, others, child.id);
  }

  /** Only the registered ids, in their order. */
  function Known(nodes: map<Id, Requirement>, ids: seq<Id>): seq<Id> {
    Filter(ids, k => k in nodes)
  }

  /** `[nodes[i] for i in ids if i in nodes]` */
  function Resolve(nodes: map<Id, Requirement>, ids: seq<Id>): (r: seq<Requirement>)
    ensures |r| <= |ids|
    ensures forall n :: n in r ==> n in nodes.Values
  {
    if ids == [] then []
    else
      var last := ids[|ids| - 1];
      Resolve(nodes, ids[..|ids| - 1]) + (if last in nodes then [nodes[last]] else [])
  }

  function IdOf(r: Requirement): Id { r.id }

  /** Resolving ids yields exactly the registered ones among them, in stored order. */
  lemma {:induction false} ResolveIds(nodes: map<Id, Requirement>, ids: seq<Id>)
    requires forall k :: k in nodes ==> nodes[k].id == k
    ensures Image(Resolve(nodes, ids), IdOf) == Known(nodes, ids)
  {
    if ids != [] {
      ResolveIds(nodes, ids[..|ids| - 1]);
    }
  }

  /** A node is atomic when its children entry is absent or empty. */
  predicate IsLeaf(childrenMap: map<Id, seq<Id>>, id: Id) {
    id !in childrenMap || childrenMap[id] == []
  }

  /** The atomic ones among `ids`, in order. */
  function LeafIds(childrenMap: map<Id, seq<Id>>, ids: seq<Id>): (r: seq<Id>)
    ensures forall k :: k in r <==> k in ids && IsLeaf(childrenMap, k)
  {
    if ids == [] then []
    else
      var last := ids[|ids| - 1];
      LeafIds(childrenMap, ids[..|ids| - 1]) + (if IsLeaf(childrenMap, last) then [last] else [])
  }

  /**
   * The atomic requirements are exactly the registered nodes with an absent or
   * empty children entry, each once, in registration order.
   */
  lemma {:induction false} AtomicExactly(g: GraphState, n: Requirement)
    requires Registered(g)
    ensures var atomic := Resolve(g.nodes.items, LeafIds(g.childrenMap, g.nodes.keys));
      && (n in atomic <==> n in g.nodes.items.Values && IsLeaf(g.childrenMap, n.id))
      && Image(atomic, IdOf) == LeafIds(g.childrenMap, g.nodes.keys)
  {
    var ids := LeafIds(g.childrenMap, g.nodes.keys);
    AtomicMember(g, n);
    ResolveIds(g.nodes.items, ids);
    KnownOfRegistered(g.nodes.items, ids);
  }

  lemma {:induction false} AtomicMember(g: GraphState, n: Requirement)
    requires Registered(g)
    ensures n in Resolve(g.nodes.items, LeafIds(g.childrenMap, g.nodes.keys)) <==>
            n in g.nodes.items.Values && IsLeaf(g.childrenMap, n.id)
  {
    var ids := LeafIds(g.childrenMap, g.nodes.keys);
    ResolveMembership(g.nodes.items, ids, n);
    if n in g.nodes.items.Values {
      var k :| k in g.nodes.items && g.nodes.items[k] == n;
      assert k == n.id;
      assert n.id in g.nodes.keys;
    }
  }

  lemma {:induction false} ResolveMembership(nodes: map<Id, Requirement>, ids: seq<Id>, n: Requirement)
    requires forall k :: k in nodes ==> nodes[k].id == k
    ensures n in Resolve(nodes, ids) <==> n.id in ids && n.id in nodes && nodes[n.id] == n
  {
    if ids != [] {
      ResolveMembership(nodes, ids[..|ids| - 1], n);
      assert ids == ids[..|ids| - 1] + [ids[|ids| - 1]];
    }
  }

  lemma {:induction false} ResolveAppend(nodes: map<Id, Requirement>, ids: seq<Id>, x: Id)
    ensures Resolve(nodes, ids + [x]) == Resolve(nodes, ids) + (if x in nodes then [nodes[x]] else [])
  {
    assert (ids + [x])[..|ids|] == ids;
  }

  lemma {:induction false} KnownOfRegistered(nodes: map<Id, Requirement>, ids: seq<Id>)
    requires forall k :: k in ids ==> k in nodes
    ensures Known(nodes, ids) == ids
  {
    if ids != [] {
      KnownOfRegistered(nodes, ids[..|ids| - 1]);
      assert ids == ids[..|ids| - 1] + [ids[|ids| - 1]];
    }
  }

  /** One step of the scan over the registry in `get_atomic_requirements`. */
  lemma {:induction false} AtomicScanStep(nodes: map<Id, Requirement>, childrenMap: map<Id, seq<Id>>, keys: seq<Id>, i: nat)
    requires i < |keys| && keys[i] in nodes && nodes[keys[i]].id == keys[i]
    ensures Resolve(nodes, LeafIds(childrenMap, keys[..i + 1])) ==
      Resolve(nodes, LeafIds(childrenMap, keys[..i])) +
      (if GetOr(childrenMap, keys[i], []) == [] then [nodes[keys[i]]] else [])
  {
    assert keys[..i + 1][..i] == keys[..i];
    var k := keys[i];
    assert IsLeaf(childrenMap, k) <==> GetOr(childrenMap, k, []) == [];
    if IsLeaf(childrenMap, k) {
      assert LeafIds(childrenMap, keys[..i + 1]) == LeafIds(childrenMap, keys[..i]) + [k];
      ResolveAppend(nodes, LeafIds(childrenMap, keys[..i]), k);
    } else {
      assert LeafIds(childrenMap, keys[..i + 1]) == LeafIds(childrenMap, keys[..i]);
    }
  }

  predicate IsUnsolved(n: Requirement) {
    n.status != Solved
  }

  /** Every edge goes from a registered node one level down to a registered node. */
  ghost predicate EdgesStepOneLevel(g: GraphState) {
    forall p, i :: p in g.childrenMap && 0 <= i < |g.childrenMap[p]| ==>
      && p in g.nodes.items && g.childrenMap[p][i] in g.nodes.items
      && g.nodes.items[g.childrenMap[p][i]].level == g.nodes.items[p].level + 1
  }

  /** The registry invariant plus: every children entry belongs to a registered node, and every edge steps one level. */
  ghost predicate WellFormed(g: GraphState) {
    && Registered(g)
    && (forall p :: p in g.childrenMap ==> p in g.nodes.items)
    && EdgesStepOneLevel(g)
  }

  /** Adding a fresh child one level below a registered parent keeps the graph well formed. */
  lemma {:induction false} ChildAddedKeepsLevels(g: GraphState, parentId: Id, child: Requirement)
    requires WellFormed(g)
    requires parentId in g.nodes.items && child.id !in g.nodes.items
    requires child.level == g.nodes.items[parentId].level + 1
    ensures WellFormed(ChildAdded(g, parentId, child))
  {
    var r := ChildAdded(g, parentId, child);
    ChildAddedSpec(g, parentId, child);
    forall p, i | p in r.childrenMap && 0 <= i < |r.childrenMap[p]|
      ensures p in r.nodes.items && r.childrenMap[p][i] in r.nodes.items
      ensures r.nodes.items[r.childrenMap[p][i]].level == r.nodes.items[p].level + 1
    {
      if p == parentId {
        if i < |GetOr(g.childrenMap, parentId, [])| {
          assert r.childrenMap[p][i] == g.childrenMap[p][i];
        }
      } else if p != child.id {
        assert r.childrenMap[p][i] == g.childrenMap[p][i];
      }
    }
  }

  /** Linking a registered parent to a node one level below it (or to an unknown id) keeps the graph well formed. */
  lemma {:induction false} ChildLinkedKeepsLevels(g: GraphState, parentId: Id, existingId: Id)
    requires WellFormed(g)
    requires parentId in g.nodes.items
    requires existingId in g.nodes.items ==> g.nodes.items[existingId].level == g.nodes.items[parentId].level + 1
    ensures WellFormed(ChildLinked(g, parentId, existingId))
  {
    var r := ChildLinked(g, parentId, existingId);
    ChildLinkedSpec(g, parentId, existingId);
    if existingId in g.nodes.items {
      var kids := GetOr(g.childrenMap, parentId, []);
      ChildLinkedChildren(g, parentId, existingId);
      forall p, i | p in r.childrenMap && 0 <= i < |r.childrenMap[p]|
        ensures p in r.nodes.items && r.childrenMap[p][i] in r.nodes.items
        ensures r.nodes.items[r.childrenMap[p][i]].level == r.nodes.items[p].level + 1
      {
        if p != parentId {
          assert r.childrenMap[p][i] == g.childrenMap[p][i];
        } else if r.childrenMap[p][i] != existingId {
          assert i < |kids| && r.childrenMap[p][i] == kids[i];
          assert kids[i] == g.childrenMap[p][i];
        }
      }
    }
  }

  /** The parent's children after a link: as before, with the linked node appended unless already there. */
  lemma {:induction false} ChildLinkedChildren(g: GraphState, parentId: Id, existingId: Id)
    requires existingId in g.nodes.items
    ensures var kids := GetOr(g.childrenMap, parentId, []);
      ChildLinked(g, parentId, existingId).childrenMap[parentId] ==
        if existingId in kids then kids else kids + [existingId]
  {
  }

  /**
   * The graph itself does not enforce levels: `add_child` accepts a child at
   * any level, so the one-level-step invariant holds only through the
   * decomposer that uses it.
   */
  lemma {:induction false} AddChildDoesNotCheckLevels()
    ensures var g := NodeAdded(EmptyGraph(0), NewRequirement(0, "root", 0, []));
      && WellFormed(g)
      && !EdgesStepOneLevel(ChildAdded(g, 0, NewRequirement(1, "child", 5, [0])))
  {
    var g := NodeAdded(EmptyGraph(0), NewRequirement(0, "root", 0, []));
    var r := ChildAdded(g, 0, NewRequirement(1, "child", 5, [0]));
    assert 1 in r.childrenMap[0];
  }

  /** The registered children of `nodeId`, in stored order. */
  function ChildrenOf(g: GraphState, nodeId: Id): (r: seq<Requirement>)
    ensures forall n :: n in r ==> n in g.nodes.items.Values
  {
    Resolve(g.nodes.items, GetOr(g.childrenMap, nodeId, []))
  }

  /** The registered nodes indexed under `level`, in stored order. */
  function LevelNodesOf(g: GraphState, level: int): (r: seq<Requirement>)
    ensures forall n :: n in r ==> n in g.nodes.items.Values
  {
    Resolve(g.nodes.items, GetOr(g.levels, level, []))
  }

  /** Some id in `ids` is registered exactly when resolving them gives some node. */
  lemma {:induction false} ResolveNonEmpty(nodes: map<Id, Requirement>, ids: seq<Id>)
    ensures Resolve(nodes, ids) != [] <==> exists k :: k in ids && k in nodes
  {
    if ids != [] {
      var init := ids[..|ids| - 1];
      ResolveNonEmpty(nodes, init);
      if exists k :: k in ids && k in nodes {
        var k :| k in ids && k in nodes;
        if k != ids[|ids| - 1] {
          assert k in init;
        }
      }
    }
  }

  /** The requirement graph as the source's class: fields updated in place. */
  class RequirementGraph {
    var rootId: Id
    var nodes: OrderedMap<Id, Requirement>
    var childrenMap: map<Id, seq<Id>>
    var levels: map<int, seq<Id>>
    var totalNodes: int
    var atomicCount: int
    var sharedCount: int
    var maxDepth: int

    /** The current field values. */
    function State(): GraphState
      reads this
    {
      GraphState(rootId, nodes, childrenMap, levels, totalNodes, atomicCount, sharedCount, maxDepth)
    }

    ghost predicate Valid()
      reads this
    {
      Registered(State())
    }

    constructor (rootId: Id)
      ensures State() == EmptyGraph(rootId) && Valid()
    {
      this.rootId := rootId;
      nodes := EmptyMap();
      childrenMap := map[];
      levels := map[];
      totalNodes, atomicCount, sharedCount, maxDepth := 0, 0, 0, 0;
    }

    method AddNode(node: Requirement)
      modifies this
      ensures State() == NodeAdded(old(State()), node)
      ensures old(Valid()) ==> Valid()
    {
      NodeAddedSpec(State(), node);
      nodes := nodes.Put(node.id, node);
      levels := levels[node.level := GetOr(levels, node.level, []) + [node.id]];
      if node.id !in childrenMap {
        childrenMap := childrenMap[node.id := []];
      }
      totalNodes := totalNodes + 1;
      maxDepth := Max(maxDepth, node.level);
    }

    method AddChild(parentId: Id, child: Requirement)
      modifies this
      ensures State() == ChildAdded(old(State()), parentId, child)
      ensures old(Valid()) ==> Valid()
    {
      ChildAddedSpec(State(), parentId, child);
      var c := child;
      if parentId !in c.parentIds {
        c := c.(parentIds := c.parentIds + [parentId]);
      }
      AddNode(c);
      if parentId !in childrenMap {
        childrenMap := childrenMap[parentId := []];
      }
      childrenMap := childrenMap[parentId := childrenMap[parentId] + [c.id]];
    }

    method LinkExistingChild(parentId: Id, existingChildId: Id)
      modifies this
      ensures State() == ChildLinked(old(State()), parentId, existingChildId)
      ensures old(Valid()) ==> Valid()
    {
      ChildLinkedRegistered(State(), parentId, existingChildId);
      if existingChildId !in nodes.items {
        return;
      }
      var existing := nodes.items[existingChildId];
      if parentId !in existing.parentIds {
        existing := existing.(parentIds := existing.parentIds + [parentId], isShared := true);
        nodes := nodes.Put(existingChildId, existing);
        sharedCount := sharedCount + 1;
      }
      if parentId !in childrenMap {
        childrenMap := childrenMap[parentId := []];
      }
      if existingChildId !in childrenMap[parentId] {
        childrenMap := childrenMap[parentId := childrenMap[parentId] + [existingChildId]];
      }
    }

    /** `get_node` */
    function GetNode(nodeId: Id): (r: Option<Requirement>)
      reads this
      ensures r.Some? <==> nodeId in nodes.items
      ensures r.Some? ==> r.value == nodes.items[nodeId]
    {
      nodes.Get(nodeId)
    }

    /** `get_root`; a graph without its root raises `KeyError`. */
    function GetRoot(): (r: Requirement)
      reads this
      requires rootId in nodes.items
      ensures r in nodes.items.Values
      ensures Valid() ==> r.id == rootId
    {
      nodes.items[rootId]
    }

    /** `get_children`: the registered children, in stored order; reads only. */
    function GetChildren(nodeId: Id): (r: seq<Requirement>)
      reads this
      ensures forall n :: n in r ==> n in nodes.items.Values
    {
      ChildrenOf(State(), nodeId)
    }

    /** `get_parents`: the registered parents of a registered node, in stored order; reads only. */
    function GetParents(nodeId: Id): (r: seq<Requirement>)
      reads this
      ensures nodeId !in nodes.items ==> r == []
      ensures forall n :: n in r ==> n in nodes.items.Values
    {
      if nodeId !in nodes.items then [] else Resolve(nodes.items, nodes.items[nodeId].parentIds)
    }

    /** `get_level_nodes`: the registered nodes indexed under `level`, in stored order; reads only. */
    function GetLevelNodes(level: int): (r: seq<Requirement>)
      reads this
      ensures forall n :: n in r ==> n in nodes.items.Values
    {
      LevelNodesOf(State(), level)
    }

    /** `get_atomic_requirements`: scan the registry in order and record how many nodes are atomic. */
    method GetAtomicRequirements() returns (atomic: seq<Requirement>)
      requires Valid()
      modifies this`atomicCount
      ensures atomic == Resolve(nodes.items, LeafIds(childrenMap, nodes.keys))
      ensures State() == old(State()).(atomicCount := |atomic|)
    {
      atomic := ScanAtomic();
      atomicCount := |atomic|;
    }

    /** The scan of `get_atomic_requirements`: every registered node without children, in registration order. */
    method ScanAtomic() returns (atomic: seq<Requirement>)
      requires Valid()
      ensures atomic == Resolve(nodes.items, LeafIds(childrenMap, nodes.keys))
    {
      atomic := [];
      for i := 0 to |nodes.keys|
        invariant atomic == Resolve(nodes.items, LeafIds(childrenMap, nodes.keys[..i]))
      {
        assert nodes.keys[i] in nodes.items;
        var node := nodes.items[nodes.keys[i]];
        AtomicScanStep(nodes.items, childrenMap, nodes.keys, i);
        var children := GetOr(childrenMap, node.id, []);
        if children == [] {
          atomic := atomic + [node];
        }
      }
      assert nodes.keys[..|nodes.keys|] == nodes.keys;
    }

    /** `get_unsolved_atomic`: the atomic requirements not yet solved, in order. */
    method GetUnsolvedAtomic() returns (unsolved: seq<Requirement>)
      requires Valid()
      modifies this`atomicCount
      ensures unsolved == Filter(Resolve(nodes.items, LeafIds(childrenMap, nodes.keys)), IsUnsolved)
      ensures State() == old(State()).(atomicCount := |Resolve(nodes.items, LeafIds(childrenMap, nodes.keys))|)
    {
      var atomic := GetAtomicRequirements();
      unsolved := Filter(atomic, IsUnsolved);
    }

    /** The in-place writes `req.solution_id = solutionId; req.status = SOLVED` on a registered node. */
    method SetSolved(nodeId: Id, solutionId: Id)
      requires nodeId in nodes.items
      modifies this
      ensures State() == old(State()).(nodes := old(nodes).Put(nodeId,
                old(nodes.items[nodeId]).(solutionId := Some(solutionId), status := Solved)))
    {
      nodes := nodes.Put(nodeId, nodes.items[nodeId].(solutionId := Some(solutionId), status := Solved));
    }
  }
}
