/**
 * What the decomposition driver keeps true of the requirement graph and the
 * deduplication store together.
 */
module DecompositionInvariant {
  import opened Collections
  import opened Requirements
  import opened RequirementStore

  /** Nodes at this level are never expanded. */
  const MaxLevel: int := 3

  /** The root is registered at level 0 without parents. */
  ghost predicate Rooted(g: GraphState) {
    && g.rootId in g.nodes.items
    && g.nodes.items[g.rootId].level == 0
    && g.nodes.items[g.rootId].parentIds == []
  }

  /** Every id was issued before `nextId` and every level lies in 0..MaxLevel. */
  ghost predicate Bounded(g: GraphState, nextId: Id) {
    forall k :: k in g.nodes.items ==> k < nextId && 0 <= g.nodes.items[k].level <= MaxLevel
  }

  /** The store holds exactly one point per node, carrying its id, content and level. */
  ghost predicate Indexed(g: GraphState, points: OrderedMap<Id, Point>) {
    && points.Valid()
    && points.items.Keys == g.nodes.items.Keys
    && (forall k :: k in points.items ==> points.items[k] == PointOf(g.nodes.items[k]))
  }

  /**
   * What the driver keeps true of the graph and the store together: the graph
   * is well formed (so every edge steps one level down), the root is at level 0
   * without parents, every level lies in 0..MaxLevel, every id was issued
   * before `nextId`, and the store indexes exactly the graph's nodes.
   */
  ghost predicate Consistent(g: GraphState, points: OrderedMap<Id, Point>, nextId: Id) {
    WellFormed(g) && Rooted(g) && Bounded(g, nextId) && Indexed(g, points)
  }
}
