/**
 * The deduplication store: one indexed point per requirement, searched by
 * similarity within a single level. Embedding and the vector database are
 * replaced by a similarity function supplied by the caller; the points are
 * kept in insertion order and a search returns the first `topK` hits in that
 * order.
 */
module RequirementStore {
  import opened Wrappers
  import opened Collections
  import opened Requirements

  /** The payload stored for one requirement. */
  datatype Point = Point(requirementId: Id, content: string, level: int)

  /** `RequirementCandidate`: a stored requirement with its similarity to the query. */
  datatype Candidate = Candidate(requirementId: Id, content: string, level: int, score: real)

  function PointOf(req: Requirement): Point {
    Point(req.id, req.content, req.level)
  }

  /** The stored requirement a candidate was built from. */
  function CandidatePoint(c: Candidate): Point {
    Point(c.requirementId, c.content, c.level)
  }

  /** A stored point is a hit when it is at exactly `level` and its similarity to `content` reaches `threshold`. */
  predicate IsHit(p: Point, content: string, level: int, threshold: real, similarity: (string, string) -> real) {
    p.level == level && similarity(content, p.content) >= threshold
  }

  /** The candidate a hit is reported as: the stored payload with its score. */
  function Scored(p: Point, content: string, similarity: (string, string) -> real): (c: Candidate)
    ensures CandidatePoint(c) == p
  {
    Candidate(p.requirementId, p.content, p.level, similarity(content, p.content))
  }

  /** Every stored point at `level` whose similarity to `content` reaches `threshold`, in the order of `keys`. */
  function Hits(points: map<Id, Point>, keys: seq<Id>, content: string, level: int,
                threshold: real, similarity: (string, string) -> real): (r: seq<Candidate>)
    ensures |r| <= |keys|
    ensures forall c :: c in r ==> c.level == level && c.score >= threshold && CandidatePoint(c) in points.Values
  {
    if keys == [] then []
    else
      var k := keys[|keys| - 1];
      var init := Hits(points, keys[..|keys| - 1], content, level, threshold, similarity);
      if k in points && IsHit(points[k], content, level, threshold, similarity) then
        init + [Scored(points[k], content, similarity)]
      else init
  }

  /** The hits of a concatenation are the hits of each part, in order: hits are reported in key order. */
  lemma {:induction false} HitsAppend(points: map<Id, Point>, a: seq<Id>, b: seq<Id>, content: string, level: int,
                                      threshold: real, similarity: (string, string) -> real)
    ensures Hits(points, a + b, content, level, threshold, similarity)
         == Hits(points, a, content, level, threshold, similarity) + Hits(points, b, content, level, threshold, similarity)
    decreases |b|
  {
    if b == [] {
      assert a + b == a;
    } else {
      var init := b[..|b| - 1];
      assert (a + b)[..|a + b| - 1] == a + init;
      HitsAppend(points, a, init, content, level, threshold, similarity);
    }
  }

  /** The key at position `i` of `keys` is stored, is a hit, and `c` is the candidate it yields. */
  ghost predicate HitAt(points: map<Id, Point>, keys: seq<Id>, i: int, c: Candidate, content: string, level: int,
                        threshold: real, similarity: (string, string) -> real) {
    && 0 <= i < |keys| && keys[i] in points
    && IsHit(points[keys[i]], content, level, threshold, similarity)
    && c == Scored(points[keys[i]], content, similarity)
  }

  /** A candidate is among the hits exactly when some stored key at the level reaches the threshold and yields it. */
  lemma {:induction false} HitsMembership(points: map<Id, Point>, keys: seq<Id>, c: Candidate, content: string, level: int,
                                          threshold: real, similarity: (string, string) -> real)
    ensures c in Hits(points, keys, content, level, threshold, similarity)
        <==> exists i :: HitAt(points, keys, i, c, content, level, threshold, similarity)
  {
    if keys != [] {
      var init := keys[..|keys| - 1];
      HitsMembership(points, init, c, content, level, threshold, similarity);
      if c in Hits(points, keys, content, level, threshold, similarity) {
        if c in Hits(points, init, content, level, threshold, similarity) {
          var i :| HitAt(points, init, i, c, content, level, threshold, similarity);
          assert HitAt(points, keys, i, c, content, level, threshold, similarity);
        } else {
          assert HitAt(points, keys, |keys| - 1, c, content, level, threshold, similarity);
        }
      }
      if exists i :: HitAt(points, keys, i, c, content, level, threshold, similarity) {
        var i :| HitAt(points, keys, i, c, content, level, threshold, similarity);
        if i < |keys| - 1 {
          assert HitAt(points, init, i, c, content, level, threshold, similarity);
        }
      }
    }
  }

  class Store {
    /** The indexed points by requirement id; re-adding an id overwrites its point in place. */
    var points: OrderedMap<Id, Point>

    constructor ()
      ensures points == EmptyMap()
    {
      points := EmptyMap();
    }

    /** `clear`: drop every point of the previous session. */
    method Clear()
      modifies this
      ensures points == EmptyMap()
    {
      points := EmptyMap();
    }

    /** `add_requirement`: upsert the requirement's point under its id. */
    method AddRequirement(req: Requirement)
      modifies this
      ensures points == old(points).Put(req.id, PointOf(req))
    {
      points := points.Put(req.id, PointOf(req));
    }

    /**
     * `find_similar`: the candidates at exactly `level` whose similarity to
     * `content` is at least `threshold`, at most `topK` of them.
     */
    method FindSimilar(content: string, level: int, topK: nat, threshold: real,
                       similarity: (string, string) -> real) returns (candidates: seq<Candidate>)
      ensures candidates == Prefix(Hits(points.items, points.keys, content, level, threshold, similarity), topK)
      ensures |candidates| <= topK
    {
      candidates := [];
      for i := 0 to |points.keys|
        invariant candidates == Prefix(Hits(points.items, points.keys[..i], content, level, threshold, similarity), topK)
      {
        var k := points.keys[i];
        assert points.keys[..i + 1][..i] == points.keys[..i];
        if k in points.items && points.items[k].level == level && similarity(content, points.items[k].content) >= threshold {
          var p := points.items[k];
          var hits := Hits(points.items, points.keys[..i], content, level, threshold, similarity);
          PrefixAppend(hits, Candidate(p.requirementId, p.content, p.level, similarity(content, p.content)), topK);
          if |candidates| < topK {
            candidates := candidates + [Candidate(p.requirementId, p.content, p.level, similarity(content, p.content))];
          }
        }
      }
      assert points.keys[..|points.keys|] == points.keys;
    }
  }
}
