/**
 * Sequence and dictionary helpers shared by the model: order-preserving
 * filtering, deduplication by key, and Python's insertion-ordered `dict`.
 */
module Collections {
  import opened Wrappers

  /** No element occurs twice: the last one is new and the rest are distinct. */
  ghost predicate Distinct<T>(s: seq<T>) {
    s == [] || (s[|s| - 1] !in s[..|s| - 1] && Distinct(s[..|s| - 1]))
  }

  /** `Distinct` is the usual pairwise statement. */
  lemma {:induction false} DistinctPairwise<T>(s: seq<T>)
    ensures Distinct(s) <==> forall i, j :: 0 <= i < j < |s| ==> s[i] != s[j]
  {
    if s != [] {
      var init, last := s[..|s| - 1], s[|s| - 1];
      DistinctPairwise(init);
      if Distinct(s) {
        forall i, j | 0 <= i < j < |s| ensures s[i] != s[j] {
          if j == |s| - 1 {
            assert s[i] == init[i];
          } else {
            assert s[i] == init[i] && s[j] == init[j];
          }
        }
      }
      if forall i, j :: 0 <= i < j < |s| ==> s[i] != s[j] {
        forall i | 0 <= i < |init| ensures init[i] != last {
          assert init[i] == s[i];
        }
        forall i, j | 0 <= i < j < |init| ensures init[i] != init[j] {
          assert init[i] == s[i] && init[j] == s[j];
        }
      }
    }
  }

  /** At most the first `n` elements: Python's `s[:n]`. */
  function Prefix<T>(s: seq<T>, n: nat): (r: seq<T>)
    ensures r <= s && |r| == Min(n, |s|)
  {
    if |s| <= n then s else s[..n]
  }

  /** A further element enters the first `n` exactly when fewer than `n` were there. */
  lemma {:induction false} PrefixAppend<T>(s: seq<T>, x: T, n: nat)
    ensures Prefix(s + [x], n) == if |s| < n then s + [x] else Prefix(s, n)
  {
    if |s| >= n {
      assert (s + [x])[..n] == s[..n];
    }
  }

  /** A prefix one longer is the prefix and the next element. */
  lemma PrefixSnoc<T>(s: seq<T>, i: nat)
    requires i < |s|
    ensures s[..i + 1] == s[..i] + [s[i]]
  {
  }

  /** Some element maps to `y` exactly when some earlier element does or the last one does. */
  lemma ImageSnoc<T, U>(xs: seq<T>, f: T -> U, y: U)
    requires xs != []
    ensures (exists x :: x in xs && f(x) == y) <==> (exists x :: x in xs[..|xs| - 1] && f(x) == y) || f(xs[|xs| - 1]) == y
  {
    assert xs == xs[..|xs| - 1] + [xs[|xs| - 1]];
  }

  /** Some position satisfies `p` exactly when some position before the last does or the last one does. */
  lemma ExistsSnoc<T>(xs: seq<T>, init: seq<T>, p: T -> bool)
    requires xs != [] && init == xs[..|xs| - 1]
    ensures (exists i :: 0 <= i < |xs| && p(xs[i])) <==> (exists i :: 0 <= i < |init| && p(init[i])) || p(xs[|xs| - 1])
  {
    if exists i :: 0 <= i < |xs| && p(xs[i]) {
      var i :| 0 <= i < |xs| && p(xs[i]);
      if i < |init| {
        assert init[i] == xs[i];
      }
    }
    if exists i :: 0 <= i < |init| && p(init[i]) {
      var i :| 0 <= i < |init| && p(init[i]);
      assert init[i] == xs[i];
    }
  }

  /** The elements of `s` that satisfy `p`, in their original order (a list comprehension with an `if`). */
  function Filter<T>(s: seq<T>, p: T -> bool): (r: seq<T>)
    ensures |r| <= |s|
    ensures forall x :: x in r ==> x in s && p(x)
  {
    if s == [] then []
    else Filter(s[..|s| - 1], p) + (if p(s[|s| - 1]) then [s[|s| - 1]] else [])
  }

  lemma {:induction false} FilterMembership<T>(s: seq<T>, p: T -> bool, x: T)
    ensures x in Filter(s, p) <==> x in s && p(x)
  {
    if s != [] {
      FilterMembership(s[..|s| - 1], p, x);
      assert s == s[..|s| - 1] + [s[|s| - 1]];
    }
  }

  /** Filtering keeps exactly what the complementary filter drops: together they are a permutation of `s`. */
  lemma {:induction false} FilterPartition<T>(s: seq<T>, p: T -> bool, q: T -> bool)
    requires forall x :: q(x) == !p(x)
    ensures multiset(Filter(s, p)) + multiset(Filter(s, q)) == multiset(s)
    ensures |Filter(s, p)| + |Filter(s, q)| == |s|
  {
    if s != [] {
      var init, last := s[..|s| - 1], s[|s| - 1];
      FilterPartition(init, p, q);
      assert s == init + [last];
      FilterPartitionStep(Filter(init, p), Filter(init, q), init, last, p(last), Filter(s, p), Filter(s, q));
    }
  }

  /** One element more goes to exactly one side of the partition. */
  lemma {:induction false} FilterPartitionStep<T>(fp: seq<T>, fq: seq<T>, init: seq<T>, last: T, side: bool, rp: seq<T>, rq: seq<T>)
    requires multiset(fp) + multiset(fq) == multiset(init) && |fp| + |fq| == |init|
    requires side ==> rp == fp + [last] && rq == fq
    requires !side ==> rp == fp && rq == fq + [last]
    ensures multiset(rp) + multiset(rq) == multiset(init + [last])
    ensures |rp| + |rq| == |init + [last]|
  {
  }

  /** One element more is kept exactly when it satisfies `p`. */
  lemma FilterSnoc<T>(s: seq<T>, x: T, p: T -> bool)
    ensures Filter(s + [x], p) == Filter(s, p) + (if p(x) then [x] else [])
  {
    assert (s + [x])[..|s|] == s;
  }

  /** Filtering a filtered sequence is filtering by both conditions at once. */
  lemma {:induction false} FilterNested<T>(s: seq<T>, p: T -> bool, q: T -> bool, r: T -> bool)
    requires forall x :: r(x) == (p(x) && q(x))
    ensures Filter(Filter(s, p), q) == Filter(s, r)
  {
    if s != [] {
      var init, last := s[..|s| - 1], s[|s| - 1];
      FilterNested(init, p, q, r);
      assert s == init + [last];
      FilterSnoc(init, last, p);
      FilterSnoc(init, last, r);
      assert r(last) == (p(last) && q(last));
      if p(last) {
        var fp := Filter(init, p);
        assert Filter(s, p) == fp + [last];
        FilterSnoc(fp, last, q);
        assert Filter(Filter(s, p), q) == Filter(fp, q) + (if q(last) then [last] else []);
      } else {
        assert Filter(s, p) == Filter(init, p);
      }
    }
  }

  lemma {:induction false} FilterAppend<T>(s: seq<T>, t: seq<T>, p: T -> bool)
    ensures Filter(s + t, p) == Filter(s, p) + Filter(t, p)
    decreases |t|
  {
    if t == [] {
      assert s + t == s;
    } else {
      assert (s + t)[..|s + t| - 1] == s + t[..|t| - 1];
      FilterAppend(s, t[..|t| - 1], p);
    }
  }

  /** Filtering a sequence of distinct elements leaves them distinct. */
  lemma {:induction false} FilterDistinct<T>(s: seq<T>, p: T -> bool)
    requires Distinct(s)
    ensures Distinct(Filter(s, p))
  {
    if s != [] {
      var init := s[..|s| - 1];
      var f := Filter(init, p);
      FilterDistinct(init, p);
      if p(s[|s| - 1]) {
        FilterMembership(init, p, s[|s| - 1]);
        assert Filter(s, p) == f + [s[|s| - 1]];
        assert (f + [s[|s| - 1]])[..|f|] == f;
      } else {
        assert Filter(s, p) == f;
      }
    }
  }

  /** `[f(x) for x in xs]`. */
  function Image<T, U>(xs: seq<T>, f: T -> U): (r: seq<U>)
    ensures |r| == |xs| && forall i :: 0 <= i < |xs| ==> r[i] == f(xs[i])
  {
    seq(|xs|, i requires 0 <= i < |xs| => f(xs[i]))
  }

  /** The keys of the elements of `s`. */
  function KeysOf<T, K(==)>(s: seq<T>, key: T -> K): set<K> {
    set i | 0 <= i < |s| :: key(s[i])
  }

  lemma {:induction false} KeysOfAppend<T, K>(s: seq<T>, x: T, key: T -> K)
    ensures KeysOf(s + [x], key) == KeysOf(s, key) + {key(x)}
  {
    var l, r := KeysOf(s + [x], key), KeysOf(s, key) + {key(x)};
    forall y | y in r ensures y in l {
      if y != key(x) {
        var i :| 0 <= i < |s| && key(s[i]) == y;
        assert (s + [x])[i] == s[i];
      } else {
        assert (s + [x])[|s|] == x;
      }
    }
    forall y | y in l ensures y in r {
      var i :| 0 <= i < |s| + 1 && key((s + [x])[i]) == y;
      if i < |s| {
        assert (s + [x])[i] == s[i];
      }
    }
  }

  /**
   * Deduplication by key in first-seen order: the loop `if key(x) not in seen:
   * out.append(x); seen.add(key(x))`, written as a function of the input.
   */
  function Dedup<T, K(==)>(s: seq<T>, key: T -> K): (r: seq<T>)
    ensures |r| <= |s|
  {
    if s == [] then []
    else
      var r := Dedup(s[..|s| - 1], key);
      if key(s[|s| - 1]) in KeysOf(r, key) then r else r + [s[|s| - 1]]
  }

  /** Deduplication keeps one element per key, loses no key, and keeps only elements of `s`. */
  lemma {:induction false} DedupProperties<T, K>(s: seq<T>, key: T -> K)
    ensures forall i, j :: 0 <= i < j < |Dedup(s, key)| ==> key(Dedup(s, key)[i]) != key(Dedup(s, key)[j])
    ensures KeysOf(Dedup(s, key), key) == KeysOf(s, key)
    ensures forall x :: x in Dedup(s, key) ==> x in s
  {
    if s != [] {
      var init, last := s[..|s| - 1], s[|s| - 1];
      DedupProperties(init, key);
      assert s == init + [last];
      var r := Dedup(init, key);
      KeysOfAppend(init, last, key);
      if key(last) !in KeysOf(r, key) {
        var r' := r + [last];
        KeysOfAppend(r, last, key);
        forall i, j | 0 <= i < j < |r'| ensures key(r'[i]) != key(r'[j]) {
          if j == |r| {
            assert r'[i] in r;
          }
        }
      }
    }
  }

  /** The element kept for each key is its first occurrence in `s`. */
  lemma {:induction false} DedupFirstOccurrence<T, K>(s: seq<T>, key: T -> K, i: nat)
    requires i < |Dedup(s, key)|
    ensures exists j :: 0 <= j < |s| && s[j] == Dedup(s, key)[i] &&
                        forall k :: 0 <= k < j ==> key(s[k]) != key(s[j])
  {
    var init := s[..|s| - 1];
    if i < |Dedup(init, key)| {
      DedupFirstOccurrence(init, key, i);
      var j :| 0 <= j < |init| && init[j] == Dedup(init, key)[i] && forall k :: 0 <= k < j ==> key(init[k]) != key(init[j]);
      DedupKeepsEarlier(s, key, i);
      assert s[j] == init[j];
      assert forall k :: 0 <= k < j ==> s[k] == init[k];
    } else {
      DedupNewLast(s, key, i);
      assert s[|s| - 1] == Dedup(s, key)[i];
    }
  }

  /** An element kept before the last one is the same in the deduplication of the prefix. */
  lemma {:induction false} DedupKeepsEarlier<T, K>(s: seq<T>, key: T -> K, i: nat)
    requires s != [] && i < |Dedup(s[..|s| - 1], key)|
    ensures i < |Dedup(s, key)| && Dedup(s, key)[i] == Dedup(s[..|s| - 1], key)[i]
  {
  }

  /** A kept element past the prefix's deduplication is the last one, whose key no earlier element has. */
  lemma {:induction false} DedupNewLast<T, K>(s: seq<T>, key: T -> K, i: nat)
    requires i < |Dedup(s, key)|
    requires s != [] ==> i >= |Dedup(s[..|s| - 1], key)|
    ensures s != [] && Dedup(s, key)[i] == s[|s| - 1]
    ensures forall k :: 0 <= k < |s| - 1 ==> key(s[k]) != key(s[|s| - 1])
  {
    var init, last := s[..|s| - 1], s[|s| - 1];
    DedupProperties(init, key);
    assert key(last) !in KeysOf(init, key);
    forall k | 0 <= k < |s| - 1 ensures key(s[k]) != key(last) {
      assert s[k] == init[k];
      assert key(init[k]) in KeysOf(init, key);
    }
  }

  /** A sequence whose keys are already distinct is its own deduplication. */
  lemma {:induction false} DedupOfDistinct<T, K>(s: seq<T>, key: T -> K)
    requires forall i, j :: 0 <= i < j < |s| ==> key(s[i]) != key(s[j])
    ensures Dedup(s, key) == s
  {
    if s != [] {
      var init := s[..|s| - 1];
      DedupOfDistinct(init, key);
      assert key(s[|s| - 1]) !in KeysOf(init, key) by {
        forall i | 0 <= i < |init| ensures key(init[i]) != key(s[|s| - 1]) {
          assert init[i] == s[i];
        }
      }
      assert s == init + [s[|s| - 1]];
    }
  }

  /** The deduplication loop of the source, proved to compute `Dedup`. */
  method DedupByKey<T, K(==)>(s: seq<T>, key: T -> K) returns (r: seq<T>)
    ensures r == Dedup(s, key)
  {
    var seen: set<K> := {};
    r := [];
    for i := 0 to |s|
      invariant r == Dedup(s[..i], key)
      invariant seen == KeysOf(r, key)
    {
      assert s[..i + 1][..i] == s[..i];
      var x := s[i];
      KeysOfAppend(r, x, key);
      if key(x) !in seen {
        r := r + [x];
        seen := seen + {key(x)};
      }
    }
    assert s[..|s|] == s;
  }

  /**
   * Python's `dict`: a map together with the order in which its keys were first
   * inserted. Assigning to a key already present keeps its position.
   */
  datatype OrderedMap<K, V> = OrderedMap(keys: seq<K>, items: map<K, V>) {

    /** Every key is listed once, and exactly the keys are listed. */
    ghost predicate Valid() {
      && Distinct(keys)
      && (forall k :: k in items ==> k in keys)
      && (forall i :: 0 <= i < |keys| ==> keys[i] in items)
    }

    /** `d[k] = v` */
    function Put(k: K, v: V): (r: OrderedMap<K, V>)
      ensures r.items == items[k := v]
      ensures k in items ==> r.keys == keys
      ensures k !in items ==> r.keys == keys + [k]
      ensures Valid() ==> r.Valid()
    {
      if k in items then OrderedMap(keys, items[k := v])
      else
        assert (keys + [k])[..|keys|] == keys;
        OrderedMap(keys + [k], items[k := v])
    }

    /** `d.get(k)` */
    function Get(k: K): Option<V> {
      if k in items then Some(items[k]) else None
    }
  }

  /** `{}` */
  function EmptyMap<K, V>(): (r: OrderedMap<K, V>)
    ensures r.Valid() && r.items == map[]
  {
    OrderedMap([], map[])
  }

  /** `d.get(k, default)` on a plain map. */
  function GetOr<K, V>(m: map<K, V>, k: K, default: V): V {
    if k in m then m[k] else default
  }

  function Min(a: int, b: int): int { if a <= b then a else b }
  function Max(a: int, b: int): int { if a >= b then a else b }
}
