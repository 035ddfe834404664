/** Sums of a weight over the values of a finite map, and how one update changes them. */
module MapSums {

  ghost function Total<K, V>(m: map<K, V>, w: V -> int): int
    decreases |m|
  {
    if m == map[] then 0
    else
      var k :| k in m;
      w(m[k]) + Total(m - {k}, w)
  }

  lemma {:induction false} Without<K, V>(m: map<K, V>, w: V -> int, k: K)
    requires k in m
    ensures Total(m, w) == w(m[k]) + Total(m - {k}, w)
    decreases |m|
  {
    var j :| j in m && Total(m, w) == w(m[j]) + Total(m - {j}, w);
    if j != k {
      Without(m - {j}, w, k);
      Without(m - {k}, w, j);
      assert m - {j} - {k} == m - {k} - {j};
    }
  }

  /** What one key contributes; nothing when it is absent. */
  function At<K, V>(m: map<K, V>, w: V -> int, k: K): int { if k in m then w(m[k]) else 0 }

  lemma Update<K, V>(m: map<K, V>, w: V -> int, k: K, v: V)
    ensures Total(m[k := v], w) == Total(m, w) - At(m, w, k) + w(v)
  {
    Without(m[k := v], w, k);
    assert m[k := v] - {k} == m - {k};
    if k in m { Without(m, w, k); } else { assert m - {k} == m; }
  }

  lemma {:induction false} Bounds<K, V>(m: map<K, V>, w: V -> int)
    requires forall k | k in m :: w(m[k]) >= 0
    ensures Total(m, w) >= 0
    ensures forall k | k in m :: w(m[k]) <= Total(m, w)
    decreases |m|
  {
    if m != map[] {
      var j :| j in m && Total(m, w) == w(m[j]) + Total(m - {j}, w);
      Bounds(m - {j}, w);
      assert forall k | k in m && k != j :: k in m - {j} && (m - {j})[k] == m[k];
    }
  }

  /** Two maps whose values weigh the same key by key have the same total. */
  lemma {:induction false} Same<K, V>(m: map<K, V>, n: map<K, V>, w: V -> int)
    requires m.Keys == n.Keys && forall k | k in m :: w(m[k]) == w(n[k])
    ensures Total(m, w) == Total(n, w)
    decreases |m|
  {
    if m == map[] {
      assert n == map[];
    } else {
      var j :| j in m && Total(m, w) == w(m[j]) + Total(m - {j}, w);
      Without(n, w, j);
      Same(m - {j}, n - {j}, w);
    }
  }

  /** A map whose values weigh no more, key by key, has no greater total. */
  lemma {:induction false} NoMore<K, V>(m: map<K, V>, n: map<K, V>, w: V -> int)
    requires m.Keys == n.Keys && forall k | k in m :: w(m[k]) <= w(n[k])
    ensures Total(m, w) <= Total(n, w)
    decreases |m|
  {
    if m == map[] {
      assert n == map[];
    } else {
      var j :| j in m && Total(m, w) == w(m[j]) + Total(m - {j}, w);
      Without(n, w, j);
      NoMore(m - {j}, n - {j}, w);
    }
  }

  /** Entries of no weight add nothing. */
  lemma {:induction false} Weightless<K, V>(m: map<K, V>, n: map<K, V>, w: V -> int)
    requires m.Keys <= n.Keys && forall k | k in m :: n[k] == m[k]
    requires forall k | k in n && k !in m :: w(n[k]) == 0
    ensures Total(n, w) == Total(m, w)
    decreases |n|
  {
    if k :| k in n && k !in m {
      Without(n, w, k);
      Weightless(m, n - {k}, w);
    } else {
      assert n == m;
    }
  }

  /** A part of a map never weighs more than the whole when nothing weighs less than nothing. */
  lemma {:induction false} Part<K, V>(m: map<K, V>, n: map<K, V>, w: V -> int)
    requires m.Keys <= n.Keys && forall k | k in m :: n[k] == m[k]
    requires forall k | k in n :: w(n[k]) >= 0
    ensures Total(m, w) <= Total(n, w)
    decreases |n|
  {
    if k :| k in n && k !in m {
      Without(n, w, k);
      Part(m, n - {k}, w);
    } else {
      assert n == m;
    }
  }

  /** Visiting one more key of a map's keys. */
  lemma VisitOne<K>(all: set<K>, visited: set<K>, remaining: set<K>, k: K)
    requires visited + remaining == all && visited !! remaining && k in remaining
    ensures (visited + {k}) + (remaining - {k}) == all && (visited + {k}) !! (remaining - {k}) && |remaining - {k}| < |remaining|
  {}

  /** A sum in progress: what was seen, and what remains, make up the whole. */
  ghost predicate Summing<K, V>(all: map<K, V>, seen: map<K, V>, remaining: set<K>) {
    seen.Keys + remaining == all.Keys && seen.Keys !! remaining && forall k | k in seen :: seen[k] == all[k]
  }

  lemma SumOneMore<K, V>(all: map<K, V>, seen: map<K, V>, remaining: set<K>, w: V -> int, k: K)
    requires Summing(all, seen, remaining) && k in remaining && forall j | j in all :: w(all[j]) >= 0
    ensures Summing(all, seen[k := all[k]], remaining - {k})
    ensures Total(seen[k := all[k]], w) == Total(seen, w) + w(all[k]) <= Total(all, w)
  {
    Update(seen, w, k, all[k]);
    Part(seen[k := all[k]], all, w);
  }

  lemma Summed<K, V>(all: map<K, V>, seen: map<K, V>)
    requires Summing(all, seen, {})
    ensures seen == all
  {}

  /** A map that differs from another at one key is that map updated there. */
  lemma UpdatedAt<K, V>(m: map<K, V>, n: map<K, V>, k: K)
    requires m.Keys == n.Keys && k in m && forall j | j in m && j != k :: n[j] == m[j]
    ensures n == m[k := n[k]]
  {}

  lemma MergedInTurn<K, V>(a: map<K, V>, b: map<K, V>, c: map<K, V>)
    ensures (a + b) + c == a + (b + c)
  {}
}
