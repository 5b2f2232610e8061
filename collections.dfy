/**
 * Sequence and map vocabulary shared by the components: the set of keys of
 * a batch, first-seen deduplication by key (what a `Set` of seen keys
 * inside a `for` loop computes), grouping by a field, counting, filtering,
 * and the sum of the list lengths in a map.
 */
module Collections {

  /** The keys that occur in `s`. */
  function KeySet<T, K(==)>(s: seq<T>, key: T -> K): set<K> {
    set i | 0 <= i < |s| :: key(s[i])
  }

  lemma KeySetSnoc<T, K>(s: seq<T>, x: T, key: T -> K)
    ensures KeySet(s + [x], key) == KeySet(s, key) + {key(x)}
  {
    var t := s + [x];
    forall k | k in KeySet(t, key) ensures k in KeySet(s, key) + {key(x)} {
      var i :| 0 <= i < |t| && key(t[i]) == k;
      if i < |s| { assert t[i] == s[i]; }
    }
    forall k | k in KeySet(s, key) ensures k in KeySet(t, key) {
      var i :| 0 <= i < |s| && key(s[i]) == k;
      assert t[i] == s[i];
    }
    assert t[|s|] == x;
  }

  lemma KeyInSet<T, K>(s: seq<T>, key: T -> K, i: nat)
    requires i < |s|
    ensures key(s[i]) in KeySet(s, key)
  {
  }

  /** No two elements of `s` share a key. */
  predicate DistinctKeys<T, K(==)>(s: seq<T>, key: T -> K) {
    forall i, j :: 0 <= i < j < |s| ==> key(s[i]) != key(s[j])
  }

  /** The position of the first element of `s` whose key is `k`. */
  function IndexOfKey<T, K(==)>(s: seq<T>, key: T -> K, k: K): (i: nat)
    requires k in KeySet(s, key)
    ensures i < |s| && key(s[i]) == k
    ensures forall j :: 0 <= j < i ==> key(s[j]) != k
  {
    if key(s[0]) == k then 0
    else
      assert k in KeySet(s[1..], key) by {
        var i :| 0 <= i < |s| && key(s[i]) == k;
        assert s[1..][i - 1] == s[i];
      }
      1 + IndexOfKey(s[1..], key, k)
  }

  lemma {:induction false} IndexOfKeySnoc<T, K>(s: seq<T>, x: T, key: T -> K, k: K)
    requires k in KeySet(s + [x], key)
    ensures k in KeySet(s, key) ==> IndexOfKey(s + [x], key, k) == IndexOfKey(s, key, k)
    ensures k !in KeySet(s, key) ==> IndexOfKey(s + [x], key, k) == |s|
  {
    KeySetSnoc(s, x, key);
    var i := IndexOfKey(s + [x], key, k);
    if k in KeySet(s, key) {
      var j := IndexOfKey(s, key, k);
      assert (s + [x])[j] == s[j];
      assert forall n :: 0 <= n < |s| ==> (s + [x])[n] == s[n];
    } else {
      assert forall n :: 0 <= n < |s| ==> key(s[n]) in KeySet(s, key);
      assert forall n :: 0 <= n < |s| ==> (s + [x])[n] == s[n];
    }
  }

  /**
   * Keep the first element for each key, in input order: the loop
   * `if (!seen.has(k)) { seen.add(k); out.push(x) }`.
   */
  function FirstSeenBy<T, K(==)>(s: seq<T>, key: T -> K): seq<T>
  {
    if s == [] then []
    else
      var init := s[..|s| - 1];
      if key(s[|s| - 1]) in KeySet(init, key) then FirstSeenBy(init, key)
      else FirstSeenBy(init, key) + [s[|s| - 1]]
  }

  lemma FirstSeenBySnoc<T, K>(s: seq<T>, x: T, key: T -> K)
    ensures FirstSeenBy(s + [x], key) ==
      if key(x) in KeySet(s, key) then FirstSeenBy(s, key) else FirstSeenBy(s, key) + [x]
  {
    assert (s + [x])[..|s|] == s;
  }

  /** First-seen deduplication keeps every key and repeats none. */
  lemma {:induction false} FirstSeenKeys<T, K>(s: seq<T>, key: T -> K)
    ensures KeySet(FirstSeenBy(s, key), key) == KeySet(s, key)
    ensures DistinctKeys(FirstSeenBy(s, key), key)
    ensures |FirstSeenBy(s, key)| == |KeySet(s, key)|
    decreases |s|
  {
    if s != [] {
      var init, x := s[..|s| - 1], s[|s| - 1];
      assert s == init + [x];
      FirstSeenKeys(init, key);
      KeySetSnoc(init, x, key);
      var r := FirstSeenBy(init, key);
      if key(x) !in KeySet(init, key) {
        KeySetSnoc(r, x, key);
        forall i, j | 0 <= i < j < |r + [x]| ensures key((r + [x])[i]) != key((r + [x])[j]) {
          if j == |r| {
            assert key(r[i]) in KeySet(r, key);
          } else {
            assert (r + [x])[i] == r[i] && (r + [x])[j] == r[j];
          }
        }
      }
    }
  }

  /**
   * Every element kept by first-seen deduplication is the first element of
   * the input with its key, and the kept elements appear in the order in
   * which their keys first appear.
   */
  lemma FirstSeenFirst<T, K>(s: seq<T>, key: T -> K)
    ensures forall m :: 0 <= m < |FirstSeenBy(s, key)| ==>
      key(FirstSeenBy(s, key)[m]) in KeySet(s, key) &&
      FirstSeenBy(s, key)[m] == s[IndexOfKey(s, key, key(FirstSeenBy(s, key)[m]))]
    ensures forall m, n :: 0 <= m < n < |FirstSeenBy(s, key)| ==>
      key(FirstSeenBy(s, key)[m]) in KeySet(s, key) &&
      key(FirstSeenBy(s, key)[n]) in KeySet(s, key) &&
      IndexOfKey(s, key, key(FirstSeenBy(s, key)[m])) < IndexOfKey(s, key, key(FirstSeenBy(s, key)[n]))
  {
    FirstSeenIsFirst(s, key);
    FirstSeenOrdered(s, key);
  }

  /** A kept element of the prefix keeps its first position when one element is appended. */
  lemma KeptBeforeSnoc<T, K>(init: seq<T>, x: T, key: T -> K, m: nat)
    requires m < |FirstSeenBy(init, key)|
    ensures key(FirstSeenBy(init, key)[m]) in KeySet(init, key)
    ensures key(FirstSeenBy(init, key)[m]) in KeySet(init + [x], key)
    ensures IndexOfKey(init + [x], key, key(FirstSeenBy(init, key)[m])) ==
      IndexOfKey(init, key, key(FirstSeenBy(init, key)[m]))
  {
    var r := FirstSeenBy(init, key);
    FirstSeenKeys(init, key);
    assert key(r[m]) in KeySet(r, key);
    KeySetSnoc(init, x, key);
    IndexOfKeySnoc(init, x, key, key(r[m]));
  }

  lemma {:induction false} FirstSeenIsFirst<T, K>(s: seq<T>, key: T -> K)
    ensures forall m :: 0 <= m < |FirstSeenBy(s, key)| ==>
      key(FirstSeenBy(s, key)[m]) in KeySet(s, key) &&
      FirstSeenBy(s, key)[m] == s[IndexOfKey(s, key, key(FirstSeenBy(s, key)[m]))]
    decreases |s|
  {
    FirstSeenKeys(s, key);
    if s != [] {
      var init, x := s[..|s| - 1], s[|s| - 1];
      assert s == init + [x];
      FirstSeenIsFirst(init, key);
      var r := FirstSeenBy(init, key);
      var t := FirstSeenBy(s, key);
      FirstSeenBySnoc(init, x, key);
      forall m | 0 <= m < |t|
        ensures key(t[m]) in KeySet(s, key) && t[m] == s[IndexOfKey(s, key, key(t[m]))]
      {
        assert key(t[m]) in KeySet(t, key);
        if m < |r| {
          assert t[m] == r[m];
          KeptBeforeSnoc(init, x, key, m);
          assert s[IndexOfKey(init, key, key(r[m]))] == init[IndexOfKey(init, key, key(r[m]))];
        } else {
          assert t[m] == x;
          KeySetSnoc(init, x, key);
          IndexOfKeySnoc(init, x, key, key(x));
        }
      }
    }
  }

  lemma {:induction false} FirstSeenOrdered<T, K>(s: seq<T>, key: T -> K)
    ensures forall m, n :: 0 <= m < n < |FirstSeenBy(s, key)| ==>
      key(FirstSeenBy(s, key)[m]) in KeySet(s, key) &&
      key(FirstSeenBy(s, key)[n]) in KeySet(s, key) &&
      IndexOfKey(s, key, key(FirstSeenBy(s, key)[m])) < IndexOfKey(s, key, key(FirstSeenBy(s, key)[n]))
    decreases |s|
  {
    FirstSeenKeys(s, key);
    if s != [] {
      var init, x := s[..|s| - 1], s[|s| - 1];
      assert s == init + [x];
      FirstSeenOrdered(init, key);
      var r := FirstSeenBy(init, key);
      var t := FirstSeenBy(s, key);
      FirstSeenBySnoc(init, x, key);
      forall m, n | 0 <= m < n < |t|
        ensures key(t[m]) in KeySet(s, key) && key(t[n]) in KeySet(s, key) &&
          IndexOfKey(s, key, key(t[m])) < IndexOfKey(s, key, key(t[n]))
      {
        assert key(t[m]) in KeySet(t, key) && key(t[n]) in KeySet(t, key);
        assert t[m] == r[m];
        KeptBeforeSnoc(init, x, key, m);
        if n < |r| {
          assert t[n] == r[n];
          KeptBeforeSnoc(init, x, key, n);
        } else {
          KeySetSnoc(init, x, key);
          IndexOfKeySnoc(init, x, key, key(x));
        }
      }
    }
  }

  /** The number of elements of `s` that satisfy `p`. */
  function Count<T>(s: seq<T>, p: T -> bool): (n: nat)
    ensures n <= |s|
  {
    if s == [] then 0
    else Count(s[..|s| - 1], p) + (if p(s[|s| - 1]) then 1 else 0)
  }

  /** `s.filter(p)`. */
  function Filter<T>(s: seq<T>, p: T -> bool): (r: seq<T>)
    ensures |r| == Count(s, p)
    ensures forall i :: 0 <= i < |r| ==> r[i] in s && p(r[i])
    ensures forall i :: 0 <= i < |s| && p(s[i]) ==> s[i] in r
  {
    if s == [] then []
    else
      var init := s[..|s| - 1];
      assert s == init + [s[|s| - 1]];
      Filter(init, p) + (if p(s[|s| - 1]) then [s[|s| - 1]] else [])
  }

  lemma FilterSnoc<T>(s: seq<T>, x: T, p: T -> bool)
    ensures Filter(s + [x], p) == Filter(s, p) + (if p(x) then [x] else [])
    ensures Count(s + [x], p) == Count(s, p) + (if p(x) then 1 else 0)
  {
    assert (s + [x])[..|s|] == s;
  }

  /** The positions of the elements of `s` that satisfy `p`, in increasing order. */
  function Positions<T>(s: seq<T>, p: T -> bool): (pos: seq<nat>)
    ensures |pos| == Count(s, p)
    ensures forall i :: 0 <= i < |pos| ==> pos[i] < |s|
  {
    if s == [] then []
    else Positions(s[..|s| - 1], p) + (if p(s[|s| - 1]) then [|s| - 1] else [])
  }

  lemma {:induction false} PositionsIncrease<T>(s: seq<T>, p: T -> bool)
    ensures forall i, j :: 0 <= i < j < |Positions(s, p)| ==> Positions(s, p)[i] < Positions(s, p)[j]
    decreases |s|
  {
    if s != [] {
      PositionsIncrease(s[..|s| - 1], p);
    }
  }

  lemma {:induction false} PositionsPick<T>(s: seq<T>, p: T -> bool)
    ensures forall i :: 0 <= i < |Positions(s, p)| ==> Filter(s, p)[i] == s[Positions(s, p)[i]]
    decreases |s|
  {
    if s != [] {
      var init, x := s[..|s| - 1], s[|s| - 1];
      assert s == init + [x];
      PositionsPick(init, p);
      FilterSnoc(init, x, p);
      assert forall j :: 0 <= j < |init| ==> s[j] == init[j];
    }
  }

  lemma {:induction false} PositionsCover<T>(s: seq<T>, p: T -> bool)
    ensures forall j :: 0 <= j < |s| && p(s[j]) ==> j in Positions(s, p)
    decreases |s|
  {
    if s != [] {
      var init := s[..|s| - 1];
      PositionsCover(init, p);
      assert forall j :: 0 <= j < |init| ==> s[j] == init[j];
    }
  }

  /**
   * The positions of `s` that `Filter(s, p)` keeps: strictly increasing, so
   * the filter is an order-preserving subsequence, and covering every
   * position whose element satisfies `p`.
   */
  lemma FilterPositions<T>(s: seq<T>, p: T -> bool) returns (pos: seq<nat>)
    ensures |pos| == |Filter(s, p)|
    ensures forall i :: 0 <= i < |pos| ==> pos[i] < |s| && Filter(s, p)[i] == s[pos[i]]
    ensures forall i, j :: 0 <= i < j < |pos| ==> pos[i] < pos[j]
    ensures forall j :: 0 <= j < |s| && p(s[j]) ==> j in pos
  {
    pos := Positions(s, p);
    PositionsIncrease(s, p);
    PositionsPick(s, p);
    PositionsCover(s, p);
  }

  /** Two conditions no element meets at once are counted separately. */
  lemma {:induction false} CountDisjoint<T>(s: seq<T>, p: T -> bool, q: T -> bool)
    requires forall i :: 0 <= i < |s| ==> !(p(s[i]) && q(s[i]))
    ensures Count(s, p) + Count(s, q) == Count(s, x => p(x) || q(x))
    decreases |s|
  {
    if s != [] {
      CountDisjoint(s[..|s| - 1], p, q);
    }
  }

  /** Every element is counted exactly when every element satisfies `p`. */
  lemma {:induction false} CountAll<T>(s: seq<T>, p: T -> bool)
    ensures Count(s, p) == |s| <==> forall i :: 0 <= i < |s| ==> p(s[i])
    decreases |s|
  {
    if s != [] {
      var init := s[..|s| - 1];
      CountAll(init, p);
      assert forall i :: 0 <= i < |init| ==> init[i] == s[i];
    }
  }

  /** Something is counted exactly when some element satisfies `p`. */
  lemma {:induction false} CountPositive<T>(s: seq<T>, p: T -> bool)
    ensures Count(s, p) > 0 <==> exists i :: 0 <= i < |s| && p(s[i])
    decreases |s|
  {
    if s != [] {
      var init := s[..|s| - 1];
      CountPositive(init, p);
      assert forall i :: 0 <= i < |init| ==> init[i] == s[i];
    }
  }

  /**
   * Three conditions no two of which hold at once count at most every
   * element, and exactly every element when each element meets one.
   */
  lemma CountThree<T>(s: seq<T>, p: T -> bool, q: T -> bool, r: T -> bool)
    requires forall i :: 0 <= i < |s| ==> !(p(s[i]) && q(s[i])) && !(p(s[i]) && r(s[i])) && !(q(s[i]) && r(s[i]))
    ensures Count(s, p) + Count(s, q) + Count(s, r) <= |s|
    ensures Count(s, p) + Count(s, q) + Count(s, r) == |s| <==>
      forall i :: 0 <= i < |s| ==> p(s[i]) || q(s[i]) || r(s[i])
  {
    var pq := (x: T) => p(x) || q(x);
    CountDisjoint(s, p, q);
    CountDisjoint(s, pq, r);
    var all := (x: T) => pq(x) || r(x);
    CountAll(s, all);
  }

  /** The elements of `s` whose group is `g`, in input order. */
  function Members<T, K(==)>(s: seq<T>, group: T -> K, g: K): (r: seq<T>)
    ensures forall i :: 0 <= i < |r| ==> r[i] in s && group(r[i]) == g
    ensures g in KeySet(s, group) <==> r != []
  {
    var r := Filter(s, x => group(x) == g);
    assert r != [] ==> g in KeySet(s, group) by {
      if r != [] {
        var i :| 0 <= i < |s| && s[i] == r[0];
      }
    }
    r
  }

  lemma MembersSnoc<T, K>(s: seq<T>, x: T, group: T -> K, g: K)
    ensures Members(s + [x], group, g) == Members(s, group, g) + (if group(x) == g then [x] else [])
  {
    FilterSnoc(s, x, y => group(y) == g);
  }

  /** Group `s` by `group`, each list in input order. */
  function GroupBy<T, K(==)>(s: seq<T>, group: T -> K): (m: map<K, seq<T>>)
    ensures m.Keys == KeySet(s, group)
    ensures forall g :: g in m ==> m[g] != []
  {
    map g | g in KeySet(s, group) :: Members(s, group, g)
  }

  /** Appending one element adds it to the end of its own group only. */
  lemma GroupBySnoc<T, K>(s: seq<T>, x: T, group: T -> K)
    ensures var m := GroupBy(s, group);
      GroupBy(s + [x], group) ==
        m[group(x) := (if group(x) in m then m[group(x)] else []) + [x]]
  {
    var m := GroupBy(s, group);
    var m' := GroupBy(s + [x], group);
    KeySetSnoc(s, x, group);
    forall g | g in m' ensures m'[g] == m[group(x) := (if group(x) in m then m[group(x)] else []) + [x]][g] {
      MembersSnoc(s, x, group, g);
    }
  }

  /** Grouping the first-seen elements, one element at a time. */
  lemma GroupFirstSeenSnoc<T, K, G>(s: seq<T>, x: T, key: T -> K, group: T -> G)
    ensures var m := GroupBy(FirstSeenBy(s, key), group);
      GroupBy(FirstSeenBy(s + [x], key), group) ==
        if key(x) in KeySet(s, key) then m
        else m[group(x) := (if group(x) in m then m[group(x)] else []) + [x]]
  {
    FirstSeenBySnoc(s, x, key);
    GroupBySnoc(FirstSeenBy(s, key), x, group);
  }

  /**
   * Grouping the first-seen elements files every key once, under the group
   * of the first element with that key, and keeps each group in the order
   * in which the keys first appear.
   */
  lemma GroupFirstSeenFacts<T, K, G>(s: seq<T>, key: T -> K, group: T -> G)
    ensures var m := GroupBy(FirstSeenBy(s, key), group);
      (forall g, i :: g in m && 0 <= i < |m[g]| ==>
         group(m[g][i]) == g && key(m[g][i]) in KeySet(s, key) &&
         m[g][i] == s[IndexOfKey(s, key, key(m[g][i]))]) &&
      (forall g :: g in m ==> DistinctKeys(m[g], key)) &&
      (forall g, i, j :: g in m && 0 <= i < j < |m[g]| ==>
         key(m[g][i]) in KeySet(s, key) && key(m[g][j]) in KeySet(s, key) &&
         IndexOfKey(s, key, key(m[g][i])) < IndexOfKey(s, key, key(m[g][j]))) &&
      (forall k :: k in KeySet(s, key) ==>
         group(s[IndexOfKey(s, key, k)]) in m && s[IndexOfKey(s, key, k)] in m[group(s[IndexOfKey(s, key, k)])])
  {
    GroupedAreFirst(s, key, group);
    GroupedDistinct(s, key, group);
    GroupedOrdered(s, key, group);
    GroupedComplete(s, key, group);
  }

  lemma GroupedAreFirst<T, K, G>(s: seq<T>, key: T -> K, group: T -> G)
    ensures var m := GroupBy(FirstSeenBy(s, key), group);
      forall g, i :: g in m && 0 <= i < |m[g]| ==>
        group(m[g][i]) == g && key(m[g][i]) in KeySet(s, key) &&
        m[g][i] == s[IndexOfKey(s, key, key(m[g][i]))]
  {
    var u := FirstSeenBy(s, key);
    var m := GroupBy(u, group);
    FirstSeenIsFirst(s, key);
    forall g, i | g in m && 0 <= i < |m[g]|
      ensures key(m[g][i]) in KeySet(s, key) && m[g][i] == s[IndexOfKey(s, key, key(m[g][i]))]
    {
      var j :| 0 <= j < |u| && u[j] == m[g][i];
    }
  }

  lemma GroupedDistinct<T, K, G>(s: seq<T>, key: T -> K, group: T -> G)
    ensures var m := GroupBy(FirstSeenBy(s, key), group);
      forall g :: g in m ==> DistinctKeys(m[g], key)
  {
    var u := FirstSeenBy(s, key);
    var m := GroupBy(u, group);
    FirstSeenKeys(s, key);
    forall g | g in m ensures DistinctKeys(m[g], key) {
      var pos := FilterPositions(u, x => group(x) == g);
      forall i, j | 0 <= i < j < |m[g]| ensures key(m[g][i]) != key(m[g][j]) {
        assert m[g][i] == u[pos[i]] && m[g][j] == u[pos[j]];
      }
    }
  }

  lemma GroupedOrdered<T, K, G>(s: seq<T>, key: T -> K, group: T -> G)
    ensures var m := GroupBy(FirstSeenBy(s, key), group);
      forall g, i, j :: g in m && 0 <= i < j < |m[g]| ==>
        key(m[g][i]) in KeySet(s, key) && key(m[g][j]) in KeySet(s, key) &&
        IndexOfKey(s, key, key(m[g][i])) < IndexOfKey(s, key, key(m[g][j]))
  {
    var u := FirstSeenBy(s, key);
    var m := GroupBy(u, group);
    FirstSeenOrdered(s, key);
    forall g, i, j | g in m && 0 <= i < j < |m[g]|
      ensures key(m[g][i]) in KeySet(s, key) && key(m[g][j]) in KeySet(s, key) &&
        IndexOfKey(s, key, key(m[g][i])) < IndexOfKey(s, key, key(m[g][j]))
    {
      var pos := FilterPositions(u, x => group(x) == g);
      assert m[g][i] == u[pos[i]] && m[g][j] == u[pos[j]];
    }
  }

  lemma GroupedComplete<T, K, G>(s: seq<T>, key: T -> K, group: T -> G)
    ensures var m := GroupBy(FirstSeenBy(s, key), group);
      forall k :: k in KeySet(s, key) ==>
        group(s[IndexOfKey(s, key, k)]) in m && s[IndexOfKey(s, key, k)] in m[group(s[IndexOfKey(s, key, k)])]
  {
    var u := FirstSeenBy(s, key);
    var m := GroupBy(u, group);
    FirstSeenKeys(s, key);
    FirstSeenIsFirst(s, key);
    forall k | k in KeySet(s, key)
      ensures group(s[IndexOfKey(s, key, k)]) in m && s[IndexOfKey(s, key, k)] in m[group(s[IndexOfKey(s, key, k)])]
    {
      assert k in KeySet(u, key);
      var j :| 0 <= j < |u| && key(u[j]) == k;
      assert u[j] == s[IndexOfKey(s, key, k)];
      assert group(u[j]) in KeySet(u, group);
    }
  }

  /** Grouping the elements that pass a filter, one element at a time. */
  lemma GroupFilterSnoc<T, G>(s: seq<T>, x: T, p: T -> bool, group: T -> G)
    ensures var m := GroupBy(Filter(s, p), group);
      GroupBy(Filter(s + [x], p), group) ==
        if !p(x) then m
        else m[group(x) := (if group(x) in m then m[group(x)] else []) + [x]]
  {
    FilterSnoc(s, x, p);
    if p(x) {
      GroupBySnoc(Filter(s, p), x, group);
    } else {
      assert Filter(s + [x], p) == Filter(s, p);
    }
  }

  /** One group of a filtered grouping is a single filter of the whole sequence. */
  lemma GroupFilterGroup<T, K>(s: seq<T>, p: T -> bool, group: T -> K, g: K, pg: T -> bool)
    requires forall i :: 0 <= i < |s| ==> pg(s[i]) == (p(s[i]) && group(s[i]) == g)
    requires g in GroupBy(Filter(s, p), group)
    ensures GroupBy(Filter(s, p), group)[g] == Filter(s, pg)
  {
    FilterFilter(s, p, x => group(x) == g, pg);
  }

  /** The values of `m` passed through `f`. */
  function MapValues<K, V, W>(m: map<K, V>, f: V -> W): (r: map<K, W>)
    ensures r.Keys == m.Keys
    ensures forall k :: k in m ==> r[k] == f(m[k])
  {
    map k | k in m :: f(m[k])
  }

  lemma MapValuesUpdate<K, V, W>(m: map<K, V>, k: K, v: V, f: V -> W)
    ensures MapValues(m[k := v], f) == MapValues(m, f)[k := f(v)]
  {
  }

  /** The total of `size` over the values held in `m`. */
  ghost function SumBy<K, V>(m: map<K, V>, size: V -> nat): nat
    decreases |m.Keys|
  {
    if m == map[] then 0
    else
      var k :| k in m;
      assert |(m - {k}).Keys| < |m.Keys| by { assert m.Keys == (m - {k}).Keys + {k}; }
      size(m[k]) + SumBy(m - {k}, size)
  }

  /** Any one value can be taken out of the sum first. */
  lemma {:induction false} SumByRemove<K, V>(m: map<K, V>, size: V -> nat, k: K)
    requires k in m
    ensures SumBy(m, size) == size(m[k]) + SumBy(m - {k}, size)
    decreases |m.Keys|
  {
    var c :| c in m && SumBy(m, size) == size(m[c]) + SumBy(m - {c}, size);
    if c != k {
      assert m.Keys == (m - {c}).Keys + {c};
      assert m.Keys == (m - {k}).Keys + {k};
      SumByRemove(m - {c}, size, k);
      SumByRemove(m - {k}, size, c);
      assert m - {c} - {k} == m - {k} - {c};
    }
  }

  /** Replacing one value changes the sum by the difference in size. */
  lemma SumByUpdate<K, V>(m: map<K, V>, size: V -> nat, k: K, v: V)
    ensures k in m ==> SumBy(m[k := v], size) + size(m[k]) == SumBy(m, size) + size(v)
    ensures k !in m ==> SumBy(m[k := v], size) == SumBy(m, size) + size(v)
  {
    SumByRemove(m[k := v], size, k);
    assert m[k := v] - {k} == m - {k};
    if k in m {
      SumByRemove(m, size, k);
    } else {
      assert m - {k} == m;
    }
  }

  /** Summing over mapped values is summing the composed size over the original values. */
  lemma {:induction false} SumByMapValues<K, V, W>(m: map<K, V>, f: V -> W, size: W -> nat, size2: V -> nat)
    requires forall k :: k in m ==> size(f(m[k])) == size2(m[k])
    ensures SumBy(MapValues(m, f), size) == SumBy(m, size2)
    decreases |m.Keys|
  {
    if m != map[] {
      var k :| k in m;
      var r := MapValues(m, f);
      SumByRemove(r, size, k);
      SumByRemove(m, size2, k);
      assert r - {k} == MapValues(m - {k}, f);
      assert m.Keys == (m - {k}).Keys + {k};
      SumByMapValues(m - {k}, f, size, size2);
    }
  }

  function Length<T>(s: seq<T>): nat { |s| }

  /** The total length of the lists held in `m`. */
  ghost function SumLengths<K, T>(m: map<K, seq<T>>): nat {
    SumBy(m, Length)
  }

  /** Grouping neither loses nor duplicates an element. */
  lemma {:induction false} GroupBySum<T, K>(s: seq<T>, group: T -> K)
    ensures SumLengths(GroupBy(s, group)) == |s|
    decreases |s|
  {
    if s == [] {
      assert GroupBy(s, group) == map[];
    } else {
      var init, x := s[..|s| - 1], s[|s| - 1];
      assert s == init + [x];
      GroupBySum(init, group);
      GroupBySnoc(init, x, group);
      var m := GroupBy(init, group);
      SumByUpdate(m, Length, group(x), (if group(x) in m then m[group(x)] else []) + [x]);
    }
  }

  /** The keys in the order in which they first appear. */
  function KeyOrder<T, K(==)>(s: seq<T>, key: T -> K): (ks: seq<K>)
    ensures |ks| == |KeySet(s, key)|
    ensures forall i :: 0 <= i < |ks| ==> ks[i] in KeySet(s, key)
    ensures forall k :: k in KeySet(s, key) ==> k in ks
    ensures forall i, j :: 0 <= i < j < |ks| ==> ks[i] != ks[j]
  {
    FirstSeenKeys(s, key);
    var u := FirstSeenBy(s, key);
    var ks := MapSeq(u, key);
    assert forall i :: 0 <= i < |ks| ==> ks[i] in KeySet(u, key);
    assert forall k :: k in KeySet(u, key) ==> k in ks by {
      forall k | k in KeySet(u, key) ensures k in ks {
        var i :| 0 <= i < |u| && key(u[i]) == k;
        assert ks[i] == k;
      }
    }
    ks
  }

  lemma KeyOrderSnoc<T, K>(s: seq<T>, x: T, key: T -> K)
    ensures KeyOrder(s + [x], key) == KeyOrder(s, key) + (if key(x) in KeySet(s, key) then [] else [key(x)])
  {
    FirstSeenBySnoc(s, x, key);
  }

  /** The keys are listed in the order of their first positions. */
  lemma KeyOrderFirst<T, K>(s: seq<T>, key: T -> K)
    ensures forall m, n :: 0 <= m < n < |KeyOrder(s, key)| ==>
      IndexOfKey(s, key, KeyOrder(s, key)[m]) < IndexOfKey(s, key, KeyOrder(s, key)[n])
  {
    FirstSeenFirst(s, key);
    FirstSeenKeys(s, key);
    var u := FirstSeenBy(s, key);
    assert forall m :: 0 <= m < |u| ==> KeyOrder(s, key)[m] == key(u[m]);
  }

  /** The distinct elements of `s` in first-seen order: what `Array.from` gives back from a `Set` filled from `s`. */
  function Dedup<T(==)>(s: seq<T>): (r: seq<T>)
    ensures forall i :: 0 <= i < |r| ==> r[i] in s
    ensures forall i :: 0 <= i < |s| ==> s[i] in r
    ensures forall i, j :: 0 <= i < j < |r| ==> r[i] != r[j]
    ensures |r| <= |s|
  {
    if s == [] then []
    else
      var init, x := s[..|s| - 1], s[|s| - 1];
      assert s == init + [x];
      var d := Dedup(init);
      if x in d then d else d + [x]
  }

  lemma DedupSnoc<T>(s: seq<T>, x: T)
    ensures Dedup(s + [x]) == if x in Dedup(s) then Dedup(s) else Dedup(s) + [x]
  {
    assert (s + [x])[..|s|] == s;
  }

  /** Filtering twice is filtering by both conditions. */
  lemma {:induction false} FilterFilter<T>(s: seq<T>, p: T -> bool, q: T -> bool, pq: T -> bool)
    requires forall i :: 0 <= i < |s| ==> pq(s[i]) == (p(s[i]) && q(s[i]))
    ensures Filter(Filter(s, p), q) == Filter(s, pq)
    decreases |s|
  {
    if s != [] {
      var init, x := s[..|s| - 1], s[|s| - 1];
      assert s == init + [x];
      assert forall i :: 0 <= i < |init| ==> init[i] == s[i];
      FilterFilter(init, p, q, pq);
      FilterSnoc(init, x, p);
      FilterSnoc(init, x, pq);
      assert pq(x) == (p(x) && q(x)) by { assert s[|s| - 1] == x; }
      if p(x) {
        FilterSnoc(Filter(init, p), x, q);
      } else {
        assert Filter(s, p) == Filter(init, p);
        assert Filter(s, pq) == Filter(init, pq);
      }
    }
  }

  /** The last element kept by a filter is the last element of `s` that satisfies `p`. */
  lemma FilterLast<T>(s: seq<T>, p: T -> bool) returns (j: nat)
    requires Filter(s, p) != []
    ensures j < |s| && p(s[j]) && s[j] == Filter(s, p)[|Filter(s, p)| - 1]
    ensures forall j' :: j < j' < |s| ==> !p(s[j'])
  {
    var pos := FilterPositions(s, p);
    j := pos[|pos| - 1];
    forall j' | j < j' < |s| ensures !p(s[j']) {
      if p(s[j']) {
        assert false;
      }
    }
    assert p(Filter(s, p)[|pos| - 1]);
  }

  lemma MapSeqSnoc<T, U>(s: seq<T>, x: T, f: T -> U)
    ensures MapSeq(s + [x], f) == MapSeq(s, f) + [f(x)]
  {
  }

  /** `xs.map(f)`. */
  function MapSeq<T, U>(s: seq<T>, f: T -> U): (r: seq<U>)
    ensures |r| == |s|
    ensures forall i :: 0 <= i < |s| ==> r[i] == f(s[i])
  {
    seq(|s|, i requires 0 <= i < |s| => f(s[i]))
  }

  /** The distinct images of the elements that pass a filter are exactly the images of those elements. */
  lemma DedupImages<T, U>(s: seq<T>, p: T -> bool, f: T -> U)
    ensures var d := Dedup(MapSeq(Filter(s, p), f));
      (forall j :: 0 <= j < |s| && p(s[j]) ==> f(s[j]) in d) &&
      (forall i :: 0 <= i < |d| ==> exists j :: 0 <= j < |s| && p(s[j]) && f(s[j]) == d[i])
  {
    var r := Filter(s, p);
    var a := MapSeq(r, f);
    var d := Dedup(a);
    forall j | 0 <= j < |s| && p(s[j]) ensures f(s[j]) in d {
      var k :| 0 <= k < |r| && r[k] == s[j];
      assert a[k] == f(s[j]);
    }
    forall i | 0 <= i < |d| ensures exists j :: 0 <= j < |s| && p(s[j]) && f(s[j]) == d[i] {
      var k :| 0 <= k < |a| && a[k] == d[i];
      var j :| 0 <= j < |s| && s[j] == r[k];
    }
  }

  /** The elements that pass a filter have more than one distinct image exactly when two of them differ in image. */
  lemma DedupMany<T, U>(s: seq<T>, p: T -> bool, f: T -> U)
    ensures |Dedup(MapSeq(Filter(s, p), f))| > 1 <==>
      exists j1, j2 :: 0 <= j1 < |s| && 0 <= j2 < |s| && p(s[j1]) && p(s[j2]) && f(s[j1]) != f(s[j2])
  {
    var d := Dedup(MapSeq(Filter(s, p), f));
    DedupImages(s, p, f);
    if |d| > 1 {
      var j1 :| 0 <= j1 < |s| && p(s[j1]) && f(s[j1]) == d[0];
      var j2 :| 0 <= j2 < |s| && p(s[j2]) && f(s[j2]) == d[1];
    } else {
      forall j1, j2 | 0 <= j1 < |s| && 0 <= j2 < |s| && p(s[j1]) && p(s[j2])
        ensures f(s[j1]) == f(s[j2])
      {
        assert f(s[j1]) in d && f(s[j2]) in d;
        assert d == [d[0]];
      }
    }
  }

  /** A group is absent from a filtered grouping exactly when no element of it passes the filter. */
  lemma GroupFilterAbsent<T, K>(s: seq<T>, p: T -> bool, group: T -> K, g: K)
    ensures g !in GroupBy(Filter(s, p), group) <==> forall j :: 0 <= j < |s| && p(s[j]) ==> group(s[j]) != g
  {
    var c := Filter(s, p);
    if g in GroupBy(c, group) {
      var k :| 0 <= k < |c| && group(c[k]) == g;
      var j :| 0 <= j < |s| && s[j] == c[k];
    } else {
      forall j | 0 <= j < |s| && p(s[j]) ensures group(s[j]) != g {
        var k :| 0 <= k < |c| && c[k] == s[j];
        assert group(c[k]) in KeySet(c, group);
      }
    }
  }

  /** Some kept element satisfies `q` exactly when some element satisfies both `p` and `q`. */
  lemma FilterExists<T>(s: seq<T>, p: T -> bool, q: T -> bool)
    ensures (exists i :: 0 <= i < |Filter(s, p)| && q(Filter(s, p)[i])) <==>
      (exists j :: 0 <= j < |s| && p(s[j]) && q(s[j]))
  {
    var r := Filter(s, p);
    if exists i :: 0 <= i < |r| && q(r[i]) {
      var i :| 0 <= i < |r| && q(r[i]);
      assert r[i] in s;
      var j :| 0 <= j < |s| && s[j] == r[i];
      assert p(s[j]) && q(s[j]);
    }
    if exists j :: 0 <= j < |s| && p(s[j]) && q(s[j]) {
      var j :| 0 <= j < |s| && p(s[j]) && q(s[j]);
      FilterKeeps(s, p, j);
      var i :| 0 <= i < |r| && r[i] == s[j];
      assert 0 <= i < |r| && q(r[i]);
    }
  }

  /** Some element's key is in `names` exactly when the key set meets `names`. */
  lemma KeySetMeets<T, K>(s: seq<T>, key: T -> K, names: set<K>)
    ensures (exists i :: 0 <= i < |s| && key(s[i]) in names) <==> names * KeySet(s, key) != {}
  {
    if exists i :: 0 <= i < |s| && key(s[i]) in names {
      var i :| 0 <= i < |s| && key(s[i]) in names;
      assert key(s[i]) in names * KeySet(s, key);
    }
    if names * KeySet(s, key) != {} {
      var k :| k in names * KeySet(s, key);
      var i :| 0 <= i < |s| && key(s[i]) == k;
    }
  }

  /** An element that passes is kept. */
  lemma FilterKeeps<T>(s: seq<T>, p: T -> bool, j: int)
    requires 0 <= j < |s| && p(s[j])
    ensures exists i :: 0 <= i < |Filter(s, p)| && Filter(s, p)[i] == s[j]
  {
    assert s[j] in Filter(s, p);
  }

  /** Position `i` brings a key that no earlier element has. */
  predicate NewKeyAt<T, K(==)>(s: seq<T>, key: T -> K, i: int) {
    0 <= i < |s| && key(s[i]) !in KeySet(s[..i], key)
  }

  /** Appending an element keeps which earlier positions bring new keys; the new one brings a key exactly when its key is unseen. */
  lemma NewKeyAtSnoc<T, K>(s: seq<T>, x: T, key: T -> K)
    ensures forall j :: 0 <= j < |s| ==> (NewKeyAt(s + [x], key, j) <==> NewKeyAt(s, key, j))
    ensures NewKeyAt(s + [x], key, |s|) <==> key(x) !in KeySet(s, key)
  {
    forall j | 0 <= j < |s| ensures (s + [x])[..j] == s[..j] && (s + [x])[j] == s[j] {
    }
    assert (s + [x])[..|s|] == s;
  }

  /** The first element with a key is where that key is new. */
  lemma IndexOfKeyIsNew<T, K>(s: seq<T>, key: T -> K, k: K)
    requires k in KeySet(s, key)
    ensures NewKeyAt(s, key, IndexOfKey(s, key, k))
  {
  }

  /** An element that brings a new key is the first element with that key. */
  lemma NewIsIndexOfKey<T, K>(s: seq<T>, key: T -> K, i: int)
    requires NewKeyAt(s, key, i)
    ensures key(s[i]) in KeySet(s, key) && IndexOfKey(s, key, key(s[i])) == i
  {
    assert key(s[i]) in KeySet(s, key);
  }

  /** Every group of the first-seen elements starts with an element that brings a new key. */
  lemma GroupHeadIsNew<T, K, G>(s: seq<T>, key: T -> K, group: T -> G, g: G)
    requires g in GroupBy(FirstSeenBy(s, key), group)
    ensures exists i :: NewKeyAt(s, key, i) && group(s[i]) == g
  {
    var m := GroupBy(FirstSeenBy(s, key), group);
    GroupedAreFirst(s, key, group);
    assert m[g] != [];
    var x := m[g][0];
    assert group(x) == g;
    assert key(x) in KeySet(s, key);
    IndexOfKeyIsNew(s, key, key(x));
  }

  /** A group of the first-seen elements is exactly the group of some element that brings a new key. */
  lemma NewKeyGroups<T, K, G>(s: seq<T>, key: T -> K, group: T -> G, g: G)
    ensures g in GroupBy(FirstSeenBy(s, key), group) <==> exists i :: NewKeyAt(s, key, i) && group(s[i]) == g
  {
    if g in GroupBy(FirstSeenBy(s, key), group) {
      GroupHeadIsNew(s, key, group, g);
    }
    if exists i :: NewKeyAt(s, key, i) && group(s[i]) == g {
      var i :| NewKeyAt(s, key, i) && group(s[i]) == g;
      NewIsIndexOfKey(s, key, i);
      GroupedComplete(s, key, group);
    }
  }

  /** Some element that brings a new key has its group in `names`. */
  ghost predicate NewKeyIn<T, K, G>(s: seq<T>, key: T -> K, group: T -> G, names: set<G>) {
    exists i :: NewKeyAt(s, key, i) && group(s[i]) in names
  }

  lemma NewKeyInSnoc<T, K, G>(s: seq<T>, x: T, key: T -> K, group: T -> G, names: set<G>)
    ensures NewKeyIn(s + [x], key, group, names) <==>
      NewKeyIn(s, key, group, names) || (key(x) !in KeySet(s, key) && group(x) in names)
  {
    NewKeyAtSnoc(s, x, key);
    var t := s + [x];
    if NewKeyIn(t, key, group, names) {
      var i :| NewKeyAt(t, key, i) && group(t[i]) in names;
      if i < |s| {
        assert t[i] == s[i];
      }
    }
    if NewKeyIn(s, key, group, names) {
      var i :| NewKeyAt(s, key, i) && group(s[i]) in names;
      assert t[i] == s[i];
    }
    if key(x) !in KeySet(s, key) && group(x) in names {
      assert t[|s|] == x;
    }
  }

  lemma NewKeyInPrefix<T, K, G>(s: seq<T>, n: nat, key: T -> K, group: T -> G, names: set<G>)
    requires n <= |s| && NewKeyIn(s[..n], key, group, names)
    ensures NewKeyIn(s, key, group, names)
  {
    var i :| NewKeyAt(s[..n], key, i) && group(s[..n][i]) in names;
    assert s[..n][..i] == s[..i];
    assert NewKeyAt(s, key, i);
  }

  /** Some element that brings a new key has its group in `names` exactly when one of the groups is in `names`. */
  lemma NewKeyGroupIn<T, K, G>(s: seq<T>, key: T -> K, group: T -> G, names: set<G>)
    ensures NewKeyIn(s, key, group, names) <==>
      names * GroupBy(FirstSeenBy(s, key), group).Keys != {}
  {
    var m := GroupBy(FirstSeenBy(s, key), group);
    if NewKeyIn(s, key, group, names) {
      var i :| NewKeyAt(s, key, i) && group(s[i]) in names;
      NewKeyGroups(s, key, group, group(s[i]));
      assert group(s[i]) in names * m.Keys;
    }
    if names * m.Keys != {} {
      var g :| g in names * m.Keys;
      NewKeyGroups(s, key, group, g);
    }
  }

  predicate IsFirstOfKey<T, K(==)>(s: seq<T>, key: T -> K, i: int) {
    0 <= i < |s| && key(s[i]) in KeySet(s, key) && IndexOfKey(s, key, key(s[i])) == i
  }

  /** Some element of a group of the first-seen elements satisfies `p` exactly when some first element of a key in that group does. */
  lemma GroupFirstSeenExists<T, K, G>(s: seq<T>, key: T -> K, group: T -> G, g: G, p: T -> bool)
    requires g in GroupBy(FirstSeenBy(s, key), group)
    ensures var m := GroupBy(FirstSeenBy(s, key), group);
      (exists k :: 0 <= k < |m[g]| && p(m[g][k])) <==>
      (exists i :: IsFirstOfKey(s, key, i) && group(s[i]) == g && p(s[i]))
  {
    var m := GroupBy(FirstSeenBy(s, key), group);
    GroupFirstSeenFacts(s, key, group);
    if exists k :: 0 <= k < |m[g]| && p(m[g][k]) {
      var k :| 0 <= k < |m[g]| && p(m[g][k]);
      var i := IndexOfKey(s, key, key(m[g][k]));
      assert IsFirstOfKey(s, key, i);
    }
    if exists i :: IsFirstOfKey(s, key, i) && group(s[i]) == g && p(s[i]) {
      var i :| IsFirstOfKey(s, key, i) && group(s[i]) == g && p(s[i]);
      var k :| 0 <= k < |m[g]| && m[g][k] == s[i];
    }
  }

  /** The first element of each key, by key. */
  function FirstOf<T, K(==)>(s: seq<T>, key: T -> K): (m: map<K, T>)
    ensures m.Keys == KeySet(s, key)
    ensures forall k :: k in m ==> key(m[k]) == k
  {
    map k | k in KeySet(s, key) :: s[IndexOfKey(s, key, k)]
  }

  /** An index holding key `k` with no `k` before it is the first index of `k`. */
  lemma IndexOfKeyUnique<T, K>(s: seq<T>, key: T -> K, k: K, i: int)
    requires 0 <= i < |s| && key(s[i]) == k
    requires forall j :: 0 <= j < i ==> key(s[j]) != k
    ensures k in KeySet(s, key) && IndexOfKey(s, key, k) == i
  {
  }

  /** Two sequences with the same elements have the same keys. */
  lemma KeySetMultiset<T, K>(a: seq<T>, b: seq<T>, key: T -> K)
    requires multiset(a) == multiset(b)
    ensures KeySet(a, key) == KeySet(b, key)
  {
    forall k | k in KeySet(a, key) ensures k in KeySet(b, key) {
      var i :| 0 <= i < |a| && key(a[i]) == k;
      assert a[i] in multiset(b);
      var j :| 0 <= j < |b| && b[j] == a[i];
    }
    forall k | k in KeySet(b, key) ensures k in KeySet(a, key) {
      var i :| 0 <= i < |b| && key(b[i]) == k;
      assert b[i] in multiset(a);
      var j :| 0 <= j < |a| && a[j] == b[i];
    }
  }

  /** One more element adds its key with itself as first element, unless the key is known already. */
  lemma FirstOfSnoc<T, K>(s: seq<T>, x: T, key: T -> K)
    ensures FirstOf(s + [x], key) ==
      if key(x) in KeySet(s, key) then FirstOf(s, key) else FirstOf(s, key)[key(x) := x]
  {
    var t := s + [x];
    KeySetSnoc(s, x, key);
    forall k | k in KeySet(t, key) ensures t[IndexOfKey(t, key, k)] == (if k in KeySet(s, key) then s[IndexOfKey(s, key, k)] else x) {
      IndexOfKeySnoc(s, x, key, k);
      if k in KeySet(s, key) {
        assert t[IndexOfKey(s, key, k)] == s[IndexOfKey(s, key, k)];
      }
    }
  }

  /** `r` is the subsequence of `s` at the strictly increasing positions `pos`. */
  ghost predicate Picks<T>(r: seq<T>, s: seq<T>, pos: seq<nat>) {
    |pos| == |r| &&
    (forall i :: 0 <= i < |pos| ==> pos[i] < |s| && r[i] == s[pos[i]]) &&
    (forall i, j :: 0 <= i < j < |pos| ==> pos[i] < pos[j])
  }

  /** A filter is an order-preserving subsequence of its input. */
  lemma FilterPicks<T>(s: seq<T>, p: T -> bool) returns (pos: seq<nat>)
    ensures Picks(Filter(s, p), s, pos)
  {
    pos := FilterPositions(s, p);
  }

  /** A filter every element passes returns its input. */
  lemma {:induction false} FilterKeepsAll<T>(s: seq<T>, p: T -> bool)
    requires forall i :: 0 <= i < |s| ==> p(s[i])
    ensures Filter(s, p) == s
    decreases |s|
  {
    if s != [] {
      var init := s[..|s| - 1];
      assert forall i :: 0 <= i < |init| ==> init[i] == s[i];
      FilterKeepsAll(init, p);
      assert s == init + [s[|s| - 1]];
    }
  }
}
