/**
 * The "latest record per sensor" fold that the dashboard and the
 * notification bell both run over a batch: walk the batch in order and
 * store a record under its key when the key is new or when the record's
 * time beats the stored one. The two components differ only in how a tie
 * is settled, so the fold is written once with that policy as a parameter.
 * The fold is expressed on positions: the map says, for every key, which
 * position of the batch holds the stored record.
 */
module LatestState {
  import opened Js
  import opened Collections

  /**
   * Does a record with time `t` replace a stored record with time `stored`?
   * `t >= stored` when ties go to the newcomer, `t > stored` otherwise;
   * either way a NaN on one side means no.
   */
  predicate Replaces(tieWins: bool, t: Num, stored: Num) {
    if tieWins then NumGe(t, stored) else NumGt(t, stored)
  }

  /** For each key, the position of the record the fold ends up storing. */
  function LatestIndex<T, K(==)>(s: seq<T>, key: T -> K, time: T -> Num, tieWins: bool): (m: map<K, nat>)
    ensures m.Keys == KeySet(s, key)
    ensures forall k :: k in m ==> m[k] < |s| && key(s[m[k]]) == k
  {
    if s == [] then map[]
    else
      var init, x := s[..|s| - 1], s[|s| - 1];
      assert s == init + [x];
      KeySetSnoc(init, x, key);
      var m := LatestIndex(init, key, time, tieWins);
      assert forall k :: k in m ==> s[m[k]] == init[m[k]];
      if key(x) !in m || Replaces(tieWins, time(x), time(s[m[key(x)]])) then m[key(x) := |s| - 1]
      else m
  }

  /** The stored records themselves: position map `idx` read back into `s`. */
  function Pick<T, K>(s: seq<T>, idx: map<K, nat>): (r: map<K, T>)
    requires forall k :: k in idx ==> idx[k] < |s|
    ensures r.Keys == idx.Keys
    ensures forall k :: k in idx ==> r[k] == s[idx[k]]
  {
    map k | k in idx :: s[idx[k]]
  }

  /** The fold over a batch. */
  function Latest<T, K(==)>(s: seq<T>, key: T -> K, time: T -> Num, tieWins: bool): (r: map<K, T>)
    ensures r.Keys == KeySet(s, key)
    ensures forall k :: k in r ==> key(r[k]) == k
  {
    Pick(s, LatestIndex(s, key, time, tieWins))
  }

  /**
   * The values of `store`, whose keys are those of `s`, in the order in
   * which the keys first appear in `s`: the order in which a `Map`, or an
   * object whose keys are not integers, hands its values back.
   */
  function ValuesInOrder<T, K(==)>(s: seq<T>, key: T -> K, store: map<K, T>): (vs: seq<T>)
    requires store.Keys == KeySet(s, key)
    ensures |vs| == |KeySet(s, key)|
    ensures forall i :: 0 <= i < |vs| ==> vs[i] == store[KeyOrder(s, key)[i]]
    ensures forall k :: k in KeySet(s, key) ==> store[k] in vs
  {
    var ks := KeyOrder(s, key);
    var vs := seq(|ks|, i requires 0 <= i < |ks| => store[ks[i]]);
    assert forall k :: k in KeySet(s, key) ==> store[k] in vs by {
      forall k | k in KeySet(s, key) ensures store[k] in vs {
        var i :| 0 <= i < |ks| && ks[i] == k;
        assert vs[i] == store[k];
      }
    }
    vs
  }

  /** The stored records of the fold, in key insertion order: one record per key. */
  function LatestValues<T, K(==)>(s: seq<T>, key: T -> K, time: T -> Num, tieWins: bool): (vs: seq<T>)
    ensures |vs| == |KeySet(s, key)|
    ensures forall i :: 0 <= i < |vs| ==>
      key(vs[i]) == KeyOrder(s, key)[i] && vs[i] == Latest(s, key, time, tieWins)[key(vs[i])]
    ensures forall k :: k in KeySet(s, key) ==> Latest(s, key, time, tieWins)[k] in vs
    ensures DistinctKeys(vs, key)
  {
    ValuesInOrder(s, key, Latest(s, key, time, tieWins))
  }

  /** A condition holds of every stored record exactly when it holds of every key's record. */
  lemma LatestValuesAll<T, K>(s: seq<T>, key: T -> K, time: T -> Num, tieWins: bool, p: T -> bool)
    ensures var vs := LatestValues(s, key, time, tieWins);
      (forall i :: 0 <= i < |vs| ==> p(vs[i])) <==>
      (forall k :: k in KeySet(s, key) ==> p(Latest(s, key, time, tieWins)[k]))
  {
    var vs := LatestValues(s, key, time, tieWins);
    var store := Latest(s, key, time, tieWins);
    var ks := KeyOrder(s, key);
    if forall i :: 0 <= i < |vs| ==> p(vs[i]) {
      forall k | k in KeySet(s, key) ensures p(store[k]) {
        var i :| 0 <= i < |ks| && ks[i] == k;
        assert vs[i] == store[k];
      }
    }
  }

  /** One more record: the stored record for its key is replaced or kept, all other keys are untouched. */
  lemma LatestSnoc<T, K>(s: seq<T>, x: T, key: T -> K, time: T -> Num, tieWins: bool)
    ensures var m := Latest(s, key, time, tieWins);
      Latest(s + [x], key, time, tieWins) ==
        if key(x) !in m || Replaces(tieWins, time(x), time(m[key(x)])) then m[key(x) := x] else m
  {
    LatestIndexSnoc(s, x, key, time, tieWins);
    var t := s + [x];
    var idx := LatestIndex(s, key, time, tieWins);
    PickPrefix(s, t, idx);
    if key(x) !in idx || Replaces(tieWins, time(x), time(s[idx[key(x)]])) {
      PickUpdate(t, idx, key(x), |s|);
    }
  }

  /** Reading positions below `|s|` back into a longer batch that starts with `s`. */
  lemma PickPrefix<T, K>(s: seq<T>, t: seq<T>, idx: map<K, nat>)
    requires |s| <= |t| && t[..|s|] == s
    requires forall k :: k in idx ==> idx[k] < |s|
    ensures Pick(t, idx) == Pick(s, idx)
  {
    forall k | k in idx ensures t[idx[k]] == s[idx[k]] {
      assert t[..|s|][idx[k]] == t[idx[k]];
    }
  }

  /** Storing one more position stores the record at it. */
  lemma PickUpdate<T, K>(t: seq<T>, idx: map<K, nat>, k: K, n: nat)
    requires n < |t|
    requires forall j :: j in idx ==> idx[j] < |t|
    ensures Pick(t, idx[k := n]) == Pick(t, idx)[k := t[n]]
  {
  }

  /** The position map after one more record: the new position is stored, or nothing changes. */
  lemma LatestIndexSnoc<T, K>(s: seq<T>, x: T, key: T -> K, time: T -> Num, tieWins: bool)
    ensures var idx := LatestIndex(s, key, time, tieWins);
      LatestIndex(s + [x], key, time, tieWins) ==
        if key(x) !in idx || Replaces(tieWins, time(x), time(s[idx[key(x)]])) then idx[key(x) := |s|] else idx
  {
    var t := s + [x];
    LatestIndexLast(t, key, time, tieWins);
    assert t[..|t| - 1] == s;
    var idx := LatestIndex(s, key, time, tieWins);
    if key(x) in idx {
      assert t[idx[key(x)]] == s[idx[key(x)]];
    }
  }

  /** The last record of a non-empty batch against the map of the batch before it. */
  lemma LatestIndexLast<T, K>(t: seq<T>, key: T -> K, time: T -> Num, tieWins: bool)
    requires t != []
    ensures var n := |t| - 1;
      var idx := LatestIndex(t[..n], key, time, tieWins);
      LatestIndex(t, key, time, tieWins) ==
        if key(t[n]) !in idx || Replaces(tieWins, time(t[n]), time(t[idx[key(t[n])]])) then idx[key(t[n]) := n] else idx
  {
  }

  /** How the stored position for `k` evolves when the batch grows by its last record. */
  lemma LatestIndexStep<T, K>(s: seq<T>, key: T -> K, time: T -> Num, tieWins: bool, k: K)
    requires |s| > 0 && k in KeySet(s, key)
    ensures var init, n := s[..|s| - 1], |s| - 1;
      var p := LatestIndex(s, key, time, tieWins)[k];
      (k !in KeySet(init, key) ==> p == n && key(s[n]) == k && IndexOfKey(s, key, k) == n) &&
      (k in KeySet(init, key) ==>
         var q := LatestIndex(init, key, time, tieWins)[k];
         q < n && s[q] == init[q] && IndexOfKey(s, key, k) == IndexOfKey(init, key, k) &&
         p == (if key(s[n]) == k && Replaces(tieWins, time(s[n]), time(s[q])) then n else q))
  {
    var init, x := s[..|s| - 1], s[|s| - 1];
    assert s == init + [x];
    KeySetSnoc(init, x, key);
    IndexOfKeySnoc(init, x, key, k);
  }

  /**
   * A record whose time is NaN is kept only when it is the first with its
   * key, and a first record whose time is NaN is never replaced.
   */
  lemma {:induction false} LatestNaN<T, K>(s: seq<T>, key: T -> K, time: T -> Num, tieWins: bool, k: K)
    requires k in KeySet(s, key)
    ensures var p := LatestIndex(s, key, time, tieWins)[k];
      var first := IndexOfKey(s, key, k);
      (time(s[first]).NaN? ==> p == first) && (time(s[p]).NaN? ==> p == first)
    decreases |s|
  {
    LatestIndexStep(s, key, time, tieWins, k);
    var init := s[..|s| - 1];
    if k in KeySet(init, key) {
      LatestNaN(init, key, time, tieWins, k);
    }
  }

  /** A replacing time is a number at least the stored one; a number that does not replace is at most it. */
  lemma ReplacesOrder(tieWins: bool, t: Num, stored: Num)
    ensures Replaces(tieWins, t, stored) ==> t.Finite? && stored.Finite? && stored.v <= t.v
    ensures !Replaces(tieWins, t, stored) && t.Finite? && stored.Finite? ==> t.v <= stored.v
  {
  }

  /** A kept finite time is the greatest finite time among the key's records. */
  lemma {:induction false} LatestMax<T, K>(s: seq<T>, key: T -> K, time: T -> Num, tieWins: bool, k: K)
    requires k in KeySet(s, key)
    ensures var p := LatestIndex(s, key, time, tieWins)[k];
      time(s[p]).Finite? ==>
        forall j :: 0 <= j < |s| && key(s[j]) == k && time(s[j]).Finite? ==> time(s[j]).v <= time(s[p]).v
    decreases |s|, 1
  {
    var init := s[..|s| - 1];
    if k in KeySet(init, key) {
      LatestMaxKnown(s, key, time, tieWins, k);
    } else {
      LatestIndexStep(s, key, time, tieWins, k);
      forall j | 0 <= j < |s| - 1 ensures key(s[j]) != k {
        assert s[j] == init[j];
        KeyInSet(init, key, j);
      }
    }
  }

  /** The case of `LatestMax` where the key already has a record before the last one. */
  lemma {:induction false} LatestMaxKnown<T, K>(s: seq<T>, key: T -> K, time: T -> Num, tieWins: bool, k: K)
    requires s != [] && k in KeySet(s[..|s| - 1], key)
    ensures k in KeySet(s, key)
    ensures var p := LatestIndex(s, key, time, tieWins)[k];
      time(s[p]).Finite? ==>
        forall j :: 0 <= j < |s| && key(s[j]) == k && time(s[j]).Finite? ==> time(s[j]).v <= time(s[p]).v
    decreases |s|, 0
  {
    var init, n := s[..|s| - 1], |s| - 1;
    assert s == init + [s[n]];
    KeySetSnoc(init, s[n], key);
    LatestIndexStep(s, key, time, tieWins, k);
    LatestMax(init, key, time, tieWins, k);
    var q := LatestIndex(init, key, time, tieWins)[k];
    MaxPrefix(s, key, time, k, q);
    MaxStep(s, key, time, tieWins, k, q);
  }

  /** The greatest finite time before the last record, read in `s` rather than in its prefix. */
  lemma MaxPrefix<T, K>(s: seq<T>, key: T -> K, time: T -> Num, k: K, q: nat)
    requires q < |s| - 1
    requires var init := s[..|s| - 1];
      time(init[q]).Finite? ==>
        forall j :: 0 <= j < |init| && key(init[j]) == k && time(init[j]).Finite? ==> time(init[j]).v <= time(init[q]).v
    ensures time(s[q]).Finite? ==>
      forall j :: 0 <= j < |s| - 1 && key(s[j]) == k && time(s[j]).Finite? ==> time(s[j]).v <= time(s[q]).v
  {
    var init := s[..|s| - 1];
    assert forall j :: 0 <= j < |init| ==> s[j] == init[j];
  }

  /** The greatest finite time stays the greatest when the last record either replaces it or does not. */
  lemma MaxStep<T, K>(s: seq<T>, key: T -> K, time: T -> Num, tieWins: bool, k: K, q: nat)
    requires q < |s| - 1 && key(s[q]) == k
    requires time(s[q]).Finite? ==>
      forall j :: 0 <= j < |s| - 1 && key(s[j]) == k && time(s[j]).Finite? ==> time(s[j]).v <= time(s[q]).v
    ensures var n := |s| - 1;
      var p := if key(s[n]) == k && Replaces(tieWins, time(s[n]), time(s[q])) then n else q;
      time(s[p]).Finite? ==>
        forall j :: 0 <= j < |s| && key(s[j]) == k && time(s[j]).Finite? ==> time(s[j]).v <= time(s[p]).v
  {
    ReplacesOrder(tieWins, time(s[|s| - 1]), time(s[q]));
  }

  /** Ties going to the newcomer: no later record of the key has a time at least as great. */
  lemma {:induction false} LatestTieLast<T, K>(s: seq<T>, key: T -> K, time: T -> Num, k: K)
    requires k in KeySet(s, key)
    ensures var p := LatestIndex(s, key, time, true)[k];
      forall j :: p < j < |s| && key(s[j]) == k ==> !NumGe(time(s[j]), time(s[p]))
    decreases |s|
  {
    LatestIndexStep(s, key, time, true, k);
    var init, n := s[..|s| - 1], |s| - 1;
    if k in KeySet(init, key) {
      LatestTieLast(init, key, time, k);
      assert forall j :: 0 <= j < n ==> s[j] == init[j];
    }
  }

  /** Ties going to the incumbent: no earlier record of the key has a time at least as great. */
  lemma {:induction false} LatestTieFirst<T, K>(s: seq<T>, key: T -> K, time: T -> Num, k: K)
    requires k in KeySet(s, key)
    ensures var p := LatestIndex(s, key, time, false)[k];
      forall j :: 0 <= j < p && key(s[j]) == k ==> !NumGe(time(s[j]), time(s[p]))
    decreases |s|
  {
    LatestIndexStep(s, key, time, false, k);
    var init, n := s[..|s| - 1], |s| - 1;
    assert forall j :: 0 <= j < n ==> s[j] == init[j];
    if k in KeySet(init, key) {
      LatestTieFirst(init, key, time, k);
      LatestMax(init, key, time, false, k);
    } else {
      assert forall j :: 0 <= j < n ==> key(init[j]) in KeySet(init, key);
    }
  }

  /**
   * The same facts for the stored record itself, in the form the two
   * components read them.
   */
  lemma LatestRecordFacts<T, K>(s: seq<T>, key: T -> K, time: T -> Num, tieWins: bool, k: K)
    requires k in KeySet(s, key)
    ensures var r := Latest(s, key, time, tieWins)[k];
      var first := s[IndexOfKey(s, key, k)];
      key(r) == k && r in s &&
      (time(first).NaN? ==> r == first) &&
      (time(r).NaN? ==> r == first) &&
      (time(r).Finite? ==>
         forall j :: 0 <= j < |s| && key(s[j]) == k && time(s[j]).Finite? ==> time(s[j]).v <= time(r).v)
  {
    LatestNaN(s, key, time, tieWins, k);
    LatestMax(s, key, time, tieWins, k);
  }
}
