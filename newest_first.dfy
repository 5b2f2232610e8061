/**
 * `data.sort((a, b) => time(b) - time(a))`: newest first. The comparator
 * answers "before" only when both times are numbers and the first is
 * greater; a NaN on either side makes it neutral. The sort is modelled as
 * the stable insertion sort that walks each record leftwards past the
 * records it beats.
 */
module NewestFirst {
  import opened Js
  import opened Collections
  import opened LatestState

  /** The comparator is negative: `x` goes before `y`. */
  predicate Before<T>(time: T -> Num, x: T, y: T) {
    NumGt(time(x), time(y))
  }

  /** Where inserting `x` into `r` from the right stops: past every trailing record that `x` beats. */
  function InsertPos<T>(r: seq<T>, x: T, time: T -> Num): (p: nat)
    ensures p <= |r|
    ensures forall m :: p <= m < |r| ==> Before(time, x, r[m])
    ensures p > 0 ==> !Before(time, x, r[p - 1])
  {
    if r == [] || !Before(time, x, r[|r| - 1]) then |r|
    else InsertPos(r[..|r| - 1], x, time)
  }

  /** The stopping point is the only one: the first position from the right that `x` does not pass. */
  lemma {:induction false} InsertPosUnique<T>(r: seq<T>, x: T, time: T -> Num, j: nat)
    requires j <= |r|
    requires forall m :: j <= m < |r| ==> Before(time, x, r[m])
    requires j > 0 ==> !Before(time, x, r[j - 1])
    ensures InsertPos(r, x, time) == j
    decreases |r|
  {
    if j < |r| {
      var init := r[..|r| - 1];
      assert forall m :: j <= m < |init| ==> init[m] == r[m];
      InsertPosUnique(init, x, time, j);
    }
  }

  function Insert<T>(r: seq<T>, x: T, time: T -> Num): (t: seq<T>)
    ensures multiset(t) == multiset(r) + multiset{x}
  {
    var p := InsertPos(r, x, time);
    assert r == r[..p] + r[p..];
    r[..p] + [x] + r[p..]
  }

  /** A sequence that agrees with `r` before `j`, holds `x` at `j` and `r` shifted by one after it. */
  lemma Spliced<T>(b: seq<T>, r: seq<T>, j: nat, x: T)
    requires j <= |r| && |b| == |r| + 1
    requires forall m :: 0 <= m < j ==> b[m] == r[m]
    requires b[j] == x
    requires forall m :: j < m < |b| ==> b[m] == r[m - 1]
    ensures b == r[..j] + [x] + r[j..]
  {
  }

  /** The order the sort leaves the batch in: each record inserted in turn. */
  function Sort<T>(s: seq<T>, time: T -> Num): seq<T> {
    if s == [] then []
    else Insert(Sort(s[..|s| - 1], time), s[|s| - 1], time)
  }

  /** The sort is a permutation of the batch. */
  lemma {:induction false} SortPermutes<T>(s: seq<T>, time: T -> Num)
    ensures multiset(Sort(s, time)) == multiset(s)
    decreases |s|
  {
    if s != [] {
      assert s == s[..|s| - 1] + [s[|s| - 1]];
      SortPermutes(s[..|s| - 1], time);
    }
  }

  /** Walk `a[i]` leftwards past the records of the sorted prefix `a[..i]` that it beats. */
  method InsertInPlace<T>(a: array<T>, i: nat, time: T -> Num)
    requires i < a.Length
    modifies a
    ensures a[..i + 1] == Insert(old(a[..i]), old(a[i]), time)
    ensures forall m :: i < m < a.Length ==> a[m] == old(a[m])
  {
    ghost var r := a[..i];
    var x := a[i];
    var j := i;
    while j > 0 && Before(time, x, a[j - 1])
      invariant 0 <= j <= i
      invariant forall m :: 0 <= m < j ==> a[m] == r[m]
      invariant a[j] == x
      invariant forall m :: j < m <= i ==> a[m] == r[m - 1]
      invariant forall m :: j <= m < i ==> Before(time, x, r[m])
      invariant forall m :: i < m < a.Length ==> a[m] == old(a[m])
    {
      a[j - 1], a[j] := a[j], a[j - 1];
      j := j - 1;
    }
    InsertPosUnique(r, x, time, j);
    Spliced(a[..i + 1], r, j, x);
  }

  /** The sort, in place: insert each record into the sorted prefix before it. */
  method SortInPlace<T>(a: array<T>, time: T -> Num)
    modifies a
    ensures a[..] == Sort(old(a[..]), time)
  {
    ghost var orig := a[..];
    for i := 0 to a.Length
      invariant a[..i] == Sort(orig[..i], time)
      invariant forall m :: i <= m < a.Length ==> a[m] == orig[m]
    {
      SortPrefix(orig, i);
      InsertInPlace(a, i, time);
    }
    assert orig[..a.Length] == orig;
  }

  /** Sorting one more record of the batch inserts it into the sorted prefix. */
  lemma SortPrefix<T>(s: seq<T>, i: nat)
    requires i < |s|
    ensures forall time: T -> Num :: Sort(s[..i + 1], time) == Insert(Sort(s[..i], time), s[i], time)
  {
    assert s[..i + 1][..i] == s[..i];
  }

  predicate AllFinite<T>(s: seq<T>, time: T -> Num) {
    forall i :: 0 <= i < |s| ==> time(s[i]).Finite?
  }

  /** No record is beaten by a record after it. */
  predicate NonIncreasing<T>(s: seq<T>, time: T -> Num) {
    forall i, j :: 0 <= i < j < |s| ==> !Before(time, s[j], s[i])
  }

  lemma AllFiniteMultiset<T>(a: seq<T>, b: seq<T>, time: T -> Num)
    requires multiset(a) == multiset(b) && AllFinite(b, time)
    ensures AllFinite(a, time)
  {
    forall i | 0 <= i < |a| ensures time(a[i]).Finite? {
      assert a[i] in multiset(b);
      var j :| 0 <= j < |b| && b[j] == a[i];
    }
  }

  lemma InsertOrdered<T>(r: seq<T>, x: T, time: T -> Num)
    requires NonIncreasing(r, time) && AllFinite(r, time) && time(x).Finite?
    ensures NonIncreasing(Insert(r, x, time), time)
  {
    var p := InsertPos(r, x, time);
    var t := Insert(r, x, time);
    forall i, j | 0 <= i < j < |t| ensures !Before(time, t[j], t[i]) {
      if i < p && j == p {
        assert !Before(time, x, r[p - 1]);
        assert t[i] == r[i];
      } else if i < p && j > p {
        assert t[i] == r[i] && t[j] == r[j - 1];
      } else if i == p {
        assert t[j] == r[j - 1];
      } else if i < p {
        assert t[i] == r[i] && t[j] == r[j];
      } else {
        assert t[i] == r[i - 1] && t[j] == r[j - 1];
      }
    }
  }

  /** When every time is a number, the sort leaves the batch newest first. */
  lemma {:induction false} SortOrdered<T>(s: seq<T>, time: T -> Num)
    requires AllFinite(s, time)
    ensures NonIncreasing(Sort(s, time), time)
    decreases |s|
  {
    if s != [] {
      var init := s[..|s| - 1];
      assert forall i :: 0 <= i < |init| ==> init[i] == s[i];
      SortOrdered(init, time);
      SortPermutes(init, time);
      AllFiniteMultiset(Sort(init, time), init, time);
      InsertOrdered(Sort(init, time), s[|s| - 1], time);
    }
  }

  /** The first record of key `k` after an insertion at position `p`. */
  lemma FirstAfterInsert<T, K>(r: seq<T>, p: nat, x: T, key: T -> K, k: K)
    requires p <= |r|
    requires k in KeySet(r, key) || key(x) == k
    ensures var t := r[..p] + [x] + r[p..];
      k in KeySet(t, key) &&
      t[IndexOfKey(t, key, k)] ==
        if k in KeySet(r, key) && IndexOfKey(r, key, k) < p then r[IndexOfKey(r, key, k)]
        else if key(x) == k then x
        else r[IndexOfKey(r, key, k)]
  {
    if k in KeySet(r, key) && IndexOfKey(r, key, k) < p {
      FirstBeforeInsert(r, p, x, key, k);
    } else if key(x) == k {
      forall j | 0 <= j < p ensures key(r[j]) != k {
        KeyInSet(r, key, j);
      }
      FirstIsInserted(r, p, x, key);
    } else {
      FirstAfterInserted(r, p, x, key, k);
    }
  }

  /** Where the elements of `r` sit after `x` is inserted at `p`. */
  lemma InsertedAt<T>(r: seq<T>, p: nat, x: T)
    requires p <= |r|
    ensures var t := r[..p] + [x] + r[p..];
      |t| == |r| + 1 && t[p] == x &&
      (forall j :: 0 <= j < p ==> t[j] == r[j]) &&
      (forall j :: p < j < |t| ==> t[j] == r[j - 1])
  {
  }

  lemma FirstBeforeInsert<T, K>(r: seq<T>, p: nat, x: T, key: T -> K, k: K)
    requires p <= |r| && k in KeySet(r, key) && IndexOfKey(r, key, k) < p
    ensures var t := r[..p] + [x] + r[p..];
      k in KeySet(t, key) && t[IndexOfKey(t, key, k)] == r[IndexOfKey(r, key, k)]
  {
    var t := r[..p] + [x] + r[p..];
    InsertedAt(r, p, x);
    IndexOfKeyUnique(t, key, k, IndexOfKey(r, key, k));
  }

  lemma FirstIsInserted<T, K>(r: seq<T>, p: nat, x: T, key: T -> K)
    requires p <= |r|
    requires forall j :: 0 <= j < p ==> key(r[j]) != key(x)
    ensures var t := r[..p] + [x] + r[p..];
      key(x) in KeySet(t, key) && t[IndexOfKey(t, key, key(x))] == x
  {
    var t := r[..p] + [x] + r[p..];
    InsertedAt(r, p, x);
    IndexOfKeyUnique(t, key, key(x), p);
  }

  lemma FirstAfterInserted<T, K>(r: seq<T>, p: nat, x: T, key: T -> K, k: K)
    requires p <= |r| && k in KeySet(r, key) && IndexOfKey(r, key, k) >= p && key(x) != k
    ensures var t := r[..p] + [x] + r[p..];
      k in KeySet(t, key) && t[IndexOfKey(t, key, k)] == r[IndexOfKey(r, key, k)]
  {
    var t := r[..p] + [x] + r[p..];
    var q := IndexOfKey(r, key, k);
    InsertedAt(r, p, x);
    assert t[q + 1] == r[q];
    IndexOfKeyUnique(t, key, k, q + 1);
  }

  /** One insertion into a sorted prefix keeps "first after the sort" equal to the fold. */
  lemma InsertFirstIsLatest<T, K>(r: seq<T>, init: seq<T>, x: T, key: T -> K, time: T -> Num)
    requires NonIncreasing(r, time) && AllFinite(r, time) && time(x).Finite?
    requires multiset(r) == multiset(init)
    requires FirstOf(r, key) == Latest(init, key, time, false)
    ensures FirstOf(Insert(r, x, time), key) == Latest(init + [x], key, time, false)
  {
    var s := init + [x];
    var p := InsertPos(r, x, time);
    var t := Insert(r, x, time);
    LatestSnoc(init, x, key, time, false);
    KeySetMultiset(r, init, key);
    assert multiset(t) == multiset(s);
    KeySetMultiset(t, s, key);
    KeySetSnoc(init, x, key);
    var m := Latest(init, key, time, false);
    forall k | k in KeySet(s, key) ensures FirstOf(t, key)[k] == Latest(s, key, time, false)[k] {
      FirstAfterInsert(r, p, x, key, k);
      if key(x) == k && k in KeySet(r, key) {
        var q := IndexOfKey(r, key, k);
        assert r[q] == m[k];
        if q < p {
          assert !Before(time, x, r[p - 1]);
          if q < p - 1 {
            assert !Before(time, r[p - 1], r[q]);
          }
        }
      }
    }
  }

  /**
   * When every time is a number, the first record of each key after the
   * sort is the record a strictly-newer-wins fold over the unsorted batch
   * keeps: the newest one, the earliest in the batch among equals.
   */
  lemma {:induction false} SortFirstIsLatest<T, K>(s: seq<T>, key: T -> K, time: T -> Num)
    requires AllFinite(s, time)
    ensures FirstOf(Sort(s, time), key) == Latest(s, key, time, false)
    decreases |s|
  {
    if s != [] {
      var init, x := s[..|s| - 1], s[|s| - 1];
      assert s == init + [x];
      assert forall i :: 0 <= i < |init| ==> init[i] == s[i];
      SortFirstIsLatest(init, key, time);
      SortOrdered(init, time);
      SortPermutes(init, time);
      AllFiniteMultiset(Sort(init, time), init, time);
      InsertFirstIsLatest(Sort(init, time), init, x, key, time);
    }
  }
}
