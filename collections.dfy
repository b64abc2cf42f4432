/** Sequence helpers the services lean on: occurrence counts, `[...new Set(xs)]`, the
    counting `reduce` into an object, and sums. */
module Collections {

  /** Number of occurrences of `x` in `xs`. */
  function Count<T(==)>(xs: seq<T>, x: T): (n: nat)
    ensures n <= |xs|
    ensures n == 0 <==> x !in xs
  {
    if xs == [] then 0
    else
      assert xs == xs[..|xs| - 1] + [xs[|xs| - 1]];
      Count(xs[..|xs| - 1], x) + (if xs[|xs| - 1] == x then 1 else 0)
  }

  predicate NoDuplicates<T(==)>(xs: seq<T>) {
    forall i, j :: 0 <= i < j < |xs| ==> xs[i] != xs[j]
  }

  /** `[...new Set(xs)]`: each value once, in order of first occurrence. */
  function Distinct<T(==,!new)>(xs: seq<T>): (d: seq<T>)
    ensures NoDuplicates(d)
    ensures forall x :: x in d <==> x in xs
    ensures |d| <= |xs|
  {
    if xs == [] then []
    else
      var init := xs[..|xs| - 1];
      var x := xs[|xs| - 1];
      assert xs == init + [x];
      var d := Distinct(init);
      if x in d then d else d + [x]
  }

  /** One distinct value exactly when the sequence is non-empty and constant. */
  lemma SingleDistinctValue<T(!new)>(xs: seq<T>)
    ensures |Distinct(xs)| == 1 <==> xs != [] && forall i :: 0 <= i < |xs| ==> xs[i] == xs[0]
  {
    var d := Distinct(xs);
    if xs != [] && forall i :: 0 <= i < |xs| ==> xs[i] == xs[0] {
      assert xs[0] in d;
      assert forall k :: 0 <= k < |d| ==> d[k] in xs;
    }
    if |d| == 1 {
      assert d[0] in xs;
      forall i | 0 <= i < |xs| ensures xs[i] == xs[0] {
        assert xs[i] in d && xs[0] in d;
      }
    }
  }

  /** Sum of the occurrence counts of `keys` in `xs`. */
  function SumCounts<T(==)>(keys: seq<T>, xs: seq<T>): nat {
    if keys == [] then 0 else SumCounts(keys[..|keys| - 1], xs) + Count(xs, keys[|keys| - 1])
  }

  lemma {:induction false} SumCountsSnoc<T>(keys: seq<T>, ys: seq<T>, x: T)
    requires NoDuplicates(keys)
    ensures SumCounts(keys, ys + [x]) == SumCounts(keys, ys) + (if x in keys then 1 else 0)
  {
    if keys != [] {
      var init := keys[..|keys| - 1];
      var k := keys[|keys| - 1];
      assert keys == init + [k];
      SumCountsSnoc(init, ys, x);
      assert (ys + [x])[..|ys + [x]| - 1] == ys;
      assert x in keys <==> x in init || x == k;
      assert k !in init;
    }
  }

  /** The distinct values' counts add up to the length: every element is counted once. */
  lemma {:induction false} DistinctCountsSumToLength<T(!new)>(xs: seq<T>)
    ensures SumCounts(Distinct(xs), xs) == |xs|
  {
    if xs != [] {
      var init := xs[..|xs| - 1];
      var x := xs[|xs| - 1];
      assert xs == init + [x];
      DistinctCountsSumToLength(init);
      var d := Distinct(init);
      SumCountsSnoc(d, init, x);
      if x !in d {
        assert (d + [x])[..|d + [x]| - 1] == d;
        assert Count(init, x) == 0;
      }
    }
  }

  /** `xs.reduce((acc, v) => { acc[v] = (acc[v] || 0) + 1; return acc }, {})`. */
  function Tally<T(==,!new)>(xs: seq<T>): (m: map<T, nat>)
    ensures forall x :: x in m <==> x in xs
    ensures forall x :: x in m ==> m[x] == Count(xs, x)
  {
    if xs == [] then map[]
    else
      var init := xs[..|xs| - 1];
      var x := xs[|xs| - 1];
      assert xs == init + [x];
      var m := Tally(init);
      m[x := (if x in m then m[x] else 0) + 1]
  }

  /** `xs.filter(v => v !== x)`. */
  function Without<T(==,!new)>(xs: seq<T>, x: T): (r: seq<T>)
    ensures forall y :: y in r <==> y in xs && y != x
    ensures |r| <= |xs|
  {
    if xs == [] then [] else (if xs[0] == x then [] else [xs[0]]) + Without(xs[1..], x)
  }

  /** The set of a sequence's elements has at most as many elements as the sequence, and
      exactly as many when no element repeats. */
  lemma {:induction false} CardOfSeqSet<T>(xs: seq<T>)
    ensures |set x | x in xs| <= |xs|
    ensures |set x | x in xs| == |xs| <==> NoDuplicates(xs)
  {
    if xs != [] {
      var init := xs[..|xs| - 1];
      var x := xs[|xs| - 1];
      assert xs == init + [x];
      CardOfSeqSet(init);
      var s0 := set y | y in init;
      assert (set y | y in xs) == s0 + {x};
      if x in init {
        assert !NoDuplicates(xs) by {
          var i :| 0 <= i < |init| && init[i] == x;
          assert xs[i] == xs[|xs| - 1];
        }
      } else {
        assert NoDuplicates(xs) <==> NoDuplicates(init);
      }
    }
  }

  /** A subset is no larger than its superset, and equally large only when it is the
      superset. */
  lemma SubsetCard<T>(a: set<T>, b: set<T>)
    requires a <= b
    ensures |a| <= |b|
    ensures |a| == |b| ==> a == b
  {
    assert b == a + (b - a);
    assert |b| == |a| + |b - a|;
    if |a| == |b| {
      assert |b - a| == 0;
    }
  }

  /** Position of the first occurrence of `x` in `xs`. */
  function IndexOf<T(==)>(xs: seq<T>, x: T): (i: nat)
    requires x in xs
    ensures i < |xs| && xs[i] == x && x !in xs[..i]
  {
    if xs[0] == x then 0 else 1 + IndexOf(xs[1..], x)
  }

  /** Without repetitions, the element at position `j` is first found at `j`. */
  lemma IndexOfDistinct<T>(xs: seq<T>, j: nat)
    requires NoDuplicates(xs) && j < |xs|
    ensures IndexOf(xs, xs[j]) == j
  {
    var i := IndexOf(xs, xs[j]);
    assert xs[i] == xs[j];
  }

  /** A sequence without repetitions is its own `Distinct`. */
  lemma {:induction false} DistinctOfDistinct<T(!new)>(xs: seq<T>)
    requires NoDuplicates(xs)
    ensures Distinct(xs) == xs
  {
    if xs != [] {
      var init := xs[..|xs| - 1];
      var x := xs[|xs| - 1];
      assert xs == init + [x];
      DistinctOfDistinct(init);
    }
  }

  /** `Distinct` grows by the new element exactly when it has not been seen. */
  lemma DistinctSnoc<T(!new)>(xs: seq<T>, x: T)
    ensures Distinct(xs + [x]) == if x in Distinct(xs) then Distinct(xs) else Distinct(xs) + [x]
  {
    assert (xs + [x])[..|xs + [x]| - 1] == xs;
  }

  /** Appending a new element keeps a sequence free of repetitions. */
  lemma NoDuplicatesSnoc<T>(xs: seq<T>, x: T)
    requires NoDuplicates(xs) && x !in xs
    ensures NoDuplicates(xs + [x])
  {
  }

  /** The elements whose key is `v`, in order (the bucket a grouping `reduce` builds for `v`). */
  function Keyed<T(!new), K(==)>(xs: seq<T>, key: T -> K, v: K): (r: seq<T>)
    ensures forall x :: x in r <==> x in xs && key(x) == v
  {
    if xs == [] then []
    else
      var init := xs[..|xs| - 1];
      var last := xs[|xs| - 1];
      assert xs == init + [last];
      Keyed(init, key, v) + (if key(last) == v then [last] else [])
  }

  /** The accumulator of a grouping `reduce` into an object: the buckets by key, and the keys
      in the order they were first set (the order `Object.keys` lists them). */
  datatype Buckets<K, T> = Buckets(keys: seq<K>, byKey: map<K, seq<T>>)

  /** One step of the `reduce`: push the element into its key's bucket, opening the bucket
      when the key is new. */
  function AddToBucket<T(!new), K(==)>(b: Buckets<K, T>, x: T, key: T -> K): Buckets<K, T> {
    var k := key(x);
    if k in b.byKey then Buckets(b.keys, b.byKey[k := b.byKey[k] + [x]])
    else Buckets(b.keys + [k], b.byKey[k := [x]])
  }

  /** `xs.reduce((acc, x) => { (acc[key(x)] ||= []).push(x); return acc; }, {})`. */
  function GroupBy<T(!new), K(==)>(xs: seq<T>, key: T -> K): Buckets<K, T> {
    if xs == [] then Buckets([], map[])
    else AddToBucket(GroupBy(xs[..|xs| - 1], key), xs[|xs| - 1], key)
  }

  /** The buckets are exactly the listed keys, each listed once; each bucket holds exactly
      the elements of its key, in order, and is not empty; every element's key has a bucket. */
  predicate GroupsExact<T(==,!new), K(==)>(xs: seq<T>, key: T -> K, b: Buckets<K, T>) {
    (forall k :: k in b.byKey ==> k in b.keys) && (forall k :: k in b.keys ==> k in b.byKey)
    && NoDuplicates(b.keys)
    && (forall k :: k in b.byKey ==> b.byKey[k] == Keyed(xs, key, k) && b.byKey[k] != [])
    && (forall i :: 0 <= i < |xs| ==> key(xs[i]) in b.byKey)
  }

  lemma {:induction false} GroupByExact<T(!new), K>(xs: seq<T>, key: T -> K)
    ensures GroupsExact(xs, key, GroupBy(xs, key))
  {
    if xs != [] {
      var init := xs[..|xs| - 1];
      GroupByExact(init, key);
      AddToBucketExact(xs, init, xs[|xs| - 1], key, GroupBy(init, key));
    }
  }

  /** The bucket of a key after one more element. */
  lemma KeyedSnoc<T(!new), K>(init: seq<T>, x: T, key: T -> K, v: K)
    ensures Keyed(init + [x], key, v) == Keyed(init, key, v) + (if key(x) == v then [x] else [])
  {
    assert (init + [x])[..|init|] == init;
  }

  lemma {:induction false} NoneKeyed<T(!new), K>(xs: seq<T>, key: T -> K, v: K)
    requires forall i :: 0 <= i < |xs| ==> key(xs[i]) != v
    ensures Keyed(xs, key, v) == []
  {
    if xs != [] {
      NoneKeyed(xs[..|xs| - 1], key, v);
    }
  }

  lemma AddToBucketExact<T(!new), K>(xs: seq<T>, init: seq<T>, x: T, key: T -> K, b: Buckets<K, T>)
    requires xs == init + [x] && GroupsExact(init, key, b)
    ensures GroupsExact(xs, key, AddToBucket(b, x, key))
  {
    var r := AddToBucket(b, x, key);
    var k := key(x);
    if k !in b.byKey {
      assert forall i :: 0 <= i < |init| ==> key(init[i]) != k;
      NoneKeyed(init, key, k);
      NoDuplicatesSnoc(b.keys, k);
    }
    forall v | v in r.byKey ensures r.byKey[v] == Keyed(xs, key, v) && r.byKey[v] != [] {
      KeyedSnoc(init, x, key, v);
    }
    forall i | 0 <= i < |xs| ensures key(xs[i]) in r.byKey {
      if i < |init| {
        assert xs[i] == init[i];
      }
    }
  }

  /** Every listed key has its bucket, holding that key's elements, and every element's key
      is listed. */
  lemma GroupByKeys<T(!new), K>(xs: seq<T>, key: T -> K)
    ensures var b := GroupBy(xs, key);
      (forall i :: 0 <= i < |b.keys| ==> (b.keys[i] in b.byKey
        && b.byKey[b.keys[i]] == Keyed(xs, key, b.keys[i]) && b.byKey[b.keys[i]] != []))
      && (forall i :: 0 <= i < |xs| ==> key(xs[i]) in b.keys)
      && NoDuplicates(b.keys)
  {
    var b := GroupBy(xs, key);
    GroupByExact(xs, key);
    forall i | 0 <= i < |b.keys|
      ensures b.keys[i] in b.byKey && b.byKey[b.keys[i]] == Keyed(xs, key, b.keys[i]) && b.byKey[b.keys[i]] != []
    {
      var k := b.keys[i];
      assert k in b.keys;
      assert k in b.byKey;
    }
  }

  predicate Increasing(ks: seq<int>) {
    forall i, j :: 0 <= i < j < |ks| ==> ks[i] < ks[j]
  }

  lemma AppendLargest(ks: seq<int>, k: int)
    requires Increasing(ks) && forall x :: x in ks ==> x < k
    ensures Increasing(ks + [k])
  {
    var r := ks + [k];
    forall i, j | 0 <= i < j < |r| ensures r[i] < r[j] {
      assert r[i] == ks[i] && ks[i] in ks;
    }
  }

  /** Grouping rows already ordered by an integer key lists the keys in increasing order. */
  lemma {:induction false} GroupBySortedKeys<T(!new)>(xs: seq<T>, key: T -> int)
    requires forall i, j :: 0 <= i < j < |xs| ==> key(xs[i]) <= key(xs[j])
    ensures Increasing(GroupBy(xs, key).keys)
  {
    if xs != [] {
      var init := xs[..|xs| - 1];
      var x := xs[|xs| - 1];
      assert forall i :: 0 <= i < |init| ==> init[i] == xs[i];
      GroupBySortedKeys(init, key);
      GroupByExact(init, key);
      var b := GroupBy(init, key);
      assert GroupBy(xs, key) == AddToBucket(b, x, key);
      if key(x) !in b.byKey {
        assert forall i :: 0 <= i < |init| ==> key(init[i]) <= key(x);
        KeysBounded(init, key, key(x));
        AppendLargest(b.keys, key(x));
      }
    }
  }

  /** A grouping lists only keys that some element has, so a bound on the elements' keys
      bounds the listed keys. */
  lemma {:induction false} KeysBounded<T(!new)>(xs: seq<T>, key: T -> int, m: int)
    requires forall i :: 0 <= i < |xs| ==> key(xs[i]) <= m
    ensures forall k :: k in GroupBy(xs, key).keys ==> k <= m
  {
    if xs != [] {
      var init := xs[..|xs| - 1];
      assert forall i :: 0 <= i < |init| ==> init[i] == xs[i];
      KeysBounded(init, key, m);
    }
  }

  /** Descending order by a key: `orderBy: { key: 'desc' }`. */
  predicate SortedDesc<T>(xs: seq<T>, key: T -> int) {
    forall i, j :: 0 <= i < j < |xs| ==> key(xs[i]) >= key(xs[j])
  }

  /** Places `x` before the first element whose key is not larger. */
  function InsertDesc<T>(x: T, xs: seq<T>, key: T -> int): (r: seq<T>)
    ensures multiset(r) == multiset(xs) + multiset{x}
  {
    if xs == [] then [x]
    else if key(x) >= key(xs[0]) then [x] + xs
    else
      assert xs == [xs[0]] + xs[1..];
      [xs[0]] + InsertDesc(x, xs[1..], key)
  }

  /** Inserting into a sorted sequence keeps it sorted. */
  lemma {:induction false} InsertDescSorted<T>(x: T, xs: seq<T>, key: T -> int)
    requires SortedDesc(xs, key)
    ensures SortedDesc(InsertDesc(x, xs, key), key)
  {
    if xs != [] && key(x) < key(xs[0]) {
      InsertDescSorted(x, xs[1..], key);
      var rest := InsertDesc(x, xs[1..], key);
      forall y | y in rest ensures key(xs[0]) >= key(y) {
        assert y in multiset(rest);
        if y != x {
          assert y in xs[1..];
        }
      }
    }
  }

  /** The rows sorted largest key first. */
  function SortDesc<T>(xs: seq<T>, key: T -> int): (r: seq<T>)
    ensures multiset(r) == multiset(xs) && |r| == |xs|
    ensures SortedDesc(r, key)
  {
    if xs == [] then []
    else
      assert xs == [xs[0]] + xs[1..];
      var rest := SortDesc(xs[1..], key);
      InsertDescSorted(xs[0], rest, key);
      InsertDesc(xs[0], rest, key)
  }

  /** `take: n`. */
  function Take<T>(xs: seq<T>, n: nat): (r: seq<T>)
    ensures |r| == if |xs| <= n then |xs| else n
    ensures r == xs[..|r|]
  {
    if |xs| <= n then xs else xs[..n]
  }

  /** `orderBy: { key: 'desc' }, take: n`: the n rows with the largest keys, largest first.
      A row left out is never newer than a row kept. */
  function Newest<T>(xs: seq<T>, key: T -> int, n: nat): (r: seq<T>)
    ensures |r| == if |xs| <= n then |xs| else n
    ensures multiset(r) <= multiset(xs) && SortedDesc(r, key)
    ensures |xs| <= n ==> multiset(r) == multiset(xs)
    ensures forall x, y :: x in r && y in xs && y !in r ==> key(x) >= key(y)
  {
    var sorted := SortDesc(xs, key);
    SortedPrefix(xs, sorted, key, |Take(sorted, n)|);
    Take(sorted, n)
  }

  /** A prefix of a sorted sequence is sorted, is part of it, and holds the largest keys. */
  lemma SortedPrefix<T>(xs: seq<T>, sorted: seq<T>, key: T -> int, m: nat)
    requires multiset(sorted) == multiset(xs)
    requires SortedDesc(sorted, key) && m <= |sorted|
    ensures multiset(sorted[..m]) <= multiset(xs) && SortedDesc(sorted[..m], key)
    ensures forall x, y :: x in sorted[..m] && y in xs && y !in sorted[..m] ==> key(x) >= key(y)
  {
    var r := sorted[..m];
    assert sorted == r + sorted[m..];
    forall x, y | x in r && y in xs && y !in r ensures key(x) >= key(y) {
      assert y in multiset(xs);
      var i :| 0 <= i < m && r[i] == x;
      var j :| 0 <= j < |sorted| && sorted[j] == y;
      assert j >= m;
    }
  }

  /** Position of the first element satisfying `p`, or the length when there is none
      (`findFirst` over a table in insertion order). */
  function FirstWhere<T>(xs: seq<T>, p: T -> bool): (k: nat)
    ensures k <= |xs| && (k < |xs| ==> p(xs[k]))
    ensures forall j :: 0 <= j < k ==> !p(xs[j])
  {
    if xs == [] || p(xs[0]) then 0 else 1 + FirstWhere(xs[1..], p)
  }

  /** `findMany({ where: { field: v } })`: the rows whose key is `v`, in table order. */
  function Where<T, K(==)>(xs: seq<T>, key: T -> K, v: K): (r: seq<T>)
    ensures forall k :: 0 <= k < |r| ==> r[k] in xs && key(r[k]) == v
    ensures forall k :: 0 <= k < |xs| && key(xs[k]) == v ==> xs[k] in r
    ensures multiset(r) <= multiset(xs)
  {
    if xs == [] then []
    else
      assert xs == [xs[0]] + xs[1..];
      (if key(xs[0]) == v then [xs[0]] else []) + Where(xs[1..], key, v)
  }

  /** A row `Newest` leaves out means the page is full and every row on it is at least as new. */
  lemma NewestLeavesOlder<T>(xs: seq<T>, key: T -> int, n: nat, y: T)
    requires y in xs && y !in Newest(xs, key, n)
    ensures |Newest(xs, key, n)| == n
    ensures forall j :: 0 <= j < |Newest(xs, key, n)| ==> key(Newest(xs, key, n)[j]) >= key(y)
  {
    var r := Newest(xs, key, n);
    assert y in multiset(xs);
    forall j | 0 <= j < |r| ensures key(r[j]) >= key(y) {
      assert r[j] in r;
    }
  }

  /** `findMany({ where: { field: v }, orderBy: { time: 'desc' }, take: n })`: a page of the
      matching rows, newest first; a matching row is left off only from a full page of rows
      at least as new. */
  function Page<T, K(==)>(xs: seq<T>, key: T -> K, v: K, time: T -> int, n: nat): (r: seq<T>)
    ensures |r| <= n && SortedDesc(r, time)
    ensures forall j :: 0 <= j < |r| ==> r[j] in xs && key(r[j]) == v
    ensures multiset(r) <= multiset(Where(xs, key, v))
    ensures |Where(xs, key, v)| <= n ==> multiset(r) == multiset(Where(xs, key, v))
    ensures forall k :: (0 <= k < |xs| && key(xs[k]) == v && xs[k] !in r) ==>
      (|r| == n && forall j :: 0 <= j < |r| ==> time(r[j]) >= time(xs[k]))
  {
    PageRows(xs, key, v, time, n);
    PageLeavesOlder(xs, key, v, time, n);
    Newest(Where(xs, key, v), time, n)
  }

  lemma PageRows<T, K>(xs: seq<T>, key: T -> K, v: K, time: T -> int, n: nat)
    ensures var r := Newest(Where(xs, key, v), time, n);
      forall j :: 0 <= j < |r| ==> r[j] in xs && key(r[j]) == v
  {
    var mine := Where(xs, key, v);
    var r := Newest(mine, time, n);
    forall j | 0 <= j < |r| ensures r[j] in xs && key(r[j]) == v {
      assert r[j] in multiset(mine);
      var i :| 0 <= i < |mine| && mine[i] == r[j];
    }
  }

  lemma PageLeavesOlder<T, K>(xs: seq<T>, key: T -> K, v: K, time: T -> int, n: nat)
    ensures var r := Newest(Where(xs, key, v), time, n);
      forall k :: (0 <= k < |xs| && key(xs[k]) == v && xs[k] !in r) ==>
        (|r| == n && forall j :: 0 <= j < |r| ==> time(r[j]) >= time(xs[k]))
  {
    var mine := Where(xs, key, v);
    var r := Newest(mine, time, n);
    forall k | 0 <= k < |xs| && key(xs[k]) == v && xs[k] !in r
      ensures |r| == n && forall j :: 0 <= j < |r| ==> time(r[j]) >= time(xs[k])
    {
      NewestLeavesOlder(mine, time, n, xs[k]);
    }
  }
}
