/** Sequence vocabulary shared by the whole model: counting, filtering,
    first-match lookup (`Array.prototype.find`), first-appearance
    de-duplication (`[...new Set(xs)]`), grouping into insertion-ordered
    buckets (the `if (!m[k]) m[k] = []; m[k].push(x)` idiom) and the stable
    sort that `Array.prototype.sort` performs. */
module Seqs {
  import opened Wrappers

  /** Number of occurrences of `x` in `s`. */
  function Occurrences<T(==)>(s: seq<T>, x: T): (n: nat)
    ensures n <= |s|
    ensures n == 0 <==> x !in s
  {
    if s == [] then 0 else (if s[0] == x then 1 else 0) + Occurrences(s[1..], x)
  }

  lemma {:induction false} OccurrencesConcat<T>(a: seq<T>, b: seq<T>, x: T)
    ensures Occurrences(a + b, x) == Occurrences(a, x) + Occurrences(b, x)
  {
    if a == [] {
      assert a + b == b;
    } else {
      assert (a + b)[1..] == a[1..] + b;
      OccurrencesConcat(a[1..], b, x);
    }
  }

  /** The elements of `s` satisfying `p`, in their original order. */
  function Filter<T>(s: seq<T>, p: T -> bool): (r: seq<T>)
    ensures |r| <= |s|
    ensures forall i | 0 <= i < |r| :: p(r[i])
  {
    if s == [] then [] else (if p(s[0]) then [s[0]] else []) + Filter(s[1..], p)
  }

  lemma {:induction false} FilterMembership<T>(s: seq<T>, p: T -> bool, x: T)
    ensures x in Filter(s, p) <==> x in s && p(x)
  {
    if s != [] {
      FilterMembership(s[1..], p, x);
      assert x in s <==> x == s[0] || x in s[1..];
    }
  }

  /** Filtering keeps every copy of a passing element and none of a
      failing one. */
  lemma {:induction false} FilterOccurrences<T>(s: seq<T>, p: T -> bool, x: T)
    ensures Occurrences(Filter(s, p), x) == if p(x) then Occurrences(s, x) else 0
  {
    if s != [] {
      FilterOccurrences(s[1..], p, x);
      OccurrencesConcat(if p(s[0]) then [s[0]] else [], Filter(s[1..], p), x);
    }
  }

  lemma {:induction false} FilterConcat<T>(a: seq<T>, b: seq<T>, p: T -> bool)
    ensures Filter(a + b, p) == Filter(a, p) + Filter(b, p)
  {
    if a == [] {
      assert a + b == b;
    } else {
      assert (a + b)[1..] == a[1..] + b;
      FilterConcat(a[1..], b, p);
    }
  }

  /** A filter every element passes keeps the sequence whole. */
  lemma {:induction false} FilterAll<T>(s: seq<T>, p: T -> bool)
    requires forall i | 0 <= i < |s| :: p(s[i])
    ensures Filter(s, p) == s
  {
    if s != [] {
      FilterAll(s[1..], p);
    }
  }

  /** A test no element passes keeps nothing. */
  lemma {:induction false} FilterNone<T>(s: seq<T>, p: T -> bool)
    requires forall i | 0 <= i < |s| :: !p(s[i])
    ensures Filter(s, p) == []
  {
    if s != [] {
      FilterNone(s[1..], p);
    }
  }

  /** Two tests that agree on the elements of `s` keep the same elements. */
  lemma {:induction false} FilterSame<T>(s: seq<T>, p: T -> bool, q: T -> bool)
    requires forall i | 0 <= i < |s| :: p(s[i]) == q(s[i])
    ensures Filter(s, p) == Filter(s, q)
  {
    if s != [] {
      FilterSame(s[1..], p, q);
    }
  }

  /** Filtering twice is filtering once by both tests. */
  lemma {:induction false} FilterFilter<T>(s: seq<T>, p: T -> bool, q: T -> bool, both: T -> bool)
    requires forall x :: both(x) == (p(x) && q(x))
    ensures Filter(Filter(s, p), q) == Filter(s, both)
  {
    if s != [] {
      FilterFilter(s[1..], p, q, both);
      var head := if p(s[0]) then [s[0]] else [];
      assert Filter(s, p) == head + Filter(s[1..], p);
      FilterConcat(head, Filter(s[1..], p), q);
    }
  }

  /** Applies `f` to every element. */
  function MapSeq<T, U>(s: seq<T>, f: T -> U): (r: seq<U>)
    ensures |r| == |s|
    ensures forall i | 0 <= i < |s| :: r[i] == f(s[i])
  {
    if s == [] then [] else [f(s[0])] + MapSeq(s[1..], f)
  }

  lemma MapSeqConcat<T, U>(a: seq<T>, b: seq<T>, f: T -> U)
    ensures MapSeq(a + b, f) == MapSeq(a, f) + MapSeq(b, f)
  {
  }

  /** Concatenation of a sequence of sequences. */
  function Flatten<T>(ss: seq<seq<T>>): (r: seq<T>)
  {
    if ss == [] then [] else ss[0] + Flatten(ss[1..])
  }

  lemma {:induction false} FlattenMembership<T>(ss: seq<seq<T>>, x: T)
    ensures x in Flatten(ss) <==> exists i | 0 <= i < |ss| :: x in ss[i]
  {
    if ss != [] {
      FlattenMembership(ss[1..], x);
      if x in Flatten(ss[1..]) {
        var i :| 0 <= i < |ss[1..]| && x in ss[1..][i];
        assert x in ss[i + 1];
      }
      if exists i | 0 <= i < |ss| :: x in ss[i] {
        var i :| 0 <= i < |ss| && x in ss[i];
        assert i == 0 || x in ss[1..][i - 1];
      }
    }
  }

  lemma {:induction false} FlattenConcat<T>(a: seq<seq<T>>, b: seq<seq<T>>)
    ensures Flatten(a + b) == Flatten(a) + Flatten(b)
  {
    if a == [] {
      assert a + b == b;
    } else {
      assert (a + b)[1..] == a[1..] + b;
      FlattenConcat(a[1..], b);
    }
  }

  /** The first element satisfying `p`, as `Array.prototype.find` returns it. */
  function FindFirst<T>(s: seq<T>, p: T -> bool): (r: Option<T>)
    ensures r.None? <==> forall i | 0 <= i < |s| :: !p(s[i])
    ensures r.Some? ==> r.value in s && p(r.value)
  {
    if s == [] then None else if p(s[0]) then Some(s[0]) else FindFirst(s[1..], p)
  }

  /** `FindFirst` returns the earliest match, not merely some match. */
  lemma {:induction false} FindFirstIsEarliest<T>(s: seq<T>, p: T -> bool, i: nat)
    requires i < |s| && p(s[i])
    requires forall j | 0 <= j < i :: !p(s[j])
    ensures FindFirst(s, p) == Some(s[i])
  {
    if i > 0 {
      FindFirstIsEarliest(s[1..], p, i - 1);
    }
  }

  /** Every element of `s` differs from every other. */
  predicate NoDup<T(==)>(s: seq<T>) {
    forall i, j | 0 <= i < j < |s| :: s[i] != s[j]
  }

  /** The distinct elements of `s` in order of first appearance. */
  function Distinct<T(==)>(s: seq<T>): (r: seq<T>)
    ensures NoDup(r)
    ensures forall i | 0 <= i < |r| :: r[i] in s
    ensures forall i | 0 <= i < |s| :: s[i] in r
  {
    if s == [] then []
    else
      var init, x := s[..|s| - 1], s[|s| - 1];
      var d := Distinct(init);
      assert forall i | 0 <= i < |init| :: init[i] == s[i];
      if x in d then d else d + [x]
  }

  /** An element at two positions is counted at least twice. */
  lemma TwoPositions<T>(s: seq<T>, i: nat, j: nat)
    requires i < j < |s|
    ensures s[i] != s[j] || multiset(s)[s[i]] >= 2
  {
    assert s == s[..j] + s[j..];
    assert s[..j][i] == s[i] && s[j..][0] == s[j];
    assert multiset(s) == multiset(s[..j]) + multiset(s[j..]);
  }

  /** Without duplicates every element is counted at most once. */
  lemma {:induction false} NoDupCount<T>(s: seq<T>, x: T)
    requires NoDup(s)
    ensures multiset(s)[x] <= 1
  {
    if s != [] {
      var init := s[..|s| - 1];
      assert s == init + [s[|s| - 1]];
      assert forall i | 0 <= i < |init| :: init[i] == s[i];
      NoDupCount(init, x);
      assert s[|s| - 1] !in init;
    }
  }

  /** Two lists without duplicates that share nothing concatenate to a
      list without duplicates. */
  lemma NoDupConcat<T>(a: seq<T>, b: seq<T>)
    requires NoDup(a) && NoDup(b)
    requires forall k | 0 <= k < |b| :: b[k] !in a
    ensures NoDup(a + b)
  {
    forall i, j | 0 <= i < j < |a + b| ensures (a + b)[i] != (a + b)[j] {
      if i >= |a| {
        assert (a + b)[i] == b[i - |a|] && (a + b)[j] == b[j - |a|];
      } else if j >= |a| {
        assert (a + b)[i] == a[i] && (a + b)[j] == b[j - |a|];
        assert b[j - |a|] !in a;
      }
    }
  }

  /** A rearrangement of a sequence without duplicates has none either. */
  lemma PermutationNoDup<T>(s: seq<T>, t: seq<T>)
    requires NoDup(s) && multiset(s) == multiset(t)
    ensures NoDup(t)
  {
    forall i, j | 0 <= i < j < |t| ensures t[i] != t[j] {
      NoDupCount(s, t[i]);
      TwoPositions(t, i, j);
    }
  }

  /** The elements of `s` whose key is `k`, in their original order. */
  function KeyFilter<T, K(==)>(s: seq<T>, key: T -> K, k: K): (r: seq<T>)
    ensures |r| <= |s|
    ensures forall i | 0 <= i < |r| :: key(r[i]) == k
  {
    if s == [] then [] else (if key(s[0]) == k then [s[0]] else []) + KeyFilter(s[1..], key, k)
  }

  lemma {:induction false} KeyFilterConcat<T, K>(a: seq<T>, b: seq<T>, key: T -> K, k: K)
    ensures KeyFilter(a + b, key, k) == KeyFilter(a, key, k) + KeyFilter(b, key, k)
  {
    if a == [] {
      assert a + b == b;
    } else {
      var head := if key(a[0]) == k then [a[0]] else [];
      assert (a + b)[0] == a[0] && (a + b)[1..] == a[1..] + b;
      assert KeyFilter(a + b, key, k) == head + KeyFilter(a[1..] + b, key, k);
      KeyFilterConcat(a[1..], b, key, k);
      assert KeyFilter(a, key, k) == head + KeyFilter(a[1..], key, k);
    }
  }

  lemma {:induction false} KeyFilterMembership<T, K>(s: seq<T>, key: T -> K, k: K, x: T)
    ensures x in KeyFilter(s, key, k) <==> x in s && key(x) == k
  {
    if s != [] {
      KeyFilterMembership(s[1..], key, k, x);
      assert x in s <==> x == s[0] || x in s[1..];
    }
  }

  /** The distinct keys of `s` in order of first appearance. */
  function KeysOf<T, K(==)>(s: seq<T>, key: T -> K): (ks: seq<K>)
  {
    if s == [] then []
    else
      var ks := KeysOf(s[..|s| - 1], key);
      if key(s[|s| - 1]) in ks then ks else ks + [key(s[|s| - 1])]
  }

  lemma {:induction false} KeysOfSpec<T, K>(s: seq<T>, key: T -> K)
    ensures NoDup(KeysOf(s, key))
    ensures forall k :: k in KeysOf(s, key) <==> KeyFilter(s, key, k) != []
  {
    if s != [] {
      var init, x := s[..|s| - 1], s[|s| - 1];
      assert s == init + [x];
      KeysOfSpec(init, key);
      forall k ensures KeyFilter(s, key, k) == KeyFilter(init, key, k) + KeyFilter([x], key, k) {
        KeyFilterConcat(init, [x], key, k);
      }
    }
  }

  /** Bucket keys are pairwise distinct. */
  predicate DistinctKeys<K(==), V>(g: seq<(K, V)>) {
    forall i, j | 0 <= i < j < |g| :: g[i].0 != g[j].0
  }

  /** The first components of a sequence of pairs. */
  function Firsts<K, V>(g: seq<(K, V)>): (r: seq<K>)
    ensures |r| == |g|
    ensures forall i | 0 <= i < |g| :: r[i] == g[i].0
  {
    if g == [] then [] else [g[0].0] + Firsts(g[1..])
  }

  /** Pushes `x` onto the bucket of `k`, opening a new bucket at the end when
      `k` has none yet. */
  function AddToGroup<T, K(==)>(g: seq<(K, seq<T>)>, k: K, x: T): (r: seq<(K, seq<T>)>)
  {
    if g == [] then [(k, [x])]
    else if g[0].0 == k then [(k, g[0].1 + [x])] + g[1..]
    else [g[0]] + AddToGroup(g[1..], k, x)
  }

  lemma {:induction false} AddToGroupSpec<T, K>(g: seq<(K, seq<T>)>, k: K, x: T)
    requires DistinctKeys(g)
    ensures k in Firsts(g) ==> |AddToGroup(g, k, x)| == |g|
    ensures k !in Firsts(g) ==> AddToGroup(g, k, x) == g + [(k, [x])]
    ensures forall i | 0 <= i < |g| ::
      AddToGroup(g, k, x)[i] == (if g[i].0 == k then (k, g[i].1 + [x]) else g[i])
  {
    if g != [] {
      AddToGroupSpec(g[1..], k, x);
      assert Firsts(g) == [g[0].0] + Firsts(g[1..]);
    }
  }

  /** Groups `s` by `key`: one bucket per distinct key, in order of first
      appearance, each holding that key's elements in their original order. */
  function GroupBy<T, K(==)>(s: seq<T>, key: T -> K): (g: seq<(K, seq<T>)>)
  {
    if s == [] then []
    else AddToGroup(GroupBy(s[..|s| - 1], key), key(s[|s| - 1]), s[|s| - 1])
  }

  /** The incremental grouping equals the reference definition: the keys in
      order of first appearance, each paired with its filtered elements. */
  lemma {:induction false} GroupBySpec<T, K>(s: seq<T>, key: T -> K)
    ensures Firsts(GroupBy(s, key)) == KeysOf(s, key)
    ensures DistinctKeys(GroupBy(s, key))
    ensures forall i | 0 <= i < |GroupBy(s, key)| ::
      GroupBy(s, key)[i].1 == KeyFilter(s, key, GroupBy(s, key)[i].0)
  {
    if s != [] {
      var init, x := s[..|s| - 1], s[|s| - 1];
      assert s == init + [x];
      GroupBySpec(init, key);
      KeysOfSpec(init, key);
      var g0 := GroupBy(init, key);
      var kx := key(x);
      AddToGroupSpec(g0, kx, x);
      var g := AddToGroup(g0, kx, x);
      assert g == GroupBy(s, key);
      if kx in Firsts(g0) {
        GroupStepOld(init, x, key, g0);
      } else {
        GroupStepNew(init, x, key, g0);
      }
    }
  }

  /** Adding an element whose key already has a bucket. */
  lemma GroupStepOld<T, K>(init: seq<T>, x: T, key: T -> K, g0: seq<(K, seq<T>)>)
    requires DistinctKeys(g0) && key(x) in Firsts(g0)
    requires forall i | 0 <= i < |g0| :: g0[i].1 == KeyFilter(init, key, g0[i].0)
    ensures Firsts(AddToGroup(g0, key(x), x)) == Firsts(g0)
    ensures DistinctKeys(AddToGroup(g0, key(x), x))
    ensures forall i | 0 <= i < |AddToGroup(g0, key(x), x)| ::
      AddToGroup(g0, key(x), x)[i].1 == KeyFilter(init + [x], key, AddToGroup(g0, key(x), x)[i].0)
  {
    AddToGroupSpec(g0, key(x), x);
    var g := AddToGroup(g0, key(x), x);
    forall i | 0 <= i < |g| ensures g[i].0 == g0[i].0 && g[i].1 == KeyFilter(init + [x], key, g[i].0) {
      KeyFilterConcat(init, [x], key, g0[i].0);
    }
    assert Firsts(g) == Firsts(g0);
  }

  /** Adding an element whose key opens a new bucket. */
  lemma GroupStepNew<T, K>(init: seq<T>, x: T, key: T -> K, g0: seq<(K, seq<T>)>)
    requires DistinctKeys(g0) && key(x) !in Firsts(g0) && Firsts(g0) == KeysOf(init, key)
    requires forall i | 0 <= i < |g0| :: g0[i].1 == KeyFilter(init, key, g0[i].0)
    ensures Firsts(AddToGroup(g0, key(x), x)) == Firsts(g0) + [key(x)]
    ensures forall i | 0 <= i < |AddToGroup(g0, key(x), x)| ::
      AddToGroup(g0, key(x), x)[i].1 == KeyFilter(init + [x], key, AddToGroup(g0, key(x), x)[i].0)
  {
    AddToGroupSpec(g0, key(x), x);
    KeysOfSpec(init, key);
    var g := AddToGroup(g0, key(x), x);
    forall i | 0 <= i < |g| ensures g[i].1 == KeyFilter(init + [x], key, g[i].0) {
      KeyFilterConcat(init, [x], key, g[i].0);
      if i == |g0| {
        assert KeyFilter(init, key, key(x)) == [];
      }
    }
  }

  /** A strict order: irreflexive and transitive. */
  ghost predicate StrictOrder<K(!new)>(lt: (K, K) -> bool) {
    Irreflexive(lt) && (forall a, b, c :: lt(a, b) && lt(b, c) ==> lt(a, c))
  }

  ghost predicate Irreflexive<K(!new)>(lt: (K, K) -> bool) {
    forall a :: !lt(a, a)
  }

  /** No later element's key is strictly below an earlier element's key. */
  predicate SortedBy<T, K>(s: seq<T>, key: T -> K, lt: (K, K) -> bool) {
    forall i, j | 0 <= i < j < |s| :: !lt(key(s[j]), key(s[i]))
  }

  /** Inserts `x` just before the first element whose key is strictly above
      its own, that is after every element it does not strictly precede. */
  function InsertBy<T, K>(x: T, s: seq<T>, key: T -> K, lt: (K, K) -> bool): (r: seq<T>)
    ensures |r| == |s| + 1
    ensures multiset(r) == multiset(s) + multiset{x}
  {
    if s == [] then [x]
    else if lt(key(x), key(s[0])) then [x] + s
    else
      assert s == [s[0]] + s[1..];
      [s[0]] + InsertBy(x, s[1..], key, lt)
  }

  /** Stable insertion sort by `key`; the order `Array.prototype.sort`
      produces for a comparator consistent with `lt`. */
  function SortBy<T, K>(s: seq<T>, key: T -> K, lt: (K, K) -> bool): (r: seq<T>)
    ensures |r| == |s|
    ensures multiset(r) == multiset(s)
  {
    if s == [] then []
    else
      assert s == s[..|s| - 1] + [s[|s| - 1]];
      InsertBy(s[|s| - 1], SortBy(s[..|s| - 1], key, lt), key, lt)
  }

  lemma {:induction false} InsertBySorted<T, K(!new)>(x: T, s: seq<T>, key: T -> K, lt: (K, K) -> bool)
    requires StrictOrder(lt) && SortedBy(s, key, lt)
    ensures SortedBy(InsertBy(x, s, key, lt), key, lt)
  {
    if s != [] && !lt(key(x), key(s[0])) {
      InsertBySorted(x, s[1..], key, lt);
      var rest := InsertBy(x, s[1..], key, lt);
      forall j | 0 <= j < |rest| ensures !lt(key(rest[j]), key(s[0])) {
        assert rest[j] in multiset(rest);
        if rest[j] != x {
          assert rest[j] in multiset(s[1..]);
          var k :| 0 <= k < |s[1..]| && s[1..][k] == rest[j];
          assert s[k + 1] == rest[j];
        }
      }
    }
  }

  /** The stable sort yields a sorted permutation. */
  lemma {:induction false} SortBySorted<T, K(!new)>(s: seq<T>, key: T -> K, lt: (K, K) -> bool)
    requires StrictOrder(lt)
    ensures SortedBy(SortBy(s, key, lt), key, lt)
    ensures multiset(SortBy(s, key, lt)) == multiset(s)
  {
    if s != [] {
      SortBySorted(s[..|s| - 1], key, lt);
      InsertBySorted(s[|s| - 1], SortBy(s[..|s| - 1], key, lt), key, lt);
    }
  }

  lemma {:induction false} InsertByKeyFilter<T, K(!new)>(x: T, s: seq<T>, key: T -> K, lt: (K, K) -> bool, k: K)
    requires Irreflexive(lt) && SortedBy(s, key, lt)
    ensures KeyFilter(InsertBy(x, s, key, lt), key, k) == KeyFilter(s, key, k) + (if key(x) == k then [x] else [])
  {
    if s == [] {
    } else if lt(key(x), key(s[0])) {
      InsertFrontKeyFilter(x, s, key, lt, k);
    } else {
      SortedByTail(s, key, lt);
      InsertByKeyFilter(x, s[1..], key, lt, k);
      InsertStepKeyFilter(x, s, key, lt, k, if key(x) == k then [x] else []);
    }
  }

  /** An element placed in front of a sorted list whose keys are all larger. */
  lemma InsertFrontKeyFilter<T, K(!new)>(x: T, s: seq<T>, key: T -> K, lt: (K, K) -> bool, k: K)
    requires Irreflexive(lt) && SortedBy(s, key, lt) && s != [] && lt(key(x), key(s[0]))
    ensures KeyFilter(InsertBy(x, s, key, lt), key, k) == KeyFilter(s, key, k) + (if key(x) == k then [x] else [])
  {
    var r := [x] + s;
    assert InsertBy(x, s, key, lt) == r && r[1..] == s;
    assert KeyFilter(r, key, k) == (if key(x) == k then [x] else []) + KeyFilter(s, key, k);
    if key(x) == k {
      SmallerKeyAbsent(x, s, key, lt);
    }
  }

  /** An element passed over by the head is filtered as it is in the tail. */
  lemma InsertStepKeyFilter<T, K>(x: T, s: seq<T>, key: T -> K, lt: (K, K) -> bool, k: K, e: seq<T>)
    requires s != [] && !lt(key(x), key(s[0]))
    requires KeyFilter(InsertBy(x, s[1..], key, lt), key, k) == KeyFilter(s[1..], key, k) + e
    ensures KeyFilter(InsertBy(x, s, key, lt), key, k) == KeyFilter(s, key, k) + e
  {
    var rest := InsertBy(x, s[1..], key, lt);
    var r := [s[0]] + rest;
    var h := if key(s[0]) == k then [s[0]] else [];
    var a := KeyFilter(s[1..], key, k);
    calc {
      KeyFilter(InsertBy(x, s, key, lt), key, k);
      { assert InsertBy(x, s, key, lt) == r; }
      KeyFilter(r, key, k);
      { assert r[1..] == rest; }
      h + KeyFilter(rest, key, k);
      h + (a + e);
      (h + a) + e;
      KeyFilter(s, key, k) + e;
    }
  }

  lemma SortedByTail<T, K>(s: seq<T>, key: T -> K, lt: (K, K) -> bool)
    requires SortedBy(s, key, lt) && s != []
    ensures SortedBy(s[1..], key, lt)
  {
    var tail := s[1..];
    forall i, j | 0 <= i < j < |tail| ensures !lt(key(tail[j]), key(tail[i])) {
      assert tail[j] == s[j + 1] && tail[i] == s[i + 1];
    }
  }

  /** A key smaller than the first of a sorted sequence occurs nowhere in it. */
  lemma SmallerKeyAbsent<T, K(!new)>(x: T, s: seq<T>, key: T -> K, lt: (K, K) -> bool)
    requires Irreflexive(lt) && SortedBy(s, key, lt) && s != [] && lt(key(x), key(s[0]))
    ensures KeyFilter(s, key, key(x)) == []
  {
    forall j | 0 <= j < |s| ensures key(s[j]) != key(x) {
      assert j == 0 || !lt(key(s[j]), key(s[0]));
    }
    KeyFilterNone(s, key, key(x));
  }

  lemma {:induction false} KeyFilterNone<T, K>(s: seq<T>, key: T -> K, k: K)
    requires forall j | 0 <= j < |s| :: key(s[j]) != k
    ensures KeyFilter(s, key, k) == []
  {
    if s != [] {
      KeyFilterNone(s[1..], key, k);
    }
  }

  /** Elements with equal keys keep their relative order: the sort is stable. */
  lemma {:induction false} SortByStable<T, K(!new)>(s: seq<T>, key: T -> K, lt: (K, K) -> bool, k: K)
    requires StrictOrder(lt)
    ensures KeyFilter(SortBy(s, key, lt), key, k) == KeyFilter(s, key, k)
  {
    if s != [] {
      var init, x := s[..|s| - 1], s[|s| - 1];
      assert s == init + [x];
      SortByStable(init, key, lt, k);
      SortBySorted(init, key, lt);
      assert Irreflexive(lt);
      InsertByKeyFilter(x, SortBy(init, key, lt), key, lt, k);
      KeyFilterConcat(init, [x], key, k);
    }
  }

  // ---------------------------------------------------------------------
  // Blocks: one run per key, in a given key order

  /** The elements of `s` regrouped key by key in the order of `keys`, each
      block keeping the original order (`keys.flatMap(k => groups[k])`). */
  function Blocks<T, K(==)>(keys: seq<K>, s: seq<T>, key: T -> K): seq<T> {
    if keys == [] then [] else KeyFilter(s, key, keys[0]) + Blocks(keys[1..], s, key)
  }

  lemma {:induction false} KeyFilterTwice<T, K>(s: seq<T>, key: T -> K, a: K, b: K)
    ensures KeyFilter(KeyFilter(s, key, a), key, b) == if a == b then KeyFilter(s, key, a) else []
  {
    if s != [] {
      KeyFilterTwice(s[1..], key, a, b);
      KeyFilterConcat(if key(s[0]) == a then [s[0]] else [], KeyFilter(s[1..], key, a), key, b);
    }
  }

  /** Within the blocks each key's elements are exactly those of `s`, in
      their original order, provided the key order lists each key once. */
  lemma {:induction false} BlocksKeyFilter<T, K>(keys: seq<K>, s: seq<T>, key: T -> K, k: K)
    requires NoDup(keys)
    ensures KeyFilter(Blocks(keys, s, key), key, k) == if k in keys then KeyFilter(s, key, k) else []
  {
    if keys != [] {
      assert NoDup(keys[1..]) by {
        forall i, j | 0 <= i < j < |keys[1..]| ensures keys[1..][i] != keys[1..][j] {
          assert keys[1..][i] == keys[i + 1] && keys[1..][j] == keys[j + 1];
        }
      }
      BlocksKeyFilter(keys[1..], s, key, k);
      KeyFilterConcat(KeyFilter(s, key, keys[0]), Blocks(keys[1..], s, key), key, k);
      KeyFilterTwice(s, key, keys[0], k);
      assert k in keys <==> k == keys[0] || k in keys[1..];
      if k == keys[0] {
        assert k !in keys[1..] by {
          forall i | 0 <= i < |keys[1..]| ensures keys[1..][i] != k {
            assert keys[1..][i] == keys[i + 1];
          }
        }
      }
    }
  }

  /** An element occurs in `s` as often as in the elements sharing its key. */
  lemma {:induction false} CountWithinKey<T, K>(s: seq<T>, key: T -> K, x: T)
    ensures multiset(s)[x] == multiset(KeyFilter(s, key, key(x)))[x]
  {
    if s != [] {
      CountWithinKey(s[1..], key, x);
      assert s == [s[0]] + s[1..];
      assert multiset(KeyFilter(s, key, key(x)))
        == multiset(if key(s[0]) == key(x) then [s[0]] else []) + multiset(KeyFilter(s[1..], key, key(x)));
    }
  }

  /** Sequences with the same elements under every key are permutations of
      each other. */
  lemma SameKeyFilters<T, K>(s: seq<T>, t: seq<T>, key: T -> K)
    requires forall k :: KeyFilter(s, key, k) == KeyFilter(t, key, k)
    ensures multiset(s) == multiset(t)
  {
    forall x ensures multiset(s)[x] == multiset(t)[x] {
      CountWithinKey(s, key, x);
      CountWithinKey(t, key, x);
      assert KeyFilter(s, key, key(x)) == KeyFilter(t, key, key(x));
    }
  }

  /** Every element of the blocks has one of the listed keys. */
  lemma {:induction false} BlocksKeys<T, K>(keys: seq<K>, s: seq<T>, key: T -> K)
    ensures forall i | 0 <= i < |Blocks(keys, s, key)| :: key(Blocks(keys, s, key)[i]) in keys
  {
    if keys != [] {
      BlocksKeys(keys[1..], s, key);
      var head := KeyFilter(s, key, keys[0]);
      var r := Blocks(keys, s, key);
      forall i | 0 <= i < |r| ensures key(r[i]) in keys {
        if i >= |head| {
          assert r[i] == Blocks(keys[1..], s, key)[i - |head|];
          assert key(r[i]) in keys[1..];
        }
      }
    }
  }

  /** Blocks laid out in strictly ascending key order give a sequence whose
      keys never descend. */
  lemma {:induction false} BlocksAscending<T, K>(keys: seq<K>, s: seq<T>, key: T -> K, lt: (K, K) -> bool)
    requires forall i, j | 0 <= i < j < |keys| :: lt(keys[i], keys[j])
    ensures forall i, j | 0 <= i < j < |Blocks(keys, s, key)| ::
      key(Blocks(keys, s, key)[i]) == key(Blocks(keys, s, key)[j])
      || lt(key(Blocks(keys, s, key)[i]), key(Blocks(keys, s, key)[j]))
  {
    if keys != [] {
      var head := KeyFilter(s, key, keys[0]);
      var rest := Blocks(keys[1..], s, key);
      var r := Blocks(keys, s, key);
      BlocksAscending(keys[1..], s, key, lt);
      BlocksKeys(keys[1..], s, key);
      forall i, j | 0 <= i < j < |r| ensures key(r[i]) == key(r[j]) || lt(key(r[i]), key(r[j])) {
        if j < |head| {
          assert r[i] == head[i] && r[j] == head[j];
        } else if i < |head| {
          assert r[i] == head[i] && r[j] == rest[j - |head|];
          var m :| 0 <= m < |keys[1..]| && keys[1..][m] == key(r[j]);
          assert keys[1..][m] == keys[m + 1];
        } else {
          assert r[i] == rest[i - |head|] && r[j] == rest[j - |head|];
        }
      }
    }
  }

  /** A weaker test keeps at least as many elements. */
  lemma {:induction false} FilterWeaker<T>(s: seq<T>, p: T -> bool, q: T -> bool)
    requires forall x :: p(x) ==> q(x)
    ensures |Filter(s, p)| <= |Filter(s, q)|
  {
    if s != [] {
      FilterWeaker(s[1..], p, q);
    }
  }

  /** A key is among the keys exactly when some element carries it. */
  lemma KeysOfMembership<T, K>(s: seq<T>, key: T -> K, k: K)
    ensures k in KeysOf(s, key) <==> exists x | x in s :: key(x) == k
  {
    KeysOfSpec(s, key);
    if KeyFilter(s, key, k) != [] {
      KeyFilterMembership(s, key, k, KeyFilter(s, key, k)[0]);
    }
    if exists x | x in s :: key(x) == k {
      var x :| x in s && key(x) == k;
      KeyFilterMembership(s, key, k, x);
    }
  }

  /** Any two distinct keys are comparable. */
  ghost predicate Total<K(!new)>(lt: (K, K) -> bool) {
    forall a, b :: a != b ==> lt(a, b) || lt(b, a)
  }

  /** In two sorted sequences with the same elements under every key, the
      first key of one is not above the first key of the other. */
  lemma FirstKeyNotAbove<T, K(!new)>(s: seq<T>, t: seq<T>, key: T -> K, lt: (K, K) -> bool)
    requires Irreflexive(lt) && SortedBy(t, key, lt) && s != [] && t != []
    requires KeyFilter(s, key, key(s[0])) == KeyFilter(t, key, key(s[0]))
    ensures !lt(key(s[0]), key(t[0]))
  {
    assert s == [s[0]] + s[1..];
    assert KeyFilter(s, key, key(s[0]))[0] == s[0];
    KeyFilterMembership(t, key, key(s[0]), s[0]);
    var m :| 0 <= m < |t| && t[m] == s[0];
    assert m == 0 || !lt(key(t[m]), key(t[0]));
  }

  /** A total strict order admits exactly one sorted arrangement that keeps
      each key's elements in a given order. */
  lemma {:induction false} SortedUnique<T, K(!new)>(s: seq<T>, t: seq<T>, key: T -> K, lt: (K, K) -> bool)
    requires StrictOrder(lt) && Total(lt)
    requires SortedBy(s, key, lt) && SortedBy(t, key, lt)
    requires forall k :: KeyFilter(s, key, k) == KeyFilter(t, key, k)
    ensures s == t
    decreases |s|
  {
    SameKeyFilters(s, t, key);
    assert |s| == |multiset(s)| == |multiset(t)| == |t|;
    if s != [] {
      FirstKeyNotAbove(s, t, key, lt);
      FirstKeyNotAbove(t, s, key, lt);
      var a := key(s[0]);
      assert key(t[0]) == a;
      assert KeyFilter(s, key, a) == [s[0]] + KeyFilter(s[1..], key, a);
      assert KeyFilter(t, key, a) == [t[0]] + KeyFilter(t[1..], key, a);
      assert s[0] == KeyFilter(s, key, a)[0] == KeyFilter(t, key, a)[0] == t[0];
      forall k ensures KeyFilter(s[1..], key, k) == KeyFilter(t[1..], key, k) {
        var head := if a == k then [s[0]] else [];
        assert KeyFilter(s, key, k) == head + KeyFilter(s[1..], key, k);
        assert KeyFilter(t, key, k) == head + KeyFilter(t[1..], key, k);
        assert KeyFilter(s[1..], key, k) == KeyFilter(s, key, k)[|head|..];
      }
      SortedByTail(s, key, lt);
      SortedByTail(t, key, lt);
      SortedUnique(s[1..], t[1..], key, lt);
      assert s == [s[0]] + s[1..] && t == [t[0]] + t[1..];
    }
  }

  /** The elements in reverse order. */
  function Reverse<T>(s: seq<T>): (r: seq<T>)
    ensures |r| == |s|
    ensures forall i | 0 <= i < |s| :: r[i] == s[|s| - 1 - i]
  {
    if s == [] then [] else Reverse(s[1..]) + [s[0]]
  }

  /** A test and its negation split a sequence between them. */
  lemma {:induction false} FilterSplit<T>(s: seq<T>, p: T -> bool, q: T -> bool)
    requires forall x :: q(x) == !p(x)
    ensures |Filter(s, p)| + |Filter(s, q)| == |s|
  {
    if s != [] {
      FilterSplit(s[1..], p, q);
    }
  }

  /** No piece is longer than the whole. */
  lemma {:induction false} FlattenPieceLength<T>(ss: seq<seq<T>>, i: nat)
    requires i < |ss|
    ensures |ss[i]| <= |Flatten(ss)|
  {
    if i > 0 {
      FlattenPieceLength(ss[1..], i - 1);
    }
  }
}
