/** Sorting whole numbers and cutting a sorted list into maximal runs of
    consecutive values, as the workload report and the dashboard both do. */
module NumberRuns {
  import opened Seqs

  predicate IntLess(a: int, b: int) {
    a < b
  }

  function IntId(n: int): int {
    n
  }

  /** `ns.sort((a, b) => a - b)`: ascending, stable. */
  function SortInts(ns: seq<int>): (r: seq<int>)
    ensures multiset(r) == multiset(ns)
    ensures forall i, j | 0 <= i < j < |r| :: r[i] <= r[j]
  {
    assert StrictOrder(IntLess);
    SortBySorted(ns, IntId, IntLess);
    SortBy(ns, IntId, IntLess)
  }

  /** Each number is one more than the one before. */
  predicate Consecutive(r: seq<int>) {
    forall k | 0 <= k < |r| - 1 :: r[k + 1] == r[k] + 1
  }

  /** The runs still to be closed, `cur` being the open one. */
  function RunsFrom(cur: seq<int>, rest: seq<int>): seq<seq<int>>
    requires cur != []
    decreases |rest|
  {
    if rest == [] then [cur]
    else if rest[0] == cur[|cur| - 1] + 1 then RunsFrom(cur + [rest[0]], rest[1..])
    else [cur] + RunsFrom([rest[0]], rest[1..])
  }

  /** The maximal runs of consecutive numbers, left to right. */
  function Runs(ns: seq<int>): seq<seq<int>> {
    if ns == [] then [] else RunsFrom([ns[0]], ns[1..])
  }

  /** The runs are non-empty, consecutive, maximal (no run continues into
      the next) and together spell out the input. */
  predicate RunsOf(rs: seq<seq<int>>, ns: seq<int>) {
    && Flatten(rs) == ns
    && (forall i | 0 <= i < |rs| :: rs[i] != [] && Consecutive(rs[i]))
    && (forall i | 0 <= i < |rs| - 1 :: rs[i][|rs[i]| - 1] + 1 != rs[i + 1][0])
  }

  lemma {:induction false} RunsFromSpec(cur: seq<int>, rest: seq<int>)
    requires cur != [] && Consecutive(cur)
    ensures RunsOf(RunsFrom(cur, rest), cur + rest)
    ensures RunsFrom(cur, rest)[0][0] == cur[0]
    decreases |rest|
  {
    if rest == [] {
      assert Flatten([cur]) == cur + Flatten([]);
      assert cur + rest == cur;
    } else if rest[0] == cur[|cur| - 1] + 1 {
      assert Consecutive(cur + [rest[0]]);
      RunsFromSpec(cur + [rest[0]], rest[1..]);
      assert cur + [rest[0]] + rest[1..] == cur + rest;
    } else {
      RunsFromSpec([rest[0]], rest[1..]);
      assert [rest[0]] + rest[1..] == rest;
      RunsCons(cur, RunsFrom([rest[0]], rest[1..]), rest);
    }
  }

  /** A closed run in front of the runs of the rest. */
  lemma RunsCons(cur: seq<int>, tail: seq<seq<int>>, rest: seq<int>)
    requires cur != [] && Consecutive(cur)
    requires RunsOf(tail, rest) && tail != [] && tail[0] != [] && cur[|cur| - 1] + 1 != tail[0][0]
    ensures RunsOf([cur] + tail, cur + rest)
  {
    var rs := [cur] + tail;
    assert rs[1..] == tail;
    assert Flatten(rs) == cur + Flatten(tail);
    forall i | 0 <= i < |rs| - 1 ensures rs[i][|rs[i]| - 1] + 1 != rs[i + 1][0] {
      if i > 0 {
        assert rs[i] == tail[i - 1] && rs[i + 1] == tail[i];
      }
    }
  }

  /** `Runs` splits a sequence into its maximal consecutive runs. */
  lemma RunsSpec(ns: seq<int>)
    ensures RunsOf(Runs(ns), ns)
  {
    if ns != [] {
      RunsFromSpec([ns[0]], ns[1..]);
      assert [ns[0]] + ns[1..] == ns;
    }
  }

  /** The k-th number of a run is its first plus k. */
  lemma {:induction false} ConsecutiveIndex(r: seq<int>, k: nat)
    requires Consecutive(r) && k < |r|
    ensures r[k] == r[0] + k
  {
    if k > 0 {
      ConsecutiveIndex(r, k - 1);
    }
  }
}
