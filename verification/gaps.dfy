/** Single-period gaps in one teacher's day: neighbouring taught periods
    exactly two apart, counted by one pass over the sorted periods. */
module PeriodGaps {
  import opened Seqs

  /** Neighbouring pairs `(ps[j], ps[j + 1])`. */
  function AdjacentPairs(ps: seq<int>): (r: seq<(int, int)>)
    ensures |ps| >= 1 ==> |r| == |ps| - 1
    ensures |ps| == 0 ==> r == []
    ensures forall j | 0 <= j < |r| :: r[j] == (ps[j], ps[j + 1])
  {
    if |ps| < 2 then [] else [(ps[0], ps[1])] + AdjacentPairs(ps[1..])
  }

  predicate IsGap(p: (int, int)) {
    p.1 - p.0 == 2
  }

  /** Neighbouring periods exactly two apart. */
  function Gaps(ps: seq<int>): nat {
    |Filter(AdjacentPairs(ps), IsGap)|
  }

  lemma PairsExtend(ps: seq<int>, j: nat)
    requires 1 <= j < |ps|
    ensures AdjacentPairs(ps[..j + 1]) == AdjacentPairs(ps[..j]) + [(ps[j - 1], ps[j])]
  {
    var a, b := AdjacentPairs(ps[..j + 1]), AdjacentPairs(ps[..j]) + [(ps[j - 1], ps[j])];
    assert |a| == j == |b|;
    forall k | 0 <= k < j ensures a[k] == b[k] {
      assert ps[..j + 1][k] == ps[k] && ps[..j + 1][k + 1] == ps[k + 1];
    }
  }

  /** The counting loop: one pass over neighbouring periods. */
  method CountGaps(ps: seq<int>) returns (n: nat)
    ensures n == Gaps(ps)
  {
    n := 0;
    if |ps| == 0 {
      return;
    }
    var j := 1;
    while j < |ps|
      invariant 1 <= j <= |ps|
      invariant n == |Filter(AdjacentPairs(ps[..j]), IsGap)|
    {
      PairsExtend(ps, j);
      FilterConcat(AdjacentPairs(ps[..j]), [(ps[j - 1], ps[j])], IsGap);
      if ps[j] - ps[j - 1] == 2 {
        n := n + 1;
      }
      j := j + 1;
    }
    assert ps[..j] == ps;
  }
}
