/** The workload report's compact rendering of a teacher's classes:
    names of the form `prefix/number` are grouped by prefix, and each
    group's numbers are written as runs, a run of four or more as a range
    `prefix/first-last`. */
module ClassNames {
  import opened Wrappers
  import opened Seqs
  import opened Strings
  import opened NumberRuns

  // ---------------------------------------------------------------------
  // Reading a class name

  /** The characters `.` does not match in a JavaScript regular expression
      without the `s` flag. */
  predicate LineTerminator(ch: char) {
    ch == '\n' || ch == '\r' || ch == '\U{2028}' || ch == '\U{2029}'
  }

  /** `/^(.+?)\/(\d+)$/` matches `name` with the separating slash at `i`:
      a non-empty prefix without line terminators, the slash, and one or
      more ASCII digits up to the end. */
  predicate MatchesAt(name: string, i: int) {
    1 <= i && i + 1 < |name| && name[i] == '/' && AllDigits(name[i + 1..])
    && forall k | 0 <= k < i :: !LineTerminator(name[k])
  }

  /** The index of the last slash. */
  function LastSlash(s: string): (r: Option<nat>)
    ensures r.None? <==> '/' !in s
    ensures r.Some? ==> r.value < |s| && s[r.value] == '/' && '/' !in s[r.value + 1..]
  {
    if s == [] then None
    else if s[|s| - 1] == '/' then Some(|s| - 1)
    else
      var r := LastSlash(s[..|s| - 1]);
      assert forall k | 0 <= k < |s| - 1 :: s[..|s| - 1][k] == s[k];
      r
  }

  /** A slash followed only by digits is the last slash. */
  lemma LastSlashOfMatch(name: string, i: int)
    requires MatchesAt(name, i)
    ensures LastSlash(name) == Some(i)
  {
    assert name[i] == '/';
    var j := LastSlash(name).value;
    assert forall k | j < k < |name| :: name[k] == name[j + 1..][k - j - 1];
    assert forall k | i < k < |name| :: name[k] == name[i + 1..][k - i - 1];
  }

  /** The prefix and the number `parseInt` reads from a matching name. The
      lazy prefix is forced to end at the last slash, because digits never
      contain one. */
  function Numbered(name: string): (r: Option<(string, nat)>)
    ensures r.Some? <==> exists i :: MatchesAt(name, i)
    ensures forall i | MatchesAt(name, i) :: r == Some((name[..i], DigitsValue(name[i + 1..])))
  {
    match LastSlash(name)
    case Some(i) =>
      if MatchesAt(name, i) then
        assert forall j | MatchesAt(name, j) :: j == i by {
          forall j | MatchesAt(name, j) ensures j == i {
            LastSlashOfMatch(name, j);
          }
        }
        Some((name[..i], DigitsValue(name[i + 1..])))
      else
        assert forall j :: !MatchesAt(name, j) by {
          forall j | MatchesAt(name, j) ensures false {
            LastSlashOfMatch(name, j);
          }
        }
        None
    case None =>
      assert forall j :: !MatchesAt(name, j);
      None
  }

  // ---------------------------------------------------------------------
  // Rendering

  /** How a run is written: a single number, every number listed, or a
      first-last range. */
  datatype Piece = Single(n: int) | Listed(ns: seq<int>) | Span(first: int, last: int)

  /** Runs of one number are written alone, runs of two or three are
      listed, longer runs become a range. */
  function Shape(run: seq<int>): (p: Piece)
    ensures run != [] && Consecutive(run) ==> forall n :: Covers(p, n) <==> n in run
  {
    if |run| <= 1 then
      if run == [] then Listed([]) else Single(run[0])
    else if |run| <= 3 then Listed(run)
    else
      assert Consecutive(run) ==> forall n :: (run[0] <= n <= run[|run| - 1] <==> n in run) by {
        if Consecutive(run) {
          forall n ensures run[0] <= n <= run[|run| - 1] <==> n in run {
            ConsecutiveIndex(run, |run| - 1);
            if run[0] <= n <= run[|run| - 1] {
              ConsecutiveIndex(run, n - run[0]);
            }
            if n in run {
              var k :| 0 <= k < |run| && run[k] == n;
              ConsecutiveIndex(run, k);
            }
          }
        }
      }
      Span(run[0], run[|run| - 1])
  }

  /** The numbers a piece stands for. */
  predicate Covers(p: Piece, n: int) {
    match p
    case Single(m) => n == m
    case Listed(ns) => n in ns
    case Span(a, b) => a <= n <= b
  }

  /** The text of one piece, numbers without leading zeros. */
  function PieceText(prefix: string, p: Piece): string {
    match p
    case Single(n) => prefix + "/" + IntToString(n)
    case Listed(ns) => Join(MapSeq(ns, (n: int) => prefix + "/" + IntToString(n)), ", ")
    case Span(a, b) => prefix + "/" + IntToString(a) + "-" + IntToString(b)
  }

  // ---------------------------------------------------------------------
  // Grouping

  /** The prefix and number of every matching name, in input order. */
  function Matched(names: seq<string>): seq<(string, nat)> {
    if names == [] then []
    else
      match Numbered(names[0])
      case Some(m) => [m] + Matched(names[1..])
      case None => Matched(names[1..])
  }

  lemma {:induction false} MatchedMembership(names: seq<string>, m: (string, nat))
    ensures m in Matched(names) <==> exists i | 0 <= i < |names| :: Numbered(names[i]) == Some(m)
  {
    if names != [] {
      MatchedMembership(names[1..], m);
      if exists i | 0 <= i < |names| :: Numbered(names[i]) == Some(m) {
        var i :| 0 <= i < |names| && Numbered(names[i]) == Some(m);
        if i > 0 {
          assert names[1..][i - 1] == names[i];
        }
      }
      if exists i | 0 <= i < |names[1..]| :: Numbered(names[1..][i]) == Some(m) {
        var i :| 0 <= i < |names[1..]| && Numbered(names[1..][i]) == Some(m);
        assert names[i + 1] == names[1..][i];
      }
    }
  }

  /** The names that do not match, in input order. */
  function Unmatched(names: seq<string>): seq<string> {
    Filter(names, (name: string) => Numbered(name).None?)
  }

  /** A group's numbers: without repeats, in ascending order. */
  function Ordered(ns: seq<int>): seq<int> {
    SortBy(Distinct(ns), (n: int) => n, IntLess)
  }

  lemma OrderedSpec(ns: seq<int>)
    ensures forall i, j | 0 <= i < j < |Ordered(ns)| :: Ordered(ns)[i] < Ordered(ns)[j]
    ensures forall n :: n in Ordered(ns) <==> n in ns
  {
    OrderedAscending(ns);
    var r := Ordered(ns);
    forall n ensures n in r <==> n in ns {
      assert n in r <==> n in multiset(r);
      assert n in Distinct(ns) <==> n in multiset(Distinct(ns));
    }
  }

  lemma OrderedAscending(ns: seq<int>)
    ensures forall i, j | 0 <= i < j < |Ordered(ns)| :: Ordered(ns)[i] < Ordered(ns)[j]
  {
    var d := Distinct(ns);
    var r := Ordered(ns);
    assert StrictOrder(IntLess);
    SortBySorted(d, (n: int) => n, IntLess);
    PermutationNoDup(d, r);
    forall i, j | 0 <= i < j < |r| ensures r[i] < r[j] {
      assert !IntLess(r[j], r[i]) && r[i] != r[j];
    }
  }

  /** The pieces a group's numbers are written as. */
  function Pieces(ns: seq<int>): seq<Piece> {
    MapSeq(Runs(Ordered(ns)), Shape)
  }

  /** The groups by prefix in order of first appearance, each with the
      pieces of its runs. */
  function Groups(names: seq<string>): seq<(string, seq<Piece>)> {
    MapSeq(GroupBy(Matched(names), (m: (string, nat)) => m.0),
      (g: (string, seq<(string, nat)>)) => (g.0, Pieces(GroupNumbers(g))))
  }

  /** The numbers of a group, as read from its names. */
  function GroupNumbers(g: (string, seq<(string, nat)>)): seq<int> {
    MapSeq(g.1, (m: (string, nat)) => m.1 as int)
  }

  /** `condenseClassNames`: the groups' pieces, then the unmatched names,
      all joined with `", "`. */
  function Condense(names: seq<string>): (r: string)
    ensures names == [] ==> r == ""
  {
    if names == [] then ""
    else
      var parts := MapSeq(Groups(names), (g: (string, seq<Piece>)) =>
        Join(MapSeq(g.1, (p: Piece) => PieceText(g.0, p)), ", "));
      Join(parts + Unmatched(names), ", ")
  }

  /** Pieces made from non-empty consecutive runs cover exactly the
      runs' numbers. */
  lemma {:induction false} PiecesCoverRuns(rs: seq<seq<int>>, n: int)
    requires forall i | 0 <= i < |rs| :: rs[i] != [] && Consecutive(rs[i])
    ensures (exists q | 0 <= q < |rs| :: Covers(Shape(rs[q]), n)) <==> n in Flatten(rs)
  {
    if rs != [] {
      PiecesCoverRuns(rs[1..], n);
      assert Covers(Shape(rs[0]), n) <==> n in rs[0];
      if exists q | 0 <= q < |rs[1..]| :: Covers(Shape(rs[1..][q]), n) {
        var q :| 0 <= q < |rs[1..]| && Covers(Shape(rs[1..][q]), n);
        assert Covers(Shape(rs[q + 1]), n);
      }
      if exists q | 0 <= q < |rs| :: Covers(Shape(rs[q]), n) {
        var q :| 0 <= q < |rs| && Covers(Shape(rs[q]), n);
        if q > 0 {
          assert rs[1..][q - 1] == rs[q];
        }
      }
    }
  }

  /** A group's pieces cover a number exactly when the group holds it. */
  lemma GroupCovers(ns: seq<int>, n: int)
    ensures (exists q | 0 <= q < |Pieces(ns)| :: Covers(Pieces(ns)[q], n)) <==> n in ns
  {
    var rs := Runs(Ordered(ns));
    RunsSpec(Ordered(ns));
    OrderedSpec(ns);
    PiecesCoverRuns(rs, n);
    assert forall q | 0 <= q < |rs| :: Pieces(ns)[q] == Shape(rs[q]);
  }

  /** The number sequence of the group for prefix `p` holds `n` exactly
      when some name reads as `p/n`. */
  lemma GroupHolds(names: seq<string>, j: nat, n: nat)
    requires j < |GroupBy(Matched(names), (m: (string, nat)) => m.0)|
    ensures var g := GroupBy(Matched(names), (m: (string, nat)) => m.0)[j];
      n in GroupNumbers(g) <==> exists i | 0 <= i < |names| :: Numbered(names[i]) == Some((g.0, n))
  {
    var ms := Matched(names);
    var key := (m: (string, nat)) => m.0;
    GroupBySpec(ms, key);
    var g := GroupBy(ms, key)[j];
    var nums := GroupNumbers(g);
    if n in nums {
      var k :| 0 <= k < |nums| && nums[k] == n;
      KeyFilterMembership(ms, key, g.0, g.1[k]);
      MatchedMembership(names, g.1[k]);
    }
    if exists i | 0 <= i < |names| :: Numbered(names[i]) == Some((g.0, n)) {
      var m: (string, nat) := (g.0, n);
      MatchedMembership(names, m);
      KeyFilterMembership(ms, key, g.0, m);
      var k :| 0 <= k < |g.1| && g.1[k] == m;
      assert nums[k] == n;
    }
  }

  /** A group's entry in `Groups` is its prefix with its pieces. */
  lemma GroupsAt(names: seq<string>, j: nat)
    requires j < |GroupBy(Matched(names), (m: (string, nat)) => m.0)|
    ensures var g := GroupBy(Matched(names), (m: (string, nat)) => m.0)[j];
      j < |Groups(names)| && Groups(names)[j] == (g.0, Pieces(GroupNumbers(g)))
  {
  }

  /** A covered number was read from some name with that prefix. */
  lemma CoveredWasRead(names: seq<string>, p: string, n: nat, j: nat, q: nat)
    requires j < |Groups(names)| && q < |Groups(names)[j].1|
    requires Groups(names)[j].0 == p && Covers(Groups(names)[j].1[q], n)
    ensures exists i | 0 <= i < |names| :: Numbered(names[i]) == Some((p, n))
  {
    var g := GroupBy(Matched(names), (m: (string, nat)) => m.0);
    GroupsAt(names, j);
    GroupCovers(GroupNumbers(g[j]), n);
    GroupHolds(names, j, n);
  }

  /** A number read from a name is covered in the group of its prefix. */
  lemma ReadIsCovered(names: seq<string>, p: string, n: nat, i: nat)
    requires i < |names| && Numbered(names[i]) == Some((p, n))
    ensures exists j, q | 0 <= j < |Groups(names)| && 0 <= q < |Groups(names)[j].1| ::
      Groups(names)[j].0 == p && Covers(Groups(names)[j].1[q], n)
  {
    var ms := Matched(names);
    var key := (m: (string, nat)) => m.0;
    var g := GroupBy(ms, key);
    var m: (string, nat) := (p, n);
    MatchedMembership(names, m);
    KeyFilterMembership(ms, key, p, m);
    KeysOfSpec(ms, key);
    GroupBySpec(ms, key);
    assert p in Firsts(g);
    var j :| 0 <= j < |g| && Firsts(g)[j] == p;
    GroupsAt(names, j);
    GroupHolds(names, j, n);
    GroupCovers(GroupNumbers(g[j]), n);
    var q :| 0 <= q < |Groups(names)[j].1| && Covers(Groups(names)[j].1[q], n);
  }

  /** Every number read from a name is covered by a piece of its prefix's
      group, and every covered number was read from some name: nothing is
      lost and nothing is invented. */
  lemma CondenseCovers(names: seq<string>, p: string, n: nat)
    ensures (exists j, q | 0 <= j < |Groups(names)| && 0 <= q < |Groups(names)[j].1| ::
               Groups(names)[j].0 == p && Covers(Groups(names)[j].1[q], n))
        <==> (exists i | 0 <= i < |names| :: Numbered(names[i]) == Some((p, n)))
  {
    var gs := Groups(names);
    if exists j, q | 0 <= j < |gs| && 0 <= q < |gs[j].1| :: gs[j].0 == p && Covers(gs[j].1[q], n) {
      var j, q :| 0 <= j < |gs| && 0 <= q < |gs[j].1| && gs[j].0 == p && Covers(gs[j].1[q], n);
      CoveredWasRead(names, p, n, j, q);
    }
    if exists i | 0 <= i < |names| :: Numbered(names[i]) == Some((p, n)) {
      var i :| 0 <= i < |names| && Numbered(names[i]) == Some((p, n));
      ReadIsCovered(names, p, n, i);
    }
  }

  /** Within a group the runs, read left to right, give the group's
      numbers without repeats in strictly ascending order, and no run could
      be extended by the next. */
  lemma GroupRunsAscending(ns: seq<int>)
    ensures RunsOf(Runs(Ordered(ns)), Ordered(ns))
    ensures forall i, j | 0 <= i < j < |Flatten(Runs(Ordered(ns)))| ::
      Flatten(Runs(Ordered(ns)))[i] < Flatten(Runs(Ordered(ns)))[j]
  {
    RunsSpec(Ordered(ns));
    OrderedSpec(ns);
  }
}
