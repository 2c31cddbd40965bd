/** The analysis dashboard: the teacher workload ranking, the department
    spread, and the helpers the other analyses share. The per-teacher and
    per-class day analyses, room usage and the recommendations are in
    `TeacherDays`, `ClassDays`, `RoomLoad` and `Advice`.

    Day names come from translation tables and are kept as day indices;
    averages and percentages are floating point and are kept as the integer
    sums and counts they are computed from. */
module Dashboard {
  import opened Wrappers
  import opened Seqs
  import opened Strings
  import opened JsonValues
  import opened Entities
  import opened NumberRuns
  import opened PeriodGaps

  /** The period an entry sits in, the key the day lists are sorted by. */
  function PeriodOf(e: Entry): int {
    e.period
  }

  /** `settings.daysPerWeek || 0` as an array length: negative counts give
      no days. */
  function DayCount(settings: Obj): nat {
    var n := NumOr(settings, "daysPerWeek", 0);
    if n < 0 then 0 else n
  }

  function TeacherName(t: Teacher): string {
    t.name + " " + t.lastName
  }

  /** Whether the entry lists the teacher directly; event default teachers
      do not count here. */
  predicate DirectlyTeaches(tid: string, e: Entry) {
    tid in IdsOf(e.teacherIds)
  }

  // ---------------------------------------------------------------------
  // Workload ranking

  /** Periods in which the teacher is listed on the entry itself. */
  function DirectWorkload(schedule: seq<Entry>, tid: string): nat {
    |Filter(schedule, (e: Entry) => DirectlyTeaches(tid, e))|
  }

  datatype Load = Load(teacher: Teacher, periods: nat)

  function PeriodsOf(w: Load): nat {
    w.periods
  }

  predicate Heavier(a: nat, b: nat) {
    a > b
  }

  /** Every teacher with their workload, in teacher order. */
  function Loads(db: Store): (r: seq<Load>)
    ensures |r| == |db.teachers|
    ensures forall i | 0 <= i < |r| :: r[i] == Load(db.teachers[i], DirectWorkload(db.schedule, db.teachers[i].id))
  {
    MapSeq(db.teachers, (t: Teacher) => Load(t, DirectWorkload(db.schedule, t.id)))
  }

  /** `teacherWorkloads`: sorted by workload, heaviest first, ties in
      teacher order. */
  function Ranking(db: Store): seq<Load> {
    SortBy(Loads(db), PeriodsOf, Heavier)
  }

  /** The ranking lists every teacher once with their own workload, never
      increases, and keeps teachers with equal workloads in input order. */
  lemma RankingSpec(db: Store)
    ensures multiset(Ranking(db)) == multiset(Loads(db))
    ensures forall i | 0 <= i < |Ranking(db)| ::
      Ranking(db)[i].periods == DirectWorkload(db.schedule, Ranking(db)[i].teacher.id)
    ensures forall i, j | 0 <= i < j < |Ranking(db)| :: Ranking(db)[i].periods >= Ranking(db)[j].periods
    ensures forall n :: KeyFilter(Ranking(db), PeriodsOf, n) == KeyFilter(Loads(db), PeriodsOf, n)
  {
    var r := Ranking(db);
    assert StrictOrder(Heavier);
    SortBySorted(Loads(db), PeriodsOf, Heavier);
    forall i | 0 <= i < |r| ensures r[i].periods == DirectWorkload(db.schedule, r[i].teacher.id) {
      assert r[i] in multiset(Loads(db));
    }
    forall n ensures KeyFilter(r, PeriodsOf, n) == KeyFilter(Loads(db), PeriodsOf, n) {
      SortByStable(Loads(db), PeriodsOf, Heavier, n);
    }
  }

  /** `Math.ceil(n * 0.1)`, taken as the exact tenth rounded up. */
  function Quantile(n: nat): (q: nat)
    ensures q * 10 >= n && (q == 0 || (q - 1) * 10 < n)
  {
    (n + 9) / 10
  }

  /** `slice(0, q)`. */
  function Busiest(ws: seq<Load>, q: nat): (r: seq<Load>)
    ensures |r| == if q <= |ws| then q else |ws|
    ensures r <= ws
  {
    if q <= |ws| then ws[..q] else ws
  }

  /** `slice(-q).reverse()`; `slice(-0)` is the whole list. */
  function LeastBusy(ws: seq<Load>, q: nat): (r: seq<Load>)
    ensures q == 0 ==> r == Reverse(ws)
    ensures 0 < q <= |ws| ==> r == Reverse(ws[|ws| - q..])
  {
    if q == 0 || q > |ws| then Reverse(ws) else Reverse(ws[|ws| - q..])
  }

  predicate NonIncreasing(ws: seq<Load>) {
    forall i, j | 0 <= i < j < |ws| :: ws[i].periods >= ws[j].periods
  }

  /** On a ranking, the first `q` are the heads, the last `q` read backwards
      are the tails, and no tail has more periods than any head. */
  lemma ExtremesOf(ws: seq<Load>, q: nat)
    requires NonIncreasing(ws) && q <= |ws|
    ensures |Busiest(ws, q)| == q
    ensures q > 0 ==> |LeastBusy(ws, q)| == q
    ensures forall i | 0 <= i < q :: Busiest(ws, q)[i] == ws[i]
    ensures q > 0 ==> forall i | 0 <= i < q :: LeastBusy(ws, q)[i] == ws[|ws| - 1 - i]
    ensures q > 0 && 2 * q <= |ws| + 1 ==>
      forall i, j | 0 <= i < q && 0 <= j < q :: LeastBusy(ws, q)[j].periods <= Busiest(ws, q)[i].periods
    ensures q > 0 ==> forall i, j | 0 <= i < j < q :: LeastBusy(ws, q)[i].periods <= LeastBusy(ws, q)[j].periods
  {
    var b, l := Busiest(ws, q), LeastBusy(ws, q);
    if q > 0 && 2 * q <= |ws| + 1 {
      forall i, j | 0 <= i < q && 0 <= j < q ensures l[j].periods <= b[i].periods {
        assert l[j] == ws[|ws| - 1 - j] && b[i] == ws[i];
        assert i <= |ws| - 1 - j;
      }
    }
  }

  /** With a non-empty staff, the busiest tenth (rounded up) heads the
      ranking, the least busy tenth is its tail read backwards, and nobody
      listed as least busy has more periods than anyone listed as busiest
      (the two lists share at most the middle teacher). */
  lemma ExtremesSpec(db: Store)
    requires db.teachers != []
    ensures 1 <= Quantile(|Ranking(db)|) <= |Ranking(db)|
    ensures 2 * Quantile(|Ranking(db)|) <= |Ranking(db)| + 1
    ensures var ws := Ranking(db); var q := Quantile(|ws|);
      forall i, j | 0 <= i < q && 0 <= j < q :: LeastBusy(ws, q)[j].periods <= Busiest(ws, q)[i].periods
  {
    RankingSpec(db);
    ExtremesOf(Ranking(db), Quantile(|Ranking(db)|));
  }

  // ---------------------------------------------------------------------
  // Department spread

  function DeptOf(t: Teacher): string {
    t.department
  }

  /** `teacherWorkloads.find(w => w.teacher.id === id)?.periods || 0`. */
  function LookupLoad(ws: seq<Load>, tid: string): nat {
    match FindFirst(ws, (w: Load) => w.teacher.id == tid)
    case Some(w) => w.periods
    case None => 0
  }

  /** Looking a staff member up in the ranking gives their workload. */
  lemma LookupIsWorkload(db: Store, t: Teacher)
    requires t in db.teachers
    ensures LookupLoad(Ranking(db), t.id) == DirectWorkload(db.schedule, t.id)
  {
    var ws := Ranking(db);
    RankingSpec(db);
    var i :| 0 <= i < |db.teachers| && db.teachers[i] == t;
    assert Loads(db)[i] in multiset(ws);
    var found := FindFirst(ws, (w: Load) => w.teacher.id == t.id);
    assert found.Some?;
    var k :| 0 <= k < |ws| && ws[k] == found.value;
  }

  /** The smallest and largest values of a non-empty list. */
  function MinOf(s: seq<nat>): (m: nat)
    requires s != []
    ensures m in s && forall i | 0 <= i < |s| :: m <= s[i]
  {
    if |s| == 1 then s[0]
    else
      var rest := MinOf(s[1..]);
      assert forall i | 1 <= i < |s| :: s[i] == s[1..][i - 1];
      if s[0] <= rest then s[0] else rest
  }

  function MaxOf(s: seq<nat>): (m: nat)
    requires s != []
    ensures m in s && forall i | 0 <= i < |s| :: s[i] <= m
  {
    if |s| == 1 then s[0]
    else
      var rest := MaxOf(s[1..]);
      assert forall i | 1 <= i < |s| :: s[i] == s[1..][i - 1];
      if s[0] >= rest then s[0] else rest
  }

  function Sum(s: seq<nat>): nat {
    if s == [] then 0 else s[0] + Sum(s[1..])
  }

  /** One department's figures; the average is `total / |loads|`. */
  datatype DeptStat = DeptStat(name: string, loads: seq<nat>, total: nat, min: nat, max: nat)

  function DeptStatOf(db: Store, d: string): (r: DeptStat)
    ensures r.name == d
    ensures |r.loads| == |KeyFilter(db.teachers, DeptOf, d)|
  {
    var ws := Ranking(db);
    var loads := MapSeq(KeyFilter(db.teachers, DeptOf, d), (t: Teacher) => LookupLoad(ws, t.id));
    if loads == [] then DeptStat(d, [], 0, 0, 0)
    else DeptStat(d, loads, Sum(loads), MinOf(loads), MaxOf(loads))
  }

  /** `departmentStats`: one entry per department in order of first
      appearance. */
  function DepartmentStats(db: Store): seq<DeptStat> {
    MapSeq(KeysOf(db.teachers, DeptOf), (d: string) => DeptStatOf(db, d))
  }

  /** Every member's workload lies between the department's minimum and
      maximum, and both bounds are some member's workload. */
  lemma DepartmentBounds(db: Store, t: Teacher)
    requires t in db.teachers
    ensures DeptStatOf(db, t.department).min <= DirectWorkload(db.schedule, t.id) <= DeptStatOf(db, t.department).max
    ensures exists u | u in db.teachers && u.department == t.department ::
      DirectWorkload(db.schedule, u.id) == DeptStatOf(db, t.department).min
    ensures exists u | u in db.teachers && u.department == t.department ::
      DirectWorkload(db.schedule, u.id) == DeptStatOf(db, t.department).max
  {
    var members := KeyFilter(db.teachers, DeptOf, t.department);
    var ws := Ranking(db);
    var loads := MapSeq(members, (u: Teacher) => LookupLoad(ws, u.id));
    KeyFilterMembership(db.teachers, DeptOf, t.department, t);
    var i :| 0 <= i < |members| && members[i] == t;
    LookupIsWorkload(db, t);
    assert loads[i] == DirectWorkload(db.schedule, t.id);
    var st := DeptStatOf(db, t.department);
    var a :| 0 <= a < |loads| && loads[a] == st.min;
    var b :| 0 <= b < |loads| && loads[b] == st.max;
    KeyFilterMembership(db.teachers, DeptOf, t.department, members[a]);
    KeyFilterMembership(db.teachers, DeptOf, t.department, members[b]);
    LookupIsWorkload(db, members[a]);
    LookupIsWorkload(db, members[b]);
  }

  /** A department appears in the statistics exactly when some teacher
      belongs to it. */
  lemma DepartmentStatsCover(db: Store, d: string)
    ensures (exists i | 0 <= i < |DepartmentStats(db)| :: DepartmentStats(db)[i].name == d)
      <==> exists t | t in db.teachers :: t.department == d
  {
    var ks := KeysOf(db.teachers, DeptOf);
    KeysOfMembership(db.teachers, DeptOf, d);
    if d in ks {
      var i :| 0 <= i < |ks| && ks[i] == d;
      assert DepartmentStats(db)[i].name == d;
    }
  }
}
