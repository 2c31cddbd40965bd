/** The dashboard's per-teacher day analyses: runs of four or more
    back-to-back periods, and the count of single-period gaps in a day. */
module TeacherDays {
  import opened Wrappers
  import opened Seqs
  import opened Strings
  import opened JsonValues
  import opened Entities
  import opened NumberRuns
  import opened PeriodGaps
  import opened Dashboard

  /** The periods the teacher is listed for on a day, ascending, repeats
      kept. */
  function DayPeriods(schedule: seq<Entry>, tid: string, day: int): seq<int> {
    SortInts(MapSeq(Filter(schedule, (e: Entry) => e.day == day && DirectlyTeaches(tid, e)), PeriodOf))
  }

  predicate Long(r: seq<int>) {
    |r| >= 4
  }

  /** The runs of four or more; a day with fewer than four periods is
      skipped outright. */
  function LongRuns(ps: seq<int>): seq<seq<int>> {
    if |ps| < 4 then [] else Filter(Runs(ps), Long)
  }

  /** The reported runs are exactly the maximal runs of at least four
      strictly consecutive periods, so a repeated period ends a run. */
  lemma LongRunsSpec(ps: seq<int>, r: seq<int>)
    ensures RunsOf(Runs(ps), ps)
    ensures r in LongRuns(ps) <==> r in Runs(ps) && |r| >= 4
    ensures r in LongRuns(ps) ==> forall k | 0 <= k < |r| - 1 :: r[k] < r[k + 1]
  {
    RunsSpec(ps);
    FilterMembership(Runs(ps), Long, r);
    if r in Runs(ps) {
      var i :| 0 <= i < |Runs(ps)| && Runs(ps)[i] == r;
      FlattenPieceLength(Runs(ps), i);
    }
  }

  /** One reported run: whose, which day (0-based) and which periods. */
  datatype Burnout = Burnout(teacher: Teacher, day: nat, run: seq<int>)

  /** The periods as shown: 1-based, comma-separated. */
  function BurnoutText(b: Burnout): string {
    Join(MapSeq(b.run, (p: int) => IntToString(p + 1)), ", ")
  }

  /** One teacher's runs on one day as report lines. */
  function DayBurnouts(t: Teacher, day: nat, runs: seq<seq<int>>): (r: seq<Burnout>)
    ensures |r| == |runs| && forall i | 0 <= i < |runs| :: r[i] == Burnout(t, day, runs[i])
  {
    MapSeq(runs, (run: seq<int>) => Burnout(t, day, run))
  }

  lemma DayBurnoutsMembership(t: Teacher, day: nat, runs: seq<seq<int>>, b: Burnout)
    ensures b in DayBurnouts(t, day, runs) <==> b.teacher == t && b.day == day && b.run in runs
  {
    var r := DayBurnouts(t, day, runs);
    if b.teacher == t && b.day == day && b.run in runs {
      var i :| 0 <= i < |runs| && runs[i] == b.run;
      assert r[i] == b;
    }
  }

  /** A teacher's runs on each day. */
  function DayRunsOf(db: Store, tid: string): nat -> seq<seq<int>> {
    (day: nat) => LongRuns(DayPeriods(db.schedule, tid, day))
  }

  /** A teacher's runs over the first `days` days, day by day. */
  function BurnoutsUpTo(t: Teacher, days: nat, runsOn: nat -> seq<seq<int>>): seq<Burnout> {
    if days == 0 then []
    else BurnoutsUpTo(t, days - 1, runsOn) + DayBurnouts(t, days - 1, runsOn(days - 1))
  }

  lemma {:induction false} BurnoutsUpToMembership(t: Teacher, days: nat, runsOn: nat -> seq<seq<int>>, b: Burnout)
    ensures b in BurnoutsUpTo(t, days, runsOn) <==> b.teacher == t && b.day < days && b.run in runsOn(b.day)
  {
    if days > 0 {
      BurnoutsUpToMembership(t, days - 1, runsOn, b);
      DayBurnoutsMembership(t, days - 1, runsOn(days - 1), b);
    }
  }

  function TeacherBurnouts(db: Store, t: Teacher): seq<Burnout> {
    BurnoutsUpTo(t, DayCount(db.settings), DayRunsOf(db, t.id))
  }

  /** `consecutiveTeaching`, teacher by teacher. */
  function ConsecutiveTeaching(db: Store): seq<Burnout> {
    Flatten(MapSeq(db.teachers, (t: Teacher) => TeacherBurnouts(db, t)))
  }

  /** A run is reported exactly for a staff member, a day of the week and a
      maximal run of at least four consecutive periods that day. */
  lemma ConsecutiveTeachingSpec(db: Store, b: Burnout)
    ensures b in ConsecutiveTeaching(db) <==>
      b.teacher in db.teachers && b.day < DayCount(db.settings)
      && b.run in Runs(DayPeriods(db.schedule, b.teacher.id, b.day)) && |b.run| >= 4
  {
    var per := MapSeq(db.teachers, (t: Teacher) => TeacherBurnouts(db, t));
    FlattenMembership(per, b);
    LongRunsSpec(DayPeriods(db.schedule, b.teacher.id, b.day), b.run);
    BurnoutsUpToMembership(b.teacher, DayCount(db.settings), DayRunsOf(db, b.teacher.id), b);
    if exists i | 0 <= i < |per| :: b in per[i] {
      var i :| 0 <= i < |per| && b in per[i];
      BurnoutsUpToMembership(db.teachers[i], DayCount(db.settings), DayRunsOf(db, db.teachers[i].id), b);
    }
    if b.teacher in db.teachers {
      var i :| 0 <= i < |db.teachers| && db.teachers[i] == b.teacher;
      assert per[i] == TeacherBurnouts(db, b.teacher);
    }
  }

  // ---------------------------------------------------------------------
  // Single-period gaps

  /** A teacher's gaps over the first `days` days. */
  function GapCount(db: Store, tid: string, days: nat): nat {
    if days == 0 then 0 else GapCount(db, tid, days - 1) + Gaps(DayPeriods(db.schedule, tid, days - 1))
  }

  datatype GapRow = GapRow(teacher: Teacher, gaps: nat)

  function GapsOf(g: GapRow): nat {
    g.gaps
  }

  function GapRowOf(db: Store, t: Teacher): GapRow {
    GapRow(t, GapCount(db, t.id, DayCount(db.settings)))
  }

  predicate HasGaps(g: GapRow) {
    g.gaps > 0
  }

  /** `inefficientGaps`: teachers with at least one gap, most gaps first. */
  function InefficientGaps(db: Store): seq<GapRow> {
    SortBy(Filter(MapSeq(db.teachers, (t: Teacher) => GapRowOf(db, t)), HasGaps), GapsOf, Heavier)
  }

  /** The teachers with a gap, in teacher order. */
  lemma GappedSpec(db: Store, t: Teacher)
    ensures var kept := Filter(MapSeq(db.teachers, (u: Teacher) => GapRowOf(db, u)), HasGaps);
      && (GapRowOf(db, t) in kept <==> t in db.teachers && GapRowOf(db, t).gaps > 0)
      && (forall g | g in kept :: g.gaps > 0 && g == GapRowOf(db, g.teacher))
  {
    var rows := MapSeq(db.teachers, (u: Teacher) => GapRowOf(db, u));
    var kept := Filter(rows, HasGaps);
    forall g | g in kept ensures g.gaps > 0 && g == GapRowOf(db, g.teacher) {
      FilterMembership(rows, HasGaps, g);
      var i :| 0 <= i < |rows| && rows[i] == g;
    }
    FilterMembership(rows, HasGaps, GapRowOf(db, t));
    if t in db.teachers {
      var i :| 0 <= i < |db.teachers| && db.teachers[i] == t;
      assert rows[i] == GapRowOf(db, t);
    }
    if GapRowOf(db, t) in rows {
      var i :| 0 <= i < |rows| && rows[i] == GapRowOf(db, t);
      assert db.teachers[i] == t;
    }
  }

  /** The list holds exactly the teachers with a gap, each with their own
      count, most gaps first. */
  lemma InefficientGapsSpec(db: Store, t: Teacher)
    ensures forall i, j | 0 <= i < j < |InefficientGaps(db)| :: InefficientGaps(db)[i].gaps >= InefficientGaps(db)[j].gaps
    ensures GapRowOf(db, t) in InefficientGaps(db) <==> t in db.teachers && GapRowOf(db, t).gaps > 0
    ensures forall g | g in InefficientGaps(db) :: g.gaps > 0 && g == GapRowOf(db, g.teacher)
  {
    var kept := Filter(MapSeq(db.teachers, (u: Teacher) => GapRowOf(db, u)), HasGaps);
    var r := InefficientGaps(db);
    assert StrictOrder(Heavier);
    SortBySorted(kept, GapsOf, Heavier);
    GappedSpec(db, t);
    forall g ensures g in r <==> g in kept {
      assert g in r <==> g in multiset(r);
    }
  }
}
