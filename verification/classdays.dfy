/** The dashboard's per-class day analyses: four academic lessons in a
    row, days taught entirely in academic subjects, and the split of
    academic lessons before and after lunch. */
module ClassDays {
  import opened Wrappers
  import opened Seqs
  import opened Strings
  import opened JsonValues
  import opened Entities
  import opened NumberRuns
  import opened PeriodGaps
  import opened Dashboard

  /** The id belongs to some subject marked academic. */
  predicate AcademicId(subjects: seq<Subject>, id: string) {
    exists i | 0 <= i < |subjects| :: subjects[i].id == id && subjects[i].isAcademic == Some(true)
  }

  /** An entry for an academic subject; events never are. */
  predicate AcademicLesson(subjects: seq<Subject>, e: Entry) {
    Filled(e.subjectId) && AcademicId(subjects, e.subjectId.value)
  }

  /** A class's entries on a day, in schedule order. */
  function ClassDayEntries(schedule: seq<Entry>, cid: string, day: int): seq<Entry> {
    Filter(schedule, (e: Entry) => e.day == day && e.classGradeId == Some(cid))
  }

  /** The same entries sorted by period, ties in schedule order. */
  function ClassDay(schedule: seq<Entry>, cid: string, day: int): seq<Entry> {
    SortBy(ClassDayEntries(schedule, cid, day), PeriodOf, IntLess)
  }

  /** The scan: count academic lessons in a row, reset on anything else,
      and stop as soon as the count passes three. */
  function HeavyFrom(subjects: seq<Subject>, es: seq<Entry>, count: nat): bool
    decreases |es|
  {
    if es == [] then false
    else
      var c := if AcademicLesson(subjects, es[0]) then count + 1 else 0;
      if c > 3 then true else HeavyFrom(subjects, es[1..], c)
  }

  /** A day is flagged only when it has at least three entries. */
  predicate HeavyDay(subjects: seq<Subject>, es: seq<Entry>) {
    |es| >= 3 && HeavyFrom(subjects, es, 0)
  }

  /** Positions `i` to `i + 3` are all academic lessons. */
  predicate WindowAt(subjects: seq<Subject>, es: seq<Entry>, i: nat) {
    i + 4 <= |es| && forall k | i <= k < i + 4 :: AcademicLesson(subjects, es[k])
  }

  /** Four academic lessons one after the other. */
  predicate FourInARow(subjects: seq<Subject>, es: seq<Entry>) {
    exists i: nat | i < |es| :: WindowAt(subjects, es, i)
  }

  /** The academic lessons immediately before position `m`. */
  function StreakBefore(subjects: seq<Subject>, es: seq<Entry>, m: nat): nat
    requires m <= |es|
  {
    if m == 0 then 0
    else if AcademicLesson(subjects, es[m - 1]) then StreakBefore(subjects, es, m - 1) + 1
    else 0
  }

  lemma {:induction false} StreakWindow(subjects: seq<Subject>, es: seq<Entry>, m: nat, n: nat)
    requires m <= |es|
    ensures StreakBefore(subjects, es, m) >= n <==>
      n <= m && forall k | m - n <= k < m :: AcademicLesson(subjects, es[k])
  {
    if m > 0 && n > 0 {
      StreakWindow(subjects, es, m - 1, n - 1);
    }
  }

  /** From position `j` on, the scan fires exactly when some later streak
      reaches four. */
  lemma {:induction false} HeavyFromStreak(subjects: seq<Subject>, es: seq<Entry>, j: nat)
    requires j <= |es| && StreakBefore(subjects, es, j) <= 3
    ensures HeavyFrom(subjects, es[j..], StreakBefore(subjects, es, j))
      <==> exists k | j < k <= |es| :: StreakBefore(subjects, es, k) >= 4
    decreases |es| - j
  {
    if j < |es| {
      assert es[j..][0] == es[j] && es[j..][1..] == es[j + 1..];
      var c := StreakBefore(subjects, es, j + 1);
      assert HeavyFrom(subjects, es[j..], StreakBefore(subjects, es, j)) == (c > 3 || HeavyFrom(subjects, es[j + 1..], c));
      if c <= 3 {
        HeavyFromStreak(subjects, es, j + 1);
        if exists k | j < k <= |es| :: StreakBefore(subjects, es, k) >= 4 {
          var k :| j < k <= |es| && StreakBefore(subjects, es, k) >= 4;
          assert k != j + 1;
        }
        if exists k | j + 1 < k <= |es| :: StreakBefore(subjects, es, k) >= 4 {
          var k :| j + 1 < k <= |es| && StreakBefore(subjects, es, k) >= 4;
          assert j < k;
        }
      } else {
        assert j < j + 1 <= |es| && StreakBefore(subjects, es, j + 1) >= 4;
      }
    }
  }

  /** The scan flags a day exactly when it holds four academic lessons in a
      row (which needs at least four entries). */
  lemma HeavyDaySpec(subjects: seq<Subject>, es: seq<Entry>)
    ensures HeavyDay(subjects, es) <==> FourInARow(subjects, es)
  {
    HeavyFromStreak(subjects, es, 0);
    assert es[0..] == es;
    if exists k | 0 < k <= |es| :: StreakBefore(subjects, es, k) >= 4 {
      var k :| 0 < k <= |es| && StreakBefore(subjects, es, k) >= 4;
      StreakWindow(subjects, es, k, 4);
      assert WindowAt(subjects, es, k - 4);
    }
    if FourInARow(subjects, es) {
      var i: nat :| i < |es| && WindowAt(subjects, es, i);
      StreakWindow(subjects, es, i + 4, 4);
    }
  }

  /** Every entry of the day is an academic lesson, and there is one. */
  predicate AllAcademic(subjects: seq<Subject>, es: seq<Entry>) {
    |es| > 0 && forall k | 0 <= k < |es| :: AcademicLesson(subjects, es[k])
  }

  /** Sorting a day keeps it all academic. */
  lemma SortedStaysAcademic(db: Store, cid: string, day: int)
    requires AllAcademic(db.subjects, ClassDayEntries(db.schedule, cid, day))
    ensures AllAcademic(db.subjects, ClassDay(db.schedule, cid, day))
  {
    var es := ClassDayEntries(db.schedule, cid, day);
    var sorted := ClassDay(db.schedule, cid, day);
    forall k | 0 <= k < |sorted| ensures AcademicLesson(db.subjects, sorted[k]) {
      assert sorted[k] in multiset(es);
      var m :| 0 <= m < |es| && es[m] == sorted[k];
    }
  }

  /** A day of four or more lessons, all academic, is flagged both ways. */
  lemma AllAcademicIsHeavy(db: Store, cid: string, day: int)
    requires |ClassDayEntries(db.schedule, cid, day)| >= 4
    requires AllAcademic(db.subjects, ClassDayEntries(db.schedule, cid, day))
    ensures HeavyDay(db.subjects, ClassDay(db.schedule, cid, day))
  {
    var sorted := ClassDay(db.schedule, cid, day);
    SortedStaysAcademic(db, cid, day);
    HeavyDaySpec(db.subjects, sorted);
    assert WindowAt(db.subjects, sorted, 0);
  }

  /** One flagged class and day. */
  datatype ClassDayFlag = ClassDayFlag(classGrade: ClassGrade, day: nat)

  /** The flagged days among the first `days`, in day order. */
  function FlagsUpTo(cg: ClassGrade, days: nat, flagged: nat -> bool): (r: seq<ClassDayFlag>)
    ensures forall i | 0 <= i < |r| :: r[i].day < days
  {
    if days == 0 then []
    else FlagsUpTo(cg, days - 1, flagged) + (if flagged(days - 1) then [ClassDayFlag(cg, days - 1)] else [])
  }

  /** A class and day is flagged at most once, exactly when the test holds. */
  lemma {:induction false} FlagsUpToSpec(cg: ClassGrade, days: nat, flagged: nat -> bool, f: ClassDayFlag)
    ensures f in FlagsUpTo(cg, days, flagged) <==> f.classGrade == cg && f.day < days && flagged(f.day)
    ensures forall i, j | 0 <= i < j < |FlagsUpTo(cg, days, flagged)| ::
      FlagsUpTo(cg, days, flagged)[i].day < FlagsUpTo(cg, days, flagged)[j].day
  {
    if days > 0 {
      FlagsUpToSpec(cg, days - 1, flagged, f);
    }
  }

  function HeavyTest(db: Store, cid: string): nat -> bool {
    (day: nat) => HeavyDay(db.subjects, ClassDay(db.schedule, cid, day))
  }

  function BalanceTest(db: Store, cid: string): nat -> bool {
    (day: nat) => AllAcademic(db.subjects, ClassDayEntries(db.schedule, cid, day))
  }

  /** `cognitiveLoadIssues`, class by class. */
  function CognitiveLoadIssues(db: Store): seq<ClassDayFlag> {
    Flatten(MapSeq(db.classGrades, (cg: ClassGrade) => FlagsUpTo(cg, DayCount(db.settings), HeavyTest(db, cg.id))))
  }

  /** `academicBalanceIssues`, class by class. */
  function AcademicBalanceIssues(db: Store): seq<ClassDayFlag> {
    Flatten(MapSeq(db.classGrades, (cg: ClassGrade) => FlagsUpTo(cg, DayCount(db.settings), BalanceTest(db, cg.id))))
  }

  /** A class and day is listed for cognitive load exactly when that day,
      sorted by period, has four academic lessons in a row. */
  lemma CognitiveLoadSpec(db: Store, f: ClassDayFlag)
    ensures f in CognitiveLoadIssues(db) <==>
      f.classGrade in db.classGrades && f.day < DayCount(db.settings)
      && FourInARow(db.subjects, ClassDay(db.schedule, f.classGrade.id, f.day))
  {
    var per := MapSeq(db.classGrades, (cg: ClassGrade) => FlagsUpTo(cg, DayCount(db.settings), HeavyTest(db, cg.id)));
    FlattenMembership(per, f);
    HeavyDaySpec(db.subjects, ClassDay(db.schedule, f.classGrade.id, f.day));
    FlagsUpToSpec(f.classGrade, DayCount(db.settings), HeavyTest(db, f.classGrade.id), f);
    if exists i | 0 <= i < |per| :: f in per[i] {
      var i :| 0 <= i < |per| && f in per[i];
      FlagsUpToSpec(db.classGrades[i], DayCount(db.settings), HeavyTest(db, db.classGrades[i].id), f);
    }
    if f.classGrade in db.classGrades {
      var i :| 0 <= i < |db.classGrades| && db.classGrades[i] == f.classGrade;
      assert per[i] == FlagsUpTo(f.classGrade, DayCount(db.settings), HeavyTest(db, f.classGrade.id));
    }
  }

  /** A class and day is listed for academic balance exactly when it has
      entries and all of them are academic lessons. */
  lemma AcademicBalanceSpec(db: Store, f: ClassDayFlag)
    ensures f in AcademicBalanceIssues(db) <==>
      f.classGrade in db.classGrades && f.day < DayCount(db.settings)
      && AllAcademic(db.subjects, ClassDayEntries(db.schedule, f.classGrade.id, f.day))
  {
    var per := MapSeq(db.classGrades, (cg: ClassGrade) => FlagsUpTo(cg, DayCount(db.settings), BalanceTest(db, cg.id)));
    FlattenMembership(per, f);
    FlagsUpToSpec(f.classGrade, DayCount(db.settings), BalanceTest(db, f.classGrade.id), f);
    if exists i | 0 <= i < |per| :: f in per[i] {
      var i :| 0 <= i < |per| && f in per[i];
      FlagsUpToSpec(db.classGrades[i], DayCount(db.settings), BalanceTest(db, db.classGrades[i].id), f);
    }
    if f.classGrade in db.classGrades {
      var i :| 0 <= i < |db.classGrades| && db.classGrades[i] == f.classGrade;
      assert per[i] == FlagsUpTo(f.classGrade, DayCount(db.settings), BalanceTest(db, f.classGrade.id));
    }
  }

  /** `Math.floor((settings.periodsPerDay || 0) / 2)`; Dafny's division by
      a positive number already rounds down. */
  function LunchPeriod(settings: Obj): int {
    NumOr(settings, "periodsPerDay", 0) / 2
  }

  /** A class's academic lessons across the week, in schedule order. */
  function ClassAcademic(db: Store, cid: string): seq<Entry> {
    Filter(db.schedule, (e: Entry) => e.classGradeId == Some(cid) && AcademicLesson(db.subjects, e))
  }

  function MorningTest(lunch: int): Entry -> bool {
    (e: Entry) => e.period < lunch
  }

  function AfternoonTest(lunch: int): Entry -> bool {
    (e: Entry) => e.period >= lunch
  }

  /** The counts behind a class's morning and afternoon percentages. */
  datatype Timing = Timing(classGrade: ClassGrade, morning: nat, afternoon: nat)

  function TimingOf(db: Store, cg: ClassGrade): Timing {
    var lessons := ClassAcademic(db, cg.id);
    var lunch := LunchPeriod(db.settings);
    Timing(cg, |Filter(lessons, MorningTest(lunch))|, |Filter(lessons, AfternoonTest(lunch))|)
  }

  /** Every academic lesson of the class falls in exactly one half of the
      day. */
  lemma TimingSplits(db: Store, cg: ClassGrade)
    ensures TimingOf(db, cg).morning + TimingOf(db, cg).afternoon == |ClassAcademic(db, cg.id)|
  {
    var lunch := LunchPeriod(db.settings);
    FilterSplit(ClassAcademic(db, cg.id), MorningTest(lunch), AfternoonTest(lunch));
  }
}
