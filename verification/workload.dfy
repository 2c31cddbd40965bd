/** The teacher workload report: every teacher, grouped by department, with
    one row per subject or event they teach, their academic and counted
    periods, and whether their weekly hours fall below, within or above the
    institution's workload band. */
module Workload {
  import opened Wrappers
  import opened Seqs
  import opened Strings
  import opened JsonValues
  import opened Entities
  import opened Conflicts
  import ClassNames
  import Client

  // ---------------------------------------------------------------------
  // Department order

  /** The index a `Map` built from `departments.map((d, i) => [d, i])` holds
      for `d`: a repeated name keeps its last index. */
  function Rank(deps: seq<string>, d: string): (r: Option<nat>)
    ensures r.None? <==> d !in deps
    ensures r.Some? ==> r.value < |deps| && deps[r.value] == d
    ensures r.Some? ==> forall j | r.value < j < |deps| :: deps[j] != d
  {
    if deps == [] then None
    else if deps[|deps| - 1] == d then Some(|deps| - 1)
    else
      var init := deps[..|deps| - 1];
      assert forall j | 0 <= j < |init| :: init[j] == deps[j];
      assert d in deps ==> d in init by {
        if d in deps {
          var j :| 0 <= j < |deps| && deps[j] == d;
          assert init[j] == d;
        }
      }
      Rank(init, d)
  }

  /** The department comparator: listed departments in list order, all of
      them before unlisted ones, and unlisted ones alphabetically. */
  predicate Before(deps: seq<string>, a: string, b: string) {
    match (Rank(deps, a), Rank(deps, b))
    case (Some(i), Some(j)) => i < j
    case (Some(_), None) => true
    case (None, Some(_)) => false
    case (None, None) => Less(a, b)
  }

  function BeforeIn(deps: seq<string>): (string, string) -> bool {
    (a: string, b: string) => Before(deps, a, b)
  }

  function DeptOf(t: Teacher): string {
    t.department
  }

  function Itself(d: string): string {
    d
  }

  lemma BeforeTransitive(deps: seq<string>, a: string, b: string, c: string)
    requires Before(deps, a, b) && Before(deps, b, c)
    ensures Before(deps, a, c)
  {
    if Rank(deps, a).None? {
      LessIsStrictOrder();
    }
  }

  lemma BeforeIsStrictOrder(deps: seq<string>)
    ensures StrictOrder(BeforeIn(deps))
  {
    LessIsStrictOrder();
    forall a, b, c | BeforeIn(deps)(a, b) && BeforeIn(deps)(b, c) ensures BeforeIn(deps)(a, c) {
      BeforeTransitive(deps, a, b, c);
    }
  }

  /** Two different departments are always ordered one way or the other. */
  lemma BeforeTotal(deps: seq<string>, a: string, b: string)
    requires a != b
    ensures Before(deps, a, b) || Before(deps, b, a)
  {
    LessTotal(a, b);
  }

  /** `Object.keys` of the teachers grouped by department, sorted by the
      department comparator. */
  function DepartmentOrder(deps: seq<string>, ts: seq<Teacher>): seq<string> {
    SortBy(KeysOf(ts, DeptOf), Itself, BeforeIn(deps))
  }

  /** The sorted departments are exactly those of the teachers, each once,
      strictly ascending. */
  lemma DepartmentOrderSpec(deps: seq<string>, ts: seq<Teacher>)
    ensures NoDup(DepartmentOrder(deps, ts))
    ensures forall d :: d in DepartmentOrder(deps, ts) <==> KeyFilter(ts, DeptOf, d) != []
    ensures forall i, j | 0 <= i < j < |DepartmentOrder(deps, ts)| ::
      Before(deps, DepartmentOrder(deps, ts)[i], DepartmentOrder(deps, ts)[j])
  {
    var ks := KeysOf(ts, DeptOf);
    var r := DepartmentOrder(deps, ts);
    KeysOfSpec(ts, DeptOf);
    BeforeIsStrictOrder(deps);
    SortBySorted(ks, Itself, BeforeIn(deps));
    PermutationNoDup(ks, r);
    forall d ensures d in r <==> d in ks {
      assert d in r <==> d in multiset(r);
    }
    forall i, j | 0 <= i < j < |r| ensures Before(deps, r[i], r[j]) {
      BeforeTotal(deps, r[i], r[j]);
    }
  }

  /** `sortedDepartmentKeys.flatMap(dept => teachersByDept[dept])`. */
  function OrderTeachers(deps: seq<string>, ts: seq<Teacher>): seq<Teacher> {
    Blocks(DepartmentOrder(deps, ts), ts, DeptOf)
  }

  /** Teachers of one department keep their original relative order. */
  lemma OrderKeepsDepartment(deps: seq<string>, ts: seq<Teacher>, d: string)
    ensures KeyFilter(OrderTeachers(deps, ts), DeptOf, d) == KeyFilter(ts, DeptOf, d)
  {
    DepartmentOrderSpec(deps, ts);
    BlocksKeyFilter(DepartmentOrder(deps, ts), ts, DeptOf, d);
  }

  /** Every teacher appears exactly as often as in the input. */
  lemma OrderIsPermutation(deps: seq<string>, ts: seq<Teacher>)
    ensures multiset(OrderTeachers(deps, ts)) == multiset(ts)
  {
    forall d ensures KeyFilter(OrderTeachers(deps, ts), DeptOf, d) == KeyFilter(ts, DeptOf, d) {
      OrderKeepsDepartment(deps, ts, d);
    }
    SameKeyFilters(OrderTeachers(deps, ts), ts, DeptOf);
  }

  /** Departments never go backwards along the ordered list. */
  lemma OrderAscends(deps: seq<string>, ts: seq<Teacher>)
    ensures forall i, j | 0 <= i < j < |OrderTeachers(deps, ts)| ::
      OrderTeachers(deps, ts)[i].department == OrderTeachers(deps, ts)[j].department
      || Before(deps, OrderTeachers(deps, ts)[i].department, OrderTeachers(deps, ts)[j].department)
  {
    DepartmentOrderSpec(deps, ts);
    BlocksAscending(DepartmentOrder(deps, ts), ts, DeptOf, BeforeIn(deps));
  }

  lemma BeforeIsTotal(deps: seq<string>)
    ensures Total(BeforeIn(deps))
  {
    forall a, b | a != b ensures BeforeIn(deps)(a, b) || BeforeIn(deps)(b, a) {
      BeforeTotal(deps, a, b);
    }
  }

  /** The ordered teachers are sorted by the department comparator. */
  lemma OrderSorted(deps: seq<string>, ts: seq<Teacher>)
    ensures SortedBy(OrderTeachers(deps, ts), DeptOf, BeforeIn(deps))
  {
    var r := OrderTeachers(deps, ts);
    OrderAscends(deps, ts);
    forall i, j | 0 <= i < j < |r| ensures !Before(deps, r[j].department, r[i].department) {
      if Before(deps, r[j].department, r[i].department) {
        if Before(deps, r[i].department, r[j].department) {
          BeforeTransitive(deps, r[i].department, r[j].department, r[i].department);
        }
        LessIsStrictOrder();
      }
    }
  }

  /** The department blocks are exactly a stable sort of the teachers by
      the department comparator. */
  lemma OrderIsStableSort(deps: seq<string>, ts: seq<Teacher>)
    ensures OrderTeachers(deps, ts) == SortBy(ts, DeptOf, BeforeIn(deps))
  {
    var r := OrderTeachers(deps, ts);
    var sorted := SortBy(ts, DeptOf, BeforeIn(deps));
    BeforeIsStrictOrder(deps);
    BeforeIsTotal(deps);
    SortBySorted(ts, DeptOf, BeforeIn(deps));
    OrderSorted(deps, ts);
    forall d ensures KeyFilter(r, DeptOf, d) == KeyFilter(sorted, DeptOf, d) {
      OrderKeepsDepartment(deps, ts, d);
      SortByStable(ts, DeptOf, BeforeIn(deps), d);
    }
    SortedUnique(r, sorted, DeptOf, BeforeIn(deps));
  }

  /** With the hook's department list (every non-empty department of the
      teachers), teachers without a department come last. */
  lemma NoDepartmentLast(ts: seq<Teacher>, i: nat, j: nat)
    requires i < j < |OrderTeachers(Client.Departments(ts), ts)|
    requires OrderTeachers(Client.Departments(ts), ts)[i].department == ""
    ensures OrderTeachers(Client.Departments(ts), ts)[j].department == ""
  {
    var deps := Client.Departments(ts);
    var r := OrderTeachers(deps, ts);
    OrderAscends(deps, ts);
    OrderIsPermutation(deps, ts);
    var d := r[j].department;
    assert r[j] in multiset(ts);
    var k :| 0 <= k < |ts| && ts[k] == r[j];
    Client.DepartmentsMembers(ts, d);
    Client.DepartmentsMembers(ts, "");
  }

  // ---------------------------------------------------------------------
  // One teacher's schedule

  /** An entry names the teacher directly, or is an event whose affected
      teachers include them. */
  predicate Teaches(events: seq<EventActivity>, tid: string, e: Entry) {
    tid in IdsOf(e.teacherIds)
    || (EventOf(events, e).Some? && tid in IdsOf(EventOf(events, e).value.affectedTeacherIds))
  }

  /** The report and the conflict detector agree on who an entry involves. */
  lemma TeachesIffCounted(events: seq<EventActivity>, tid: string, e: Entry)
    ensures Teaches(events, tid, e) <==> EntryTeacherCount(e, tid, events) >= 1
  {
  }

  function TeacherSchedule(db: Store, tid: string): (r: seq<Entry>)
    ensures forall e :: e in r <==> e in db.schedule && Teaches(db.eventActivities, tid, e)
  {
    var r := Filter(db.schedule, (e: Entry) => Teaches(db.eventActivities, tid, e));
    assert forall e :: e in r <==> e in db.schedule && Teaches(db.eventActivities, tid, e) by {
      forall e ensures e in r <==> e in db.schedule && Teaches(db.eventActivities, tid, e) {
        FilterMembership(db.schedule, (e: Entry) => Teaches(db.eventActivities, tid, e), e);
      }
    }
    r
  }

  // ---------------------------------------------------------------------
  // Report rows

  /** Entries are grouped by subject, else by event, else under "unknown". */
  function RowKey(e: Entry): string {
    if Filled(e.subjectId) then e.subjectId.value
    else if Filled(e.eventActivityId) then e.eventActivityId.value
    else "unknown"
  }

  /** What a row key resolves to: a subject first, then an event. */
  datatype Item = SubjectItem(subject: Subject) | EventItem(event: EventActivity)

  function ItemOf(db: Store, key: string): (r: Option<Item>)
    ensures r.Some? && r.value.SubjectItem? ==> r.value.subject in db.subjects && r.value.subject.id == key
    ensures r.Some? && r.value.EventItem? ==>
      FindSubject(db.subjects, key).None? && r.value.event in db.eventActivities && r.value.event.id == key
    ensures r.None? <==> FindSubject(db.subjects, key).None? && FindEvent(db.eventActivities, key).None?
  {
    match FindSubject(db.subjects, key)
    case Some(s) => Some(SubjectItem(s))
    case None =>
      match FindEvent(db.eventActivities, key)
      case Some(ev) => Some(EventItem(ev))
      case None => None
  }

  /** The truthy class ids of the entries, in entry order. */
  function ClassIdList(es: seq<Entry>): seq<string> {
    if es == [] then []
    else (if Filled(es[0].classGradeId) then [es[0].classGradeId.value] else []) + ClassIdList(es[1..])
  }

  lemma {:induction false} ClassIdListSpec(es: seq<Entry>)
    ensures |ClassIdList(es)| <= |es|
    ensures forall c :: c in ClassIdList(es) <==>
      exists i | 0 <= i < |es| :: Filled(es[i].classGradeId) && es[i].classGradeId.value == c
  {
    if es != [] {
      ClassIdListSpec(es[1..]);
      forall c ensures c in ClassIdList(es) <==>
        exists i | 0 <= i < |es| :: Filled(es[i].classGradeId) && es[i].classGradeId.value == c
      {
        if exists i | 0 <= i < |es| :: Filled(es[i].classGradeId) && es[i].classGradeId.value == c {
          var i :| 0 <= i < |es| && Filled(es[i].classGradeId) && es[i].classGradeId.value == c;
          if i > 0 {
            assert es[1..][i - 1] == es[i];
          }
        }
        if c in ClassIdList(es[1..]) {
          var i :| 0 <= i < |es[1..]| && Filled(es[1..][i].classGradeId) && es[1..][i].classGradeId.value == c;
          assert es[i + 1] == es[1..][i];
        }
      }
    }
  }

  /** The names of the resolved classes, dropping unknown ids and empty
      names. */
  function ClassNameList(classes: seq<ClassGrade>, ids: seq<string>): seq<string> {
    if ids == [] then []
    else
      var rest := ClassNameList(classes, ids[1..]);
      match FindClass(classes, ids[0])
      case Some(c) => if c.name != "" then [c.name] + rest else rest
      case None => rest
  }

  datatype Row = Row(
    id: string, codeName: string, periodsPerWeek: nat, classesDisplay: string,
    numClasses: nat, isAcademic: bool)

  /** How many entries are for class `c`. */
  function CountClass(es: seq<Entry>, c: string): nat {
    |Filter(es, (e: Entry) => e.classGradeId == Some(c))|
  }

  /** One group of a teacher's entries as a report row; no row when the key
      resolves to neither a subject nor an event. The periods counted are
      those of the first class seen, standing for every class taught the
      same subject; with no class, every entry counts. */
  function MakeRow(db: Store, key: string, es: seq<Entry>): (r: Option<Row>)
    ensures r.Some? <==> ItemOf(db, key).Some?
    ensures r.Some? ==> r.value.id == key
  {
    match ItemOf(db, key)
    case None => None
    case Some(item) =>
      var ids := Distinct(ClassIdList(es));
      var periods := if |ids| > 0 then CountClass(es, ids[0]) else |es|;
      var display := ClassNames.Condense(ClassNameList(db.classGrades, ids));
      match item
      case SubjectItem(s) =>
        Some(Row(key, "[" + s.subjectCode + "] " + s.name, periods, display, |ids|, s.isAcademic == Some(true)))
      case EventItem(ev) =>
        Some(Row(key, ev.name, periods, display, |ids|, ev.calculateWorkingHour == Some(true)))
  }

  /** The counts in a row: every distinct class is counted once, and the
      periods never exceed the group's entries; a group with at least one
      class reports at least one period. */
  lemma MakeRowCounts(db: Store, key: string, es: seq<Entry>)
    requires MakeRow(db, key, es).Some?
    ensures MakeRow(db, key, es).value.numClasses <= |es|
    ensures NoDup(Distinct(ClassIdList(es)))
      && MakeRow(db, key, es).value.numClasses == |Distinct(ClassIdList(es))|
    ensures MakeRow(db, key, es).value.periodsPerWeek <= |es|
    ensures MakeRow(db, key, es).value.numClasses == 0 ==> MakeRow(db, key, es).value.periodsPerWeek == |es|
    ensures MakeRow(db, key, es).value.numClasses > 0 ==> MakeRow(db, key, es).value.periodsPerWeek >= 1
  {
    var ids := Distinct(ClassIdList(es));
    ClassIdListSpec(es);
    DistinctNoLonger(ClassIdList(es));
    if |ids| > 0 {
      var c := ids[0];
      assert c in ClassIdList(es);
      var i :| 0 <= i < |es| && Filled(es[i].classGradeId) && es[i].classGradeId.value == c;
      FilterMembership(es, (e: Entry) => e.classGradeId == Some(c), es[i]);
    }
  }

  /** Removing repeats never lengthens a sequence. */
  lemma {:induction false} DistinctNoLonger<T>(s: seq<T>)
    ensures |Distinct(s)| <= |s|
  {
    if s != [] {
      DistinctNoLonger(s[..|s| - 1]);
    }
  }

  /** The rows for grouped entries, skipping keys that resolve to nothing. */
  function Rows(db: Store, groups: seq<(string, seq<Entry>)>): seq<Row> {
    if groups == [] then []
    else
      (match MakeRow(db, groups[0].0, groups[0].1) case Some(r) => [r] case None => [])
      + Rows(db, groups[1..])
  }

  function RowId(r: Row): string {
    r.id
  }

  /** A row exists for a key exactly when some group has that key and the
      key resolves. */
  lemma {:induction false} RowsMembership(db: Store, groups: seq<(string, seq<Entry>)>, key: string)
    ensures key in MapSeq(Rows(db, groups), RowId) <==> key in Firsts(groups) && ItemOf(db, key).Some?
  {
    if groups != [] {
      RowsMembership(db, groups[1..], key);
      var head := match MakeRow(db, groups[0].0, groups[0].1) case Some(r) => [r] case None => [];
      MapSeqConcat(head, Rows(db, groups[1..]), RowId);
      assert Firsts(groups) == [groups[0].0] + Firsts(groups[1..]);
    }
  }

  /** Rows for a teacher: their entries grouped by row key in order of first
      appearance. */
  function TeacherRows(db: Store, tid: string): seq<Row> {
    Rows(db, GroupBy(TeacherSchedule(db, tid), RowKey))
  }

  /** A teacher's report has a row for a key exactly when they teach an
      entry with that key and the key names a subject or an event. */
  lemma TeacherRowsSpec(db: Store, tid: string, key: string)
    ensures key in MapSeq(TeacherRows(db, tid), RowId) <==>
      ((exists e | e in db.schedule :: Teaches(db.eventActivities, tid, e) && RowKey(e) == key)
       && ItemOf(db, key).Some?)
  {
    var ts := TeacherSchedule(db, tid);
    RowsMembership(db, GroupBy(ts, RowKey), key);
    GroupBySpec(ts, RowKey);
    KeysOfMembership(ts, RowKey, key);
  }

  // ---------------------------------------------------------------------
  // Totals and status

  /** A period of an academic subject. */
  predicate AcademicEntry(db: Store, e: Entry) {
    Filled(e.subjectId) && FindSubject(db.subjects, e.subjectId.value).Some?
    && FindSubject(db.subjects, e.subjectId.value).value.isAcademic == Some(true)
  }

  /** A period that counts toward working hours: any known subject, or an
      event marked to count. */
  predicate CountedEntry(db: Store, e: Entry) {
    if Filled(e.subjectId) then FindSubject(db.subjects, e.subjectId.value).Some?
    else if Filled(e.eventActivityId) then
      FindEvent(db.eventActivities, e.eventActivityId.value).Some?
      && FindEvent(db.eventActivities, e.eventActivityId.value).value.calculateWorkingHour == Some(true)
    else false
  }

  datatype Status = OnTrack | BelowStandard | Overloaded

  /** Weekly hours are `periods * minutesPerPeriod / 60`; below the minimum
      is below standard, otherwise above a set maximum is overloaded. A
      maximum of 0 means there is none. */
  function Classify(periods: nat, minutesPerPeriod: int, minHours: int, maxHours: int): (s: Status)
    ensures s == BelowStandard <==> (periods * minutesPerPeriod) as real / 60.0 < minHours as real
    ensures s == Overloaded <==>
      !((periods * minutesPerPeriod) as real / 60.0 < minHours as real)
      && maxHours != 0 && (periods * minutesPerPeriod) as real / 60.0 > maxHours as real
  {
    var minutes := periods * minutesPerPeriod;
    if minutes < 60 * minHours then BelowStandard
    else if maxHours != 0 && minutes > 60 * maxHours then Overloaded
    else OnTrack
  }

  /** More periods never make a teacher less loaded. */
  lemma ClassifyMonotone(p: nat, q: nat, mpp: int, minHours: int, maxHours: int)
    requires p <= q && mpp >= 0
    ensures Classify(q, mpp, minHours, maxHours) == BelowStandard ==> Classify(p, mpp, minHours, maxHours) == BelowStandard
    ensures Classify(p, mpp, minHours, maxHours) == Overloaded ==> Classify(q, mpp, minHours, maxHours) == Overloaded
  {
    assert p * mpp <= q * mpp;
  }

  datatype TeacherReport = TeacherReport(
    teacher: Teacher, department: string, advisorFor: string, rows: seq<Row>,
    totalAcademicPeriods: nat, totalAllPeriods: nat, minutesPerWeek: int, status: Status)

  /** The names of the classes the teacher advises, comma-separated. */
  function AdvisorFor(classes: seq<ClassGrade>, tid: string): string {
    Join(MapSeq(Filter(classes, (c: ClassGrade) => tid in IdsOf(c.advisorIds)), (c: ClassGrade) => c.name), ", ")
  }

  function ReportFor(db: Store, t: Teacher): (r: TeacherReport)
    ensures r.teacher == t && r.department == t.department
  {
    var sched := TeacherSchedule(db, t.id);
    var academic := |Filter(sched, (e: Entry) => AcademicEntry(db, e))|;
    var all := |Filter(sched, (e: Entry) => CountedEntry(db, e))|;
    var mpp := NumOr(db.settings, "minutesPerPeriod", 0);
    var status := Classify(all, mpp, NumOr(db.settings, "workloadMinHours", 0), NumOr(db.settings, "workloadMaxHours", 0));
    TeacherReport(t, t.department, AdvisorFor(db.classGrades, t.id), TeacherRows(db, t.id),
                  academic, all, all * mpp, status)
  }

  /** Academic periods are among the counted ones, and both are among the
      teacher's entries. */
  lemma TotalsBounded(db: Store, t: Teacher)
    ensures ReportFor(db, t).totalAcademicPeriods <= ReportFor(db, t).totalAllPeriods
    ensures ReportFor(db, t).totalAllPeriods <= |TeacherSchedule(db, t.id)|
  {
    var sched := TeacherSchedule(db, t.id);
    FilterWeaker(sched, (e: Entry) => AcademicEntry(db, e), (e: Entry) => CountedEntry(db, e));
  }

  /** The whole report: teachers in department order. */
  function Report(db: Store): (r: seq<TeacherReport>)
    ensures |r| == |OrderTeachers(Client.Departments(db.teachers), db.teachers)|
  {
    MapSeq(OrderTeachers(Client.Departments(db.teachers), db.teachers), (t: Teacher) => ReportFor(db, t))
  }

  /** Every teacher gets exactly one report, and departments come in the
      hook's order. */
  lemma ReportCoversTeachers(db: Store)
    ensures |Report(db)| == |db.teachers|
    ensures multiset(MapSeq(Report(db), (r: TeacherReport) => r.teacher)) == multiset(db.teachers)
    ensures forall i, j | 0 <= i < j < |Report(db)| ::
      Report(db)[i].department == Report(db)[j].department
      || Before(Client.Departments(db.teachers), Report(db)[i].department, Report(db)[j].department)
  {
    var deps := Client.Departments(db.teachers);
    var order := OrderTeachers(deps, db.teachers);
    OrderIsPermutation(deps, db.teachers);
    OrderAscends(deps, db.teachers);
    assert |order| == |db.teachers| by {
      assert |multiset(order)| == |multiset(db.teachers)|;
    }
    assert MapSeq(Report(db), (r: TeacherReport) => r.teacher) == order;
  }
}
