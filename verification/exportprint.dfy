/** The export screen: the user ticks classes and teachers, narrowed by a
    grade and a department filter, and the ticked timetables are rendered
    for printing. Classes and teachers share one id-keyed tick map. */
module ExportPrint {
  import opened Seqs
  import opened Entities
  import Client
  import Strings

  const All: string := "all"

  /** The tick map plus the two filter choices. */
  datatype Export = Export(ticks: map<string, bool>, grade: string, department: string)

  const Initial: Export := Export(map[], All, All)

  /** Whether `id` is ticked; an id never touched counts as unticked. */
  predicate Ticked(ticks: map<string, bool>, id: string) {
    id in ticks && ticks[id]
  }

  /** The grade choices: `all`, then the distinct non-empty grade levels in
      ascending order. */
  function GradeChoices(classes: seq<ClassGrade>): (r: seq<string>)
    ensures |r| >= 1 && r[0] == All
  {
    [All] + Client.SortedLabels(MapSeq(classes, (c: ClassGrade) => c.gradeLevel))
  }

  /** The department choices: `all`, then the known departments. */
  function DepartmentChoices(departments: seq<string>): (r: seq<string>)
    ensures |r| == |departments| + 1 && r[0] == All
  {
    [All] + departments
  }

  function VisibleClasses(classes: seq<ClassGrade>, grade: string): (r: seq<ClassGrade>)
    ensures |r| <= |classes|
  {
    Filter(classes, (c: ClassGrade) => grade == All || c.gradeLevel == grade)
  }

  function VisibleTeachers(teachers: seq<Teacher>, department: string): (r: seq<Teacher>)
    ensures |r| <= |teachers|
  {
    Filter(teachers, (t: Teacher) => department == All || t.department == department)
  }

  /** `handleCheckboxChange`. */
  function ToggleTick(ticks: map<string, bool>, id: string): (r: map<string, bool>)
    ensures Ticked(r, id) == !Ticked(ticks, id)
    ensures forall k | k != id :: (k in r <==> k in ticks) && (k in ticks ==> r[k] == ticks[k])
  {
    ticks[id := !Ticked(ticks, id)]
  }

  /** Toggling twice restores whether every id is ticked, and restores the
      map itself once the id has an entry. */
  lemma ToggleTwice(ticks: map<string, bool>, id: string)
    ensures forall k :: Ticked(ToggleTick(ToggleTick(ticks, id), id), k) == Ticked(ticks, k)
    ensures id in ticks ==> ToggleTick(ToggleTick(ticks, id), id) == ticks
  {
  }

  /** Sets every id of `ids` to `b` (the `forEach` over the visible ids). */
  function SetAll(ticks: map<string, bool>, ids: seq<string>, b: bool): map<string, bool>
    decreases |ids|
  {
    if ids == [] then ticks else SetAll(ticks[ids[0] := b], ids[1..], b)
  }

  /** After setting, the listed ids hold `b` and every other entry is as
      before. */
  lemma {:induction false} SetAllSpec(ticks: map<string, bool>, ids: seq<string>, b: bool, k: string)
    ensures k in ids ==> k in SetAll(ticks, ids, b) && SetAll(ticks, ids, b)[k] == b
    ensures k !in ids ==> (k in SetAll(ticks, ids, b) <==> k in ticks)
    ensures k !in ids && k in ticks ==> SetAll(ticks, ids, b)[k] == ticks[k]
    decreases |ids|
  {
    if ids != [] {
      SetAllSpec(ticks[ids[0] := b], ids[1..], b, k);
      assert k in ids <==> k == ids[0] || k in ids[1..];
    }
  }

  function ClassIds(cs: seq<ClassGrade>): seq<string> {
    MapSeq(cs, (c: ClassGrade) => c.id)
  }

  function TeacherIds(ts: seq<Teacher>): seq<string> {
    MapSeq(ts, (t: Teacher) => t.id)
  }

  datatype Side = ClassSide | TeacherSide

  /** `handleSelectVisible`: (un)tick exactly the ids the current filter
      shows on one side. */
  function SelectVisible(x: Export, classes: seq<ClassGrade>, teachers: seq<Teacher>, side: Side, b: bool): (r: Export)
    ensures r.grade == x.grade && r.department == x.department
  {
    var ids := match side
      case ClassSide => ClassIds(VisibleClasses(classes, x.grade))
      case TeacherSide => TeacherIds(VisibleTeachers(teachers, x.department));
    x.(ticks := SetAll(x.ticks, ids, b))
  }

  /** Selecting the visible classes ticks a class exactly when it passes
      the grade filter, or otherwise leaves its entry as it was. */
  lemma SelectVisibleClasses(x: Export, classes: seq<ClassGrade>, teachers: seq<Teacher>, b: bool, c: ClassGrade)
    requires c in classes
    ensures var r := SelectVisible(x, classes, teachers, ClassSide, b);
      (x.grade == All || c.gradeLevel == x.grade ==> Ticked(r.ticks, c.id) == b)
    ensures forall k | k !in ClassIds(VisibleClasses(classes, x.grade)) ::
      (k in SelectVisible(x, classes, teachers, ClassSide, b).ticks <==> k in x.ticks)
      && (k in x.ticks ==> SelectVisible(x, classes, teachers, ClassSide, b).ticks[k] == x.ticks[k])
  {
    var vis := VisibleClasses(classes, x.grade);
    var ids := ClassIds(vis);
    FilterMembership(classes, (d: ClassGrade) => x.grade == All || d.gradeLevel == x.grade, c);
    if x.grade == All || c.gradeLevel == x.grade {
      var i :| 0 <= i < |vis| && vis[i] == c;
      assert ids[i] == c.id;
    }
    SetAllSpec(x.ticks, ids, b, c.id);
    forall k | k !in ids
      ensures (k in SetAll(x.ticks, ids, b) <==> k in x.ticks) && (k in x.ticks ==> SetAll(x.ticks, ids, b)[k] == x.ticks[k])
    {
      SetAllSpec(x.ticks, ids, b, k);
    }
  }

  /** Selecting the visible teachers ticks a teacher exactly when they
      pass the department filter, or otherwise leaves the entry as it was. */
  lemma SelectVisibleTeachers(x: Export, classes: seq<ClassGrade>, teachers: seq<Teacher>, b: bool, t: Teacher)
    requires t in teachers
    ensures var r := SelectVisible(x, classes, teachers, TeacherSide, b);
      (x.department == All || t.department == x.department ==> Ticked(r.ticks, t.id) == b)
    ensures forall k | k !in TeacherIds(VisibleTeachers(teachers, x.department)) ::
      (k in SelectVisible(x, classes, teachers, TeacherSide, b).ticks <==> k in x.ticks)
      && (k in x.ticks ==> SelectVisible(x, classes, teachers, TeacherSide, b).ticks[k] == x.ticks[k])
  {
    var vis := VisibleTeachers(teachers, x.department);
    var ids := TeacherIds(vis);
    FilterMembership(teachers, (d: Teacher) => x.department == All || d.department == x.department, t);
    if x.department == All || t.department == x.department {
      var i :| 0 <= i < |vis| && vis[i] == t;
      assert ids[i] == t.id;
    }
    SetAllSpec(x.ticks, ids, b, t.id);
    forall k | k !in ids
      ensures (k in SetAll(x.ticks, ids, b) <==> k in x.ticks) && (k in x.ticks ==> SetAll(x.ticks, ids, b)[k] == x.ticks[k])
    {
      SetAllSpec(x.ticks, ids, b, k);
    }
  }

  /** The `all` filter shows everything; any other shows exactly the exact
      matches. */
  lemma VisibleSpec(classes: seq<ClassGrade>, teachers: seq<Teacher>, grade: string, department: string, c: ClassGrade, t: Teacher)
    ensures VisibleClasses(classes, All) == classes && VisibleTeachers(teachers, All) == teachers
    ensures c in VisibleClasses(classes, grade) <==> c in classes && (grade == All || c.gradeLevel == grade)
    ensures t in VisibleTeachers(teachers, department) <==> t in teachers && (department == All || t.department == department)
  {
    FilterAll(classes, (d: ClassGrade) => All == All || d.gradeLevel == All);
    FilterAll(teachers, (d: Teacher) => All == All || d.department == All);
    FilterMembership(classes, (d: ClassGrade) => grade == All || d.gradeLevel == grade, c);
    FilterMembership(teachers, (d: Teacher) => department == All || d.department == department, t);
  }

  /** A grade after `all` is offered exactly when some class has it and it
      is not empty; the grades are strictly ascending. */
  lemma GradeChoicesSpec(classes: seq<ClassGrade>, g: string)
    ensures g in GradeChoices(classes)[1..] <==> g != "" && exists i | 0 <= i < |classes| :: classes[i].gradeLevel == g
    ensures forall i, j | 1 <= i < j < |GradeChoices(classes)| :: Strings.Less(GradeChoices(classes)[i], GradeChoices(classes)[j])
  {
    var names := MapSeq(classes, (c: ClassGrade) => c.gradeLevel);
    assert GradeChoices(classes)[1..] == Client.SortedLabels(names);
    Client.SortedLabelsMembers(names, g);
    if g in names {
      var i :| 0 <= i < |names| && names[i] == g;
      assert classes[i].gradeLevel == g;
    }
    Client.SortedLabelsAscending(names);
  }

  /** The print button is disabled when no entry of the tick map is true,
      the empty map included. */
  predicate PrintDisabled(ticks: map<string, bool>) {
    forall k | k in ticks :: !ticks[k]
  }

  /** Which timetable a rendered report is. */
  datatype Report = ClassReport(classId: string) | TeacherReport(teacherId: string)

  /** The rendered reports: ticked classes in stored order, then ticked
      teachers in stored order, whatever the filters show. */
  function Reports(ticks: map<string, bool>, classes: seq<ClassGrade>, teachers: seq<Teacher>): seq<Report> {
    ClassReports(ticks, classes) + TeacherReports(ticks, teachers)
  }

  function ClassReports(ticks: map<string, bool>, classes: seq<ClassGrade>): seq<Report> {
    MapSeq(Filter(classes, (c: ClassGrade) => Ticked(ticks, c.id)), (c: ClassGrade) => ClassReport(c.id))
  }

  function TeacherReports(ticks: map<string, bool>, teachers: seq<Teacher>): seq<Report> {
    MapSeq(Filter(teachers, (t: Teacher) => Ticked(ticks, t.id)), (t: Teacher) => TeacherReport(t.id))
  }

  /** A class is reported exactly when it is stored and ticked. */
  lemma ClassReported(ticks: map<string, bool>, classes: seq<ClassGrade>, id: string)
    ensures ClassReport(id) in ClassReports(ticks, classes) <==> Ticked(ticks, id) && exists c | c in classes :: c.id == id
  {
    var keep := (c: ClassGrade) => Ticked(ticks, c.id);
    var cs := Filter(classes, keep);
    var rc := ClassReports(ticks, classes);
    if ClassReport(id) in rc {
      var i :| 0 <= i < |rc| && rc[i] == ClassReport(id);
      FilterMembership(classes, keep, cs[i]);
    }
    if Ticked(ticks, id) && exists c | c in classes :: c.id == id {
      var c :| c in classes && c.id == id;
      FilterMembership(classes, keep, c);
      var i :| 0 <= i < |cs| && cs[i] == c;
      assert rc[i] == ClassReport(id);
    }
  }

  /** A teacher is reported exactly when they are stored and ticked. */
  lemma TeacherReported(ticks: map<string, bool>, teachers: seq<Teacher>, id: string)
    ensures TeacherReport(id) in TeacherReports(ticks, teachers) <==> Ticked(ticks, id) && exists t | t in teachers :: t.id == id
  {
    var keep := (t: Teacher) => Ticked(ticks, t.id);
    var ts := Filter(teachers, keep);
    var rt := TeacherReports(ticks, teachers);
    if TeacherReport(id) in rt {
      var i :| 0 <= i < |rt| && rt[i] == TeacherReport(id);
      FilterMembership(teachers, keep, ts[i]);
    }
    if Ticked(ticks, id) && exists t | t in teachers :: t.id == id {
      var t :| t in teachers && t.id == id;
      FilterMembership(teachers, keep, t);
      var i :| 0 <= i < |ts| && ts[i] == t;
      assert rt[i] == TeacherReport(id);
    }
  }

  /** Every class report precedes every teacher report; a class (teacher)
      is reported exactly when it is stored and ticked. */
  lemma ReportsSpec(ticks: map<string, bool>, classes: seq<ClassGrade>, teachers: seq<Teacher>, id: string)
    ensures var rs := Reports(ticks, classes, teachers);
      forall i, j | 0 <= i < |rs| && 0 <= j < |rs| && rs[i].TeacherReport? && rs[j].ClassReport? :: j < i
    ensures ClassReport(id) in Reports(ticks, classes, teachers) <==>
      Ticked(ticks, id) && exists c | c in classes :: c.id == id
    ensures TeacherReport(id) in Reports(ticks, classes, teachers) <==>
      Ticked(ticks, id) && exists t | t in teachers :: t.id == id
  {
    var rc, rt := ClassReports(ticks, classes), TeacherReports(ticks, teachers);
    assert Reports(ticks, classes, teachers) == rc + rt;
    ClassReported(ticks, classes, id);
    TeacherReported(ticks, teachers, id);
    assert ClassReport(id) !in rt;
    assert TeacherReport(id) !in rc;
  }

  /** Anything rendered means printing is enabled. */
  lemma ReportsEnablePrint(ticks: map<string, bool>, classes: seq<ClassGrade>, teachers: seq<Teacher>)
    requires Reports(ticks, classes, teachers) != []
    ensures !PrintDisabled(ticks)
  {
    var r := Reports(ticks, classes, teachers)[0];
    ReportsSpec(ticks, classes, teachers, if r.ClassReport? then r.classId else r.teacherId);
  }

  /** The reports read the full lists and the tick map, never the filters:
      two export states whose maps tick the same stored ids render the same
      reports whatever their filters, and a ticked class or teacher that the
      current filter hides is still printed. */
  lemma ReportsIgnoreFilters(x: Export, y: Export, classes: seq<ClassGrade>, teachers: seq<Teacher>)
    requires forall i | 0 <= i < |classes| :: Ticked(x.ticks, classes[i].id) == Ticked(y.ticks, classes[i].id)
    requires forall i | 0 <= i < |teachers| :: Ticked(x.ticks, teachers[i].id) == Ticked(y.ticks, teachers[i].id)
    ensures Reports(x.ticks, classes, teachers) == Reports(y.ticks, classes, teachers)
    ensures forall c | c in classes && Ticked(x.ticks, c.id) && c !in VisibleClasses(classes, x.grade) ::
      ClassReport(c.id) in Reports(x.ticks, classes, teachers)
    ensures forall t | t in teachers && Ticked(x.ticks, t.id) && t !in VisibleTeachers(teachers, x.department) ::
      TeacherReport(t.id) in Reports(x.ticks, classes, teachers)
  {
    FilterSame(classes, (c: ClassGrade) => Ticked(x.ticks, c.id), (c: ClassGrade) => Ticked(y.ticks, c.id));
    FilterSame(teachers, (t: Teacher) => Ticked(x.ticks, t.id), (t: Teacher) => Ticked(y.ticks, t.id));
    forall c | c in classes && Ticked(x.ticks, c.id)
      ensures ClassReport(c.id) in Reports(x.ticks, classes, teachers)
    {
      ReportsSpec(x.ticks, classes, teachers, c.id);
    }
    forall t | t in teachers && Ticked(x.ticks, t.id)
      ensures TeacherReport(t.id) in Reports(x.ticks, classes, teachers)
    {
      ReportsSpec(x.ticks, classes, teachers, t.id);
    }
  }

  /** The map is shared: a class and a teacher with the same id are ticked
      and unticked together. */
  lemma SharedTicks(ticks: map<string, bool>, c: ClassGrade, t: Teacher, classes: seq<ClassGrade>, teachers: seq<Teacher>)
    requires c in classes && t in teachers && c.id == t.id
    ensures var r := Reports(ToggleTick(ticks, c.id), classes, teachers);
      (ClassReport(c.id) in r <==> TeacherReport(t.id) in r)
  {
    ReportsSpec(ToggleTick(ticks, c.id), classes, teachers, c.id);
  }
}
