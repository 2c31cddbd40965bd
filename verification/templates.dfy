/** The two printable timetables: template A for one class and template B
    for one teacher. Each shows, per day and period, the last of the
    entries that concern its subject, and below the grid a summary of the
    subjects studied (A, with the teachers in charge) or taught (B, with
    their period counts).

    A label that dereferences an item that does not resolve makes the page
    throw while rendering; such a cell is `None` here. */
module Templates {
  import opened Wrappers
  import opened Seqs
  import opened Strings
  import opened Entities
  import Workload
  import opened Grid

  // ---------------------------------------------------------------------
  // The last entry of each slot

  /** `entriesByDayPeriod[key] = entry` over the entries in order: a later
      entry of the same slot overwrites an earlier one. */
  function LastByKey(es: seq<Entry>, key: Entry -> string): map<string, Entry>
    decreases |es|
  {
    if es == [] then map[]
    else LastByKey(es[..|es| - 1], key)[key(es[|es| - 1]) := es[|es| - 1]]
  }

  function Last(s: seq<Entry>): Entry
    requires s != []
  {
    s[|s| - 1]
  }

  /** A key is present exactly when some entry has it, and holds the last
      such entry. */
  lemma {:induction false} LastByKeySpec(es: seq<Entry>, key: Entry -> string, k: string)
    ensures k in LastByKey(es, key) <==> Filter(es, KeyIs(key, k)) != []
    ensures k in LastByKey(es, key) ==> LastByKey(es, key)[k] == Last(Filter(es, KeyIs(key, k)))
    decreases |es|
  {
    if es != [] {
      var init, x := es[..|es| - 1], es[|es| - 1];
      LastByKeySpec(init, key, k);
      assert es == init + [x];
      FilterConcat(init, [x], KeyIs(key, k));
    }
  }

  /** The entry a cell of a printed timetable shows, if any. */
  function SlotEntry(es: seq<Entry>, day: int, period: int): Option<Entry> {
    var m := LastByKey(es, SlotKeyOf);
    if SlotKey(day, period) in m then Some(m[SlotKey(day, period)]) else None
  }

  /** A cell shows the last of the entries at its day and period, and is
      empty when there are none. */
  lemma SlotEntrySpec(es: seq<Entry>, day: nat, period: nat)
    ensures Filter(es, AtSlot(day, period)) == [] ==> SlotEntry(es, day, period).None?
    ensures Filter(es, AtSlot(day, period)) != [] ==> SlotEntry(es, day, period) == Some(Last(Filter(es, AtSlot(day, period))))
  {
    LastByKeySpec(es, SlotKeyOf, SlotKey(day, period));
    SlotFilter(es, day, period);
  }

  // ---------------------------------------------------------------------
  // Template A: one class

  /** The entries template A shows for a class: the class's own entries
      and the events that affect it. */
  function ClassEntries(db: Store, cid: string): seq<Entry> {
    Filter(db.schedule, ShowsTest(db.eventActivities, ClassView, cid))
  }

  /** A printed class cell shows the last of the entries the class grid
      view lists in that cell. */
  lemma ClassSlotIsLastOfGridCell(db: Store, cid: string, day: nat, period: nat)
    requires cid != ""
    ensures var cell := CellEntries(db, ClassView, cid, day, period);
      && (cell == [] ==> SlotEntry(ClassEntries(db, cid), day, period).None?)
      && (cell != [] ==> SlotEntry(ClassEntries(db, cid), day, period) == Some(Last(cell)))
  {
    SlotEntrySpec(ClassEntries(db, cid), day, period);
    CellEntriesSpec(db, ClassView, cid, day, period);
    FilterFilter(db.schedule, ShowsTest(db.eventActivities, ClassView, cid), AtSlot(day, period),
      InCell(db.eventActivities, ClassView, cid, day, period));
  }

  /** The subjects among `ids` that resolve, in order. */
  function ResolveSubjects(ss: seq<Subject>, ids: seq<string>): (r: seq<Subject>)
    ensures |r| <= |ids|
  {
    if ids == [] then []
    else
      (match FindSubject(ss, ids[0]) case Some(s) => [s] case None => []) + ResolveSubjects(ss, ids[1..])
  }

  /** One subject per id that resolves, each the subject that id names;
      different ids give subjects with different ids. */
  lemma ResolveSubjectsSpec(ss: seq<Subject>, ids: seq<string>)
    ensures forall s :: s in ResolveSubjects(ss, ids) <==> exists i | 0 <= i < |ids| :: FindSubject(ss, ids[i]) == Some(s)
    ensures NoDup(ids) ==> forall i, j | 0 <= i < j < |ResolveSubjects(ss, ids)| ::
      ResolveSubjects(ss, ids)[i].id != ResolveSubjects(ss, ids)[j].id
  {
    forall s ensures s in ResolveSubjects(ss, ids) <==> exists i | 0 <= i < |ids| :: FindSubject(ss, ids[i]) == Some(s) {
      ResolveSubjectsMember(ss, ids, s);
    }
    if NoDup(ids) {
      ResolveSubjectsDistinct(ss, ids);
    }
  }

  lemma {:induction false} ResolveSubjectsMember(ss: seq<Subject>, ids: seq<string>, s: Subject)
    ensures s in ResolveSubjects(ss, ids) <==> exists i | 0 <= i < |ids| :: FindSubject(ss, ids[i]) == Some(s)
  {
    if ids != [] {
      ResolveSubjectsMember(ss, ids[1..], s);
      if exists i | 0 <= i < |ids| :: FindSubject(ss, ids[i]) == Some(s) {
        var i :| 0 <= i < |ids| && FindSubject(ss, ids[i]) == Some(s);
        if i > 0 {
          assert ids[1..][i - 1] == ids[i];
        }
      }
      if exists k | 0 <= k < |ids[1..]| :: FindSubject(ss, ids[1..][k]) == Some(s) {
        var k :| 0 <= k < |ids[1..]| && FindSubject(ss, ids[1..][k]) == Some(s);
        assert ids[1..][k] == ids[k + 1];
      }
    }
  }

  lemma {:induction false} ResolveSubjectsDistinct(ss: seq<Subject>, ids: seq<string>)
    requires NoDup(ids)
    ensures forall i, j | 0 <= i < j < |ResolveSubjects(ss, ids)| ::
      ResolveSubjects(ss, ids)[i].id != ResolveSubjects(ss, ids)[j].id
  {
    if ids != [] {
      var rest := ResolveSubjects(ss, ids[1..]);
      assert NoDup(ids[1..]);
      ResolveSubjectsDistinct(ss, ids[1..]);
      forall j | 0 <= j < |rest| ensures rest[j].id != ids[0] {
        ResolveSubjectsMember(ss, ids[1..], rest[j]);
        var k :| 0 <= k < |ids[1..]| && FindSubject(ss, ids[1..][k]) == Some(rest[j]);
        assert ids[1..][k] == ids[k + 1];
      }
    }
  }

  function HasSubject(e: Entry): bool {
    Filled(e.subjectId)
  }

  function SubjectIdOf(e: Entry): string {
    e.subjectId.UnwrapOr("")
  }

  /** The class's entries that name a subject. */
  function NamedEntries(db: Store, cid: string): seq<Entry> {
    Filter(ClassEntries(db, cid), HasSubject)
  }

  /** `subjectsStudied`: the distinct subject ids of the class's entries,
      in order of first appearance, resolved; unknown ids are dropped. */
  function SubjectsStudied(db: Store, cid: string): seq<Subject> {
    ResolveSubjects(db.subjects, KeysOf(NamedEntries(db, cid), SubjectIdOf))
  }

  lemma NamedEntry(db: Store, cid: string, e: Entry)
    ensures e in NamedEntries(db, cid) <==>
      e in db.schedule && ServesClass(db.eventActivities, cid, e) && Filled(e.subjectId)
  {
    FilterMembership(db.schedule, ShowsTest(db.eventActivities, ClassView, cid), e);
    FilterMembership(ClassEntries(db, cid), HasSubject, e);
  }

  lemma StudiedSubject(db: Store, cid: string, s: Subject)
    ensures s in SubjectsStudied(db, cid) <==>
      exists e | e in NamedEntries(db, cid) :: FindSubject(db.subjects, SubjectIdOf(e)) == Some(s)
  {
    var named := NamedEntries(db, cid);
    var ids := KeysOf(named, SubjectIdOf);
    ResolveSubjectsSpec(db.subjects, ids);
    if s in SubjectsStudied(db, cid) {
      var i :| 0 <= i < |ids| && FindSubject(db.subjects, ids[i]) == Some(s);
      KeysOfMembership(named, SubjectIdOf, ids[i]);
    }
    if exists e | e in named :: FindSubject(db.subjects, SubjectIdOf(e)) == Some(s) {
      var e :| e in named && FindSubject(db.subjects, SubjectIdOf(e)) == Some(s);
      KeysOfMembership(named, SubjectIdOf, SubjectIdOf(e));
      var i :| 0 <= i < |ids| && ids[i] == SubjectIdOf(e);
    }
  }

  /** A subject is listed exactly when one of the class's entries names it,
      and no subject is listed twice. */
  lemma SubjectsStudiedSpec(db: Store, cid: string)
    ensures forall s :: s in SubjectsStudied(db, cid) <==>
      exists e | e in db.schedule :: ServesClass(db.eventActivities, cid, e) && Filled(e.subjectId)
        && FindSubject(db.subjects, e.subjectId.value) == Some(s)
    ensures forall i, j | 0 <= i < j < |SubjectsStudied(db, cid)| ::
      SubjectsStudied(db, cid)[i].id != SubjectsStudied(db, cid)[j].id
  {
    var named := NamedEntries(db, cid);
    forall s ensures s in SubjectsStudied(db, cid) <==>
      exists e | e in db.schedule :: ServesClass(db.eventActivities, cid, e) && Filled(e.subjectId)
        && FindSubject(db.subjects, e.subjectId.value) == Some(s)
    {
      StudiedSubject(db, cid, s);
      if exists e | e in named :: FindSubject(db.subjects, SubjectIdOf(e)) == Some(s) {
        var e :| e in named && FindSubject(db.subjects, SubjectIdOf(e)) == Some(s);
        NamedEntry(db, cid, e);
      }
      if exists e | e in db.schedule :: ServesClass(db.eventActivities, cid, e) && Filled(e.subjectId)
          && FindSubject(db.subjects, e.subjectId.value) == Some(s) {
        var e :| e in db.schedule && ServesClass(db.eventActivities, cid, e) && Filled(e.subjectId)
          && FindSubject(db.subjects, e.subjectId.value) == Some(s);
        NamedEntry(db, cid, e);
      }
    }
    KeysOfSpec(named, SubjectIdOf);
    ResolveSubjectsSpec(db.subjects, KeysOf(named, SubjectIdOf));
  }

  /** The direct entries of a class and subject that list teachers. */
  function DirectTest(cid: string, sid: string): Entry -> bool {
    (e: Entry) => e.classGradeId == Some(cid) && e.subjectId == Some(sid) && e.teacherIds.Some?
  }

  function TeacherIdsOf(e: Entry): seq<string> {
    IdsOf(e.teacherIds)
  }

  /** The teachers in charge of a subject for a class: the distinct
      teachers of the class's own entries of that subject, events not
      counted, resolved. */
  function TeachersInCharge(db: Store, cid: string, sid: string): seq<Teacher> {
    ResolveTeachers(db.teachers, Distinct(Flatten(MapSeq(Filter(db.schedule, DirectTest(cid, sid)), TeacherIdsOf))))
  }

  /** Different ids resolve to teachers with different ids. */
  lemma {:induction false} ResolveTeachersDistinct(ts: seq<Teacher>, ids: seq<string>)
    requires NoDup(ids)
    ensures forall i, j | 0 <= i < j < |ResolveTeachers(ts, ids)| ::
      ResolveTeachers(ts, ids)[i].id != ResolveTeachers(ts, ids)[j].id
  {
    if ids != [] {
      var rest := ResolveTeachers(ts, ids[1..]);
      assert NoDup(ids[1..]);
      ResolveTeachersDistinct(ts, ids[1..]);
      ResolveTeachersSpec(ts, ids[1..]);
      forall j | 0 <= j < |rest| ensures rest[j].id != ids[0] {
        assert rest[j] in rest;
        var k :| 0 <= k < |ids[1..]| && FindTeacher(ts, ids[1..][k]) == Some(rest[j]);
        assert ids[1..][k] == ids[k + 1];
      }
    }
  }

  /** A resolved teacher comes from a direct entry's list. */
  lemma InChargeFrom(db: Store, cid: string, sid: string, t: Teacher)
    requires t in TeachersInCharge(db, cid, sid)
    ensures exists e, i | e in Filter(db.schedule, DirectTest(cid, sid)) && 0 <= i < |TeacherIdsOf(e)| ::
      FindTeacher(db.teachers, TeacherIdsOf(e)[i]) == Some(t)
  {
    var direct := Filter(db.schedule, DirectTest(cid, sid));
    var lists := MapSeq(direct, TeacherIdsOf);
    var ids := Distinct(Flatten(lists));
    ResolveTeachersSpec(db.teachers, ids);
    var k :| 0 <= k < |ids| && FindTeacher(db.teachers, ids[k]) == Some(t);
    FlattenMembership(lists, ids[k]);
    var m :| 0 <= m < |lists| && ids[k] in lists[m];
    var i :| 0 <= i < |lists[m]| && lists[m][i] == ids[k];
    assert direct[m] in direct;
  }

  /** A teacher resolved from a direct entry's list is in charge. */
  lemma InChargeTo(db: Store, cid: string, sid: string, t: Teacher, e: Entry, i: nat)
    requires e in Filter(db.schedule, DirectTest(cid, sid)) && i < |TeacherIdsOf(e)|
    requires FindTeacher(db.teachers, TeacherIdsOf(e)[i]) == Some(t)
    ensures t in TeachersInCharge(db, cid, sid)
  {
    var direct := Filter(db.schedule, DirectTest(cid, sid));
    var lists := MapSeq(direct, TeacherIdsOf);
    var ids := Distinct(Flatten(lists));
    var id := TeacherIdsOf(e)[i];
    ResolveTeachersSpec(db.teachers, ids);
    var m :| 0 <= m < |direct| && direct[m] == e;
    assert id in lists[m];
    FlattenMembership(lists, id);
    var k :| 0 <= k < |Flatten(lists)| && Flatten(lists)[k] == id;
    var n :| 0 <= n < |ids| && ids[n] == id;
  }

  /** A teacher is in charge exactly when they resolve from the teacher
      list of a direct entry of that class and subject; nobody is listed
      twice. */
  lemma TeachersInChargeSpec(db: Store, cid: string, sid: string)
    ensures forall t :: t in TeachersInCharge(db, cid, sid) <==>
      exists e, i | e in db.schedule && 0 <= i < |IdsOf(e.teacherIds)| ::
        && e.classGradeId == Some(cid) && e.subjectId == Some(sid) && e.teacherIds.Some?
        && FindTeacher(db.teachers, IdsOf(e.teacherIds)[i]) == Some(t)
    ensures forall i, j | 0 <= i < j < |TeachersInCharge(db, cid, sid)| ::
      TeachersInCharge(db, cid, sid)[i].id != TeachersInCharge(db, cid, sid)[j].id
  {
    forall t ensures t in TeachersInCharge(db, cid, sid) <==>
      exists e, i | e in db.schedule && 0 <= i < |IdsOf(e.teacherIds)| ::
        && e.classGradeId == Some(cid) && e.subjectId == Some(sid) && e.teacherIds.Some?
        && FindTeacher(db.teachers, IdsOf(e.teacherIds)[i]) == Some(t)
    {
      if t in TeachersInCharge(db, cid, sid) {
        InChargeFrom(db, cid, sid, t);
        var e, i :| e in Filter(db.schedule, DirectTest(cid, sid)) && 0 <= i < |TeacherIdsOf(e)|
          && FindTeacher(db.teachers, TeacherIdsOf(e)[i]) == Some(t);
        FilterMembership(db.schedule, DirectTest(cid, sid), e);
      }
      if exists e, i | e in db.schedule && 0 <= i < |IdsOf(e.teacherIds)| ::
          && e.classGradeId == Some(cid) && e.subjectId == Some(sid) && e.teacherIds.Some?
          && FindTeacher(db.teachers, IdsOf(e.teacherIds)[i]) == Some(t) {
        var e, i :| e in db.schedule && 0 <= i < |IdsOf(e.teacherIds)|
          && e.classGradeId == Some(cid) && e.subjectId == Some(sid) && e.teacherIds.Some?
          && FindTeacher(db.teachers, IdsOf(e.teacherIds)[i]) == Some(t);
        FilterMembership(db.schedule, DirectTest(cid, sid), e);
        InChargeTo(db, cid, sid, t, e, i);
      }
    }
    ResolveTeachersDistinct(db.teachers, Distinct(Flatten(MapSeq(Filter(db.schedule, DirectTest(cid, sid)), TeacherIdsOf))));
  }

  // ---------------------------------------------------------------------
  // Template B: one teacher

  /** The entries template B shows for a teacher: those naming the
      teacher and the events listing them. */
  function TeacherEntries(db: Store, tid: string): seq<Entry> {
    Filter(db.schedule, ShowsTest(db.eventActivities, TeacherView, tid))
  }

  /** Template B prints the same entries the workload report counts, and
      its total is their number, events included. */
  lemma TeacherEntriesAreWorkloadSchedule(db: Store, tid: string)
    ensures forall e :: e in TeacherEntries(db, tid) <==> e in Workload.TeacherSchedule(db, tid)
    ensures TotalPeriods(db, tid) == |Filter(db.schedule, (e: Entry) => Workload.Teaches(db.eventActivities, tid, e))|
  {
    forall e ensures e in TeacherEntries(db, tid) <==> e in Workload.TeacherSchedule(db, tid) {
      FilterMembership(db.schedule, ShowsTest(db.eventActivities, TeacherView, tid), e);
    }
    FilterSame(db.schedule, ShowsTest(db.eventActivities, TeacherView, tid),
      (e: Entry) => Workload.Teaches(db.eventActivities, tid, e));
  }

  /** A printed teacher cell shows the last of the entries the teacher grid
      view lists in that cell. */
  lemma TeacherSlotIsLastOfGridCell(db: Store, tid: string, day: nat, period: nat)
    requires tid != ""
    ensures var cell := CellEntries(db, TeacherView, tid, day, period);
      && (cell == [] ==> SlotEntry(TeacherEntries(db, tid), day, period).None?)
      && (cell != [] ==> SlotEntry(TeacherEntries(db, tid), day, period) == Some(Last(cell)))
  {
    SlotEntrySpec(TeacherEntries(db, tid), day, period);
    CellEntriesSpec(db, TeacherView, tid, day, period);
    FilterFilter(db.schedule, ShowsTest(db.eventActivities, TeacherView, tid), AtSlot(day, period),
      InCell(db.eventActivities, TeacherView, tid, day, period));
  }

  /** `totalPeriods`. */
  function TotalPeriods(db: Store, tid: string): nat {
    |TeacherEntries(db, tid)|
  }

  /** A summary record: a subject and how many of the teacher's entries
      name it. */
  datatype Taught = Taught(subject: Subject, periods: nat)

  /** One more period of `s`: the record with its id is incremented, or a
      new record with one period is appended. */
  function AddTaught(acc: seq<Taught>, s: Subject): (r: seq<Taught>)
    ensures |r| >= |acc|
  {
    if acc == [] then [Taught(s, 1)]
    else if acc[0].subject.id == s.id then [acc[0].(periods := acc[0].periods + 1)] + acc[1..]
    else [acc[0]] + AddTaught(acc[1..], s)
  }

  /** The subject an entry counts for: a truthy subject id that resolves. */
  function TaughtSubject(subjects: seq<Subject>, e: Entry): Option<Subject> {
    if Filled(e.subjectId) then FindSubject(subjects, e.subjectId.value) else None
  }

  /** `subjectsTaught`, built entry by entry. */
  function SubjectsTaught(subjects: seq<Subject>, es: seq<Entry>): seq<Taught>
    decreases |es|
  {
    if es == [] then []
    else
      var acc := SubjectsTaught(subjects, es[..|es| - 1]);
      match TaughtSubject(subjects, es[|es| - 1])
      case Some(s) => AddTaught(acc, s)
      case None => acc
  }

  function Periods(acc: seq<Taught>): nat {
    if acc == [] then 0 else acc[0].periods + Periods(acc[1..])
  }

  function TaughtTest(subjects: seq<Subject>): Entry -> bool {
    (e: Entry) => TaughtSubject(subjects, e).Some?
  }

  function CountsFor(subjects: seq<Subject>): Entry -> string {
    (e: Entry) => SubjectIdOf(e)
  }

  /** A summary agrees with a grouping of the counted entries by subject
      id: the same ids in the same order, the resolved subject, and the
      group's size as the period count. */
  ghost predicate Summarises(subjects: seq<Subject>, acc: seq<Taught>, g: seq<(string, seq<Entry>)>) {
    && |acc| == |g|
    && forall i | 0 <= i < |acc| ::
      acc[i].subject.id == g[i].0 && FindSubject(subjects, g[i].0) == Some(acc[i].subject) && acc[i].periods == |g[i].1|
  }

  lemma {:induction false} AddTaughtStep(subjects: seq<Subject>, acc: seq<Taught>, g: seq<(string, seq<Entry>)>, s: Subject, x: Entry)
    requires Summarises(subjects, acc, g) && DistinctKeys(g)
    requires FindSubject(subjects, s.id) == Some(s)
    ensures Summarises(subjects, AddTaught(acc, s), AddToGroup(g, s.id, x))
    ensures Periods(AddTaught(acc, s)) == Periods(acc) + 1
    decreases |acc|
  {
    if acc != [] {
      SummarisesTail(subjects, acc, g);
      if acc[0].subject.id == s.id {
        SummarisesCons(subjects, acc[0].(periods := acc[0].periods + 1), acc[1..], (s.id, g[0].1 + [x]), g[1..]);
      } else {
        assert DistinctKeys(g[1..]);
        AddTaughtStep(subjects, acc[1..], g[1..], s, x);
        SummarisesCons(subjects, acc[0], AddTaught(acc[1..], s), g[0], AddToGroup(g[1..], s.id, x));
      }
    }
  }

  lemma SummarisesTail(subjects: seq<Subject>, acc: seq<Taught>, g: seq<(string, seq<Entry>)>)
    requires Summarises(subjects, acc, g) && acc != []
    ensures Summarises(subjects, acc[1..], g[1..])
    ensures acc[0].subject.id == g[0].0 && FindSubject(subjects, g[0].0) == Some(acc[0].subject) && acc[0].periods == |g[0].1|
  {
    forall i | 0 <= i < |acc| - 1
      ensures acc[1..][i].subject.id == g[1..][i].0 && FindSubject(subjects, g[1..][i].0) == Some(acc[1..][i].subject)
        && acc[1..][i].periods == |g[1..][i].1|
    {
      assert acc[1..][i] == acc[i + 1] && g[1..][i] == g[i + 1];
    }
  }

  lemma SummarisesCons(subjects: seq<Subject>, a: Taught, acc: seq<Taught>, p: (string, seq<Entry>), g: seq<(string, seq<Entry>)>)
    requires Summarises(subjects, acc, g)
    requires a.subject.id == p.0 && FindSubject(subjects, p.0) == Some(a.subject) && a.periods == |p.1|
    ensures Summarises(subjects, [a] + acc, [p] + g)
  {
    forall i | 1 <= i < |acc| + 1
      ensures ([a] + acc)[i].subject.id == ([p] + g)[i].0 && FindSubject(subjects, ([p] + g)[i].0) == Some(([a] + acc)[i].subject)
        && ([a] + acc)[i].periods == |([p] + g)[i].1|
    {
      assert ([a] + acc)[i] == acc[i - 1] && ([p] + g)[i] == g[i - 1];
    }
  }

  /** Counting one more entry for `s` keeps the summary in step with the
      grouping. */
  lemma TaughtStep(subjects: seq<Subject>, acc: seq<Taught>, counted: seq<Entry>, x: Entry, s: Subject)
    requires Summarises(subjects, acc, GroupBy(counted, CountsFor(subjects)))
    requires Periods(acc) == |counted|
    requires TaughtSubject(subjects, x) == Some(s)
    ensures Summarises(subjects, AddTaught(acc, s), GroupBy(counted + [x], CountsFor(subjects)))
    ensures Periods(AddTaught(acc, s)) == |counted + [x]|
  {
    var key := CountsFor(subjects);
    GroupBySpec(counted, key);
    assert (counted + [x])[..|counted|] == counted;
    assert key(x) == s.id;
    assert GroupBy(counted + [x], key) == AddToGroup(GroupBy(counted, key), s.id, x);
    AddTaughtStep(subjects, acc, GroupBy(counted, key), s, x);
  }

  /** The summary invariant for the entries `es`. */
  ghost predicate TaughtInvariant(subjects: seq<Subject>, es: seq<Entry>) {
    && Summarises(subjects, SubjectsTaught(subjects, es), GroupBy(Filter(es, TaughtTest(subjects)), CountsFor(subjects)))
    && Periods(SubjectsTaught(subjects, es)) == |Filter(es, TaughtTest(subjects))|
  }

  /** Appending an entry that counts for `s`. */
  lemma TaughtSnocSome(subjects: seq<Subject>, init: seq<Entry>, x: Entry, s: Subject)
    requires TaughtInvariant(subjects, init)
    requires TaughtSubject(subjects, x) == Some(s)
    ensures TaughtInvariant(subjects, init + [x])
  {
    var es := init + [x];
    assert es[..|es| - 1] == init;
    FilterConcat(init, [x], TaughtTest(subjects));
    var counted := Filter(init, TaughtTest(subjects));
    assert Filter(es, TaughtTest(subjects)) == counted + [x];
    assert SubjectsTaught(subjects, es) == AddTaught(SubjectsTaught(subjects, init), s);
    TaughtStep(subjects, SubjectsTaught(subjects, init), counted, x, s);
  }

  /** Appending an entry that does not count changes nothing. */
  lemma TaughtSnocNone(subjects: seq<Subject>, init: seq<Entry>, x: Entry)
    requires TaughtInvariant(subjects, init)
    requires TaughtSubject(subjects, x).None?
    ensures TaughtInvariant(subjects, init + [x])
  {
    var es := init + [x];
    assert es[..|es| - 1] == init;
    FilterConcat(init, [x], TaughtTest(subjects));
    assert Filter(es, TaughtTest(subjects)) == Filter(init, TaughtTest(subjects));
    assert SubjectsTaught(subjects, es) == SubjectsTaught(subjects, init);
  }

  /** `subjectsTaught` is the grouping of the counted entries by subject
      id, in order of first appearance, one record per group with the
      group's size; the periods add up to the counted entries. */
  lemma {:induction false} SubjectsTaughtGroups(subjects: seq<Subject>, es: seq<Entry>)
    ensures TaughtInvariant(subjects, es)
    decreases |es|
  {
    if es != [] {
      var init, x := es[..|es| - 1], es[|es| - 1];
      SubjectsTaughtGroups(subjects, init);
      assert es == init + [x];
      match TaughtSubject(subjects, x)
      case Some(s) => TaughtSnocSome(subjects, init, x, s);
      case None => TaughtSnocNone(subjects, init, x);
    }
  }

  /** Each record's subject is the one its id names, no id repeats, and
      its periods are the number of counted entries naming it. */
  lemma TaughtRecords(subjects: seq<Subject>, es: seq<Entry>)
    ensures var st := SubjectsTaught(subjects, es);
      && (forall i, j | 0 <= i < j < |st| :: st[i].subject.id != st[j].subject.id)
      && (forall i | 0 <= i < |st| ::
            FindSubject(subjects, st[i].subject.id) == Some(st[i].subject)
            && st[i].periods == |KeyFilter(Filter(es, TaughtTest(subjects)), CountsFor(subjects), st[i].subject.id)|)
      && Periods(st) == |Filter(es, TaughtTest(subjects))|
  {
    var counted := Filter(es, TaughtTest(subjects));
    SubjectsTaughtGroups(subjects, es);
    GroupBySpec(counted, CountsFor(subjects));
  }

  /** A record's id is named by one of the counted entries. */
  lemma TaughtListedFrom(subjects: seq<Subject>, es: seq<Entry>, i: nat)
    requires i < |SubjectsTaught(subjects, es)|
    ensures exists e | e in es :: TaughtSubject(subjects, e).Some? && e.subjectId == Some(SubjectsTaught(subjects, es)[i].subject.id)
  {
    var counted := Filter(es, TaughtTest(subjects));
    var id := SubjectsTaught(subjects, es)[i].subject.id;
    var g := GroupBy(counted, CountsFor(subjects));
    SubjectsTaughtGroups(subjects, es);
    GroupBySpec(counted, CountsFor(subjects));
    assert Firsts(g)[i] == id;
    KeysOfMembership(counted, CountsFor(subjects), id);
    var e :| e in counted && CountsFor(subjects)(e) == id;
    FilterMembership(es, TaughtTest(subjects), e);
  }

  /** A counted entry's subject has a record. */
  lemma TaughtListedTo(subjects: seq<Subject>, es: seq<Entry>, e: Entry)
    requires e in es && TaughtSubject(subjects, e).Some?
    ensures exists i | 0 <= i < |SubjectsTaught(subjects, es)| :: Some(SubjectsTaught(subjects, es)[i].subject.id) == e.subjectId
  {
    var counted := Filter(es, TaughtTest(subjects));
    var g := GroupBy(counted, CountsFor(subjects));
    var id := CountsFor(subjects)(e);
    SubjectsTaughtGroups(subjects, es);
    GroupBySpec(counted, CountsFor(subjects));
    FilterMembership(es, TaughtTest(subjects), e);
    KeysOfMembership(counted, CountsFor(subjects), id);
    var i :| 0 <= i < |Firsts(g)| && Firsts(g)[i] == id;
    assert SubjectsTaught(subjects, es)[i].subject.id == id;
  }

  /** A subject has a record exactly when a counted entry names it. */
  lemma TaughtListed(subjects: seq<Subject>, es: seq<Entry>, id: string)
    ensures (exists i | 0 <= i < |SubjectsTaught(subjects, es)| :: SubjectsTaught(subjects, es)[i].subject.id == id) <==>
      exists e | e in es :: TaughtSubject(subjects, e).Some? && e.subjectId == Some(id)
  {
    var st := SubjectsTaught(subjects, es);
    if exists i | 0 <= i < |st| :: st[i].subject.id == id {
      var i :| 0 <= i < |st| && st[i].subject.id == id;
      TaughtListedFrom(subjects, es, i);
    }
    if exists e | e in es :: TaughtSubject(subjects, e).Some? && e.subjectId == Some(id) {
      var e :| e in es && TaughtSubject(subjects, e).Some? && e.subjectId == Some(id);
      TaughtListedTo(subjects, es, e);
    }
  }

  /** The periods of template B's summary never exceed its total. */
  lemma TaughtWithinTotal(db: Store, tid: string)
    ensures Periods(SubjectsTaught(db.subjects, TeacherEntries(db, tid))) <= TotalPeriods(db, tid)
  {
    TaughtRecords(db.subjects, TeacherEntries(db, tid));
  }

  // ---------------------------------------------------------------------
  // Cells of the printed grids

  /** A printed cell: its title and, for an entry that is not an event,
      two lines below it. */
  datatype PrintedCell = PrintedCell(title: string, lines: seq<Line>)

  /** A resolvable subject shows its code; anything else its name, or
      `N/A` when it has none or does not resolve. */
  function Title(db: Store, e: Entry): string {
    match CardItem(db, e)
    case Some(SubjectItem(s)) => s.subjectCode
    case Some(EventItem(ev)) => if ev.name != "" then ev.name else "N/A"
    case None => "N/A"
  }

  /** `room?.name || 'N/A'`. */
  function RoomLine(db: Store, e: Entry): Line {
    Plain(if RoomName(db, e) != "" then RoomName(db, e) else "N/A")
  }

  /** The word template A puts before each teacher's first name. */
  const TeacherTitle: string := "ครู"

  function TitledName(t: Teacher): string {
    TeacherTitle + t.name
  }

  /** Template A's teacher line: the entry's resolved teachers by titled
      first name; without any, the "multiple" label for an event that
      lists teachers and `N/A` otherwise. Reading the event's list off an
      item that does not resolve throws. */
  function TeacherLineA(db: Store, e: Entry): Option<Line> {
    var co := ResolveTeachers(db.teachers, IdsOf(e.teacherIds));
    if |co| > 0 then Some(Plain(Join(MapSeq(co, TitledName), ", ")))
    else
      match CardItem(db, e)
      case None => None
      case Some(EventItem(ev)) => Some(if |IdsOf(ev.affectedTeacherIds)| > 0 then MultipleTeachers else Plain("N/A"))
      case Some(SubjectItem(_)) => Some(Plain("N/A"))
  }

  /** The teacher line throws only when none of the entry's teachers
      resolves and its item does not either; it names teachers exactly
      when one of them resolves. */
  lemma TeacherLineASpec(db: Store, e: Entry)
    ensures TeacherLineA(db, e).None? <==>
      (|Filter(IdsOf(e.teacherIds), Resolves(db.teachers))| == 0 && CardItem(db, e).None?)
    ensures TeacherLineA(db, e) == Some(MultipleTeachers) <==>
      (&& |Filter(IdsOf(e.teacherIds), Resolves(db.teachers))| == 0
       && CardItem(db, e).Some? && CardItem(db, e).value.EventItem?
       && |IdsOf(CardItem(db, e).value.event.affectedTeacherIds)| > 0)
  {
    ResolveTeachersSpec(db.teachers, IdsOf(e.teacherIds));
  }

  /** A template A cell; `None` when rendering it throws. */
  function CellA(db: Store, e: Entry): (r: Option<PrintedCell>)
    ensures r.Some? <==> TeacherLineA(db, e).Some?
    ensures r.Some? ==> r.value.title == Title(db, e)
    ensures r.Some? ==> (r.value.lines == [] <==> Filled(e.eventActivityId))
  {
    match TeacherLineA(db, e)
    case None => None
    case Some(teacher) =>
      Some(PrintedCell(Title(db, e), if Filled(e.eventActivityId) then [] else [teacher, RoomLine(db, e)]))
  }

  /** Template B's class line: the resolved class's name; otherwise the
      class count of an event affecting several classes, the name of its
      one class, or `N/A`. Reading the item's classes off an item that does
      not resolve throws. */
  function ClassLineB(db: Store, e: Entry): Option<Line> {
    if ClassName(db, e) != "" then Some(Plain(ClassName(db, e)))
    else
      match CardItem(db, e)
      case None => None
      case Some(item) =>
        var n := AffectedCount(item);
        if n.Some? && n.value > 1 then Some(ClassCount(n))
        else if n == Some(1) then
          match FindClass(db.classGrades, item.event.affectedClassGradeIds.value[0])
          case Some(c) => Some(Plain(c.name))
          case None => Some(Plain(""))
        else Some(Plain("N/A"))
  }

  /** Unlike the grid's teacher view, template B shows a resolved class's
      name; it throws only when there is no named class and the item does
      not resolve. */
  lemma ClassLineBSpec(db: Store, e: Entry)
    ensures ClassName(db, e) != "" ==> ClassLineB(db, e) == Some(Plain(ClassName(db, e)))
    ensures ClassLineB(db, e).None? <==> ClassName(db, e) == "" && CardItem(db, e).None?
    ensures ClassName(db, e) != "" && CardItem(db, e).Some? ==>
      CardOf(db, TeacherView, e).value.line1 != ClassLineB(db, e).value
  {
    if ClassName(db, e) != "" && CardItem(db, e).Some? {
      TeacherViewShowsCount(db, e);
    }
  }

  /** A template B cell; `None` when rendering it throws. */
  function CellB(db: Store, e: Entry): (r: Option<PrintedCell>)
    ensures r.Some? <==> ClassLineB(db, e).Some?
    ensures r.Some? ==> r.value.title == Title(db, e)
    ensures r.Some? ==> (r.value.lines == [] <==> Filled(e.eventActivityId))
  {
    match ClassLineB(db, e)
    case None => None
    case Some(grade) =>
      Some(PrintedCell(Title(db, e), if Filled(e.eventActivityId) then [] else [grade, RoomLine(db, e)]))
  }
}
