/** The timetable's records — teachers, subjects, event activities, rooms,
    class grades and schedule entries — and the full state that both the
    server and every client hold. Optional fields are `Option`s; an optional
    string counts as set only when it is present and non-empty, which is how
    the code's truthiness tests read it. */
module Entities {
  import opened Wrappers
  import opened Seqs
  import opened JsonValues

  datatype Teacher = Teacher(
    id: string, name: string, lastName: string, prefix: string, department: string, teacherCode: string)

  /** `isAcademic` is optional because forms and imports may leave it unset,
      and the code tells `undefined`, `false` and `true` apart. */
  datatype Subject = Subject(
    id: string, name: string, subjectCode: string, color: string, textColor: string,
    isAcademic: Option<bool>, gradeLevel: string)

  /** An event activity (assembly, club, scouts) that can occupy a slot for
      several classes at once; it names its default teachers and classes. */
  datatype EventActivity = EventActivity(
    id: string, name: string, color: string, textColor: string,
    affectedTeacherIds: Option<seq<string>>, affectedClassGradeIds: Option<seq<string>>,
    calculateWorkingHour: Option<bool>)

  /** `capacity` is `None` when missing or not a number. */
  datatype Room = Room(id: string, name: string, capacity: Option<int>)

  /** A background and text colour; new subjects and events get one picked
      at random from a fixed palette, so a pick is always a parameter. */
  datatype ColorPair = ColorPair(color: string, textColor: string)

  datatype ClassGrade = ClassGrade(
    id: string, name: string, gradeLevel: string, advisorIds: Option<seq<string>>, homeroomId: Option<string>)

  /** One placement in the weekly grid: day and period are 0-based. A subject
      entry names a subject, its teachers, a room and a class; an event entry
      names an event activity and usually one affected class. */
  datatype Entry = Entry(
    id: string, day: int, period: int,
    subjectId: Option<string>, teacherIds: Option<seq<string>>, roomId: Option<string>,
    classGradeId: Option<string>, eventActivityId: Option<string>)

  /** The whole timetable: six collections and four settings-like objects. */
  datatype Store = Store(
    schedule: seq<Entry>, teachers: seq<Teacher>, subjects: seq<Subject>,
    eventActivities: seq<EventActivity>, rooms: seq<Room>, classGrades: seq<ClassGrade>,
    settings: Obj, institutionDetails: Obj, academicCalendar: Obj, printSettings: Obj)

  /** An event placement, as a bulk add creates it: day, period, event and
      possibly one class, nothing else. */
  function EventEntry(id: string, day: int, period: int, event: string, grade: Option<string>): (e: Entry)
    ensures e.eventActivityId == Some(event) && e.classGradeId == grade
    ensures e.subjectId.None? && e.teacherIds.None? && e.roomId.None?
  {
    Entry(id, day, period, None, None, None, grade, Some(event))
  }

  /** An optional string that is truthy: present and non-empty. */
  predicate Filled(o: Option<string>) {
    o.Some? && o.value != ""
  }

  /** An optional id list read with `?.`/`||`: absent counts as empty. */
  function IdsOf(o: Option<seq<string>>): seq<string> {
    o.UnwrapOr([])
  }

  /** The ids of a sequence of entries, in order. */
  function EntryIds(s: seq<Entry>): (r: seq<string>)
    ensures |r| == |s| && forall i | 0 <= i < |s| :: r[i] == s[i].id
  {
    if s == [] then [] else [s[0].id] + EntryIds(s[1..])
  }

  lemma EntryIdsConcat(a: seq<Entry>, b: seq<Entry>)
    ensures EntryIds(a + b) == EntryIds(a) + EntryIds(b)
  {
  }

  function FindTeacher(ts: seq<Teacher>, id: string): (r: Option<Teacher>)
    ensures r.Some? ==> r.value in ts && r.value.id == id
    ensures r.None? <==> forall i | 0 <= i < |ts| :: ts[i].id != id
  {
    FindFirst(ts, (t: Teacher) => t.id == id)
  }

  function FindSubject(ss: seq<Subject>, id: string): (r: Option<Subject>)
    ensures r.Some? ==> r.value in ss && r.value.id == id
    ensures r.None? <==> forall i | 0 <= i < |ss| :: ss[i].id != id
  {
    FindFirst(ss, (s: Subject) => s.id == id)
  }

  function FindEvent(es: seq<EventActivity>, id: string): (r: Option<EventActivity>)
    ensures r.Some? ==> r.value in es && r.value.id == id
    ensures r.None? <==> forall i | 0 <= i < |es| :: es[i].id != id
  {
    FindFirst(es, (e: EventActivity) => e.id == id)
  }

  function FindRoom(rs: seq<Room>, id: string): (r: Option<Room>)
    ensures r.Some? ==> r.value in rs && r.value.id == id
    ensures r.None? <==> forall i | 0 <= i < |rs| :: rs[i].id != id
  {
    FindFirst(rs, (r: Room) => r.id == id)
  }

  function FindClass(cs: seq<ClassGrade>, id: string): (r: Option<ClassGrade>)
    ensures r.Some? ==> r.value in cs && r.value.id == id
    ensures r.None? <==> forall i | 0 <= i < |cs| :: cs[i].id != id
  {
    FindFirst(cs, (c: ClassGrade) => c.id == id)
  }

  /** The event an entry refers to, when its `eventActivityId` is set and
      resolves. */
  function EventOf(es: seq<EventActivity>, e: Entry): (r: Option<EventActivity>)
    ensures r.Some? ==> Filled(e.eventActivityId) && r.value in es && r.value.id == e.eventActivityId.value
  {
    if Filled(e.eventActivityId) then FindEvent(es, e.eventActivityId.value) else None
  }

  /** `room.capacity || 1`: a missing, `NaN` or zero capacity acts as 1. */
  function EffectiveCapacity(r: Room): (c: int)
    ensures r.capacity.Some? && r.capacity.value != 0 ==> c == r.capacity.value
    ensures r.capacity.None? || r.capacity.value == 0 ==> c == 1
  {
    match r.capacity
    case Some(n) => if n != 0 then n else 1
    case None => 1
  }
}
