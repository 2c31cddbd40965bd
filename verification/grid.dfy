/** The weekly grid: which entries a class, teacher or room view shows in
    each cell, the text on each card, the selection a view starts with, and
    what dropping a dragged card or an unscheduled subject onto a cell does.

    Labels that come from translation tables (`multipleTeachers`,
    `classes`) are kept as constructors of `Line`. */
module Grid {
  import opened Wrappers
  import opened Seqs
  import opened Strings
  import opened Entities
  import opened Actions
  import opened Client
  import Workload

  datatype ViewMode = ClassView | TeacherView | RoomView

  // ---------------------------------------------------------------------
  // Which entries a view shows

  /** An entry belongs to the class directly, or is an event whose affected
      classes include it. */
  predicate ServesClass(events: seq<EventActivity>, cid: string, e: Entry) {
    e.classGradeId == Some(cid)
    || (EventOf(events, e).Some? && cid in IdsOf(EventOf(events, e).value.affectedClassGradeIds))
  }

  /** The class view follows classes directly and through events, the
      teacher view follows teachers the same way, and the room view only
      the entry's own room. */
  predicate Shows(events: seq<EventActivity>, mode: ViewMode, sel: string, e: Entry) {
    match mode
    case ClassView => ServesClass(events, sel, e)
    case TeacherView => Workload.Teaches(events, sel, e)
    case RoomView => e.roomId == Some(sel)
  }

  function ShowsTest(events: seq<EventActivity>, mode: ViewMode, sel: string): Entry -> bool {
    (e: Entry) => Shows(events, mode, sel, e)
  }

  /** The map key `${day}-${period}`. */
  function SlotKey(day: int, period: int): string {
    IntToString(day) + "-" + IntToString(period)
  }

  /** `map.get(key) || []`. */
  function SlotEntries(m: map<string, seq<Entry>>, k: string): seq<Entry> {
    if k in m then m[k] else []
  }

  /** The grouping loop: each entry, in order, pushed onto the list of its
      key. */
  function GroupByKey(es: seq<Entry>, key: Entry -> string): map<string, seq<Entry>>
    decreases |es|
  {
    if es == [] then map[]
    else
      var m := GroupByKey(es[..|es| - 1], key);
      var x := es[|es| - 1];
      m[key(x) := SlotEntries(m, key(x)) + [x]]
  }

  function KeyIs(key: Entry -> string, k: string): Entry -> bool {
    (e: Entry) => key(e) == k
  }

  /** Every key's list holds exactly the entries with that key, in order. */
  lemma {:induction false} GroupByKeySpec(es: seq<Entry>, key: Entry -> string, k: string)
    ensures SlotEntries(GroupByKey(es, key), k) == Filter(es, KeyIs(key, k))
    decreases |es|
  {
    if es != [] {
      var init, x := es[..|es| - 1], es[|es| - 1];
      GroupByKeySpec(init, key, k);
      assert es == init + [x];
      FilterConcat(init, [x], KeyIs(key, k));
      GroupStep(GroupByKey(init, key), key(x), x, k);
    }
  }

  /** Pushing onto one key's list extends that list and no other. */
  lemma GroupStep(m: map<string, seq<Entry>>, kx: string, x: Entry, k: string)
    ensures SlotEntries(m[kx := SlotEntries(m, kx) + [x]], k) == SlotEntries(m, k) + (if kx == k then [x] else [])
  {
  }

  function SlotKeyOf(e: Entry): string {
    SlotKey(e.day, e.period)
  }

  /** `entriesByDayPeriod`: nothing without a selection, otherwise the
      entries the view shows, grouped by slot. */
  function EntriesBySlot(db: Store, mode: ViewMode, sel: string): map<string, seq<Entry>> {
    if sel == "" then map[] else GroupByKey(Filter(db.schedule, ShowsTest(db.eventActivities, mode, sel)), SlotKeyOf)
  }

  /** `getEntriesForCell`. */
  function CellEntries(db: Store, mode: ViewMode, sel: string, day: int, period: int): seq<Entry> {
    SlotEntries(EntriesBySlot(db, mode, sel), SlotKey(day, period))
  }

  /** Two slots of a grid cell's form have the same key only when they are
      the same slot: no other day and period, negative ones included, can
      land in a cell's list. */
  lemma SlotKeyInjective(a: int, b: int, c: nat, d: nat)
    ensures SlotKey(a, b) == SlotKey(c, d) <==> a == c && b == d
  {
    if SlotKey(a, b) == SlotKey(c, d) {
      SlotKeyParts(a, b, c, d);
    }
  }

  lemma SlotKeyParts(a: int, b: int, c: nat, d: nat)
    requires SlotKey(a, b) == SlotKey(c, d)
    ensures a == c && b == d
  {
    SlotKeyHead(a, b);
    SlotKeyHead(c, d);
    DigitsThenDash(IntToString(a), IntToString(b), IntToString(c), IntToString(d));
    ParseIntOfRendering(a);
    ParseIntOfRendering(b);
    ParseIntOfRendering(c);
    ParseIntOfRendering(d);
  }

  /** A key starts with a digit exactly when its day is not negative, and
      then the day's rendering is all digits. */
  lemma SlotKeyHead(a: int, b: int)
    ensures SlotKey(a, b) == IntToString(a) + "-" + IntToString(b)
    ensures IsDigit(SlotKey(a, b)[0]) <==> a >= 0
    ensures a >= 0 ==> AllDigits(IntToString(a))
  {
    assert SlotKey(a, b)[0] == IntToString(a)[0];
  }

  /** Two keys of digits, a dash and a tail agree exactly part by part. */
  lemma DigitsThenDash(x: string, u: string, y: string, v: string)
    requires AllDigits(x) && AllDigits(y) && x + "-" + u == y + "-" + v
    ensures x == y && u == v
  {
    DashAfterDigits(x, u);
    DashAfterDigits(y, v);
    var s := x + "-" + u;
    assert x == s[..|x|] && y == s[..|y|];
    assert u == s[|x| + 1..] && v == s[|y| + 1..];
  }

  /** The first `-` after a run of digits is the one that follows it. */
  lemma DashAfterDigits(x: string, u: string)
    requires AllDigits(x)
    ensures IndexOfChar(x + "-" + u, '-') == Some(|x|)
  {
    var s := x + "-" + u;
    assert s[|x|] == '-' && s[..|x|] == x;
    assert '-' !in x by {
      forall i | 0 <= i < |x| ensures x[i] != '-' {
        assert IsDigit(x[i]);
      }
    }
  }

  function InCell(events: seq<EventActivity>, mode: ViewMode, sel: string, day: int, period: int): Entry -> bool {
    (e: Entry) => sel != "" && Shows(events, mode, sel, e) && e.day == day && e.period == period
  }

  function AtSlot(day: int, period: int): Entry -> bool {
    (e: Entry) => e.day == day && e.period == period
  }

  /** Selecting by key is selecting by day and period. */
  lemma SlotFilter(es: seq<Entry>, day: nat, period: nat)
    ensures Filter(es, KeyIs(SlotKeyOf, SlotKey(day, period))) == Filter(es, AtSlot(day, period))
  {
    forall i | 0 <= i < |es| ensures KeyIs(SlotKeyOf, SlotKey(day, period))(es[i]) == AtSlot(day, period)(es[i]) {
      var k := SlotKey(day, period);
      assert KeyIs(SlotKeyOf, k)(es[i]) == (SlotKeyOf(es[i]) == k);
      assert SlotKeyOf(es[i]) == SlotKey(es[i].day, es[i].period);
      SlotKeyInjective(es[i].day, es[i].period, day, period);
    }
    FilterSame(es, KeyIs(SlotKeyOf, SlotKey(day, period)), AtSlot(day, period));
  }

  /** Each cell lists exactly the schedule's entries the view shows at that
      day and period, in schedule order; without a selection every cell is
      empty. */
  lemma CellEntriesSpec(db: Store, mode: ViewMode, sel: string, day: nat, period: nat)
    ensures CellEntries(db, mode, sel, day, period) == Filter(db.schedule, InCell(db.eventActivities, mode, sel, day, period))
    ensures sel == "" ==> CellEntries(db, mode, sel, day, period) == []
    ensures forall e :: e in CellEntries(db, mode, sel, day, period) <==>
      (e in db.schedule && sel != "" && Shows(db.eventActivities, mode, sel, e) && e.day == day && e.period == period)
  {
    var cell := InCell(db.eventActivities, mode, sel, day, period);
    if sel != "" {
      var shows := ShowsTest(db.eventActivities, mode, sel);
      var rel := Filter(db.schedule, shows);
      GroupByKeySpec(rel, SlotKeyOf, SlotKey(day, period));
      SlotFilter(rel, day, period);
      FilterFilter(db.schedule, shows, AtSlot(day, period), cell);
    } else {
      FilterNone(db.schedule, cell);
    }
    forall e ensures e in CellEntries(db, mode, sel, day, period) <==> e in db.schedule && cell(e) {
      FilterMembership(db.schedule, cell, e);
    }
  }

  // ---------------------------------------------------------------------
  // The selector

  /** An option of the selector: an id and the name shown for it. */
  datatype Choice = Choice(id: string, name: string)

  /** `${prefix} ${name} ${lastName}`. */
  function FullName(t: Teacher): string {
    t.prefix + " " + t.name + " " + t.lastName
  }

  /** The selector's options: the view's collection in order. */
  function Choices(db: Store, mode: ViewMode): (r: seq<Choice>)
    ensures mode == ClassView ==> |r| == |db.classGrades| && forall i | 0 <= i < |r| :: r[i].id == db.classGrades[i].id
    ensures mode == TeacherView ==> |r| == |db.teachers| && forall i | 0 <= i < |r| :: r[i].id == db.teachers[i].id
    ensures mode == RoomView ==> |r| == |db.rooms| && forall i | 0 <= i < |r| :: r[i].id == db.rooms[i].id
  {
    match mode
    case ClassView => MapSeq(db.classGrades, (c: ClassGrade) => Choice(c.id, c.name))
    case TeacherView => MapSeq(db.teachers, (t: Teacher) => Choice(t.id, FullName(t)))
    case RoomView => MapSeq(db.rooms, (r: Room) => Choice(r.id, r.name))
  }

  /** The selection a view starts with: its collection's first id, or
      nothing when the collection is empty. */
  function DefaultSelection(db: Store, mode: ViewMode): string {
    match mode
    case ClassView => if |db.classGrades| > 0 then db.classGrades[0].id else ""
    case TeacherView => if |db.teachers| > 0 then db.teachers[0].id else ""
    case RoomView => if |db.rooms| > 0 then db.rooms[0].id else ""
  }

  /** The starting selection is the selector's first option, or none when
      there are no options. */
  lemma DefaultIsFirstChoice(db: Store, mode: ViewMode)
    ensures Choices(db, mode) == [] ==> DefaultSelection(db, mode) == ""
    ensures Choices(db, mode) != [] ==> DefaultSelection(db, mode) == Choices(db, mode)[0].id
  {
  }

  // ---------------------------------------------------------------------
  // Cards

  /** The teachers that resolve among `ids`, in order; unknown ids are
      skipped. */
  function ResolveTeachers(ts: seq<Teacher>, ids: seq<string>): (r: seq<Teacher>)
    ensures |r| <= |ids|
    ensures forall t | t in r :: t in ts
  {
    if ids == [] then []
    else
      (match FindTeacher(ts, ids[0]) case Some(t) => [t] case None => []) + ResolveTeachers(ts, ids[1..])
  }

  function Resolves(ts: seq<Teacher>): string -> bool {
    (id: string) => FindTeacher(ts, id).Some?
  }

  /** One teacher per id that resolves, each the teacher that id names. */
  lemma ResolveTeachersSpec(ts: seq<Teacher>, ids: seq<string>)
    ensures |ResolveTeachers(ts, ids)| == |Filter(ids, Resolves(ts))|
    ensures forall t :: t in ResolveTeachers(ts, ids) <==> exists i | 0 <= i < |ids| :: FindTeacher(ts, ids[i]) == Some(t)
  {
    ResolveTeachersCount(ts, ids);
    forall t ensures t in ResolveTeachers(ts, ids) <==> exists i | 0 <= i < |ids| :: FindTeacher(ts, ids[i]) == Some(t) {
      ResolveTeachersMember(ts, ids, t);
    }
  }

  lemma {:induction false} ResolveTeachersCount(ts: seq<Teacher>, ids: seq<string>)
    ensures |ResolveTeachers(ts, ids)| == |Filter(ids, Resolves(ts))|
  {
    if ids != [] {
      ResolveTeachersCount(ts, ids[1..]);
    }
  }

  lemma {:induction false} ResolveTeachersMember(ts: seq<Teacher>, ids: seq<string>, t: Teacher)
    ensures t in ResolveTeachers(ts, ids) <==> exists i | 0 <= i < |ids| :: FindTeacher(ts, ids[i]) == Some(t)
  {
    if ids != [] {
      ResolveTeachersMember(ts, ids[1..], t);
      var head := match FindTeacher(ts, ids[0]) case Some(u) => [u] case None => [];
      assert ResolveTeachers(ts, ids) == head + ResolveTeachers(ts, ids[1..]);
      if exists i | 0 <= i < |ids| :: FindTeacher(ts, ids[i]) == Some(t) {
        var i :| 0 <= i < |ids| && FindTeacher(ts, ids[i]) == Some(t);
        if i > 0 {
          assert ids[1..][i - 1] == ids[i];
        }
      }
      if t in ResolveTeachers(ts, ids[1..]) {
        var i :| 0 <= i < |ids[1..]| && FindTeacher(ts, ids[1..][i]) == Some(t);
        assert FindTeacher(ts, ids[i + 1]) == Some(t);
      }
    }
  }

  /** The ids the teacher line is drawn from: a subject entry's own
      teachers; an event entry's own teachers when it has any, otherwise
      the event's defaults; nothing for an entry that is neither. */
  function LineTeacherIds(db: Store, e: Entry): seq<string> {
    if Filled(e.subjectId) then IdsOf(e.teacherIds)
    else if EventOf(db.eventActivities, e).Some? then
      if |IdsOf(e.teacherIds)| > 0 then IdsOf(e.teacherIds)
      else IdsOf(EventOf(db.eventActivities, e).value.affectedTeacherIds)
    else []
  }

  /** A card line: plain text, the "multiple teachers" label, or the
      "<n> classes" label, where an absent list renders `n` as
      `undefined`. */
  datatype Line = Plain(text: string) | MultipleTeachers | ClassCount(n: Option<nat>)

  /** `getTeacherDisplayString`. */
  function TeacherLine(db: Store, e: Entry): Line {
    var shown := ResolveTeachers(db.teachers, LineTeacherIds(db, e));
    if |shown| > 1 then MultipleTeachers
    else if |shown| == 1 then Plain(FullName(shown[0]))
    else Plain("")
  }

  /** The line is blank when no listed teacher resolves, names the one
      teacher that does, and reads "multiple" when two or more do. */
  lemma TeacherLineSpec(db: Store, e: Entry)
    ensures var n := |Filter(LineTeacherIds(db, e), Resolves(db.teachers))|;
      && (TeacherLine(db, e) == Plain("") <==> n == 0)
      && (TeacherLine(db, e) == MultipleTeachers <==> n > 1)
      && (n == 1 ==> exists t | t in db.teachers :: TeacherLine(db, e) == Plain(FullName(t))
                        && exists i | 0 <= i < |LineTeacherIds(db, e)| :: FindTeacher(db.teachers, LineTeacherIds(db, e)[i]) == Some(t))
  {
    var ids := LineTeacherIds(db, e);
    ResolveTeachersSpec(db.teachers, ids);
    var shown := ResolveTeachers(db.teachers, ids);
    if |shown| == 1 {
      assert shown[0] in shown;
      assert |FullName(shown[0])| >= 2;
    }
  }

  /** What a card shows: `entry.subjectId ? findSubject(...) :
      findEventActivity(entry.eventActivityId || '')`. */
  function CardItem(db: Store, e: Entry): Option<Workload.Item> {
    if Filled(e.subjectId) then
      match FindSubject(db.subjects, e.subjectId.value)
      case Some(s) => Some(Workload.SubjectItem(s))
      case None => None
    else
      match FindEvent(db.eventActivities, e.eventActivityId.UnwrapOr(""))
      case Some(ev) => Some(Workload.EventItem(ev))
      case None => None
  }

  /** `classGrade?.name || ''`. */
  function ClassName(db: Store, e: Entry): string {
    if Filled(e.classGradeId) then
      match FindClass(db.classGrades, e.classGradeId.value)
      case Some(c) => c.name
      case None => ""
    else ""
  }

  /** `room?.name || ''`. */
  function RoomName(db: Store, e: Entry): string {
    if Filled(e.roomId) then
      match FindRoom(db.rooms, e.roomId.value)
      case Some(r) => r.name
      case None => ""
    else ""
  }

  /** `item.affectedClassGradeIds?.length`: absent for a subject. */
  function AffectedCount(item: Workload.Item): Option<nat> {
    match item
    case SubjectItem(_) => None
    case EventItem(ev) => if ev.affectedClassGradeIds.Some? then Some(|ev.affectedClassGradeIds.value|) else None
  }

  /** The teacher view's first line, read as the code parses it:
      `(classGrade?.name || count > 1) ? countLabel : (count === 1 ? name : '')`. */
  function TeacherViewLine(db: Store, e: Entry, item: Workload.Item): Line {
    var n := AffectedCount(item);
    if ClassName(db, e) != "" || (n.Some? && n.value > 1) then ClassCount(n)
    else if n == Some(1) then
      match FindClass(db.classGrades, item.event.affectedClassGradeIds.value[0])
      case Some(c) => Plain(c.name)
      case None => Plain("")
    else Plain("")
  }

  datatype Card = Card(title: string, line1: Line, line2: Line, color: string, textColor: string)

  /** `renderGridCellContent`: nothing when the item does not resolve. */
  function CardOf(db: Store, mode: ViewMode, e: Entry): (r: Option<Card>)
    ensures r.Some? <==> CardItem(db, e).Some?
  {
    match CardItem(db, e)
    case None => None
    case Some(item) =>
      var (title, color, textColor) :=
        match item
        case SubjectItem(s) => (s.name, s.color, s.textColor)
        case EventItem(ev) => (ev.name, ev.color, ev.textColor);
      match mode
      case ClassView => Some(Card(title, TeacherLine(db, e), Plain(RoomName(db, e)), color, textColor))
      case TeacherView => Some(Card(title, TeacherViewLine(db, e, item), Plain(RoomName(db, e)), color, textColor))
      case RoomView => Some(Card(title, Plain(ClassName(db, e)), TeacherLine(db, e), color, textColor))
  }

  /** In the teacher view a resolved, named class never shows its name: the
      card shows the class-count label instead, with an undefined count
      for a subject; and an event naming two or more classes shows their
      number. */
  lemma TeacherViewShowsCount(db: Store, e: Entry)
    requires CardItem(db, e).Some?
    ensures ClassName(db, e) != "" ==> CardOf(db, TeacherView, e).value.line1 == ClassCount(AffectedCount(CardItem(db, e).value))
    ensures ClassName(db, e) != "" && Filled(e.subjectId) ==> CardOf(db, TeacherView, e).value.line1 == ClassCount(None)
    ensures CardItem(db, e).value.EventItem? && |IdsOf(CardItem(db, e).value.event.affectedClassGradeIds)| > 1 ==>
      CardOf(db, TeacherView, e).value.line1 == ClassCount(Some(|IdsOf(CardItem(db, e).value.event.affectedClassGradeIds)|))
  {
  }

  // ---------------------------------------------------------------------
  // Dropping onto a cell

  /** What a drop carries once its JSON parses: a scheduled card (copied
      when Ctrl or Cmd was held, otherwise moved), an unscheduled subject
      for a class, or something of another type. */
  datatype DragData =
    | ScheduledCard(id: string, copy: bool)
    | UnscheduledSubject(subjectId: Option<string>, classGradeId: Option<string>)
    | OtherData

  /** The fields the editor is opened with. */
  datatype Prefill = Prefill(
    subjectId: Option<string>, classGradeId: Option<string>, teacherIds: Option<seq<string>>, roomId: Option<string>)

  /** What a drop asks for: nothing, an added copy of an entry, a move, or
      the editor opened on the cell. */
  datatype DropEffect =
    | Ignored
    | AddCopy(draft: Entry)
    | MoveTo(id: string, day: int, period: int)
    | OpenEditor(day: int, period: int, prefill: Prefill)

  function FindEntry(s: seq<Entry>, id: string): (r: Option<Entry>)
    ensures r.Some? ==> r.value in s && r.value.id == id
    ensures r.None? <==> forall i | 0 <= i < |s| :: s[i].id != id
  {
    FindFirst(s, (e: Entry) => e.id == id)
  }

  /** `handleDrop`; `None` is drag data that is missing or does not parse.
      A copy carries the original without its id (left empty here), at the
      target slot. */
  function Drop(schedule: seq<Entry>, mode: ViewMode, sel: string, data: Option<DragData>, day: int, period: int)
    : DropEffect
  {
    match data
    case None => Ignored
    case Some(ScheduledCard(id, copy)) =>
      if copy then
        match FindEntry(schedule, id)
        case Some(orig) => AddCopy(orig.(id := "", day := day, period := period))
        case None => Ignored
      else MoveTo(id, day, period)
    case Some(UnscheduledSubject(subject, grade)) =>
      OpenEditor(day, period, Prefill(subject, grade,
        if mode == TeacherView then Some([sel]) else None,
        if mode == RoomView then Some(sel) else None))
    case Some(OtherData) => Ignored
  }

  /** The client after a drop: a copy is added under the fresh id `id`, a
      move goes through `moveSchedule`, anything else changes nothing. */
  function ApplyDrop(c: ClientState, effect: DropEffect, id: string): (r: Step)
    ensures !effect.AddCopy? && !effect.MoveTo? ==> r == Step(c, None)
  {
    match effect
    case AddCopy(draft) => AddEntry(c, draft, id)
    case MoveTo(eid, day, period) => MoveEntry(c, eid, day, period)
    case _ => Step(c, None)
  }

  /** A copy-drop appends the original with the fresh id and the target
      slot and leaves every existing entry as it was; copying an id that
      is not scheduled does nothing. */
  lemma CopyDropSpec(c: ClientState, mode: ViewMode, sel: string, eid: string, day: int, period: int, id: string)
    ensures var r := ApplyDrop(c, Drop(c.store.schedule, mode, sel, Some(ScheduledCard(eid, true)), day, period), id);
      && (FindEntry(c.store.schedule, eid).Some? ==>
            var orig := FindEntry(c.store.schedule, eid).value;
            && r.client.store.schedule == c.store.schedule + [orig.(id := id, day := day, period := period)]
            && r.client.store.schedule[..|c.store.schedule|] == c.store.schedule
            && r.client.store == c.store.(schedule := r.client.store.schedule))
      && (FindEntry(c.store.schedule, eid).None? ==> r == Step(c, None))
  {
    if FindEntry(c.store.schedule, eid).Some? {
      var orig := FindEntry(c.store.schedule, eid).value;
      assert Stamp(orig.(id := "", day := day, period := period), id) == orig.(id := id, day := day, period := period);
    }
  }

  /** A move-drop is `moveSchedule` of the dragged id to the target slot,
      whether or not the id is scheduled. */
  lemma MoveDropSpec(c: ClientState, mode: ViewMode, sel: string, eid: string, day: int, period: int, id: string)
    ensures ApplyDrop(c, Drop(c.store.schedule, mode, sel, Some(ScheduledCard(eid, false)), day, period), id)
      == MoveEntry(c, eid, day, period)
    ensures |ApplyDrop(c, Drop(c.store.schedule, mode, sel, Some(ScheduledCard(eid, false)), day, period), id).client.store.schedule|
      == |c.store.schedule|
  {
  }

  /** Dropping an unscheduled subject never touches the schedule: it opens
      the editor on the cell with the subject and class, plus the selected
      teacher in the teacher view or the selected room in the room view.
      Drag data that is missing, malformed or of another type is
      ignored. */
  lemma UnscheduledDropSpec(c: ClientState, mode: ViewMode, sel: string, data: Option<DragData>, day: int, period: int, id: string)
    requires data.None? || !data.value.ScheduledCard?
    ensures ApplyDrop(c, Drop(c.store.schedule, mode, sel, data, day, period), id) == Step(c, None)
    ensures (data.None? || data.value.OtherData?) ==> Drop(c.store.schedule, mode, sel, data, day, period) == Ignored
    ensures data.Some? && data.value.UnscheduledSubject? ==>
      var effect := Drop(c.store.schedule, mode, sel, data, day, period);
      && effect.OpenEditor? && effect.day == day && effect.period == period
      && effect.prefill.subjectId == data.value.subjectId && effect.prefill.classGradeId == data.value.classGradeId
      && (effect.prefill.teacherIds.Some? <==> mode == TeacherView)
      && (mode == TeacherView ==> effect.prefill.teacherIds.value == [sel])
      && (effect.prefill.roomId.Some? <==> mode == RoomView)
      && (mode == RoomView ==> effect.prefill.roomId.value == sel)
  {
  }
}
