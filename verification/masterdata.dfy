/** The master-data screens: one list view per kind of record and the form
    that adds or edits one record. A save appends a new record or replaces
    the edited one, rejects a new subject whose code is taken, colours new
    subjects and events, and can place a new event in the timetable at
    once; a delete drops the record. */
module MasterData {
  import opened Wrappers
  import opened Seqs
  import opened Entities
  import opened Actions
  import opened Client
  import opened MasterKinds
  import opened Socket
  import opened Transport

  /** The five list views. */
  datatype View = TeachersView | ClassesView | SubjectsView | RoomsView | EventsView

  /** `getDataType`. */
  function DataType(v: View): Kind {
    match v
    case TeachersView => Teachers
    case ClassesView => ClassGrades
    case SubjectsView => Subjects
    case RoomsView => Rooms
    case EventsView => EventActivities
  }

  /** Each kind has exactly one view. */
  lemma DataTypeBijective(v: View, w: View, k: Kind)
    ensures DataType(v) == DataType(w) <==> v == w
    ensures exists u :: DataType(u) == k
  {
    match k
    case Teachers => assert DataType(TeachersView) == k;
    case ClassGrades => assert DataType(ClassesView) == k;
    case Subjects => assert DataType(SubjectsView) == k;
    case Rooms => assert DataType(RoomsView) == k;
    case EventActivities => assert DataType(EventsView) == k;
  }

  // ---------------------------------------------------------------------
  // Lists keyed by id

  /** A save into a list: a new record is appended; an edit replaces every
      record carrying the edited id. */
  function SaveList<T>(data: seq<T>, id: T -> string, editing: Option<string>, x: T): (r: seq<T>)
    ensures editing.None? ==> r == data + [x]
    ensures editing.Some? ==> |r| == |data|
  {
    match editing
    case None => data + [x]
    case Some(eid) => MapSeq(data, (d: T) => if id(d) == eid then x else d)
  }

  /** A delete: every record carrying the id is dropped. */
  function DeleteList<T>(data: seq<T>, id: T -> string, k: string): seq<T> {
    Filter(data, (d: T) => id(d) != k)
  }

  /** A delete removes exactly the records with that id and keeps every
      other id's records in order. */
  lemma {:induction false} DeleteListSpec<T>(data: seq<T>, id: T -> string, k: string, other: string)
    ensures KeyFilter(DeleteList(data, id, k), id, k) == []
    ensures other != k ==> KeyFilter(DeleteList(data, id, k), id, other) == KeyFilter(data, id, other)
    ensures |DeleteList(data, id, k)| + |KeyFilter(data, id, k)| == |data|
  {
    if data != [] {
      var head := if id(data[0]) != k then [data[0]] else [];
      DeleteListSpec(data[1..], id, k, other);
      assert DeleteList(data, id, k) == head + DeleteList(data[1..], id, k);
      KeyFilterConcat(head, DeleteList(data[1..], id, k), id, k);
      KeyFilterConcat(head, DeleteList(data[1..], id, k), id, other);
      assert data == [data[0]] + data[1..];
      KeyFilterConcat([data[0]], data[1..], id, k);
      KeyFilterConcat([data[0]], data[1..], id, other);
    }
  }

  lemma DeleteListMembership<T>(data: seq<T>, id: T -> string, k: string, x: T)
    ensures x in DeleteList(data, id, k) <==> x in data && id(x) != k
  {
    FilterMembership(data, (d: T) => id(d) != k, x);
  }

  /** An edit that keeps the id replaces the records with that id by the
      new one, as many as there were, and keeps every other record in
      order. */
  lemma {:induction false} EditListSpec<T>(data: seq<T>, id: T -> string, eid: string, x: T, other: string)
    requires id(x) == eid
    ensures KeyFilter(SaveList(data, id, Some(eid), x), id, eid) == seq(|KeyFilter(data, id, eid)|, _ => x)
    ensures other != eid ==> KeyFilter(SaveList(data, id, Some(eid), x), id, other) == KeyFilter(data, id, other)
  {
    if data != [] {
      var f := (d: T) => if id(d) == eid then x else d;
      EditListSpec(data[1..], id, eid, x, other);
      assert SaveList(data, id, Some(eid), x) == [f(data[0])] + SaveList(data[1..], id, Some(eid), x);
      KeyFilterConcat([f(data[0])], SaveList(data[1..], id, Some(eid), x), id, eid);
      KeyFilterConcat([f(data[0])], SaveList(data[1..], id, Some(eid), x), id, other);
      assert data == [data[0]] + data[1..];
      KeyFilterConcat([data[0]], data[1..], id, eid);
      KeyFilterConcat([data[0]], data[1..], id, other);
    }
  }

  /** Deleting a freshly added record restores the list. */
  lemma AddThenDelete<T>(data: seq<T>, id: T -> string, x: T)
    requires forall i | 0 <= i < |data| :: id(data[i]) != id(x)
    ensures DeleteList(SaveList(data, id, None, x), id, id(x)) == data
  {
    FilterConcat(data, [x], (d: T) => id(d) != id(x));
    FilterAll(data, (d: T) => id(d) != id(x));
  }

  function TeacherId(t: Teacher): string { t.id }
  function ClassId(c: ClassGrade): string { c.id }
  function SubjectId(s: Subject): string { s.id }
  function RoomId(r: Room): string { r.id }
  function EventId(e: EventActivity): string { e.id }

  // ---------------------------------------------------------------------
  // The list view

  /** One record of any kind. */
  datatype Item =
    | TeacherItem(teacher: Teacher)
    | ClassItem(grade: ClassGrade)
    | SubjectItem(subject: Subject)
    | RoomItem(room: Room)
    | EventItem(event: EventActivity)

  function KindOfItem(x: Item): Kind {
    match x
    case TeacherItem(_) => Teachers
    case ClassItem(_) => ClassGrades
    case SubjectItem(_) => Subjects
    case RoomItem(_) => Rooms
    case EventItem(_) => EventActivities
  }

  function ItemId(x: Item): string {
    match x
    case TeacherItem(t) => t.id
    case ClassItem(c) => c.id
    case SubjectItem(s) => s.id
    case RoomItem(r) => r.id
    case EventItem(e) => e.id
  }

  /** Whether a subject already carries the code. */
  function CodeTaken(subjects: seq<Subject>, code: string): (b: bool)
    ensures b <==> exists i | 0 <= i < |subjects| :: subjects[i].subjectCode == code
  {
    FindFirst(subjects, (s: Subject) => s.subjectCode == code).Some?
  }

  function Recolor(s: Subject, pick: ColorPair): Subject {
    s.(color := pick.color, textColor := pick.textColor)
  }

  function RecolorEvent(e: EventActivity, pick: ColorPair): EventActivity {
    e.(color := pick.color, textColor := pick.textColor)
  }

  /** What saving a record asks of the timetable: nothing when a new
      subject's code is taken, otherwise the new list and, for a new event
      with a slot, the event to place there. */
  datatype Outcome =
    | DuplicateCode
    | Replace(data: Collection, place: Option<(EventActivity, int, int)>)

  /** `handleSave` of the list view. `editing` is the id of the record the
      form was opened on, `None` for a new one; `pick` is the palette
      colour drawn for a new subject or event. */
  function HandleSave(db: Store, editing: Option<string>, x: Item, pick: ColorPair, slot: Option<(int, int)>): (r: Outcome)
    ensures r.Replace? ==> IsMasterData(r.data) && CollectionKey(r.data) == Key(KindOfItem(x))
  {
    match x
    case TeacherItem(t) => Replace(TeacherList(SaveList(db.teachers, TeacherId, editing, t)), None)
    case ClassItem(c) => Replace(ClassList(SaveList(db.classGrades, ClassId, editing, c)), None)
    case RoomItem(rm) => Replace(RoomList(SaveList(db.rooms, RoomId, editing, rm)), None)
    case SubjectItem(s) =>
      if editing.None? && CodeTaken(db.subjects, s.subjectCode) then DuplicateCode
      else
        var saved := if editing.None? then Recolor(s, pick) else s;
        Replace(SubjectList(SaveList(db.subjects, SubjectId, editing, saved)), None)
    case EventItem(e) =>
      var saved := if editing.None? then RecolorEvent(e, pick) else e;
      Replace(EventList(SaveList(db.eventActivities, EventId, editing, saved)),
        if editing.None? && slot.Some? then Some((saved, slot.value.0, slot.value.1)) else None)
  }

  /** A new subject is rejected exactly when its code is taken; an edit is
      never checked. A new subject or event is appended with the picked
      colours; an edit replaces by id. */
  lemma HandleSaveSpec(db: Store, editing: Option<string>, x: Item, pick: ColorPair, slot: Option<(int, int)>)
    ensures HandleSave(db, editing, x, pick, slot) == DuplicateCode <==>
      editing.None? && x.SubjectItem? && exists i | 0 <= i < |db.subjects| :: db.subjects[i].subjectCode == x.subject.subjectCode
    ensures editing.None? && x.SubjectItem? && !CodeTaken(db.subjects, x.subject.subjectCode) ==>
      HandleSave(db, editing, x, pick, slot).data == SubjectList(db.subjects + [Recolor(x.subject, pick)])
    ensures editing.None? && x.EventItem? ==>
      HandleSave(db, editing, x, pick, slot).data == EventList(db.eventActivities + [RecolorEvent(x.event, pick)])
    ensures editing.None? && x.TeacherItem? ==>
      HandleSave(db, editing, x, pick, slot).data == TeacherList(db.teachers + [x.teacher])
    ensures editing.Some? && x.SubjectItem? ==>
      HandleSave(db, editing, x, pick, slot).data == SubjectList(SaveList(db.subjects, SubjectId, editing, x.subject))
  {
  }

  /** A placement is asked for exactly for a new event with a slot, and it
      places the event as saved, colours included. */
  lemma PlacementSpec(db: Store, editing: Option<string>, x: Item, pick: ColorPair, slot: Option<(int, int)>)
    ensures var r := HandleSave(db, editing, x, pick, slot);
      r.Replace? && r.place.Some? <==> x.EventItem? && editing.None? && slot.Some?
    ensures var r := HandleSave(db, editing, x, pick, slot);
      r.Replace? && r.place.Some? ==>
        r.place.value == (RecolorEvent(x.event, pick), slot.value.0, slot.value.1)
        && r.data.events[|r.data.events| - 1] == r.place.value.0
  {
  }

  /** The actions that go out on the hook: all of them while its current
      socket is open, none otherwise. */
  function Delivered(h: Hook, acts: seq<Action>): seq<Action> {
    if |h.sockets| > 0 && Current(h) == Open then acts else []
  }

  function SentList(s: Option<Action>): seq<Action> {
    if s.Some? then [s.value] else []
  }

  /** The client after a save: the list is replaced and sent, then the
      placement, if any, is added under fresh ids and sent; the actions in
      the order they were sent. */
  function ApplyOutcome(c: ClientState, o: Outcome, ids: seq<string>): (r: (ClientState, seq<Action>))
    requires o.Replace? ==> IsMasterData(o.data)
    requires o.Replace? && o.place.Some? ==> |ids| >= BulkSize(o.place.value.0)
  {
    match o
    case DuplicateCode => (c, [])
    case Replace(data, place) =>
      var s1 := ReplaceMasterData(c, data);
      match place
      case None => (s1.client, SentList(s1.sent))
      case Some((ev, day, period)) =>
        var s2 := BulkAddEvent(s1.client, ev, day, period, ids);
        (s2.client, SentList(s1.sent) + SentList(s2.sent))
  }

  /** A rejected save changes nothing; an accepted one sends the list
      update and then the placement, adds the placed entries to the
      schedule and nothing else. */
  lemma ApplyOutcomeSpec(c: ClientState, o: Outcome, ids: seq<string>)
    requires o.Replace? ==> IsMasterData(o.data)
    requires o.Replace? && o.place.Some? ==> |ids| >= BulkSize(o.place.value.0)
    ensures o.DuplicateCode? ==> ApplyOutcome(c, o, ids) == (c, [])
    ensures o.Replace? ==>
      ApplyOutcome(c, o, ids).1 == Delivered(c.hook, [UpdateMasterData(CollectionKey(o.data), o.data)]
        + (if o.place.Some? then [BulkAddScheduleForEvent(o.place.value.0, o.place.value.1, o.place.value.2)] else []))
    ensures o.Replace? ==>
      ApplyOutcome(c, o, ids).0.store.schedule == c.store.schedule
        + (if o.place.Some? then BulkEntries(o.place.value.0, o.place.value.1, o.place.value.2, ids) else [])
  {
    if o.Replace? {
      var s1 := ReplaceMasterData(c, o.data);
      assert s1.client.hook == c.hook;
    }
  }

  /** `handleDelete`: the view's list without the records carrying the id. */
  function HandleDelete(db: Store, v: View, id: string): (r: Collection)
    ensures IsMasterData(r) && CollectionKey(r) == Key(DataType(v))
  {
    match v
    case TeachersView => TeacherList(DeleteList(db.teachers, TeacherId, id))
    case ClassesView => ClassList(DeleteList(db.classGrades, ClassId, id))
    case SubjectsView => SubjectList(DeleteList(db.subjects, SubjectId, id))
    case RoomsView => RoomList(DeleteList(db.rooms, RoomId, id))
    case EventsView => EventList(DeleteList(db.eventActivities, EventId, id))
  }

  /** A deleted teacher is gone and every other teacher stays, in order. */
  lemma DeleteTeacherSpec(db: Store, id: string, other: string)
    ensures forall t :: t in HandleDelete(db, TeachersView, id).teachers <==> t in db.teachers && t.id != id
    ensures other != id ==> KeyFilter(HandleDelete(db, TeachersView, id).teachers, TeacherId, other) == KeyFilter(db.teachers, TeacherId, other)
  {
    forall t ensures t in HandleDelete(db, TeachersView, id).teachers <==> t in db.teachers && t.id != id {
      DeleteListMembership(db.teachers, TeacherId, id, t);
    }
    DeleteListSpec(db.teachers, TeacherId, id, other);
  }

  // ---------------------------------------------------------------------
  // The form

  /** `generateId`'s prefix per kind; the rest of the id is random. */
  function NewId(k: Kind, suffix: string): (id: string)
    ensures |id| >= 2 && id[..2] == Prefix(k)
  {
    Prefix(k) + suffix
  }

  /** `getInitialState` without the event's slot: the edited record with
      empty fields read as empty and unset defaults filled, or a blank
      record under a new id. A room's falsy capacity becomes 1; an unset
      `isAcademic` or `calculateWorkingHour` becomes true. */
  function InitialItem(k: Kind, existing: Option<Item>, suffix: string): (r: Item)
    requires existing.Some? ==> KindOfItem(existing.value) == k
    ensures KindOfItem(r) == k
    ensures existing.Some? && ItemId(existing.value) != "" ==> ItemId(r) == ItemId(existing.value)
    ensures existing.None? || ItemId(existing.value) == "" ==> ItemId(r) == NewId(k, suffix)
  {
    var id := if existing.Some? && ItemId(existing.value) != "" then ItemId(existing.value) else NewId(k, suffix);
    match k
    case Teachers =>
      (match existing
      case Some(TeacherItem(t)) => TeacherItem(t.(id := id))
      case _ => TeacherItem(Teacher(id, "", "", "", "", "")))
    case ClassGrades =>
      (match existing
      case Some(ClassItem(c)) =>
        ClassItem(c.(id := id, advisorIds := Some(IdsOf(c.advisorIds)), homeroomId := Some(c.homeroomId.UnwrapOr(""))))
      case _ => ClassItem(ClassGrade(id, "", "", Some([]), Some(""))))
    case Subjects =>
      (match existing
      case Some(SubjectItem(s)) => SubjectItem(s.(id := id, isAcademic := Some(s.isAcademic.UnwrapOr(true))))
      case _ => SubjectItem(Subject(id, "", "", "", "", Some(true), "")))
    case Rooms =>
      (match existing
      case Some(RoomItem(rm)) =>
        RoomItem(rm.(id := id, capacity := if rm.capacity.Some? && rm.capacity.value != 0 then rm.capacity else Some(1)))
      case _ => RoomItem(Room(id, "", Some(1))))
    case EventActivities =>
      (match existing
      case Some(EventItem(e)) =>
        EventItem(e.(id := id, affectedTeacherIds := Some(IdsOf(e.affectedTeacherIds)),
          affectedClassGradeIds := Some(IdsOf(e.affectedClassGradeIds)),
          calculateWorkingHour := Some(e.calculateWorkingHour.UnwrapOr(true))))
      case _ => EventItem(EventActivity(id, "", "", "", Some([]), Some([]), Some(true))))
  }

  /** The records the form opens on unchanged: an id is set, and every
      field the form defaults is already present (a room's capacity is
      non-zero). */
  predicate Normal(x: Item) {
    && ItemId(x) != ""
    && match x
       case TeacherItem(_) => true
       case ClassItem(c) => c.advisorIds.Some? && c.homeroomId.Some?
       case SubjectItem(s) => s.isAcademic.Some?
       case RoomItem(rm) => rm.capacity.Some? && rm.capacity.value != 0
       case EventItem(e) => e.affectedTeacherIds.Some? && e.affectedClassGradeIds.Some? && e.calculateWorkingHour.Some?
  }

  /** Opening the form on a record gives that record back exactly when it
      is normal; a room's zero capacity, an unset flag or a missing list is
      filled in, and `false` flags are kept. */
  lemma OpenKeepsNormal(x: Item, suffix: string)
    ensures InitialItem(KindOfItem(x), Some(x), suffix) == x <==> Normal(x)
    ensures x.SubjectItem? && x.subject.isAcademic == Some(false) ==>
      InitialItem(KindOfItem(x), Some(x), suffix).subject.isAcademic == Some(false)
    ensures x.EventItem? && x.event.calculateWorkingHour == Some(false) ==>
      InitialItem(KindOfItem(x), Some(x), suffix).event.calculateWorkingHour == Some(false)
  {
    var r := InitialItem(KindOfItem(x), Some(x), suffix);
    if ItemId(x) == "" {
      assert ItemId(r) == NewId(KindOfItem(x), suffix);
      assert |ItemId(r)| >= 2;
    }
  }

  /** Why the form refuses to save. */
  datatype Refusal = NameRequired | FillAllFields | CodeRequired

  /** The form's state: the record and, for an event, the day and period
      chosen for placing it (unchosen is `None`). */
  datatype FormState = FormState(item: Item, day: Option<nat>, period: Option<nat>)

  /** What the form hands to the list view. */
  datatype Submitted = Refused(why: Refusal) | Submit(item: Item, slot: Option<(int, int)>)

  function ItemName(x: Item): string {
    match x
    case TeacherItem(t) => t.name
    case ClassItem(c) => c.name
    case SubjectItem(s) => s.name
    case RoomItem(rm) => rm.name
    case EventItem(e) => e.name
  }

  /** `handleSave` of the form: a name is always required, a teacher's
      prefix, last name, department and code, and a subject's code; a slot
      is handed on only for a new event with both a day and a period. */
  function FormSave(f: FormState, isNew: bool): (r: Submitted)
    ensures r.Submit? ==> r.item == f.item
  {
    if ItemName(f.item) == "" then Refused(NameRequired)
    else if f.item.TeacherItem? && (f.item.teacher.prefix == "" || f.item.teacher.lastName == ""
      || f.item.teacher.department == "" || f.item.teacher.teacherCode == "") then Refused(FillAllFields)
    else if f.item.SubjectItem? && f.item.subject.subjectCode == "" then Refused(CodeRequired)
    else Submit(f.item, if f.item.EventItem? && isNew && f.day.Some? && f.period.Some?
      then Some((f.day.value, f.period.value)) else None)
  }

  /** The form is refused exactly when a required field is empty, and a
      slot goes out exactly for a new event with a day and a period. */
  lemma FormSaveSpec(f: FormState, isNew: bool)
    ensures FormSave(f, isNew).Submit? <==>
      && ItemName(f.item) != ""
      && (f.item.TeacherItem? ==>
            (f.item.teacher.prefix != "" && f.item.teacher.lastName != ""
             && f.item.teacher.department != "" && f.item.teacher.teacherCode != ""))
      && (f.item.SubjectItem? ==> f.item.subject.subjectCode != "")
    ensures FormSave(f, isNew).Submit? ==>
      (FormSave(f, isNew).slot.Some? <==> f.item.EventItem? && isNew && f.day.Some? && f.period.Some?)
  {
  }

  /** A new event saved from the form with a slot is appended with the
      picked colours and placed at that slot, after the list update. */
  lemma NewEventPlaced(db: Store, f: FormState, pick: ColorPair)
    requires f.item.EventItem? && f.item.event.name != "" && f.day.Some? && f.period.Some?
    ensures var s := FormSave(f, true);
      && s.Submit?
      && HandleSave(db, None, s.item, pick, s.slot)
        == Replace(EventList(db.eventActivities + [RecolorEvent(f.item.event, pick)]),
             Some((RecolorEvent(f.item.event, pick), f.day.value as int, f.period.value as int)))
  {
  }

  /** The select-all flag as the form computes it on opening: there is at
      least one record and the list holds as many ids as there are. */
  function AllSelected(count: nat, chosen: Option<seq<string>>): bool {
    count > 0 && chosen.Some? && |chosen.value| == count
  }

  /** The flags the form opens with: only an event's, and only for lists
      that cover every teacher or class by count. */
  function InitialFlags(k: Kind, existing: Option<Item>, teachers: seq<Teacher>, classes: seq<ClassGrade>): (r: (bool, bool))
    ensures k != EventActivities ==> r == (false, false)
  {
    if k == EventActivities then
      var e := if existing.Some? && existing.value.EventItem? then Some(existing.value.event) else None;
      (AllSelected(|teachers|, if e.Some? then e.value.affectedTeacherIds else None),
       AllSelected(|classes|, if e.Some? then e.value.affectedClassGradeIds else None))
    else (false, false)
  }

  /** Toggling select-all: the flag follows the box and the list becomes
      every id or none. */
  function ToggleAll(ids: seq<string>, checked: bool): (r: (bool, seq<string>))
    ensures r.0 == checked
  {
    (checked, if checked then ids else [])
  }

  /** After a toggle the flag agrees with the flag the form would compute
      from the new list, whenever there is at least one record. */
  lemma ToggleAgreesWithFlag(teachers: seq<Teacher>, checked: bool)
    requires |teachers| > 0
    ensures var r := ToggleAll(MapSeq(teachers, TeacherId), checked);
      AllSelected(|teachers|, Some(r.1)) == r.0
  {
  }

  /** Toggling on then off empties the list; off then on selects every
      id. */
  lemma ToggleTwice(ids: seq<string>)
    ensures ToggleAll(ToggleAll(ids, true).1, false).1 == []
    ensures ToggleAll(ids, true).1 == ids
  {
  }
}
