/** The editor for one timetable entry: it opens on an existing entry, on
    a prefilled new entry or on an empty form, offers a subject form and an
    event form, fills in a class's homeroom, and on save either rejects the
    form or produces the entry to update or add. */
module ScheduleForm {
  import opened Wrappers
  import opened Entities
  import opened Client
  import opened Grid

  /** Which of the two forms is shown. */
  datatype EntryType = SubjectType | EventType

  /** The form's fields; an absent or undefined text field reads as empty. */
  datatype Form = Form(
    subjectId: string, teacherIds: seq<string>, roomId: string, classGradeId: string, eventActivityId: string)

  const EmptyForm: Form := Form("", [], "", "", "")

  /** The editor's state: the entry being edited, if any, the form type and
      the fields. */
  datatype Editor = Editor(editing: Option<Entry>, kind: EntryType, form: Form)

  // ---------------------------------------------------------------------
  // Opening

  /** The form an existing entry opens with. */
  function FormOf(e: Entry): Form {
    Form(e.subjectId.UnwrapOr(""), IdsOf(e.teacherIds), e.roomId.UnwrapOr(""),
      e.classGradeId.UnwrapOr(""), e.eventActivityId.UnwrapOr(""))
  }

  /** The form a prefill opens with: the prefilled fields over the empty
      form. */
  function PrefilledForm(p: Prefill): Form {
    Form(p.subjectId.UnwrapOr(""), p.teacherIds.UnwrapOr([]), p.roomId.UnwrapOr(""), p.classGradeId.UnwrapOr(""), "")
  }

  /** Opening the editor: an edited entry's fields, else the prefill over
      the empty form, else the empty form; the event form exactly when the
      edited entry names an event. */
  function Open(existing: Option<Entry>, prefill: Option<Prefill>): (r: Editor)
    ensures r.editing == existing
    ensures r.kind == EventType <==> existing.Some? && Filled(existing.value.eventActivityId)
    ensures existing.None? && prefill.None? ==> r.form == EmptyForm
    ensures existing.None? && prefill.Some? ==>
      && r.form.eventActivityId == ""
      && (prefill.value.teacherIds.None? ==> r.form.teacherIds == [])
      && (prefill.value.roomId.None? ==> r.form.roomId == "")
  {
    var kind := if existing.Some? && Filled(existing.value.eventActivityId) then EventType else SubjectType;
    match existing
    case Some(e) => Editor(existing, kind, FormOf(e))
    case None =>
      match prefill
      case Some(p) => Editor(existing, kind, PrefilledForm(p))
      case None => Editor(existing, kind, EmptyForm)
  }

  // ---------------------------------------------------------------------
  // Editing

  /** The text fields the form edits. */
  datatype TextField = SubjectField | RoomField | ClassField | EventField

  /** `handleChange` for a text field. */
  function SetText(f: Form, field: TextField, value: string): (r: Form)
    ensures r.teacherIds == f.teacherIds
    ensures r.subjectId == (if field == SubjectField then value else f.subjectId)
    ensures r.roomId == (if field == RoomField then value else f.roomId)
    ensures r.classGradeId == (if field == ClassField then value else f.classGradeId)
    ensures r.eventActivityId == (if field == EventField then value else f.eventActivityId)
  {
    match field
    case SubjectField => f.(subjectId := value)
    case RoomField => f.(roomId := value)
    case ClassField => f.(classGradeId := value)
    case EventField => f.(eventActivityId := value)
  }

  /** `handleChange` for the teachers. */
  function SetTeachers(f: Form, ids: seq<string>): (r: Form)
    ensures r.teacherIds == ids
    ensures r.(teacherIds := f.teacherIds) == f
  {
    f.(teacherIds := ids)
  }

  /** The homeroom effect: on a new subject entry with a class whose
      homeroom is set, the room becomes that homeroom. */
  function FillHomeroom(classes: seq<ClassGrade>, ed: Editor): (r: Editor)
    ensures r.editing == ed.editing && r.kind == ed.kind
    ensures r.form.(roomId := ed.form.roomId) == ed.form
  {
    if ed.editing.None? && ed.form.classGradeId != "" && ed.kind == SubjectType then
      match FindClass(classes, ed.form.classGradeId)
      case Some(c) => if Filled(c.homeroomId) then ed.(form := ed.form.(roomId := c.homeroomId.value)) else ed
      case None => ed
    else ed
  }

  /** Choosing a class: the field is set, then the homeroom effect runs. */
  function ChooseClass(classes: seq<ClassGrade>, ed: Editor, cid: string): Editor {
    FillHomeroom(classes, ed.(form := SetText(ed.form, ClassField, cid)))
  }

  /** The room is replaced exactly when a new subject entry gets a known
      class with a homeroom, and then by that homeroom. */
  lemma ChooseClassSpec(classes: seq<ClassGrade>, ed: Editor, cid: string)
    ensures var r := ChooseClass(classes, ed, cid);
      && r.form.classGradeId == cid
      && r.form.(roomId := ed.form.roomId, classGradeId := ed.form.classGradeId) == ed.form
      && (ed.editing.None? && ed.kind == SubjectType && cid != "" && FindClass(classes, cid).Some?
            && Filled(FindClass(classes, cid).value.homeroomId)
          ==> r.form.roomId == FindClass(classes, cid).value.homeroomId.value)
      && (ed.editing.Some? || ed.kind == EventType ==> r.form.roomId == ed.form.roomId)
  {
  }

  /** A homeroom fill is idempotent: running the effect again changes
      nothing. */
  lemma FillHomeroomIdempotent(classes: seq<ClassGrade>, ed: Editor)
    ensures FillHomeroom(classes, FillHomeroom(classes, ed)) == FillHomeroom(classes, ed)
  {
  }

  /** Opening the mounted editor. The editor stays mounted between uses and
      closing it keeps its form and type, while the edited-entry prop is
      reset on every close. So right after the form is set, the homeroom
      effect, which runs when the class field, the type or the edited
      entry changes, fires exactly when the opened class or type differs
      from those of the editor last shown (`shown`); for an existing entry
      it finds the entry set and does nothing. */
  function Reopen(classes: seq<ClassGrade>, shown: Editor, existing: Option<Entry>, prefill: Option<Prefill>)
    : (r: Editor)
    ensures existing.Some? ==> r == Open(existing, prefill)
    ensures r.editing == existing && r.kind == Open(existing, prefill).kind
    ensures r.form.(roomId := Open(existing, prefill).form.roomId) == Open(existing, prefill).form
    ensures existing.None? && prefill.Some? ==>
      var cid := prefill.value.classGradeId.UnwrapOr("");
      r.form.roomId ==
        if cid != "" && (cid != shown.form.classGradeId || shown.kind == EventType)
          && FindClass(classes, cid).Some? && Filled(FindClass(classes, cid).value.homeroomId)
        then FindClass(classes, cid).value.homeroomId.value
        else prefill.value.roomId.UnwrapOr("")
  {
    var ed := Open(existing, prefill);
    if ed.form.classGradeId != shown.form.classGradeId || ed.kind != shown.kind then FillHomeroom(classes, ed)
    else ed
  }

  /** A subject dropped on a class view, or an empty class cell clicked with
      a subject and teacher prefilled: when the class differs from the one
      last shown and has a homeroom, the room is filled in and the first
      save adds the entry in that room; the bare prefill has no room and
      would be refused. */
  lemma PrefilledSaveAccepted(classes: seq<ClassGrade>, shown: Editor, p: Prefill, day: int, period: int)
    requires Filled(p.subjectId) && p.teacherIds.Some? && |p.teacherIds.value| > 0 && p.roomId.None?
    requires Filled(p.classGradeId) && p.classGradeId.value != shown.form.classGradeId
    requires FindClass(classes, p.classGradeId.value).Some?
    requires Filled(FindClass(classes, p.classGradeId.value).value.homeroomId)
    ensures var saved := Save(Reopen(classes, shown, None, Some(p)), Some((day, period)));
      && saved.AddNew?
      && saved.draft.roomId == FindClass(classes, p.classGradeId.value).value.homeroomId
      && saved.draft.classGradeId == p.classGradeId && saved.draft.day == day && saved.draft.period == period
    ensures Save(Open(None, Some(p)), Some((day, period))) == Rejected
  {
    var ed := Reopen(classes, shown, None, Some(p));
    assert ed.form.roomId == FindClass(classes, p.classGradeId.value).value.homeroomId.value;
  }

  /** `handleEntryTypeChange`: the chosen type with every field empty. */
  function SwitchType(ed: Editor, kind: EntryType): (r: Editor)
    ensures r.kind == kind && r.form == EmptyForm && r.editing == ed.editing
  {
    Editor(ed.editing, kind, EmptyForm)
  }

  // ---------------------------------------------------------------------
  // Saving

  /** The fields a save writes over the entry. */
  datatype Payload = Payload(
    subjectId: Option<string>, teacherIds: Option<seq<string>>, roomId: Option<string>,
    classGradeId: Option<string>, eventActivityId: Option<string>)

  function NonEmpty(s: string): Option<string> {
    if s != "" then Some(s) else None
  }

  /** The payload of a form, or `None` when the form is rejected: a subject
      needs a subject, a teacher, a room and a class; an event needs the
      event and turns its empty optional fields into absent ones. */
  function PayloadOf(kind: EntryType, f: Form): Option<Payload> {
    match kind
    case SubjectType =>
      if f.subjectId == "" || |f.teacherIds| == 0 || f.roomId == "" || f.classGradeId == "" then None
      else Some(Payload(Some(f.subjectId), Some(f.teacherIds), Some(f.roomId), Some(f.classGradeId), None))
    case EventType =>
      if f.eventActivityId == "" then None
      else Some(Payload(None, if |f.teacherIds| > 0 then Some(f.teacherIds) else None, NonEmpty(f.roomId),
        NonEmpty(f.classGradeId), Some(f.eventActivityId)))
  }

  /** `{...base, ...payload}`: every payload field overrides. */
  function Overlay(base: Entry, p: Payload): Entry {
    base.(subjectId := p.subjectId, teacherIds := p.teacherIds, roomId := p.roomId,
      classGradeId := p.classGradeId, eventActivityId := p.eventActivityId)
  }

  /** What a save asks of the timetable: nothing (the form is rejected or
      has no target), an update of the edited entry, or a new entry at the
      selected cell (its id is left empty until it is added). */
  datatype Saved = Rejected | NoTarget | UpdateWith(entry: Entry) | AddNew(draft: Entry)

  /** `handleSave` with the routing of the saved object: one carrying an id
      updates, one without adds. */
  function Save(ed: Editor, cell: Option<(int, int)>): Saved {
    match PayloadOf(ed.kind, ed.form)
    case None => Rejected
    case Some(p) =>
      match ed.editing
      case Some(e) => UpdateWith(Overlay(e, p))
      case None =>
        match cell
        case Some((day, period)) => AddNew(Overlay(Entry("", day, period, None, None, None, None, None), p))
        case None => NoTarget
  }

  /** A save is rejected exactly when a required field is empty. */
  lemma SaveRejectedSpec(ed: Editor, cell: Option<(int, int)>)
    ensures Save(ed, cell) == Rejected <==>
      if ed.kind == SubjectType then
        ed.form.subjectId == "" || |ed.form.teacherIds| == 0 || ed.form.roomId == "" || ed.form.classGradeId == ""
      else ed.form.eventActivityId == ""
  {
  }

  /** An accepted subject save writes the four fields and clears the event;
      an accepted event save clears the subject and leaves each empty
      optional field absent. */
  lemma SavePayloadSpec(ed: Editor, cell: Option<(int, int)>)
    requires Save(ed, cell).UpdateWith? || Save(ed, cell).AddNew?
    ensures var e := if Save(ed, cell).UpdateWith? then Save(ed, cell).entry else Save(ed, cell).draft;
      && (ed.kind == SubjectType ==>
            && e.subjectId == Some(ed.form.subjectId) && ed.form.subjectId != ""
            && e.teacherIds == Some(ed.form.teacherIds) && |ed.form.teacherIds| > 0
            && e.roomId == Some(ed.form.roomId) && ed.form.roomId != ""
            && e.classGradeId == Some(ed.form.classGradeId) && ed.form.classGradeId != ""
            && e.eventActivityId == None)
      && (ed.kind == EventType ==>
            && e.subjectId == None
            && e.eventActivityId == Some(ed.form.eventActivityId) && ed.form.eventActivityId != ""
            && (e.teacherIds.None? <==> |ed.form.teacherIds| == 0)
            && (e.roomId.None? <==> ed.form.roomId == "")
            && (e.classGradeId.None? <==> ed.form.classGradeId == ""))
  {
  }

  /** An edit keeps the entry's id, day and period; a new entry takes the
      selected cell; with neither an entry nor a cell nothing is saved. */
  lemma SaveTargetSpec(ed: Editor, cell: Option<(int, int)>)
    ensures Save(ed, cell).UpdateWith? <==> ed.editing.Some? && PayloadOf(ed.kind, ed.form).Some?
    ensures Save(ed, cell).UpdateWith? ==>
      var e := Save(ed, cell).entry;
      e.id == ed.editing.value.id && e.day == ed.editing.value.day && e.period == ed.editing.value.period
    ensures Save(ed, cell).AddNew? <==> ed.editing.None? && cell.Some? && PayloadOf(ed.kind, ed.form).Some?
    ensures Save(ed, cell).AddNew? ==> Save(ed, cell).draft.day == cell.value.0 && Save(ed, cell).draft.period == cell.value.1
    ensures Save(ed, cell) == NoTarget <==> ed.editing.None? && cell.None? && PayloadOf(ed.kind, ed.form).Some?
  {
  }

  /** Switching the form type empties it, so saving straight after is
      rejected. */
  lemma SwitchThenSaveRejected(ed: Editor, kind: EntryType, cell: Option<(int, int)>)
    ensures Save(SwitchType(ed, kind), cell) == Rejected
  {
  }

  /** The entries that come back unchanged from opening and saving: an
      event entry with no subject and no empty optional field, or a subject
      entry with every field set and no event. */
  predicate Stable(e: Entry) {
    if Filled(e.eventActivityId) then
      && e.subjectId == None
      && (e.teacherIds.None? || |e.teacherIds.value| > 0)
      && e.roomId != Some("") && e.classGradeId != Some("")
    else
      && e.eventActivityId == None
      && Filled(e.subjectId) && e.teacherIds.Some? && |e.teacherIds.value| > 0
      && Filled(e.roomId) && Filled(e.classGradeId)
  }

  /** Opening an entry and saving it without a change updates it to itself
      exactly when it is stable. */
  lemma OpenSaveUnchanged(e: Entry, prefill: Option<Prefill>, cell: Option<(int, int)>)
    ensures Save(Open(Some(e), prefill), cell) == UpdateWith(e) <==> Stable(e)
  {
    var ed := Open(Some(e), prefill);
    if Filled(e.eventActivityId) {
      assert ed.kind == EventType;
      if Save(ed, cell) == UpdateWith(e) {
        assert e.roomId != Some("") by {
          assert e.roomId == NonEmpty(FormOf(e).roomId);
        }
        assert e.classGradeId != Some("") by {
          assert e.classGradeId == NonEmpty(FormOf(e).classGradeId);
        }
      }
    }
  }

  /** The timetable after a save: an update replaces the edited entry, an
      add appends the draft under the fresh id `id`, anything else changes
      nothing. */
  function ApplySave(c: ClientState, s: Saved, id: string): (r: Step)
    ensures (s.Rejected? || s.NoTarget?) ==> r == Step(c, None)
    ensures s.UpdateWith? ==> r == UpdateEntry(c, s.entry)
    ensures s.AddNew? ==> r.client.store.schedule == c.store.schedule + [s.draft.(id := id)]
  {
    match s
    case UpdateWith(e) => UpdateEntry(c, e)
    case AddNew(draft) => AddEntry(c, draft, id)
    case _ => Step(c, None)
  }
}
