/** The closed vocabulary of changes a client sends to the server, and the
    schedule list operations both sides apply: append with a fresh id,
    replace by id, filter out by id and move by id. */
module Actions {
  import opened Wrappers
  import opened Seqs
  import opened JsonValues
  import opened Entities

  /** The replacement list of an `updateMasterData` payload, tagged with the
      record type its items are read as. */
  datatype Collection =
    | TeacherList(teachers: seq<Teacher>)
    | SubjectList(subjects: seq<Subject>)
    | EventList(events: seq<EventActivity>)
    | RoomList(rooms: seq<Room>)
    | ClassList(classes: seq<ClassGrade>)
    | EntryList(entries: seq<Entry>)

  /** The top-level state key a list of this record type is stored under. */
  function CollectionKey(c: Collection): (k: string)
    ensures k in StateKeys
  {
    match c
    case TeacherList(_) => "teachers"
    case SubjectList(_) => "subjects"
    case EventList(_) => "eventActivities"
    case RoomList(_) => "rooms"
    case ClassList(_) => "classGrades"
    case EntryList(_) => "schedule"
  }

  /** The five master-data collections a client edits through forms and
      imports; the schedule is not one of them. */
  predicate IsMasterData(c: Collection) {
    !c.EntryList?
  }

  /** The top-level keys of the shared state, in declaration order. */
  const StateKeys: seq<string> := [
    "schedule", "teachers", "subjects", "eventActivities", "rooms", "classGrades",
    "settings", "institutionDetails", "academicCalendar", "printSettings"]

  /** One wire message. `AddSchedule` carries an entry whose id the receiver
      overwrites; `UpdateMasterData` carries the key as a plain string, so a
      message may name a key that does not exist; `Unknown` is any other
      `type`. */
  datatype Action =
    | AddSchedule(draft: Entry)
    | BulkAddScheduleForEvent(event: EventActivity, day: int, period: int)
    | UpdateSchedule(entry: Entry)
    | DeleteSchedule(id: string)
    | MoveSchedule(id: string, newDay: int, newPeriod: int)
    | UpdateMasterData(key: string, data: Collection)
    | SetSettings(patch: Obj)
    | SetInstitutionDetails(patch: Obj)
    | SetAcademicCalendar(patch: Obj)
    | SetPrintSettings(patch: Obj)
    | ClearAllData
    | Unknown(kind: string)

  /** `state[key] = data` for a list of the key's record type. */
  function SetCollection(st: Store, c: Collection): (r: Store)
    ensures c.TeacherList? ==> r == st.(teachers := c.teachers)
    ensures c.SubjectList? ==> r == st.(subjects := c.subjects)
    ensures c.EventList? ==> r == st.(eventActivities := c.events)
    ensures c.RoomList? ==> r == st.(rooms := c.rooms)
    ensures c.ClassList? ==> r == st.(classGrades := c.classes)
    ensures c.EntryList? ==> r == st.(schedule := c.entries)
    ensures IsMasterData(c) ==> r.schedule == st.schedule
  {
    match c
    case TeacherList(ts) => st.(teachers := ts)
    case SubjectList(ss) => st.(subjects := ss)
    case EventList(es) => st.(eventActivities := es)
    case RoomList(rs) => st.(rooms := rs)
    case ClassList(cs) => st.(classGrades := cs)
    case EntryList(es) => st.(schedule := es)
  }

  /** The actions that touch the schedule list. */
  predicate IsScheduleAction(a: Action) {
    a.AddSchedule? || a.BulkAddScheduleForEvent? || a.UpdateSchedule? || a.DeleteSchedule? || a.MoveSchedule?
  }

  // ---------------------------------------------------------------------
  // Fresh ids

  /** The classes a bulk add creates entries for: the event's affected
      classes when that list is present and non-empty. */
  function BulkClasses(ev: EventActivity): seq<string> {
    IdsOf(ev.affectedClassGradeIds)
  }

  /** The number of entries a bulk add creates: one per affected class, or a
      single class-less entry when there is none. */
  function BulkSize(ev: EventActivity): (n: nat)
    ensures n >= 1
    ensures n == |BulkClasses(ev)| || (BulkClasses(ev) == [] && n == 1)
  {
    if |BulkClasses(ev)| > 0 then |BulkClasses(ev)| else 1
  }

  /** How many fresh ids applying an action consumes. */
  function IdsNeeded(a: Action): (n: nat)
    ensures n > 0 <==> a.AddSchedule? || a.BulkAddScheduleForEvent?
  {
    match a
    case AddSchedule(_) => 1
    case BulkAddScheduleForEvent(ev, _, _) => BulkSize(ev)
    case _ => 0
  }

  /** A supply of ids that are pairwise distinct and unused by the schedule;
      stands in for `uuidv4`. */
  predicate FreshIds(ids: seq<string>, s: seq<Entry>) {
    NoDup(ids) && forall i | 0 <= i < |ids| :: ids[i] !in EntryIds(s)
  }

  // ---------------------------------------------------------------------
  // List operations

  /** `{ ...draft, id }`: the draft with its id overwritten. */
  function Stamp(draft: Entry, id: string): (e: Entry)
    ensures e.id == id
    ensures e.(id := draft.id) == draft
  {
    draft.(id := id)
  }

  /** The entries a bulk add creates, in the order of the affected classes,
      the i-th taking the i-th fresh id. */
  function BulkEntries(ev: EventActivity, day: int, period: int, ids: seq<string>): (r: seq<Entry>)
    requires |ids| >= BulkSize(ev)
    ensures |r| == BulkSize(ev)
    ensures forall i | 0 <= i < |r| ::
      r[i].id == ids[i] && r[i].day == day && r[i].period == period && r[i] == EventEntry(ids[i], day, period, ev.id, r[i].classGradeId)
    ensures BulkClasses(ev) != [] ==> forall i | 0 <= i < |r| :: r[i].classGradeId == Some(BulkClasses(ev)[i])
    ensures BulkClasses(ev) == [] ==> r[0].classGradeId.None?
  {
    var classes := BulkClasses(ev);
    if |classes| > 0 then
      seq(|classes|, i requires 0 <= i < |classes| => EventEntry(ids[i], day, period, ev.id, Some(classes[i])))
    else
      [EventEntry(ids[0], day, period, ev.id, None)]
  }

  /** `s.map(x => x.id === e.id ? e : x)`. */
  function ReplaceById(s: seq<Entry>, e: Entry): (r: seq<Entry>)
    ensures |r| == |s|
    ensures forall i | 0 <= i < |s| :: s[i].id == e.id ==> r[i] == e
    ensures forall i | 0 <= i < |s| :: s[i].id != e.id ==> r[i] == s[i]
  {
    seq(|s|, i requires 0 <= i < |s| => if s[i].id == e.id then e else s[i])
  }

  /** `s.filter(x => x.id !== id)`. */
  function RemoveById(s: seq<Entry>, id: string): (r: seq<Entry>)
    ensures |r| <= |s|
    ensures forall i | 0 <= i < |r| :: r[i].id != id
  {
    if s == [] then [] else (if s[0].id == id then [] else [s[0]]) + RemoveById(s[1..], id)
  }

  /** `s.map(x => x.id === id ? { ...x, day, period } : x)`. */
  function MoveById(s: seq<Entry>, id: string, day: int, period: int): (r: seq<Entry>)
    ensures |r| == |s|
    ensures forall i | 0 <= i < |s| :: s[i].id == id ==> r[i].(day := s[i].day, period := s[i].period) == s[i]
    ensures forall i | 0 <= i < |s| :: s[i].id == id ==> r[i].day == day && r[i].period == period
    ensures forall i | 0 <= i < |s| :: s[i].id != id ==> r[i] == s[i]
  {
    seq(|s|, i requires 0 <= i < |s| => if s[i].id == id then s[i].(day := day, period := period) else s[i])
  }

  // ---------------------------------------------------------------------
  // Properties of the list operations

  /** Replacing and moving keep every entry's id where it was. */
  lemma IdsKept(s: seq<Entry>, e: Entry, id: string, day: int, period: int)
    ensures EntryIds(ReplaceById(s, e)) == EntryIds(s)
    ensures EntryIds(MoveById(s, id, day, period)) == EntryIds(s)
  {
  }

  /** An update or a move naming an id the schedule does not hold is a
      no-op. */
  lemma AbsentIdNoOp(s: seq<Entry>, e: Entry, day: int, period: int)
    requires e.id !in EntryIds(s)
    ensures ReplaceById(s, e) == s
    ensures MoveById(s, e.id, day, period) == s
    ensures RemoveById(s, e.id) == s
  {
    assert forall i | 0 <= i < |s| :: s[i].id != e.id by {
      forall i | 0 <= i < |s| ensures s[i].id != e.id {
        assert EntryIds(s)[i] == s[i].id;
      }
    }
    RemoveAbsent(s, e.id);
  }

  lemma {:induction false} RemoveAbsent(s: seq<Entry>, id: string)
    requires forall i | 0 <= i < |s| :: s[i].id != id
    ensures RemoveById(s, id) == s
  {
    if s != [] {
      RemoveAbsent(s[1..], id);
    }
  }

  /** Replacing twice with the same entry is replacing once. */
  lemma ReplaceIdempotent(s: seq<Entry>, e: Entry)
    ensures ReplaceById(ReplaceById(s, e), e) == ReplaceById(s, e)
  {
  }

  /** Deleting keeps exactly the entries carrying other ids. */
  lemma {:induction false} RemoveMembership(s: seq<Entry>, id: string, x: Entry)
    ensures x in RemoveById(s, id) <==> x in s && x.id != id
  {
    if s != [] {
      RemoveMembership(s[1..], id, x);
      assert x in s <==> x == s[0] || x in s[1..];
    }
  }

  /** Deleting removes as many entries as carry the id. */
  lemma {:induction false} RemoveCount(s: seq<Entry>, id: string)
    ensures |RemoveById(s, id)| == |s| - Occurrences(EntryIds(s), id)
  {
    if s != [] {
      RemoveCount(s[1..], id);
      assert EntryIds(s)[1..] == EntryIds(s[1..]);
    }
  }

  /** Deleting distributes over concatenation, so the survivors keep their
      relative order. */
  lemma {:induction false} RemoveConcat(a: seq<Entry>, b: seq<Entry>, id: string)
    ensures RemoveById(a + b, id) == RemoveById(a, id) + RemoveById(b, id)
  {
    if a == [] {
      assert a + b == b;
    } else {
      assert (a + b)[1..] == a[1..] + b;
      RemoveConcat(a[1..], b, id);
    }
  }

  /** With unique ids, moving the entry `x` is updating it to `x` at the new
      day and period. */
  lemma MoveIsUpdate(s: seq<Entry>, x: Entry, day: int, period: int)
    requires NoDup(EntryIds(s)) && x in s
    ensures MoveById(s, x.id, day, period) == ReplaceById(s, x.(day := day, period := period))
  {
    var j :| 0 <= j < |s| && s[j] == x;
    forall i | 0 <= i < |s| && s[i].id == x.id
      ensures s[i] == x
    {
      assert EntryIds(s)[i] == EntryIds(s)[j];
    }
  }

  /** Unique ids survive a delete. */
  lemma {:induction false} RemoveKeepsUnique(s: seq<Entry>, id: string)
    requires NoDup(EntryIds(s))
    ensures NoDup(EntryIds(RemoveById(s, id)))
  {
    if s != [] {
      assert NoDup(EntryIds(s[1..])) by {
        assert EntryIds(s[1..]) == EntryIds(s)[1..];
      }
      RemoveKeepsUnique(s[1..], id);
      var rest := RemoveById(s[1..], id);
      if s[0].id != id {
        forall k | 0 <= k < |EntryIds(rest)| ensures EntryIds(rest)[k] !in [s[0].id] {
          HeadIdNotKept(s, id, rest[k]);
        }
        NoDupConcat([s[0].id], EntryIds(rest));
        EntryIdsConcat([s[0]], rest);
      }
    }
  }

  /** With unique ids, no entry kept from the tail carries the head's id. */
  lemma HeadIdNotKept(s: seq<Entry>, id: string, x: Entry)
    requires s != [] && NoDup(EntryIds(s))
    requires x in RemoveById(s[1..], id)
    ensures x.id != s[0].id
  {
    RemoveMembership(s[1..], id, x);
    var k :| 0 <= k < |s[1..]| && s[1..][k] == x;
    assert EntryIds(s)[k + 1] == x.id && EntryIds(s)[0] == s[0].id;
  }

  /** Appending entries whose ids are newId and pairwise distinct keeps ids
      unique. */
  lemma AppendKeepsUnique(s: seq<Entry>, t: seq<Entry>)
    requires NoDup(EntryIds(s)) && FreshIds(EntryIds(t), s)
    ensures NoDup(EntryIds(s + t))
  {
    EntryIdsConcat(s, t);
    NoDupConcat(EntryIds(s), EntryIds(t));
  }

  /** Adding an entry with a newId id, moving it and deleting it restores the
      schedule. */
  lemma AddMoveDeleteRestores(s: seq<Entry>, draft: Entry, newId: string, day: int, period: int)
    requires newId !in EntryIds(s)
    ensures RemoveById(MoveById(s + [Stamp(draft, newId)], newId, day, period), newId) == s
  {
    var added := s + [Stamp(draft, newId)];
    var moved := MoveById(added, newId, day, period);
    assert forall i | 0 <= i < |s| :: s[i].id != newId by {
      forall i | 0 <= i < |s| ensures s[i].id != newId {
        assert EntryIds(s)[i] == s[i].id;
      }
    }
    assert moved == s + [moved[|s|]];
    RemoveConcat(s, [moved[|s|]], newId);
    RemoveAbsent(s, newId);
    assert RemoveById([moved[|s|]], newId) == [];
  }
}
