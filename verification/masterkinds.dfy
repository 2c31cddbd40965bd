/** The five master-data collections a user edits through forms and file
    imports, the state key each is stored under and the prefix its ids
    carry. */
module MasterKinds {
  import opened Entities
  import opened Actions

  datatype Kind = Teachers | ClassGrades | Subjects | Rooms | EventActivities

  /** The kinds in the order a full master-data import replaces them. */
  const AllKinds: seq<Kind> := [Teachers, ClassGrades, Subjects, Rooms, EventActivities]

  /** The top-level state key of a kind. */
  function Key(k: Kind): string {
    match k
    case Teachers => "teachers"
    case ClassGrades => "classGrades"
    case Subjects => "subjects"
    case Rooms => "rooms"
    case EventActivities => "eventActivities"
  }

  /** The prefix an id of this kind must start with. */
  function Prefix(k: Kind): string {
    match k
    case Teachers => "T-"
    case ClassGrades => "C-"
    case Subjects => "S-"
    case Rooms => "R-"
    case EventActivities => "E-"
  }

  /** The kind a master-data list belongs to. */
  function KindOf(c: Collection): Kind
    requires IsMasterData(c)
  {
    match c
    case TeacherList(_) => Teachers
    case SubjectList(_) => Subjects
    case EventList(_) => EventActivities
    case RoomList(_) => Rooms
    case ClassList(_) => ClassGrades
  }

  /** The kinds name five different state keys, none of them the schedule,
      and five different prefixes; every master-data list is stored under
      its kind's key. */
  lemma KindsDistinct(a: Kind, b: Kind, c: Collection)
    ensures Key(a) in StateKeys && Key(a) != "schedule"
    ensures a != b ==> Key(a) != Key(b) && Prefix(a) != Prefix(b)
    ensures IsMasterData(c) ==> CollectionKey(c) == Key(KindOf(c))
    ensures |AllKinds| == 5 && a in AllKinds
  {
  }
}
