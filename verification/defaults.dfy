/** The built-in sample data set. The browser client and the server each carry
    their own copy and the two differ: the client's copy has more teachers,
    subjects, events, rooms, classes and entries, and two holidays instead of
    one. Settings, institution details and print settings agree. */
module Defaults {
  import opened Wrappers
  import opened Seqs
  import opened JsonValues
  import opened Entities

  /** A subject placement. */
  function SubjectEntry(id: string, day: int, period: int, subject: string, teachers: seq<string>, room: string, grade: string): Entry {
    Entry(id, day, period, Some(subject), Some(teachers), Some(room), Some(grade), None)
  }

  /** The teacher name prefixes offered by the teacher form. */
  const Prefixes: seq<string> := ["นาย", "นาง", "นางสาว", "mr.", "mrs.", "ms."]

  /** The departments in the school's preferred order. */
  const Departments: seq<string> := [
    "กลุ่มสาระการเรียนรู้คณิตศาสตร์",
    "กลุ่มสาระการเรียนรู้วิทยาศาสตร์และเทคโนโลยี",
    "กลุ่มสาระการเรียนรู้ภาษาไทย",
    "กลุ่มสาระการเรียนรู้สังคมศึกษา ศาสนา และวัฒนธรรม",
    "กลุ่มสาระการเรียนรู้ภาษาต่างประเทศ",
    "กลุ่มสาระการเรียนรู้ศิลปะ",
    "กลุ่มสาระการเรียนรู้สุขศึกษาและพลศึกษา",
    "กลุ่มสาระการเรียนรู้การงานอาชีพ"]

  const ScienceDept := "กลุ่มสาระการเรียนรู้วิทยาศาสตร์และเทคโนโลยี"
  const MathDept := "กลุ่มสาระการเรียนรู้คณิตศาสตร์"

  // ---------------------------------------------------------------------
  // Shared singletons

  const PeriodTimes: seq<Json> := [
    JStr("08:30 - 09:20"), JStr("09:20 - 10:10"), JStr("10:25 - 11:15"),
    JStr("11:15 - 12:05"), JStr("13:00 - 13:50"), JStr("13:50 - 14:40"),
    JStr("14:50 - 15:40"), JStr("15:40 - 16:30"), JStr("16:30 - 17:20")]

  const Settings: Obj := map[
    "daysPerWeek" := JNum(5), "periodsPerDay" := JNum(9), "periodTimes" := JArr(PeriodTimes),
    "minutesPerPeriod" := JNum(50), "standardWeeklyHours" := JNum(35),
    "workloadMinHours" := JNum(18), "workloadMaxHours" := JNum(25)]

  const InstitutionDetails: Obj := map[
    "name" := JStr("Springfield University"), "logo" := JStr(""),
    "deputyDirectorName" := JStr(""), "schoolDirectorName" := JStr(""),
    "deputyDirectorSignature" := JStr(""), "schoolDirectorSignature" := JStr("")]

  const PrintSettings: Obj := map[
    "paperSize" := JStr("A4"), "orientation" := JStr("landscape"),
    "marginTop" := JStr("1"), "marginBottom" := JStr("1"), "marginLeft" := JStr("1"), "marginRight" := JStr("1"),
    "showLogo" := JBool(true), "fontFamily" := JStr("Sarabun"), "colorMode" := JStr("color")]

  function Holiday(id: string, date: string, description: string): Json {
    JObj(map["id" := JStr(id), "date" := JStr(date), "description" := JStr(description)])
  }

  function Calendar(holidays: seq<Json>): Obj {
    map[
      "year" := JStr("2024-2025"), "semester" := JStr("1"),
      "startDate" := JStr("2024-09-01"), "endDate" := JStr("2025-06-15"),
      "holidays" := JArr(holidays)]
  }

  // ---------------------------------------------------------------------
  // The client's sample data

  const ClientTeachers: seq<Teacher> := [
    Teacher("T-101", "สมชาย", "ใจดี", "นาย", ScienceDept, "T101"),
    Teacher("T-102", "สมศรี", "มีสุข", "นาง", MathDept, "T102"),
    Teacher("T-103", "มานี", "อดทน", "นางสาว", "กลุ่มสาระการเรียนรู้ภาษาไทย", "T103"),
    Teacher("T-104", "ปรีดา", "รักเรียน", "นาย", "กลุ่มสาระการเรียนรู้สังคมศึกษา ศาสนา และวัฒนธรรม", "T104")]

  const ClientSubjects: seq<Subject> := [
    Subject("S-ว21101", "วิทยาศาสตร์", "ว21101", "bg-green-500", "text-white", Some(true), "ม.1"),
    Subject("S-ค21101", "คณิตศาสตร์", "ค21101", "bg-blue-500", "text-white", Some(true), "ม.1"),
    Subject("S-ส21101", "สังคมศึกษา", "ส21101", "bg-yellow-400", "text-black", Some(true), "ม.1"),
    Subject("S-อ21101", "ภาษาอังกฤษ", "อ21101", "bg-red-500", "text-white", Some(true), "ม.1"),
    Subject("S-ท22101", "ภาษาไทย 3", "ท22101", "bg-pink-500", "text-white", Some(true), "ม.2"),
    Subject("S-พ30203", "ฟิสิกส์ 3", "พ30203", "bg-indigo-500", "text-white", Some(true), "ม.3"),
    Subject("S-ก20901", "ดูแลนักเรียน", "ก20901", "bg-gray-400", "text-black", Some(false), "ม.1-ม.3")]

  const ClientEvents: seq<EventActivity> := [
    EventActivity("E-001", "ลูกเสือ/เนตรนารี", "bg-green-200", "text-black", Some(["T-101", "T-104"]), Some(["C-101", "C-102"]), Some(true)),
    EventActivity("E-002", "ชุมนุม", "bg-yellow-200", "text-black", None, Some(["C-201"]), Some(false)),
    EventActivity("E-003", "คุณธรรม", "bg-pink-200", "text-black", None, Some(["C-101", "C-102", "C-201"]), Some(false)),
    EventActivity("E-004", "สภานักเรียน", "bg-blue-200", "text-black", Some(["T-103"]), None, Some(true))]

  const ClientRooms: seq<Room> := [
    Room("R-101", "Room 101", Some(1)), Room("R-102", "Room 102", Some(1)),
    Room("R-301", "Science Lab", Some(1)), Room("R-501", "Main Hall", Some(5))]

  const ClientClasses: seq<ClassGrade> := [
    ClassGrade("C-101", "ม.1/1", "ม.1", Some(["T-101", "T-104"]), Some("R-101")),
    ClassGrade("C-102", "ม.1/2", "ม.1", None, Some("R-102")),
    ClassGrade("C-201", "ม.2/1", "ม.2", Some(["T-103"]), None)]

  const ClientSchedule: seq<Entry> := [
    SubjectEntry("e1", 0, 0, "S-ค21101", ["T-102"], "R-101", "C-101"),
    SubjectEntry("e2", 0, 1, "S-ว21101", ["T-101"], "R-301", "C-101"),
    SubjectEntry("e3", 1, 2, "S-ส21101", ["T-104"], "R-102", "C-201"),
    SubjectEntry("e-co", 2, 0, "S-อ21101", ["T-101", "T-103"], "R-101", "C-101"),
    SubjectEntry("e4", 0, 2, "S-พ30203", ["T-101"], "R-301", "C-102"),
    SubjectEntry("e5", 0, 3, "S-พ30203", ["T-101"], "R-301", "C-102"),
    SubjectEntry("e6", 1, 0, "S-ว21101", ["T-101"], "R-301", "C-101"),
    EventEntry("e7", 1, 4, "E-001", Some("C-101")),
    EventEntry("e7-clone", 1, 4, "E-001", Some("C-102")),
    SubjectEntry("e8", 2, 1, "S-พ30203", ["T-101"], "R-301", "C-102"),
    SubjectEntry("e9", 2, 2, "S-พ30203", ["T-101"], "R-301", "C-102"),
    EventEntry("e10", 3, 5, "E-002", Some("C-201")),
    SubjectEntry("e11", 4, 0, "S-พ30203", ["T-101"], "R-301", "C-102")]

  /** The state a client starts from and returns to on "clear all data". */
  function ClientDefault(): Store {
    Store(ClientSchedule, ClientTeachers, ClientSubjects, ClientEvents, ClientRooms, ClientClasses,
      Settings, InstitutionDetails,
      Calendar([Holiday("h1", "2024-12-25", "Winter Break"), Holiday("h2", "2025-04-18", "Spring Break")]),
      PrintSettings)
  }

  // ---------------------------------------------------------------------
  // The server's sample data

  const ServerTeachers: seq<Teacher> := ClientTeachers[..2]

  const ServerSubjects: seq<Subject> := ClientSubjects[..2]

  const ServerEvents: seq<EventActivity> := [
    EventActivity("E-001", "ลูกเสือ/เนตรนารี", "bg-green-200", "text-black", Some(["T-101"]), Some(["C-101"]), Some(true))]

  const ServerRooms: seq<Room> := ClientRooms[..2]

  const ServerClasses: seq<ClassGrade> := [
    ClassGrade("C-101", "ม.1/1", "ม.1", Some(["T-101"]), Some("R-101")),
    ClassGrade("C-102", "ม.1/2", "ม.1", None, Some("R-102"))]

  /** The server's sample schedule: unlike the client's, entry `e2` is in
      room R-101. */
  const ServerSchedule: seq<Entry> := [
    SubjectEntry("e1", 0, 0, "S-ค21101", ["T-102"], "R-101", "C-101"),
    SubjectEntry("e2", 0, 1, "S-ว21101", ["T-101"], "R-101", "C-101")]

  /** The state a server starts from without a database file, and the state
      "clear all data" resets it to. */
  function ServerDefault(): Store {
    Store(ServerSchedule, ServerTeachers, ServerSubjects, ServerEvents, ServerRooms, ServerClasses,
      Settings, InstitutionDetails, Calendar([Holiday("h1", "2024-12-25", "Winter Break")]), PrintSettings)
  }

  // ---------------------------------------------------------------------
  // Facts about the sample data

  /** The two built-in data sets disagree, so a client that clears its data
      shows its own sample set until the server's broadcast replaces it. */
  lemma DefaultsDiffer()
    ensures ClientDefault() != ServerDefault()
    ensures |ClientDefault().teachers| == 4 && |ServerDefault().teachers| == 2
    ensures ClientDefault().settings == ServerDefault().settings
    ensures ClientDefault().academicCalendar.Keys == ServerDefault().academicCalendar.Keys
  {
    assert ClientDefault().teachers != ServerDefault().teachers by {
      assert |ClientDefault().teachers| != |ServerDefault().teachers|;
    }
  }
}
