/** Moving master data in and out of files: one collection as CSV rows, or
    all five collections as one JSON document. A CSV import is checked row by
    row against the collections already loaded and replaces the collection
    only when every row passes; the cell readers for yes/no flags, id lists
    and room capacities read back what the export writes. */
module ImportExport {
  import opened Wrappers
  import opened Seqs
  import opened Strings
  import opened Entities
  import opened Actions
  import opened Loading
  import opened Client
  import opened MasterKinds
  import opened Socket

  /** The columns the master-data files use, each named after the record
      field it holds (`id`, `name`, `lastName`, `prefix`, `department`,
      `teacherCode`, `gradeLevel`, `advisorIds`, `homeroomId`,
      `subjectCode`, `isAcademic`, `color`, `textColor`, `capacity`,
      `affectedTeacherIds`, `affectedClassGradeIds`,
      `calculateWorkingHour`). */
  datatype Column =
    | Id | Name | LastName | PrefixCol | Department | TeacherCode | GradeLevel | AdvisorIds | HomeroomId
    | SubjectCode | IsAcademic | Color | TextColor | CapacityCol
    | AffectedTeacherIds | AffectedClassGradeIds | CalculateWorkingHour

  /** One data line of a CSV file read with its header line: column to cell
      text. A column the line lacks is absent. */
  type Row = map<Column, string>

  /** `item[k]`, `None` being `undefined`. */
  function Cell(row: Row, k: Column): Option<string> {
    if k in row then Some(row[k]) else None
  }

  /** A cell's text, a missing column read as empty. */
  function CellOr(row: Row, k: Column): string {
    if k in row then row[k] else ""
  }

  /** `String(v)`: a missing cell reads as the text "undefined". */
  function Text(v: Option<string>): string {
    if v.Some? then v.value else "undefined"
  }

  predicate IsNonEmpty(s: string) {
    s != ""
  }

  // ---------------------------------------------------------------------
  // Cell readers

  /** The text a yes/no cell is judged by: trimmed and lower-cased. */
  function Folded(v: Option<string>): string {
    ToLower(Trim(Text(v)))
  }

  /** `parseBoolean`: an empty cell gives the default, "false", "0" and "no"
      give false whatever their case and surrounding blanks, and any other
      text gives true. */
  function ParseBoolean(v: Option<string>, d: bool): (r: bool)
    ensures r != d ==> Folded(v) != ""
  {
    var s := Folded(v);
    if s == "" then d else !(s == "false" || s == "0" || s == "no")
  }

  /** How the export writes an optional flag. */
  function BoolText(b: Option<bool>): string {
    match b
    case Some(true) => "true"
    case Some(false) => "false"
    case None => ""
  }

  /** A word of lower-case letters is its own folded form. */
  lemma FoldedWord(w: string)
    requires w != [] && forall i | 0 <= i < |w| :: 'a' <= w[i] <= 'z'
    ensures Folded(Some(w)) == w
  {
    TrimOfTrimmed(w);
    assert ToLower(w) == w;
  }

  /** The flag an export writes is read back, an unset flag as the
      default. */
  lemma BooleanRoundTrip(b: Option<bool>, d: bool)
    ensures ParseBoolean(Some(BoolText(b)), d) == b.UnwrapOr(d)
  {
    match b
    case Some(true) =>
      FoldedWord("true");
      assert |"true"| != |"false"| && |"true"| != |"0"| && |"true"| != |"no"|;
    case Some(false) =>
      FoldedWord("false");
    case None =>
      assert Folded(Some("")) == "";
  }

  /** A missing column reads as the text "undefined", which is true
      whatever the default. */
  lemma MissingFlagIsTrue(d: bool)
    ensures ParseBoolean(None, d) == true
  {
    FoldedWord("undefined");
  }

  /** Upper case does not matter: the template's "FALSE" reads as false. */
  lemma FlagCaseBlind(d: bool)
    ensures ParseBoolean(Some("FALSE"), d) == false
  {
    FoldedUpperFalse();
  }

  /** Folding "FALSE" gives "false". */
  lemma FoldedUpperFalse()
    ensures Folded(Some("FALSE")) == "false"
  {
    var w := "FALSE";
    TrimOfTrimmed(w);
    var l := ToLower(w);
    assert l[0] == 'f' && l[1] == 'a' && l[2] == 'l' && l[3] == 's' && l[4] == 'e';
  }

  /** A clean id in a comma-separated list: non-empty, without edge blanks
      and without a comma. */
  predicate CleanId(x: string) {
    x != "" && Trimmed(x) && ',' !in x
  }

  /** `parseArray`: an empty or missing cell gives no ids; otherwise the
      text is split at commas, each piece trimmed and the empty pieces
      dropped. */
  function ParseArray(v: Option<string>): (r: seq<string>)
    ensures forall i | 0 <= i < |r| :: CleanId(r[i])
  {
    if v.Some? && v.value != "" then
      var pieces := Split(v.value, ',');
      var r := Filter(MapSeq(pieces, Trim), IsNonEmpty);
      ParseArrayClean(pieces, r);
      r
    else []
  }

  lemma ParseArrayClean(pieces: seq<string>, r: seq<string>)
    requires forall i | 0 <= i < |pieces| :: ',' !in pieces[i]
    requires r == Filter(MapSeq(pieces, Trim), IsNonEmpty)
    ensures forall i | 0 <= i < |r| :: CleanId(r[i])
  {
    forall i | 0 <= i < |r| ensures CleanId(r[i]) {
      var ts := MapSeq(pieces, Trim);
      FilterMembership(ts, IsNonEmpty, r[i]);
      var j :| 0 <= j < |ts| && ts[j] == r[i];
      TrimWithin(pieces[j], ',');
    }
  }

  /** How the export writes an optional id list: joined with commas, an
      absent list as the empty text. */
  function JoinIds(o: Option<seq<string>>): string {
    if o.Some? then Join(o.value, ",") else ""
  }

  lemma {:induction false} TrimAllClean(xs: seq<string>)
    requires forall i | 0 <= i < |xs| :: CleanId(xs[i])
    ensures MapSeq(xs, Trim) == xs
  {
    if xs != [] {
      TrimOfTrimmed(xs[0]);
      TrimAllClean(xs[1..]);
      assert MapSeq(xs, Trim) == [Trim(xs[0])] + MapSeq(xs[1..], Trim);
    }
  }

  /** Reading an exported id list gives the list back when its ids are
      clean. */
  lemma ParseArrayJoin(xs: seq<string>)
    requires forall i | 0 <= i < |xs| :: CleanId(xs[i])
    ensures ParseArray(Some(JoinIds(Some(xs)))) == xs
  {
    if xs != [] {
      var s := Join(xs, ",");
      assert s != [] by {
        if |xs| > 1 { assert s == xs[0] + "," + Join(xs[1..], ","); }
      }
      SplitJoin(xs, ',');
      assert Split(s, ',') == xs;
      TrimAllClean(xs);
      FilterAll(xs, IsNonEmpty);
    }
  }

  /** The room capacity an import stores: the integer `parseInt` reads
      from the cell, or 1 when the cell is empty, holds no number or reads
      as 0. Negative numbers are kept. */
  function Capacity(v: Option<string>): (c: int)
    ensures c != 0
    ensures v.None? || v.value == "" ==> c == 1
  {
    if v.Some? && v.value != "" then
      match ParseInt(v.value)
      case Some(n) => if n != 0 then n else 1
      case None => 1
    else 1
  }

  /** How the export writes a capacity. */
  function CapacityText(c: Option<int>): string {
    if c.Some? then IntToString(c.value) else ""
  }

  /** Reading an exported capacity gives the capacity conflict detection
      uses for the room; text without a digit gives 1. */
  lemma CapacityRoundTrip(r: Room, s: string)
    ensures Capacity(Some(CapacityText(r.capacity))) == EffectiveCapacity(r)
    ensures (forall i | 0 <= i < |s| :: !IsDigit(s[i])) ==> Capacity(Some(s)) == 1
  {
    if r.capacity.Some? {
      ParseIntOfRendering(r.capacity.value);
      assert IntToString(r.capacity.value) != "" by {
        var n := r.capacity.value;
        if n >= 0 { assert |NatToString(n)| > 0; }
      }
    }
    if forall i | 0 <= i < |s| :: !IsDigit(s[i]) {
      ParseIntNoDigits(s);
    }
  }

  // ---------------------------------------------------------------------
  // Row validation

  /** What can be wrong with one row. */
  datatype Problem =
    | IdMissing
    | IdInvalid(kind: Kind)
    | RoomNotFound(room: string)
    | TeacherNotFound(teacher: string)
    | ClassNotFound(classGrade: string)

  /** A problem found in the row on line `rowNum` of the file (the header
      is line 1). */
  datatype RowError = RowError(rowNum: nat, problem: Problem)

  predicate StartsWith(s: string, p: string) {
    |p| <= |s| && s[..|p|] == p
  }

  /** The row's id as validation reads it: trimmed, or empty when the cell
      is empty or missing. */
  function RowId(row: Row): string {
    if Id in row && row[Id] != "" then Trim(row[Id]) else ""
  }

  /** The ids references are checked against: those of the teachers,
      rooms and classes already loaded. */
  datatype Known = Known(teachers: set<string>, rooms: set<string>, classes: set<string>)

  function KnownOf(st: Store): Known {
    Known(set t | t in st.teachers :: t.id, set r | r in st.rooms :: r.id, set c | c in st.classGrades :: c.id)
  }

  /** One `teacherIdNotFound` per listed id that is not a teacher's, in
      list order. */
  function UnknownTeachers(ids: seq<string>, known: set<string>): (r: seq<Problem>)
    ensures forall p | p in r :: p.TeacherNotFound?
    ensures forall x :: TeacherNotFound(x) in r <==> x in ids && x !in known
  {
    if ids == [] then []
    else (if ids[0] in known then [] else [TeacherNotFound(ids[0])]) + UnknownTeachers(ids[1..], known)
  }

  /** One `classIdNotFound` per listed id that is not a class's. */
  function UnknownClasses(ids: seq<string>, known: set<string>): (r: seq<Problem>)
    ensures forall p | p in r :: p.ClassNotFound?
    ensures forall x :: ClassNotFound(x) in r <==> x in ids && x !in known
  {
    if ids == [] then []
    else (if ids[0] in known then [] else [ClassNotFound(ids[0])]) + UnknownClasses(ids[1..], known)
  }

  /** A class row's reference problems: an unknown homeroom (its untrimmed
      text, when not empty), then each unknown advisor. */
  function ClassRefProblems(homeroom: string, advisors: seq<string>, db: Known): (r: seq<Problem>)
    ensures r == [] <==> (homeroom == "" || homeroom in db.rooms) && forall x | x in advisors :: x in db.teachers
    ensures forall x :: TeacherNotFound(x) in r <==> x in advisors && x !in db.teachers
    ensures forall p | p in r :: p.RoomNotFound? || p.TeacherNotFound?
  {
    var home := if homeroom != "" && homeroom !in db.rooms then [RoomNotFound(homeroom)] else [];
    var u := UnknownTeachers(advisors, db.teachers);
    UnknownTeachersNone(advisors, db.teachers);
    home + u
  }

  /** An event row's reference problems: each unknown teacher, then each
      unknown class. */
  function EventRefProblems(teachers: seq<string>, classes: seq<string>, db: Known): (r: seq<Problem>)
    ensures r == [] <==> (forall x | x in teachers :: x in db.teachers) && forall x | x in classes :: x in db.classes
    ensures forall x :: TeacherNotFound(x) in r <==> x in teachers && x !in db.teachers
    ensures forall x :: ClassNotFound(x) in r <==> x in classes && x !in db.classes
    ensures forall p | p in r :: p.TeacherNotFound? || p.ClassNotFound?
  {
    var u := UnknownTeachers(teachers, db.teachers);
    var v := UnknownClasses(classes, db.classes);
    UnknownTeachersNone(teachers, db.teachers);
    UnknownClassesNone(classes, db.classes);
    u + v
  }

  /** The reference checks, against the collections already loaded rather
      than the file. */
  function RefProblems(kind: Kind, row: Row, db: Known): (r: seq<Problem>)
    ensures forall p | p in r :: !p.IdMissing? && !p.IdInvalid?
  {
    match kind
    case ClassGrades => ClassRefProblems(CellOr(row, HomeroomId), ParseArray(Cell(row, AdvisorIds)), db)
    case EventActivities =>
      EventRefProblems(ParseArray(Cell(row, AffectedTeacherIds)), ParseArray(Cell(row, AffectedClassGradeIds)), db)
    case _ => []
  }

  /** The problems of a row with trimmed id `id` whose reference checks
      found `refs`, in the order they are reported: a missing id alone,
      otherwise a wrong prefix and then the reference problems. */
  function Problems(kind: Kind, id: string, refs: seq<Problem>): seq<Problem> {
    if id == "" then [IdMissing]
    else (if StartsWith(id, Prefix(kind)) then [] else [IdInvalid(kind)]) + refs
  }

  function RowProblems(kind: Kind, row: Row, db: Known): seq<Problem> {
    Problems(kind, RowId(row), RefProblems(kind, row, db))
  }

  lemma ProblemsSpec(kind: Kind, id: string, refs: seq<Problem>)
    requires forall p | p in refs :: !p.IdMissing? && !p.IdInvalid?
    ensures Problems(kind, id, refs) == [] <==> (id != "" && StartsWith(id, Prefix(kind)) && refs == [])
    ensures IdMissing in Problems(kind, id, refs) <==> id == ""
    ensures id == "" ==> Problems(kind, id, refs) == [IdMissing]
    ensures IdInvalid(kind) in Problems(kind, id, refs) <==> (id != "" && !StartsWith(id, Prefix(kind)))
    ensures forall p: Problem | !p.IdMissing? && !p.IdInvalid? :: p in Problems(kind, id, refs) <==> (id != "" && p in refs)
  {
  }

  /** Every reference a row makes resolves in the loaded collections. */
  predicate RefsResolve(kind: Kind, row: Row, db: Known) {
    match kind
    case ClassGrades =>
      && (CellOr(row, HomeroomId) == "" || CellOr(row, HomeroomId) in db.rooms)
      && (forall x | x in ParseArray(Cell(row, AdvisorIds)) :: x in db.teachers)
    case EventActivities =>
      && (forall x | x in ParseArray(Cell(row, AffectedTeacherIds)) :: x in db.teachers)
      && (forall x | x in ParseArray(Cell(row, AffectedClassGradeIds)) :: x in db.classes)
    case _ => true
  }

  /** A row that imports: a non-blank id with the kind's prefix, and every
      reference resolved. */
  predicate ValidRow(kind: Kind, row: Row, db: Known) {
    RowId(row) != "" && StartsWith(RowId(row), Prefix(kind)) && RefsResolve(kind, row, db)
  }

  /** A row has no problem exactly when it is valid; a missing id is the
      only problem reported for its row, and a wrong prefix is reported
      exactly when the id is present and lacks it. */
  lemma RowProblemsSpec(kind: Kind, row: Row, db: Known)
    ensures RowProblems(kind, row, db) == [] <==> ValidRow(kind, row, db)
    ensures IdMissing in RowProblems(kind, row, db) <==> RowId(row) == ""
    ensures RowId(row) == "" ==> RowProblems(kind, row, db) == [IdMissing]
    ensures IdInvalid(kind) in RowProblems(kind, row, db) <==> RowId(row) != "" && !StartsWith(RowId(row), Prefix(kind))
  {
    ProblemsSpec(kind, RowId(row), RefProblems(kind, row, db));
    RefsSpec(kind, row, db);
  }

  lemma RefsSpec(kind: Kind, row: Row, db: Known)
    ensures RefProblems(kind, row, db) == [] <==> RefsResolve(kind, row, db)
  {
    match kind
    case ClassGrades =>
      var home, adv := CellOr(row, HomeroomId), ParseArray(Cell(row, AdvisorIds));
      assert RefProblems(kind, row, db) == ClassRefProblems(home, adv, db);
    case EventActivities =>
      var ts, cs := ParseArray(Cell(row, AffectedTeacherIds)), ParseArray(Cell(row, AffectedClassGradeIds));
      assert RefProblems(kind, row, db) == EventRefProblems(ts, cs, db);
    case _ =>
  }

  /** A class row's advisor is reported exactly when it is listed and
      unknown. */
  lemma AdvisorReports(row: Row, db: Known, x: string)
    requires RowId(row) != ""
    ensures TeacherNotFound(x) in RowProblems(ClassGrades, row, db)
      <==> (x in ParseArray(Cell(row, AdvisorIds)) && x !in db.teachers)
  {
    ProblemsSpec(ClassGrades, RowId(row), RefProblems(ClassGrades, row, db));
  }

  /** An event row's teacher is reported exactly when it is listed and
      unknown. */
  lemma EventTeacherReports(row: Row, db: Known, x: string)
    requires RowId(row) != ""
    ensures TeacherNotFound(x) in RowProblems(EventActivities, row, db)
      <==> (x in ParseArray(Cell(row, AffectedTeacherIds)) && x !in db.teachers)
  {
    ProblemsSpec(EventActivities, RowId(row), RefProblems(EventActivities, row, db));
  }

  /** An event row's class is reported exactly when it is listed and
      unknown. */
  lemma EventClassReports(row: Row, db: Known, x: string)
    requires RowId(row) != ""
    ensures ClassNotFound(x) in RowProblems(EventActivities, row, db)
      <==> (x in ParseArray(Cell(row, AffectedClassGradeIds)) && x !in db.classes)
  {
    ProblemsSpec(EventActivities, RowId(row), RefProblems(EventActivities, row, db));
  }

  lemma {:induction false} UnknownTeachersNone(ids: seq<string>, known: set<string>)
    ensures UnknownTeachers(ids, known) == [] <==> forall x | x in ids :: x in known
  {
    if ids != [] {
      UnknownTeachersNone(ids[1..], known);
      assert forall x | x in ids :: x == ids[0] || x in ids[1..];
    }
  }

  lemma {:induction false} UnknownClassesNone(ids: seq<string>, known: set<string>)
    ensures UnknownClasses(ids, known) == [] <==> forall x | x in ids :: x in known
  {
    if ids != [] {
      UnknownClassesNone(ids[1..], known);
      assert forall x | x in ids :: x == ids[0] || x in ids[1..];
    }
  }

  /** Problems stamped with the line of the row they belong to; row `i`
      is on line `i + 2`, the header being line 1. */
  function Stamp(ps: seq<seq<Problem>>, i: nat): seq<RowError>
    decreases |ps| - i
  {
    if i >= |ps| then [] else Tag(i + 2, ps[i]) + Stamp(ps, i + 1)
  }

  /** A row's problems, stamped with its line number. */
  function Tag(rowNum: nat, ps: seq<Problem>): (r: seq<RowError>)
    ensures |r| == |ps| && forall j | 0 <= j < |ps| :: r[j] == RowError(rowNum, ps[j])
  {
    seq(|ps|, j requires 0 <= j < |ps| => RowError(rowNum, ps[j]))
  }

  lemma {:induction false} StampSpec(ps: seq<seq<Problem>>, i: nat, n: nat, p: Problem)
    ensures RowError(n, p) in Stamp(ps, i) <==> (i + 2 <= n < |ps| + 2 && p in ps[n - 2])
    decreases |ps| - i
  {
    if i < |ps| {
      StampSpec(ps, i + 1, n, p);
      var t := Tag(i + 2, ps[i]);
      if RowError(n, p) in t {
        var j :| 0 <= j < |t| && t[j] == RowError(n, p);
      }
      if n == i + 2 && p in ps[i] {
        var j :| 0 <= j < |ps[i]| && ps[i][j] == p;
        assert t[j] == RowError(n, p);
      }
    }
  }

  /** The problems of every row, row by row. */
  function AllProblems(kind: Kind, rows: seq<Row>, db: Known): (ps: seq<seq<Problem>>)
    ensures |ps| == |rows| && forall i | 0 <= i < |rows| :: ps[i] == RowProblems(kind, rows[i], db)
  {
    seq(|rows|, i requires 0 <= i < |rows| => RowProblems(kind, rows[i], db))
  }

  /** The validation report: every problem of every row, stamped with the
      row's line, in row order. */
  function Validate(kind: Kind, rows: seq<Row>, db: Known): seq<RowError> {
    Stamp(AllProblems(kind, rows, db), 0)
  }

  /** A reported error names the line of a row that has that problem, and
      every problem of every row is reported on its line. */
  lemma ValidateReports(kind: Kind, rows: seq<Row>, db: Known, n: nat, p: Problem)
    ensures RowError(n, p) in Validate(kind, rows, db)
      <==> (2 <= n < |rows| + 2 && p in RowProblems(kind, rows[n - 2], db))
  {
    StampSpec(AllProblems(kind, rows, db), 0, n, p);
  }

  lemma StampEmpty(ps: seq<seq<Problem>>)
    ensures Stamp(ps, 0) == [] <==> forall i | 0 <= i < |ps| :: ps[i] == []
  {
    var errs := Stamp(ps, 0);
    if errs != [] {
      assert errs[0] in errs;
      StampSpec(ps, 0, errs[0].rowNum, errs[0].problem);
    } else {
      forall i | 0 <= i < |ps| ensures ps[i] == [] {
        if ps[i] != [] {
          assert ps[i][0] in ps[i];
          StampSpec(ps, 0, i + 2, ps[i][0]);
        }
      }
    }
  }

  /** The report is empty exactly when every row is valid. */
  lemma ValidateEmpty(kind: Kind, rows: seq<Row>, db: Known)
    ensures Validate(kind, rows, db) == [] <==> forall i | 0 <= i < |rows| :: ValidRow(kind, rows[i], db)
  {
    StampEmpty(AllProblems(kind, rows, db));
    forall i | 0 <= i < |rows| ensures RowProblems(kind, rows[i], db) == [] <==> ValidRow(kind, rows[i], db) {
      RowProblemsSpec(kind, rows[i], db);
    }
  }

  // ---------------------------------------------------------------------
  // Processing and the all-or-nothing update

  // An import picks a palette colour at random for a row that lacks either
  // colour, so the pick is a parameter.

  /** The row's colours when both cells are filled, the pick otherwise. */
  function ColorsOf(row: Row, pick: ColorPair): ColorPair {
    if CellOr(row, Color) != "" && CellOr(row, TextColor) != ""
    then ColorPair(row[Color], row[TextColor]) else pick
  }

  /** A teacher row is stored as it is. */
  function TeacherOfRow(row: Row): Teacher {
    Teacher(CellOr(row, Id), CellOr(row, Name), CellOr(row, LastName),
      CellOr(row, PrefixCol), CellOr(row, Department), CellOr(row, TeacherCode))
  }

  function ClassOfRow(row: Row): ClassGrade {
    ClassGrade(CellOr(row, Id), CellOr(row, Name), CellOr(row, GradeLevel),
      Some(ParseArray(Cell(row, AdvisorIds))), Cell(row, HomeroomId))
  }

  function SubjectOfRow(row: Row, pick: ColorPair): Subject {
    Subject(CellOr(row, Id), CellOr(row, Name), CellOr(row, SubjectCode),
      ColorsOf(row, pick).color, ColorsOf(row, pick).textColor,
      Some(ParseBoolean(Cell(row, IsAcademic), true)), CellOr(row, GradeLevel))
  }

  function RoomOfRow(row: Row): Room {
    Room(CellOr(row, Id), CellOr(row, Name), Some(Capacity(Cell(row, CapacityCol))))
  }

  function EventOfRow(row: Row, pick: ColorPair): EventActivity {
    EventActivity(CellOr(row, Id), CellOr(row, Name), ColorsOf(row, pick).color, ColorsOf(row, pick).textColor,
      Some(ParseArray(Cell(row, AffectedTeacherIds))), Some(ParseArray(Cell(row, AffectedClassGradeIds))),
      Some(ParseBoolean(Cell(row, CalculateWorkingHour), true)))
  }

  /** The ids of a master-data list, in order. */
  function ItemIds(c: Collection): seq<string>
    requires IsMasterData(c)
  {
    match c
    case TeacherList(ts) => seq(|ts|, i requires 0 <= i < |ts| => ts[i].id)
    case SubjectList(ss) => seq(|ss|, i requires 0 <= i < |ss| => ss[i].id)
    case EventList(es) => seq(|es|, i requires 0 <= i < |es| => es[i].id)
    case RoomList(rs) => seq(|rs|, i requires 0 <= i < |rs| => rs[i].id)
    case ClassList(cs) => seq(|cs|, i requires 0 <= i < |cs| => cs[i].id)
  }

  /** The list a set of rows becomes, one record per row in row order;
      `picks(i)` is the palette pick for row `i`. */
  function Process(kind: Kind, rows: seq<Row>, picks: nat -> ColorPair): (c: Collection)
    ensures IsMasterData(c) && KindOf(c) == kind
  {
    match kind
    case Teachers => TeacherList(seq(|rows|, i requires 0 <= i < |rows| => TeacherOfRow(rows[i])))
    case ClassGrades => ClassList(seq(|rows|, i requires 0 <= i < |rows| => ClassOfRow(rows[i])))
    case Subjects => SubjectList(seq(|rows|, i requires 0 <= i < |rows| => SubjectOfRow(rows[i], picks(i))))
    case Rooms => RoomList(seq(|rows|, i requires 0 <= i < |rows| => RoomOfRow(rows[i])))
    case EventActivities => EventList(seq(|rows|, i requires 0 <= i < |rows| => EventOfRow(rows[i], picks(i))))
  }

  /** One record per row, in row order, carrying the row's id. */
  lemma ProcessKeepsIds(kind: Kind, rows: seq<Row>, picks: nat -> ColorPair)
    ensures var c := Process(kind, rows, picks);
      |ItemIds(c)| == |rows| && forall i | 0 <= i < |rows| :: ItemIds(c)[i] == CellOr(rows[i], Id)
  {
    var c := Process(kind, rows, picks);
    forall i | 0 <= i < |rows| ensures ItemIds(c)[i] == CellOr(rows[i], Id) {
      match kind
      case Subjects => assert c.subjects[i] == SubjectOfRow(rows[i], picks(i));
      case EventActivities => assert c.events[i] == EventOfRow(rows[i], picks(i));
      case _ =>
    }
  }

  /** How an import ends: the file could not be read, some rows failed
      validation, or the given number of rows was imported. */
  datatype Outcome = ReadFailed | Rejected(errors: seq<RowError>) | Imported(count: nat)

  /** The outcome, and the list that replaces the collection, if any. */
  datatype ImportResult = ImportResult(outcome: Outcome, update: Option<Collection>)

  /** `handleImport`: `parsed` is `None` when the CSV reader reports an
      error. No rows is a success with nothing to store; any row error
      rejects the whole file; otherwise the processed rows replace the
      collection. References are checked against `known`, the collections
      already loaded. */
  function Import(kind: Kind, parsed: Option<seq<Row>>, known: Known, picks: nat -> ColorPair): ImportResult {
    if parsed.None? then ImportResult(ReadFailed, None)
    else if parsed.value == [] then ImportResult(Imported(0), None)
    else
      var errs := Validate(kind, parsed.value, known);
      if errs != [] then ImportResult(Rejected(errs), None)
      else ImportResult(Imported(|parsed.value|), Some(Process(kind, parsed.value, picks)))
  }

  /** All or nothing: the collection is replaced exactly when the file
      reads, has rows and every row is valid, and then by one record per
      row carrying the row's untrimmed id; a rejection lists at least one
      error; the count reported is the number of rows. */
  lemma ImportSpec(kind: Kind, parsed: Option<seq<Row>>, known: Known, picks: nat -> ColorPair)
    ensures var r := Import(kind, parsed, known, picks);
      && (r.update.Some? <==>
           (parsed.Some? && parsed.value != [] && forall i | 0 <= i < |parsed.value| :: ValidRow(kind, parsed.value[i], known)))
      && (r.update.Some? ==>
           IsMasterData(r.update.value) && KindOf(r.update.value) == kind
           && |ItemIds(r.update.value)| == |parsed.value|
           && (forall i | 0 <= i < |parsed.value| :: ItemIds(r.update.value)[i] == CellOr(parsed.value[i], Id)))
      && (r.outcome.Rejected? ==> r.outcome.errors != [] && r.update.None?)
      && (r.outcome.Imported? ==> parsed.Some? && r.outcome.count == |parsed.value|)
      && (r.outcome.ReadFailed? <==> parsed.None?)
  {
    if parsed.Some? && parsed.value != [] {
      ValidateEmpty(kind, parsed.value, known);
      ProcessKeepsIds(kind, parsed.value, picks);
    }
  }

  /** The client after an import: the replacement goes through
      `updateMasterData`, which sends it to the server when connected. */
  function ImportInto(c: ClientState, kind: Kind, parsed: Option<seq<Row>>, picks: nat -> ColorPair): (r: Step)
    ensures r.client.hook == c.hook
  {
    var res := Import(kind, parsed, KnownOf(c.store), picks);
    if res.update.Some? then
      assert IsMasterData(res.update.value);
      ReplaceMasterData(c, res.update.value)
    else Step(c, None)
  }

  /** An import changes the store only when every row is valid, and then
      only the imported collection; otherwise nothing is stored or sent. */
  lemma ImportIntoSpec(c: ClientState, kind: Kind, parsed: Option<seq<Row>>, picks: nat -> ColorPair)
    ensures var r := ImportInto(c, kind, parsed, picks);
      var valid := parsed.Some? && parsed.value != []
        && forall i | 0 <= i < |parsed.value| :: ValidRow(kind, parsed.value[i], KnownOf(c.store));
      && (!valid ==> r == Step(c, None))
      && (valid ==> r.client.store == SetCollection(c.store, Process(kind, parsed.value, picks))
                    && r.client.store.schedule == c.store.schedule)
  {
    ImportSpec(kind, parsed, KnownOf(c.store), picks);
  }

  // ---------------------------------------------------------------------
  // Export and the round trip

  /** How the export writes an optional text: an absent value as empty. */
  function TextOr(o: Option<string>): string {
    if o.Some? then o.value else ""
  }

  function ExportTeacher(t: Teacher): Row {
    map[Id := t.id, TeacherCode := t.teacherCode, PrefixCol := t.prefix, Name := t.name,
        LastName := t.lastName, Department := t.department]
  }

  function ExportClass(c: ClassGrade): Row {
    map[Id := c.id, Name := c.name, GradeLevel := c.gradeLevel,
        AdvisorIds := JoinIds(c.advisorIds), HomeroomId := TextOr(c.homeroomId)]
  }

  function ExportSubject(s: Subject): Row {
    map[Id := s.id, SubjectCode := s.subjectCode, Name := s.name, IsAcademic := BoolText(s.isAcademic),
        GradeLevel := s.gradeLevel, Color := s.color, TextColor := s.textColor]
  }

  function ExportRoom(r: Room): Row {
    map[Id := r.id, Name := r.name, CapacityCol := CapacityText(r.capacity)]
  }

  function ExportEvent(e: EventActivity): Row {
    map[Id := e.id, Name := e.name, AffectedTeacherIds := JoinIds(e.affectedTeacherIds),
        AffectedClassGradeIds := JoinIds(e.affectedClassGradeIds),
        CalculateWorkingHour := BoolText(e.calculateWorkingHour), Color := e.color, TextColor := e.textColor]
  }

  /** Every id of an optional list is clean. */
  predicate CleanIds(o: Option<seq<string>>) {
    forall i | 0 <= i < |IdsOf(o)| :: CleanId(IdsOf(o)[i])
  }

  /** An id list read back from its export: the same ids, an absent list
      as an empty one. */
  lemma IdsRoundTrip(o: Option<seq<string>>)
    requires CleanIds(o)
    ensures ParseArray(Some(JoinIds(o))) == IdsOf(o)
  {
    if o.Some? {
      assert IdsOf(o) == o.value;
      ParseArrayJoin(o.value);
    }
  }

  /** A teacher is read back exactly. */
  lemma TeacherRoundTrip(t: Teacher)
    ensures TeacherOfRow(ExportTeacher(t)) == t
  {
  }

  /** A room is read back with the capacity conflict detection uses. */
  lemma RoomRoundTrip(r: Room)
    ensures RoomOfRow(ExportRoom(r)) == r.(capacity := Some(EffectiveCapacity(r)))
  {
    CapacityRoundTrip(r, "");
  }

  /** A class with clean advisor ids is read back with its advisors, an
      absent list as empty and an absent homeroom as empty. */
  lemma ClassRoundTrip(c: ClassGrade)
    requires CleanIds(c.advisorIds)
    ensures ClassOfRow(ExportClass(c)) == c.(advisorIds := Some(IdsOf(c.advisorIds)), homeroomId := Some(TextOr(c.homeroomId)))
  {
    IdsRoundTrip(c.advisorIds);
  }

  /** A subject with both colours set is read back with its flag, an unset
      flag as academic. */
  lemma SubjectRoundTrip(s: Subject, pick: ColorPair)
    requires s.color != "" && s.textColor != ""
    ensures SubjectOfRow(ExportSubject(s), pick) == s.(isAcademic := Some(s.isAcademic.UnwrapOr(true)))
  {
    BooleanRoundTrip(s.isAcademic, true);
  }

  /** An event with both colours set and clean id lists is read back with
      its lists and flag, absent ones as empty and counted. */
  lemma EventRoundTrip(e: EventActivity, pick: ColorPair)
    requires e.color != "" && e.textColor != ""
    requires CleanIds(e.affectedTeacherIds) && CleanIds(e.affectedClassGradeIds)
    ensures EventOfRow(ExportEvent(e), pick) == e.(
      affectedTeacherIds := Some(IdsOf(e.affectedTeacherIds)),
      affectedClassGradeIds := Some(IdsOf(e.affectedClassGradeIds)),
      calculateWorkingHour := Some(e.calculateWorkingHour.UnwrapOr(true)))
  {
    ExportEventCells(e, pick);
    IdsRoundTrip(e.affectedTeacherIds);
    IdsRoundTrip(e.affectedClassGradeIds);
    BooleanRoundTrip(e.calculateWorkingHour, true);
    EventOfCells(ExportEvent(e), pick, e.(
      affectedTeacherIds := Some(IdsOf(e.affectedTeacherIds)),
      affectedClassGradeIds := Some(IdsOf(e.affectedClassGradeIds)),
      calculateWorkingHour := Some(e.calculateWorkingHour.UnwrapOr(true))));
  }

  /** The cells of an exported event. */
  lemma ExportEventCells(e: EventActivity, pick: ColorPair)
    requires e.color != "" && e.textColor != ""
    ensures var row := ExportEvent(e);
      && CellOr(row, Id) == e.id && CellOr(row, Name) == e.name
      && ColorsOf(row, pick) == ColorPair(e.color, e.textColor)
      && Cell(row, AffectedTeacherIds) == Some(JoinIds(e.affectedTeacherIds))
      && Cell(row, AffectedClassGradeIds) == Some(JoinIds(e.affectedClassGradeIds))
      && Cell(row, CalculateWorkingHour) == Some(BoolText(e.calculateWorkingHour))
  {
  }

  /** An event read from a row is determined field by field by its cells. */
  lemma EventOfCells(row: Row, pick: ColorPair, e: EventActivity)
    requires CellOr(row, Id) == e.id && CellOr(row, Name) == e.name
    requires ColorsOf(row, pick) == ColorPair(e.color, e.textColor)
    requires e.affectedTeacherIds == Some(ParseArray(Cell(row, AffectedTeacherIds)))
    requires e.affectedClassGradeIds == Some(ParseArray(Cell(row, AffectedClassGradeIds)))
    requires e.calculateWorkingHour == Some(ParseBoolean(Cell(row, CalculateWorkingHour), true))
    ensures EventOfRow(row, pick) == e
  {
  }

  /** An exported teacher row is valid when the id is trimmed and carries
      the teacher prefix. */
  lemma ExportedTeacherValid(t: Teacher, known: Known)
    requires Trimmed(t.id) && StartsWith(t.id, "T-")
    ensures ValidRow(Teachers, ExportTeacher(t), known)
  {
    assert CellOr(ExportTeacher(t), Id) == t.id;
    PlainIdValid(Teachers, ExportTeacher(t), known);
  }

  /** A row of a kind without references is valid when its id cell is
      trimmed and carries the kind's prefix. */
  lemma PlainIdValid(kind: Kind, row: Row, known: Known)
    requires kind != ClassGrades && kind != EventActivities
    requires Trimmed(CellOr(row, Id)) && StartsWith(CellOr(row, Id), Prefix(kind))
    ensures ValidRow(kind, row, known)
  {
    TrimOfTrimmed(row[Id]);
  }

  /** Exported teachers whose ids are trimmed and carry the teacher prefix
      pass validation and are read back unchanged. */
  lemma TeachersRoundTrip(ts: seq<Teacher>, known: Known, picks: nat -> ColorPair)
    requires forall i | 0 <= i < |ts| :: Trimmed(ts[i].id) && StartsWith(ts[i].id, "T-")
    ensures Validate(Teachers, MapSeq(ts, ExportTeacher), known) == []
    ensures Process(Teachers, MapSeq(ts, ExportTeacher), picks) == TeacherList(ts)
  {
    var rows := MapSeq(ts, ExportTeacher);
    forall i | 0 <= i < |rows| ensures ValidRow(Teachers, rows[i], known) {
      assert rows[i] == ExportTeacher(ts[i]);
      ExportedTeacherValid(ts[i], known);
    }
    ValidateEmpty(Teachers, rows, known);
    TeachersProcessBack(ts, picks);
  }

  /** Exported teachers are processed back into the same list. */
  lemma TeachersProcessBack(ts: seq<Teacher>, picks: nat -> ColorPair)
    ensures Process(Teachers, MapSeq(ts, ExportTeacher), picks) == TeacherList(ts)
  {
    var rows := MapSeq(ts, ExportTeacher);
    var back := seq(|rows|, i requires 0 <= i < |rows| => TeacherOfRow(rows[i]));
    forall i | 0 <= i < |ts| ensures back[i] == ts[i] {
      TeacherRoundTrip(ts[i]);
    }
    assert back == ts;
  }

  /** So a non-empty teacher export imports back as the same list. */
  lemma TeachersImportBack(ts: seq<Teacher>, known: Known, picks: nat -> ColorPair)
    requires ts != []
    requires forall i | 0 <= i < |ts| :: Trimmed(ts[i].id) && StartsWith(ts[i].id, "T-")
    ensures Import(Teachers, Some(MapSeq(ts, ExportTeacher)), known, picks)
      == ImportResult(Imported(|ts|), Some(TeacherList(ts)))
  {
    TeachersRoundTrip(ts, known, picks);
  }

  // ---------------------------------------------------------------------
  // The full master-data file

  /** The five lists of a full master-data file, in the order they are
      replaced, when every one is present as an array. */
  function ReadAll(doc: Option<Document>): (r: Option<seq<Collection>>)
    ensures r.Some? ==> |r.value| == 5 && forall i | 0 <= i < 5 :: IsMasterData(r.value[i]) && KindOf(r.value[i]) == AllKinds[i]
  {
    if doc.Some? && doc.value.Object? then
      var s := doc.value.snapshot;
      if s.teachers.Items? && s.classGrades.Items? && s.subjects.Items? && s.rooms.Items? && s.eventActivities.Items?
      then Some([TeacherList(s.teachers.items), ClassList(s.classGrades.items), SubjectList(s.subjects.items),
                 RoomList(s.rooms.items), EventList(s.eventActivities.items)])
      else None
    else None
  }

  /** The master-data lists replaced one after the other, each through
      `updateMasterData`; the actions sent, in order. */
  function ReplaceAll(c: ClientState, cols: seq<Collection>): (r: (ClientState, seq<Action>))
    requires forall i | 0 <= i < |cols| :: IsMasterData(cols[i])
    ensures r.0.hook == c.hook && r.0.store.schedule == c.store.schedule
    decreases |cols|
  {
    if cols == [] then (c, [])
    else
      var step := ReplaceMasterData(c, cols[0]);
      var rest := ReplaceAll(step.client, cols[1..]);
      (rest.0, (if step.sent.Some? then [step.sent.value] else []) + rest.1)
  }

  datatype AllOutcome = AllFailed | AllCancelled | AllImported

  /** The client after a full import, the actions it sent, and how the
      import ended. */
  datatype AllResult = AllResult(client: ClientState, sent: seq<Action>, outcome: AllOutcome)

  /** `handleImportAll`: `doc` is `None` when the file cannot be read or is
      not JSON; the user's answer to the overwrite question is `confirmed`.
      A file lacking any of the five arrays fails whatever the answer. */
  function ImportAll(c: ClientState, doc: Option<Document>, confirmed: bool): (r: AllResult)
    ensures r.outcome == AllImported <==> ReadAll(doc).Some? && confirmed
    ensures r.outcome == AllFailed <==> ReadAll(doc).None?
    ensures r.outcome != AllImported ==> r.client == c && r.sent == []
  {
    match ReadAll(doc)
    case None => AllResult(c, [], AllFailed)
    case Some(cols) =>
      if confirmed then
        var (c', sent) := ReplaceAll(c, cols);
        AllResult(c', sent, AllImported)
      else AllResult(c, [], AllCancelled)
  }

  /** A full import replaces exactly the five master-data lists, all of
      them; the schedule and settings are kept. */
  lemma ImportAllStore(c: ClientState, doc: Option<Document>)
    requires ReadAll(doc).Some?
    ensures var s := doc.value.snapshot;
      ImportAll(c, doc, true).client.store
        == c.store.(teachers := s.teachers.items, classGrades := s.classGrades.items,
                    subjects := s.subjects.items, rooms := s.rooms.items, eventActivities := s.eventActivities.items)
  {
    ReplaceAllStore(c, ReadAll(doc).value);
    ReplaceAllSent(c, ReadAll(doc).value);
    ApplyFive(c.store, doc.value.snapshot);
  }

  /** The five replacements are sent, in the fixed order, exactly when the
      client shows itself connected; otherwise none is sent. */
  lemma ImportAllSent(c: ClientState, doc: Option<Document>)
    requires ReadAll(doc).Some? && Consistent(c.hook)
    ensures var cols := ReadAll(doc).value;
      && (c.hook.status == StatusOpen ==> ImportAll(c, doc, true).sent == Updates(cols))
      && (c.hook.status != StatusOpen ==> ImportAll(c, doc, true).sent == [])
  {
    ReplaceAllStore(c, ReadAll(doc).value);
    ReplaceAllSent(c, ReadAll(doc).value);
    SendIffShownOpen(c.hook, ClearAllData);
  }

  lemma ApplyFive(st: Store, s: Snapshot)
    requires s.teachers.Items? && s.classGrades.Items? && s.subjects.Items? && s.rooms.Items? && s.eventActivities.Items?
    ensures ApplyAll(st, [TeacherList(s.teachers.items), ClassList(s.classGrades.items), SubjectList(s.subjects.items),
                          RoomList(s.rooms.items), EventList(s.eventActivities.items)])
      == st.(teachers := s.teachers.items, classGrades := s.classGrades.items, subjects := s.subjects.items,
             rooms := s.rooms.items, eventActivities := s.eventActivities.items)
  {
    var cols := [TeacherList(s.teachers.items), ClassList(s.classGrades.items), SubjectList(s.subjects.items),
                 RoomList(s.rooms.items), EventList(s.eventActivities.items)];
    var st1 := SetCollection(st, cols[0]);
    var st2 := SetCollection(st1, cols[1]);
    var st3 := SetCollection(st2, cols[2]);
    var st4 := SetCollection(st3, cols[3]);
    var st5 := SetCollection(st4, cols[4]);
    assert cols[4..][1..] == [];
    assert ApplyAll(st4, cols[4..]) == st5;
    assert cols[3..][1..] == cols[4..];
    assert ApplyAll(st3, cols[3..]) == st5;
    assert cols[2..][1..] == cols[3..];
    assert ApplyAll(st2, cols[2..]) == st5;
    assert cols[1..][1..] == cols[2..];
    assert ApplyAll(st1, cols[1..]) == st5;
  }

  /** Replacing the lists one by one leaves the store with each set in turn. */
  lemma {:induction false} ReplaceAllStore(c: ClientState, cols: seq<Collection>)
    requires forall i | 0 <= i < |cols| :: IsMasterData(cols[i])
    ensures ReplaceAll(c, cols).0.store == ApplyAll(c.store, cols)
    decreases |cols|
  {
    if cols != [] {
      var step := ReplaceMasterData(c, cols[0]);
      ReplaceAllStore(step.client, cols[1..]);
    }
  }

  /** One update per list, in order, when the connection is open; none
      when it is not. */
  lemma {:induction false} ReplaceAllSent(c: ClientState, cols: seq<Collection>)
    requires forall i | 0 <= i < |cols| :: IsMasterData(cols[i])
    ensures Send(c.hook, ClearAllData).Some? ==> ReplaceAll(c, cols).1 == Updates(cols)
    ensures Send(c.hook, ClearAllData).None? ==> ReplaceAll(c, cols).1 == []
    decreases |cols|
  {
    if cols != [] {
      var step := ReplaceMasterData(c, cols[0]);
      var u := UpdateMasterData(CollectionKey(cols[0]), cols[0]);
      assert step.client.hook == c.hook && step.sent == Send(c.hook, u);
      assert Send(c.hook, u).Some? == Send(c.hook, ClearAllData).Some?;
      ReplaceAllSent(step.client, cols[1..]);
      var rest := ReplaceAll(step.client, cols[1..]);
      assert ReplaceAll(c, cols).1 == (if step.sent.Some? then [step.sent.value] else []) + rest.1;
      if Send(c.hook, ClearAllData).Some? {
        assert Updates(cols) == [u] + Updates(cols[1..]);
      }
    }
  }

  /** One `updateMasterData` per list, in order. */
  function Updates(cols: seq<Collection>): (r: seq<Action>)
    requires forall i | 0 <= i < |cols| :: IsMasterData(cols[i])
    ensures |r| == |cols|
    ensures forall i | 0 <= i < |cols| :: r[i] == UpdateMasterData(CollectionKey(cols[i]), cols[i])
  {
    seq(|cols|, i requires 0 <= i < |cols| => UpdateMasterData(CollectionKey(cols[i]), cols[i]))
  }

  /** The store after setting each list in turn. */
  function ApplyAll(st: Store, cols: seq<Collection>): Store
    decreases |cols|
  {
    if cols == [] then st else ApplyAll(SetCollection(st, cols[0]), cols[1..])
  }

  /** `handleExportAll`: the five master-data lists and nothing else. */
  function ExportAll(st: Store): Document {
    Object(Snapshot(Missing, Items(st.teachers), Items(st.subjects), Items(st.eventActivities),
      Items(st.rooms), Items(st.classGrades), None, None, None, None))
  }

  /** Importing a full export, confirmed, leaves the store as it was. */
  lemma ExportAllRoundTrip(c: ClientState)
    ensures ImportAll(c, Some(ExportAll(c.store)), true).client.store == c.store
    ensures ImportAll(c, Some(ExportAll(c.store)), true).outcome == AllImported
  {
    ImportAllStore(c, Some(ExportAll(c.store)));
  }
}
