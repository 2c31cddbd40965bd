/** The palette of subjects that can be dragged onto the grid for the
    selected class: every subject whose grade-level list names the class's
    grade level. It looks at the subjects only, never at the schedule. */
module Unscheduled {
  import opened Wrappers
  import opened Seqs
  import opened Strings
  import opened Entities

  /** What a drag from the palette carries. */
  datatype DragItem = DragItem(subjectId: string, classGradeId: string)

  /** The grade levels a subject is meant for: its comma-separated list,
      each part trimmed. */
  function GradeParts(level: string): seq<string> {
    MapSeq(Split(level, ','), Trim)
  }

  /** Whether a subject is offered to a class of grade level `grade`: both
      levels are set and the class's level, as stored, is one of the
      subject's parts. */
  predicate OfferedTo(s: Subject, grade: string) {
    s.gradeLevel != "" && grade != "" && grade in GradeParts(s.gradeLevel)
  }

  /** The palette for `cid`: `None` when no class has that id, otherwise the
      offered subjects in their stored order. */
  function Palette(subjects: seq<Subject>, classes: seq<ClassGrade>, cid: string): (r: Option<seq<Subject>>)
    ensures r.None? <==> FindClass(classes, cid).None?
  {
    match FindClass(classes, cid)
    case None => None
    case Some(c) => Some(Filter(subjects, (s: Subject) => OfferedTo(s, c.gradeLevel)))
  }

  /** The drag payloads of the palette, one per offered subject. */
  function Payloads(subjects: seq<Subject>, classes: seq<ClassGrade>, cid: string): (r: seq<DragItem>)
    ensures |r| <= |subjects|
    ensures forall i | 0 <= i < |r| :: r[i].classGradeId == cid
  {
    match Palette(subjects, classes, cid)
    case None => []
    case Some(ps) => MapSeq(ps, (s: Subject) => DragItem(s.id, cid))
  }

  /** Offering distributes over a split of the subject list, so the palette
      keeps the subjects' order; a missing class offers nothing. */
  lemma PaletteConcat(a: seq<Subject>, b: seq<Subject>, classes: seq<ClassGrade>, cid: string)
    ensures Palette(a + b, classes, cid).Some? ==>
      Palette(a + b, classes, cid).value == Palette(a, classes, cid).value + Palette(b, classes, cid).value
    ensures FindClass(classes, cid).None? ==> Payloads(a + b, classes, cid) == []
  {
    if FindClass(classes, cid).Some? {
      var c := FindClass(classes, cid).value;
      FilterConcat(a, b, (s: Subject) => OfferedTo(s, c.gradeLevel));
    }
  }

  /** A subject is offered exactly as often as it is stored when it matches
      the class's grade level, and never otherwise. */
  lemma PaletteSpec(subjects: seq<Subject>, classes: seq<ClassGrade>, cid: string, s: Subject)
    requires FindClass(classes, cid).Some?
    ensures var level := FindClass(classes, cid).value.gradeLevel;
      Occurrences(Palette(subjects, classes, cid).value, s) == if OfferedTo(s, level) then Occurrences(subjects, s) else 0
  {
    var level := FindClass(classes, cid).value.gradeLevel;
    FilterOccurrences(subjects, (t: Subject) => OfferedTo(t, level), s);
  }

  /** Each payload names an offered subject and the selected class. */
  lemma PayloadsSpec(subjects: seq<Subject>, classes: seq<ClassGrade>, cid: string, i: nat)
    requires i < |Payloads(subjects, classes, cid)|
    ensures FindClass(classes, cid).Some?
    ensures exists t | t in subjects ::
      (OfferedTo(t, FindClass(classes, cid).value.gradeLevel) && Payloads(subjects, classes, cid)[i] == DragItem(t.id, cid))
  {
    var level := FindClass(classes, cid).value.gradeLevel;
    var keep := (t: Subject) => OfferedTo(t, level);
    var ps := Filter(subjects, keep);
    assert Payloads(subjects, classes, cid)[i] == DragItem(ps[i].id, cid);
    FilterMembership(subjects, keep, ps[i]);
  }

  /** For a list written as comma-joined, trimmed, comma-free grade levels,
      a subject is offered exactly to the non-empty levels in the list: the
      match is whole-part. */
  lemma OfferedToListed(s: Subject, parts: seq<string>, grade: string)
    requires |parts| >= 1
    requires forall i | 0 <= i < |parts| :: ',' !in parts[i] && Trimmed(parts[i])
    requires s.gradeLevel == Join(parts, ",")
    requires s.gradeLevel != ""
    ensures OfferedTo(s, grade) <==> grade != "" && grade in parts
  {
    SplitJoin(parts, ',');
    assert GradeParts(s.gradeLevel) == MapSeq(parts, Trim);
    forall i | 0 <= i < |parts| ensures Trim(parts[i]) == parts[i] {
      TrimOfTrimmed(parts[i]);
    }
    assert MapSeq(parts, Trim) == parts;
  }

  /** A subject for `M.10` is not offered to `M.1`. */
  lemma WholePartMatch(s: Subject)
    requires s.gradeLevel == "M.10"
    ensures !OfferedTo(s, "M.1")
  {
    OfferedToListed(s, ["M.10"], "M.1");
  }

  /** A class level with edge whitespace or a comma is never matched, since
      every part is trimmed and comma-free. */
  lemma UntrimmedNeverOffered(s: Subject, grade: string)
    requires !Trimmed(grade) || ',' in grade
    ensures !OfferedTo(s, grade)
  {
    var pieces := Split(s.gradeLevel, ',');
    forall i | 0 <= i < |pieces| ensures GradeParts(s.gradeLevel)[i] != grade {
      TrimWithin(pieces[i], ',');
    }
  }
}
