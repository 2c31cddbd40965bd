/** The dashboard's recommendations, drawn in a fixed order from the
    other analyses. */
module Advice {
  import opened Wrappers
  import opened Seqs
  import opened Strings
  import opened JsonValues
  import opened Entities
  import opened NumberRuns
  import opened PeriodGaps
  import opened Dashboard
  import opened TeacherDays
  import opened ClassDays
  import opened RoomLoad

  datatype Recommendation =
    | SpreadTeaching(teacher: Teacher, day: nat)
    | CloseGaps(teacher: Teacher)
    | BreakUpAcademics(classGrade: ClassGrade, day: nat)
    | RelieveRoom(room: string)
    | ReuseRoom(room: string)

  /** The position of each kind of advice in the fixed order. */
  function Slot(r: Recommendation): nat {
    match r
    case SpreadTeaching(_, _) => 0
    case CloseGaps(_) => 1
    case BreakUpAcademics(_, _) => 2
    case RelieveRoom(_) => 3
    case ReuseRoom(_) => 4
  }

  /** Appends the advice when there is one. */
  function Push(r: seq<Recommendation>, o: Option<Recommendation>): (pushed: seq<Recommendation>)
    ensures forall y :: y in pushed <==> y in r || (o.Some? && y == o.value)
  {
    if o.Some? then r + [o.value] else r
  }

  /** Each kind of advice comes after every kind before it in the fixed
      order. */
  predicate InSlotOrder(r: seq<Recommendation>) {
    forall i, j | 0 <= i < j < |r| :: Slot(r[i]) < Slot(r[j])
  }

  predicate SlotsBelow(r: seq<Recommendation>, n: nat) {
    forall y | y in r :: Slot(y) < n
  }

  lemma PushInOrder(r: seq<Recommendation>, o: Option<Recommendation>, n: nat)
    requires InSlotOrder(r) && SlotsBelow(r, n)
    requires o.Some? ==> Slot(o.value) == n
    ensures InSlotOrder(Push(r, o)) && SlotsBelow(Push(r, o), n + 1)
    ensures |Push(r, o)| <= |r| + 1
  {
    if o.Some? {
      var pushed := r + [o.value];
      forall i, j | 0 <= i < j < |pushed| ensures Slot(pushed[i]) < Slot(pushed[j]) {
        if j == |r| { assert pushed[i] == r[i] && r[i] in r; }
        else { assert pushed[i] == r[i] && pushed[j] == r[j]; }
      }
    }
  }

  function AdviseSpread(burnouts: seq<Burnout>): Option<Recommendation> {
    if burnouts == [] then None else Some(SpreadTeaching(burnouts[0].teacher, burnouts[0].day))
  }

  function AdviseGaps(gaps: seq<GapRow>): Option<Recommendation> {
    if gaps == [] then None else Some(CloseGaps(gaps[0].teacher))
  }

  function AdviseBreakUp(heavy: seq<ClassDayFlag>): Option<Recommendation> {
    if heavy == [] then None else Some(BreakUpAcademics(heavy[0].classGrade, heavy[0].day))
  }

  function AdviseRelieve(over: seq<RoomUsage>): Option<Recommendation> {
    if over == [] then None else Some(RelieveRoom(over[0].name))
  }

  function AdviseReuse(under: seq<RoomUsage>): Option<Recommendation> {
    if under == [] then None else Some(ReuseRoom(under[0].name))
  }

  /** One piece of advice per non-empty finding list, about its first
      item, in a fixed order. */
  function Recommend(burnouts: seq<Burnout>, gaps: seq<GapRow>, heavy: seq<ClassDayFlag>,
                     over: seq<RoomUsage>, under: seq<RoomUsage>): seq<Recommendation>
  {
    Push(Push(Push(Push(Push([], AdviseSpread(burnouts)), AdviseGaps(gaps)), AdviseBreakUp(heavy)),
              AdviseRelieve(over)), AdviseReuse(under))
  }

  function Recommendations(db: Store): seq<Recommendation> {
    Recommend(ConsecutiveTeaching(db), InefficientGaps(db), CognitiveLoadIssues(db),
              OverUsedRooms(db), UnderUsedRooms(db))
  }

  /** At most five pieces of advice, each kind at most once and in the
      fixed order. */
  lemma RecommendInOrder(burnouts: seq<Burnout>, gaps: seq<GapRow>, heavy: seq<ClassDayFlag>,
                         over: seq<RoomUsage>, under: seq<RoomUsage>)
    ensures |Recommend(burnouts, gaps, heavy, over, under)| <= 5
    ensures InSlotOrder(Recommend(burnouts, gaps, heavy, over, under))
  {
    var r1 := Push([], AdviseSpread(burnouts));
    PushInOrder([], AdviseSpread(burnouts), 0);
    var r2 := Push(r1, AdviseGaps(gaps));
    PushInOrder(r1, AdviseGaps(gaps), 1);
    var r3 := Push(r2, AdviseBreakUp(heavy));
    PushInOrder(r2, AdviseBreakUp(heavy), 2);
    var r4 := Push(r3, AdviseRelieve(over));
    PushInOrder(r3, AdviseRelieve(over), 3);
    PushInOrder(r4, AdviseReuse(under), 4);
  }

  /** Each kind of advice is given exactly when its list is non-empty, and
      names that list's first item. */
  lemma RecommendMembers(burnouts: seq<Burnout>, gaps: seq<GapRow>, heavy: seq<ClassDayFlag>,
                         over: seq<RoomUsage>, under: seq<RoomUsage>, y: Recommendation)
    ensures y in Recommend(burnouts, gaps, heavy, over, under) <==>
      || (burnouts != [] && y == SpreadTeaching(burnouts[0].teacher, burnouts[0].day))
      || (gaps != [] && y == CloseGaps(gaps[0].teacher))
      || (heavy != [] && y == BreakUpAcademics(heavy[0].classGrade, heavy[0].day))
      || (over != [] && y == RelieveRoom(over[0].name))
      || (under != [] && y == ReuseRoom(under[0].name))
  {
    var r1 := Push([], AdviseSpread(burnouts));
    var r2 := Push(r1, AdviseGaps(gaps));
    var r3 := Push(r2, AdviseBreakUp(heavy));
    var r4 := Push(r3, AdviseRelieve(over));
    assert y in r1 <==> burnouts != [] && y == SpreadTeaching(burnouts[0].teacher, burnouts[0].day);
    assert y in r2 <==> y in r1 || (gaps != [] && y == CloseGaps(gaps[0].teacher));
    assert y in r3 <==> y in r2 || (heavy != [] && y == BreakUpAcademics(heavy[0].classGrade, heavy[0].day));
    assert y in r4 <==> y in r3 || (over != [] && y == RelieveRoom(over[0].name));
  }
}
