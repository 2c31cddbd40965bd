/** Clash detection over a schedule (`checkForConflicts`): entries are
    grouped by their (day, period) slot; inside every slot holding at least
    two entries, teacher, room and class uses are tallied and each tally that
    breaks its rule becomes one conflict naming the entries involved. */
module Conflicts {
  import opened Wrappers
  import opened Seqs
  import opened Strings
  import opened Entities

  datatype Kind = TeacherClash | RoomClash | ClassClash

  /** The conflict message, kept structured; `Render` gives its text. */
  datatype Message =
    | TeacherDoubleBooked(prefix: string, name: string)
    | RoomOverCapacity(roomName: string, max: int, scheduled: nat)
    | ClassDoubleBooked(className: string)

  /** A conflict: its kind, the id of the clashing teacher, room or class,
      the message and the ids of the entries involved. */
  datatype Conflict = Conflict(kind: Kind, resource: string, message: Message, involved: seq<string>)

  function Render(m: Message): string {
    match m
    case TeacherDoubleBooked(p, n) => "Teacher " + p + " " + n + " is double-booked."
    case RoomOverCapacity(n, max, k) =>
      "Room " + n + " is over capacity (Max: " + IntToString(max) + ", Scheduled: " + NatToString(k) + ")."
    case ClassDoubleBooked(n) => "Class " + n + " is double-booked."
  }

  /** The slot an entry occupies; the code keys it as `${day}-${period}`,
      which is one-to-one on integer pairs. */
  function SlotOf(e: Entry): (int, int) {
    (e.day, e.period)
  }

  /** One use of a resource: (resource id, entry id). */
  type Use = (string, string)

  function UseKey(u: Use): string {
    u.0
  }

  function UseEntry(u: Use): string {
    u.1
  }

  /** One use per listed id, all by the same entry. */
  function Tag(ids: seq<string>, entryId: string): (r: seq<Use>)
    ensures |r| == |ids|
    ensures forall i | 0 <= i < |r| :: r[i] == (ids[i], entryId)
  {
    if ids == [] then [] else [(ids[0], entryId)] + Tag(ids[1..], entryId)
  }

  /** The teacher uses of one entry: each of its `teacherIds`, then each
      default teacher of the event it refers to, when that event resolves. */
  function EntryTeacherUses(e: Entry, events: seq<EventActivity>): seq<Use> {
    Tag(IdsOf(e.teacherIds), e.id)
      + match EventOf(events, e)
        case Some(ev) => Tag(IdsOf(ev.affectedTeacherIds), e.id)
        case None => []
  }

  function TeacherUses(es: seq<Entry>, events: seq<EventActivity>): seq<Use> {
    if es == [] then [] else EntryTeacherUses(es[0], events) + TeacherUses(es[1..], events)
  }

  function RoomUses(es: seq<Entry>): seq<Use> {
    if es == [] then []
    else (if Filled(es[0].roomId) then [(es[0].roomId.value, es[0].id)] else []) + RoomUses(es[1..])
  }

  function ClassUses(es: seq<Entry>): seq<Use> {
    if es == [] then []
    else (if Filled(es[0].classGradeId) then [(es[0].classGradeId.value, es[0].id)] else []) + ClassUses(es[1..])
  }

  /** Whether a tally of `n` uses of `t` is a teacher conflict, and its message. */
  function TeacherVerdict(teachers: seq<Teacher>): (string, nat) -> Option<Message> {
    (t: string, n: nat) =>
      match FindTeacher(teachers, t)
      case Some(tc) => if n > 1 then Some(TeacherDoubleBooked(tc.prefix, tc.name)) else None
      case None => None
  }

  /** A room conflicts when it resolves and its uses exceed `capacity || 1`. */
  function RoomVerdict(rooms: seq<Room>): (string, nat) -> Option<Message> {
    (r: string, n: nat) =>
      match FindRoom(rooms, r)
      case Some(rm) =>
        if n > EffectiveCapacity(rm) then Some(RoomOverCapacity(rm.name, EffectiveCapacity(rm), n)) else None
      case None => None
  }

  function ClassVerdict(classes: seq<ClassGrade>): (string, nat) -> Option<Message> {
    (c: string, n: nat) =>
      match FindClass(classes, c)
      case Some(cg) => if n > 1 then Some(ClassDoubleBooked(cg.name)) else None
      case None => None
  }

  /** The conflict, if any, of one tally bucket: resource `r` used by the
      entries `ids` (one id per use). */
  function BucketConflicts(kind: Kind, verdict: (string, nat) -> Option<Message>, r: string, ids: seq<string>)
    : seq<Conflict>
  {
    match verdict(r, |ids|)
    case Some(m) => [Conflict(kind, r, m, ids)]
    case None => []
  }

  /** One conflict per tally bucket whose verdict is a message. */
  function ConflictsOf(groups: seq<(string, seq<Use>)>, kind: Kind, verdict: (string, nat) -> Option<Message>)
    : seq<Conflict>
  {
    if groups == [] then []
    else BucketConflicts(kind, verdict, groups[0].0, MapSeq(groups[0].1, UseEntry)) + ConflictsOf(groups[1..], kind, verdict)
  }

  /** The conflicts of one slot's entries: teachers, then rooms, then classes. */
  function SlotConflicts(es: seq<Entry>, db: Store): seq<Conflict> {
    if |es| <= 1 then []
    else
      ConflictsOf(GroupBy(TeacherUses(es, db.eventActivities), UseKey), TeacherClash, TeacherVerdict(db.teachers))
      + ConflictsOf(GroupBy(RoomUses(es), UseKey), RoomClash, RoomVerdict(db.rooms))
      + ConflictsOf(GroupBy(ClassUses(es), UseKey), ClassClash, ClassVerdict(db.classGrades))
  }

  function SlotsConflicts(slots: seq<((int, int), seq<Entry>)>, db: Store): seq<Conflict> {
    if slots == [] then [] else SlotConflicts(slots[0].1, db) + SlotsConflicts(slots[1..], db)
  }

  /** `checkForConflicts(schedule)` against the lookups of `db`. */
  function Detect(schedule: seq<Entry>, db: Store): seq<Conflict> {
    SlotsConflicts(GroupBy(schedule, SlotOf), db)
  }

  // ---------------------------------------------------------------------
  // Reference tallies, stated per entry without any grouping.

  function Repeat(x: string, n: nat): (r: seq<string>)
    ensures |r| == n && forall i | 0 <= i < n :: r[i] == x
  {
    if n == 0 then [] else [x] + Repeat(x, n - 1)
  }

  /** How often entry `e` uses teacher `t`: every occurrence in its
      `teacherIds` plus every occurrence in its resolved event's defaults. */
  function EntryTeacherCount(e: Entry, t: string, events: seq<EventActivity>): nat {
    Occurrences(IdsOf(e.teacherIds), t)
      + match EventOf(events, e)
        case Some(ev) => Occurrences(IdsOf(ev.affectedTeacherIds), t)
        case None => 0
  }

  /** The entry ids a teacher conflict for `t` names: each entry's id once
      per use, in schedule order. */
  function TeacherInvolved(es: seq<Entry>, t: string, events: seq<EventActivity>): seq<string> {
    if es == [] then [] else Repeat(es[0].id, EntryTeacherCount(es[0], t, events)) + TeacherInvolved(es[1..], t, events)
  }

  /** Entries whose `roomId` is `r`. */
  function InRoom(es: seq<Entry>, r: string): seq<Entry> {
    if es == [] then [] else (if Filled(es[0].roomId) && es[0].roomId.value == r then [es[0]] else []) + InRoom(es[1..], r)
  }

  /** Entries whose `classGradeId` is `c`. */
  function InClass(es: seq<Entry>, c: string): seq<Entry> {
    if es == [] then []
    else (if Filled(es[0].classGradeId) && es[0].classGradeId.value == c then [es[0]] else []) + InClass(es[1..], c)
  }

  // ---------------------------------------------------------------------
  // The grouped tallies equal the reference tallies.

  lemma {:induction false} TagTally(ids: seq<string>, x: string, t: string)
    ensures MapSeq(KeyFilter(Tag(ids, x), UseKey, t), UseEntry) == Repeat(x, Occurrences(ids, t))
  {
    if ids != [] {
      TagTally(ids[1..], x, t);
      var tg := Tag(ids, x);
      assert tg[1..] == Tag(ids[1..], x);
      var head := if ids[0] == t then [(ids[0], x)] else [];
      assert KeyFilter(tg, UseKey, t) == head + KeyFilter(Tag(ids[1..], x), UseKey, t);
      MapSeqConcat(head, KeyFilter(Tag(ids[1..], x), UseKey, t), UseEntry);
      if ids[0] == t {
        assert Repeat(x, Occurrences(ids, t)) == [x] + Repeat(x, Occurrences(ids[1..], t));
      }
    }
  }

  lemma EntryTeacherTally(e: Entry, t: string, events: seq<EventActivity>)
    ensures MapSeq(KeyFilter(EntryTeacherUses(e, events), UseKey, t), UseEntry)
      == Repeat(e.id, EntryTeacherCount(e, t, events))
  {
    var own := Tag(IdsOf(e.teacherIds), e.id);
    TagTally(IdsOf(e.teacherIds), e.id, t);
    match EventOf(events, e) {
      case Some(ev) =>
        var evs := Tag(IdsOf(ev.affectedTeacherIds), e.id);
        KeyFilterConcat(own, evs, UseKey, t);
        MapSeqConcat(KeyFilter(own, UseKey, t), KeyFilter(evs, UseKey, t), UseEntry);
        TagTally(IdsOf(ev.affectedTeacherIds), e.id, t);
        RepeatConcat(e.id, Occurrences(IdsOf(e.teacherIds), t), Occurrences(IdsOf(ev.affectedTeacherIds), t));
      case None =>
        assert EntryTeacherUses(e, events) == own;
    }
  }

  lemma {:induction false} TeacherTally(es: seq<Entry>, t: string, events: seq<EventActivity>)
    ensures MapSeq(KeyFilter(TeacherUses(es, events), UseKey, t), UseEntry) == TeacherInvolved(es, t, events)
  {
    if es != [] {
      TeacherTally(es[1..], t, events);
      var here, rest := EntryTeacherUses(es[0], events), TeacherUses(es[1..], events);
      KeyFilterConcat(here, rest, UseKey, t);
      MapSeqConcat(KeyFilter(here, UseKey, t), KeyFilter(rest, UseKey, t), UseEntry);
      EntryTeacherTally(es[0], t, events);
    }
  }

  lemma {:induction false} RepeatConcat(x: string, m: nat, n: nat)
    ensures Repeat(x, m) + Repeat(x, n) == Repeat(x, m + n)
  {
  }

  lemma {:induction false} RoomTally(es: seq<Entry>, r: string)
    ensures MapSeq(KeyFilter(RoomUses(es), UseKey, r), UseEntry) == EntryIds(InRoom(es, r))
  {
    if es != [] {
      RoomTally(es[1..], r);
      var head := if Filled(es[0].roomId) then [(es[0].roomId.value, es[0].id)] else [];
      KeyFilterConcat(head, RoomUses(es[1..]), UseKey, r);
      MapSeqConcat(KeyFilter(head, UseKey, r), KeyFilter(RoomUses(es[1..]), UseKey, r), UseEntry);
      var hin := if Filled(es[0].roomId) && es[0].roomId.value == r then [es[0]] else [];
      EntryIdsConcat(hin, InRoom(es[1..], r));
    }
  }

  lemma {:induction false} ClassTally(es: seq<Entry>, c: string)
    ensures MapSeq(KeyFilter(ClassUses(es), UseKey, c), UseEntry) == EntryIds(InClass(es, c))
  {
    if es != [] {
      ClassTally(es[1..], c);
      var head := if Filled(es[0].classGradeId) then [(es[0].classGradeId.value, es[0].id)] else [];
      KeyFilterConcat(head, ClassUses(es[1..]), UseKey, c);
      MapSeqConcat(KeyFilter(head, UseKey, c), KeyFilter(ClassUses(es[1..]), UseKey, c), UseEntry);
      var hin := if Filled(es[0].classGradeId) && es[0].classGradeId.value == c then [es[0]] else [];
      EntryIdsConcat(hin, InClass(es[1..], c));
    }
  }

  // ---------------------------------------------------------------------
  // Conflicts built from buckets.

  /** The conflicts of `cs` of one kind about one resource. */
  function ConflictsFor(cs: seq<Conflict>, kind: Kind, r: string): seq<Conflict> {
    if cs == [] then []
    else (if cs[0].kind == kind && cs[0].resource == r then [cs[0]] else []) + ConflictsFor(cs[1..], kind, r)
  }

  lemma {:induction false} ConflictsForConcat(a: seq<Conflict>, b: seq<Conflict>, kind: Kind, r: string)
    ensures ConflictsFor(a + b, kind, r) == ConflictsFor(a, kind, r) + ConflictsFor(b, kind, r)
  {
    if a == [] {
      assert a + b == b;
    } else {
      assert (a + b)[1..] == a[1..] + b;
      ConflictsForConcat(a[1..], b, kind, r);
    }
  }

  lemma {:induction false} ConflictsForMember(cs: seq<Conflict>, c: Conflict)
    requires c in cs
    ensures c in ConflictsFor(cs, c.kind, c.resource)
  {
    if cs[0] != c {
      ConflictsForMember(cs[1..], c);
    }
  }

  /** The bucket of key `r`, empty when there is none. */
  function Bucket(groups: seq<(string, seq<Use>)>, r: string): seq<Use> {
    if groups == [] then [] else if groups[0].0 == r then groups[0].1 else Bucket(groups[1..], r)
  }

  /** The buckets of a grouping are the filtered uses: looking a key up
      gives exactly its uses, and nothing for a key that never occurs. */
  lemma GroupByBucket(uses: seq<Use>, r: string)
    ensures Bucket(GroupBy(uses, UseKey), r) == KeyFilter(uses, UseKey, r)
    ensures r in Firsts(GroupBy(uses, UseKey)) <==> KeyFilter(uses, UseKey, r) != []
  {
    GroupBySpec(uses, UseKey);
    KeysOfSpec(uses, UseKey);
    BucketLookup(GroupBy(uses, UseKey), r);
    if r !in Firsts(GroupBy(uses, UseKey)) {
      assert Bucket(GroupBy(uses, UseKey), r) == [];
    }
  }

  lemma {:induction false} BucketLookup(groups: seq<(string, seq<Use>)>, r: string)
    requires DistinctKeys(groups)
    ensures r !in Firsts(groups) ==> Bucket(groups, r) == []
    ensures forall i | 0 <= i < |groups| && groups[i].0 == r :: Bucket(groups, r) == groups[i].1
  {
    if groups != [] {
      var tail := groups[1..];
      assert DistinctKeys(tail);
      BucketLookup(tail, r);
      assert Firsts(groups) == [groups[0].0] + Firsts(tail);
      if groups[0].0 != r {
        forall i | 1 <= i < |groups| && groups[i].0 == r ensures Bucket(groups, r) == groups[i].1 {
          assert tail[i - 1] == groups[i];
        }
      }
    }
  }

  /** With distinct bucket keys, the conflicts of one kind about one
      resource are those of that resource's bucket, and none when it has no
      bucket. */
  lemma {:induction false} ConflictsOfFor(
    groups: seq<(string, seq<Use>)>, kind: Kind, verdict: (string, nat) -> Option<Message>, k2: Kind, r: string)
    requires DistinctKeys(groups)
    ensures ConflictsFor(ConflictsOf(groups, kind, verdict), k2, r)
      == if k2 == kind && r in Firsts(groups) then BucketConflicts(kind, verdict, r, MapSeq(Bucket(groups, r), UseEntry)) else []
  {
    if groups != [] {
      var tail := groups[1..];
      assert DistinctKeys(tail);
      ConflictsOfFor(tail, kind, verdict, k2, r);
      var here := BucketConflicts(kind, verdict, groups[0].0, MapSeq(groups[0].1, UseEntry));
      ConflictsForConcat(here, ConflictsOf(tail, kind, verdict), k2, r);
      ConflictsForBucket(kind, verdict, groups[0].0, MapSeq(groups[0].1, UseEntry), k2, r);
      assert Firsts(groups) == [groups[0].0] + Firsts(tail);
      if groups[0].0 == r {
        assert r !in Firsts(tail);
      }
    }
  }

  /** One bucket's conflicts concern that bucket's key and kind only. */
  lemma ConflictsForBucket(kind: Kind, verdict: (string, nat) -> Option<Message>, r0: string, ids: seq<string>, k2: Kind, r: string)
    ensures ConflictsFor(BucketConflicts(kind, verdict, r0, ids), k2, r)
      == if k2 == kind && r0 == r then BucketConflicts(kind, verdict, r0, ids) else []
  {
  }

  // ---------------------------------------------------------------------
  // What one slot reports, resource by resource.

  /** A slot's teacher conflicts about `t`: the verdict on its tally bucket
      when the slot holds two entries or more and `t` is used. */
  lemma SlotTeacherTally(es: seq<Entry>, db: Store, t: string)
    ensures ConflictsFor(SlotConflicts(es, db), TeacherClash, t) ==
      if |es| > 1 && KeyFilter(TeacherUses(es, db.eventActivities), UseKey, t) != [] then
        BucketConflicts(TeacherClash, TeacherVerdict(db.teachers), t, MapSeq(KeyFilter(TeacherUses(es, db.eventActivities), UseKey, t), UseEntry))
      else []
  {
    if |es| > 1 {
      SlotSplit(es, db, TeacherClash, t);
      TallyFor(TeacherUses(es, db.eventActivities), TeacherClash, TeacherVerdict(db.teachers), TeacherClash, t);
      TallyFor(RoomUses(es), RoomClash, RoomVerdict(db.rooms), TeacherClash, t);
      TallyFor(ClassUses(es), ClassClash, ClassVerdict(db.classGrades), TeacherClash, t);
    }
  }

  /** A slot's room conflicts about `r`: the verdict on its tally bucket
      when the slot holds two entries or more and `r` is used. */
  lemma SlotRoomTally(es: seq<Entry>, db: Store, r: string)
    ensures ConflictsFor(SlotConflicts(es, db), RoomClash, r) ==
      if |es| > 1 && KeyFilter(RoomUses(es), UseKey, r) != [] then
        BucketConflicts(RoomClash, RoomVerdict(db.rooms), r, MapSeq(KeyFilter(RoomUses(es), UseKey, r), UseEntry))
      else []
  {
    if |es| > 1 {
      SlotSplit(es, db, RoomClash, r);
      TallyFor(TeacherUses(es, db.eventActivities), TeacherClash, TeacherVerdict(db.teachers), RoomClash, r);
      TallyFor(RoomUses(es), RoomClash, RoomVerdict(db.rooms), RoomClash, r);
      TallyFor(ClassUses(es), ClassClash, ClassVerdict(db.classGrades), RoomClash, r);
    }
  }

  /** A slot's class conflicts about `c`: the verdict on its tally bucket
      when the slot holds two entries or more and `c` is used. */
  lemma SlotClassTally(es: seq<Entry>, db: Store, c: string)
    ensures ConflictsFor(SlotConflicts(es, db), ClassClash, c) ==
      if |es| > 1 && KeyFilter(ClassUses(es), UseKey, c) != [] then
        BucketConflicts(ClassClash, ClassVerdict(db.classGrades), c, MapSeq(KeyFilter(ClassUses(es), UseKey, c), UseEntry))
      else []
  {
    if |es| > 1 {
      SlotSplit(es, db, ClassClash, c);
      TallyFor(TeacherUses(es, db.eventActivities), TeacherClash, TeacherVerdict(db.teachers), ClassClash, c);
      TallyFor(RoomUses(es), RoomClash, RoomVerdict(db.rooms), ClassClash, c);
      TallyFor(ClassUses(es), ClassClash, ClassVerdict(db.classGrades), ClassClash, c);
    }
  }

  /** A slot's conflicts about one resource, tally by tally. */
  lemma SlotSplit(es: seq<Entry>, db: Store, kind: Kind, r: string)
    requires |es| > 1
    ensures ConflictsFor(SlotConflicts(es, db), kind, r)
      == ConflictsFor(ConflictsOf(GroupBy(TeacherUses(es, db.eventActivities), UseKey), TeacherClash, TeacherVerdict(db.teachers)), kind, r)
       + ConflictsFor(ConflictsOf(GroupBy(RoomUses(es), UseKey), RoomClash, RoomVerdict(db.rooms)), kind, r)
       + ConflictsFor(ConflictsOf(GroupBy(ClassUses(es), UseKey), ClassClash, ClassVerdict(db.classGrades)), kind, r)
  {
    var tc := ConflictsOf(GroupBy(TeacherUses(es, db.eventActivities), UseKey), TeacherClash, TeacherVerdict(db.teachers));
    var rc := ConflictsOf(GroupBy(RoomUses(es), UseKey), RoomClash, RoomVerdict(db.rooms));
    var cc := ConflictsOf(GroupBy(ClassUses(es), UseKey), ClassClash, ClassVerdict(db.classGrades));
    ConflictsForConcat(tc + rc, cc, kind, r);
    ConflictsForConcat(tc, rc, kind, r);
  }

  /** The conflicts one tally reports about one resource: its bucket's
      verdict, or nothing when the resource is unused or of another kind. */
  lemma TallyFor(uses: seq<Use>, kind: Kind, verdict: (string, nat) -> Option<Message>, k2: Kind, r: string)
    ensures ConflictsFor(ConflictsOf(GroupBy(uses, UseKey), kind, verdict), k2, r)
      == if k2 == kind && KeyFilter(uses, UseKey, r) != [] then
           BucketConflicts(kind, verdict, r, MapSeq(KeyFilter(uses, UseKey, r), UseEntry))
         else []
  {
    GroupBySpec(uses, UseKey);
    ConflictsOfFor(GroupBy(uses, UseKey), kind, verdict, k2, r);
    GroupByBucket(uses, r);
  }

  /** A slot reports teacher `t` double-booked exactly when the slot holds
      at least two entries, `t` resolves and `t` is used at least twice,
      counting every listing in an entry's `teacherIds` and in its resolved
      event's default teachers; the one conflict names each using entry once
      per use, in schedule order. */
  lemma SlotTeacherConflicts(es: seq<Entry>, db: Store, t: string)
    ensures var ids := TeacherInvolved(es, t, db.eventActivities);
      ConflictsFor(SlotConflicts(es, db), TeacherClash, t) ==
        match FindTeacher(db.teachers, t)
        case Some(tc) =>
          if |es| > 1 && |ids| > 1 then [Conflict(TeacherClash, t, TeacherDoubleBooked(tc.prefix, tc.name), ids)] else []
        case None => []
  {
    SlotTeacherTally(es, db, t);
    TeacherTally(es, t, db.eventActivities);
  }

  /** A slot reports room `r` over capacity exactly when the slot holds at
      least two entries, `r` resolves and the entries in `r` outnumber
      `capacity || 1`; the one conflict names those entries in order. */
  lemma SlotRoomConflicts(es: seq<Entry>, db: Store, r: string)
    ensures var ids := EntryIds(InRoom(es, r));
      ConflictsFor(SlotConflicts(es, db), RoomClash, r) ==
        match FindRoom(db.rooms, r)
        case Some(rm) =>
          if |es| > 1 && |ids| > 0 && |ids| > EffectiveCapacity(rm) then
            [Conflict(RoomClash, r, RoomOverCapacity(rm.name, EffectiveCapacity(rm), |ids|), ids)]
          else []
        case None => []
  {
    SlotRoomTally(es, db, r);
    RoomTally(es, r);
  }

  /** A slot reports class `c` double-booked exactly when the slot holds at
      least two entries, `c` resolves and at least two entries name it; there
      is no capacity tolerance for classes. */
  lemma SlotClassConflicts(es: seq<Entry>, db: Store, c: string)
    ensures var ids := EntryIds(InClass(es, c));
      ConflictsFor(SlotConflicts(es, db), ClassClash, c) ==
        match FindClass(db.classGrades, c)
        case Some(cg) => if |es| > 1 && |ids| > 1 then [Conflict(ClassClash, c, ClassDoubleBooked(cg.name), ids)] else []
        case None => []
  {
    SlotClassTally(es, db, c);
    ClassTally(es, c);
  }

  /** The capacity threshold is exact: with capacity N >= 1, N entries in the
      room raise nothing and N + 1 raise exactly one conflict. */
  lemma RoomCapacityBoundary(es: seq<Entry>, db: Store, r: string, rm: Room)
    requires |es| > 1 && FindRoom(db.rooms, r) == Some(rm)
    requires rm.capacity.Some? && rm.capacity.value >= 1
    ensures |InRoom(es, r)| <= rm.capacity.value ==> ConflictsFor(SlotConflicts(es, db), RoomClash, r) == []
    ensures |InRoom(es, r)| == rm.capacity.value + 1 ==> |ConflictsFor(SlotConflicts(es, db), RoomClash, r)| == 1
  {
    SlotRoomConflicts(es, db, r);
  }

  /** A missing or zero capacity behaves as capacity 1: two entries in the
      room already conflict. */
  lemma RoomWithoutCapacity(es: seq<Entry>, db: Store, r: string, rm: Room)
    requires |es| > 1 && FindRoom(db.rooms, r) == Some(rm)
    requires rm.capacity.None? || rm.capacity.value == 0
    ensures ConflictsFor(SlotConflicts(es, db), RoomClash, r) != [] <==> |InRoom(es, r)| >= 2
  {
    SlotRoomConflicts(es, db, r);
  }

  /** An event entry that lists a teacher both directly and as an event
      default counts twice for that teacher. */
  lemma EventTeacherCountsTwice(e: Entry, t: string, events: seq<EventActivity>, ev: EventActivity)
    requires EventOf(events, e) == Some(ev)
    requires Occurrences(IdsOf(e.teacherIds), t) == 1 && Occurrences(IdsOf(ev.affectedTeacherIds), t) == 1
    ensures TeacherInvolved([e], t, events) == [e.id, e.id]
  {
    assert [e][1..] == [];
  }

  // ---------------------------------------------------------------------
  // The whole schedule.

  lemma {:induction false} SlotsConflictsMember(slots: seq<((int, int), seq<Entry>)>, db: Store, c: Conflict)
    ensures c in SlotsConflicts(slots, db) <==> exists i | 0 <= i < |slots| :: c in SlotConflicts(slots[i].1, db)
  {
    if slots != [] {
      SlotsConflictsMember(slots[1..], db, c);
      if c in SlotsConflicts(slots[1..], db) {
        var i :| 0 <= i < |slots[1..]| && c in SlotConflicts(slots[1..][i].1, db);
        assert slots[i + 1] == slots[1..][i];
      }
      if exists i | 0 <= i < |slots| :: c in SlotConflicts(slots[i].1, db) {
        var i :| 0 <= i < |slots| && c in SlotConflicts(slots[i].1, db);
        assert i == 0 || slots[i] == slots[1..][i - 1];
      }
    }
  }

  /** Conflicts are computed slot by slot: a conflict is reported exactly when
      it is reported for the entries of one occupied (day, period) slot. */
  lemma DetectMember(s: seq<Entry>, db: Store, c: Conflict)
    ensures c in Detect(s, db) <==> exists k | k in KeysOf(s, SlotOf) :: c in SlotConflicts(KeyFilter(s, SlotOf, k), db)
  {
    if c in Detect(s, db) {
      DetectFrom(s, db, c);
    }
    if exists k | k in KeysOf(s, SlotOf) :: c in SlotConflicts(KeyFilter(s, SlotOf, k), db) {
      var k :| k in KeysOf(s, SlotOf) && c in SlotConflicts(KeyFilter(s, SlotOf, k), db);
      DetectTo(s, db, c, k);
    }
  }

  lemma DetectFrom(s: seq<Entry>, db: Store, c: Conflict)
    requires c in Detect(s, db)
    ensures exists k | k in KeysOf(s, SlotOf) :: c in SlotConflicts(KeyFilter(s, SlotOf, k), db)
  {
    var slots := GroupBy(s, SlotOf);
    GroupBySpec(s, SlotOf);
    SlotsConflictsMember(slots, db, c);
    var i :| 0 <= i < |slots| && c in SlotConflicts(slots[i].1, db);
    assert slots[i].0 == KeysOf(s, SlotOf)[i];
  }

  lemma DetectTo(s: seq<Entry>, db: Store, c: Conflict, k: (int, int))
    requires k in KeysOf(s, SlotOf) && c in SlotConflicts(KeyFilter(s, SlotOf, k), db)
    ensures c in Detect(s, db)
  {
    var slots := GroupBy(s, SlotOf);
    GroupBySpec(s, SlotOf);
    SlotsConflictsMember(slots, db, c);
    var i :| 0 <= i < |slots| && KeysOf(s, SlotOf)[i] == k;
    assert Firsts(slots)[i] == k;
  }

  lemma {:induction false} TeacherInvolvedWithin(es: seq<Entry>, t: string, events: seq<EventActivity>)
    ensures forall id | id in TeacherInvolved(es, t, events) :: id in EntryIds(es)
  {
    if es != [] {
      TeacherInvolvedWithin(es[1..], t, events);
      assert EntryIds(es) == [es[0].id] + EntryIds(es[1..]);
    }
  }

  lemma {:induction false} InRoomWithin(es: seq<Entry>, r: string)
    ensures forall id | id in EntryIds(InRoom(es, r)) :: id in EntryIds(es)
  {
    if es != [] {
      InRoomWithin(es[1..], r);
      var head := if Filled(es[0].roomId) && es[0].roomId.value == r then [es[0]] else [];
      EntryIdsConcat(head, InRoom(es[1..], r));
      assert EntryIds(es) == [es[0].id] + EntryIds(es[1..]);
    }
  }

  lemma {:induction false} InClassWithin(es: seq<Entry>, c: string)
    ensures forall id | id in EntryIds(InClass(es, c)) :: id in EntryIds(es)
  {
    if es != [] {
      InClassWithin(es[1..], c);
      var head := if Filled(es[0].classGradeId) && es[0].classGradeId.value == c then [es[0]] else [];
      EntryIdsConcat(head, InClass(es[1..], c));
      assert EntryIds(es) == [es[0].id] + EntryIds(es[1..]);
    }
  }

  /** Every conflict of a slot comes from a slot of at least two entries and
      names only entries of that slot. */
  lemma SlotConflictWithin(es: seq<Entry>, db: Store, c: Conflict)
    requires c in SlotConflicts(es, db)
    ensures |es| >= 2
    ensures forall id | id in c.involved :: id in EntryIds(es)
  {
    ConflictsForMember(SlotConflicts(es, db), c);
    match c.kind {
      case TeacherClash =>
        SlotTeacherConflicts(es, db, c.resource);
        TeacherInvolvedWithin(es, c.resource, db.eventActivities);
      case RoomClash =>
        SlotRoomConflicts(es, db, c.resource);
        InRoomWithin(es, c.resource);
      case ClassClash =>
        SlotClassConflicts(es, db, c.resource);
        InClassWithin(es, c.resource);
    }
  }

  /** Every reported conflict belongs to a single (day, period) slot that
      holds at least two entries, and every id it names is an entry of that
      slot. */
  lemma DetectWithinOneSlot(s: seq<Entry>, db: Store, c: Conflict)
    requires c in Detect(s, db)
    ensures exists k | k in KeysOf(s, SlotOf) ::
      |KeyFilter(s, SlotOf, k)| >= 2 && forall id | id in c.involved :: id in EntryIds(KeyFilter(s, SlotOf, k))
  {
    DetectMember(s, db, c);
    var k :| k in KeysOf(s, SlotOf) && c in SlotConflicts(KeyFilter(s, SlotOf, k), db);
    SlotConflictWithin(KeyFilter(s, SlotOf, k), db, c);
  }

  /** Two stores that agree on the four lists conflict detection looks up. */
  predicate SameLookups(a: Store, b: Store) {
    a.teachers == b.teachers && a.rooms == b.rooms && a.classGrades == b.classGrades
    && a.eventActivities == b.eventActivities
  }

  /** Detection reads nothing of the store but its teachers, rooms, classes
      and events, so changing the schedule's settings-like objects or its
      subjects leaves the conflicts as they are. */
  lemma {:induction false} SlotsConflictsUseLookups(slots: seq<((int, int), seq<Entry>)>, a: Store, b: Store)
    requires SameLookups(a, b)
    ensures SlotsConflicts(slots, a) == SlotsConflicts(slots, b)
  {
    if slots != [] {
      SlotsConflictsUseLookups(slots[1..], a, b);
    }
  }

  lemma DetectUsesLookups(s: seq<Entry>, a: Store, b: Store)
    requires SameLookups(a, b)
    ensures Detect(s, a) == Detect(s, b)
  {
    SlotsConflictsUseLookups(GroupBy(s, SlotOf), a, b);
  }

  // ---------------------------------------------------------------------
  // Two entries sharing a slot and a resource.

  lemma {:induction false} ConflictsForWithin(cs: seq<Conflict>, kind: Kind, r: string, c: Conflict)
    requires c in ConflictsFor(cs, kind, r)
    ensures c in cs && c.kind == kind && c.resource == r
  {
    if cs[0] != c || !(cs[0].kind == kind && cs[0].resource == r) {
      ConflictsForWithin(cs[1..], kind, r, c);
    }
  }

  /** Every entry that uses teacher `t` is named in the teacher's tally. */
  lemma {:induction false} InvolvedHas(es: seq<Entry>, t: string, events: seq<EventActivity>, x: Entry)
    requires x in es && EntryTeacherCount(x, t, events) >= 1
    ensures x.id in TeacherInvolved(es, t, events)
  {
    if es[0] != x {
      InvolvedHas(es[1..], t, events, x);
    } else {
      assert Repeat(x.id, EntryTeacherCount(x, t, events))[0] == x.id;
    }
  }

  /** Every entry naming class `c` is named in the class's tally. */
  lemma {:induction false} InClassHas(es: seq<Entry>, c: string, x: Entry)
    requires x in es && Filled(x.classGradeId) && x.classGradeId.value == c
    ensures x.id in EntryIds(InClass(es, c))
  {
    if es[0] != x {
      InClassHas(es[1..], c, x);
      EntryIdsConcat(if Filled(es[0].classGradeId) && es[0].classGradeId.value == c then [es[0]] else [], InClass(es[1..], c));
    } else {
      EntryIdsConcat([x], InClass(es[1..], c));
    }
  }

  /** Two distinct ids in a sequence make it at least two long. */
  lemma TwoIds(ids: seq<string>, a: string, b: string)
    requires a in ids && b in ids && a != b
    ensures |ids| >= 2
  {
  }

  /** The entries of the slot of `x`, with `x` and `y` among them. */
  lemma SharedSlot(s: seq<Entry>, x: Entry, y: Entry)
    requires x in s && y in s && SlotOf(x) == SlotOf(y) && x.id != y.id
    ensures var es := KeyFilter(s, SlotOf, SlotOf(x));
      x in es && y in es && |es| >= 2 && SlotOf(x) in KeysOf(s, SlotOf)
  {
    var es := KeyFilter(s, SlotOf, SlotOf(x));
    KeyFilterMembership(s, SlotOf, SlotOf(x), x);
    KeyFilterMembership(s, SlotOf, SlotOf(x), y);
    KeysOfSpec(s, SlotOf);
  }

  /** Two different entries in the same slot that both use a resolvable
      teacher raise a teacher conflict naming both, wherever they stand in
      the schedule. A use is a listing in the entry's `teacherIds` or in its
      resolved event's default teachers. */
  lemma SharedTeacherConflict(s: seq<Entry>, db: Store, x: Entry, y: Entry, t: string)
    requires x in s && y in s && SlotOf(x) == SlotOf(y) && x.id != y.id
    requires EntryTeacherCount(x, t, db.eventActivities) >= 1 && EntryTeacherCount(y, t, db.eventActivities) >= 1
    requires FindTeacher(db.teachers, t).Some?
    ensures exists c | c in Detect(s, db) :: c.kind == TeacherClash && c.resource == t && x.id in c.involved && y.id in c.involved
  {
    var es := KeyFilter(s, SlotOf, SlotOf(x));
    SharedSlot(s, x, y);
    var ids := TeacherInvolved(es, t, db.eventActivities);
    InvolvedHas(es, t, db.eventActivities, x);
    InvolvedHas(es, t, db.eventActivities, y);
    TwoIds(ids, x.id, y.id);
    SlotTeacherConflicts(es, db, t);
    var tc := FindTeacher(db.teachers, t).value;
    var c := Conflict(TeacherClash, t, TeacherDoubleBooked(tc.prefix, tc.name), ids);
    assert c in ConflictsFor(SlotConflicts(es, db), TeacherClash, t);
    ConflictsForWithin(SlotConflicts(es, db), TeacherClash, t, c);
    DetectMember(s, db, c);
  }

  /** Two different entries in the same slot naming the same resolvable
      class always raise a class conflict naming both: classes have no
      capacity tolerance. */
  lemma SharedClassConflict(s: seq<Entry>, db: Store, x: Entry, y: Entry, cid: string)
    requires x in s && y in s && SlotOf(x) == SlotOf(y) && x.id != y.id
    requires x.classGradeId == Some(cid) && y.classGradeId == Some(cid) && cid != ""
    requires FindClass(db.classGrades, cid).Some?
    ensures exists c | c in Detect(s, db) :: c.kind == ClassClash && c.resource == cid && x.id in c.involved && y.id in c.involved
  {
    var es := KeyFilter(s, SlotOf, SlotOf(x));
    SharedSlot(s, x, y);
    var ids := EntryIds(InClass(es, cid));
    InClassHas(es, cid, x);
    InClassHas(es, cid, y);
    TwoIds(ids, x.id, y.id);
    SlotClassConflicts(es, db, cid);
    var cg := FindClass(db.classGrades, cid).value;
    var c := Conflict(ClassClash, cid, ClassDoubleBooked(cg.name), ids);
    assert c in ConflictsFor(SlotConflicts(es, db), ClassClash, cid);
    ConflictsForWithin(SlotConflicts(es, db), ClassClash, cid, c);
    DetectMember(s, db, c);
  }
}
