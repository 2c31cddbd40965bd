/** The dashboard's room usage: periods each room is booked against the
    periods available in a week, with over- and under-used rooms. */
module RoomLoad {
  import opened Wrappers
  import opened Seqs
  import opened Strings
  import opened JsonValues
  import opened Entities
  import opened NumberRuns
  import opened PeriodGaps
  import opened Dashboard

  /** `daysPerWeek * periodsPerDay`, each `|| 0`. */
  function PeriodsAvailable(settings: Obj): int {
    NumOr(settings, "daysPerWeek", 0) * NumOr(settings, "periodsPerDay", 0)
  }

  /** Entries held in the room. */
  function RoomUse(schedule: seq<Entry>, rid: string): nat {
    |Filter(schedule, (e: Entry) => e.roomId == Some(rid))|
  }

  function RoomIdOf(r: Room): string {
    r.id
  }

  /** The name the last room with this id carries: a later room with the
      same id overwrites the record's value but not its place. */
  function LastName(rooms: seq<Room>, rid: string): string {
    if rooms == [] then ""
    else if rooms[|rooms| - 1].id == rid then rooms[|rooms| - 1].name
    else LastName(rooms[..|rooms| - 1], rid)
  }

  datatype RoomUsage = RoomUsage(id: string, name: string, used: nat)

  /** `Object.values(roomSpecificUtilization)`: one record per room id, in
      order of first appearance. */
  function RoomUsages(db: Store): seq<RoomUsage> {
    MapSeq(KeysOf(db.rooms, RoomIdOf), (rid: string) => RoomUsage(rid, LastName(db.rooms, rid), RoomUse(db.schedule, rid)))
  }

  /** Used in more than nine tenths of the available periods. */
  predicate OverUsed(total: int, u: RoomUsage) {
    total > 0 && 10 * u.used > 9 * total
  }

  /** Used in less than four tenths of the available periods. */
  predicate UnderUsed(total: int, u: RoomUsage) {
    total > 0 && 10 * u.used < 4 * total
  }

  /** Over a positive divisor, a quotient exceeds a bound exactly when the
      dividend exceeds the bound times the divisor. */
  lemma QuotientBounds(x: real, t: real, c: real)
    requires t > 0.0
    ensures x / t > c <==> x > c * t
    ensures x / t < c <==> x < c * t
  {
    var q := x / t;
    assert q * t == x;
    if q > c { assert q * t > c * t; }
    if q < c { assert q * t < c * t; }
    if q <= c { assert q * t <= c * t; }
    if q >= c { assert q * t >= c * t; }
  }

  /** The integer tests agree with the ratios the dashboard compares, and
      no room is both over- and under-used. */
  lemma UsageRatios(total: int, u: RoomUsage)
    ensures OverUsed(total, u) <==> total > 0 && u.used as real / total as real > 0.9
    ensures UnderUsed(total, u) <==> total > 0 && u.used as real / total as real < 0.4
    ensures !(OverUsed(total, u) && UnderUsed(total, u))
  {
    if total > 0 {
      QuotientBounds(u.used as real, total as real, 0.9);
      QuotientBounds(u.used as real, total as real, 0.4);
    }
  }

  function OverTest(total: int): RoomUsage -> bool {
    (u: RoomUsage) => OverUsed(total, u)
  }

  function UnderTest(total: int): RoomUsage -> bool {
    (u: RoomUsage) => UnderUsed(total, u)
  }

  function OverUsedRooms(db: Store): seq<RoomUsage> {
    Filter(RoomUsages(db), OverTest(PeriodsAvailable(db.settings)))
  }

  function UnderUsedRooms(db: Store): seq<RoomUsage> {
    Filter(RoomUsages(db), UnderTest(PeriodsAvailable(db.settings)))
  }

  /** Each room id is listed once, with the entries that use it; the
      over-used and under-used lists never share a room. */
  lemma RoomUsagesSpec(db: Store, rid: string)
    ensures (exists i | 0 <= i < |RoomUsages(db)| :: RoomUsages(db)[i].id == rid)
      <==> exists r | r in db.rooms :: r.id == rid
    ensures forall i, j | 0 <= i < j < |RoomUsages(db)| :: RoomUsages(db)[i].id != RoomUsages(db)[j].id
    ensures forall u | u in RoomUsages(db) :: u.used == RoomUse(db.schedule, u.id)
    ensures forall u | u in OverUsedRooms(db) :: u !in UnderUsedRooms(db)
  {
    var ks := KeysOf(db.rooms, RoomIdOf);
    var us := RoomUsages(db);
    KeysOfSpec(db.rooms, RoomIdOf);
    KeysOfMembership(db.rooms, RoomIdOf, rid);
    if rid in ks {
      var i :| 0 <= i < |ks| && ks[i] == rid;
      assert us[i].id == rid;
    }
    forall u | u in OverUsedRooms(db) ensures u !in UnderUsedRooms(db) {
      var total := PeriodsAvailable(db.settings);
      FilterMembership(us, UnderTest(total), u);
      UsageRatios(total, u);
    }
  }
}
