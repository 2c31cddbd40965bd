/** One client: its local copy of the timetable, the conflicts it shows and
    its connection. Every change is applied locally at once and, when the
    socket is open, sent to the server as the matching action; a state
    frame from the server replaces the whole store.

    Conflicts are recomputed whenever the schedule or a list detection
    looks up (teachers, rooms, classes, events) changes; a `ClientState` is
    described after that recomputation has run. */
module Client {
  import opened Wrappers
  import opened Seqs
  import opened Strings
  import opened JsonValues
  import opened Entities
  import opened Conflicts
  import opened Actions
  import opened Defaults
  import opened Loading
  import opened Socket

  datatype ClientState = ClientState(store: Store, conflicts: seq<Conflict>, hook: Hook)

  /** A client after one user operation, and the action it sent, if any. */
  datatype Step = Step(client: ClientState, sent: Option<Action>)

  /** The shown conflicts are those of the current schedule and lookups. */
  predicate Settled(c: ClientState) {
    c.conflicts == Detect(c.store.schedule, c.store)
  }

  /** A freshly mounted client holding `st`: its conflicts computed and a
      first connection attempt under way. */
  function Start(st: Store): (c: ClientState)
    ensures c.store == st && Settled(c)
    ensures c.hook.status == StatusConnecting && Consistent(c.hook)
  {
    MountConsistent();
    ClientState(st, Detect(st.schedule, st), Mount())
  }

  // ---------------------------------------------------------------------
  // Local operations

  /** A new store after a change of the schedule or of a lookup list: the
      conflicts are recomputed and the action is sent if the socket is
      open. */
  function Commit(c: ClientState, st: Store, a: Action): (r: Step)
    ensures r.client.store == st && r.client.hook == c.hook && Settled(r.client)
    ensures r.sent == Send(c.hook, a)
  {
    Step(ClientState(st, Detect(st.schedule, st), c.hook), Send(c.hook, a))
  }

  /** `addSchedule`: the draft is appended under a fresh id; the server is
      sent the draft and picks its own id. */
  function AddEntry(c: ClientState, draft: Entry, id: string): (r: Step)
    ensures r.client.store == c.store.(schedule := c.store.schedule + [Stamp(draft, id)])
    ensures r.client.hook == c.hook && Settled(r.client)
    ensures r.sent == Send(c.hook, AddSchedule(draft))
  {
    Commit(c, c.store.(schedule := c.store.schedule + [Stamp(draft, id)]), AddSchedule(draft))
  }

  /** `bulkAddScheduleForEvent`: one entry per affected class, or a single
      class-less entry, appended with fresh ids. */
  function BulkAddEvent(c: ClientState, ev: EventActivity, day: int, period: int, ids: seq<string>): (r: Step)
    requires |ids| >= BulkSize(ev)
    ensures r.client.store == c.store.(schedule := c.store.schedule + BulkEntries(ev, day, period, ids))
    ensures r.client.hook == c.hook && Settled(r.client)
    ensures r.sent == Send(c.hook, BulkAddScheduleForEvent(ev, day, period))
  {
    Commit(c, c.store.(schedule := c.store.schedule + BulkEntries(ev, day, period, ids)),
      BulkAddScheduleForEvent(ev, day, period))
  }

  /** `updateSchedule`: every entry with the id is replaced. */
  function UpdateEntry(c: ClientState, e: Entry): (r: Step)
    ensures r.client.store == c.store.(schedule := ReplaceById(c.store.schedule, e))
    ensures r.client.hook == c.hook && Settled(r.client)
    ensures r.sent == Send(c.hook, UpdateSchedule(e))
  {
    Commit(c, c.store.(schedule := ReplaceById(c.store.schedule, e)), UpdateSchedule(e))
  }

  /** `deleteSchedule`: every entry with the id is removed. */
  function DeleteEntry(c: ClientState, id: string): (r: Step)
    ensures r.client.store == c.store.(schedule := RemoveById(c.store.schedule, id))
    ensures r.client.hook == c.hook && Settled(r.client)
    ensures r.sent == Send(c.hook, DeleteSchedule(id))
  {
    Commit(c, c.store.(schedule := RemoveById(c.store.schedule, id)), DeleteSchedule(id))
  }

  /** `moveSchedule`: every entry with the id gets the new day and period. */
  function MoveEntry(c: ClientState, id: string, day: int, period: int): (r: Step)
    ensures r.client.store == c.store.(schedule := MoveById(c.store.schedule, id, day, period))
    ensures r.client.hook == c.hook && Settled(r.client)
    ensures r.sent == Send(c.hook, MoveSchedule(id, day, period))
  {
    Commit(c, c.store.(schedule := MoveById(c.store.schedule, id, day, period)), MoveSchedule(id, day, period))
  }

  /** `updateMasterData`: one master-data list replaced wholesale, the
      schedule untouched; the server is sent the list under its key.
      Detection looks teachers, rooms, classes and events up, never
      subjects, so a new teacher, room, class or event list recomputes the
      conflicts while a new subject list leaves the shown ones as they are
      (a dismissed notification stays dismissed). */
  function ReplaceMasterData(c: ClientState, data: Collection): (r: Step)
    requires IsMasterData(data)
    ensures r.client.store == SetCollection(c.store, data)
    ensures r.client.store.schedule == c.store.schedule && r.client.hook == c.hook
    ensures data.SubjectList? ==> r.client.conflicts == c.conflicts
    ensures !data.SubjectList? ==> Settled(r.client)
    ensures Settled(c) ==> Settled(r.client)
    ensures r.sent == Send(c.hook, UpdateMasterData(CollectionKey(data), data))
  {
    var st := SetCollection(c.store, data);
    if data.SubjectList? then
      DetectUsesLookups(st.schedule, st, c.store);
      Step(c.(store := st), Send(c.hook, UpdateMasterData(CollectionKey(data), data)))
    else
      Commit(c, st, UpdateMasterData(CollectionKey(data), data))
  }

  /** The four settings-like objects. */
  datatype Singleton = SettingsObj | InstitutionObj | CalendarObj | PrintObj

  function SingletonOf(st: Store, which: Singleton): Obj {
    match which
    case SettingsObj => st.settings
    case InstitutionObj => st.institutionDetails
    case CalendarObj => st.academicCalendar
    case PrintObj => st.printSettings
  }

  /** The store with one singleton replaced. */
  function WithSingleton(st: Store, which: Singleton, o: Obj): (r: Store)
    ensures SingletonOf(r, which) == o
    ensures forall w | w != which :: SingletonOf(r, w) == SingletonOf(st, w)
    ensures r.schedule == st.schedule && SameLookups(r, st) && r.subjects == st.subjects
  {
    match which
    case SettingsObj => st.(settings := o)
    case InstitutionObj => st.(institutionDetails := o)
    case CalendarObj => st.(academicCalendar := o)
    case PrintObj => st.(printSettings := o)
  }

  /** The action that carries a new singleton object. */
  function SingletonAction(which: Singleton, o: Obj): (a: Action)
    ensures !IsScheduleAction(a) && IdsNeeded(a) == 0
  {
    match which
    case SettingsObj => SetSettings(o)
    case InstitutionObj => SetInstitutionDetails(o)
    case CalendarObj => SetAcademicCalendar(o)
    case PrintObj => SetPrintSettings(o)
  }

  /** `setSettings`, `setInstitutionDetails`, `setAcademicCalendar`,
      `setPrintSettings`: the object is replaced as a whole locally (the
      server merges it). Conflicts are not recomputed, and need not be. */
  function ReplaceSingleton(c: ClientState, which: Singleton, o: Obj): (r: Step)
    ensures r.client.store == WithSingleton(c.store, which, o)
    ensures r.client.conflicts == c.conflicts && r.client.hook == c.hook
    ensures Settled(c) ==> Settled(r.client)
    ensures r.sent == Send(c.hook, SingletonAction(which, o))
  {
    var st := WithSingleton(c.store, which, o);
    DetectUsesLookups(st.schedule, st, c.store);
    Step(c.(store := st), Send(c.hook, SingletonAction(which, o)))
  }

  /** `clearAllData`: the client loads its own sample data and asks the
      server to reset. */
  function ClearAll(c: ClientState): (r: Step)
    ensures r.client.store == ClientDefault()
    ensures r.client.hook == c.hook && Settled(r.client)
    ensures r.sent == Send(c.hook, ClearAllData)
  {
    ReceiveRoundTrip(ClientDefault());
    var loaded := LoadFullState(Encode(ClientDefault()));
    assert loaded == Some(ClientDefault()) by {
      ClientDefaultsHaveNoNulls();
      var d := ClientDefault();
      assert Fits(d.settings, d.settings) && Fits(d.institutionDetails, d.institutionDetails);
      assert Fits(d.academicCalendar, d.academicCalendar) && Fits(d.printSettings, d.printSettings);
    }
    Commit(c, loaded.value, ClearAllData)
  }

  /** `clearConflicts`: the notification is dismissed until the next change
      of the schedule or of the teacher, room, class or event list. */
  function DismissConflicts(c: ClientState): (r: ClientState)
    ensures r.conflicts == [] && r.store == c.store && r.hook == c.hook
    ensures Settled(r) <==> Detect(c.store.schedule, c.store) == []
  {
    c.(conflicts := [])
  }

  // ---------------------------------------------------------------------
  // Connection

  /** A frame from the server. An accepted snapshot replaces the whole
      store; a frame that is not JSON, not an object or has no truthy
      `settings` is ignored. */
  function ReceiveFrame(c: ClientState, f: Frame): (r: ClientState)
    ensures r.hook == c.hook
    ensures Accept(f).None? ==> r == c
    ensures Accept(f).Some? && Loadable(Accept(f).value) ==>
      Some(r.store) == LoadFullState(Accept(f).value) && Settled(r)
  {
    match Accept(f)
    case Some(p) =>
      (match LoadFullState(p)
       case Some(st) => ClientState(st, Detect(st.schedule, st), c.hook)
       case None => c)
    case None => c
  }

  /** `retryConnection`. */
  function RetryConnection(c: ClientState): (r: ClientState)
    ensures r.store == c.store && r.conflicts == c.conflicts
    ensures r.hook.status == StatusConnecting
    ensures Consistent(c.hook) ==> Consistent(r.hook)
  {
    if Consistent(c.hook) then
      ConnectConsistent(c.hook);
      c.(hook := Connect(c.hook))
    else
      c.(hook := Connect(c.hook))
  }

  /** A socket event: only the connection changes. */
  function OnSocket(c: ClientState, ev: SocketEvent): (r: ClientState)
    ensures r.store == c.store && r.conflicts == c.conflicts
    ensures Consistent(c.hook) ==> Consistent(r.hook)
  {
    if Consistent(c.hook) then
      OnEventConsistent(c.hook, ev);
      c.(hook := OnEvent(c.hook, ev))
    else
      c.(hook := OnEvent(c.hook, ev))
  }

  /** The server's snapshot of a state that fits the client's defaults
      becomes the client's store, whatever the client held before: local
      changes the server did not apply are lost. */
  lemma ReceiveAdoptsServerState(c: ClientState, st: Store)
    requires FitsClient(st)
    ensures ReceiveFrame(c, Parsed(Object(Encode(st)))) == ClientState(st, Detect(st.schedule, st), c.hook)
  {
    BroadcastAccepted(st);
    ReceiveRoundTrip(st);
  }

  /** Two clients receiving the same snapshot hold the same store and show
      the same conflicts afterwards. */
  lemma SameFrameSameStore(c1: ClientState, c2: ClientState, st: Store)
    requires Loadable(Encode(st))
    ensures var r1, r2 := ReceiveFrame(c1, Parsed(Object(Encode(st)))), ReceiveFrame(c2, Parsed(Object(Encode(st))));
      r1.store == r2.store && r1.conflicts == r2.conflicts
  {
    BroadcastAccepted(st);
  }

  /** Local changes apply whether or not the socket is open; an action is
      sent exactly when the user sees the status open. */
  lemma OfflineChangesStayLocal(c: ClientState, draft: Entry, id: string)
    requires Consistent(c.hook)
    ensures AddEntry(c, draft, id).client.store.schedule == c.store.schedule + [Stamp(draft, id)]
    ensures AddEntry(c, draft, id).sent.Some? <==> c.hook.status == StatusOpen
    ensures c.hook.status != StatusOpen ==> AddEntry(c, draft, id).sent == None
  {
    SendIffShownOpen(c.hook, AddSchedule(draft));
  }

  // ---------------------------------------------------------------------
  // Departments

  /** The distinct non-empty labels among `names`, in ascending order
      (`Array.from(new Set(names.filter(Boolean))).sort()`). */
  function SortedLabels(names: seq<string>): seq<string> {
    SortBy(Distinct(Filter(names, (d: string) => d != "")), (d: string) => d, Less)
  }

  /** A label is listed exactly when it is non-empty and among the names. */
  lemma SortedLabelsMembers(names: seq<string>, d: string)
    ensures d in SortedLabels(names) <==> d != "" && d in names
  {
    var all := Filter(names, (d: string) => d != "");
    var r := SortedLabels(names);
    assert d in r <==> d in multiset(r);
    assert d in Distinct(all) <==> d in all;
    FilterMembership(names, (d: string) => d != "", d);
  }

  /** The list is strictly ascending, hence without repeats. */
  lemma SortedLabelsAscending(names: seq<string>)
    ensures forall i, j | 0 <= i < j < |SortedLabels(names)| :: Less(SortedLabels(names)[i], SortedLabels(names)[j])
  {
    var all := Filter(names, (d: string) => d != "");
    var r := SortedLabels(names);
    LessIsStrictOrder();
    SortBySorted(Distinct(all), (d: string) => d, Less);
    PermutationNoDup(Distinct(all), r);
    forall i, j | 0 <= i < j < |r| ensures Less(r[i], r[j]) {
      LessTotal(r[i], r[j]);
    }
  }

  /** The distinct non-empty departments of the teachers, in ascending
      order. */
  function Departments(ts: seq<Teacher>): seq<string> {
    SortedLabels(MapSeq(ts, (t: Teacher) => t.department))
  }

  /** A department is listed exactly when it is non-empty and some teacher
      belongs to it. */
  lemma DepartmentsMembers(ts: seq<Teacher>, d: string)
    ensures d in Departments(ts) <==> d != "" && exists i | 0 <= i < |ts| :: ts[i].department == d
  {
    var names := MapSeq(ts, (t: Teacher) => t.department);
    SortedLabelsMembers(names, d);
    if d in names {
      var i :| 0 <= i < |names| && names[i] == d;
      assert ts[i].department == d;
    }
  }

  /** The list is strictly ascending, hence without repeats. */
  lemma DepartmentsAscending(ts: seq<Teacher>)
    ensures forall i, j | 0 <= i < j < |Departments(ts)| :: Less(Departments(ts)[i], Departments(ts)[j])
  {
    SortedLabelsAscending(MapSeq(ts, (t: Teacher) => t.department));
  }
}
