/** The authoritative server: it applies every inbound action to its one
    canonical state, one message at a time, and after each message that
    parses and applies it broadcasts the whole state to every open client.

    `Apply` is the server with its reset behaving as intended. `World` is the
    server as written, where the sample schedule array is shared by reference
    with the live state, so entries added in place survive a reset. */
module Server {
  import opened Wrappers
  import opened Seqs
  import opened JsonValues
  import opened Entities
  import opened Actions
  import opened Defaults
  import opened Loading
  import opened Transport

  /** The server's bulk add: one entry per affected class is pushed onto the
      schedule, each with the next fresh id. */
  function PushEvents(s: seq<Entry>, ev: EventActivity, classes: seq<string>, day: int, period: int, ids: seq<string>): (r: seq<Entry>)
    requires |ids| >= |classes|
    ensures |r| == |s| + |classes| && r[..|s|] == s
    decreases |classes|
  {
    if classes == [] then s
    else PushEvents(s + [EventEntry(ids[0], day, period, ev.id, Some(classes[0]))], ev, classes[1..], day, period, ids[1..])
  }

  /** Pushing one entry at a time gives the same schedule as appending the
      list the client builds. */
  lemma {:induction false} PushEventsAppends(s: seq<Entry>, ev: EventActivity, classes: seq<string>, day: int, period: int, ids: seq<string>)
    requires |ids| >= |classes|
    ensures PushEvents(s, ev, classes, day, period, ids) ==
      s + seq(|classes|, i requires 0 <= i < |classes| => EventEntry(ids[i], day, period, ev.id, Some(classes[i])))
    decreases |classes|
  {
    if classes != [] {
      var head := EventEntry(ids[0], day, period, ev.id, Some(classes[0]));
      PushEventsAppends(s + [head], ev, classes[1..], day, period, ids[1..]);
      var all := seq(|classes|, i requires 0 <= i < |classes| => EventEntry(ids[i], day, period, ev.id, Some(classes[i])));
      var tail := seq(|classes[1..]|, i requires 0 <= i < |classes[1..]| => EventEntry(ids[1..][i], day, period, ev.id, Some(classes[1..][i])));
      assert all == [head] + tail;
    }
  }

  /** The server's handling of the five schedule actions. */
  function ApplySchedule(s: seq<Entry>, a: Action, ids: seq<string>): (r: seq<Entry>)
    requires IsScheduleAction(a) && |ids| >= IdsNeeded(a)
    ensures a.AddSchedule? ==> r == s + [Stamp(a.draft, ids[0])]
    ensures a.BulkAddScheduleForEvent? ==> r == s + BulkEntries(a.event, a.day, a.period, ids)
    ensures a.UpdateSchedule? ==> r == ReplaceById(s, a.entry)
    ensures a.DeleteSchedule? ==> r == RemoveById(s, a.id)
    ensures a.MoveSchedule? ==> r == MoveById(s, a.id, a.newDay, a.newPeriod)
  {
    match a
    case AddSchedule(draft) => s + [Stamp(draft, ids[0])]
    case BulkAddScheduleForEvent(ev, day, period) =>
      if |BulkClasses(ev)| > 0 then
        PushEventsAppends(s, ev, BulkClasses(ev), day, period, ids);
        PushEvents(s, ev, BulkClasses(ev), day, period, ids)
      else
        s + [EventEntry(ids[0], day, period, ev.id, None)]
    case UpdateSchedule(e) => ReplaceById(s, e)
    case DeleteSchedule(id) => RemoveById(s, id)
    case MoveSchedule(id, day, period) => MoveById(s, id, day, period)
  }

  /** The server's `handleAction` with the reset rebuilding the pristine
      defaults. */
  function Apply(st: Store, a: Action, ids: seq<string>): (r: Store)
    requires |ids| >= IdsNeeded(a)
    ensures IsScheduleAction(a) ==> r == st.(schedule := r.schedule)
    ensures a.AddSchedule? ==> r.schedule == st.schedule + [Stamp(a.draft, ids[0])]
    ensures a.BulkAddScheduleForEvent? ==> r.schedule == st.schedule + BulkEntries(a.event, a.day, a.period, ids)
    ensures a.UpdateSchedule? ==> r.schedule == ReplaceById(st.schedule, a.entry)
    ensures a.DeleteSchedule? ==> r.schedule == RemoveById(st.schedule, a.id)
    ensures a.MoveSchedule? ==> r.schedule == MoveById(st.schedule, a.id, a.newDay, a.newPeriod)
    ensures a.UpdateMasterData? ==>
      r == (if a.key in StateKeys && a.key == CollectionKey(a.data) then SetCollection(st, a.data) else st)
    ensures a.SetSettings? ==> r == st.(settings := Spread(st.settings, a.patch))
    ensures a.SetInstitutionDetails? ==> r == st.(institutionDetails := Spread(st.institutionDetails, a.patch))
    ensures a.SetAcademicCalendar? ==> r == st.(academicCalendar := Spread(st.academicCalendar, a.patch))
    ensures a.SetPrintSettings? ==> r == st.(printSettings := Spread(st.printSettings, a.patch))
    ensures a.ClearAllData? ==> r == ServerDefault()
    ensures a.Unknown? ==> r == st
  {
    if IsScheduleAction(a) then st.(schedule := ApplySchedule(st.schedule, a, ids))
    else
      match a
      case UpdateMasterData(key, data) =>
        if key in StateKeys && key == CollectionKey(data) then SetCollection(st, data) else st
      case SetSettings(p) => st.(settings := Spread(st.settings, p))
      case SetInstitutionDetails(p) => st.(institutionDetails := Spread(st.institutionDetails, p))
      case SetAcademicCalendar(p) => st.(academicCalendar := Spread(st.academicCalendar, p))
      case SetPrintSettings(p) => st.(printSettings := Spread(st.printSettings, p))
      case ClearAllData => ServerDefault()
      case Unknown(_) => st
  }

  /** A master-data update changes the state only when it names an existing
      top-level key, and then only that key's collection. */
  lemma UpdateMasterDataGuard(st: Store, key: string, data: Collection)
    ensures key !in StateKeys ==> Apply(st, UpdateMasterData(key, data), []) == st
    ensures Apply(st, UpdateMasterData(key, data), []) != st ==> key == CollectionKey(data)
    ensures key == CollectionKey(data) ==> Apply(st, UpdateMasterData(key, data), []) == SetCollection(st, data)
  {
  }

  /** With fresh ids, every schedule action keeps entry ids unique. */
  lemma ScheduleActionsKeepIdsUnique(st: Store, a: Action, ids: seq<string>)
    requires IsScheduleAction(a) && |ids| >= IdsNeeded(a)
    requires NoDup(EntryIds(st.schedule)) && FreshIds(ids[..IdsNeeded(a)], st.schedule)
    ensures NoDup(EntryIds(Apply(st, a, ids).schedule))
  {
    var s := st.schedule;
    match a {
      case AddSchedule(draft) =>
        var t := [Stamp(draft, ids[0])];
        assert EntryIds(t) == ids[..1];
        AppendKeepsUnique(s, t);
      case BulkAddScheduleForEvent(ev, day, period) =>
        var t := BulkEntries(ev, day, period, ids);
        assert EntryIds(t) == ids[..IdsNeeded(a)];
        AppendKeepsUnique(s, t);
      case UpdateSchedule(e) =>
        IdsKept(s, e, e.id, 0, 0);
      case DeleteSchedule(id) =>
        RemoveKeepsUnique(s, id);
      case MoveSchedule(id, day, period) =>
        IdsKept(s, Entry(id, day, period, None, None, None, None, None), id, day, period);
    }
  }

  // ---------------------------------------------------------------------
  // Messages, connections and broadcast

  /** A connected client socket as the server sees it. */
  datatype Conn = Conn(id: nat, ready: ReadyState)

  /** The server: its state and its connected clients in connection order. */
  datatype Server = Server(state: Store, clients: seq<Conn>)

  /** An inbound frame: text that is not JSON, JSON whose handling throws
      (a `null` action, a bulk add without an event), or a well-formed
      action. */
  datatype Inbound = NotJson | Throws | Message(action: Action)

  /** One frame sent to one client: a full snapshot of the state. */
  datatype Delivery = Delivery(to: nat, snapshot: Snapshot)

  /** The full state, sent to every client whose socket is open, in
      connection order. */
  function Broadcast(st: Store, cs: seq<Conn>): (r: seq<Delivery>)
    ensures |r| <= |cs|
    ensures forall i | 0 <= i < |r| :: r[i].snapshot == Encode(st)
  {
    if cs == [] then []
    else (if cs[0].ready == Open then [Delivery(cs[0].id, Encode(st))] else []) + Broadcast(st, cs[1..])
  }

  /** A client receives the broadcast exactly when its socket is open. */
  lemma {:induction false} BroadcastReaches(st: Store, cs: seq<Conn>, id: nat)
    ensures Delivery(id, Encode(st)) in Broadcast(st, cs) <==> Conn(id, Open) in cs
  {
    if cs != [] {
      BroadcastReaches(st, cs[1..], id);
      assert Conn(id, Open) in cs <==> Conn(id, Open) == cs[0] || Conn(id, Open) in cs[1..];
    }
  }

  /** Handling one inbound frame. A frame that parses and applies is
      followed by a broadcast of the resulting state to every open client,
      whatever its type; a frame that fails to parse or throws changes
      nothing and is followed by no broadcast. */
  function Receive(sv: Server, m: Inbound, ids: seq<string>): (r: (Server, seq<Delivery>))
    requires m.Message? ==> |ids| >= IdsNeeded(m.action)
    ensures r.0.clients == sv.clients
    ensures !m.Message? ==> r.0 == sv && r.1 == []
    ensures m.Message? ==> r.0.state == Apply(sv.state, m.action, ids)
    ensures m.Message? ==> r.1 == Broadcast(r.0.state, sv.clients)
  {
    match m
    case Message(a) =>
      var st := Apply(sv.state, a, ids);
      (sv.(state := st), Broadcast(st, sv.clients))
    case _ => (sv, [])
  }

  /** An unknown action type still triggers a broadcast of the unchanged
      state. */
  lemma UnknownStillBroadcasts(sv: Server, kind: string)
    ensures Receive(sv, Message(Unknown(kind)), []) == (sv, Broadcast(sv.state, sv.clients))
  {
  }

  /** A new client is registered and immediately sent the current state. */
  function Connect(sv: Server, id: nat): (r: (Server, seq<Delivery>))
    ensures r.0.state == sv.state && r.0.clients == sv.clients + [Conn(id, Open)]
    ensures r.1 == [Delivery(id, Encode(sv.state))]
  {
    (sv.(clients := sv.clients + [Conn(id, Open)]), [Delivery(id, Encode(sv.state))])
  }

  /** A client's socket changes ready state (it starts closing, say) before
      its close event arrives. */
  function SetReady(sv: Server, id: nat, rs: ReadyState): (r: Server)
    ensures r.state == sv.state && |r.clients| == |sv.clients|
    ensures forall i | 0 <= i < |sv.clients| :: r.clients[i].id == sv.clients[i].id
  {
    sv.(clients := seq(|sv.clients|, i requires 0 <= i < |sv.clients| =>
      if sv.clients[i].id == id then Conn(id, rs) else sv.clients[i]))
  }

  /** A closed client is forgotten. */
  function Disconnect(sv: Server, id: nat): (r: Server)
    ensures r.state == sv.state
    ensures forall c | c in r.clients :: c.id != id
  {
    sv.(clients := Filter(sv.clients, (c: Conn) => c.id != id))
  }

  /** A closed client is never sent anything again. */
  lemma DisconnectedGetsNothing(sv: Server, id: nat, m: Inbound, ids: seq<string>)
    requires m.Message? ==> |ids| >= IdsNeeded(m.action)
    ensures var r := Receive(Disconnect(sv, id), m, ids);
      forall d | d in r.1 :: d.to != id
  {
    var sv' := Disconnect(sv, id);
    var r := Receive(sv', m, ids);
    if m.Message? {
      forall d | d in r.1 ensures d.to != id {
        BroadcastReaches(r.0.state, sv'.clients, d.to);
      }
    }
  }

  // ---------------------------------------------------------------------
  // The server as written: the shared sample schedule

  /** The server as written. `sample` is the current content of the
      module-level sample schedule array that every fresh default state
      refers to, and `shared` says whether the live schedule is that very
      array, so that an in-place push grows both. */
  datatype World = World(state: Store, sample: seq<Entry>, shared: bool)

  /** A shared schedule is the sample array. */
  predicate Coherent(w: World) {
    w.shared ==> w.state.schedule == w.sample
  }

  /** The default state built around the sample array's current content. */
  function InitialState(sample: seq<Entry>): Store {
    ServerDefault().(schedule := sample)
  }

  /** Startup: the loaded state shares the sample array whenever its schedule
      came from the defaults, which includes a file whose schedule is
      missing or not an array. */
  function Boot(file: Option<Document>): (w: World)
    ensures Coherent(w) && w.state == LoadState(file) && w.sample == ServerSchedule
    ensures w.shared <==> !(Usable(file) && file.value.snapshot.schedule.Items?)
  {
    World(LoadState(file), ServerSchedule, !(Usable(file) && file.value.snapshot.schedule.Items?))
  }

  /** One action against the server as written: adds and bulk adds push in
      place, so while the schedule is shared they grow the sample array too;
      updates, deletes, moves and a schedule replacement build a new array;
      a reset hands out the sample array again, with whatever was pushed. */
  function WorldApply(w: World, a: Action, ids: seq<string>): (r: World)
    requires |ids| >= IdsNeeded(a)
    requires Coherent(w)
    ensures Coherent(r)
    ensures w.sample <= r.sample
    ensures r.sample != w.sample ==> w.shared && (a.AddSchedule? || a.BulkAddScheduleForEvent?)
  {
    var st := Apply(w.state, a, ids);
    match a
    case AddSchedule(_) => World(st, if w.shared then st.schedule else w.sample, w.shared)
    case BulkAddScheduleForEvent(_, _, _) => World(st, if w.shared then st.schedule else w.sample, w.shared)
    case UpdateSchedule(_) => World(st, w.sample, false)
    case DeleteSchedule(_) => World(st, w.sample, false)
    case MoveSchedule(_, _, _) => World(st, w.sample, false)
    case UpdateMasterData(key, data) => World(st, w.sample, w.shared && !(key == "schedule" && data.EntryList?))
    case ClearAllData => World(InitialState(w.sample), w.sample, true)
    case _ => World(st, w.sample, w.shared)
  }

  /** The server as written agrees with `Apply` on every action but the
      reset, and on the reset exactly when nothing was ever pushed onto the
      sample array. */
  lemma WorldMatchesApply(w: World, a: Action, ids: seq<string>)
    requires |ids| >= IdsNeeded(a) && Coherent(w)
    ensures !a.ClearAllData? ==> WorldApply(w, a, ids).state == Apply(w.state, a, ids)
    ensures a.ClearAllData? ==> (WorldApply(w, a, ids).state == Apply(w.state, a, ids) <==> w.sample == ServerSchedule)
  {
    if a.ClearAllData? && WorldApply(w, a, ids).state == Apply(w.state, a, ids) {
      assert InitialState(w.sample).schedule == ServerDefault().schedule;
    }
  }

  /** Starting without a database file, adding one entry and then clearing
      all data leaves the added entry in the "cleared" schedule; the intended
      reset gives the pristine defaults. */
  lemma ResetKeepsPushedEntry(draft: Entry, id: string)
    ensures var w := WorldApply(WorldApply(Boot(None), AddSchedule(draft), [id]), ClearAllData, []);
      && w.state.schedule == ServerSchedule + [Stamp(draft, id)]
      && |w.state.schedule| == 3
      && w.state != ServerDefault()
    ensures Apply(Apply(LoadState(None), AddSchedule(draft), [id]), ClearAllData, []) == ServerDefault()
  {
    var w := WorldApply(WorldApply(Boot(None), AddSchedule(draft), [id]), ClearAllData, []);
    assert |w.state.schedule| != |ServerDefault().schedule|;
  }
}
