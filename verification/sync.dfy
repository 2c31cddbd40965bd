/** How a client's optimistic copy relates to the server's state: what the
    client applies locally against what the server makes of the action it
    sends, and how a broadcast brings every open client to the server's
    state. */
module Sync {
  import opened Wrappers
  import opened Seqs
  import opened JsonValues
  import opened Entities
  import opened Conflicts
  import opened Actions
  import opened Defaults
  import opened Loading
  import opened Socket
  import opened Client
  import Server

  /** The actions a client ever sends: never an unknown type, and a
      master-data update always under the key of the list it carries. */
  predicate Sendable(a: Action) {
    match a
    case UpdateMasterData(key, data) => IsMasterData(data) && key == CollectionKey(data)
    case Unknown(_) => false
    case _ => true
  }

  /** The user operation that sends `a`, applied locally with the client's
      own fresh ids. */
  function ClientApply(c: ClientState, a: Action, ids: seq<string>): (r: Step)
    requires Sendable(a) && |ids| >= IdsNeeded(a)
    ensures r.sent == Send(c.hook, a) && r.client.hook == c.hook
    ensures Settled(c) ==> Settled(r.client)
  {
    match a
    case AddSchedule(draft) => AddEntry(c, draft, ids[0])
    case BulkAddScheduleForEvent(ev, day, period) => BulkAddEvent(c, ev, day, period, ids)
    case UpdateSchedule(e) => UpdateEntry(c, e)
    case DeleteSchedule(id) => DeleteEntry(c, id)
    case MoveSchedule(id, day, period) => MoveEntry(c, id, day, period)
    case UpdateMasterData(_, data) => ReplaceMasterData(c, data)
    case SetSettings(o) => ReplaceSingleton(c, SettingsObj, o)
    case SetInstitutionDetails(o) => ReplaceSingleton(c, InstitutionObj, o)
    case SetAcademicCalendar(o) => ReplaceSingleton(c, CalendarObj, o)
    case SetPrintSettings(o) => ReplaceSingleton(c, PrintObj, o)
    case ClearAllData => ClearAll(c)
  }

  /** The singleton a settings-like action carries. */
  function Target(a: Action): Singleton
    requires a.SetSettings? || a.SetInstitutionDetails? || a.SetAcademicCalendar? || a.SetPrintSettings?
  {
    match a
    case SetSettings(_) => SettingsObj
    case SetInstitutionDetails(_) => InstitutionObj
    case SetAcademicCalendar(_) => CalendarObj
    case SetPrintSettings(_) => PrintObj
  }

  /** Given the same fresh ids, the client's local result and the server's
      agree on every schedule and master-data action. A settings-like
      object agrees exactly when the object sent carries every key the
      previous one had, since the client replaces it and the server merges
      it. A reset never agrees: the two sides restore different sample
      data. */
  lemma LocalVersusServer(c: ClientState, a: Action, ids: seq<string>)
    requires Sendable(a) && |ids| >= IdsNeeded(a)
    ensures IsScheduleAction(a) || a.UpdateMasterData? ==>
      ClientApply(c, a, ids).client.store == Server.Apply(c.store, a, ids)
    ensures a.SetSettings? || a.SetInstitutionDetails? || a.SetAcademicCalendar? || a.SetPrintSettings? ==>
      (ClientApply(c, a, ids).client.store == Server.Apply(c.store, a, ids) <==>
       SingletonOf(c.store, Target(a)).Keys <= a.patch.Keys)
    ensures a.ClearAllData? ==>
      ClientApply(c, a, ids).client.store == ClientDefault() && Server.Apply(c.store, a, ids) == ServerDefault()
      && ClientApply(c, a, ids).client.store != Server.Apply(c.store, a, ids)
  {
    if a.SetSettings? || a.SetInstitutionDetails? || a.SetAcademicCalendar? || a.SetPrintSettings? {
      SingletonAgreement(c, a, ids);
    } else if a.ClearAllData? {
      DefaultsDiffer();
    }
  }

  /** A singleton patch agrees exactly when it keeps every previous key. */
  lemma SingletonAgreement(c: ClientState, a: Action, ids: seq<string>)
    requires a.SetSettings? || a.SetInstitutionDetails? || a.SetAcademicCalendar? || a.SetPrintSettings?
    ensures ClientApply(c, a, ids).client.store == Server.Apply(c.store, a, ids) <==>
      SingletonOf(c.store, Target(a)).Keys <= a.patch.Keys
  {
    var local := ClientApply(c, a, ids).client.store;
    var remote := Server.Apply(c.store, a, ids);
    match a {
      case SetSettings(o) =>
        SpreadIsReplacement(c.store.settings, o);
        assert local == remote <==> Spread(c.store.settings, o) == o;
      case SetInstitutionDetails(o) =>
        SpreadIsReplacement(c.store.institutionDetails, o);
        assert local == remote <==> Spread(c.store.institutionDetails, o) == o;
      case SetAcademicCalendar(o) =>
        SpreadIsReplacement(c.store.academicCalendar, o);
        assert local == remote <==> Spread(c.store.academicCalendar, o) == o;
      case SetPrintSettings(o) =>
        SpreadIsReplacement(c.store.printSettings, o);
        assert local == remote <==> Spread(c.store.printSettings, o) == o;
    }
  }

  /** Two schedules that differ at most in entry ids, position by position. */
  predicate SameExceptIds(s: seq<Entry>, t: seq<Entry>) {
    |s| == |t| && forall i | 0 <= i < |s| :: s[i].(id := t[i].id) == t[i]
  }

  /** Whatever ids each side draws, a schedule action gives schedules that
      differ only in the ids of the entries it adds: the entries already
      there are untouched and the added ones carry the same fields. */
  lemma OnlyNewIdsDiffer(st: Store, a: Action, ids1: seq<string>, ids2: seq<string>)
    requires IsScheduleAction(a) && |ids1| >= IdsNeeded(a) && |ids2| >= IdsNeeded(a)
    ensures var s1, s2 := Server.Apply(st, a, ids1).schedule, Server.Apply(st, a, ids2).schedule;
      && SameExceptIds(s1, s2)
      && (IdsNeeded(a) == 0 ==> s1 == s2)
      && (IdsNeeded(a) > 0 ==> |s1| == |st.schedule| + IdsNeeded(a) && s1[..|st.schedule|] == s2[..|st.schedule|] == st.schedule)
  {
    var s1, s2 := Server.Apply(st, a, ids1).schedule, Server.Apply(st, a, ids2).schedule;
    var n := |st.schedule|;
    if a.BulkAddScheduleForEvent? {
      var b1, b2 := BulkEntries(a.event, a.day, a.period, ids1), BulkEntries(a.event, a.day, a.period, ids2);
      forall i | 0 <= i < |b1| ensures b1[i].(id := b2[i].id) == b2[i] {
        if BulkClasses(a.event) == [] {
          assert i == 0;
        }
      }
      assert s1 == st.schedule + b1 && s2 == st.schedule + b2;
      forall i | 0 <= i < |s1| ensures s1[i].(id := s2[i].id) == s2[i] {
        if i >= n {
          assert s1[i] == b1[i - n] && s2[i] == b2[i - n];
        }
      }
    } else if a.AddSchedule? {
      assert s1 == st.schedule + [Stamp(a.draft, ids1[0])] && s2 == st.schedule + [Stamp(a.draft, ids2[0])];
      assert s1[..n] == st.schedule == s2[..n];
    }
  }

  // ---------------------------------------------------------------------
  // Snapshots the client takes over exactly

  /** A settings-like object sent to the server keeps the shape of the
      client's default for it: only known keys, no `null`, and an array
      wherever the default has one. */
  predicate PatchFits(def: Obj, p: Obj) {
    p.Keys <= def.Keys && forall k | k in p :: p[k] != JNull && (def[k].JArr? ==> p[k].JArr?)
  }

  /** Merging a fitting patch over a fitting object fits. */
  lemma MergeKeepsFit(def: Obj, base: Obj, p: Obj)
    requires Fits(def, base) && PatchFits(def, p)
    ensures Fits(def, Spread(base, p))
  {
  }

  /** The patch of a settings-like action fits its default. */
  predicate ActionFits(a: Action) {
    var d := ClientDefault();
    match a
    case SetSettings(p) => PatchFits(d.settings, p)
    case SetInstitutionDetails(p) => PatchFits(d.institutionDetails, p)
    case SetAcademicCalendar(p) => PatchFits(d.academicCalendar, p)
    case SetPrintSettings(p) => PatchFits(d.printSettings, p)
    case _ => true
  }

  /** The server's sample state fits the client's defaults: its calendar
      has other holidays but the same keys. */
  lemma ServerDefaultFits()
    ensures FitsClient(ServerDefault())
  {
    ClientDefaultsHaveNoNulls();
    var d, s := ClientDefault(), ServerDefault();
    assert s.settings == d.settings && s.institutionDetails == d.institutionDetails && s.printSettings == d.printSettings;
    CalendarsFit([Holiday("h1", "2024-12-25", "Winter Break"), Holiday("h2", "2025-04-18", "Spring Break")],
      [Holiday("h1", "2024-12-25", "Winter Break")]);
    FitsItself(d.settings);
    FitsItself(d.institutionDetails);
    FitsItself(d.printSettings);
  }

  /** An object without `null` values fits itself. */
  lemma FitsItself(o: Obj)
    requires NoNulls(o)
    ensures Fits(o, o)
  {
  }

  /** Calendars with any holiday lists fit each other. */
  lemma CalendarsFit(h1: seq<Json>, h2: seq<Json>)
    ensures Fits(Calendar(h1), Calendar(h2))
  {
  }

  /** The four settings-like objects of two stores are the same. */
  predicate SameSingletons(a: Store, b: Store) {
    a.settings == b.settings && a.institutionDetails == b.institutionDetails
    && a.academicCalendar == b.academicCalendar && a.printSettings == b.printSettings
  }

  /** Whether a store fits depends on its settings-like objects alone. */
  lemma SameSingletonsFit(a: Store, b: Store)
    requires FitsClient(a) && SameSingletons(a, b)
    ensures FitsClient(b)
  {
  }

  /** Merging a fitting patch into one settings-like object keeps the store
      fitting. */
  lemma MergeSingletonKeepsFit(st: Store, a: Action, ids: seq<string>)
    requires a.SetSettings? || a.SetInstitutionDetails? || a.SetAcademicCalendar? || a.SetPrintSettings?
    requires FitsClient(st) && ActionFits(a)
    ensures FitsClient(Server.Apply(st, a, ids))
  {
    var d := ClientDefault();
    match a {
      case SetSettings(p) => MergeKeepsFit(d.settings, st.settings, p);
      case SetInstitutionDetails(p) => MergeKeepsFit(d.institutionDetails, st.institutionDetails, p);
      case SetAcademicCalendar(p) => MergeKeepsFit(d.academicCalendar, st.academicCalendar, p);
      case SetPrintSettings(p) => MergeKeepsFit(d.printSettings, st.printSettings, p);
    }
  }

  /** Every action other than a settings-like one or a reset leaves the
      settings-like objects alone. */
  lemma OthersKeepSingletons(st: Store, a: Action, ids: seq<string>)
    requires |ids| >= IdsNeeded(a)
    requires !(a.SetSettings? || a.SetInstitutionDetails? || a.SetAcademicCalendar? || a.SetPrintSettings? || a.ClearAllData?)
    ensures SameSingletons(st, Server.Apply(st, a, ids))
  {
    if a.UpdateMasterData? {
      var data := a.data;
      assert SameSingletons(st, SetCollection(st, data));
    }
  }

  /** Every action with a fitting patch keeps the server's state fitting
      the client's defaults. */
  lemma ApplyKeepsFit(st: Store, a: Action, ids: seq<string>)
    requires |ids| >= IdsNeeded(a)
    requires FitsClient(st) && ActionFits(a)
    ensures FitsClient(Server.Apply(st, a, ids))
  {
    if a.SetSettings? || a.SetInstitutionDetails? || a.SetAcademicCalendar? || a.SetPrintSettings? {
      MergeSingletonKeepsFit(st, a, ids);
    } else if a.ClearAllData? {
      ServerDefaultFits();
    } else {
      OthersKeepSingletons(st, a, ids);
      SameSingletonsFit(st, Server.Apply(st, a, ids));
    }
  }

  /** A `null` sent for a known key is stored by the server but replaced by
      the default when a client loads the broadcast, so the two no longer
      hold the same settings. */
  lemma NullPatchNotAdopted(st: Store, p: Obj, k: string)
    requires k in ClientDefault().settings && k in p && p[k] == JNull
    ensures var next := Server.Apply(st, SetSettings(p), []);
      LoadFullState(Encode(next)) != Some(next)
  {
    var next := Server.Apply(st, SetSettings(p), []);
    ReceiveRoundTrip(next);
    assert next.settings[k] == JNull;
  }

  // ---------------------------------------------------------------------
  // Broadcast

  /** After the server handles an action, every client whose socket it
      holds open is sent the new state; a client takes that state over
      exactly when it fits the client's defaults, and it does whenever the
      previous state did and the action's patch fits. */
  lemma BroadcastSynchronises(sv: Server.Server, a: Action, ids: seq<string>, id: nat, c: ClientState)
    requires |ids| >= IdsNeeded(a) && Server.Conn(id, Transport.Open) in sv.clients
    ensures var (sv', out) := Server.Receive(sv, Server.Message(a), ids);
      Server.Delivery(id, Encode(sv'.state)) in out
    ensures var (sv', _) := Server.Receive(sv, Server.Message(a), ids);
      ReceiveFrame(c, Parsed(Object(Encode(sv'.state)))).store == sv'.state <==> FitsClient(sv'.state)
    ensures var (sv', _) := Server.Receive(sv, Server.Message(a), ids);
      FitsClient(sv.state) && ActionFits(a) ==>
        ReceiveFrame(c, Parsed(Object(Encode(sv'.state)))) == ClientState(sv'.state, Detect(sv'.state.schedule, sv'.state), c.hook)
  {
    var (sv', _) := Server.Receive(sv, Server.Message(a), ids);
    var st := sv'.state;
    Server.BroadcastReaches(st, sv.clients, id);
    BroadcastAccepted(st);
    ReceiveRoundTrip(st);
    if FitsClient(sv.state) && ActionFits(a) {
      ApplyKeepsFit(sv.state, a, ids);
      ReceiveAdoptsServerState(c, st);
    }
  }

  /** One round trip. A client whose socket is open applies an operation
      locally and sends it; the server applies it with its own ids and
      broadcasts; the sender and any other open client then both hold the
      server's state and show its conflicts. After a reset that is the
      server's sample data, not the client's. */
  lemma RoundTrip(sv: Server.Server, c: ClientState, other: ClientState, a: Action,
                  localIds: seq<string>, serverIds: seq<string>, id: nat, otherId: nat)
    requires Sendable(a) && ActionFits(a) && |localIds| >= IdsNeeded(a) && |serverIds| >= IdsNeeded(a)
    requires Consistent(c.hook) && c.hook.status == StatusOpen && FitsClient(sv.state)
    requires Server.Conn(id, Transport.Open) in sv.clients && Server.Conn(otherId, Transport.Open) in sv.clients
    ensures ClientApply(c, a, localIds).sent == Some(a)
    ensures var (sv', out) := Server.Receive(sv, Server.Message(a), serverIds);
      var frame := Parsed(Object(Encode(sv'.state)));
      var mine := ReceiveFrame(ClientApply(c, a, localIds).client, frame);
      var theirs := ReceiveFrame(other, frame);
      && Server.Delivery(id, Encode(sv'.state)) in out && Server.Delivery(otherId, Encode(sv'.state)) in out
      && mine.store == sv'.state == theirs.store && Settled(mine) && Settled(theirs)
      && (a.ClearAllData? ==> mine.store == ServerDefault())
  {
    SendIffShownOpen(c.hook, a);
    var local := ClientApply(c, a, localIds).client;
    BroadcastSynchronises(sv, a, serverIds, id, local);
    BroadcastSynchronises(sv, a, serverIds, otherId, other);
  }

  // ---------------------------------------------------------------------
  // Runs

  /** The server handling a run of actions, the k-th drawing `ids[k]`. */
  function ServerRun(st: Store, acts: seq<Action>, ids: seq<seq<string>>): (r: Store)
    requires |ids| == |acts| && forall k | 0 <= k < |acts| :: |ids[k]| >= IdsNeeded(acts[k])
    decreases |acts|
  {
    if acts == [] then st else ServerRun(Server.Apply(st, acts[0], ids[0]), acts[1..], ids[1..])
  }

  /** Across any run of actions with fitting patches the server's state
      keeps fitting the client's defaults, so every broadcast of the run is
      taken over exactly. */
  lemma {:induction false} RunKeepsFit(st: Store, acts: seq<Action>, ids: seq<seq<string>>)
    requires |ids| == |acts| && forall k | 0 <= k < |acts| :: |ids[k]| >= IdsNeeded(acts[k])
    requires FitsClient(st) && forall k | 0 <= k < |acts| :: ActionFits(acts[k])
    ensures FitsClient(ServerRun(st, acts, ids))
    ensures LoadFullState(Encode(ServerRun(st, acts, ids))) == Some(ServerRun(st, acts, ids))
    decreases |acts|
  {
    if acts != [] {
      ApplyKeepsFit(st, acts[0], ids[0]);
      assert forall k | 0 <= k < |acts[1..]| :: acts[1..][k] == acts[k + 1] && ids[1..][k] == ids[k + 1];
      RunKeepsFit(Server.Apply(st, acts[0], ids[0]), acts[1..], ids[1..]);
    } else {
      ReceiveRoundTrip(st);
    }
  }

  // ---------------------------------------------------------------------
  // Conflicts raised by the actions themselves

  /** Bulk-placing an event that affects two or more classes and lists a
      teacher the client knows creates one entry per class in the same
      slot, each inheriting the event's teachers, so the teacher is
      reported as clashing with themself. */
  lemma BulkEventSelfConflict(c: ClientState, ev: EventActivity, day: int, period: int, ids: seq<string>, t: string)
    requires |BulkClasses(ev)| >= 2 && ev.id != ""
    requires |ids| >= BulkSize(ev) && ids[0] != ids[1]
    requires FindEvent(c.store.eventActivities, ev.id) == Some(ev)
    requires t in IdsOf(ev.affectedTeacherIds) && FindTeacher(c.store.teachers, t).Some?
    ensures var r := BulkAddEvent(c, ev, day, period, ids).client;
      exists k | k in r.conflicts :: k.kind == TeacherClash && k.resource == t && ids[0] in k.involved && ids[1] in k.involved
  {
    var r := BulkAddEvent(c, ev, day, period, ids).client;
    var added := BulkEntries(ev, day, period, ids);
    var s := r.store.schedule;
    assert s == c.store.schedule + added;
    var x, y := added[0], added[1];
    assert x in s && y in s;
    assert EventOf(r.store.eventActivities, x) == Some(ev);
    assert EventOf(r.store.eventActivities, y) == Some(ev);
    assert Occurrences(IdsOf(ev.affectedTeacherIds), t) >= 1;
    SharedTeacherConflict(s, r.store, x, y, t);
  }
}
