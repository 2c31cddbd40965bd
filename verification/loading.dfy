/** Reading a timetable that arrives as parsed JSON: the server's merge of its
    database file over its built-in defaults, and the client's default fill
    of a snapshot received from the server. */
module Loading {
  import opened Wrappers
  import opened Seqs
  import opened Strings
  import opened JsonValues
  import opened Entities
  import opened Defaults

  /** A top-level collection property of a parsed document: absent, an array
      of records, or some value that is not an array. */
  datatype Field<T> = Missing | Items(items: seq<T>) | NotArray(value: Json)

  /** The ten known top-level properties of a parsed state document. A
      singleton is `None` when the property is absent. */
  datatype Snapshot = Snapshot(
    schedule: Field<Entry>, teachers: Field<Teacher>, subjects: Field<Subject>,
    eventActivities: Field<EventActivity>, rooms: Field<Room>, classGrades: Field<ClassGrade>,
    settings: Option<Json>, institutionDetails: Option<Json>,
    academicCalendar: Option<Json>, printSettings: Option<Json>)

  /** A parsed JSON document: an object, or any other value (`null`, an
      array, a string, a number, a boolean). */
  datatype Document = Object(snapshot: Snapshot) | NotObject(value: Json)

  /** `JSON.stringify(state)` as read back by `JSON.parse`: every collection
      an array and every singleton an object. */
  function Encode(st: Store): Snapshot {
    Snapshot(
      Items(st.schedule), Items(st.teachers), Items(st.subjects),
      Items(st.eventActivities), Items(st.rooms), Items(st.classGrades),
      Some(JObj(st.settings)), Some(JObj(st.institutionDetails)),
      Some(JObj(st.academicCalendar)), Some(JObj(st.printSettings)))
  }

  // ---------------------------------------------------------------------
  // The server's `loadState`

  /** An array's elements under their decimal indices. */
  function Indexed(items: seq<Json>): (o: Obj)
    ensures forall i | 0 <= i < |items| :: NatToString(i) in o && o[NatToString(i)] == items[i]
  {
    NatToStringInjective();
    map i | 0 <= i < |items| :: NatToString(i) := items[i]
  }

  /** A string's characters, each as a one-letter string, under their
      decimal indices. */
  function IndexedChars(s: string): (o: Obj)
    ensures forall i | 0 <= i < |s| :: NatToString(i) in o && o[NatToString(i)] == JStr([s[i]])
  {
    NatToStringInjective();
    map i | 0 <= i < |s| :: NatToString(i) := JStr([s[i]])
  }

  /** The properties `{ ...v }` copies out of a value: an object's own
      fields, an array's elements or a string's characters under their
      decimal indices, and nothing for `null`, numbers and booleans. */
  function SpreadEntries(j: Json): (o: Obj)
    ensures j.JObj? ==> o == j.fields
    ensures j.JArr? ==> forall i | 0 <= i < |j.items| :: NatToString(i) in o && o[NatToString(i)] == j.items[i]
    ensures j.JStr? ==> forall i | 0 <= i < |j.s| :: NatToString(i) in o && o[NatToString(i)] == JStr([j.s[i]])
    ensures j.JNull? || j.JBool? || j.JNum? ==> o == map[]
  {
    match j
    case JObj(f) => f
    case JArr(items) => Indexed(items)
    case JStr(s) => IndexedChars(s)
    case _ => map[]
  }

  /** `{ ...(v || {}) }` for a property that may be absent. */
  function Entries(o: Option<Json>): Obj {
    if o.Some? then SpreadEntries(o.value) else map[]
  }

  /** `parsedData && parsedData.settings`: the file is used only when it
      parses to an object whose `settings` is truthy. */
  predicate Usable(file: Option<Document>) {
    file.Some? && file.value.Object? && file.value.snapshot.settings.Some? && Truthy(file.value.snapshot.settings.value)
  }

  /** A collection after the merge: the parsed array, or the default when the
      property is absent or not an array. */
  function ArrayOr<T>(f: Field<T>, d: seq<T>): (r: seq<T>)
    ensures f.Items? ==> r == f.items
    ensures !f.Items? ==> r == d
  {
    if f.Items? then f.items else d
  }

  /** `r` is `base` overlaid with `over`: exactly the keys of either, with
      `over`'s value where it has the key and `base`'s value otherwise. */
  predicate Overlays(r: Obj, base: Obj, over: Obj) {
    && r.Keys == base.Keys + over.Keys
    && (forall k | k in over :: r[k] == over[k])
    && (forall k | k in base && k !in over :: r[k] == base[k])
  }

  /** The server's startup state. `file` is `None` when there is no database
      file or it does not parse. A usable file is laid over the defaults:
      each collection is taken when it is an array, and each singleton is the
      default object overlaid with the file's fields, so no default key is
      ever missing. Anything else gives the defaults. */
  function LoadState(file: Option<Document>): (r: Store)
    ensures !Usable(file) ==> r == ServerDefault()
    ensures Usable(file) ==>
      var p, d := file.value.snapshot, ServerDefault();
      && r.schedule == ArrayOr(p.schedule, d.schedule) && r.teachers == ArrayOr(p.teachers, d.teachers)
      && r.subjects == ArrayOr(p.subjects, d.subjects) && r.eventActivities == ArrayOr(p.eventActivities, d.eventActivities)
      && r.rooms == ArrayOr(p.rooms, d.rooms) && r.classGrades == ArrayOr(p.classGrades, d.classGrades)
    ensures Usable(file) ==>
      var p, d := file.value.snapshot, ServerDefault();
      && Overlays(r.settings, d.settings, Entries(p.settings))
      && Overlays(r.institutionDetails, d.institutionDetails, Entries(p.institutionDetails))
      && Overlays(r.academicCalendar, d.academicCalendar, Entries(p.academicCalendar))
      && Overlays(r.printSettings, d.printSettings, Entries(p.printSettings))
  {
    if Usable(file) then
      var p, d := file.value.snapshot, ServerDefault();
      Store(
        ArrayOr(p.schedule, d.schedule), ArrayOr(p.teachers, d.teachers), ArrayOr(p.subjects, d.subjects),
        ArrayOr(p.eventActivities, d.eventActivities), ArrayOr(p.rooms, d.rooms), ArrayOr(p.classGrades, d.classGrades),
        Spread(d.settings, Entries(p.settings)), Spread(d.institutionDetails, Entries(p.institutionDetails)),
        Spread(d.academicCalendar, Entries(p.academicCalendar)), Spread(d.printSettings, Entries(p.printSettings)))
    else
      ServerDefault()
  }

  /** Every singleton carries at least the keys of the server's defaults. */
  predicate HasServerKeys(st: Store) {
    var d := ServerDefault();
    && d.settings.Keys <= st.settings.Keys && d.institutionDetails.Keys <= st.institutionDetails.Keys
    && d.academicCalendar.Keys <= st.academicCalendar.Keys && d.printSettings.Keys <= st.printSettings.Keys
  }

  /** A saved state loads back unchanged exactly when each of its singletons
      carries every default key; otherwise the missing keys are filled from
      the defaults. */
  lemma LoadSavedState(st: Store)
    ensures LoadState(Some(Object(Encode(st)))) == st <==> HasServerKeys(st)
  {
    var d := ServerDefault();
    var r := LoadState(Some(Object(Encode(st))));
    assert Usable(Some(Object(Encode(st))));
    SpreadIsReplacement(d.settings, st.settings);
    SpreadIsReplacement(d.institutionDetails, st.institutionDetails);
    SpreadIsReplacement(d.academicCalendar, st.academicCalendar);
    SpreadIsReplacement(d.printSettings, st.printSettings);
  }

  // ---------------------------------------------------------------------
  // The client's `initializeObjectState` and `loadFullState`

  /** The fields a loaded singleton offers: an object's own fields. Reading a
      named property of any other value gives `undefined`. */
  function Fields(loaded: Option<Json>): Obj {
    if loaded.Some? && loaded.value.JObj? then loaded.value.fields else map[]
  }

  /** Whether default key `k` takes the loaded value: the value is neither
      `null` nor `undefined`, and it is an array whenever the default is. */
  predicate Takes(def: Obj, fields: Obj, k: string)
    requires k in def
  {
    k in fields && fields[k] != JNull && !(def[k].JArr? && !fields[k].JArr?)
  }

  /** A singleton rebuilt key by key from its default: exactly the default's
      keys, each taking the loaded value when that value is usable. */
  function InitializeObjectState(def: Obj, loaded: Option<Json>): (r: Obj)
    ensures r.Keys == def.Keys
    ensures forall k | k in def :: Takes(def, Fields(loaded), k) ==> r[k] == Fields(loaded)[k]
    ensures forall k | k in def :: !Takes(def, Fields(loaded), k) ==> r[k] == def[k]
  {
    var fields := Fields(loaded);
    map k | k in def :: if Takes(def, fields, k) then fields[k] else def[k]
  }

  /** No value of the object is `null`. */
  predicate NoNulls(o: Obj) {
    forall k | k in o :: o[k] != JNull
  }

  /** `o` has exactly the default's keys, no `null` values, and an array
      wherever the default has one. */
  predicate Fits(def: Obj, o: Obj) {
    o.Keys == def.Keys && forall k | k in o :: o[k] != JNull && (def[k].JArr? ==> o[k].JArr?)
  }

  /** Loading an object gives it back unchanged exactly when it fits the
      default. */
  lemma InitializeRoundTrip(def: Obj, o: Obj)
    requires NoNulls(def)
    ensures InitializeObjectState(def, Some(JObj(o))) == o <==> Fits(def, o)
  {
  }

  /** Whatever was loaded, loading the result again changes nothing. */
  lemma InitializeIdempotent(def: Obj, loaded: Option<Json>)
    requires NoNulls(def)
    ensures var r := InitializeObjectState(def, loaded);
      InitializeObjectState(def, Some(JObj(r))) == r
  {
    var r := InitializeObjectState(def, loaded);
    assert Fits(def, r);
    InitializeRoundTrip(def, r);
  }

  /** With nothing to load, or a value that is not an object, the default is
      returned as is. */
  lemma InitializeWithoutObject(def: Obj, loaded: Option<Json>)
    requires loaded.None? || !loaded.value.JObj?
    ensures InitializeObjectState(def, loaded) == def
  {
  }

  /** `value || []` for a collection property: a truthy value that is not an
      array would be stored as the collection, which the model rejects as
      `None`. */
  function OrEmpty<T>(f: Field<T>): (r: Option<seq<T>>)
    ensures f.Items? ==> r == Some(f.items)
    ensures f.Missing? ==> r == Some([])
    ensures f.NotArray? ==> (r.None? <==> Truthy(f.value)) && (r.Some? ==> r.value == [])
  {
    match f
    case Missing => Some([])
    case Items(xs) => Some(xs)
    case NotArray(j) => if Truthy(j) then None else Some([])
  }

  /** No collection of the snapshot is a truthy non-array. */
  predicate Loadable(p: Snapshot) {
    && OrEmpty(p.schedule).Some? && OrEmpty(p.teachers).Some? && OrEmpty(p.subjects).Some?
    && OrEmpty(p.eventActivities).Some? && OrEmpty(p.rooms).Some? && OrEmpty(p.classGrades).Some?
  }

  /** The client's replacement of its whole store by a snapshot: each
      collection replaced (absent or falsy becomes empty) and each singleton
      default-filled from the client's own defaults; nothing of the previous
      store survives. */
  function LoadFullState(p: Snapshot): (r: Option<Store>)
    ensures r.Some? <==> Loadable(p)
    ensures r.Some? ==>
      && Some(r.value.schedule) == OrEmpty(p.schedule) && Some(r.value.teachers) == OrEmpty(p.teachers)
      && Some(r.value.subjects) == OrEmpty(p.subjects) && Some(r.value.eventActivities) == OrEmpty(p.eventActivities)
      && Some(r.value.rooms) == OrEmpty(p.rooms) && Some(r.value.classGrades) == OrEmpty(p.classGrades)
    ensures r.Some? ==>
      var d := ClientDefault();
      && r.value.settings.Keys == d.settings.Keys && r.value.institutionDetails.Keys == d.institutionDetails.Keys
      && r.value.academicCalendar.Keys == d.academicCalendar.Keys && r.value.printSettings.Keys == d.printSettings.Keys
    ensures r.Some? ==>
      var d := ClientDefault();
      && r.value.settings == InitializeObjectState(d.settings, p.settings)
      && r.value.institutionDetails == InitializeObjectState(d.institutionDetails, p.institutionDetails)
      && r.value.academicCalendar == InitializeObjectState(d.academicCalendar, p.academicCalendar)
      && r.value.printSettings == InitializeObjectState(d.printSettings, p.printSettings)
  {
    if Loadable(p) then
      var d := ClientDefault();
      Some(Store(
        OrEmpty(p.schedule).value, OrEmpty(p.teachers).value, OrEmpty(p.subjects).value,
        OrEmpty(p.eventActivities).value, OrEmpty(p.rooms).value, OrEmpty(p.classGrades).value,
        InitializeObjectState(d.settings, p.settings), InitializeObjectState(d.institutionDetails, p.institutionDetails),
        InitializeObjectState(d.academicCalendar, p.academicCalendar), InitializeObjectState(d.printSettings, p.printSettings)))
    else
      None
  }

  /** Every singleton fits the client's defaults. */
  predicate FitsClient(st: Store) {
    var d := ClientDefault();
    && Fits(d.settings, st.settings) && Fits(d.institutionDetails, st.institutionDetails)
    && Fits(d.academicCalendar, st.academicCalendar) && Fits(d.printSettings, st.printSettings)
  }

  lemma ClientDefaultsHaveNoNulls()
    ensures var d := ClientDefault();
      NoNulls(d.settings) && NoNulls(d.institutionDetails) && NoNulls(d.academicCalendar) && NoNulls(d.printSettings)
  {
    var d := ClientDefault();
    assert d.settings == Settings && d.institutionDetails == InstitutionDetails && d.printSettings == PrintSettings;
    CalendarHasNoNulls(d.academicCalendar["holidays"].items);
    SingletonDefaultsHaveNoNulls();
  }

  lemma CalendarHasNoNulls(holidays: seq<Json>)
    ensures NoNulls(Calendar(holidays))
  {
  }

  lemma SingletonDefaultsHaveNoNulls()
    ensures NoNulls(Settings) && NoNulls(InstitutionDetails) && NoNulls(PrintSettings)
  {
  }

  /** A client receiving a state's snapshot holds exactly that state iff its
      singletons fit the client's defaults. */
  lemma ReceiveRoundTrip(st: Store)
    ensures LoadFullState(Encode(st)) == Some(st) <==> FitsClient(st)
  {
    var d := ClientDefault();
    ClientDefaultsHaveNoNulls();
    InitializeRoundTrip(d.settings, st.settings);
    InitializeRoundTrip(d.institutionDetails, st.institutionDetails);
    InitializeRoundTrip(d.academicCalendar, st.academicCalendar);
    InitializeRoundTrip(d.printSettings, st.printSettings);
    LoadEncoded(st);
  }

  /** Loading a state's snapshot keeps its collections and default-fills its
      singletons. */
  lemma LoadEncoded(st: Store)
    ensures var d := ClientDefault();
      LoadFullState(Encode(st)) == Some(st.(
        settings := InitializeObjectState(d.settings, Some(JObj(st.settings))),
        institutionDetails := InitializeObjectState(d.institutionDetails, Some(JObj(st.institutionDetails))),
        academicCalendar := InitializeObjectState(d.academicCalendar, Some(JObj(st.academicCalendar))),
        printSettings := InitializeObjectState(d.printSettings, Some(JObj(st.printSettings)))))
  {
  }

  /** Receiving a snapshot twice leaves the client where receiving it once
      did: the loaded store fits the defaults, so re-encoding and loading it
      again is the identity. */
  lemma ReceiveIdempotent(p: Snapshot)
    requires Loadable(p)
    ensures LoadFullState(Encode(LoadFullState(p).value)) == LoadFullState(p)
  {
    var st := LoadFullState(p).value;
    var d := ClientDefault();
    ClientDefaultsHaveNoNulls();
    InitializeIdempotent(d.settings, p.settings);
    InitializeIdempotent(d.institutionDetails, p.institutionDetails);
    InitializeIdempotent(d.academicCalendar, p.academicCalendar);
    InitializeIdempotent(d.printSettings, p.printSettings);
  }
}
