/** The two settings screens that edit a local copy of a settings-like
    record before saving it: the timetable settings (days, periods and the
    time label of each period) and the academic calendar (year fields and
    a list of holidays). */
module SettingsForms {
  import opened Wrappers
  import opened Seqs
  import opened Strings
  import opened JsonValues

  // ---------------------------------------------------------------------
  // Timetable settings

  /** An array-valued property as a list; anything else reads as empty. */
  function ArrayOr(o: Obj, k: string): seq<Json> {
    if k in o && o[k].JArr? then o[k].items else []
  }

  /** `parseInt(value, 10) || 0`. */
  function NumberInput(value: string): int {
    match ParseInt(value)
    case Some(n) => n
    case None => 0
  }

  /** The time labels resized to `n` slots: a kept label stays when truthy
      and becomes `''` otherwise, new slots are `''`. */
  function Resize(times: seq<Json>, n: int): (r: seq<Json>)
    ensures |r| == if n < 0 then 0 else n
  {
    var len := if n < 0 then 0 else n;
    seq(len, i requires 0 <= i < len => if i < |times| && Truthy(times[i]) then times[i] else JStr(""))
  }

  /** `handleInputChange` on a number field: the field gets the parsed
      number; changing the periods per day also resizes the time labels. */
  function SetNumber(s: Obj, name: string, value: string): (r: Obj)
    ensures name in r && r[name] == JNum(NumberInput(value))
  {
    var n := NumberInput(value);
    var updated := s[name := JNum(n)];
    if name == "periodsPerDay" then updated["periodTimes" := JArr(Resize(ArrayOr(s, "periodTimes"), n))]
    else updated
  }

  /** Setting the periods per day to `n` leaves `max(0, n)` labels, keeps
      the truthy labels below both lengths, blanks the others, and changes
      no other field; any other field leaves the labels alone. */
  lemma SetNumberSpec(s: Obj, name: string, value: string)
    ensures var r := SetNumber(s, name, value);
      && r.Keys == s.Keys + {name} + (if name == "periodsPerDay" then {"periodTimes"} else {})
      && (forall k | k in s && k != name && k != "periodTimes" :: r[k] == s[k])
      && (name != "periodsPerDay" && name != "periodTimes" ==> Get(r, "periodTimes") == Get(s, "periodTimes"))
    ensures name == "periodsPerDay" ==>
      var times := SetNumber(s, name, value)["periodTimes"];
      && var n := NumberInput(value);
      && times.JArr? && |times.items| == (if n < 0 then 0 else n)
      && forall i | 0 <= i < |times.items| ::
           times.items[i] == (if i < |ArrayOr(s, "periodTimes")| && Truthy(ArrayOr(s, "periodTimes")[i])
             then ArrayOr(s, "periodTimes")[i] else JStr(""))
  {
  }

  /** Resizing twice to the same length is resizing once, and growing then
      shrinking back restores the once-resized labels. */
  lemma ResizeTwice(times: seq<Json>, n: int, m: int)
    requires m >= n
    ensures Resize(Resize(times, n), n) == Resize(times, n)
    ensures Resize(Resize(times, m), n) == Resize(times, n)
  {
    var once := Resize(times, n);
    forall i | 0 <= i < |once| ensures Resize(once, n)[i] == once[i] {
      assert Truthy(once[i]) || once[i] == JStr("");
    }
  }

  /** `handlePeriodTimeChange`: the label at `index` is replaced; an index
      past the end leaves holes (`null` once stored) before it. */
  function SetPeriodTime(s: Obj, index: nat, value: string): (r: Obj)
    ensures r.Keys == s.Keys + {"periodTimes"}
    ensures forall k | k in s && k != "periodTimes" :: r[k] == s[k]
  {
    var times := ArrayOr(s, "periodTimes");
    var padded := if index < |times| then times else times + seq(index + 1 - |times|, _ => JNull);
    s["periodTimes" := JArr(padded[index := JStr(value)])]
  }

  /** Editing the label of an existing period changes that label only. */
  lemma SetPeriodTimeSpec(s: Obj, index: nat, value: string)
    requires index < |ArrayOr(s, "periodTimes")|
    ensures var times := ArrayOr(SetPeriodTime(s, index, value), "periodTimes");
      && |times| == |ArrayOr(s, "periodTimes")|
      && times[index] == JStr(value)
      && forall i | 0 <= i < |times| && i != index :: times[i] == ArrayOr(s, "periodTimes")[i]
  {
  }

  /** A label edited below the new count survives a resize when it is not
      empty. */
  lemma EditSurvivesResize(s: Obj, index: nat, value: string, n: int)
    requires value != "" && index < n
    ensures var times := ArrayOr(SetNumber(SetPeriodTime(s, index, value), "periodsPerDay", IntToString(n)), "periodTimes");
      index < |times| && times[index] == JStr(value)
  {
    ParseIntOfRendering(n);
    var edited := SetPeriodTime(s, index, value);
    assert ArrayOr(edited, "periodTimes")[index] == JStr(value);
  }

  // ---------------------------------------------------------------------
  // Academic calendar

  /** The add-holiday form. */
  datatype HolidayForm = HolidayForm(date: string, description: string)

  const EmptyHolidayForm: HolidayForm := HolidayForm("", "")

  /** A stored holiday. */
  function Holiday(date: string, description: string, id: string): Json {
    JObj(map["date" := JStr(date), "description" := JStr(description), "id" := JStr(id)])
  }

  /** The id a stored holiday carries, when it is a string. */
  function HolidayId(h: Json): Option<string> {
    if h.JObj? && "id" in h.fields && h.fields["id"].JStr? then Some(h.fields["id"].s) else None
  }

  /** The calendar's holidays; missing ones read as none. */
  function Holidays(cal: Obj): seq<Json> {
    ArrayOr(cal, "holidays")
  }

  /** `handleAddHoliday` with the fresh id `id`: an incomplete form changes
      nothing; otherwise the holiday is appended and the form is emptied. */
  function AddHoliday(cal: Obj, form: HolidayForm, id: string): (r: (Obj, HolidayForm))
  {
    if form.date == "" || form.description == "" then (cal, form)
    else (cal["holidays" := JArr(Holidays(cal) + [Holiday(form.date, form.description, id)])], EmptyHolidayForm)
  }

  /** An incomplete form is refused; a complete one appends exactly one
      holiday with the form's date and description and the fresh id,
      changes no other field and resets the form. */
  lemma AddHolidaySpec(cal: Obj, form: HolidayForm, id: string)
    ensures AddHoliday(cal, form, id) == (cal, form) <==> form.date == "" || form.description == ""
    ensures form.date != "" && form.description != "" ==>
      var (c, f) := AddHoliday(cal, form, id);
      && f == EmptyHolidayForm
      && Holidays(c) == Holidays(cal) + [Holiday(form.date, form.description, id)]
      && HolidayId(Holidays(c)[|Holidays(c)| - 1]) == Some(id)
      && c.Keys == cal.Keys + {"holidays"}
      && forall k | k in cal && k != "holidays" :: c[k] == cal[k]
  {
    if form.date != "" && form.description != "" {
      var (c, f) := AddHoliday(cal, form, id);
      assert f != form;
    }
  }

  /** `handleRemoveHoliday`: every holiday carrying the id is dropped. */
  function RemoveHoliday(cal: Obj, id: string): Obj {
    cal["holidays" := JArr(Filter(Holidays(cal), (h: Json) => HolidayId(h) != Some(id)))]
  }

  /** A removal drops exactly the holidays with that id, keeps the others in
      order and changes no other field. */
  lemma RemoveHolidaySpec(cal: Obj, id: string)
    ensures forall h :: h in Holidays(RemoveHoliday(cal, id)) <==> h in Holidays(cal) && HolidayId(h) != Some(id)
    ensures forall k | k in cal && k != "holidays" :: RemoveHoliday(cal, id)[k] == cal[k]
  {
    forall h ensures h in Holidays(RemoveHoliday(cal, id)) <==> h in Holidays(cal) && HolidayId(h) != Some(id) {
      FilterMembership(Holidays(cal), (h: Json) => HolidayId(h) != Some(id), h);
    }
  }

  /** Removing a holiday just added under a fresh id gives back the earlier
      holidays. */
  lemma AddThenRemove(cal: Obj, form: HolidayForm, id: string)
    requires form.date != "" && form.description != ""
    requires forall i | 0 <= i < |Holidays(cal)| :: HolidayId(Holidays(cal)[i]) != Some(id)
    ensures Holidays(RemoveHoliday(AddHoliday(cal, form, id).0, id)) == Holidays(cal)
  {
    var keep := (h: Json) => HolidayId(h) != Some(id);
    var added := Holiday(form.date, form.description, id);
    assert HolidayId(added) == Some(id);
    FilterConcat(Holidays(cal), [added], keep);
    FilterAll(Holidays(cal), keep);
  }

  /** `handleInputChange` on a text field: only that field changes. */
  function SetField(cal: Obj, name: string, value: string): (r: Obj)
    ensures r.Keys == cal.Keys + {name}
    ensures r[name] == JStr(value)
    ensures forall k | k in cal && k != name :: r[k] == cal[k]
  {
    cal[name := JStr(value)]
  }
}
