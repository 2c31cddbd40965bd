/** JSON values as the timetable's settings-like records hold them after
    `JSON.parse`, with JavaScript truthiness and object spread. */
module JsonValues {
  import opened Wrappers

  /** A parsed JSON value; numbers are the integers the model needs. */
  datatype Json =
    | JNull
    | JBool(b: bool)
    | JNum(n: int)
    | JStr(s: string)
    | JArr(items: seq<Json>)
    | JObj(fields: map<string, Json>)

  /** A plain object: its own enumerable properties. */
  type Obj = map<string, Json>

  /** JavaScript truthiness of a JSON value. */
  predicate Truthy(j: Json) {
    match j
    case JNull => false
    case JBool(b) => b
    case JNum(n) => n != 0
    case JStr(s) => s != ""
    case _ => true
  }

  /** `{ ...base, ...over }`: every key of either, `over` winning. */
  function Spread(base: Obj, over: Obj): (r: Obj)
    ensures r.Keys == base.Keys + over.Keys
    ensures forall k | k in over :: r[k] == over[k]
    ensures forall k | k in base && k !in over :: r[k] == base[k]
  {
    base + over
  }

  /** A shallow merge equals a wholesale replacement exactly when the patch
      carries every key of the object it is merged over. */
  lemma SpreadIsReplacement(base: Obj, over: Obj)
    ensures Spread(base, over) == over <==> base.Keys <= over.Keys
  {
    if Spread(base, over) == over {
      assert Spread(base, over).Keys == over.Keys;
    }
  }

  /** A property read, `undefined` being `None`. */
  function Get(o: Obj, k: string): Option<Json>
  {
    if k in o then Some(o[k]) else None
  }

  /** `o.k || d` for a numeric setting: the number when it is present and
      non-zero, `d` otherwise. A value of another type is read as absent. */
  function NumOr(o: Obj, k: string, d: int): int {
    if k in o && o[k].JNum? && o[k].n != 0 then o[k].n else d
  }
}
