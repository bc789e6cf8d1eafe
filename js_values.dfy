/** The slice of JavaScript semantics the client's date and macro code
    relies on: truthiness, `Number()`, NaN-absorbing addition, `new Date(...)`
    and the stored scan records those are applied to. Time zones and date
    formatting are abstracted into a `Clock`. */
module JsValues {
  import opened Seqs

  /** A JavaScript number: finite, or NaN. Infinities are not modelled. */
  datatype Num = Finite(v: real) | NaN

  /** `a + b` on numbers: NaN is absorbing. */
  function Add(a: Num, b: Num): (r: Num)
    ensures r.Finite? <==> a.Finite? && b.Finite?
    ensures r.Finite? ==> r.v == a.v + b.v
  {
    if a.Finite? && b.Finite? then Finite(a.v + b.v) else NaN
  }

  /** A field read from a stored document. Non-empty text carries the number
      that `Number()` reads from it (0 when it is all whitespace, NaN when it
      is not a numeral); the parsing itself is not modelled. */
  datatype Value = Undefined | Null | Bool(b: bool) | Number(n: Num) | Str(s: string, asNumber: Num)

  predicate Truthy(v: Value) {
    match v
    case Undefined => false
    case Null => false
    case Bool(b) => b
    case Number(n) => n.Finite? && n.v != 0.0
    case Str(s, _) => s != ""
  }

  /** `Number(v)`. */
  function ToNumber(v: Value): Num {
    match v
    case Undefined => NaN
    case Null => Finite(0.0)
    case Bool(b) => Finite(if b then 1.0 else 0.0)
    case Number(n) => n
    case Str(s, n) => if s == "" then Finite(0.0) else n
  }

  /** A date object: a time value in milliseconds, or an Invalid Date. */
  datatype JsDate = Valid(ms: int) | Invalid

  /** The local calendar date of an instant (what `getFullYear`, `getMonth`,
      `getDate` and `toDateString` read). */
  datatype CivilDate = CivilDate(year: int, month: int, day: int)

  /** The environment of a date computation: the current instant, the local
      time zone as a map from instants to calendar dates, and `Date`'s string
      parser. */
  datatype Clock = Clock(now: int, local: int -> CivilDate, parse: string -> JsDate)

  /** A stored time field: missing, a Firestore Timestamp (it has `toDate()`),
      a Date object, a number of milliseconds, or a string. */
  datatype Time = Absent | Timestamp(ms: int) | DateObject(date: JsDate) | Millis(n: Num) | Text(s: string)

  predicate TimeTruthy(t: Time) {
    match t
    case Absent => false
    case Timestamp(_) => true
    case DateObject(_) => true
    case Millis(n) => n.Finite? && n.v != 0.0
    case Text(s) => s != ""
  }

  /** The largest time value a Date can hold, in milliseconds. */
  const MaxTime: int := 8_640_000_000_000_000

  /** Truncation toward zero (JavaScript's `new Date(x)` time clip, Python's `int(x)`). */
  function Trunc(x: real): (r: int)
    ensures x >= 0.0 ==> 0 <= r && r as real <= x < r as real + 1.0
    ensures x < 0.0 ==> r <= 0 && r as real - 1.0 < x <= r as real
  {
    if x >= 0.0 then x.Floor else -((-x).Floor)
  }

  /** `new Date(t)`, or `t.toDate()` for a Firestore Timestamp. */
  function ToDate(t: Time, clock: Clock): JsDate {
    match t
    case Absent => Invalid
    case Timestamp(ms) => Valid(ms)
    case DateObject(d) => d
    case Millis(n) =>
      if n.NaN? || Trunc(n.v) < -MaxTime || Trunc(n.v) > MaxTime then Invalid else Valid(Trunc(n.v))
    case Text(s) => clock.parse(s)
  }

  /** `date.toDateString()` compared as a key: equal strings are equal
      calendar dates; an Invalid Date gives "Invalid Date", `None` here. */
  function DayKey(d: JsDate, clock: Clock): Option<CivilDate> {
    match d
    case Valid(ms) => Some(clock.local(ms))
    case Invalid => None
  }

  /** `new Date().toDateString()`. */
  function Today(clock: Clock): CivilDate {
    clock.local(clock.now)
  }

  /** A scan stored in the user's `recentScans`. */
  datatype Scan = Scan(name: Value, date: Time, timestamp: Time,
                       calories: Value, protein: Value, fat: Value, carbs: Value)

  datatype Macro = Calories | Protein | Fat | Carbs

  function Field(s: Scan, m: Macro): Value {
    match m
    case Calories => s.calories
    case Protein => s.protein
    case Fat => s.fat
    case Carbs => s.carbs
  }

  /** The result of reading `users/{id}`: the read failed, the document does
      not exist, or it exists with an optional `recentScans` list. */
  datatype UserRead = ReadFailed | NoUserDoc | UserDoc(recentScans: Option<seq<Scan>>)

  /** `userData.recentScans || []`. */
  function ScansOf(recentScans: Option<seq<Scan>>): seq<Scan> {
    if recentScans.Some? then recentScans.value else []
  }
}
