/** The remote AI service calls of the second client version: the outcome of
    `analyzeImage`, and the "eaten today" totals that `getDailyRecommendations`
    computes from the stored scans before asking the recommendation endpoint.
    Network and store calls are replaced by their outcomes. */
module AiService {
  import opened Seqs
  import opened JsValues

  /** The outcome of a call to an endpoint: it threw (encoding, network or
      JSON failure), or it answered with a body whose `success` is given. */
  datatype Reply<D> = Threw | Answered(data: D, success: Value)

  /** `analyzeImage`: the body when `success` is truthy, `null` otherwise. */
  function AnalyzeImage<D>(reply: Reply<D>): (r: Option<D>)
    ensures r.Some? <==> reply.Answered? && Truthy(reply.success)
    ensures r.Some? ==> r.value == reply.data
  {
    if reply.Answered? && Truthy(reply.success) then Some(reply.data) else None
  }

  /** The date a meal is judged by: its Timestamp's `toDate()`, else
      `new Date(timestamp)`, and "now" when the timestamp is falsy. */
  function MealDate(meal: Scan, clock: Clock): JsDate {
    if TimeTruthy(meal.timestamp) then ToDate(meal.timestamp, clock) else Valid(clock.now)
  }

  /** The `todayMeals` filter: the meal's `toDateString()` equals today's. */
  predicate EatenToday(meal: Scan, clock: Clock) {
    DayKey(MealDate(meal, clock), clock) == Some(Today(clock))
  }

  function TodayMeals(scans: seq<Scan>, clock: Clock): seq<Scan> {
    Filter(scans, meal => EatenToday(meal, clock))
  }

  /** `Number(meal[field] || 0)`. */
  function Amount(meal: Scan, m: Macro): Num {
    var v := Field(meal, m);
    if Truthy(v) then ToNumber(v) else Finite(0.0)
  }

  /** The running `+=` total of one macro, starting from 0. */
  function Total(meals: seq<Scan>, m: Macro): Num {
    if meals == [] then Finite(0.0) else Add(Total(meals[..|meals| - 1], m), Amount(meals[|meals| - 1], m))
  }

  lemma TotalLast(meals: seq<Scan>, m: Macro)
    requires meals != []
    ensures Total(meals, m) == Add(Total(meals[..|meals| - 1], m), Amount(meals[|meals| - 1], m))
  {
  }

  datatype Totals = Totals(calories: Num, protein: Num, fat: Num, carbs: Num)

  const Zero: Totals := Totals(Finite(0.0), Finite(0.0), Finite(0.0), Finite(0.0))

  function TotalsOf(meals: seq<Scan>): Totals {
    Totals(Total(meals, Calories), Total(meals, Protein), Total(meals, Fat), Total(meals, Carbs))
  }

  /** The `forEach` that adds each of today's meals into `eatenToday`. */
  method SumMeals(meals: seq<Scan>) returns (eaten: Totals)
    ensures eaten == TotalsOf(meals)
  {
    eaten := Zero;
    var i := 0;
    while i < |meals|
      invariant 0 <= i <= |meals|
      invariant eaten == TotalsOf(meals[..i])
    {
      var meal := meals[i];
      assert meals[..i + 1][..i] == meals[..i];
      eaten := Totals(Add(eaten.calories, Amount(meal, Calories)), Add(eaten.protein, Amount(meal, Protein)),
                      Add(eaten.fat, Amount(meal, Fat)), Add(eaten.carbs, Amount(meal, Carbs)));
      i := i + 1;
    }
    assert meals[..i] == meals;
  }

  /** A meal whose timestamp is falsy is judged by "now" and so counts as
      today; a truthy timestamp counts exactly when it falls on today's date. */
  lemma EatenTodaySpec(meal: Scan, clock: Clock)
    ensures !TimeTruthy(meal.timestamp) ==> EatenToday(meal, clock)
    ensures TimeTruthy(meal.timestamp) ==>
      (EatenToday(meal, clock) <==>
        ToDate(meal.timestamp, clock).Valid? && clock.local(ToDate(meal.timestamp, clock).ms) == Today(clock))
  {
  }

  /** One meal whose amount is NaN (a truthy, non-numeric string) makes the
      whole total NaN; when every amount is a finite number the total is
      finite too, and non-negative if they all are. */
  lemma {:induction false} TotalFinite(meals: seq<Scan>, m: Macro)
    ensures Total(meals, m).Finite? <==> forall i :: 0 <= i < |meals| ==> Amount(meals[i], m).Finite?
    ensures (forall i :: 0 <= i < |meals| ==> Amount(meals[i], m).Finite? && Amount(meals[i], m).v >= 0.0)
      ==> Total(meals, m).v >= 0.0
  {
    if meals != [] {
      var init := meals[..|meals| - 1];
      TotalFinite(init, m);
      assert forall i :: 0 <= i < |init| ==> init[i] == meals[i];
    }
  }

  /** `getDailyRecommendations(userProfile, userId)`. `read` is the outcome
      of reading the user's document (consulted only for a truthy `userId`)
      and `reply` that of the POST to `/recommend`. Returns the `eatenToday`
      body that was sent (none when the read threw) and the result. */
  method GetDailyRecommendations<R>(userId: string, read: UserRead, clock: Clock,
                                    reply: Reply<Option<seq<R>>>)
    returns (sent: Option<Totals>, result: seq<R>)
    ensures userId != "" && read.ReadFailed? ==> sent == None && result == []
    ensures userId == "" || read.NoUserDoc? ==> sent == Some(Zero)
    ensures userId != "" && read.UserDoc? ==>
      sent == Some(TotalsOf(TodayMeals(ScansOf(read.recentScans), clock)))
    ensures sent.Some? ==>
      result == (if reply.Answered? && Truthy(reply.success) && reply.data.Some? then reply.data.value else [])
  {
    var eaten := Zero;
    if userId != "" {
      if read.ReadFailed? {
        return None, [];
      }
      if read.UserDoc? {
        var scans := ScansOf(read.recentScans);
        var todayMeals := TodayMeals(scans, clock);
        eaten := SumMeals(todayMeals);
      }
    }
    sent := Some(eaten);
    if reply.Answered? && Truthy(reply.success) && reply.data.Some? {
      result := reply.data.value;
    } else {
      result := [];
    }
  }
}
