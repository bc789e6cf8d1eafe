/** The "today" panel of the profile page: `isToday` and the totals and
    newest-first list that `fetchUserData` computes from the stored scans. */
module Profile {
  import opened Seqs
  import opened JsValues
  import AiService

  /** `isToday(v)`: false for a falsy value; otherwise the value is turned
      into a date (`toDate()` or `new Date(v)`) and its day of the month,
      month and full year are compared with today's. An Invalid Date reads
      NaN in all three, which equals nothing. */
  predicate IsToday(v: Time, clock: Clock) {
    if !TimeTruthy(v) then false
    else match ToDate(v, clock)
      case Invalid => false
      case Valid(ms) =>
        var d, t := clock.local(ms), Today(clock);
        d.day == t.day && d.month == t.month && d.year == t.year
  }

  /** `food.date || food.timestamp`. */
  function JudgedBy(food: Scan): Time {
    if TimeTruthy(food.date) then food.date else food.timestamp
  }

  function TodaysFoods(scans: seq<Scan>, clock: Clock): seq<Scan> {
    Filter(scans, food => IsToday(JudgedBy(food), clock))
  }

  /** `Number(x) || 0`: NaN and 0 both give 0. */
  function OrZero(v: Value): real {
    var n := ToNumber(v);
    if n.Finite? then n.v else 0.0
  }

  /** `foods.reduce((sum, food) => sum + (Number(food[m]) || 0), 0)`. */
  function Sum(foods: seq<Scan>, m: Macro): real {
    if foods == [] then 0.0 else Sum(foods[..|foods| - 1], m) + OrZero(Field(foods[|foods| - 1], m))
  }

  datatype TodayStats = TodayStats(calories: real, protein: real, foods: seq<Scan>)

  /** The state before (or without) a successful read. */
  const InitialStats: TodayStats := TodayStats(0.0, 0.0, [])

  /** The `todayStats` that `fetchUserData` leaves: computed from the scans
      when the user's document exists, the initial state otherwise (a missing
      document, or a read error caught and logged). */
  function FetchTodayStats(read: UserRead, clock: Clock): TodayStats {
    match read
    case UserDoc(recentScans) =>
      var today := TodaysFoods(ScansOf(recentScans), clock);
      TodayStats(Sum(today, Calories), Sum(today, Protein), Reverse(today))
    case _ => InitialStats
  }

  /** `isToday` holds exactly for a truthy value that denotes a valid date on
      today's calendar date. */
  lemma IsTodaySpec(v: Time, clock: Clock)
    ensures !TimeTruthy(v) ==> !IsToday(v, clock)
    ensures IsToday(v, clock) <==>
      TimeTruthy(v) && ToDate(v, clock).Valid? && clock.local(ToDate(v, clock).ms) == Today(clock)
  {
  }

  lemma {:induction false} SumAppend(a: seq<Scan>, b: seq<Scan>, m: Macro)
    ensures Sum(a + b, m) == Sum(a, m) + Sum(b, m)
    decreases |b|
  {
    if b == [] {
      assert a + b == a;
    } else {
      var b' := b[..|b| - 1];
      assert (a + b)[..|a + b| - 1] == a + b';
      SumLast(a + b, m);
      SumAppend(a, b', m);
    }
  }

  lemma SumLast(s: seq<Scan>, m: Macro)
    requires s != []
    ensures Sum(s, m) == Sum(s[..|s| - 1], m) + OrZero(Field(s[|s| - 1], m))
  {
  }

  /** The sum does not depend on the order of the list. */
  lemma {:induction false} SumReverse(s: seq<Scan>, m: Macro)
    ensures Sum(Reverse(s), m) == Sum(s, m)
  {
    if s != [] {
      SumReverse(s[1..], m);
      assert Reverse(s) == Reverse(s[1..]) + [s[0]];
      SumAppend(Reverse(s[1..]), [s[0]], m);
      assert s == [s[0]] + s[1..];
      SumAppend([s[0]], s[1..], m);
      assert Sum([s[0]], m) == OrZero(Field(s[0], m)) by {
        assert [s[0]][..0] == [];
      }
    }
  }

  /** After a successful read, `foods` lists today's scans newest first. */
  lemma FetchTodayStatsOrder(recentScans: Option<seq<Scan>>, clock: Clock)
    ensures var st := FetchTodayStats(UserDoc(recentScans), clock);
      var today := TodaysFoods(ScansOf(recentScans), clock);
      |st.foods| == |today| && forall i :: 0 <= i < |today| ==> st.foods[i] == today[|today| - 1 - i]
  {
  }

  /** ... and a scan is listed exactly when it is stored and judged to be today's. */
  lemma FetchTodayStatsMembers(recentScans: Option<seq<Scan>>, clock: Clock)
    ensures var st := FetchTodayStats(UserDoc(recentScans), clock);
      forall f :: f in st.foods <==> f in ScansOf(recentScans) && IsToday(JudgedBy(f), clock)
  {
    var today := TodaysFoods(ScansOf(recentScans), clock);
    ReverseMultiset(today);
    forall f
      ensures f in Reverse(today) <==> f in today
    {
      assert f in Reverse(today) <==> f in multiset(Reverse(today));
      assert f in today <==> f in multiset(today);
    }
  }

  /** ... and the two totals are the sums of `Number(x) || 0` over the list shown. */
  lemma FetchTodayStatsTotals(recentScans: Option<seq<Scan>>, clock: Clock)
    ensures var st := FetchTodayStats(UserDoc(recentScans), clock);
      st.calories == Sum(st.foods, Calories) && st.protein == Sum(st.foods, Protein)
  {
    var today := TodaysFoods(ScansOf(recentScans), clock);
    SumReverse(today, Calories);
    SumReverse(today, Protein);
  }

  /** Without a user document the panel keeps its initial, empty state. */
  lemma FetchTodayStatsNoDoc(read: UserRead, clock: Clock)
    requires !read.UserDoc?
    ensures FetchTodayStats(read, clock).foods == []
    ensures FetchTodayStats(read, clock).calories == 0.0 && FetchTodayStats(read, clock).protein == 0.0
  {
  }

  /** Totals are never NaN here, and are non-negative when every amount is. */
  lemma {:induction false} SumNonNegative(foods: seq<Scan>, m: Macro)
    requires forall i :: 0 <= i < |foods| ==> OrZero(Field(foods[i], m)) >= 0.0
    ensures Sum(foods, m) >= 0.0
  {
    if foods != [] {
      var init := foods[..|foods| - 1];
      assert forall i :: 0 <= i < |init| ==> init[i] == foods[i];
      SumNonNegative(init, m);
    }
  }

  /** A scan without a `date` field but with a truthy timestamp is "today"
      on the profile page exactly when it is for the recommendation request. */
  lemma AgreesWithAiService(scan: Scan, clock: Clock)
    requires !TimeTruthy(scan.date) && TimeTruthy(scan.timestamp)
    ensures IsToday(JudgedBy(scan), clock) <==> AiService.EatenToday(scan, clock)
  {
    AiService.EatenTodaySpec(scan, clock);
    IsTodaySpec(scan.timestamp, clock);
  }

  /** A scan with neither a `date` nor a truthy timestamp is never "today" on
      the profile page, yet the recommendation request counts it as today. */
  lemma UndatedScanDisagrees(scan: Scan, clock: Clock)
    requires !TimeTruthy(scan.date) && !TimeTruthy(scan.timestamp)
    ensures !IsToday(JudgedBy(scan), clock)
    ensures AiService.EatenToday(scan, clock)
  {
  }

  /** A macro value on which the two pages' conversions agree: unless it is
      truthy text that `Number()` reads as NaN, `Number(v || 0)` and
      `Number(v) || 0` give the same number. */
  predicate Readable(v: Value) { !(Truthy(v) && ToNumber(v).NaN?) }

  lemma AmountAgrees(scan: Scan, m: Macro)
    ensures AiService.Amount(scan, m) == Finite(OrZero(Field(scan, m))) <==> Readable(Field(scan, m))
  {
  }

  lemma ReadableAmount(scan: Scan, m: Macro)
    requires Readable(Field(scan, m))
    ensures AiService.Amount(scan, m) == Finite(OrZero(Field(scan, m)))
  {
    AmountAgrees(scan, m);
  }

  /** Running totals agree whenever every single amount does. */
  lemma {:induction false} TotalsAgree(meals: seq<Scan>, m: Macro)
    requires forall i :: 0 <= i < |meals| ==> AiService.Amount(meals[i], m) == Finite(OrZero(Field(meals[i], m)))
    ensures AiService.Total(meals, m) == Finite(Sum(meals, m))
  {
    if meals != [] {
      var init := meals[..|meals| - 1];
      assert forall i :: 0 <= i < |init| ==> init[i] == meals[i];
      TotalsAgree(init, m);
      AiService.TotalLast(meals, m);
      SumLast(meals, m);
    }
  }

  /** When every stored scan is identified by a truthy timestamp alone and has
      readable macros, the calories and protein the profile page shows for
      today equal the ones the recommendation request sends. */
  lemma TodayTotalsAgree(scans: seq<Scan>, clock: Clock)
    requires forall s :: s in scans ==> !TimeTruthy(s.date) && TimeTruthy(s.timestamp)
    requires forall s :: s in scans ==> Readable(s.calories) && Readable(s.protein)
    ensures var st := FetchTodayStats(UserDoc(Some(scans)), clock);
      var eaten := AiService.TotalsOf(AiService.TodayMeals(scans, clock));
      eaten.calories == Finite(st.calories) && eaten.protein == Finite(st.protein)
  {
    forall s | s in scans
      ensures IsToday(JudgedBy(s), clock) == AiService.EatenToday(s, clock)
    {
      AgreesWithAiService(s, clock);
    }
    FilterCongruent(scans, food => IsToday(JudgedBy(food), clock), meal => AiService.EatenToday(meal, clock));
    var today := TodaysFoods(scans, clock);
    assert today == AiService.TodayMeals(scans, clock);
    forall i | 0 <= i < |today|
      ensures AiService.Amount(today[i], Calories) == Finite(OrZero(Field(today[i], Calories)))
      ensures AiService.Amount(today[i], Protein) == Finite(OrZero(Field(today[i], Protein)))
    {
      assert today[i] in scans;
      ReadableAmount(today[i], Calories);
      ReadableAmount(today[i], Protein);
    }
    TotalsAgree(today, Calories);
    TotalsAgree(today, Protein);
    assert FetchTodayStats(UserDoc(Some(scans)), clock).calories == Sum(today, Calories);
    assert FetchTodayStats(UserDoc(Some(scans)), clock).protein == Sum(today, Protein);
  }
}
