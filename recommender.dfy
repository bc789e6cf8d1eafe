/** The dish recommender of the recommendation service
    (`NutritionRecommender`): catalogue clean-up, weighted match scores,
    the energy window and top-N selection, and the "what is left to eat
    today" targets of `get_recommendations`. The pandas DataFrame is a
    sequence of records; floating-point numbers are exact reals. */
module Recommender {
  import opened Seqs
  import opened Text
  import JsValues
  import NutrientNeeds

  // ---------------------------------------------------------------------
  // Safe conversions of request values

  /** A value from the request's JSON body. A missing key reads as `PyNone`.
      Text carries what `float()` makes of it (`None` when it raises
      ValueError); `PyOther` is a list or dictionary, `empty` when it has no
      elements. */
  datatype PyValue = PyNone | PyBool(b: bool) | PyNum(v: real) | PyStr(s: string, asFloat: Option<real>) | PyOther(empty: bool)

  /** Python truthiness. */
  predicate PyTruthy(v: PyValue) {
    match v
    case PyNone => false
    case PyBool(b) => b
    case PyNum(x) => x != 0.0
    case PyStr(s, _) => s != ""
    case PyOther(empty) => !empty
  }

  /** `None`, or text that `str(value).strip()` empties. */
  predicate Blank(v: PyValue) {
    v.PyNone? || (v.PyStr? && Trim(v.s, PyIsSpace) == "")
  }

  /** `safe_float(value, default)`: `default` for a blank value or text that
      `float()` rejects; `float()` of a list or dictionary raises TypeError,
      which `safe_float` does not catch. */
  function SafeFloat(value: PyValue, default: real): (r: Outcome<real>)
    ensures r.Raised? <==> value.PyOther?
    ensures Blank(value) ==> r == Ok(default)
    ensures value.PyNum? ==> r == Ok(value.v)
    ensures value.PyStr? && !Blank(value) ==>
      r == Ok(if value.asFloat.Some? then value.asFloat.value else default)
  {
    match value
    case PyNone => Ok(default)
    case PyBool(b) => Ok(if b then 1.0 else 0.0)
    case PyNum(x) => Ok(x)
    case PyStr(s, f) =>
      if Trim(s, PyIsSpace) == "" then Ok(default)
      else if f.Some? then Ok(f.value) else Ok(default)
    case PyOther(_) => Raised
  }

  /** `safe_int(value, default)`: `int(float(value))`, with the same
      defaults and the same uncaught TypeError. */
  function SafeInt(value: PyValue, default: int): (r: Outcome<int>)
    ensures r.Raised? <==> value.PyOther?
  {
    match value
    case PyNone => Ok(default)
    case PyBool(b) => Ok(if b then 1 else 0)
    case PyNum(x) => Ok(JsValues.Trunc(x))
    case PyStr(s, f) =>
      if Trim(s, PyIsSpace) == "" then Ok(default)
      else if f.Some? then Ok(JsValues.Trunc(f.value)) else Ok(default)
    case PyOther(_) => Raised
  }

  /** `safe_int` is `safe_float` truncated toward zero. */
  lemma SafeIntTruncatesSafeFloat(value: PyValue, default: int)
    ensures SafeInt(value, default) ==
      match SafeFloat(value, default as real)
      case Ok(x) => Ok(JsValues.Trunc(x))
      case Raised => Raised
  {
    assert JsValues.Trunc(default as real) == default;
    assert JsValues.Trunc(1.0) == 1 && JsValues.Trunc(0.0) == 0;
  }

  // ---------------------------------------------------------------------
  // The catalogue and its clean-up

  /** A cell of a numeric column before `pd.to_numeric(errors='coerce')`:
      missing, a number, or text carrying the number it parses to. */
  datatype Raw = Absent | Num(v: real) | Str(s: string, asNumber: Option<real>)

  /** One dictionary of the catalogue list. A `None` name is a dictionary
      without a `name` key. Of the keys other than these six only their
      presence is kept (`otherKeys`): they become columns of the frame, which
      is all that `df.empty` looks at, and no rule reads their values. */
  datatype RawDish = RawDish(name: Option<string>, energy: Raw, protein: Raw, fat: Raw, carbohydrate: Raw, fiber: Raw,
                             otherKeys: bool)

  datatype Column = NameCol | EnergyCol | ProteinCol | FatCol | CarbohydrateCol | FiberCol

  const AllColumns: set<Column> := {NameCol, EnergyCol, ProteinCol, FatCol, CarbohydrateCol, FiberCol}

  predicate Has(d: RawDish, c: Column) {
    match c
    case NameCol => d.name.Some?
    case EnergyCol => !d.energy.Absent?
    case ProteinCol => !d.protein.Absent?
    case FatCol => !d.fat.Absent?
    case CarbohydrateCol => !d.carbohydrate.Absent?
    case FiberCol => !d.fiber.Absent?
  }

  /** The columns of `pd.DataFrame(rows)`: every key that some row has. */
  function Columns(rows: seq<RawDish>): (cs: set<Column>)
    ensures forall c :: c in cs <==> exists i :: 0 <= i < |rows| && Has(rows[i], c)
  {
    set c | c in AllColumns && exists i :: 0 <= i < |rows| && Has(rows[i], c)
  }

  /** Some dictionary has a key other than the six modelled ones, so the
      frame has a column that `Columns` does not list. */
  predicate HasOtherKeys(rows: seq<RawDish>) {
    exists i :: 0 <= i < |rows| && rows[i].otherKeys
  }

  /** `astype(str)`: a missing name (NaN) becomes the text "nan". */
  function NameText(name: Option<string>): string {
    if name.Some? then name.value else "nan"
  }

  function StripName(d: RawDish): RawDish {
    d.(name := Some(Trim(NameText(d.name), PyIsSpace)))
  }

  function StripNames(rows: seq<RawDish>): (r: seq<RawDish>)
    ensures |r| == |rows|
    ensures forall i :: 0 <= i < |rows| ==> r[i] == StripName(rows[i])
  {
    seq(|rows|, i requires 0 <= i < |rows| => StripName(rows[i]))
  }

  /** `drop_duplicates(subset=['name'], keep='first')`, continuing after the
      names in `seen` have already been kept. */
  function DedupeFrom(rows: seq<RawDish>, seen: set<Option<string>>): (r: seq<RawDish>)
    ensures forall x :: x in r ==> x in rows && x.name !in seen
  {
    if rows == [] then []
    else if rows[0].name in seen then DedupeFrom(rows[1..], seen)
    else [rows[0]] + DedupeFrom(rows[1..], seen + {rows[0].name})
  }

  function Dedupe(rows: seq<RawDish>): seq<RawDish> {
    DedupeFrom(rows, {})
  }

  /** No two rows share a name. */
  predicate UniqueNames(r: seq<RawDish>) {
    forall i, j :: 0 <= i < j < |r| ==> r[i].name != r[j].name
  }

  /** No two kept rows share a name. */
  lemma {:induction false} DedupeFromUnique(rows: seq<RawDish>, seen: set<Option<string>>)
    ensures UniqueNames(DedupeFrom(rows, seen))
  {
    if rows != [] {
      if rows[0].name in seen {
        assert DedupeFrom(rows, seen) == DedupeFrom(rows[1..], seen);
        DedupeFromUnique(rows[1..], seen);
      } else {
        var rest := DedupeFrom(rows[1..], seen + {rows[0].name});
        DedupeFromUnique(rows[1..], seen + {rows[0].name});
        var r := [rows[0]] + rest;
        forall i, j | 0 <= i < j < |r| ensures r[i].name != r[j].name {
          assert r[j] == rest[j - 1];
          assert rest[j - 1] in rest;
          if i > 0 {
            assert r[i] == rest[i - 1];
          } else {
            assert rest[j - 1].name !in seen + {rows[0].name};
          }
        }
        assert DedupeFrom(rows, seen) == r;
      }
    }
  }

  /** A row is kept when no earlier row (and no name in `seen`) has its name. */
  lemma {:induction false} DedupeFromKeepsFirst(rows: seq<RawDish>, seen: set<Option<string>>, i: nat)
    requires i < |rows| && rows[i].name !in seen
    requires forall j :: 0 <= j < i ==> rows[j].name != rows[i].name
    ensures rows[i] in DedupeFrom(rows, seen)
  {
    if i > 0 {
      var seen' := if rows[0].name in seen then seen else seen + {rows[0].name};
      DedupeFromKeepsFirst(rows[1..], seen', i - 1);
    }
  }

  /** Every name of the input survives, unless it was already in `seen`. */
  lemma {:induction false} DedupeFromKeepsNames(rows: seq<RawDish>, seen: set<Option<string>>, i: nat)
    requires i < |rows| && rows[i].name !in seen
    ensures exists x :: x in DedupeFrom(rows, seen) && x.name == rows[i].name
  {
    var first := FindFirst(rows, (x: RawDish) => x.name == rows[i].name);
    DedupeFromKeepsFirst(rows, seen, first.value);
  }

  /** `pd.to_numeric(errors='coerce').fillna(0)` on one cell. */
  function Coerce(v: Raw): real {
    match v
    case Absent => 0.0
    case Num(x) => x
    case Str(_, n) => if n.Some? then n.value else 0.0
  }

  /** A catalogue row after clean-up. The name is absent only when the
      catalogue has no `name` column at all. */
  datatype Dish = Dish(name: Option<string>, energy: real, protein: real, fat: real, carbohydrate: real, fiber: real)

  function ToDish(d: RawDish): Dish {
    Dish(d.name, Coerce(d.energy), Coerce(d.protein), Coerce(d.fat), Coerce(d.carbohydrate), Coerce(d.fiber))
  }

  function ToDishes(rows: seq<RawDish>): (r: seq<Dish>)
    ensures |r| == |rows|
    ensures forall i :: 0 <= i < |rows| ==> r[i] == ToDish(rows[i])
  {
    seq(|rows|, i requires 0 <= i < |rows| => ToDish(rows[i]))
  }

  /** What `__init__` leaves in `self.df`. A `name` column implies a
      non-empty frame, so the emptiness test is implied by it. */
  function Clean(rows: seq<RawDish>): seq<Dish> {
    ToDishes(if NameCol in Columns(rows) then Dedupe(StripNames(rows)) else rows)
  }

  /** A stripped name is present and has nothing left to strip. */
  predicate StrippedName(name: Option<string>) {
    name.Some? && (name.value != [] ==> !PyIsSpace(name.value[0]) && !PyIsSpace(name.value[|name.value| - 1]))
  }

  lemma {:induction false} DedupeFromStripped(rows: seq<RawDish>, seen: set<Option<string>>)
    requires forall i :: 0 <= i < |rows| ==> StrippedName(rows[i].name)
    ensures var r := DedupeFrom(rows, seen);
      forall i :: 0 <= i < |r| ==> StrippedName(r[i].name)
  {
    if rows != [] {
      var seen' := if rows[0].name in seen then seen else seen + {rows[0].name};
      DedupeFromStripped(rows[1..], seen');
    }
  }

  lemma StripNameStripped(d: RawDish)
    ensures StrippedName(StripName(d).name)
  {
    TrimIsCore(NameText(d.name), PyIsSpace);
  }

  /** With a `name` column, every cleaned name is present and stripped. */
  lemma CleanNamesStripped(rows: seq<RawDish>)
    requires NameCol in Columns(rows)
    ensures var df := Clean(rows);
      forall i :: 0 <= i < |df| ==> StrippedName(df[i].name)
  {
    var s := StripNames(rows);
    forall i | 0 <= i < |s| ensures StrippedName(s[i].name) {
      StripNameStripped(rows[i]);
    }
    DedupeFromStripped(s, {});
    var kept := Dedupe(s);
    assert kept == DedupeFrom(s, {});
    assert forall i :: 0 <= i < |kept| ==> StrippedName(kept[i].name);
    ToDishesStripped(kept);
    assert Clean(rows) == ToDishes(kept);
  }

  lemma ToDishesStripped(kept: seq<RawDish>)
    requires forall i :: 0 <= i < |kept| ==> StrippedName(kept[i].name)
    ensures var df := ToDishes(kept);
      forall i :: 0 <= i < |df| ==> StrippedName(df[i].name)
  {
  }

  /** With a `name` column, no two cleaned rows share a name. */
  lemma CleanNamesUnique(rows: seq<RawDish>)
    requires NameCol in Columns(rows)
    ensures var df := Clean(rows);
      forall i, j :: 0 <= i < j < |df| ==> df[i].name != df[j].name
  {
    var s := StripNames(rows);
    DedupeFromUnique(s, {});
    var kept := Dedupe(s);
    assert kept == DedupeFrom(s, {});
    ToDishesUnique(kept);
    assert Clean(rows) == ToDishes(kept);
  }

  lemma ToDishesUnique(kept: seq<RawDish>)
    requires UniqueNames(kept)
    ensures var df := ToDishes(kept);
      forall i, j :: 0 <= i < j < |df| ==> df[i].name != df[j].name
  {
  }

  /** With a `name` column, the first row of every stripped name is kept,
      with its numbers coerced. */
  lemma CleanKeepsFirst(rows: seq<RawDish>, i: nat)
    requires NameCol in Columns(rows)
    requires i < |rows|
    requires forall j :: 0 <= j < i ==> StripName(rows[j]).name != StripName(rows[i]).name
    ensures ToDish(StripName(rows[i])) in Clean(rows)
  {
    var s := StripNames(rows);
    var kept := Dedupe(s);
    assert Clean(rows) == ToDishes(kept);
    DedupeFromKeepsFirst(s, {}, i);
    var k :| 0 <= k < |kept| && kept[k] == s[i];
    assert ToDishes(kept)[k] == ToDish(StripName(rows[i]));
  }

  /** Without a `name` column nothing is dropped: one cleaned row per input row. */
  lemma CleanWithoutNames(rows: seq<RawDish>)
    requires NameCol !in Columns(rows)
    ensures Clean(rows) == ToDishes(rows)
  {
  }

  /** The missing and non-numeric cells of the numeric columns become 0. */
  lemma CoerceSpec(v: Raw)
    ensures v.Absent? || (v.Str? && v.asNumber.None?) ==> Coerce(v) == 0.0
    ensures v.Num? ==> Coerce(v) == v.v
  {
  }

  /** The columns `__init__` coerces to numbers, in its order. */
  const NumericCols: seq<Column> := [EnergyCol, ProteinCol, FatCol, CarbohydrateCol, FiberCol]

  function Cell(d: RawDish, c: Column): Raw
    requires c != NameCol
  {
    match c
    case EnergyCol => d.energy
    case ProteinCol => d.protein
    case FatCol => d.fat
    case CarbohydrateCol => d.carbohydrate
    case FiberCol => d.fiber
  }

  function SetCell(d: RawDish, c: Column, v: Raw): RawDish
    requires c != NameCol
  {
    match c
    case EnergyCol => d.(energy := v)
    case ProteinCol => d.(protein := v)
    case FatCol => d.(fat := v)
    case CarbohydrateCol => d.(carbohydrate := v)
    case FiberCol => d.(fiber := v)
  }

  /** `df[col] = pd.to_numeric(df[col], errors='coerce').fillna(0)`. */
  function CoerceColumn(rows: seq<RawDish>, c: Column): (r: seq<RawDish>)
    requires c != NameCol
    ensures |r| == |rows|
    ensures forall k :: 0 <= k < |rows| ==> r[k] == SetCell(rows[k], c, Num(Coerce(Cell(rows[k], c))))
  {
    seq(|rows|, k requires 0 <= k < |rows| => SetCell(rows[k], c, Num(Coerce(Cell(rows[k], c)))))
  }

  /** A cell that holds a number or is missing (its column is absent, and
      `row.get(col, 0)` reads 0). */
  predicate Numeric(d: RawDish) {
    forall j :: 0 <= j < |NumericCols| ==> !Cell(d, NumericCols[j]).Str?
  }

  function Value(v: Raw): real
    requires !v.Str?
  {
    if v.Num? then v.v else 0.0
  }

  /** A row whose numeric cells have all been coerced, read as a `Dish`. */
  function AsDish(d: RawDish): (r: Dish)
    requires Numeric(d)
    ensures r == ToDish(d)
  {
    assert NumericCols[0] == EnergyCol && NumericCols[1] == ProteinCol && NumericCols[2] == FatCol;
    assert NumericCols[3] == CarbohydrateCol && NumericCols[4] == FiberCol;
    Dish(d.name, Value(d.energy), Value(d.protein), Value(d.fat), Value(d.carbohydrate), Value(d.fiber))
  }

  /** Coercing one column keeps every row's reading as a `Dish`, makes that
      column numeric and leaves the other cells alone. */
  lemma CoerceColumnSpec(rows: seq<RawDish>, c: Column)
    requires c != NameCol
    ensures var r := CoerceColumn(rows, c);
      forall k :: 0 <= k < |rows| ==>
        ToDish(r[k]) == ToDish(rows[k]) && Cell(r[k], c).Num?
        && forall c' :: c' != NameCol && c' != c ==> Cell(r[k], c') == Cell(rows[k], c')
  {
  }

  /** The `for col in numeric_cols` loop, followed by reading the rows as dishes. */
  method CoerceColumns(named: seq<RawDish>) returns (df: seq<Dish>)
    ensures df == ToDishes(named)
  {
    var frame := named;
    assert forall j :: 0 <= j < |NumericCols| ==> NumericCols[j] != NameCol;
    for i := 0 to |NumericCols|
      invariant |frame| == |named|
      invariant forall k :: 0 <= k < |frame| ==> ToDish(frame[k]) == ToDish(named[k])
      invariant forall k, j :: 0 <= k < |frame| && 0 <= j < i ==> !Cell(frame[k], NumericCols[j]).Str?
    {
      var col := NumericCols[i];
      if col in Columns(frame) {
        CoerceColumnSpec(frame, col);
        frame := CoerceColumn(frame, col);
      } else {
        assert forall k :: 0 <= k < |frame| ==> !Has(frame[k], col);
      }
    }
    df := seq(|frame|, k requires 0 <= k < |frame| => AsDish(frame[k]));
  }

  /** `__init__`'s clean-up: strip and de-duplicate the names when there is a
      `name` column, then coerce each numeric column that is present. */
  method CleanFrame(rows: seq<RawDish>) returns (df: seq<Dish>)
    ensures df == Clean(rows)
  {
    var named := if NameCol in Columns(rows) then Dedupe(StripNames(rows)) else rows;
    df := CoerceColumns(named);
  }

  // ---------------------------------------------------------------------
  // Scoring

  datatype Feature = Energy | Protein | Fat | Carbohydrate

  /** The features `calculate_match_score` walks, in its order. */
  const Features: seq<Feature> := [Energy, Protein, Fat, Carbohydrate]

  /** A dictionary with the four feature keys: a target or a set of weights. */
  datatype Macros = Macros(energy: real, protein: real, fat: real, carbohydrate: real)

  function Get(m: Macros, f: Feature): real {
    match f
    case Energy => m.energy
    case Protein => m.protein
    case Fat => m.fat
    case Carbohydrate => m.carbohydrate
  }

  function Of(d: Dish, f: Feature): real {
    match f
    case Energy => d.energy
    case Protein => d.protein
    case Fat => d.fat
    case Carbohydrate => d.carbohydrate
  }

  function Abs(x: real): real { if x < 0.0 then -x else x }

  /** One feature's weighted relative error; a target of 0 or less counts as 1. */
  function Term(val: real, t: real, w: real): (r: real)
    ensures w >= 0.0 ==> r >= 0.0
    ensures w > 0.0 ==> (r == 0.0 <==> val == (if t <= 0.0 then 1.0 else t))
  {
    var t' := if t <= 0.0 then 1.0 else t;
    Abs(val - t') / t' * w
  }

  function FeatureTerm(d: Dish, target: Macros, weights: Macros, f: Feature): real {
    Term(Of(d, f), Get(target, f), Get(weights, f))
  }

  /** The running `score +=` over a prefix of the features. */
  function ScoreOver(fs: seq<Feature>, d: Dish, target: Macros, weights: Macros): real {
    if fs == [] then 0.0
    else ScoreOver(fs[..|fs| - 1], d, target, weights) + FeatureTerm(d, target, weights, fs[|fs| - 1])
  }

  function MatchScore(d: Dish, target: Macros, weights: Macros): real {
    ScoreOver(Features, d, target, weights)
  }

  /** The score is the sum of the four weighted relative errors. */
  lemma MatchScoreSum(d: Dish, target: Macros, weights: Macros)
    ensures MatchScore(d, target, weights) ==
      FeatureTerm(d, target, weights, Energy) + FeatureTerm(d, target, weights, Protein)
      + FeatureTerm(d, target, weights, Fat) + FeatureTerm(d, target, weights, Carbohydrate)
  {
    var e, p, f, c := FeatureTerm(d, target, weights, Energy), FeatureTerm(d, target, weights, Protein),
                      FeatureTerm(d, target, weights, Fat), FeatureTerm(d, target, weights, Carbohydrate);
    assert [Energy, Protein, Fat, Carbohydrate][..3] == [Energy, Protein, Fat];
    assert [Energy, Protein, Fat][..2] == [Energy, Protein];
    assert [Energy, Protein][..1] == [Energy];
    assert [Energy][..0] == [];
    assert ScoreOver([Energy], d, target, weights) == e;
    assert ScoreOver([Energy, Protein], d, target, weights) == e + p;
    assert ScoreOver([Energy, Protein, Fat], d, target, weights) == e + p + f;
    assert ScoreOver(Features, d, target, weights) == e + p + f + c;
  }

  predicate NonNegative(w: Macros) {
    w.energy >= 0.0 && w.protein >= 0.0 && w.fat >= 0.0 && w.carbohydrate >= 0.0
  }

  predicate Positive(w: Macros) {
    w.energy > 0.0 && w.protein > 0.0 && w.fat > 0.0 && w.carbohydrate > 0.0
  }

  /** Scores are never negative when the weights are not. */
  lemma MatchScoreNonNegative(d: Dish, target: Macros, weights: Macros)
    requires NonNegative(weights)
    ensures MatchScore(d, target, weights) >= 0.0
  {
    MatchScoreSum(d, target, weights);
  }

  /** With positive weights and a positive target, a dish scores 0 exactly
      when its four macros equal the target's. */
  lemma MatchScoreZero(d: Dish, target: Macros, weights: Macros)
    requires Positive(weights) && Positive(target)
    ensures MatchScore(d, target, weights) == 0.0 <==>
      d.energy == target.energy && d.protein == target.protein && d.fat == target.fat && d.carbohydrate == target.carbohydrate
  {
    MatchScoreSum(d, target, weights);
  }

  /** `calculate_match_score(row, target, weights)`. */
  method CalculateMatchScore(row: Dish, target: Macros, weights: Macros) returns (score: real)
    ensures score == MatchScore(row, target, weights)
  {
    score := 0.0;
    var i := 0;
    while i < |Features|
      invariant 0 <= i <= |Features|
      invariant score == ScoreOver(Features[..i], row, target, weights)
    {
      var feature := Features[i];
      var t := Get(target, feature);
      var val := Of(row, feature);
      if t <= 0.0 {
        t := 1.0;
      }
      var error := Abs(val - t) / t;
      assert Features[..i + 1][..i] == Features[..i];
      score := score + error * Get(weights, feature);
      i := i + 1;
    }
    assert Features[..i] == Features;
  }

  // ---------------------------------------------------------------------
  // Selection

  datatype Scored = Scored(dish: Dish, score: real)

  predicate SortedByScore(s: seq<Scored>) {
    forall i, j :: 0 <= i < j < |s| ==> s[i].score <= s[j].score
  }

  /** The tail of a sorted list is sorted and scores no less than its head. */
  lemma SortedTail(s: seq<Scored>)
    requires SortedByScore(s) && s != []
    ensures SortedByScore(s[1..])
    ensures forall y :: y in s[1..] ==> s[0].score <= y.score
  {
  }

  /** `[y] + t` is sorted when `t` is and `y` scores no more than any of it. */
  lemma SortedCons(y: Scored, t: seq<Scored>)
    requires SortedByScore(t)
    requires forall z :: z in t ==> y.score <= z.score
    ensures SortedByScore([y] + t)
  {
    var r := [y] + t;
    forall i, j | 0 <= i < j < |r| ensures r[i].score <= r[j].score {
      assert r[j] == t[j - 1];
      if i > 0 {
        assert r[i] == t[i - 1];
      } else {
        assert t[j - 1] in t;
      }
    }
  }

  function Insert(x: Scored, s: seq<Scored>): (r: seq<Scored>)
    requires SortedByScore(s)
    ensures |r| == |s| + 1
    ensures SortedByScore(r)
    ensures multiset(r) == multiset(s) + multiset{x}
    ensures forall y :: y in r ==> y in s || y == x
  {
    if s == [] then [x]
    else if x.score <= s[0].score then
      SortedCons(x, s);
      [x] + s
    else
      SortedTail(s);
      var rest := Insert(x, s[1..]);
      InsertStep(x, s, rest);
      [s[0]] + rest
  }

  /** The recursive case of `Insert`: `s[0]` goes in front of the insertion
      into the tail. */
  lemma InsertStep(x: Scored, s: seq<Scored>, rest: seq<Scored>)
    requires SortedByScore(s) && s != [] && s[0].score < x.score
    requires SortedByScore(rest)
    requires multiset(rest) == multiset(s[1..]) + multiset{x}
    requires forall y :: y in rest ==> y in s[1..] || y == x
    ensures SortedByScore([s[0]] + rest)
    ensures multiset([s[0]] + rest) == multiset(s) + multiset{x}
    ensures forall y :: y in [s[0]] + rest ==> y in s || y == x
  {
    SortedTail(s);
    SortedCons(s[0], rest);
    assert s == [s[0]] + s[1..];
    assert multiset(s) == multiset{s[0]} + multiset(s[1..]);
    assert multiset([s[0]] + rest) == multiset{s[0]} + multiset(rest);
  }

  /** `sort_values('match_score')`; the order of equal scores is not
      specified by pandas, and nothing below depends on it. */
  function SortByScore(s: seq<Scored>): (r: seq<Scored>)
    ensures |r| == |s|
    ensures SortedByScore(r)
    ensures multiset(r) == multiset(s)
  {
    if s == [] then []
    else
      assert s == [s[0]] + s[1..];
      Insert(s[0], SortByScore(s[1..]))
  }


  /** `r` is what `sort_values('match_score').head(n)` leaves of `s`: `n`
      of its elements (all of them when there are fewer), lowest score first,
      and no element left out scores below one kept. */
  predicate TopOf(r: seq<Scored>, s: seq<Scored>, n: nat) {
    |r| == Min(n, |s|)
    && SortedByScore(r)
    && multiset(r) <= multiset(s)
    && (forall x :: x in s && multiset(r)[x] < multiset(s)[x] ==>
          forall y :: y in r ==> y.score <= x.score)
  }

  /** The `head(n)` of a sorted list holds `n` of its lowest scores. */
  lemma TakeLowest(s: seq<Scored>, n: nat)
    requires SortedByScore(s)
    ensures TopOf(s[..Min(n, |s|)], s, n)
  {
    var k := Min(n, |s|);
    PrefixSorted(s, k);
    LeftOutScoreMore(s, k);
  }

  lemma PrefixSorted(s: seq<Scored>, k: nat)
    requires SortedByScore(s) && k <= |s|
    ensures SortedByScore(s[..k])
  {
    assert forall i :: 0 <= i < k ==> s[..k][i] == s[i];
  }

  /** Every copy the prefix leaves out lies at or after index `k` and so
      scores at least as much as each element of the prefix. */
  lemma LeftOutScoreMore(s: seq<Scored>, k: nat)
    requires SortedByScore(s) && k <= |s|
    ensures multiset(s[..k]) <= multiset(s)
    ensures forall x :: x in s && multiset(s[..k])[x] < multiset(s)[x] ==>
      forall y :: y in s[..k] ==> y.score <= x.score
  {
    var r := s[..k];
    assert s == r + s[k..];
    assert multiset(s) == multiset(r) + multiset(s[k..]);
    PrefixBelowSuffix(s, k);
    forall x | x in s && multiset(r)[x] < multiset(s)[x]
      ensures x in s[k..]
    {
      assert x in multiset(s[k..]);
    }
  }

  /** In a sorted list nothing before index `k` scores above anything after it. */
  lemma PrefixBelowSuffix(s: seq<Scored>, k: nat)
    requires SortedByScore(s) && k <= |s|
    ensures forall x, y :: x in s[k..] && y in s[..k] ==> y.score <= x.score
  {
    forall x, y | x in s[k..] && y in s[..k] ensures y.score <= x.score {
      var j :| k <= j < |s| && s[j] == x;
      var i :| 0 <= i < k && s[i] == y;
    }
  }

  /** Being the top `n` depends only on the multiset of the list. */
  lemma TopOfPermutation(r: seq<Scored>, a: seq<Scored>, b: seq<Scored>, n: nat)
    requires multiset(a) == multiset(b) && TopOf(r, a, n)
    ensures TopOf(r, b, n)
  {
    assert |a| == |multiset(a)| == |b|;
    forall x | x in b ensures x in a {
      assert x in multiset(b);
    }
  }

  /** Sorting and taking a prefix selects the lowest `n`. */
  lemma SortTakeIsTop(s: seq<Scored>, n: nat)
    ensures TopOf(SortByScore(s)[..Min(n, |s|)], s, n)
  {
    var sorted := SortByScore(s);
    TakeLowest(sorted, n);
    TopOfPermutation(sorted[..Min(n, |s|)], sorted, s, n);
  }

  /** The energy window of `recommend`: applied only when the target energy
      is above 100 kcal. */
  predicate InWindow(target: Macros, d: Dish) {
    target.energy > 100.0 ==> target.energy * 0.3 <= d.energy <= target.energy * 1.7
  }

  function ScoreAll(df: seq<Dish>, target: Macros, weights: Macros): (r: seq<Scored>)
    ensures |r| == |df|
    ensures forall i :: 0 <= i < |df| ==> r[i] == Scored(df[i], MatchScore(df[i], target, weights))
  {
    seq(|df|, i requires 0 <= i < |df| => Scored(df[i], MatchScore(df[i], target, weights)))
  }

  /** The scored rows that survive the energy window. */
  function Candidates(df: seq<Dish>, target: Macros, weights: Macros): seq<Scored> {
    Filter(ScoreAll(df, target, weights), (x: Scored) => InWindow(target, x.dish))
  }

  lemma CandidatesSpec(df: seq<Dish>, target: Macros, weights: Macros)
    ensures forall x :: x in Candidates(df, target, weights) <==>
      x.dish in df && x.score == MatchScore(x.dish, target, weights) && InWindow(target, x.dish)
  {
    var all := ScoreAll(df, target, weights);
    forall x: Scored | x.dish in df && x.score == MatchScore(x.dish, target, weights)
      ensures x in all
    {
      var i :| 0 <= i < |df| && df[i] == x.dish;
      assert all[i] == x;
    }
  }

  /** `recommend`'s default weights. */
  const DefaultWeights: Macros := Macros(2.0, 1.0, 1.0, 1.0)

  // ---------------------------------------------------------------------
  // Targets and reasons

  /** The part of the "eaten today" body the service reads; `None` when the
      request sends none. */
  type Eaten = Option<map<string, PyValue>>

  predicate EatenTruthy(eaten: Eaten) { eaten.Some? && |eaten.value| > 0 }

  function GetKey(m: map<string, PyValue>, k: string): PyValue {
    if k in m then m[k] else PyNone
  }

  /** `eaten_today.get(a) or eaten_today.get(b)`. */
  function Either(m: map<string, PyValue>, a: string, b: string): (r: PyValue)
    ensures PyTruthy(GetKey(m, a)) ==> r == GetKey(m, a)
    ensures !PyTruthy(GetKey(m, a)) ==> r == GetKey(m, b)
  {
    var x := GetKey(m, a);
    if PyTruthy(x) then x else GetKey(m, b)
  }

  /** What `get_recommendations` aims at: a meal target, or the "you have
      eaten enough" answer. */
  datatype Plan = Meal(target: Macros) | Full

  const MealRatio: real := 0.35

  /** The standard meal: 35% of the day's energy, protein, lipid and glucid. */
  function StandardMeal(needs: NutrientNeeds.Needs): Macros {
    Macros(needs.energy * MealRatio, needs.protein * MealRatio, needs.lipid * MealRatio, needs.glucid * MealRatio)
  }

  function Max0(x: real): (r: real)
    ensures r >= 0.0 && r >= x && (r == x || r == 0.0)
  {
    if 0.0 < x then x else 0.0
  }

  /** The target that makes up for what was eaten. */
  function Remaining(needs: NutrientNeeds.Needs, energy: real, protein: real, fat: real, carbs: real): Plan {
    var remaining := needs.energy - energy;
    if remaining < 200.0 then Full
    else
      var ratio := if remaining > 800.0 then 0.4 else 1.0;
      Meal(Macros(remaining * ratio, Max0((needs.protein - protein) * ratio),
                  Max0((needs.lipid - fat) * ratio), Max0((needs.glucid - carbs) * ratio)))
  }

  /** Step 2 of `get_recommendations`: the target from the day's needs and
      the meals eaten so far. */
  function MealPlan(needs: NutrientNeeds.Needs, eaten: Eaten): Outcome<Plan> {
    if !EatenTruthy(eaten) then Ok(Meal(StandardMeal(needs)))
    else
      var m := eaten.value;
      match SafeFloat(Either(m, "calories", "Energy"), 0.0)
      case Raised => Raised
      case Ok(energy) =>
        if energy == 0.0 then Ok(Meal(StandardMeal(needs)))
        else
          match (SafeFloat(Either(m, "protein", "Protein"), 0.0), SafeFloat(Either(m, "fat", "Fat"), 0.0),
                 SafeFloat(Either(m, "carbs", "Carbohydrate"), 0.0))
          case (Ok(p), Ok(f), Ok(c)) => Ok(Remaining(needs, energy, p, f, c))
          case _ => Raised
  }

  /** Nothing eaten, or an eaten energy of 0, gives the standard meal. */
  lemma MealPlanNothingEaten(needs: NutrientNeeds.Needs, eaten: Eaten)
    requires !EatenTruthy(eaten) || SafeFloat(Either(eaten.value, "calories", "Energy"), 0.0) == Ok(0.0)
    ensures MealPlan(needs, eaten) == Ok(Meal(StandardMeal(needs)))
  {
  }

  /** Less than 200 kcal left gives the "enough" answer; otherwise the energy
      target is 40% of what is left above 800 kcal and all of it below, and
      the other targets are never negative. */
  lemma RemainingSpec(needs: NutrientNeeds.Needs, energy: real, protein: real, fat: real, carbs: real)
    ensures var left := needs.energy - energy;
      var plan := Remaining(needs, energy, protein, fat, carbs);
      (plan.Full? <==> left < 200.0)
      && (plan.Meal? ==> plan.target.energy == (if left > 800.0 then 0.4 * left else left))
      && (plan.Meal? ==> plan.target.protein >= 0.0 && plan.target.fat >= 0.0 && plan.target.carbohydrate >= 0.0)
      && (plan.Meal? && left <= 800.0 ==> plan.target.protein == Max0(needs.protein - protein))
  {
  }

  /** With a day's energy need of at least 500 kcal, every meal target is
      above 100 kcal (at least 175 for the standard meal, at least 200 for
      what is left), so the energy window of `recommend` always applies to
      the service's requests. */
  lemma MealTargetAbove100(needs: NutrientNeeds.Needs, eaten: Eaten)
    requires needs.energy >= 500.0
    ensures var plan := MealPlan(needs, eaten);
      plan.Ok? && plan.value.Meal? ==> plan.value.target.energy > 100.0
  {
    var plan := MealPlan(needs, eaten);
    if plan.Ok? && plan.value.Meal? && plan.value != Meal(StandardMeal(needs)) {
      var m := eaten.value;
      var energy := SafeFloat(Either(m, "calories", "Energy"), 0.0).value;
      var p := SafeFloat(Either(m, "protein", "Protein"), 0.0).value;
      var f := SafeFloat(Either(m, "fat", "Fat"), 0.0).value;
      var c := SafeFloat(Either(m, "carbs", "Carbohydrate"), 0.0).value;
      assert plan.value == Remaining(needs, energy, p, f, c);
      RemainingSpec(needs, energy, p, f, c);
    }
  }

  /** The service's day needs are at least 500 kcal. */
  lemma ServiceNeedsAtLeast500(h: NutrientNeeds.HealthInfo)
    ensures NutrientNeeds.CalcNutrients(h).energy >= 500.0
  {
    NutrientNeeds.EnergyNeedAtLeast500(h);
  }

  /** `get_reason(row)`. */
  function Reason(energy: real, target: real): (r: string)
    ensures r == "Lượng calo phù hợp" <==> Abs(energy - target) < 150.0
    ensures r == "Món nhẹ bụng" <==> energy - target <= -150.0
    ensures r == "Giàu năng lượng" <==> energy - target >= 150.0
  {
    var diff := energy - target;
    if Abs(diff) < 150.0 then "Lượng calo phù hợp"
    else if diff < 0.0 then "Món nhẹ bụng"
    else "Giàu năng lượng"
  }

  /** An entry of the list `get_recommendations` returns: a catalogue row with
      its score, reason and the lower-case keys the web client reads, or the
      single "enough" entry (whose capitalised and lower-case macros are all 0). */
  datatype Item =
    | Recommended(dish: Dish, matchScore: real, reason: string,
                  calories: real, carbs: real, protein: real, fat: real, fiber: real)
    | Enough(name: string, columns: Macros, calories: real, protein: real, fat: real, carbs: real,
             image: string, reason: string, matchScore: real)

  const EnoughItem: Item := Enough("Đã đủ năng lượng", Macros(0.0, 0.0, 0.0, 0.0), 0.0, 0.0, 0.0, 0.0,
                                   "https://cdn-icons-png.flaticon.com/512/2738/2738805.png",
                                   "Hôm nay bạn đã ăn đủ rồi!", 0.0)

  /** The request's profile; a missing key reads as `PyNone`. */
  datatype Profile = Profile(weight: PyValue, height: PyValue, age: PyValue, gender: PyValue, activityLevel: PyValue)

  /** `act_map.get(activity_input, 'Medium')`; a list or dictionary is not
      hashable and raises TypeError. */
  function ActivityLevel(v: PyValue): (r: Outcome<string>)
    ensures r.Raised? <==> v.PyOther?
    ensures r.Ok? ==> r.value in {"Low", "Medium", "High"}
  {
    match v
    case PyOther(_) => Raised
    case PyStr(s, _) =>
      if s in {"Sedentary", "Light", "Low"} then Ok("Low")
      else if s in {"Active", "Very Active", "High"} then Ok("High")
      else Ok("Medium")
    case _ => Ok("Medium")
  }

  /** `raw_gender if raw_gender in ['Male', 'Female'] else 'Male'`. */
  function GenderText(v: PyValue): string {
    if v.PyStr? && v.s == "Female" then "Female" else "Male"
  }

  /** Step 1 of `get_recommendations`: the day's needs from the profile,
      with weight 60, height 170 and age 25 years by default. */
  function DailyNeeds(p: Profile): (r: Outcome<NutrientNeeds.Needs>)
    ensures r.Raised? <==> p.weight.PyOther? || p.height.PyOther? || p.age.PyOther? || p.activityLevel.PyOther?
  {
    var w, h := SafeFloat(p.weight, 60.0), SafeFloat(p.height, 170.0);
    var years, act := SafeInt(p.age, 25), ActivityLevel(p.activityLevel);
    if w.Raised? || h.Raised? || years.Raised? || act.Raised? then Raised
    else Ok(NutrientNeeds.CalcNutrients(ProfileInfo(p, w.value, h.value, years.value, act.value)))
  }

  /** The health record `get_recommendations` builds from the profile's
      values: age in months, and the gender read as `GenderText`. */
  function ProfileInfo(p: Profile, w: real, h: real, years: int, act: string): NutrientNeeds.HealthInfo {
    NutrientNeeds.NewHealthInfo(years * 12, GenderText(p.gender), w, h, act)
  }

  /** The weights `get_recommendations` passes to `recommend`. */
  const ServiceWeights: Macros := Macros(3.0, 1.5, 0.5, 0.5)

  /** A selected row with its reason and the lower-case keys copied from the
      capitalised ones. */
  function Mapped(x: Scored, target: Macros): Item {
    var d := x.dish;
    Recommended(d, x.score, Reason(d.energy, target.energy), d.energy, d.carbohydrate, d.protein, d.fat, d.fiber)
  }

  /** The selected rows as response items, in order. */
  function ItemsOf(recs: seq<Scored>, target: Macros): (items: seq<Item>)
    ensures |items| == |recs|
    ensures forall i :: 0 <= i < |recs| ==> items[i] == Mapped(recs[i], target)
  {
    seq(|recs|, i requires 0 <= i < |recs| => Mapped(recs[i], target))
  }

  /** The key-mapping loop: each selected row gets its reason and the
      `calories`/`carbs`/`protein`/`fat`/`fiber` keys. */
  method ToItems(recs: seq<Scored>, target: Macros) returns (items: seq<Item>)
    ensures items == ItemsOf(recs, target)
  {
    items := [];
    var i := 0;
    while i < |recs|
      invariant 0 <= i <= |recs|
      invariant |items| == i
      invariant forall k :: 0 <= k < i ==> items[k] == Mapped(recs[k], target)
    {
      var d := recs[i].dish;
      var item := Recommended(d, recs[i].score, Reason(d.energy, target.energy),
                              calories := d.energy, carbs := d.carbohydrate, protein := d.protein,
                              fat := d.fat, fiber := d.fiber);
      items := items + [item];
      i := i + 1;
    }
  }

  /** `work_df.apply(calculate_match_score, axis=1)`: each row with its score. */
  method ScoreRows(df: seq<Dish>, target: Macros, weights: Macros) returns (scored: seq<Scored>)
    ensures scored == ScoreAll(df, target, weights)
  {
    scored := [];
    for i := 0 to |df|
      invariant scored == ScoreAll(df[..i], target, weights)
    {
      var s := CalculateMatchScore(df[i], target, weights);
      assert ScoreAll(df[..i + 1], target, weights) == ScoreAll(df[..i], target, weights) + [Scored(df[i], s)];
      scored := scored + [Scored(df[i], s)];
    }
    assert df[..|df|] == df;
  }

  /** The items made from the top rows are recommendations, in score order. */
  lemma ItemsRecommended(recs: seq<Scored>, df: seq<Dish>, t: Macros)
    requires TopOf(recs, Candidates(df, t, ServiceWeights), 5)
    requires t.energy > 100.0
    ensures var items := ItemsOf(recs, t);
      (forall it :: it in items ==> Recommends(it, df, t))
      && (forall i, j :: 0 <= i < j < |items| ==> items[i].matchScore <= items[j].matchScore)
  {
    var items := ItemsOf(recs, t);
    CandidatesSpec(df, t, ServiceWeights);
    forall it | it in items ensures Recommends(it, df, t) {
      var i :| 0 <= i < |items| && items[i] == it;
      assert recs[i] in multiset(recs);
      assert recs[i] in Candidates(df, t, ServiceWeights);
    }
  }

  /** An entry made from a catalogue row inside the energy window, with the
      row's score for the service's weights, its reason and its lower-case
      keys. */
  predicate Recommends(it: Item, df: seq<Dish>, t: Macros) {
    it.Recommended?
    && it.dish in df
    && it.matchScore == MatchScore(it.dish, t, ServiceWeights)
    && 0.3 * t.energy <= it.dish.energy <= 1.7 * t.energy
    && it.reason == Reason(it.dish.energy, t.energy)
    && it.calories == it.dish.energy && it.carbs == it.dish.carbohydrate
    && it.protein == it.dish.protein && it.fat == it.dish.fat && it.fiber == it.dish.fiber
  }

  /** Whatever the profile, the day's energy need is at least 500 kcal. */
  lemma DailyNeedsAtLeast500(p: Profile)
    requires DailyNeeds(p).Ok?
    ensures DailyNeeds(p).value.energy >= 500.0
  {
    var w, h := SafeFloat(p.weight, 60.0), SafeFloat(p.height, 170.0);
    var years, act := SafeInt(p.age, 25), ActivityLevel(p.activityLevel);
    ServiceNeedsAtLeast500(ProfileInfo(p, w.value, h.value, years.value, act.value));
  }

  class NutritionRecommender {
    /** The cleaned catalogue. */
    var df: seq<Dish>
    /** The modelled columns of the frame. */
    var columns: set<Column>
    /** The frame also has a column for some other key. */
    var otherColumns: bool

    /** `df.empty`: no rows, or no columns at all. */
    predicate Empty()
      reads this
    {
      |df| == 0 || (columns == {} && !otherColumns)
    }

    /** `NutritionRecommender(food_data_list)`. */
    constructor (foodDataList: seq<RawDish>)
      ensures df == Clean(foodDataList) && columns == Columns(foodDataList)
      ensures otherColumns == HasOtherKeys(foodDataList)
    {
      var cleaned := CleanFrame(foodDataList);
      columns := Columns(foodDataList);
      otherColumns := HasOtherKeys(foodDataList);
      df := cleaned;
    }

    /** `recommend(target_nutrition, top_n, weights)`: `[]` for an empty
      catalogue; otherwise the `top_n` lowest-scoring rows inside the energy
      window, lowest score first. Selecting by `Energy` raises KeyError when
      the window applies and the catalogue has no `Energy` column. */
    method Recommend(target: Macros, topN: nat, weights: Option<Macros>) returns (r: Outcome<seq<Scored>>)
      ensures Empty() ==> r == Ok([])
      ensures r.Raised? <==> !Empty() && target.energy > 100.0 && EnergyCol !in columns
      ensures r.Ok? && !Empty() ==>
        TopOf(r.value, Candidates(df, target, if weights.Some? then weights.value else DefaultWeights), topN)
    {
      if Empty() {
        return Ok([]);
      }
      var w := if weights.Some? then weights.value else DefaultWeights;
      var scored := ScoreRows(df, target, w);
      var work := scored;
      if target.energy > 100.0 {
        if EnergyCol !in columns {
          return Raised;
        }
        work := Filter(scored, (x: Scored) => InWindow(target, x.dish));
      } else {
        FilterAll(scored, (x: Scored) => InWindow(target, x.dish));
      }
      assert work == Candidates(df, target, w);
      var sorted := SortByScore(work);
      SortTakeIsTop(work, topN);
      r := Ok(sorted[..Min(topN, |work|)]);
    }

    /** Steps 3 and 4 of `get_recommendations` for a meal target: the five
      best rows for the service's weights, each with its reason and the
      lower-case keys; `[]` when there are none or `recommend` raises. */
    method RecommendMeal(target: Macros) returns (items: seq<Item>)
      requires target.energy > 100.0
      ensures Empty() || EnergyCol !in columns ==> items == []
      ensures !Empty() && EnergyCol in columns ==> |items| == Min(5, |Candidates(df, target, ServiceWeights)|)
      ensures !Empty() && EnergyCol in columns ==>
        exists recs :: TopOf(recs, Candidates(df, target, ServiceWeights), 5) && items == ItemsOf(recs, target)
      ensures forall it :: it in items ==> Recommends(it, df, target)
      ensures forall i, j :: 0 <= i < j < |items| ==> items[i].matchScore <= items[j].matchScore
    {
      var recs := Recommend(target, 5, Some(ServiceWeights));
      if recs.Raised? {
        return [];
      }
      items := ToItems(recs.value, target);
      if !Empty() {
        ItemsRecommended(recs.value, df, target);
        assert TopOf(recs.value, Candidates(df, target, ServiceWeights), 5) && items == ItemsOf(recs.value, target);
      }
    }

    /** `get_recommendations(user_profile, eaten_today)`: everything that
      raises on the way yields `[]`. */
    method GetRecommendations(profile: Profile, eaten: Eaten) returns (items: seq<Item>)
      ensures DailyNeeds(profile).Raised? ==> items == []
      ensures DailyNeeds(profile).Ok? ==>
        var plan := MealPlan(DailyNeeds(profile).value, eaten);
        (plan.Raised? ==> items == [])
        && (plan == Ok(Full) ==> items == [EnoughItem])
        && (plan.Ok? && plan.value.Meal? ==>
              var t := plan.value.target;
              (Empty() || EnergyCol !in columns ==> items == [])
              && (!Empty() && EnergyCol in columns ==> |items| == Min(5, |Candidates(df, t, ServiceWeights)|))
              && (!Empty() && EnergyCol in columns ==>
                    exists recs :: TopOf(recs, Candidates(df, t, ServiceWeights), 5) && items == ItemsOf(recs, t))
              && (forall it :: it in items ==> Recommends(it, df, t))
              && (forall i, j :: 0 <= i < j < |items| ==> items[i].matchScore <= items[j].matchScore))
    {
      var needs := DailyNeeds(profile);
      if needs.Raised? {
        return [];
      }
      var plan := MealPlan(needs.value, eaten);
      if plan.Raised? {
        return [];
      }
      if plan.value.Full? {
        return [EnoughItem];
      }
      DailyNeedsAtLeast500(profile);
      MealTargetAbove100(needs.value, eaten);
      items := RecommendMeal(plan.value.target);
    }
  }
}
