/** The daily-needs calculator of the recommendation service (`HealthInfo`):
    age in months is mapped to one of 14 age bands, reference tables are read
    by gender and band, `(lo, hi)` ranges are resolved to their midpoints and
    the energy need falls back to the "Medium" activity row. Floating-point
    numbers are modelled as exact reals. */
module NutrientNeeds {

  datatype Gender = Male | Female

  /** The three activity rows of the energy table. */
  datatype Activity = Low | Medium | High

  /** The state a `HealthInfo` object is built with; it is never changed
      afterwards. `height` is stored but used by no computation. */
  datatype HealthInfo = HealthInfo(age: int, gender: Gender, weight: real, height: real, activityLevel: string)

  /** `HealthInfo(age_months, gender, weight, height, activity_level)`: any
      gender other than the exact text "Female" or "Male" is stored as Male. */
  function NewHealthInfo(ageMonths: int, gender: string, weight: real, height: real, activityLevel: string): (h: HealthInfo)
    ensures h.gender == Female <==> gender == "Female"
    ensures h.age == ageMonths && h.weight == weight && h.height == height && h.activityLevel == activityLevel
  {
    HealthInfo(ageMonths, if gender == "Female" then Female else Male, weight, height, activityLevel)
  }

  /** First age in months of bands 1..13; band 0 holds every age up to 5. */
  const BandStart: seq<int> := [0, 6, 9, 12, 36, 72, 96, 120, 144, 180, 240, 360, 600, 840]

  /** `_get_age_index`: the age band of an age in months. */
  function AgeIndex(age: int): (r: nat)
    ensures r < 14
    ensures r == 0 <==> age < BandStart[1]
    ensures r > 0 ==> BandStart[r] <= age
    ensures r < 13 ==> age < BandStart[r + 1]
  {
    if age <= 5 then 0
    else if 6 <= age <= 8 then 1
    else if 9 <= age < 12 then 2
    else if 12 <= age < 36 then 3
    else if 36 <= age < 72 then 4
    else if 72 <= age < 96 then 5
    else if 96 <= age < 120 then 6
    else if 120 <= age < 144 then 7
    else if 144 <= age < 180 then 8
    else if 180 <= age < 240 then 9
    else if 240 <= age < 360 then 10
    else if 360 <= age < 600 then 11
    else if 600 <= age < 840 then 12
    else 13
  }

  lemma BandStartIncreasing(i: nat, j: nat)
    requires i < j < 14
    ensures BandStart[i] < BandStart[j]
  {
  }

  /** Every age in band `k` is given index `k`: the bands partition the ages. */
  lemma AgeIndexOfBand(age: int, k: nat)
    requires k < 14
    requires k == 0 || BandStart[k] <= age
    requires k == 13 || age < BandStart[k + 1]
    ensures AgeIndex(age) == k
  {
  }

  /** An older person is never put in a younger band. */
  lemma AgeIndexMonotone(a: int, b: int)
    requires a <= b
    ensures AgeIndex(a) <= AgeIndex(b)
  {
  }

  /** A table cell: a single value, or a `(lo, hi)` range. */
  datatype Entry = Scalar(x: real) | Range(lo: real, hi: real)

  /** `_resolve_range`: the midpoint of a range, a single value unchanged. */
  function ResolveRange(e: Entry): (r: real)
    ensures e.Scalar? ==> r == e.x
    ensures e.Range? ==> r - e.lo == e.hi - r
    ensures e.Range? && e.lo <= e.hi ==> e.lo <= r <= e.hi
    ensures e.Range? && e.hi <= e.lo ==> e.hi <= r <= e.lo
  {
    match e
    case Scalar(x) => x
    case Range(lo, hi) => (lo + hi) / 2.0
  }

  /** `_get_val` on one gender's row: the entry of band `idx`, or the last
      entry when the row is shorter. */
  function GetVal<T>(vals: seq<T>, idx: nat): (r: T)
    requires |vals| > 0
    ensures r in vals
    ensures idx < |vals| ==> r == vals[idx]
    ensures idx >= |vals| ==> r == vals[|vals| - 1]
  {
    if idx >= |vals| then vals[|vals| - 1] else vals[idx]
  }

  /** The nutrients whose cells are single values. */
  datatype ScalarNutrient = Protein | MufaPufa | Calcium | Iron | Zinc | VitaminA | VitaminC | Magnesium | Sodium | Potassium

  /** The nutrients whose cells may be ranges. */
  datatype RangedNutrient = Lipid | Glucid | Fiber

  /** A single-value row: one cell per age band, none negative, and 0 (no
      value) only in the first `k` bands. */
  predicate Row(t: seq<real>, k: nat) {
    |t| == 14 && forall i :: 0 <= i < 14 ==> t[i] >= 0.0 && (t[i] == 0.0 ==> i < k)
  }

  function ProteinRow(g: Gender): (t: seq<real>)
    ensures Row(t, 0)
  {
    if g == Male then [1.86, 2.22, 2.22, 1.63, 1.55, 1.43, 1.43, 1.43, 1.37, 1.25, 1.13, 1.13, 1.13, 1.13]
    else [1.86, 2.22, 2.22, 1.63, 1.55, 1.43, 1.43, 1.39, 1.3, 1.17, 1.13, 1.13, 1.13, 1.13]
  }

  function MufaPufaRow(g: Gender): (t: seq<real>)
    ensures Row(t, 1)
  {
    if g == Male then [0.0, 10.8, 11.7, 16.7, 15.9, 19.2, 22.2, 26.3, 30.6, 34.5, 31.4, 28.7, 28.54, 26.8]
    else [0.0, 10.0, 10.8, 15.34, 15.0, 17.8, 21.1, 24.2, 28.2, 29.1, 25.1, 24.6, 24.2, 22.2]
  }

  function CalciumRow(g: Gender): (t: seq<real>)
    ensures Row(t, 0)
  {
    if g == Male then [300.0, 400.0, 400.0, 500.0, 600.0, 650.0, 700.0, 1000.0, 1000.0, 1000.0, 800.0, 800.0, 800.0, 1000.0]
    else [300.0, 400.0, 400.0, 500.0, 600.0, 650.0, 700.0, 1000.0, 1000.0, 1000.0, 800.0, 800.0, 900.0, 1000.0]
  }

  function IronRow(g: Gender): (t: seq<real>)
    ensures Row(t, 0)
  {
    if g == Male then [0.93, 8.5, 9.4, 5.4, 5.5, 7.2, 8.9, 11.3, 15.3, 17.5, 11.9, 11.9, 11.9, 11.0]
    else [0.93, 7.9, 8.7, 5.1, 5.4, 7.1, 8.9, 10.5, 14.0, 29.7, 26.1, 26.1, 10.0, 9.4]
  }

  function ZincRow(g: Gender): (t: seq<real>)
    ensures Row(t, 0)
  {
    if g == Male then [2.8, 4.1, 4.1, 4.1, 4.8, 5.6, 6.0, 8.6, 9.0, 10.0, 10.0, 10.0, 10.0, 9.0]
    else [2.8, 4.1, 4.1, 4.1, 4.8, 5.6, 5.6, 7.2, 8.0, 8.0, 8.0, 8.0, 8.0, 7.0]
  }

  function VitaminARow(g: Gender): (t: seq<real>)
    ensures Row(t, 2)
  {
    if g == Male then [0.0, 0.0, 400.0, 500.0, 450.0, 500.0, 600.0, 800.0, 900.0, 850.0, 850.0, 900.0, 850.0, 800.0]
    else [0.0, 0.0, 350.0, 400.0, 500.0, 450.0, 500.0, 600.0, 800.0, 900.0, 850.0, 900.0, 850.0, 800.0]
  }

  function VitaminCRow(g: Gender): (t: seq<real>)
    ensures Row(t, 3)
  {
    if g == Male then [0.0, 0.0, 0.0, 35.0, 40.0, 55.0, 60.0, 75.0, 95.0, 100.0, 100.0, 100.0, 100.0, 100.0]
    else [0.0, 0.0, 0.0, 35.0, 40.0, 55.0, 60.0, 75.0, 95.0, 100.0, 100.0, 100.0, 100.0, 100.0]
  }

  function MagnesiumRow(g: Gender): (t: seq<real>)
    ensures Row(t, 0)
  {
    if g == Male then [40.0, 50.0, 60.0, 70.0, 100.0, 130.0, 170.0, 210.0, 290.0, 350.0, 340.0, 370.0, 350.0, 320.0]
    else [40.0, 50.0, 60.0, 70.0, 100.0, 130.0, 160.0, 210.0, 280.0, 300.0, 270.0, 290.0, 290.0, 260.0]
  }

  function SodiumRow(g: Gender): (t: seq<real>)
    ensures Row(t, 0)
  {
    if g == Male then [101.0, 601.0, 900.0, 1100.0, 1300.0, 1600.0, 1900.0, 2000.0, 2000.0, 2000.0, 2000.0, 2000.0, 2000.0, 2000.0]
    else [101.0, 601.0, 900.0, 1100.0, 1300.0, 1600.0, 1900.0, 2000.0, 2000.0, 2000.0, 2000.0, 2000.0, 2000.0, 2000.0]
  }

  function PotassiumRow(g: Gender): (t: seq<real>)
    ensures Row(t, 0)
  {
    if g == Male then [400.0, 700.0, 700.0, 900.0, 1100.0, 1300.0, 1600.0, 1900.0, 2400.0, 2800.0, 2500.0, 2500.0, 2500.0, 2500.0]
    else [400.0, 700.0, 700.0, 900.0, 1100.0, 1200.0, 1500.0, 1800.0, 2200.0, 2100.0, 2000.0, 2000.0, 2000.0, 2000.0]
  }

  /** The reference rows. Protein is grams per kilogram of body weight,
      Lipid and MUFA+PUFA are percent of energy. */
  function ScalarTable(n: ScalarNutrient, g: Gender): (t: seq<real>)
    ensures Row(t, 3)
    ensures n !in {MufaPufa, VitaminA, VitaminC} ==> Row(t, 0)
  {
    match n
    case Protein => ProteinRow(g)
    case MufaPufa => MufaPufaRow(g)
    case Calcium => CalciumRow(g)
    case Iron => IronRow(g)
    case Zinc => ZincRow(g)
    case VitaminA => VitaminARow(g)
    case VitaminC => VitaminCRow(g)
    case Magnesium => MagnesiumRow(g)
    case Sodium => SodiumRow(g)
    case Potassium => PotassiumRow(g)
  }

  /** A ranged row: one cell per age band, each a range with both ends positive. */
  predicate PositiveRanges(t: seq<Entry>) {
    |t| == 14 && forall i :: 0 <= i < 14 ==> t[i].Range? && t[i].lo > 0.0 && t[i].hi > 0.0
  }

  /** A row of single values and ranges: a single value is never negative,
      a range has both ends positive. */
  predicate NonNegativeEntries(t: seq<Entry>) {
    |t| == 14 && forall i :: 0 <= i < 14 ==>
      (t[i].Scalar? && t[i].x >= 0.0) || (t[i].Range? && t[i].lo > 0.0 && t[i].hi > 0.0)
  }

  /** Lipid, percent of energy. */
  function LipidRow(g: Gender): (t: seq<Entry>)
    ensures PositiveRanges(t)
  {
    if g == Male then [Range(24.0, 37.0), Range(22.0, 29.0), Range(23.0, 31.0), Range(33.0, 44.0), Range(36.0, 51.0), Range(35.0, 52.0), Range(40.0, 61.0), Range(48.0, 72.0), Range(56.0, 83.0), Range(63.0, 94.0), Range(57.0, 71.0), Range(52.0, 65.0), Range(52.0, 65.0), Range(49.0, 61.0)]
    else [Range(22.0, 33.0), Range(20.0, 27.0), Range(22.0, 29.0), Range(31.0, 41.0), Range(34.0, 48.0), Range(32.0, 49.0), Range(38.0, 58.0), Range(44.0, 66.0), Range(51.0, 77.0), Range(53.0, 79.0), Range(46.0, 57.0), Range(45.0, 56.0), Range(44.0, 55.0), Range(40.0, 51.0)]
  }

  /** Glucid, grams. */
  function GlucidRow(g: Gender): (t: seq<Entry>)
    ensures PositiveRanges(t)
  {
    if g == Male then [Range(80.0, 90.0), Range(90.0, 100.0), Range(100.0, 110.0), Range(140.0, 150.0), Range(190.0, 200.0), Range(210.0, 230.0), Range(250.0, 270.0), Range(290.0, 320.0), Range(300.0, 340.0), Range(400.0, 440.0), Range(370.0, 400.0), Range(330.0, 360.0), Range(320.0, 250.0), Range(300.0, 320.0)]
    else [Range(75.0, 80.0), Range(85.0, 95.0), Range(95.0, 105.0), Range(135.0, 145.0), Range(175.0, 190.0), Range(200.0, 220.0), Range(230.0, 250.0), Range(230.0, 260.0), Range(280.0, 300.0), Range(330.0, 370.0), Range(320.0, 360.0), Range(290.0, 320.0), Range(280.0, 310.0), Range(250.0, 280.0)]
  }

  /** Fibre, grams. */
  function FiberRow(g: Gender): (t: seq<Entry>)
    ensures NonNegativeEntries(t)
  {
    if g == Male then [Scalar(0.0), Scalar(0.0), Scalar(0.0), Scalar(19.0), Range(20.0, 21.0), Range(22.0, 23.0), Range(24.0, 26.0), Range(27.0, 28.0), Range(29.0, 31.0), Scalar(38.0), Scalar(38.0), Scalar(38.0), Scalar(30.0), Scalar(30.0)]
    else [Scalar(0.0), Scalar(0.0), Scalar(0.0), Scalar(19.0), Range(20.0, 21.0), Range(22.0, 23.0), Range(24.0, 25.0), Scalar(26.0), Scalar(26.0), Scalar(25.0), Scalar(25.0), Scalar(21.0), Scalar(21.0), Scalar(21.0)]
  }

  function RangedTable(n: RangedNutrient, g: Gender): (t: seq<Entry>)
    ensures NonNegativeEntries(t)
    ensures n != Fiber ==> PositiveRanges(t)
  {
    match n
    case Lipid => LipidRow(g)
    case Glucid => GlucidRow(g)
    case Fiber => FiberRow(g)
  }

  /** The energy rows in kcal; Low and High have no value (0) for the first
      five bands. */
  function EnergyTable(g: Gender, a: Activity): (t: seq<real>)
    ensures |t| == 14
  {
    match a
    case Low =>
      if g == Male then [0.0, 0.0, 0.0, 0.0, 0.0, 1360.0, 1600.0, 1880.0, 2200.0, 2500.0, 2200.0, 2010.0, 2000.0, 1870.0]
      else [0.0, 0.0, 0.0, 0.0, 0.0, 1270.0, 1510.0, 1740.0, 2040.0, 2110.0, 1760.0, 1730.0, 1700.0, 1500.0]
    case Medium =>
      if g == Male then [550.0, 650.0, 700.0, 1000.0, 1320.0, 1570.0, 1820.0, 2150.0, 2500.0, 2820.0, 2570.0, 2350.0, 2330.0, 2190.0]
      else [500.0, 600.0, 650.0, 930.0, 1230.0, 1460.0, 1730.0, 1980.0, 2310.0, 2380.0, 2050.0, 2010.0, 1980.0, 1820.0]
    case High =>
      if g == Male then [0.0, 0.0, 0.0, 0.0, 0.0, 1770.0, 2050.0, 2400.0, 2790.0, 3140.0, 2940.0, 2680.0, 2660.0, 2520.0]
      else [0.0, 0.0, 0.0, 0.0, 0.0, 1650.0, 1940.0, 2220.0, 2580.0, 2650.0, 2340.0, 2300.0, 2260.0, 2090.0]
  }

  /** The row `calc_nutrients` reads: a level that is not a key of the energy
      table is read as "Medium". */
  function ActivityRow(level: string): (a: Activity)
    ensures a == Low <==> level == "Low"
    ensures a == High <==> level == "High"
  {
    if level == "Low" then Low else if level == "High" then High else Medium
  }

  /** The Medium row is positive in every band. */
  lemma MediumEnergyPositive(g: Gender, idx: nat)
    requires idx < 14
    ensures EnergyTable(g, Medium)[idx] > 0.0
  {
  }

  /** The energy need: the cell of the chosen row, or of the Medium row when
      that cell is 0. */
  function EnergyNeed(h: HealthInfo): (e: real)
    ensures e > 0.0
    ensures e == EnergyTable(h.gender, ActivityRow(h.activityLevel))[AgeIndex(h.age)]
         || e == EnergyTable(h.gender, Medium)[AgeIndex(h.age)]
  {
    var idx := AgeIndex(h.age);
    var v := EnergyTable(h.gender, ActivityRow(h.activityLevel))[idx];
    MediumEnergyPositive(h.gender, idx);
    if v == 0.0 then EnergyTable(h.gender, Medium)[idx] else v
  }

  /** The fallback to the Medium row happens exactly for an unknown activity
      level or a 0 cell, and only the first five bands have 0 cells. */
  lemma EnergyNeedFallback(h: HealthInfo)
    ensures var idx, a := AgeIndex(h.age), ActivityRow(h.activityLevel);
      (EnergyTable(h.gender, a)[idx] != 0.0 ==> EnergyNeed(h) == EnergyTable(h.gender, a)[idx])
      && (EnergyTable(h.gender, a)[idx] == 0.0 ==> EnergyNeed(h) == EnergyTable(h.gender, Medium)[idx])
      && (EnergyTable(h.gender, a)[idx] == 0.0 <==> a != Medium && idx < 5)
  {
  }

  /** The result of `calc_nutrients`, one field per key. */
  datatype Needs = Needs(
    betaCarotene: real, calcium: real, carbohydrate: real, energy: real, fat: real,
    fiber: real, glucid: real, iron: real, lipid: real, mufaPufa: real,
    magnesium: real, potassium: real, protein: real, sodium: real,
    vitaminA: real, vitaminC: real, zinc: real)

  function Lookup(h: HealthInfo, n: ScalarNutrient): real {
    GetVal(ScalarTable(n, h.gender), AgeIndex(h.age))
  }

  function Resolved(h: HealthInfo, n: RangedNutrient): real {
    ResolveRange(GetVal(RangedTable(n, h.gender), AgeIndex(h.age)))
  }

  /** The protein need: the band's grams per kilogram times the body weight. */
  function ProteinNeed(h: HealthInfo): (r: real)
    ensures h.weight >= 0.0 ==> r >= 0.0
    ensures h.weight > 0.0 ==> r > 0.0
  {
    var perKg := Lookup(h, Protein);
    LookupSign(h, Protein);
    perKg * h.weight
  }

  /** Grams of fat that supply `pct` percent of `energy` kcal at 9 kcal per gram. */
  function FatGrams(energy: real, pct: real): (r: real)
    ensures r * 9.0 * 100.0 == energy * pct
    ensures energy > 0.0 && pct >= 0.0 ==> r >= 0.0
    ensures energy > 0.0 && pct > 0.0 ==> r > 0.0
  {
    (energy * pct / 100.0) / 9.0
  }

  /** `calc_nutrients`. */
  function CalcNutrients(h: HealthInfo): (r: Needs)
    ensures r.energy > 0.0
    ensures r.fat == r.lipid && r.carbohydrate == r.glucid && r.betaCarotene == 0.0
  {
    var energy := EnergyNeed(h);
    var lipid := FatGrams(energy, Resolved(h, Lipid));
    var mufa := FatGrams(energy, Lookup(h, MufaPufa));
    var glucid := Resolved(h, Glucid);
    Needs(
      betaCarotene := 0.0,
      calcium := Lookup(h, Calcium),
      carbohydrate := glucid,
      energy := energy,
      fat := lipid,
      fiber := Resolved(h, Fiber),
      glucid := glucid,
      iron := Lookup(h, Iron),
      lipid := lipid,
      mufaPufa := mufa,
      magnesium := Lookup(h, Magnesium),
      potassium := Lookup(h, Potassium),
      protein := ProteinNeed(h),
      sodium := Lookup(h, Sodium),
      vitaminA := Lookup(h, VitaminA),
      vitaminC := Lookup(h, VitaminC),
      zinc := Lookup(h, Zinc))
  }

  /** Every cell is read at the person's own band: the clamp in `_get_val`
      never applies, since every row has one cell per band. */
  lemma GetValAtBand(h: HealthInfo, n: ScalarNutrient, m: RangedNutrient)
    ensures Lookup(h, n) == ScalarTable(n, h.gender)[AgeIndex(h.age)]
    ensures Resolved(h, m) == ResolveRange(RangedTable(m, h.gender)[AgeIndex(h.age)])
  {
  }

  /** Every range cell is well ordered except the Male Glucid cell of band 12,
      (320, 250); its midpoint, 285, still lies between its two ends. */
  lemma RangesOrdered(m: RangedNutrient, g: Gender, idx: nat)
    requires idx < 14
    requires RangedTable(m, g)[idx].Range?
    ensures var e := RangedTable(m, g)[idx];
      e.lo <= e.hi <==> !(m == Glucid && g == Male && idx == 12)
  {
  }

  /** Lipid and Glucid cells resolve to positive values, Fiber to non-negative ones. */
  lemma RangedTableSign(m: RangedNutrient, g: Gender, idx: nat)
    requires idx < 14
    ensures ResolveRange(RangedTable(m, g)[idx]) >= 0.0
    ensures m != Fiber ==> ResolveRange(RangedTable(m, g)[idx]) > 0.0
  {
    var e := RangedTable(m, g)[idx];
    if e.Range? {
      assert ResolveRange(e) == (e.lo + e.hi) / 2.0;
    }
  }

  lemma LookupSign(h: HealthInfo, n: ScalarNutrient)
    ensures Lookup(h, n) >= 0.0
    ensures n !in {MufaPufa, VitaminA, VitaminC} ==> Lookup(h, n) > 0.0
  {
    var t := ScalarTable(n, h.gender);
    assert Lookup(h, n) == t[AgeIndex(h.age)];
  }

  lemma ResolvedSign(h: HealthInfo, m: RangedNutrient)
    ensures Resolved(h, m) >= 0.0
    ensures m != Fiber ==> Resolved(h, m) > 0.0
  {
    RangedTableSign(m, h.gender, AgeIndex(h.age));
  }

  /** The Medium row is at least 500 kcal in every band, so the energy
      need is too. */
  lemma EnergyNeedAtLeast500(h: HealthInfo)
    ensures EnergyNeed(h) >= 500.0
  {
    var idx, g := AgeIndex(h.age), h.gender;
    EnergyCellAtLeast500(g, ActivityRow(h.activityLevel), idx);
    EnergyCellAtLeast500(g, Medium, idx);
  }

  /** Every energy cell is 0 (no value) or at least 500 kcal; the Medium
      cells are all at least 500. */
  lemma EnergyCellAtLeast500(g: Gender, a: Activity, idx: nat)
    requires idx < 14
    ensures EnergyTable(g, a)[idx] == 0.0 || EnergyTable(g, a)[idx] >= 500.0
    ensures a == Medium ==> EnergyTable(g, a)[idx] >= 500.0
  {
    var t := EnergyTable(g, a);
    if a == Medium {
      if g == Male {
        assert forall i :: 0 <= i < 14 ==> t[i] >= 500.0;
      } else {
        assert forall i :: 0 <= i < 14 ==> t[i] >= 500.0;
      }
    } else {
      if g == Male {
        assert forall i :: 0 <= i < 14 ==> t[i] == 0.0 || t[i] >= 500.0;
      } else {
        assert forall i :: 0 <= i < 14 ==> t[i] == 0.0 || t[i] >= 500.0;
      }
    }
  }

  /** The fat and carbohydrate needs are positive. */
  lemma FatCarbNeedsPositive(h: HealthInfo)
    ensures CalcNutrients(h).fat > 0.0 && CalcNutrients(h).carbohydrate > 0.0
  {
    ResolvedSign(h, Lipid);
    ResolvedSign(h, Glucid);
  }

  /** The MUFA+PUFA and fibre needs are non-negative. */
  lemma MufaFiberNeedsNonNegative(h: HealthInfo)
    ensures CalcNutrients(h).mufaPufa >= 0.0 && CalcNutrients(h).fiber >= 0.0
  {
    ResolvedSign(h, Fiber);
    LookupSign(h, MufaPufa);
  }

  /** The mineral needs are positive and the vitamin needs non-negative. */
  lemma MicroNeedsNonNegative(h: HealthInfo)
    ensures var r := CalcNutrients(h);
      r.calcium > 0.0 && r.iron > 0.0 && r.zinc > 0.0 && r.vitaminA >= 0.0 && r.vitaminC >= 0.0
      && r.magnesium > 0.0 && r.sodium > 0.0 && r.potassium > 0.0
  {
    LookupSign(h, Calcium);
    LookupSign(h, Iron);
    LookupSign(h, Zinc);
    LookupSign(h, VitaminA);
    LookupSign(h, VitaminC);
    LookupSign(h, Magnesium);
    LookupSign(h, Sodium);
    LookupSign(h, Potassium);
  }
}
