/** The mock image recogniser of the first client version: it shuffles a
    copy of the food table, keeps the first five entries and gives each a
    confidence in a band fixed by its position. The shuffle and the
    `Math.random()` draws are parameters. */
module MockRecogniser {
  import opened Seqs
  import opened FoodDatabase

  /** A table entry spread into a new object together with its confidence. */
  datatype Prediction = Prediction(food: FoodRecord, confidence: int)

  datatype Analysis = Analysis(predictions: seq<Prediction>, bestMatch: Option<Prediction>)

  const Shown: nat := 5

  /** `order` lists every index of an `n`-entry table exactly once: the
      outcome of `sort` with a random comparator on a copy of the table. */
  predicate IsPermutation(order: seq<nat>, n: nat) {
    |order| == n
    && (forall i :: 0 <= i < n ==> order[i] < n)
    && (forall i, j :: 0 <= i < j < n ==> order[i] != order[j])
  }

  /** A `Math.random()` draw lies in [0, 1). */
  predicate IsDraw(r: real) { 0.0 <= r < 1.0 }

  /** `Math.floor(Math.random() * 10)`. */
  function Jitter(roll: real): (j: int)
    requires IsDraw(roll)
    ensures 0 <= j <= 9
  {
    (roll * 10.0).Floor
  }

  /** The confidence at `index`: 85 plus jitter for the first prediction,
      60 - 10*index plus jitter for the others. */
  function Confidence(index: nat, roll: real): (c: int)
    requires IsDraw(roll)
    ensures index == 0 ==> 85 <= c <= 94
    ensures index >= 1 ==> 60 - 10 * index <= c <= 69 - 10 * index
  {
    if index == 0 then 85 + Jitter(roll) else 60 - index * 10 + Jitter(roll)
  }

  /** `analyzeImage` of the mock, on a table, a shuffle and the jitter draws. */
  function Analyze(table: seq<FoodRecord>, order: seq<nat>, rolls: seq<real>): (r: Analysis)
    requires IsPermutation(order, |table|)
    requires |rolls| >= Min(Shown, |table|)
    requires forall i :: 0 <= i < |rolls| ==> IsDraw(rolls[i])
    ensures |r.predictions| == Min(Shown, |table|)
    ensures forall i :: 0 <= i < |r.predictions| ==>
      r.predictions[i] == Prediction(table[order[i]], Confidence(i, rolls[i]))
    ensures r.bestMatch == if r.predictions == [] then None else Some(r.predictions[0])
  {
    var k := Min(Shown, |table|);
    var predictions := seq(k, i requires 0 <= i < k => Prediction(table[order[i]], Confidence(i, rolls[i])));
    Analysis(predictions, if k == 0 then None else Some(predictions[0]))
  }

  /** The mock as the client calls it, on its own food table. */
  function AnalyzeImage(order: seq<nat>, rolls: seq<real>): (r: Analysis)
    requires IsPermutation(order, |Catalogue|)
    requires |rolls| >= Shown
    requires forall i :: 0 <= i < |rolls| ==> IsDraw(rolls[i])
    ensures |r.predictions| == Shown
    ensures r.bestMatch == Some(r.predictions[0])
  {
    Analyze(Catalogue, order, rolls)
  }

  /** The predictions come from pairwise distinct table positions, the best
      match is the first prediction, and confidences strictly decrease with
      position, so the first beats every other. */
  lemma AnalyzeRanking(table: seq<FoodRecord>, order: seq<nat>, rolls: seq<real>)
    requires IsPermutation(order, |table|)
    requires |rolls| >= Min(Shown, |table|)
    requires forall i :: 0 <= i < |rolls| ==> IsDraw(rolls[i])
    ensures var p := Analyze(table, order, rolls).predictions;
      (forall i, j :: 0 <= i < j < |p| ==> order[i] != order[j] && p[i].confidence > p[j].confidence)
      && (forall i :: 1 <= i < |p| ==> p[0].confidence > p[i].confidence)
  {
    var p := Analyze(table, order, rolls).predictions;
    forall i, j | 0 <= i < j < |p|
      ensures p[i].confidence > p[j].confidence
    {
      var ci := Confidence(i, rolls[i]);
      var cj := Confidence(j, rolls[j]);
      assert ci >= 60 - 10 * i;
      assert cj <= 69 - 10 * j;
    }
  }

  /** Every prediction is a table entry plus a confidence between 20 and 94. */
  lemma AnalyzeFromTable(table: seq<FoodRecord>, order: seq<nat>, rolls: seq<real>)
    requires IsPermutation(order, |table|)
    requires |rolls| >= Min(Shown, |table|)
    requires forall i :: 0 <= i < |rolls| ==> IsDraw(rolls[i])
    ensures forall pr :: pr in Analyze(table, order, rolls).predictions ==>
      pr.food in table && 20 <= pr.confidence <= 94
  {
    var p := Analyze(table, order, rolls).predictions;
    forall pr | pr in p
      ensures pr.food in table && 20 <= pr.confidence <= 94
    {
      var i :| 0 <= i < |p| && p[i] == pr;
      assert pr.food == table[order[i]];
    }
  }
}
