/** The catalogue service of the web client: `getAllFoods`, which loads the
    `foods` collection once and keeps it in a module-level cache, and
    `findFoodByName`, a first-match search by containment on normalised
    names. The store read is replaced by its outcome. */
module FoodService {
  import opened Seqs
  import opened Text
  import Helpers
  import JsValues

  /** The fields of a stored food document. `id` is the document's own `id`
      field, if it has one; `name` is `None` when the field is missing or is
      not text; the other fields are kept as they are. */
  datatype DocData = DocData(id: Option<string>, name: Option<string>, fields: map<string, JsValues.Value>)

  /** A document of the `foods` collection: its key and its data. */
  datatype Doc = Doc(key: string, data: DocData)

  /** A catalogue entry `{ id: doc.id, ...doc.data() }`. */
  datatype Food = Food(id: string, name: Option<string>, fields: map<string, JsValues.Value>)

  /** The spread puts the document's own `id` field, when it has one, over
      the document key. */
  function ToFood(doc: Doc): (f: Food)
    ensures f.id == (if doc.data.id.Some? then doc.data.id.value else doc.key)
    ensures f.name == doc.data.name && f.fields == doc.data.fields
  {
    Food(if doc.data.id.Some? then doc.data.id.value else doc.key, doc.data.name, doc.data.fields)
  }

  function ToFoods(docs: seq<Doc>): (r: seq<Food>)
    ensures |r| == |docs|
    ensures forall i :: 0 <= i < |docs| ==> r[i] == ToFood(docs[i])
  {
    seq(|docs|, i requires 0 <= i < |docs| => ToFood(docs[i]))
  }

  /** The outcome of `getDocs(collection(db, "foods"))`. */
  datatype Load = Failed | Loaded(docs: seq<Doc>)

  /** The cache and the list one call of `getAllFoods` leaves and returns,
      from the cache before the call and the outcome the store read would
      have. A cached list, even an empty one (an array is truthy), is
      returned without reading the store. */
  function AllFoods(cached: Option<seq<Food>>, load: Load): (r: (Option<seq<Food>>, seq<Food>))
    ensures cached.Some? ==> r == (cached, cached.value)
    ensures cached.None? && load.Failed? ==> r == (None, [])
    ensures cached.None? && load.Loaded? ==> r == (Some(ToFoods(load.docs)), ToFoods(load.docs))
  {
    if cached.Some? then (cached, cached.value)
    else match load
      case Failed => (None, [])
      case Loaded(docs) => (Some(ToFoods(docs)), ToFoods(docs))
  }

  /** After a successful load every later call returns the same list,
      whatever the store would answer. */
  lemma LoadedOnce(cached: Option<seq<Food>>, first: Load, later: Load)
    requires cached.None? && first.Loaded?
    ensures var (c1, foods1) := AllFoods(cached, first);
      AllFoods(c1, later) == (c1, foods1) && foods1 == ToFoods(first.docs)
  {
  }

  /** After a failed load the next call reads the store again, exactly as
      the first would have. */
  lemma FailedLoadRetries(cached: Option<seq<Food>>, later: Load)
    requires cached.None?
    ensures var (c1, foods1) := AllFoods(cached, Failed);
      foods1 == [] && AllFoods(c1, later) == AllFoods(cached, later)
  {
  }

  /** `normalize(str)`: lower-cased, then the combining marks U+0300..U+036F
      deleted. Unlike `removeAccents` there is no trimming and no `đ` -> `d`. */
  function Normalize(s: string): string {
    Helpers.StripMarks(Lower(s))
  }

  /** A normalised name has no combining mark and no ASCII capital. */
  lemma NormalizeNormalForm(s: string)
    ensures forall c :: c in Normalize(s) ==> !Helpers.IsCombiningMark(c) && !IsAsciiUpper(c)
  {
    LowerProperties(s);
  }

  /** `normalize` keeps surrounding spaces and `đ`, both of which
      `removeAccents` removes. */
  lemma NormalizeDiffersFromRemoveAccents()
    ensures Normalize(" đ") == " đ"
    ensures Helpers.RemoveAccents(" đ") == "d"
  {
    assert Lower(" đ") == " đ";
    assert " đ"[1..][1..] == [];
    assert Helpers.StripMarks(" đ") == " đ";
    assert Helpers.ReplaceDStroke(" đ") == " d";
    assert Lower(" d") == " d";
    assert JsIsSpace(' ') && !JsIsSpace('d');
    assert TrimStart(" d", JsIsSpace) == "d";
  }

  /** The test `find` applies: either normalised name contains the other. */
  predicate Matches(name: string, search: string) {
    Contains(Normalize(name), search) || Contains(search, Normalize(name))
  }

  /** Where `find` stops: a food whose name is not text (`normalize` throws on
      it) or one that matches. */
  predicate Stops(f: Food, search: string) {
    f.name.None? || Matches(f.name.value, search)
  }

  /** `foods.find(...)` with the normalised query: the first food that
      matches, `None` (undefined) when none does, and a rejection when a
      food without a text name comes first. */
  function FindFrom(foods: seq<Food>, search: string): Outcome<Option<Food>> {
    if foods == [] then Ok(None)
    else if foods[0].name.None? then Raised
    else if Matches(foods[0].name.value, search) then Ok(Some(foods[0]))
    else FindFrom(foods[1..], search)
  }

  function FindByName(foods: seq<Food>, searchName: string): Outcome<Option<Food>> {
    FindFrom(foods, Normalize(searchName))
  }

  /** The search agrees with the first stopping point `FindFirst` picks. */
  lemma {:induction false} FindFromFirst(foods: seq<Food>, search: string)
    ensures var i := FindFirst(foods, (f: Food) => Stops(f, search));
      FindFrom(foods, search) ==
        if i.None? then Ok(None)
        else if foods[i.value].name.None? then Raised
        else Ok(Some(foods[i.value]))
  {
    if foods != [] && !Stops(foods[0], search) {
      FindFromFirst(foods[1..], search);
    }
  }

  /** A food `find` passes over: its name is text and does not match. */
  predicate Skipped(f: Food, search: string) {
    f.name.Some? && !Matches(f.name.value, search)
  }

  /** A found food matches, and every food before it is skipped. */
  lemma FindFromFound(foods: seq<Food>, search: string)
    ensures var r := FindFrom(foods, search);
      r.Ok? && r.value.Some? ==>
        exists i :: 0 <= i < |foods| && foods[i] == r.value.value
          && foods[i].name.Some? && Matches(foods[i].name.value, search)
          && forall j :: 0 <= j < i ==> Skipped(foods[j], search)
  {
    FindFromFirst(foods, search);
    var i := FindFirst(foods, (f: Food) => Stops(f, search));
    if i.Some? && foods[i.value].name.Some? {
      assert forall j :: 0 <= j < i.value ==> !Stops(foods[j], search);
    }
  }

  /** The search finds nothing exactly when every food is skipped. */
  lemma FindFromNone(foods: seq<Food>, search: string)
    ensures FindFrom(foods, search) == Ok(None) <==> forall j :: 0 <= j < |foods| ==> Skipped(foods[j], search)
  {
    FindFromFirst(foods, search);
    var i := FindFirst(foods, (f: Food) => Stops(f, search));
    if i.Some? {
      assert !Skipped(foods[i.value], search);
    } else {
      assert forall j :: 0 <= j < |foods| ==> !Stops(foods[j], search);
    }
  }

  /** The search is rejected exactly when a food without a text name is
      reached with every food before it skipped. */
  lemma FindFromRaised(foods: seq<Food>, search: string)
    ensures FindFrom(foods, search).Raised? <==>
      exists i :: 0 <= i < |foods| && foods[i].name.None? && forall j :: 0 <= j < i ==> Skipped(foods[j], search)
  {
    FindFromFirst(foods, search);
    var i := FindFirst(foods, (f: Food) => Stops(f, search));
    if i.Some? {
      var k := i.value;
      assert forall j :: 0 <= j < k ==> Skipped(foods[j], search) by {
        assert forall j :: 0 <= j < k ==> !Stops(foods[j], search);
      }
      if foods[k].name.Some? {
        forall i' | 0 <= i' < |foods| && foods[i'].name.None?
          ensures !Skipped(foods[k], search) && k < i'
        {
        }
      }
    } else {
      forall i' | 0 <= i' < |foods| ensures !foods[i'].name.None? {
        assert !Stops(foods[i'], search);
      }
    }
  }

  /** What the search promises: a found food matches and comes after only
      skipped foods; `None` means every food is skipped; a rejection means
      a food without a text name comes before any match. */
  lemma FindByNameSpec(foods: seq<Food>, searchName: string)
    ensures var search, r := Normalize(searchName), FindByName(foods, searchName);
      (r.Ok? && r.value.Some? ==>
         exists i :: 0 <= i < |foods| && foods[i] == r.value.value
          && foods[i].name.Some? && Matches(foods[i].name.value, search)
          && forall j :: 0 <= j < i ==> Skipped(foods[j], search))
      && (r == Ok(None) <==> forall j :: 0 <= j < |foods| ==> Skipped(foods[j], search))
      && (r.Raised? <==>
            exists i :: 0 <= i < |foods| && foods[i].name.None? && forall j :: 0 <= j < i ==> Skipped(foods[j], search))
  {
    var search := Normalize(searchName);
    FindFromFound(foods, search);
    FindFromNone(foods, search);
    FindFromRaised(foods, search);
  }

  class FoodCache {
    /** `cachedFoods`: `None` (null) until a load succeeds. */
    var cached: Option<seq<Food>>

    constructor ()
      ensures cached == None
    {
      cached := None;
    }

    /** `getAllFoods()`: the cached list, or the loaded documents as foods,
        pushed one by one and then cached; `[]` when the load fails, which
        leaves the cache unset. */
    method GetAllFoods(load: Load) returns (foods: seq<Food>)
      modifies this
      ensures (cached, foods) == AllFoods(old(cached), load)
    {
      if cached.Some? {
        return cached.value;
      }
      if load.Failed? {
        return [];
      }
      var docs := load.docs;
      foods := [];
      for i := 0 to |docs|
        invariant foods == ToFoods(docs[..i])
      {
        assert ToFoods(docs[..i + 1]) == ToFoods(docs[..i]) + [ToFood(docs[i])];
        foods := foods + [ToFood(docs[i])];
      }
      assert docs[..|docs|] == docs;
      cached := Some(foods);
    }

    /** `findFoodByName(searchName)`: the search over whatever `getAllFoods`
        returns. */
    method FindFoodByName(searchName: string, load: Load) returns (r: Outcome<Option<Food>>)
      modifies this
      ensures var (c, foods) := AllFoods(old(cached), load);
        cached == c && r == FindByName(foods, searchName)
    {
      var foods := GetAllFoods(load);
      r := FindByName(foods, searchName);
    }
  }
}
