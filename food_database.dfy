/** The client's static nutrition table and `getNutritionForFood`, which
    maps a name produced by the recogniser to a table entry through
    `removeAccents`, or to a placeholder record when nothing matches. */
module FoodDatabase {
  import opened Seqs
  import opened Text
  import opened Helpers

  datatype FoodRecord = FoodRecord(
    name: string, calories: int, protein: int, carbs: int, fat: int,
    tags: seq<string>, description: string)

  /** `foodDatabase`, in its declared order. */
  const Catalogue: seq<FoodRecord> := [
    FoodRecord("Bun Bo Hue", 600, 25, 68, 22,
      ["Spicy", "Vietnamese", "Noodles", "Beef"],
      "A spicy Vietnamese beef noodle soup with lemongrass and shrimp paste."),
    FoodRecord("Pho Ga", 450, 28, 55, 12,
      ["Vietnamese", "Noodles", "Chicken", "Comfort Food"],
      "Traditional Vietnamese chicken noodle soup with aromatic herbs."),
    FoodRecord("Banh Mi", 520, 22, 48, 26,
      ["Vietnamese", "Sandwich", "Pork", "Pickled Vegetables"],
      "Vietnamese baguette sandwich filled with savory meats and fresh vegetables."),
    FoodRecord("Com Tam", 680, 32, 72, 28,
      ["Vietnamese", "Rice", "Pork", "Grilled"],
      "Broken rice with grilled pork chop, egg, and pickled vegetables."),
    FoodRecord("Goi Cuon", 180, 12, 28, 4,
      ["Vietnamese", "Appetizer", "Fresh", "Healthy"],
      "Fresh spring rolls with shrimp, pork, herbs, and vermicelli."),
    FoodRecord("Ca Kho To", 350, 30, 15, 18,
      ["Vietnamese", "Fish", "Savory", "Caramelized"],
      "Caramelized fish in clay pot, typically served with white rice."),
    FoodRecord("Banh Xeo", 580, 18, 62, 32,
      ["Vietnamese", "Pancake", "Crispy", "Pork"],
      "Crispy Vietnamese savory pancake filled with pork, shrimp, and bean sprouts."),
    FoodRecord("Bun Cha", 550, 28, 65, 20,
      ["Vietnamese", "Noodles", "Pork", "Grilled"],
      "Grilled pork and noodles served with herbs and dipping sauce."),
    FoodRecord("Mi Quang", 540, 26, 60, 24,
      ["Vietnamese", "Noodles", "Turmeric", "Central Vietnam"],
      "Turmeric-infused noodles with meat, shrimp, and fresh herbs."),
    FoodRecord("Hu Tieu", 480, 24, 58, 16,
      ["Vietnamese", "Noodles", "Pork", "Seafood"],
      "Pork and seafood noodle soup, popular in Southern Vietnam."),
    FoodRecord("Burger", 550, 25, 45, 30,
      ["American", "Fast Food", "Beef"],
      "Classic beef burger with lettuce, tomato, and cheese."),
    FoodRecord("Pizza Slice", 285, 12, 36, 10,
      ["Italian", "Fast Food", "Cheese"],
      "Slice of pepperoni pizza with mozzarella cheese."),
    FoodRecord("Caesar Salad", 350, 15, 12, 28,
      ["Salad", "Healthy", "Vegetables"],
      "Romaine lettuce with croutons, parmesan cheese, and caesar dressing."),
    FoodRecord("Sushi Roll", 300, 10, 50, 6,
      ["Japanese", "Seafood", "Rice"],
      "California roll with crab, avocado, and cucumber."),
    FoodRecord("Pad Thai", 650, 20, 85, 25,
      ["Thai", "Noodles", "Spicy"],
      "Stir-fried rice noodle dish with eggs, peanuts, and shrimp.")
  ]

  /** The name test of the `find` callback, on already cleaned names. */
  predicate NamesMatch(cleanDbName: string, cleanAiName: string) {
    cleanDbName == cleanAiName || Contains(cleanDbName, cleanAiName) || Contains(cleanAiName, cleanDbName)
  }

  predicate EntryMatches(f: FoodRecord, cleanAiName: string) {
    NamesMatch(RemoveAccents(f.name), cleanAiName)
  }

  /** The record returned for a name the table does not know. */
  function Unrecognised(aiFoodName: string): FoodRecord {
    FoodRecord(aiFoodName, 300, 15, 40, 10, ["AI Detected"],
      "Thông tin dinh dưỡng chưa có trong cơ sở dữ liệu.")
  }

  /** `getNutritionForFood` over a given table. */
  function Lookup(db: seq<FoodRecord>, aiFoodName: string): FoodRecord {
    var clean := RemoveAccents(aiFoodName);
    match FindFirst(db, f => EntryMatches(f, clean))
    case Some(i) => db[i]
    case None => Unrecognised(aiFoodName)
  }

  function GetNutritionForFood(aiFoodName: string): FoodRecord {
    Lookup(Catalogue, aiFoodName)
  }

  /** Some entry's cleaned name matches the cleaned query. */
  predicate HasMatch(db: seq<FoodRecord>, aiFoodName: string) {
    exists j :: 0 <= j < |db| && EntryMatches(db[j], RemoveAccents(aiFoodName))
  }

  /** The lookup is total: with a match it is the first matching entry in
      table order, and without one it is the placeholder carrying the raw name. */
  lemma LookupSpec(db: seq<FoodRecord>, aiFoodName: string)
    ensures HasMatch(db, aiFoodName) ==>
      exists i :: 0 <= i < |db| && Lookup(db, aiFoodName) == db[i]
        && EntryMatches(db[i], RemoveAccents(aiFoodName))
        && forall j :: 0 <= j < i ==> !EntryMatches(db[j], RemoveAccents(aiFoodName))
    ensures !HasMatch(db, aiFoodName) ==> Lookup(db, aiFoodName) == Unrecognised(aiFoodName)
  {
    var clean := RemoveAccents(aiFoodName);
    var r := FindFirst(db, f => EntryMatches(f, clean));
    if r.Some? {
      assert Lookup(db, aiFoodName) == db[r.value];
    }
  }

  /** Two queries that clean to the same text find the same entry. */
  lemma LookupDependsOnCleanName(db: seq<FoodRecord>, q1: string, q2: string)
    requires RemoveAccents(q1) == RemoveAccents(q2)
    requires HasMatch(db, q1)
    ensures Lookup(db, q1) == Lookup(db, q2)
  {
    var clean := RemoveAccents(q1);
    var r := FindFirst(db, f => EntryMatches(f, clean));
    assert r.Some?;
  }

  /** Case and combining marks in the query do not change which entry is found. */
  lemma LookupIgnoresCase(db: seq<FoodRecord>, q: string)
    requires HasMatch(db, q)
    ensures Lookup(db, Lower(q)) == Lookup(db, q)
  {
    RemoveAccentsIgnoresCase(q);
    LookupDependsOnCleanName(db, q, Lower(q));
  }

  lemma LookupIgnoresMark(db: seq<FoodRecord>, a: string, m: char, b: string)
    requires IsCombiningMark(m)
    requires HasMatch(db, a + b)
    ensures Lookup(db, a + [m] + b) == Lookup(db, a + b)
  {
    RemoveAccentsDropsMark(a, m, b);
    LookupDependsOnCleanName(db, a + b, a + [m] + b);
  }

  /** An empty or all-whitespace query cleans to "", which every name
      contains, so it returns the first entry of the table. */
  lemma BlankQueryGivesFirstEntry(db: seq<FoodRecord>, q: string)
    requires db != []
    requires forall k :: 0 <= k < |q| ==> JsIsSpace(q[k])
    ensures Lookup(db, q) == db[0]
  {
    if q != "" {
      var f := Fold(q);
      FoldPointwise(q);
      assert forall k :: 0 <= k < |StripMarks(q)| ==> StripMarks(q)[k] in q;
      TrimAllSpace(f, JsIsSpace);
    }
    assert RemoveAccents(q) == "";
    ContainsTrivial(RemoveAccents(db[0].name));
  }

  predicate WellFormed(f: FoodRecord) {
    f.name != "" && f.calories >= 0 && f.protein >= 0 && f.carbs >= 0 && f.fat >= 0
  }

  lemma CatalogueWellFormed()
    ensures forall i :: 0 <= i < |Catalogue| ==> WellFormed(Catalogue[i])
  {
  }

  /** Whatever the query, the result has a non-empty name and non-negative
      macros, given a non-empty table of such entries. */
  lemma LookupWellFormed(db: seq<FoodRecord>, aiFoodName: string)
    requires db != []
    requires forall i :: 0 <= i < |db| ==> WellFormed(db[i])
    ensures WellFormed(Lookup(db, aiFoodName))
  {
    if aiFoodName == "" {
      BlankQueryGivesFirstEntry(db, aiFoodName);
    } else {
      var r := FindFirst(db, f => EntryMatches(f, RemoveAccents(aiFoodName)));
      if r.Some? {
        assert Lookup(db, aiFoodName) == db[r.value];
      } else {
        assert Lookup(db, aiFoodName) == Unrecognised(aiFoodName);
      }
    }
  }

  lemma GetNutritionForFoodWellFormed(aiFoodName: string)
    ensures WellFormed(GetNutritionForFood(aiFoodName))
  {
    CatalogueWellFormed();
    LookupWellFormed(Catalogue, aiFoodName);
  }
}
