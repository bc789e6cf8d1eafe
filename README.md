# NutriScan: nutrition rules, verified

NutriScan is a food-photo and meal-recommendation app. It has a React web client backed by a Firestore store, and a Flask service that recognises dishes and recommends meals. This project models the deterministic rules underneath that plumbing, and proves what the code promises about them.

- **Nutrient needs** (`NutrientNeeds`). `HealthInfo` puts an age in months into one of 14 age bands. It reads the reference tables by gender and band, resolves `(lo, hi)` ranges to their midpoints, and falls back to the "Medium" energy row.
- **Recommender** (`Recommender`). `NutritionRecommender` cleans the catalogue:
  - it strips names and drops duplicates, keeping the first;
  - it coerces the numeric columns to numbers, with 0 for anything it cannot read.

  It scores dishes by weighted relative error, keeps those inside an energy window, sorts them and takes the top N. `get_recommendations` turns the day's needs and what was eaten into a meal target, a reason label and the keys the web client reads.
- **Food lookup** (`FoodDatabase`, `Helpers`). This covers `getNutritionForFood` over the client's static table, and the `removeAccents` normaliser. The helpers `capitalizeFirstLetter` and `generatePlaceholderImage` are the same text in both `helpers.js` copies, so they are modelled once.
- **Mock recogniser** (`MockRecogniser`). The first client's `analyzeImage` takes the first five entries of a shuffled copy of the table and gives each one a confidence band fixed by its position.
- **Today's intake** (`AiService`, `Profile`):
  - the "eaten today" totals that `getDailyRecommendations` sends, and its result selection;
  - the success-or-null outcome of `analyzeImage`;
  - the profile page's `isToday` and its today panel.
- **Catalogue service** (`FoodService`). The `getAllFoods` cache is a class with a `cached` field. `findFoodByName` is a first-match search on normalised names.

`Seqs` (filter, find, reverse, `Option`, `Outcome`), `Text` (whitespace sets, trimming, ASCII case, substring search, decimal integers) and `JsValues` (truthiness, `Number()`, NaN, dates relative to an abstract clock) are the shared vocabulary.

How things are modelled:

- Python floats are exact reals. JavaScript numbers are `Finite(real)` or `NaN`.
- The pandas DataFrame is a sequence of records.
- An exception that escapes, or a rejected promise, is `Outcome.Raised`.
- Store reads, HTTP replies, `Math.random()` draws, the shuffle and the clock are parameters.

## Model

| member | source | states |
|---|---|---|
| NutrientNeeds.NewHealthInfo | ai_service/calc_nutrients.py:7-17 | the stored gender is Female exactly when the argument is "Female"; any other gender is stored as Male; age, weight, height and activity level are kept as given |
| NutrientNeeds.AgeIndex | ai_service/calc_nutrients.py:40-54 | total on every integer age; the band is in 0..13; band 0 holds exactly the ages below 6 months; every other band k holds ages from its first month up to the next band's first month |
| NutrientNeeds.BandStartIncreasing | ai_service/calc_nutrients.py:40-54 | the first months of the bands strictly increase |
| NutrientNeeds.AgeIndexOfBand | ai_service/calc_nutrients.py:40-54 | every age inside band k gets index k, so the bands partition the ages |
| NutrientNeeds.AgeIndexMonotone | ai_service/calc_nutrients.py:40-54 | the band index never decreases as the age grows |
| NutrientNeeds.ResolveRange | ai_service/calc_nutrients.py:62-65 | a single value is returned unchanged; a range gives the point equidistant from both ends, which lies between them |
| NutrientNeeds.GetVal | ai_service/calc_nutrients.py:56-60 | never indexes out of range: the band's entry when the row is long enough, else the row's last entry |
| NutrientNeeds.GetValAtBand | ai_service/calc_nutrients.py:20-33 | every table row has one entry per band, so the clamp never applies and each cell is read at the person's own band |
| NutrientNeeds.ProteinRow | ai_service/calc_nutrients.py:21 | the Protein row has 14 entries, all positive |
| NutrientNeeds.MufaPufaRow | ai_service/calc_nutrients.py:23 | the MUFA+PUFA row has 14 non-negative entries; only band 0 is 0 |
| NutrientNeeds.CalciumRow | ai_service/calc_nutrients.py:26 | the Calcium row has 14 entries, all positive |
| NutrientNeeds.IronRow | ai_service/calc_nutrients.py:27 | the Iron row has 14 entries, all positive |
| NutrientNeeds.ZincRow | ai_service/calc_nutrients.py:28 | the Zinc row has 14 entries, all positive |
| NutrientNeeds.VitaminARow | ai_service/calc_nutrients.py:29 | the Vitamin A row has 14 non-negative entries; only the first two bands are 0 |
| NutrientNeeds.VitaminCRow | ai_service/calc_nutrients.py:30 | the Vitamin C row has 14 non-negative entries; only the first three bands are 0 |
| NutrientNeeds.MagnesiumRow | ai_service/calc_nutrients.py:31 | the Magnesium row has 14 entries, all positive |
| NutrientNeeds.SodiumRow | ai_service/calc_nutrients.py:32 | the Sodium row has 14 entries, all positive |
| NutrientNeeds.PotassiumRow | ai_service/calc_nutrients.py:33 | the Potassium row has 14 entries, all positive |
| NutrientNeeds.ScalarTable | ai_service/calc_nutrients.py:21-33 | every single-value row has 14 non-negative entries, and the rows other than MUFA+PUFA and the vitamins have no 0 |
| NutrientNeeds.RangedTable | ai_service/calc_nutrients.py:22-25 | the Lipid, Glucid and Fiber rows have one cell per band; Lipid and Glucid cells are ranges with positive ends, and Fiber cells are non-negative values or such ranges |
| NutrientNeeds.EnergyTable | ai_service/calc_nutrients.py:34-37 | every energy row has one entry per band |
| NutrientNeeds.RangesOrdered | ai_service/calc_nutrients.py:24 | every range cell has lo <= hi except the Male Glucid cell of band 12, (320, 250) |
| NutrientNeeds.RangedTableSign | ai_service/calc_nutrients.py:22-25 | Lipid and Glucid cells resolve to positive values; Fiber cells resolve to non-negative values |
| NutrientNeeds.ActivityRow | ai_service/calc_nutrients.py:71-73 | "Low" and "High" choose their own rows; every other level text chooses Medium |
| NutrientNeeds.MediumEnergyPositive | ai_service/calc_nutrients.py:35-36 | the Medium energy row is positive in every band, for both genders |
| NutrientNeeds.EnergyNeed | ai_service/calc_nutrients.py:68-77 | the energy need is positive; it is the chosen activity row's cell at the band, or the Medium row's cell |
| NutrientNeeds.EnergyNeedFallback | ai_service/calc_nutrients.py:71-77 | the chosen row's cell is used when it is non-zero, and the Medium cell otherwise; a 0 cell occurs exactly for a non-Medium row in the first five bands |
| NutrientNeeds.EnergyNeedAtLeast500 | ai_service/calc_nutrients.py:34-37 | the energy need is at least 500 kcal for every person |
| NutrientNeeds.ProteinNeed | ai_service/calc_nutrients.py:79-80 | grams per kilogram times the weight: non-negative for a non-negative weight, positive for a positive one |
| NutrientNeeds.FatGrams | ai_service/calc_nutrients.py:82-86 | the grams g that supply pct percent of the energy at 9 kcal per gram satisfy g·9·100 = energy·pct, with their sign |
| NutrientNeeds.CalcNutrients | ai_service/calc_nutrients.py:67-110 | the energy need is positive; Fat equals Lipid, Carbohydrate equals Glucid and Beta-carotene is 0 |
| NutrientNeeds.LookupSign | ai_service/calc_nutrients.py:56-60 | every single-value need read from the tables is non-negative, and positive outside MUFA+PUFA and the vitamins |
| NutrientNeeds.ResolvedSign | ai_service/calc_nutrients.py:82-89 | the resolved Lipid and Glucid values are positive, and Fiber is non-negative |
| NutrientNeeds.FatCarbNeedsPositive | ai_service/calc_nutrients.py:82-98 | the fat and carbohydrate needs are positive |
| NutrientNeeds.MufaFiberNeedsNonNegative | ai_service/calc_nutrients.py:85-89 | the MUFA+PUFA and fibre needs are non-negative |
| NutrientNeeds.MicroNeedsNonNegative | ai_service/calc_nutrients.py:91-108 | the mineral needs are positive and the vitamin needs are non-negative |
| Recommender.SafeFloat | ai_service/calc_nutrients.py:163-167 | blank values give the default; numbers pass through; text gives its float, or the default when float() rejects it; a list or dictionary raises (TypeError is not caught), and nothing else does |
| Recommender.SafeInt | ai_service/calc_nutrients.py:169-173 | raises exactly for a list or dictionary |
| Recommender.SafeIntTruncatesSafeFloat | ai_service/calc_nutrients.py:169-173 | safe_int is safe_float truncated toward zero, with the same defaults and the same uncaught TypeError |
| Recommender.Columns | ai_service/calc_nutrients.py:116 | a column is in the frame exactly when some row has that key |
| Recommender.DedupeFrom | ai_service/calc_nutrients.py:123 | every kept row comes from the input, and its name was not already seen |
| Recommender.DedupeFromUnique | ai_service/calc_nutrients.py:123 | no two kept rows share a name |
| Recommender.DedupeFromKeepsFirst | ai_service/calc_nutrients.py:123 | the first row with each name (not already seen) is kept |
| Recommender.DedupeFromKeepsNames | ai_service/calc_nutrients.py:123 | every name of the input survives de-duplication |
| Recommender.DedupeFromStripped | ai_service/calc_nutrients.py:121-123 | de-duplication keeps the names stripped |
| Recommender.StripNameStripped | ai_service/calc_nutrients.py:121 | a stripped name is present and neither starts nor ends with whitespace |
| Recommender.CleanNamesStripped | ai_service/calc_nutrients.py:119-123 | with a name column, every cleaned row has a name, which neither starts nor ends with whitespace |
| Recommender.CleanNamesUnique | ai_service/calc_nutrients.py:119-123 | with a name column, no two cleaned rows share a name |
| Recommender.CleanKeepsFirst | ai_service/calc_nutrients.py:119-129 | with a name column, the first row carrying each stripped name is kept, with its numbers coerced |
| Recommender.CleanWithoutNames | ai_service/calc_nutrients.py:119-129 | without a name column no row is dropped; each row is only coerced |
| Recommender.CoerceSpec | ai_service/calc_nutrients.py:129 | missing and non-numeric cells become 0; numbers are kept |
| Recommender.CoerceColumnSpec | ai_service/calc_nutrients.py:129 | after coercing a column, that column holds only numbers, every row reads as the same dish, and the other cells are unchanged |
| Recommender.AsDish | ai_service/calc_nutrients.py:126-129 | a fully coerced row reads as the same dish as the coerced original |
| Recommender.CoerceColumns | ai_service/calc_nutrients.py:126-129 | the column loop coerces each present numeric column, and the resulting frame is the input read as dishes |
| Recommender.CleanFrame | ai_service/calc_nutrients.py:115-129 | the clean-up leaves exactly the cleaned catalogue: stripped, de-duplicated when there is a name column, and coerced |
| Recommender.NutritionRecommender.constructor | ai_service/calc_nutrients.py:115-129 | the object holds the cleaned catalogue, the modelled columns of the original list, and whether it has any other column |
| Recommender.Term | ai_service/calc_nutrients.py:135-139 | a term is non-negative for a non-negative weight; with a positive weight it is 0 exactly when the value equals the target, where a target <= 0 counts as 1 |
| Recommender.MatchScoreSum | ai_service/calc_nutrients.py:131-140 | the score is the sum over Energy, Protein, Fat and Carbohydrate of weight·abs(val − t)/t, with t <= 0 replaced by 1 |
| Recommender.MatchScoreNonNegative | ai_service/calc_nutrients.py:131-140 | the score is non-negative whenever the weights are |
| Recommender.MatchScoreZero | ai_service/calc_nutrients.py:131-140 | with positive weights and a positive target, the score is 0 exactly when all four macros equal the target |
| Recommender.CalculateMatchScore | ai_service/calc_nutrients.py:131-140 | the `score +=` loop computes the match score |
| Recommender.ScoreRows | ai_service/calc_nutrients.py:147-150 | each row is paired with its score |
| Recommender.CandidatesSpec | ai_service/calc_nutrients.py:152-157 | a scored row is a candidate exactly when its dish is in the catalogue, it carries its match score and it lies inside the energy window |
| Recommender.Insert | ai_service/calc_nutrients.py:159 | inserting into a sorted list keeps it sorted and adds exactly the one element |
| Recommender.SortByScore | ai_service/calc_nutrients.py:159 | `sort_values('match_score')`: sorted by score and a permutation of its input |
| Recommender.TakeLowest | ai_service/calc_nutrients.py:159 | `head(n)` of a sorted list keeps min(n, length) elements, in order, as a sub-multiset in which every left-out element scores at least as much as every kept one |
| Recommender.TopOfPermutation | ai_service/calc_nutrients.py:159 | being the top n of a list depends only on the list's multiset of elements |
| Recommender.SortTakeIsTop | ai_service/calc_nutrients.py:159 | `sort_values('match_score').head(n)` is the top n of its input |
| Recommender.NutritionRecommender.Recommend | ai_service/calc_nutrients.py:142-160 | an empty catalogue gives []. KeyError is raised exactly when the catalogue is non-empty, the target energy is above 100 and there is no Energy column. Otherwise the result has min(top_n, number of candidates) rows: sorted by score, drawn from the candidates, and the top-N lowest |
| Recommender.Either | ai_service/calc_nutrients.py:202-217 | `a or b` on dictionary lookups: the first value when it is truthy, else the second |
| Recommender.Max0 | ai_service/calc_nutrients.py:235-237 | max(0, x): non-negative, at least x, and either x or 0 |
| Recommender.MealPlanNothingEaten | ai_service/calc_nutrients.py:201-212 | no intake, or an intake energy of 0, gives the standard meal of 35% of the day's energy, protein, lipid and glucid |
| Recommender.RemainingSpec | ai_service/calc_nutrients.py:219-238 | below 200 kcal left gives the sentinel answer, and it occurs only then. Otherwise the energy target is 40% of what is left above 800 kcal and all of it below, and the protein, fat and carbohydrate targets are never negative |
| Recommender.MealTargetAbove100 | ai_service/calc_nutrients.py:204-238 | when the day needs at least 500 kcal, every meal target is above 100 kcal |
| Recommender.ServiceNeedsAtLeast500 | ai_service/calc_nutrients.py:195-196 | the needs passed to the target computation are at least 500 kcal |
| Recommender.DailyNeedsAtLeast500 | ai_service/calc_nutrients.py:178-196 | whatever the profile, a successful needs computation gives at least 500 kcal |
| Recommender.Reason | ai_service/calc_nutrients.py:245-249 | "Lượng calo phù hợp" exactly when abs(diff) < 150; "Món nhẹ bụng" exactly when diff <= −150; "Giàu năng lượng" exactly when diff >= 150 |
| Recommender.ActivityLevel | ai_service/calc_nutrients.py:187-193 | the level is always Low, Medium or High; a list or dictionary raises (unhashable key), and nothing else does |
| Recommender.DailyNeeds | ai_service/calc_nutrients.py:178-196 | raises exactly when the weight, height, age or activity level is a list or dictionary |
| Recommender.ToItems | ai_service/calc_nutrients.py:252-261 | each selected row becomes an item with its reason, calories = Energy, carbs = Carbohydrate, protein = Protein, fat = Fat and fiber = Fiber |
| Recommender.NutritionRecommender.RecommendMeal | ai_service/calc_nutrients.py:242-265 | an empty catalogue or no Energy column gives []; otherwise the items are those made from a top-5 selection of the candidates (five of the lowest scores, or all candidates when fewer, each at most as often as it occurs). Each item is a catalogue row inside the window with its score, its reason and the mapped keys, and the items come in score order |
| Recommender.ItemsRecommended | ai_service/calc_nutrients.py:242-265 | the items made from a top-5 selection are catalogue rows inside the window with their scores, reasons and mapped keys, in score order |
| Recommender.NutritionRecommender.GetRecommendations | ai_service/calc_nutrients.py:175-271 | any exception gives []; less than 200 kcal left gives exactly the one sentinel item, with all macros 0; a meal target gives what RecommendMeal promises for that target |
| FoodDatabase.LookupSpec | frontend/src/data/foodDatabase.js:141-159 | total. With a match, the result is the first entry in table order whose cleaned name equals, contains or is contained in the cleaned query. Without one, it is the placeholder with the raw name, 300/15/40/10 and the tag "AI Detected" |
| FoodDatabase.LookupDependsOnCleanName | frontend/src/data/foodDatabase.js:142-147 | two queries with the same removeAccents value find the same entry when a match exists |
| FoodDatabase.LookupIgnoresCase | frontend/src/data/foodDatabase.js:142-147 | lower-casing the query does not change the entry found |
| FoodDatabase.LookupIgnoresMark | frontend/src/data/foodDatabase.js:142-147 | a combining mark in the query does not change the entry found |
| FoodDatabase.BlankQueryGivesFirstEntry | frontend/src/data/foodDatabase.js:142-148 | an empty or all-whitespace query cleans to "", which every name contains, so the first table entry is returned |
| FoodDatabase.CatalogueWellFormed | frontend/src/data/foodDatabase.js:3-139 | every table entry has a non-empty name and non-negative macros |
| FoodDatabase.LookupWellFormed | frontend/src/data/foodDatabase.js:141-159 | over a table of well-formed entries, the result is always a well-formed record |
| FoodDatabase.GetNutritionForFoodWellFormed | frontend/src/data/foodDatabase.js:141-159 | getNutritionForFood always returns a record with a non-empty name and non-negative macros |
| Helpers.StripMarks | frontend/src/utils/helpers.js:21 | no character in U+0300..U+036F is left |
| Helpers.RemoveAccentsNormalForm | frontend/src/utils/helpers.js:17-25 | the result has no combining mark, no đ/Đ, no ASCII capital and no leading or trailing whitespace |
| Helpers.RemoveAccentsDStroke | frontend/src/utils/helpers.js:22-23 | đ and Đ anywhere in a name clean like d |
| Helpers.RemoveAccentsDropsMark | frontend/src/utils/helpers.js:21 | a combining mark anywhere in a name is ignored |
| Helpers.RemoveAccentsIgnoresCase | frontend/src/utils/helpers.js:23 | a name and its lower-cased form clean to the same text |
| Helpers.CapitalizeFirstLetter | frontend/src/utils/helpers.js:13-15 | the first character is upper-cased and the rest is unchanged; "" stays "" |
| Helpers.CapitalizeOnlyChangesCase | src/utils/helpers.js:13-15 | capitalising changes only the first character's case, is idempotent, and upper-cases a leading lower-case letter |
| Helpers.PlaceholderRoundTrip | frontend/src/utils/helpers.js:9-11 | the URL is the placeholder base followed by width, "x" and height; they read back as the given integers, or 300 and 200 when left out |
| Text.TrimIsCore | frontend/src/utils/helpers.js:24 | trimming removes exactly a whitespace prefix and a whitespace suffix, and leaves no whitespace at either end |
| Text.TrimAllSpace | frontend/src/utils/helpers.js:24 | a string made only of whitespace trims to "" |
| Text.LowerProperties | frontend/src/utils/helpers.js:23 | lower-casing leaves no ASCII capital and is idempotent |
| Text.Contains | frontend/src/data/foodDatabase.js:148 | `includes` is true exactly when the substring occurs at some index |
| Text.ContainsTrivial | frontend/src/data/foodDatabase.js:148 | every string contains "" and itself |
| Text.IntRoundTrip | frontend/src/utils/helpers.js:10 | the decimal text of an integer reads back as that integer |
| MockRecogniser.Confidence | src/services/aiService.js:22 | index 0 gets a confidence in [85, 94]; index i >= 1 gets one in [60 − 10i, 69 − 10i] |
| MockRecogniser.Analyze | src/services/aiService.js:19-28 | min(5, table size) predictions, the i-th being the i-th shuffled entry with its confidence; bestMatch is predictions[0] |
| MockRecogniser.AnalyzeImage | src/services/aiService.js:11-28 | over the frontend's 15-entry table, which stands in for the imported one, there are exactly five predictions, and bestMatch is the first |
| MockRecogniser.AnalyzeRanking | src/services/aiService.js:19-22 | predictions come from distinct table positions; confidences strictly decrease with position, so the first beats every other |
| MockRecogniser.AnalyzeFromTable | src/services/aiService.js:19-23 | every prediction is a table entry, which a copy leaves unchanged, with a confidence between 20 and 94 |
| AiService.AnalyzeImage | frontend/src/services/aiService.js:34-42 | the body exactly when the reply arrived with a truthy success; null otherwise, including when the call threw |
| AiService.EatenTodaySpec | frontend/src/services/aiService.js:69-82 | a meal without a truthy timestamp is judged by "now" and counts as today; otherwise it counts exactly when its date is valid and falls on today's date |
| AiService.TotalLast | frontend/src/services/aiService.js:85-90 | the running total of a list is the total of its prefix plus Number(last[field] &#124;&#124; 0) |
| AiService.TotalFinite | frontend/src/services/aiService.js:85-90 | a total is a number exactly when every amount is (one NaN makes it NaN), and it is non-negative when every amount is |
| AiService.SumMeals | frontend/src/services/aiService.js:59-90 | the forEach `+=` loop leaves each field equal to the sum over today's meals of Number(field &#124;&#124; 0) |
| AiService.GetDailyRecommendations | frontend/src/services/aiService.js:52-126 | with no userId, or no user document, the body sent is all zeros. A user document gives the sums over today's scans. A failed read gives []. The result is data.recommendations only when the reply's success is truthy and the list is present, else [] |
| Profile.IsTodaySpec | frontend/src/pages/Profile.jsx:8-24 | false for a falsy value; otherwise true exactly when the value is a valid date whose day of month, month and full year are today's |
| Profile.FetchTodayStatsOrder | frontend/src/pages/Profile.jsx:75-84 | the panel lists today's foods in reverse order (newest first), with as many entries as today's foods |
| Profile.FetchTodayStatsMembers | frontend/src/pages/Profile.jsx:74-75 | a scan is listed exactly when it is stored and judged today by `food.date &#124;&#124; food.timestamp` |
| Profile.FetchTodayStatsTotals | frontend/src/pages/Profile.jsx:77-78 | calories and protein are the sums of Number(x) &#124;&#124; 0 over the foods shown |
| Profile.FetchTodayStatsNoDoc | frontend/src/pages/Profile.jsx:41-62 | without a user document, or after a failed read, the panel keeps its initial empty state |
| Profile.SumAppend | frontend/src/pages/Profile.jsx:77-78 | the reduce sum over a concatenation is the sum of the two sums |
| Profile.SumReverse | frontend/src/pages/Profile.jsx:77-83 | the sum does not depend on the order of the list |
| Profile.SumNonNegative | frontend/src/pages/Profile.jsx:77-78 | the sum is non-negative when every `Number(x) &#124;&#124; 0` is |
| Profile.AgreesWithAiService | frontend/src/pages/Profile.jsx:75 | for a scan with only a truthy timestamp, the profile page and the recommendation request agree on whether it is today's |
| Profile.UndatedScanDisagrees | frontend/src/pages/Profile.jsx:9 | a scan with neither date nor timestamp is never today's on the profile page, yet the recommendation request counts it |
| Profile.AmountAgrees | frontend/src/pages/Profile.jsx:77-78 | `Number(v &#124;&#124; 0)` and `Number(v) &#124;&#124; 0` agree exactly unless v is truthy and reads as NaN |
| Profile.TotalsAgree | frontend/src/pages/Profile.jsx:77-78 | when every amount agrees, the running `+=` total equals the reduce sum |
| Profile.TodayTotalsAgree | frontend/src/pages/Profile.jsx:74-78 | for scans identified by a truthy timestamp alone, with readable macros, the calories and protein shown equal the ones sent for recommendations |
| FoodService.AllFoods | frontend/src/services/foodService.js:7-29 | a cached list, even an empty one, is returned as it is. A successful load is returned and cached. A failed load gives [] and leaves the cache unset |
| FoodService.LoadedOnce | frontend/src/services/foodService.js:5-23 | after one successful load, every later call returns the same list, whatever the store would answer |
| FoodService.FailedLoadRetries | frontend/src/services/foodService.js:25-28 | after a failed load the next call reads the store again, exactly as a first call would |
| FoodService.FoodCache.constructor | frontend/src/services/foodService.js:5 | the cache starts unset |
| FoodService.FoodCache.GetAllFoods | frontend/src/services/foodService.js:7-29 | the new cache and the returned list are those AllFoods gives for the old cache and the load's outcome |
| FoodService.NormalizeNormalForm | frontend/src/services/foodService.js:36 | a normalised name has no combining mark and no ASCII capital |
| FoodService.NormalizeDiffersFromRemoveAccents | frontend/src/services/foodService.js:36 | normalize keeps surrounding spaces and đ, both of which removeAccents removes |
| FoodService.FindFromFirst | frontend/src/services/foodService.js:40 | the search is decided by the first food without a text name or with a matching name; none gives undefined |
| FoodService.FindFromFound | frontend/src/services/foodService.js:36-40 | a found food has a matching text name and every food before it is skipped |
| FoodService.FindFromNone | frontend/src/services/foodService.js:36-40 | the search gives undefined exactly when every food is skipped |
| FoodService.FindFromRaised | frontend/src/services/foodService.js:36-40 | the search is rejected exactly when a food without a text name is reached after only skipped foods |
| FoodService.FindByNameSpec | frontend/src/services/foodService.js:36-40 | a found food matches: one normalised name contains the other, and every earlier food has a text name that does not match. Undefined means no food matches. A rejection means a food without a text name comes before any match |
| FoodService.FoodCache.FindFoodByName | frontend/src/services/foodService.js:32-41 | the search runs over the list getAllFoods returns, and leaves the cache as getAllFoods does |
| Seqs.Filter | frontend/src/pages/Profile.jsx:75 | `filter` keeps exactly the elements that satisfy the predicate, never more than the input |
| Seqs.FindFirst | frontend/src/data/foodDatabase.js:144-147 | `find`: the index of an element that satisfies the predicate with none before it, and none when no element does |
| Seqs.Reverse | frontend/src/pages/Profile.jsx:83 | `reverse`: same length, element i is the input's element n − 1 − i |
| Seqs.ReverseMultiset | frontend/src/pages/Profile.jsx:83 | reversing keeps the same elements |

## Left out

- Unicode: `normalize("NFD")` is not modelled. Strings are taken as already decomposed, so precomposed accented letters are not analysed. Upper- and lower-casing cover ASCII letters only.
- Floating point: Python floats and JavaScript numbers are exact reals, so rounding is ignored. Infinities are not modelled either. JavaScript NaN is modelled; Python NaN and `int(float('inf'))` are not.
- Parsing: Python's `float()` on text, JavaScript's `Number()` on text and `new Date(string)` are not computed. The parsed value travels with the text, or is a parameter of the clock.
- Dates: time zones, `toDateString`, `getDate`/`getMonth`/`getFullYear` and `toLocaleDateString` are an abstract map from instants to calendar dates. `formatTimestamp` is not modelled, since it only formats a date for display.
- Time of day: two readings of the clock within one call are taken to be the same instant, so a call that crosses midnight is not modelled.
- I/O: the Firestore reads, `fetch`, JSON decoding, base64 encoding, the Flask endpoints, the model inference and `setTimeout` are left out. Their outcomes are parameters (`Load`, `UserRead`, `Reply`).
- Logging and printing are left out, since they compute nothing.
- Concurrency: overlapping async calls to `getAllFoods` are not modelled. Each call is one atomic step on the cache.
- Randomness: the shuffle comparator and the `Math.random()` draws are parameters. The shuffle is any permutation of the table's positions.
- Recommender.RawDish: only the `name` key and the five numeric keys of a catalogue dictionary are modelled with their values. For any other key only its presence is kept, since it makes a column that `df.empty` counts and no rule reads its value.
- Recommender.RawDish: a name that is not text (a number, say) is not modelled. A missing name becomes "nan", as `astype(str)` makes it.
- Recommender.Macros: the target and weight dictionaries always hold all four feature keys, as both callers build them. `target.get(f, 0)` and `weights.get(f, 1.0)` never use their defaults.
- Recommender.NutritionRecommender.Recommend: equal scores are left in an unspecified order, since pandas does not promise a stable sort. The contract fixes the multiset and the order of scores, not the order among ties.
- Recommender.NutritionRecommender.Recommend: only the KeyError from a missing Energy column is modelled. Other pandas failures are not.
- Recommender.NutritionRecommender.GetRecommendations: an `eaten_today` that is truthy but not a dictionary (it would raise AttributeError, which gives []) is not modelled. The eaten values are a map, or none.
- Recommender.NutritionRecommender.GetRecommendations: the item keys `name`, `image` and the rest pass through from the catalogue row unchanged. Only the mapped keys are stated.
- Recommender.NutritionRecommender.GetRecommendations: `recommendations.empty` on an empty `recommend` result (a list, which has no `empty`) raises and is caught. The model gives [] directly, which is the same answer.
- AiService.GetDailyRecommendations: only the "eaten today" computation and the result selection are modelled. `todayStr` names no cache, and there is no per-day cache or goal filter in this code.
- FoodService.DocData: a document `id` field that is not text is not modelled.
- MockRecogniser: the network delay is not modelled, and neither is the spread of the other catalogue fields beyond the record itself.
- MockRecogniser.AnalyzeImage: `src/data/foodDatabase.js`, the table this recogniser imports, is not part of this model. The frontend table `frontend/src/data/foodDatabase.js` (`Catalogue`) stands in for it, so "exactly five predictions" holds for that table only. `MockRecogniser.Analyze` states the result for any table: min(5, table size) predictions.
- FoodDatabase: `ai_service/food_data.py` is not part of this model. The client's own table is transcribed as `Catalogue`.
- Helpers.GeneratePlaceholderImage: a number argument is modelled only as a safe integer (magnitude at most 2^53 - 1). Fractions, larger integers and numbers of magnitude 10^21 or more, which JavaScript prints in exponent form such as "1e+21", are not modelled. So the round trip in `Helpers.PlaceholderRoundTrip` covers safe integers only.
- Text.IntToString: prints any integer in plain decimal. This matches JavaScript's `String(n)` only for integers below 10^21 in magnitude, and the model uses it only for safe integers.
- Helpers: `src/utils/helpers.js` is textually identical to the first three helpers of `frontend/src/utils/helpers.js`, so the one model covers both copies.
