# rec-system: a verified model of the restaurant matcher

rec-system recommends restaurants in Rome, Paris and London. It has two parts:

- A Flask and MongoDB backend. It stores a user's preferences and filters a city's restaurants by them. It scores restaurants by their positive feedback, builds a taste profile from the restaurants the user picks, and chooses four test restaurants by similarity to that profile. It also looks up precomputed restaurant clusters by a canonical combination key and cleans documents for JSON.
- A React frontend. It has a six-slide welcome form, a page for choosing three restaurants, restaurant cards with star ratings and feedback chips, and an image carousel.

This project models that core in Dafny and proves properties of the model.

**Values.** The Python values the backend handles are a `Value` datatype (`python_values.dfy`).
- A dict is a list of entries in insertion order. `Get` finds the first entry under a key, and `Set` keeps an existing key in its place.
- A float is finite or NaN.
- An ObjectId is its string of 24 lower-case hexadecimal digits, as `str` prints it.

**The store.** MongoDB is a map from collection name to a sequence of documents (`store.dfy`).
- It provides `find_one`, `$in`, `insert_one` and an upserting `$set`.
- `insert_one` stores a document with its `_id` first, as the BSON encoding writes it, followed by the other fields in their order.
- Writes happen through a `Database` class whose methods state the new contents.

**Backend modules.** Each follows one source function:
- `PreferenceFilter`: `filter_restaurants_by_preferences`.
- `Feedback`: `get_positive_restaurants` and `sanitize_top_pairs`.
- `TestSelection`: the selection step of `test_recommendations`.
- `Clustering`: `select_top_restaurants`.
- `UserService`: `create_user_profile`.
- `DataSanitizer`: `sanitize_data`.
- `UserRoutes`: `submit_preferences` and `submit_selection`.

Source loops are methods proved against the function that specifies them: the feedback loops, the similarity ranking, the link resolution, the totals and averages loops, and the feature loop.

**Frontend modules.**
- `Welcome` holds the form's state as a `Form` class with one method per event handler.
- `RestaurantSelection` holds the selection page as a `Page` class.
- `ImageSlider` holds the carousel as a `Slider` class.
- `RestaurantCard` holds the card's pure helpers.

A state updater of the source is a function, and each handler's method is proved to apply it. The form's submitted body is connected to the backend model, which shows it is stored as the expected preference document.

**JavaScript semantics.** The model writes out the JavaScript behaviour it relies on:
- truncating `%`;
- `indexOf` returning -1, and `splice` with a negative start;
- `!!` truthiness;
- object spread over existing keys;
- `Array(n)` throwing for a negative `n`.

## Model

| member | source | states |
|---|---|---|
| PyValues.GetFound | backend/api/user_routes.py:77-84 | `d.get(k)` finds a value exactly when the key is present, and the value is one stored under it |
| PyValues.Set | backend/recommendations.py:284 | after `d[k] = v`, `k` reads `v` and every other key reads as before |
| PyValues.SetNew | backend/recommendations.py:284 | assigning a key the dict lacks appends it last |
| PyValues.SetKeys | backend/recommendations.py:284 | assignment keeps the key order and adds the key at the end only when it is new |
| PyValues.TruncToInt | backend/recommendations.py:198 | `int(x)` on a float truncates toward zero, from either side |
| PyValues.PyInt | backend/recommendations.py:198 | `int(v)` keeps an int; it fails on None, containers, ObjectIds and NaN |
| PyValues.PyFloat | backend/recommendations.py:199 | `float(v)` keeps a float and widens an int; it fails on None and containers |
| PyValues.Iterate | backend/recommendations.py:193 | `for item in v` visits a list's or tuple's elements, a str's characters as one-character strs, and a dict's keys; anything else cannot be iterated |
| PyValues.TruthyRules | backend/utils/clustering.py:66 | `if v:` is false exactly for an empty container or str, a number equal to 0, None and False; NaN is true |
| PyValues.HashableKinds | backend/recommendations.py:139-141 | lists and dicts cannot be dict keys, every scalar can, and a tuple can exactly when all its elements can |
| Text.Lower | frontend/src/routes/RestaurantSelection.tsx:111 | lower-casing maps each character in place and keeps the length (ASCII letters only) |
| Text.Capitalize | backend/api/user_routes.py:44 | `capitalize()` keeps the length, upper-cases the first character and lower-cases every later one (ASCII letters only) |
| Text.ReplaceRemoves | backend/recommendations.py:263-265 | replacing a character by text without it leaves no occurrence |
| Text.ReplaceKeepsAbsent | backend/recommendations.py:260-265 | a replacement whose text lacks a character never introduces it |
| Text.Replace | backend/recommendations.py:260-265 | replacing a pattern by itself changes nothing, and a replacement of the same length keeps the length |
| Text.Join | backend/utils/clustering.py:21-33 | `sep.join(xs)` of nothing is empty; it starts with the first part and ends with the last |
| Text.JoinLength | backend/utils/clustering.py:21-33 | the joined text is as long as all parts together plus one separator between each two neighbours |
| Text.StrLeTotal | backend/utils/clustering.py:21 | Python's string order compares any two strings |
| Text.StrLeAntisymmetric | backend/utils/clustering.py:21 | strings that are each at most the other are equal |
| Text.StrLeTransitive | backend/utils/clustering.py:21 | the string order is transitive |
| Text.ReprPrefix | backend/utils/clustering.py:36-41 | the `repr` of a str, with the text after it, can be read back: equal texts have equal strings and equal rests |
| Text.PyRepr | backend/utils/clustering.py:36-41 | `repr` of a str is quoted on both ends with the same quote, a double quote exactly when the text holds a single quote and no double quote |
| Text.NatToDecimal | frontend/src/components/ImageSlider.tsx:49 | the slide number prints as a non-empty run of decimal digits |
| Lists.SlicePrefix | backend/recommendations.py:221 | `s[:n]` is a prefix of `s` of length `min(n, len(s))` for `n >= 0` |
| Lists.Filter | backend/recommendations.py:143-154 | a comprehension with a condition gives an order-preserving subsequence of satisfying elements that holds every satisfying element |
| Lists.FilterMultiset | backend/recommendations.py:143-154 | each satisfying element is kept exactly as often as it occurs, and no other element is kept |
| Lists.FilterNoDup | frontend/src/routes/RestaurantSelection.tsx:91 | filtering a list without duplicates leaves none |
| Lists.FilterEmpty | frontend/src/components/RestaurantCard.tsx:174 | an empty filter result means no element satisfied the condition |
| Lists.FilterAll | frontend/src/routes/RestaurantSelection.tsx:110-112 | a condition true everywhere keeps the whole list |
| Lists.FilterNone | backend/recommendations.py:147 | a condition false everywhere keeps nothing |
| Lists.MapAt | backend/utils/clustering.py:33 | `[f(x) for x in s]` applies `f` at each position |
| Lists.Firsts | backend/recommendations.py:221 | `[x[0] for x in pairs]` keeps each pair's element at its place |
| Lists.FirstsMultiset | backend/recommendations.py:328 | the elements of a permuted pair list are a permutation of the elements |
| Lists.SortDescCorrect | backend/recommendations.py:218 | `sort(key, reverse=True)` yields a descending permutation that keeps the input order among equal keys |
| Lists.TopPrefix | backend/recommendations.py:218-221 | a prefix of the stable descending sort is sorted, comes from the input, has `min(n, len)` pairs, no pair left out has a larger key than a kept one, and equal keys keep input order |
| Lists.SortAscCorrect | backend/utils/clustering.py:33 | `sorted(items)` yields an ascending permutation |
| Lists.SortedUnique | backend/utils/clustering.py:33 | two sorted permutations of each other with distinct keys are equal |
| Lists.SortAscOrderIndependent | backend/utils/clustering.py:21-33 | `sorted` gives the same list whatever the input order, when keys are distinct |
| Store.FindOne | backend/utils/clustering.py:49 | `find_one` returns the document at the first match, and None when nothing matches |
| Store.FindOneFirst | backend/utils/clustering.py:65 | some document matches exactly when one is returned, and it is the first that matches |
| Store.FirstMatch | backend/utils/clustering.py:49 | the index of the first matching document is -1 or a position of the list |
| Store.FirstMatchFirst | backend/utils/clustering.py:65 | the first match matches, and nothing before it does |
| Store.ObjectIdOf | backend/database/repositories/restaurant_repository.py:35 | `ObjectId(v)` keeps an ObjectId, parses a 24-hex-digit str to its lower-case hex, generates a fresh id for None, and refuses anything else |
| Store.IdFailure | backend/database/repositories/restaurant_repository.py:35 | `ObjectId` refuses a str with InvalidId and any other value with TypeError |
| Store.FindByIds | backend/database/repositories/restaurant_repository.py:33-37 | `$in` keeps exactly the documents whose `_id` is one of the ids, as a subsequence of the collection |
| Store.Inserted | backend/database/repositories/user_repository.py:41 | the stored document starts with its `_id` and holds no other `_id`; a caller's `_id` is kept, otherwise the generated one is used; every other key reads as in the document, and a document without `_id` is stored as the new `_id` followed by its fields in order |
| Store.Database.InsertOne | backend/database/repositories/user_repository.py:41 | the collection gains the `Inserted` document at its end, and nothing else changes |
| Store.Database.constructor | backend/database/repositories/user_repository.py:41 | the store starts with the given collections |
| Store.Database.UpsertField | backend/database/repositories/user_repository.py:54 | an upserting `$set` updates the first document with the id, or appends a new one |
| Store.IndexOfId | backend/database/repositories/user_repository.py:54 | finds the first document with the id, and none before it has it |
| Store.Upserted | backend/database/repositories/user_repository.py:54 | only the matched document changes, by that one field; a missing id is inserted; the field then reads `v` |
| Store.UpsertedIndex | backend/database/repositories/user_repository.py:54 | after an upsert the id's document is the one updated, or the one appended last |
| Store.UpsertedFields | backend/database/repositories/user_repository.py:54 | an upsert keeps every other field of the document it updates |
| DataSanitizer.Sanitize | backend/utils/data_sanitizer.py:13-34 | dicts keep their keys and lists their length, element-wise sanitised; ObjectId becomes its string; NaN and "nan"/"none" in any case become None; other values are kept; the result is clean |
| DataSanitizer.SanitizeGet | backend/utils/data_sanitizer.py:23-24 | a sanitised dict answers each lookup with the sanitised value, and lacks the keys it lacked |
| DataSanitizer.SanitizeFixesClean | backend/utils/data_sanitizer.py:13-34 | a clean value is left unchanged |
| DataSanitizer.SanitizeIdempotent | backend/utils/data_sanitizer.py:13-34 | sanitising twice equals sanitising once |
| DataSanitizer.SanitizeDocs | backend/utils/clustering.py:67 | each document of a list is sanitised in place |
| PreferenceFilter.MappedFlagsAreColumns | backend/recommendations.py:85-107 | every flag `FIELD_MAPPING` names is one of `binary_float_columns` |
| PreferenceFilter.MappedFields | backend/recommendations.py:139-140 | the set holds exactly the mapped flags of the items; an unhashable item raises TypeError |
| PreferenceFilter.LabelField | backend/recommendations.py:139-140 | `FIELD_MAPPING.get(x)` of one item gives at most one flag, exactly the one its label maps to, and always a mapped flag |
| PreferenceFilter.FilterRestaurants | backend/recommendations.py:143-154 | the result is an order-preserving subsequence of the city's restaurants; each passing restaurant occurs as often as in the input, and no other occurs |
| PreferenceFilter.NoCuisineNoRestaurant | backend/recommendations.py:147 | with no mapped cuisine, `any` is false and nothing passes |
| PreferenceFilter.CuisineOnly | backend/recommendations.py:147-151 | with no dietary or wifi flag, a restaurant passes exactly when some cuisine flag is 1 |
| PreferenceFilter.MappedSingle | backend/recommendations.py:139 | a one-label list maps to that label's flag, or to nothing if unmapped |
| PreferenceFilter.FlagSetValues | backend/recommendations.py:147-151 | `restaurant.get(field, 0) == 1` holds exactly when the field holds 1, 1.0 or True; a missing field reads 0 |
| PreferenceFilter.PassesMonotone | backend/recommendations.py:145-153 | a restaurant passing stricter criteria passes looser ones, and with no cuisine flag none passes |
| PreferenceFilter.UiLabelsUnmapped | backend/recommendations.py:91-102 | the form's "Fast Food", "Middle Eastern" and "Vegetarian Friendly" map to no flag; "FastFood" does |
| PreferenceFilter.UiLabelsNotKeys | backend/recommendations.py:85-107 | "Fast Food", "Middle Eastern" and "Vegetarian Friendly" are not keys of `FIELD_MAPPING` |
| PreferenceFilter.WifiFieldsAsWritten | backend/recommendations.py:141 | the wifi value used as a dict key succeeds exactly when it is hashable, giving its flag |
| PreferenceFilter.WifiFields | backend/recommendations.py:141 | corrected: a list of labels gives its mapped flags; any other value reads as written |
| PreferenceFilter.WifiReadings | backend/recommendations.py:141 | as written, the stored `['Wifi']` and `[]` raise TypeError; corrected, they give the wifi flag and nothing |
| PreferenceFilter.WifiReadingsAgree | backend/recommendations.py:141 | on every hashable value the corrected reading equals the original |
| PreferenceFilter.ReadCriteriaWith | backend/recommendations.py:134-141 | the criteria are the mapped flags of the stored lists, each defaulting to `[]`; a non-iterable cuisine value raises TypeError |
| PreferenceFilter.UserPreferences | backend/recommendations.py:123-125 | a malformed id raises; a found document is in the preferences collection under that id |
| PreferenceFilter.CityRestaurants | backend/recommendations.py:127-132 | only a city with a collection gives restaurants, namely that collection; a falsy city raises the ValueError |
| PreferenceFilter.FilterKeepsStored | backend/recommendations.py:143-154 | filtering keeps every restaurant's ObjectId `_id` |
| PreferenceFilter.CleanUp | backend/recommendations.py:155-157 | each restaurant keeps its keys, gets its `_id` as a string, holds the sanitised value of every other field, and is clean |
| PreferenceFilter.CleanOne | backend/recommendations.py:156-157 | one restaurant keeps its keys, its `_id` becomes the hex string, every other field reads its sanitised value, and it is clean |
| PreferenceFilter.FilterForUserWith | backend/recommendations.py:123-157 | succeeds exactly when the preferences, the city and the criteria all succeed, and then returns the cleaned filtered restaurants |
| PreferenceFilter.FilterForUserAsWritten | backend/recommendations.py:110-157 | as written, a success needs a hashable wifi value, and a stored wifi list makes the call raise TypeError |
| PreferenceFilter.FilterForUser | backend/recommendations.py:110-157 | with the wifi list read as labels, the result equals the code as written wherever that does not raise |
| Feedback.NormalizeItem | backend/recommendations.py:194-203 | only 3-element lists or tuples are kept, with their phrase; a None count or sentiment reads 0 or 0.0 and any other is converted by `int()`/`float()`; if either conversion fails the item is `[phrase, 0, 0.0]` |
| Feedback.Normalized | backend/recommendations.py:193-203 | normalising never yields more items than were parsed |
| Feedback.NormalizedAppend | backend/recommendations.py:193-203 | each item is normalised on its own, in order |
| Feedback.NormalizedAllWellFormed | backend/recommendations.py:194 | when every item is a 3-element list or tuple, none is dropped |
| Feedback.NormalizeItems | backend/recommendations.py:193-203 | the loop builds exactly the normalised list |
| Feedback.PositiveCount | backend/recommendations.py:210-212 | the positive count is at most the number of items |
| Feedback.NaNNeverPositive | backend/recommendations.py:211 | an item with a NaN sentiment is never positive, since NaN compares false |
| Feedback.AllPositive | backend/recommendations.py:210-212 | the count equals the number of items exactly when every item is positive |
| Feedback.PositiveCountAppend | backend/recommendations.py:210-212 | the count adds up over concatenation |
| Feedback.LowCountNeverPositive | backend/recommendations.py:211 | an item with a count below 2 never adds to the count, whatever its sentiment |
| Feedback.Scores | backend/recommendations.py:184-215 | the loop is abandoned exactly when some restaurant's text raises an exception other than ValueError or SyntaxError, or parses to something not iterable; otherwise at most one pair per restaurant |
| Feedback.FeedbackOf | backend/recommendations.py:186-207 | no str text reads as no feedback; the restaurant is skipped exactly when the parser raises ValueError or SyntaxError; the loop aborts exactly when it raises anything else or the parsed value cannot be iterated; otherwise the feedback is the normalised list of the parsed items |
| Feedback.Score | backend/recommendations.py:210-212 | a restaurant's positive count is at most its number of feedback items |
| Feedback.ScoresSound | backend/recommendations.py:184-215 | every scored pair is a restaurant whose text parsed, with its positive count |
| Feedback.ScoresComplete | backend/recommendations.py:205-207 | every restaurant whose text parsed is scored; only parse failures are skipped |
| Feedback.ScoresPrefixAbort | backend/recommendations.py:225-228 | once an earlier restaurant aborts the loop, the whole call aborts |
| Feedback.PositiveRanking | backend/recommendations.py:172-228 | an unknown city gives `[]`; at most `limit` restaurants, each from the city with parsed text, in non-increasing count |
| Feedback.PositiveRankingLength | backend/recommendations.py:218-221 | the result has `min(limit, scored)` restaurants |
| Feedback.PositiveRankingTop | backend/recommendations.py:218-221 | the ranking is the first `min(limit, scored)` of the stable descending sort by count: none left out counts more than one kept, and equal counts keep collection order |
| Feedback.RankedTop | backend/recommendations.py:218-221 | a cut of the sorted scores holds at most `limit` stored, parsed restaurants in non-increasing count |
| Feedback.RankedSound | backend/recommendations.py:218 | the sorted scores pair stored, parsed restaurants with their own counts, largest first |
| Feedback.UncaughtParseEmpties | backend/recommendations.py:205-228 | an exception other than ValueError or SyntaxError on any restaurant of the city makes the whole result `[]` |
| Feedback.GetPositiveRestaurants | backend/recommendations.py:172-228 | the loops and the in-place sort compute the ranking |
| Feedback.ReplaceChain | backend/recommendations.py:260-265 | after the replacements no `'`, `(` or `)` remains |
| Feedback.TripleValues | backend/recommendations.py:278 | each triple is stored back as its list, in order |
| Feedback.SanitizedField | backend/recommendations.py:260-287 | an exception of `eval` other than SyntaxError, ValueError or TypeError escapes; a caught one or a non-iterable result gives `[]`; otherwise exactly the normalised triples of the evaluated items, as lists |
| Feedback.SanitizedTopPairs | backend/recommendations.py:255-288 | a str field is replaced by its sanitised list; a missing or non-str field and every other key are untouched |
| Feedback.SanitizeTopPairs | backend/recommendations.py:255-288 | the in-place update computes the sanitised restaurant |
| TestSelection.Vector | backend/recommendations.py:321-323 | the vector has one entry per column of `binary_float_columns`, with a missing field read as 0 |
| TestSelection.Ids | backend/recommendations.py:317 | the id set holds exactly the ObjectIds of the documents |
| TestSelection.Similarities | backend/recommendations.py:320-325 | each remaining restaurant paired with its similarity to the user vector, in order |
| TestSelection.RankBySimilarity | backend/recommendations.py:318-327 | the ranking is a descending permutation of the remaining restaurants, each paired with its similarity; equal similarities keep the order of the remaining list |
| TestSelection.Choose | backend/recommendations.py:344 | `choice(pool) if pool else None` gives a member of the pool, and None exactly when it is empty |
| TestSelection.AppendNew | backend/recommendations.py:354-355 | a pick is appended only when it is new; the old list stays a prefix; no duplicate is added |
| TestSelection.Combine | backend/recommendations.py:353-357 | the top two come first, then at most the two picks, each only if new, and nothing is duplicated |
| TestSelection.PickFromCity | backend/recommendations.py:339-350 | both picks come from the city outside the excluded ids; the second is rated 5; each is None exactly when its pool is empty |
| TestSelection.SelectTestRestaurants | backend/recommendations.py:311-357 | the stable descending ranking, its top-2 and top-4 prefixes, both pools outside top-2 plus selected, the second pool rated 5, and a combined list of at most 4 that holds both picks and has no duplicates when the filtered list has none |
| TestSelection.TopDistinct | backend/recommendations.py:328 | the top two of a ranking of distinct restaurants are distinct |
| TestSelection.StoredNonEmpty | backend/recommendations.py:354 | a stored restaurant is a non-empty, hence truthy, dict |
| Clustering.AsList | backend/utils/clustering.py:15-18 | a string argument becomes a one-element list, or `[]` when blank; a list is kept |
| Clustering.TypesItems | backend/utils/clustering.py:21 | `sorted` over a string of types iterates over its characters, one single-character string each, in order; a list is iterated as it is |
| Clustering.Sorted | backend/utils/clustering.py:21-30 | `sorted` gives an ascending permutation |
| Clustering.SortedOrderIndependent | backend/utils/clustering.py:21-30 | sorting strings does not depend on their order |
| Clustering.ProcessFeatures | backend/utils/clustering.py:24-29 | "Wifi" becomes "Free Wifi" and every other feature passes through, in order |
| Clustering.AliasFeature | backend/utils/clustering.py:25-29 | a feature named "Wifi" becomes "Free Wifi", so "Wifi" never remains, and every other feature is kept |
| Clustering.Sentinels | backend/utils/clustering.py:21-30 | no diets and no features each read "None"; no types read "" |
| Clustering.BlankIsNone | backend/utils/clustering.py:15-22 | a blank diet or feature string counts as none |
| Clustering.KeyOrderIndependent | backend/utils/clustering.py:21-41 | the key does not depend on the order of types, diets, features or rating ranks |
| Clustering.CombinationOrderIndependent | backend/utils/clustering.py:15-33 | the four strings depend only on the multisets of types, diets, features and (distinct-keyed) rank items |
| Clustering.WifiAlias | backend/utils/clustering.py:24-29 | "Wifi" and "Free Wifi" give the same key |
| Clustering.RankingString | backend/utils/clustering.py:33 | the ranking string; RankingInKeyOrder states its order |
| Clustering.RankingInKeyOrder | backend/utils/clustering.py:33 | the ranking lists the "key:value" entries in ascending key order, whatever the dict's insertion order |
| Clustering.ListStringIndependent | backend/utils/clustering.py:22-30 | the diets or features part depends only on the multiset of its items, with "None" for none |
| Clustering.KeyString | backend/utils/clustering.py:36-41 | the `repr` of the key dict; KeyStringInjective states that it can be read back |
| Clustering.Field | backend/utils/clustering.py:36-41 | one `'name': value` part of the key starts with its tag and ends with the text after it |
| Clustering.FieldUnique | backend/utils/clustering.py:36-41 | two parts with the same tag and the same text have the same value and the same text after it |
| Clustering.KeyStringInjective | backend/utils/clustering.py:36-41 | two combinations with the same key string are the same combination |
| Clustering.CombinationKey | backend/utils/clustering.py:15-41 | the canonical key; KeyOrderIndependent, Sentinels, WifiAlias and CombinationKeyInjective state its properties |
| Clustering.CombinationKeyInjective | backend/utils/clustering.py:15-41 | two argument sets share a key exactly when they give the same four strings |
| Clustering.CombinationDoc | backend/utils/clustering.py:45-49 | a document is found exactly when the city's combinations collection holds one with the key, and it is such a document |
| Clustering.ResolveOne | backend/utils/clustering.py:63-67 | a link resolves to `[]` exactly when no restaurant has it or the first one that does is empty; otherwise to that first restaurant, sanitised |
| Clustering.Resolved | backend/utils/clustering.py:59-67 | never more restaurants than links; each link contributes what ResolveOne gives, in link order (ResolvedSnoc) |
| Clustering.ResolvedClean | backend/utils/clustering.py:67 | every resolved restaurant is sanitised |
| Clustering.ResolvedSnoc | backend/utils/clustering.py:59-67 | one more link appends exactly what it resolves to |
| Clustering.ResolvedAppend | backend/utils/clustering.py:59-67 | resolution keeps link order across concatenation |
| Clustering.MissSkipped | backend/utils/clustering.py:66 | a link without a restaurant adds nothing |
| Clustering.HitAppended | backend/utils/clustering.py:65-67 | a link whose first restaurant is non-empty appends that restaurant, sanitised |
| Clustering.ResolveLinks | backend/utils/clustering.py:59-67 | the loop computes the resolved restaurants |
| Clustering.ParsedLinks | backend/utils/clustering.py:54-60 | a str field parses to its links, or raises what the parser raises, or TypeError when the result cannot be iterated; a non-str field raises ValueError |
| Clustering.StoredLinks | backend/utils/clustering.py:45-58 | no document, a falsy one or one without `restaurant_links` gives `[]`; otherwise the field's parsed links, or the exception parsing or iterating raises |
| Clustering.TopRestaurants | backend/utils/clustering.py:45-69 | it fails exactly when reading the links fails, with that exception; otherwise it returns the resolved links in the city's restaurant collection |
| Clustering.TopRestaurantsClean | backend/utils/clustering.py:67 | every returned restaurant is sanitised |
| Clustering.SelectTopRestaurants | backend/utils/clustering.py:10-69 | the method returns the restaurants stored under the canonical key |
| UserService.RatingFieldsDistinct | backend/services/user_service.py:35-38 | the four rating fields are distinct |
| UserService.BinaryFields | backend/services/user_service.py:39-41 | exactly the "is_" keys of the first restaurant found, in its order; none if nothing was found |
| UserService.FieldsDistinct | backend/services/user_service.py:41-43 | the averaged fields are distinct |
| UserService.PyAdd | backend/services/user_service.py:48 | `+` on numbers adds their values, NaN spreads, and non-numbers raise |
| UserService.Step | backend/services/user_service.py:48-50 | a missing field adds 0 to the total |
| UserService.AddFieldsNext | backend/services/user_service.py:47-50 | the fields loop advances one field at a time |
| UserService.AddFieldsStopsAtError | backend/services/user_service.py:47-50 | once a field raises, the rest of the loop does not run |
| UserService.ZeroTotals | backend/services/user_service.py:43 | every averaged field starts at 0, and no other key exists |
| UserService.Totals | backend/services/user_service.py:43-50 | the totals after adding the found restaurants in order; TotalsAreSums and TotalsStopAtError state their values |
| UserService.TotalsStopAtError | backend/services/user_service.py:46-50 | once a restaurant raises, later ones are not added |
| UserService.AddFieldsEffect | backend/services/user_service.py:47-50 | the loop touches only its fields, each exactly once |
| UserService.DistinctParts | backend/services/user_service.py:43 | rating and binary fields do not overlap, and the binary fields are distinct |
| UserService.TotalsAreSums | backend/services/user_service.py:43-50 | each total is the sum of its field over the found restaurants |
| UserService.Mean | backend/services/user_service.py:55 | an average is `round(total / n, 3)`, with NaN kept |
| UserService.Averages | backend/services/user_service.py:52-60 | the averages dict; AveragesGet states its keys and values |
| UserService.AveragesGet | backend/services/user_service.py:52-60 | the averages have exactly the averaged fields; with nothing found each is 0.0, otherwise the mean |
| UserService.FoundRestaurants | backend/database/repositories/restaurant_repository.py:33-37 | an unknown city raises AttributeError; otherwise it succeeds exactly when `ObjectId` accepts every id, and otherwise raises the first refused id's exception |
| UserService.QueryIds | backend/database/repositories/restaurant_repository.py:35 | the queried ids are exactly the parsed ids; a None id asks for nothing; any refused id makes the query fail |
| UserService.QueryIdsFirstBad | backend/database/repositories/restaurant_repository.py:35 | the query raises the exception of the first id `ObjectId` refuses |
| UserService.NullSelectionFindsNothing | backend/database/repositories/restaurant_repository.py:33-37 | a selection of None ids finds no restaurant, so the profile is built from none |
| UserService.FoundRestaurantsMembers | backend/services/user_service.py:33 | the found restaurants are exactly those of the city whose id was selected |
| UserService.IdTexts | backend/services/user_service.py:65 | the `_id` of each found restaurant as a string, in order |
| UserService.ProfileDoc | backend/services/user_service.py:62-67 | the profile holds the user id, the city, the found ids and the averages |
| UserService.Profile | backend/services/user_service.py:19-70 | a profile is made only when the lookup by ids succeeded |
| UserService.ProfileAverages | backend/services/user_service.py:33-65 | the profile lists the ids actually found; the averages have exactly the averaged fields; 0.0 with none found, otherwise each field's mean |
| UserService.NoneFoundTotals | backend/services/user_service.py:58-60 | with nothing found the totals stay zero |
| UserService.ProfileService.constructor | backend/services/user_service.py:15-17 | the service uses the given store |
| UserService.ProfileService.CreateUserProfile | backend/services/user_service.py:19-70 | returns the profile and upserts it under the user's "profile"; on an error the store is unchanged |
| UserService.SumFields | backend/services/user_service.py:46-50 | the nested loops compute the totals |
| UserService.AddEach | backend/services/user_service.py:47-50 | one inner loop computes the totals after its fields |
| UserService.AverageFields | backend/services/user_service.py:52-60 | the two branches compute the averages |
| UserRoutes.DietaryList | backend/api/user_routes.py:79 | `[dietary]` exactly when it is truthy and not "None"; otherwise `[]` |
| UserRoutes.WifiList | backend/api/user_routes.py:84 | `['Wifi']` exactly when `wifiRequired` is True; otherwise `[]` |
| UserRoutes.Positions | backend/api/user_routes.py:82 | the priorities dict; PositionsDistinct, PositionsKeys and PositionsLast state its contents |
| UserRoutes.PositionsLast | backend/api/user_routes.py:82 | each priority maps to its 1-based position, the last one when it repeats |
| UserRoutes.PositionsDistinct | backend/api/user_routes.py:82 | distinct priorities are numbered 1 to n in their order |
| UserRoutes.PositionsKeys | backend/api/user_routes.py:82 | the priority keys are exactly the items |
| UserRoutes.DiningPriority | backend/api/user_routes.py:82 | succeeds exactly when every priority is a string |
| UserRoutes.PreferenceDocument | backend/api/user_routes.py:76-85 | a non-iterable priorities value raises; otherwise it succeeds when all priorities are strings, giving the `user_data` dict |
| UserRoutes.UserData | backend/api/user_routes.py:76-85 | the `user_data` dict has the eight keys in their source order |
| UserRoutes.UserDataKeysDistinct | backend/api/user_routes.py:76-85 | the eight keys of `user_data` are distinct |
| UserRoutes.UserDataGet | backend/api/user_routes.py:76-85 | each key of `user_data` finds its own entry |
| UserRoutes.UserDataFields | backend/api/user_routes.py:77-84 | each field is the body's value or its default, with the dietary, priority and wifi rules |
| UserRoutes.UserDataDefaults | backend/api/user_routes.py:77-83 | an empty body gives empty strings, empty lists and no priorities |
| UserRoutes.PreferencesToStore | backend/api/user_routes.py:72-85 | a missing or falsy body gives 400 "Invalid or missing JSON data"; an accepted one is an object whose document is stored |
| UserRoutes.StoredPreferences | backend/api/user_routes.py:76-86 | `user_data` has no `_id`, so the stored preferences are the generated `_id` first, then the eight fields in source order |
| UserRoutes.StoredWifi | backend/api/user_routes.py:84 | the stored wifi value is the `['Wifi']`/`[]` list |
| UserRoutes.StoredWifiBreaksFilter | backend/recommendations.py:136-141 | every stored preference document makes the filter as written raise |
| UserRoutes.StoredWifiCorrected | backend/recommendations.py:136-141 | read as a list, the stored wifi asks for the wifi flag exactly when wifi was required |
| UserRoutes.NormalizedCity | backend/api/user_routes.py:41-44 | a str city is capitalised; a missing or falsy city (or a list whose first element is falsy) is None; an empty list raises IndexError; a truthy non-str city raises AttributeError |
| UserRoutes.CityListFirst | backend/api/user_routes.py:42-43 | a list city counts by its first element |
| UserRoutes.CheckSelection | backend/api/user_routes.py:30-52 | a missing user id or empty selection gives 400 "Missing user ID or selected restaurants"; a malformed str id gives 400 "Invalid user ID format" and any other refused id 400 "Preferences retrieval error"; an unknown id gives 404; with the preferences found, a city that fails to normalise gives 400 "Preferences retrieval error", no city gives 400 "City not found in user preferences", and otherwise the result is the parsed id, the selection and `NormalizedCity` of the preferences |
| UserRoutes.MissingInputIgnoresStore | backend/api/user_routes.py:34-35 | the missing-input check answers before any lookup |
| UserRoutes.MissingInputOnlyWhenMissing | backend/api/user_routes.py:34-35 | the 400 missing-input reply never comes when both the user id and the selection are truthy |
| UserRoutes.WithSelection | backend/database/repositories/user_repository.py:82-103 | after the selection write the user document exists and holds the selection and the city; no other collection changes |
| UserRoutes.SelectionProfile | backend/api/user_routes.py:56-58 | a profile exactly when the selection can be iterated and `create_user_profile` succeeds on the store after the selection write |
| UserRoutes.AfterSelection | backend/api/user_routes.py:54-58 | the selection and city are written whatever follows; the profile is stored under the user only when it was built |
| UserRoutes.Routes.constructor | backend/api/user_routes.py:9 | the routes share one store |
| UserRoutes.Routes.SubmitPreferences | backend/api/user_routes.py:64-87 | an error reply leaves the store unchanged; on success the preferences collection gains `[_id] + user_data` at its end, the generated `_id` first, and the reply carries that id |
| UserRoutes.Routes.SubmitSelection | backend/api/user_routes.py:22-62 | a failed check replies with its error and writes nothing; a passing one writes the selection and city, then either writes the profile and replies 200 with it sanitised, or replies 500 with the selection already written |
| Welcome.NextIndex | frontend/src/routes/Welcome.tsx:63 | next moves one slide on and stops at the last (5) |
| Welcome.PrevIndex | frontend/src/routes/Welcome.tsx:64 | back moves one slide back and stops at the first (0) |
| Welcome.NextPrevInverse | frontend/src/routes/Welcome.tsx:63-64 | back undoes next except at the last slide, and next undoes back except at the first |
| Welcome.NextTimesClamps | frontend/src/routes/Welcome.tsx:63 | k presses of next reach `min(i + k, 5)` |
| Welcome.CuisineToggled | frontend/src/routes/Welcome.tsx:306-311 | a chosen cuisine is removed; a new one is appended only below 5; others are untouched; at most 5, all distinct |
| Welcome.FilterDropsLast | frontend/src/routes/Welcome.tsx:308 | removing the last-appended cuisine restores the list before it |
| Welcome.CuisineToggleTwice | frontend/src/routes/Welcome.tsx:306-311 | toggling a new cuisine twice below the cap changes nothing |
| Welcome.DietToggled | frontend/src/routes/Welcome.tsx:248-261 | clicking the chosen option resets it to "", and clicking another selects it |
| Welcome.WifiToggled | frontend/src/routes/Welcome.tsx:430-441 | clicking the current wifi value resets to null, and clicking the other sets it |
| Welcome.DietaryNextEnabled | frontend/src/routes/Welcome.tsx:282 | Next is enabled exactly when a dietary option is chosen |
| Welcome.CuisineGate | frontend/src/routes/Welcome.tsx:306-340 | after a toggle, Next is disabled exactly when the toggle removed the only cuisine |
| Welcome.IndexOf | frontend/src/routes/Welcome.tsx:372 | `indexOf` gives the first position of the item, or -1 when absent |
| Welcome.SpliceStart | frontend/src/routes/Welcome.tsx:375 | a negative start counts from the end, clamped to the range |
| Welcome.SpliceRemove | frontend/src/routes/Welcome.tsx:375 | `splice(i, 1)` removes position i, and `splice(-1, 1)` removes the last element |
| Welcome.SpliceInsert | frontend/src/routes/Welcome.tsx:376 | `splice(to, 0, x)` puts x at `to`, keeping the others in order |
| Welcome.Dropped | frontend/src/routes/Welcome.tsx:369-378 | the length is kept; an empty drag or a drop onto itself is a no-op; otherwise the dragged item lands at the target |
| Welcome.SpliceMoves | frontend/src/routes/Welcome.tsx:374-376 | moving an item is a permutation that keeps the other items in order |
| Welcome.RemoveDragged | frontend/src/routes/Welcome.tsx:374-375 | taking the dragged item out of a list without repeats leaves one fewer item, no repeats, and not the dragged value |
| Welcome.DropMoves | frontend/src/routes/Welcome.tsx:369-378 | dropping a listed priority is a permutation, and the others keep their order |
| Welcome.DropKeepsDistinct | frontend/src/routes/Welcome.tsx:369-378 | a drop never makes the priorities repeat |
| Welcome.DropForeign | frontend/src/routes/Welcome.tsx:372-376 | dropping an unlisted value removes the last priority, because `indexOf` is -1 |
| Welcome.Strs | frontend/src/routes/Welcome.tsx:80 | a string list is posted as a JSON list of the same strings |
| Welcome.PayloadKeysDistinct | frontend/src/routes/Welcome.tsx:69-76 | the six keys of the body are distinct |
| Welcome.PayloadGetAt | frontend/src/routes/Welcome.tsx:69-76 | each key of the body finds its own entry |
| Welcome.Payload | frontend/src/routes/Welcome.tsx:67-81 | the posted body has six fields, each reading back the form state it was built from |
| Welcome.PayloadGet | frontend/src/routes/Welcome.tsx:69-76 | the backend's `.get` reads back each form field |
| Welcome.StrPrioritiesDocument | backend/api/user_routes.py:76-85 | string priorities always make a preference document |
| Welcome.StrPrioritiesOk | backend/api/user_routes.py:82 | string priorities never make the document fail |
| Welcome.StrPrioritiesValue | backend/api/user_routes.py:76-85 | with string priorities the document is `user_data` with the priorities numbered |
| Welcome.ObjectBodyStored | backend/api/user_routes.py:72-74 | a non-empty object body passes the 400 check |
| Welcome.PayloadStored | frontend/src/routes/Welcome.tsx:67-81 | the form's body is always stored as its `user_data` |
| Welcome.PayloadAccepted | frontend/src/routes/Welcome.tsx:67-81 | the stored document has the city and cuisines; the dietary list holds "Vegetarian Friendly" exactly when chosen; wifi is `['Wifi']` exactly when required; priorities are numbered 1..n |
| Welcome.PayloadFields | backend/api/user_routes.py:77-84 | the document made from the form body holds its city, cuisines, dietary list, wifi list and priorities |
| Welcome.PayloadPriorities | backend/api/user_routes.py:82 | distinct priorities from the form are numbered 1 to n in order |
| Welcome.Form.constructor | frontend/src/routes/Welcome.tsx:42-58 | the form starts on slide 0 in Rome, with no choices and the default priority order |
| Welcome.Form.NextSlide | frontend/src/routes/Welcome.tsx:63 | the slide advances by the clamped step, and nothing else changes |
| Welcome.Form.PrevSlide | frontend/src/routes/Welcome.tsx:64 | the slide goes back by the clamped step, and nothing else changes |
| Welcome.Form.SetCity | frontend/src/routes/Welcome.tsx:202-207 | the city becomes the option chosen, and nothing else changes |
| Welcome.Form.SetNickname | frontend/src/routes/Welcome.tsx:220 | the nickname becomes the text typed, and nothing else changes |
| Welcome.Form.ToggleCuisine | frontend/src/routes/Welcome.tsx:306-311 | the cuisines become the toggled list, and the form stays valid |
| Welcome.Form.ToggleDietary | frontend/src/routes/Welcome.tsx:248-261 | the dietary choice becomes the toggled value, and nothing else changes |
| Welcome.Form.ToggleWifi | frontend/src/routes/Welcome.tsx:430-441 | the wifi choice becomes the toggled value, and nothing else changes |
| Welcome.Form.DropPriority | frontend/src/routes/Welcome.tsx:369-378 | the priorities become the dropped order and stay four distinct items |
| Welcome.Form.SubmittedBody | frontend/src/routes/Welcome.tsx:67-81 | the posted body is the six-field payload of the current city, nickname, dietary choice, cuisines, priorities and wifi choice, and a valid form's body is stored with that city and those cuisines |
| Welcome.FormBodyAccepted | frontend/src/routes/Welcome.tsx:67-81 | whatever the user did, the body is stored, for a city that has a restaurant collection |
| RestaurantSelection.Coerced | frontend/src/routes/RestaurantSelection.tsx:58-80 | every listed flag becomes `!!` of its value; other fields are unchanged; no key is lost |
| RestaurantSelection.JsTruthyRules | frontend/src/routes/RestaurantSelection.tsx:60-79 | `!!v` is false for `undefined` and NaN, true for every array or object even when empty, and agrees with Python truthiness on the other values |
| RestaurantSelection.SetSame | frontend/src/routes/RestaurantSelection.tsx:59 | spreading a key over its own value changes nothing |
| RestaurantSelection.CoercedBooleans | frontend/src/routes/RestaurantSelection.tsx:60-79 | flags that are already booleans pass through the coercion unchanged |
| RestaurantSelection.CoerceIdempotent | frontend/src/routes/RestaurantSelection.tsx:58-80 | coercing twice equals coercing once |
| RestaurantSelection.Processed | frontend/src/routes/RestaurantSelection.tsx:58 | each fetched restaurant is coerced, in order |
| RestaurantSelection.CoercionKeepsName | frontend/src/routes/RestaurantSelection.tsx:58-80 | coercion leaves the restaurant's name untouched, so the name search still applies |
| RestaurantSelection.NameNotFlag | frontend/src/routes/RestaurantSelection.tsx:60-79 | the name is not one of the coerced flags |
| RestaurantSelection.FilteredByName | frontend/src/routes/RestaurantSelection.tsx:110-112 | an order-preserving subsequence of the names containing the term, ignoring case; an empty term keeps all |
| RestaurantSelection.FilterDistinctIds | frontend/src/routes/RestaurantSelection.tsx:91 | removal keeps the ids distinct |
| RestaurantSelection.SelectToggled | frontend/src/routes/RestaurantSelection.tsx:88-95 | a selected id is removed; a new one is appended only below 3; at most 3 with distinct ids |
| RestaurantSelection.FilterDropsLastId | frontend/src/routes/RestaurantSelection.tsx:91 | removing the last-appended id restores the selection before it |
| RestaurantSelection.SelectToggleTwice | frontend/src/routes/RestaurantSelection.tsx:88-95 | selecting a new restaurant twice below the cap changes nothing |
| RestaurantSelection.SubmitGateIsCap | frontend/src/routes/RestaurantSelection.tsx:152 | Submit is enabled exactly when selecting another restaurant would be refused |
| RestaurantSelection.IdList | frontend/src/routes/RestaurantSelection.tsx:102 | one posted id per selected restaurant, in order |
| RestaurantSelection.SubmitBodyRefused | frontend/src/routes/RestaurantSelection.tsx:97-103 | at the selection route, the posted `{ids}` body always gets the 400 "Missing user ID or selected restaurants" reply |
| RestaurantSelection.SubmitBodyAccepted | backend/api/user_routes.py:30-35 | a body with `user_id` and `selected_restaurants` passes the input check, and carries the selected ids |
| RestaurantSelection.Page.constructor | frontend/src/routes/RestaurantSelection.tsx:38-40 | the page starts with no restaurants, no selection and an empty term |
| RestaurantSelection.Page.Loaded | frontend/src/routes/RestaurantSelection.tsx:57-82 | the restaurants become the coerced data, and the selection is kept |
| RestaurantSelection.Page.SetSearchTerm | frontend/src/routes/RestaurantSelection.tsx:40 | only the term changes |
| RestaurantSelection.Page.ToggleSelect | frontend/src/routes/RestaurantSelection.tsx:88-95 | the selection becomes the toggled list, and the page stays valid |
| RestaurantSelection.Page.Shown | frontend/src/routes/RestaurantSelection.tsx:110-112 | the shown restaurants are an order-preserving subsequence of those whose name contains the term, ignoring case; all of them while the term is empty |
| RestaurantSelection.Page.Posted | frontend/src/routes/RestaurantSelection.tsx:97-103 | the body the page posts holds the ids under "ids", and the selection route refuses it with 400 whatever the store holds |
| RestaurantSelection.Page.CorrectedBody | backend/api/user_routes.py:30-35 | corrected: a body with `user_id` and `selected_restaurants` carries the selection, and passes the input check once a user id is known and three are selected |
| ImageSlider.JsRem | frontend/src/components/ImageSlider.tsx:33-39 | JavaScript's `%` gives the Euclidean remainder for a non-negative dividend, and otherwise a value in (-n, 0] |
| ImageSlider.NextIdx | frontend/src/components/ImageSlider.tsx:39 | next moves one image on and wraps from the last to the first, staying in range |
| ImageSlider.PrevIdx | frontend/src/components/ImageSlider.tsx:33 | back moves one image back and wraps from the first to the last, staying in range |
| ImageSlider.NextPrevInverse | frontend/src/components/ImageSlider.tsx:33-39 | back undoes next and next undoes back |
| ImageSlider.NextTimesWraps | frontend/src/components/ImageSlider.tsx:39 | up to a full round, k presses move k images on with one wrap |
| ImageSlider.FullRound | frontend/src/components/ImageSlider.tsx:39 | n presses return to the starting image |
| ImageSlider.NextTimesAdd | frontend/src/components/ImageSlider.tsx:39 | a presses then b presses equal a + b presses |
| ImageSlider.NextTimesPeriodic | frontend/src/components/ImageSlider.tsx:39 | what the forward arrow shows repeats every n presses |
| ImageSlider.NextTimesInRange | frontend/src/components/ImageSlider.tsx:39 | presses from an index in range stay in range |
| ImageSlider.Rendered | frontend/src/components/ImageSlider.tsx:28-54 | nothing is rendered without images; otherwise exactly the image at the index is opaque |
| ImageSlider.OneImageShown | frontend/src/components/ImageSlider.tsx:45-54 | with the index in range exactly one image shows |
| ImageSlider.AltText | frontend/src/components/ImageSlider.tsx:49 | a non-empty alt text is kept; otherwise the alt is "Slide " followed by the decimal one-based position |
| ImageSlider.Slider.constructor | frontend/src/components/ImageSlider.tsx:25 | the index starts at 0 |
| ImageSlider.Slider.Next | frontend/src/components/ImageSlider.tsx:37-40 | the index becomes the next index, within the images |
| ImageSlider.Slider.Prev | frontend/src/components/ImageSlider.tsx:31-34 | the index becomes the previous index, within the images |
| RestaurantCard.StarRating | frontend/src/components/RestaurantCard.tsx:53-57 | undefined shows "N/A", null shows five empty stars; a number is drawn exactly when 0 <= x < 5.5, with floor(x) full, a half star iff the fraction is >= 0.5, and the counts summing to 5 |
| RestaurantCard.StarsOf | frontend/src/components/RestaurantCard.tsx:55-80 | the star arrays build exactly when 0 <= x < 5.5, with the three counts |
| RestaurantCard.RatingScaleDrawn | frontend/src/components/RestaurantCard.tsx:55-57 | every rating from 0 to 5 is drawn as stars |
| RestaurantCard.JsFrac | frontend/src/components/RestaurantCard.tsx:56 | `x % 1` is the fraction above `floor(x)` for a non-negative number, between -1 and 0 for a negative one, and leaves a whole number |
| RestaurantCard.HalfStarRule | frontend/src/components/RestaurantCard.tsx:56 | a non-negative rating has a half star exactly when it is at least half a star above its floor; a negative one never has |
| RestaurantCard.ToneOf | frontend/src/components/RestaurantCard.tsx:102-113 | above 0.15 is positive, below -0.15 negative, anything else neutral; exactly one applies |
| RestaurantCard.FeedbackClass | frontend/src/components/RestaurantCard.tsx:102-106 | green above 0.15, red below -0.15, blue otherwise |
| RestaurantCard.FeedbackIcon | frontend/src/components/RestaurantCard.tsx:108-113 | as written: one garbled thumb string for both a positive and a negative tone, a garbled face otherwise |
| RestaurantCard.IconsCollide | frontend/src/components/RestaurantCard.tsx:110-111 | as written, a positive and a negative chip get the same icon although their colours differ |
| RestaurantCard.IntendedIcon | frontend/src/components/RestaurantCard.tsx:108-113 | corrected: thumbs up above 0.15, thumbs down below -0.15, a neutral face otherwise |
| RestaurantCard.ClassAndIconAgree | frontend/src/components/RestaurantCard.tsx:102-113 | with the intended icons, the chip's colour and its emoji each show exactly the tone |
| RestaurantCard.IntendedIconsDistinguish | frontend/src/components/RestaurantCard.tsx:108-113 | the intended icons of two sentiments are equal exactly when their tones are |
| RestaurantCard.FilteredFeedback | frontend/src/components/RestaurantCard.tsx:173-175 | the first min(3, matching) items with count >= 2, in order; no feedback gives none |
| RestaurantCard.PopoverShown | frontend/src/components/RestaurantCard.tsx:218 | the popover shows exactly when some item is mentioned at least twice |

## Left out

- HTTP glue is not modelled: `jsonify`, templates, status codes other than the 400, 404 and 500 replies of the two modelled routes, `app.py`, `restaurant_routes.py` and `submit_ratings`. It adds routing, not decisions.
- MongoDB is a map from collection name to documents, and only the queries the core issues are modelled. The `$sample` and `$nin` queries appear only as the pools they produce.
- `restaurant_service.py` and `calculate_results.py` are not part of this model. The first is a one-call wrapper around the cluster lookup; the second is an offline statistics script.
- Python literal parsing (`ast.literal_eval`, `eval`) and text conversion in `int()`/`float()` are abstract parameters (`Parsers`). A literal parser gives a value or an exception, told apart only as far as the `except` clauses do: SyntaxError, ValueError, TypeError, or any other.
- Cosine similarity is an abstract real-valued parameter, and `round(x, 3)` an abstract function (`round3`).
- Infinite floats are not modelled; a float is finite or NaN. So `int()` never meets the infinity that makes it raise OverflowError.
- PyValues.PyFloat: `float()` of an int too large for a double raises OverflowError in Python; the model converts every int exactly.
- Text.Lower: case mapping covers the ASCII letters only; Python and JavaScript also map other letters, and some of them (such as "ß") change the length.
- Text.Capitalize: ASCII letters only, as for Text.Lower; `"ß".capitalize()` is longer than its input in Python, while the model keeps the length.
- Text.PyRepr: only the backslash, the quote, `\n`, `\r` and `\t` are escaped. Python's `repr` also writes other non-printable characters as `\xNN`, `\uNNNN` or `\UNNNNNNNN`, so for a label holding such a character the modelled combination key differs from the source's. Printability follows Unicode character data, which the model does not carry.
- UserRoutes.CheckSelection: the 400 reply for an unexpected exception is "Preferences retrieval error" without the exception text that the source appends after a colon.
- The `4_rec_restaurants` write of `test_recommendations` (recommendations.py:330-333) is not modelled as a store update. The list it writes is the `top4` that TestSelection.SelectTestRestaurants returns.
- clustering.py:4 imports `sanitize_data` from `app`, which neither defines nor imports it, so importing the module as written fails. The model resolves links with DataSanitizer.Sanitize from data_sanitizer.py, the function evidently meant.
- `random.choice` is an arbitrary member of its pool; `Math.random` does not occur in the core.
- Debug printing and logging are left out.
- Store.FindByIds: MongoDB promises no order for an unsorted `$in` query. The model fixes the order to the collection's, and that order decides the keys of UserService.BinaryFields (taken from the first found restaurant) and the order of UserService.IdTexts.
- Frontend rendering and networking are not modelled: markup, the request URLs, `fetch` and navigation. The selection page fetches `/api/restaurants/<id>`, while the backend serves `/api/restaurant_selection/<user_id>`. The page posts to `/api/selection`, which no backend route serves. Only the posted body is modelled.
- `toFixed` formatting of the rating, and Flask's own 400/415 replies for a body that is not JSON, are left out.
- Welcome.Form.ToggleCuisine: the source computes `isChecked` when the button renders, and the updater then tests it against `prev`. The model tests membership in the current list, which is the same whenever the state has not changed between render and click.
- RestaurantSelection.SelectToggled: ids are compared as values. JavaScript `===` on non-primitive ids would compare references.
- RestaurantSelection.Page.SetSearchTerm: the page declares the setter but never calls it, so the term stays empty in the source; the method models the setter.
- PreferenceFilter.FilterForUserWith: requires every city collection to hold documents with an ObjectId `_id`, as stored restaurants have, because line 156 calls `str` on it.
- UserRoutes.PreferenceDocument: a priority that is hashable but not a string is refused when the document is built (InvalidDocument). The source builds the dict and fails at the insert, which the model does not distinguish.
- Welcome.Dropped: dropping a value that is not in the list is modelled as the source does it. `indexOf` gives -1, so the last priority is removed (`Welcome.DropForeign`).

## Findings

| source | as written | input that shows it | evidently intended | confidence | as-written member | corrected member |
|---|---|---|---|---|---|---|
| backend/recommendations.py:136-141 | the stored wifi value is used as a key of `FIELD_MAPPING` | any stored preference document: `wifi` is `['Wifi']` or `[]` (user_routes.py:84), and hashing a list raises TypeError | read the list's labels through the mapping, so `['Wifi']` requires `is_free_wifi` | not executed | UserRoutes.StoredWifiBreaksFilter | UserRoutes.StoredWifiCorrected |
| frontend/src/routes/RestaurantSelection.tsx:97-103 | the selection is posted as `{ids: [...]}` | any three selected restaurants: the page posts to `/api/selection`, which no route serves; at the selection route the same body would get 400, since `submit_selection` finds no `user_id` or `selected_restaurants` (user_routes.py:31-35) | post `{user_id, selected_restaurants}` | not executed | RestaurantSelection.SubmitBodyRefused | RestaurantSelection.SubmitBodyAccepted |
| frontend/src/components/RestaurantCard.tsx:110-112 | the icon strings are emoji whose UTF-8 bytes were re-read as Windows-1254 text: the thumbs-up and the thumbs-down lost their differing last byte, so both read "ğŸ‘" | any positive and any negative sentiment, say 0.5 and -0.5: same icon, different colours | 👍 above 0.15, 👎 below -0.15, 😐 otherwise | not executed | RestaurantCard.IconsCollide | RestaurantCard.IntendedIcon |
